/** Splitting lines at headings: both loops of the changelog parser (scripts/fix-changelogs.ts) are this one. */
module LineSplit {
  datatype Part<L> = Part(head: L, body: seq<L>)

  datatype Split<L> = Split(before: seq<L>, parts: seq<Part<L>>)

  /** The lines a split was made from. */
  function Flat<L>(s: Split<L>): seq<L> {
    s.before + FlatParts(s.parts)
  }

  function FlatParts<L>(parts: seq<Part<L>>): seq<L> {
    if parts == [] then [] else [parts[0].head] + parts[0].body + FlatParts(parts[1..])
  }

  predicate NoHead<L>(lines: seq<L>, head: L -> bool) {
    lines == [] || (!head(lines[0]) && NoHead(lines[1..], head))
  }

  /** Heads are headings, and no other line is. */
  predicate Proper<L>(s: Split<L>, head: L -> bool) {
    NoHead(s.before, head) && ProperParts(s.parts, head)
  }

  predicate ProperParts<L>(parts: seq<Part<L>>, head: L -> bool) {
    parts == [] || (head(parts[0].head) && NoHead(parts[0].body, head) && ProperParts(parts[1..], head))
  }

  function SplitOf<L>(lines: seq<L>, head: L -> bool): Split<L> {
    if lines == [] then Split([], [])
    else
      var rest := SplitOf(lines[1..], head);
      if head(lines[0]) then Split([], [Part(lines[0], rest.before)] + rest.parts)
      else Split([lines[0]] + rest.before, rest.parts)
  }

  /** A proper split is the split of its lines. */
  lemma {:induction false} SplitOfFlat<L>(s: Split<L>, head: L -> bool)
    requires Proper(s, head)
    ensures SplitOf(Flat(s), head) == s
    decreases |s.parts|, |s.before|
  {
    if s.before != [] {
      var rest := Split(s.before[1..], s.parts);
      FlatRest(s, rest);
      hide Flat;
      SplitOfFlat(rest, head);
    } else if s.parts != [] {
      var rest := Split(s.parts[0].body, s.parts[1..]);
      FlatRest(s, rest);
      hide Flat;
      SplitOfFlat(rest, head);
    }
  }

  lemma {:induction false} FlatRest<L>(s: Split<L>, rest: Split<L>)
    requires if s.before != [] then rest == Split(s.before[1..], s.parts)
             else s.parts != [] && rest == Split(s.parts[0].body, s.parts[1..])
    ensures Flat(s) == [if s.before != [] then s.before[0] else s.parts[0].head] + Flat(rest)
    ensures Flat(s)[1..] == Flat(rest)
  {
  }

  lemma {:induction false} FlatOfHead<L>(x: L, rest: Split<L>, head: L -> bool)
    requires Proper(rest, head) && head(x)
    ensures var s := Split([], [Part(x, rest.before)] + rest.parts); Proper(s, head) && Flat(s) == [x] + Flat(rest)
  {
    var parts := [Part(x, rest.before)] + rest.parts;
    assert parts[1..] == rest.parts;
    assert [x] + rest.before + FlatParts(rest.parts) == [x] + (rest.before + FlatParts(rest.parts));
  }

  lemma {:induction false} FlatOfLine<L>(x: L, rest: Split<L>, head: L -> bool)
    requires Proper(rest, head) && !head(x)
    ensures var s := Split([x] + rest.before, rest.parts); Proper(s, head) && Flat(s) == [x] + Flat(rest)
  {
    var before := [x] + rest.before;
    assert before[1..] == rest.before;
    assert [x] + rest.before + FlatParts(rest.parts) == [x] + (rest.before + FlatParts(rest.parts));
  }

  /** A split loses no line and moves none. */
  lemma {:induction false} FlatOfSplit<L>(lines: seq<L>, head: L -> bool)
    ensures Proper(SplitOf(lines, head), head) && Flat(SplitOf(lines, head)) == lines
  {
    if lines != [] {
      FlatOfSplit(lines[1..], head);
      var rest := SplitOf(lines[1..], head);
      if head(lines[0]) {
        FlatOfHead(lines[0], rest, head);
      } else {
        FlatOfLine(lines[0], rest, head);
      }
    }
  }

  lemma {:induction false} NoHeadPush<L>(lines: seq<L>, x: L, head: L -> bool)
    requires NoHead(lines, head) && !head(x)
    ensures NoHead(lines + [x], head)
  {
    if lines != [] {
      NoHeadPush(lines[1..], x, head);
      assert (lines + [x])[1..] == lines[1..] + [x];
    }
  }

  lemma {:induction false} PartsPush<L>(parts: seq<Part<L>>, p: Part<L>, head: L -> bool)
    requires ProperParts(parts, head) && head(p.head) && NoHead(p.body, head)
    ensures ProperParts(parts + [p], head) && FlatParts(parts + [p]) == FlatParts(parts) + [p.head] + p.body
  {
    ProperPush(parts, p, head);
    FlatPush(parts, p);
  }

  lemma {:induction false} ProperPush<L>(parts: seq<Part<L>>, p: Part<L>, head: L -> bool)
    requires ProperParts(parts, head) && head(p.head) && NoHead(p.body, head)
    ensures ProperParts(parts + [p], head)
  {
    hide NoHead;
    if parts == [] {
      assert (parts + [p])[1..] == [];
    } else {
      ProperPush(parts[1..], p, head);
      assert (parts + [p])[1..] == parts[1..] + [p];
    }
  }

  lemma {:induction false} FlatPush<L>(parts: seq<Part<L>>, p: Part<L>)
    ensures FlatParts(parts + [p]) == FlatParts(parts) + [p.head] + p.body
  {
    if parts == [] {
      assert (parts + [p])[1..] == [];
    } else {
      FlatPush(parts[1..], p);
      assert (parts + [p])[1..] == parts[1..] + [p];
    }
  }

  lemma {:induction false} PrefixGrows<L>(lines: seq<L>, index: nat, next: nat, before: seq<L>, flat: seq<L>)
    requires index < next <= |lines| && before + flat == lines[..index]
    ensures before + (flat + [lines[index]] + lines[index + 1..next]) == lines[..next]
  {
    assert lines[..next] == lines[..index] + [lines[index]] + lines[index + 1..next];
    assert before + (flat + [lines[index]] + lines[index + 1..next]) == (before + flat) + [lines[index]] + lines[index + 1..next];
  }

  /** The lines before the first heading, and the lines under each heading. */
  method SplitAtHeadings<L>(lines: seq<L>, head: L -> bool) returns (s: Split<L>)
    ensures s == SplitOf(lines, head)
  {
    var before: seq<L>, index := TakeBody(lines, 0, head);
    var parts: seq<Part<L>> := [];
    while index < |lines|
      invariant index <= |lines| && (index < |lines| ==> head(lines[index]))
      invariant NoHead(before, head) && ProperParts(parts, head)
      invariant before + FlatParts(parts) == lines[..index]
    {
      var headingLine := lines[index];
      var body, next := TakeBody(lines, index + 1, head);
      PartsPush(parts, Part(headingLine, body), head);
      PrefixGrows(lines, index, next, before, FlatParts(parts));
      parts := parts + [Part(headingLine, body)];
      index := next;
    }
    s := Split(before, parts);
    assert lines[..index] == lines;
    SplitOfFlat(s, head);
  }

  /** The lines from `from` up to the next heading, and where that is. */
  method TakeBody<L>(lines: seq<L>, from: nat, head: L -> bool) returns (body: seq<L>, next: nat)
    requires from <= |lines|
    ensures from <= next <= |lines| && body == lines[from..next] && NoHead(body, head)
    ensures next < |lines| ==> head(lines[next])
  {
    body, next := [], from;
    while next < |lines| && !head(lines[next])
      invariant from <= next <= |lines| && body == lines[from..next] && NoHead(body, head)
    {
      NoHeadPush(body, lines[next], head);
      body := body + [lines[next]];
      next := next + 1;
    }
  }

  // ---------------------------------------------------------------- splitting tagged lines

  function Untag<M, L>(lines: seq<M>, tag: M -> L): seq<L> {
    if lines == [] then [] else [tag(lines[0])] + Untag(lines[1..], tag)
  }

  function UntagParts<M, L>(parts: seq<Part<M>>, tag: M -> L): seq<Part<L>> {
    if parts == [] then [] else [Part(tag(parts[0].head), Untag(parts[0].body, tag))] + UntagParts(parts[1..], tag)
  }

  /** Splitting numbered lines splits their texts. */
  lemma {:induction false} SplitUntag<M, L>(lines: seq<M>, tag: M -> L, head: L -> bool, tagged: M -> bool)
    requires forall i :: 0 <= i < |lines| ==> tagged(lines[i]) == head(tag(lines[i]))
    ensures var s := SplitOf(lines, tagged);
            SplitOf(Untag(lines, tag), head) == Split(Untag(s.before, tag), UntagParts(s.parts, tag))
  {
    if lines != [] {
      SplitUntag(lines[1..], tag, head, tagged);
      assert Untag(lines, tag)[1..] == Untag(lines[1..], tag);
      var rest, s := SplitOf(lines[1..], tagged), SplitOf(lines, tagged);
      if tagged(lines[0]) {
        assert s.parts[1..] == rest.parts;
      } else {
        assert s.before[1..] == rest.before;
      }
    }
  }
}
