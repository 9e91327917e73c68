/** What the changelog fixer does to an entry, told from the lines of the file (scripts/fix-changelogs.ts). */
module ChangelogLines {
  import opened Prelude
  import opened LineSplit
  import opened ChangelogDocument
  import opened ChangelogRender
  import opened ChangelogItems
  import opened ChangelogNormalize
  import opened ChangelogMoves
  import opened ChangelogPromote
  import opened ChangelogFix
  import opened ChangelogConservation
  import opened ChangelogOnce
  import VersionOrder

  // ---------------------------------------------------------------- blocks of lines

  /** The heading at `a` with the lines up to `b`, where the next one stands or the lines end. */
  predicate BlockAt<L>(lines: seq<L>, head: L -> bool, a: nat, b: nat) {
    a < b <= |lines| && head(lines[a]) && FreeOf(lines, head, a + 1, b) && (b == |lines| || head(lines[b]))
  }

  predicate FreeOf<L>(lines: seq<L>, head: L -> bool, from: nat, to: nat) {
    to <= |lines| && forall i :: from <= i < to ==> !head(lines[i])
  }

  lemma {:induction false} BlockEnd<L>(lines: seq<L>, head: L -> bool, from: nat) returns (b: nat)
    requires from <= |lines|
    ensures from <= b <= |lines| && FreeOf(lines, head, from, b) && (b == |lines| || head(lines[b]))
    decreases |lines| - from
  {
    if from == |lines| || head(lines[from]) {
      b := from;
    } else {
      b := BlockEnd(lines, head, from + 1);
    }
  }

  lemma {:induction false} FreeFirst<L>(lines: seq<L>, head: L -> bool, to: nat)
    requires 0 < to && FreeOf(lines, head, 0, to)
    ensures lines != [] && !head(lines[0]) && FreeOf(lines[1..], head, 0, to - 1)
  {
    forall i | 0 <= i < to - 1 ensures !head(lines[1..][i]) {
      assert lines[1..][i] == lines[i + 1];
    }
  }

  lemma {:induction false} BeforeHeads<L>(lines: seq<L>, head: L -> bool, b: nat)
    requires FreeOf(lines, head, 0, b) && (b == |lines| || head(lines[b]))
    ensures SplitOf(lines, head).before == lines[..b]
  {
    if b > 0 {
      var rest := lines[1..];
      assert b < |lines| ==> rest[b - 1] == lines[b];
      FreeFirst(lines, head, b);
      BeforeHeads(rest, head, b - 1);
      assert lines[..b] == [lines[0]] + lines[1..][..b - 1];
    }
  }

  lemma {:induction false} SplitUnfolds<L>(lines: seq<L>, head: L -> bool)
    requires lines != []
    ensures var rest := SplitOf(lines[1..], head);
            SplitOf(lines, head).parts == (if head(lines[0]) then [Part(lines[0], rest.before)] else []) + rest.parts
  {
  }

  lemma {:induction false} BlockBelow<L>(lines: seq<L>, head: L -> bool, a: nat, b: nat)
    requires BlockAt(lines, head, a, b) && a > 0
    ensures BlockAt(lines[1..], head, a - 1, b - 1) && lines[1..][a - 1] == lines[a] && lines[1..][a..b - 1] == lines[a + 1..b]
  {
    var rest := lines[1..];
    assert rest[a - 1] == lines[a] && (b < |lines| ==> rest[b - 1] == lines[b]);
    FreeBelow(lines, head, a + 1, b);
    SliceBelow(lines, a + 1, b);
  }

  lemma {:induction false} FreeBelow<L>(lines: seq<L>, head: L -> bool, from: nat, to: nat)
    requires 0 < from <= to && FreeOf(lines, head, from, to)
    ensures lines != [] ==> FreeOf(lines[1..], head, from - 1, to - 1)
  {
    if lines != [] {
      forall i | from - 1 <= i < to - 1 ensures !head(lines[1..][i]) {
        assert lines[1..][i] == lines[i + 1];
      }
    }
  }

  lemma {:induction false} SliceBelow<L>(lines: seq<L>, from: nat, to: nat)
    requires 0 < from <= to <= |lines|
    ensures lines[1..][from - 1..to - 1] == lines[from..to]
  {
  }

  lemma {:induction false} BlockFirst<L>(lines: seq<L>, head: L -> bool, b: nat)
    requires BlockAt(lines, head, 0, b)
    ensures lines != [] && head(lines[0]) && SplitOf(lines[1..], head).before == lines[1..b]
  {
    FreeBelow(lines, head, 1, b);
    SliceBelow(lines, 1, b);
    var rest := lines[1..];
    assert b < |lines| ==> rest[b - 1] == lines[b];
    BeforeHeads(rest, head, b - 1);
    assert rest[..b - 1] == rest[0..b - 1];
  }

  /** Every block is a part of the split. */
  lemma {:induction false} PartAt<L>(lines: seq<L>, head: L -> bool, a: nat, b: nat) returns (k: nat)
    requires BlockAt(lines, head, a, b)
    ensures k < |SplitOf(lines, head).parts| && SplitOf(lines, head).parts[k] == Part(lines[a], lines[a + 1..b])
  {
    assert a < b <= |lines|;
    SplitUnfolds(lines, head);
    if a == 0 {
      BlockFirst(lines, head, b);
      k := 0;
    } else {
      BlockBelow(lines, head, a, b);
      hide *;
      k := PartAt(lines[1..], head, a - 1, b - 1);
      k := if head(lines[0]) then k + 1 else k;
    }
  }

  lemma {:induction false} SubsectionAt(parts: seq<Part<NumberedLine>>, k: nat)
    requires k < |parts|
    ensures var subs := SubsectionsOf(parts, LineOf);
            |subs| == |parts| && subs[k] == Subsection(TitleOf(parts[k].head.line), parts[k].body)
  {
    if |parts| > 1 {
      SubsectionAt(parts[1..], if k > 0 then k - 1 else 0);
    } else {
      assert parts[1..] == [];
    }
  }

  lemma {:induction false} SectionAt(parts: seq<Part<NumberedLine>>, k: nat)
    requires k < |parts|
    ensures |SectionsOf(parts, LineOf)| == |parts| && SectionsOf(parts, LineOf)[k] == SectionOf(parts[k], LineOf)
  {
    hide SectionOf;
    if |parts| > 1 {
      SectionAt(parts[1..], if k > 0 then k - 1 else 0);
    } else {
      assert parts[1..] == [];
    }
  }

  lemma {:induction false} ItemAt(parts: seq<Part<NumberedLine>>, k: nat)
    requires k < |parts|
    ensures |ItemsOfParts(parts)| == |parts| && ItemsOfParts(parts)[k] == ItemOf(parts[k])
  {
    KeysOfItems(parts, k);
  }

  lemma {:induction false} NumberAt(content: seq<Line>, first: nat, i: nat)
    requires i < |content|
    ensures |Number(content, first)| == |content| && Number(content, first)[i] == NumberedLine(content[i], first + i)
  {
    if i > 0 {
      NumberAt(content[1..], first + 1, i - 1);
    } else if |content| > 1 {
      NumberAt(content[1..], first + 1, 0);
    } else {
      assert content[1..] == [];
    }
  }

  lemma {:induction false} NumberedTexts(content: seq<Line>, a: nat, b: nat)
    requires a <= b <= |content|
    ensures |Number(content, 1)| == |content| && Texts(Number(content, 1)[a..b]) == content[a..b]
    decreases b - a
  {
    NumberConsecutive(content, 1);
    var lines := Number(content, 1);
    if a < b {
      NumberAt(content, 1, a);
      NumberedTexts(content, a + 1, b);
      assert lines[a..b][1..] == lines[a + 1..b];
      assert content[a..b] == [content[a]] + content[a + 1..b];
    }
  }

  // ---------------------------------------------------------------- an entry of the file

  /**
   The bullet at `n`, with the lines up to `e`, stands under the `###` heading at `s` of the release heading at `r`. Line
   numbers count from one, so this is the bullet of line `n + 1`.
   */
  predicate EntryAt(content: seq<Line>, r: nat, s: nat, n: nat, e: nat) {
    && r < s < n < e <= |content| && content[r].Release? && content[s].SubHead? && content[n].Item?
    && (forall i :: r < i < e ==> !content[i].Release?)
    && (forall i :: s < i < e ==> !content[i].SubHead?)
    && (forall i :: n < i < e ==> !content[i].Item?)
    && (e == |content| || content[e].Release? || content[e].SubHead? || content[e].Item?)
  }

  lemma {:induction false} EntryMeans(content: seq<Line>, r: nat, s: nat, n: nat, e: nat)
    requires EntryAt(content, r, s, n, e)
    ensures r < s < n < e <= |content| && content[r].Release? && content[s].SubHead? && content[n].Item?
    ensures forall i :: r < i < e ==> !content[i].Release?
    ensures forall i :: s < i < e ==> !content[i].SubHead?
    ensures forall i :: n < i < e ==> !content[i].Item?
    ensures e == |content| || content[e].Release? || content[e].SubHead? || content[e].Item?
  {
  }

  /** Its text: without the blank lines after it. */
  function EntryText(content: seq<Line>, n: nat, e: nat): seq<Line>
    requires n <= e <= |content|
  {
    Trim(content[n..e])
  }

  lemma {:induction false} HeadsOfLines()
    ensures forall l :: IsRelease(LineOf)(l) == l.line.Release? && IsSubHead(LineOf)(l) == l.line.SubHead?
  {
    forall l ensures IsRelease(LineOf)(l) == l.line.Release? && IsSubHead(LineOf)(l) == l.line.SubHead? {
      assert LineOf(l) == l.line;
    }
  }

  /** A release heading of the file is a section, with the lines up to the next one. */
  lemma {:induction false} ReleaseIsParsed(content: seq<Line>, r: nat, from: nat) returns (i: nat, end: nat)
    requires r < from <= |content| && content[r].Release? && forall x :: r < x < from ==> !content[x].Release?
    ensures from <= end <= |content| == |Number(content, 1)|
    ensures FreeOf(Number(content, 1), IsRelease(LineOf), from, end) && (end == |content| || content[end].Release?)
    ensures i < |Parsed(content).sections|
    ensures Parsed(content).sections[i] == SectionOf(Part(NumberedLine(content[r], r + 1), Number(content, 1)[r + 1..end]), LineOf)
  {
    HeadsOfLines();
    NumberAt(content, 1, r);
    var lines := Number(content, 1);
    forall x: nat | x < |content| ensures lines[x] == NumberedLine(content[x], x + 1) {
      NumberAt(content, 1, x);
    }
    end := BlockEnd(lines, IsRelease(LineOf), from);
    assert BlockAt(lines, IsRelease(LineOf), r, end);
    i := PartAt(lines, IsRelease(LineOf), r, end);
    SectionAt(SplitOf(lines, IsRelease(LineOf)).parts, i);
  }

  /** So is a `###` heading below it a subsection. */
  lemma {:induction false} SubHeadIsParsed(head: NumberedLine, body: seq<NumberedLine>, s: nat, from: nat) returns (k: nat, end: nat)
    requires s < from <= |body| && body[s].line.SubHead? && forall x :: s < x < from ==> !body[x].line.SubHead?
    ensures from <= end <= |body| && FreeOf(body, IsSubHead(LineOf), from, end) && (end == |body| || body[end].line.SubHead?)
    ensures k < |SectionOf(Part(head, body), LineOf).subsections|
    ensures SectionOf(Part(head, body), LineOf).subsections[k] == Subsection(body[s].line.title, body[s + 1..end])
  {
    HeadsOfLines();
    end := BlockEnd(body, IsSubHead(LineOf), from);
    assert BlockAt(body, IsSubHead(LineOf), s, end);
    k := PartAt(body, IsSubHead(LineOf), s, end);
    SubsectionAt(SplitOf(body, IsSubHead(LineOf)).parts, k);
  }

  lemma {:induction false} ItemIsParsed(lines: seq<NumberedLine>, a: nat, b: nat) returns (it: nat)
    requires a < b <= |lines| && lines[a].line.Item? && forall x :: a < x < b ==> !lines[x].line.Item?
    requires b == |lines| || lines[b].line.Item?
    ensures it < |ItemsOfParts(Parts(lines))| && ItemsOfParts(Parts(lines))[it] == ItemOf(Part(lines[a], lines[a + 1..b]))
  {
    ItemHeads();
    assert BlockAt(lines, IsItem(LineOf), a, b);
    it := PartAt(lines, IsItem(LineOf), a, b);
    ItemAt(Parts(lines), it);
  }

  lemma {:induction false} SliceOfSlice<T>(a: seq<T>, i: nat, j: nat, k: nat, l: nat)
    requires i <= j <= |a| && k <= l <= j - i
    ensures a[i..j][k..l] == a[i + k..i + l]
  {
    forall x | 0 <= x < l - k ensures a[i..j][k..l][x] == a[i + k..i + l][x] {
    }
  }

  lemma {:induction false} LinesNumbered(content: seq<Line>)
    ensures |Number(content, 1)| == |content|
    ensures forall x :: 0 <= x < |content| ==> Number(content, 1)[x].line == content[x]
  {
    NumberConsecutive(content, 1);
    forall x: nat | x < |content| ensures Number(content, 1)[x].line == content[x] {
      NumberAt(content, 1, x);
    }
  }

  /** Every bullet of the file is an entry of the parsed document, under the headings above it. */
  lemma {:induction false} EntryIsParsed(content: seq<Line>, r: nat, s: nat, n: nat, e: nat) returns (i: nat, k: nat, it: nat)
    requires EntryAt(content, r, s, n, e)
    ensures i < |Parsed(content).sections| && Parsed(content).sections[i].title == content[r].title
    ensures k < |Parsed(content).sections[i].subsections|
    ensures var sub := Parsed(content).sections[i].subsections[k];
            && sub.title == content[s].title && it < |ItemsOfParts(Parts(sub.lines))|
            && ItemsOfParts(Parts(sub.lines))[it] == ParsedItem(n + 1, e, EntryText(content, n, e))
  {
    hide *;
    var own: seq<NumberedLine>, end: nat;
    i, k, own, end := SubsectionIsParsed(content, r, s, n, e);
    it := EntryInSubsection(content, s, n, e, own, end);
  }

  lemma {:induction false} SubsectionIsParsed(content: seq<Line>, r: nat, s: nat, n: nat, e: nat)
    returns (i: nat, k: nat, own: seq<NumberedLine>, end: nat)
    requires EntryAt(content, r, s, n, e)
    ensures i < |Parsed(content).sections| && Parsed(content).sections[i].title == content[r].title
    ensures k < |Parsed(content).sections[i].subsections|
    ensures Parsed(content).sections[i].subsections[k] == Subsection(content[s].title, own)
    ensures s < n < e <= end <= |content| == |Number(content, 1)| && own == Number(content, 1)[s + 1..end]
    ensures content[n].Item? && (forall x :: n < x < e ==> !content[x].Item?) && (e == end || content[e].Item?)
  {
    hide SectionOf, Parsed, Number, FreeOf;
    var re: nat;
    i, re := ReleaseIsParsed(content, r, e);
    SectionTitle(NumberedLine(content[r], r + 1), Number(content, 1)[r + 1..re]);
    hide EntryAt;
    k, own, end := SubsectionInBody(content, r, s, n, e, re);
  }

  lemma {:induction false} SubsectionInBody(content: seq<Line>, r: nat, s: nat, n: nat, e: nat, re: nat)
    returns (k: nat, own: seq<NumberedLine>, end: nat)
    requires EntryAt(content, r, s, n, e) && e <= re <= |content| == |Number(content, 1)|
    requires FreeOf(Number(content, 1), IsRelease(LineOf), e, re)
    ensures r < s < n < e <= end <= |content| && own == Number(content, 1)[s + 1..end]
    ensures var section := SectionOf(Part(NumberedLine(content[r], r + 1), Number(content, 1)[r + 1..re]), LineOf);
            k < |section.subsections| && content[s].SubHead? && section.subsections[k] == Subsection(content[s].title, own)
    ensures content[n].Item? && (forall x :: n < x < e ==> !content[x].Item?) && (e == end || content[e].Item?)
  {
    hide SectionOf, Number, FreeOf;
    var lines, se: nat := Number(content, 1), 0;
    var head, body := NumberedLine(content[r], r + 1), lines[r + 1..re];
    BodyLines(content, r + 1, re);
    k, se := SubHeadIsParsed(head, body, s - r - 1, e - r - 1);
    own, end := body[s - r..se], r + 1 + se;
    SliceOfSlice(lines, r + 1, re, s - r, se);
    NothingBetween(content, body, re, e, r, se);
  }

  lemma {:induction false} BodyLines(content: seq<Line>, a: nat, b: nat)
    requires a <= b <= |content|
    ensures |Number(content, 1)| == |content|
    ensures forall x :: 0 <= x < b - a ==> Number(content, 1)[a..b][x].line == content[a + x]
  {
    LinesNumbered(content);
  }

  lemma {:induction false} SectionTitle(head: NumberedLine, body: seq<NumberedLine>)
    requires head.line.Release?
    ensures SectionOf(Part(head, body), LineOf).title == head.line.title
  {
    assert LineOf(head) == head.line;
  }

  /** Where an entry ends in a heading, its subsection ends. */
  lemma {:induction false} NothingBetween(content: seq<Line>, body: seq<NumberedLine>, re: nat, e: nat, r: nat, se: nat)
    requires r + 1 <= e <= re <= |content| == |Number(content, 1)| && FreeOf(Number(content, 1), IsRelease(LineOf), e, re)
    requires body == Number(content, 1)[r + 1..re]
    requires e - r - 1 <= se <= re - r - 1 && FreeOf(body, IsSubHead(LineOf), e - r - 1, se)
    requires e == |content| || content[e].Release? || content[e].SubHead? || content[e].Item?
    ensures e == r + 1 + se || content[e].Item?
  {
    HeadsOfLines();
    if e < r + 1 + se {
      NumberAt(content, 1, e);
      assert body[e - r - 1] == Number(content, 1)[e];
    }
  }

  lemma {:induction false} EntryInSubsection(content: seq<Line>, s: nat, n: nat, e: nat, own: seq<NumberedLine>, end: nat) returns (it: nat)
    requires s < n < e <= end <= |content| == |Number(content, 1)| && own == Number(content, 1)[s + 1..end]
    requires content[n].Item? && (forall x :: n < x < e ==> !content[x].Item?) && (e == end || content[e].Item?)
    ensures it < |ItemsOfParts(Parts(own))|
    ensures ItemsOfParts(Parts(own))[it] == ParsedItem(n + 1, e, EntryText(content, n, e))
  {
    hide Number, ItemOf, ItemsOfParts, Parts, EntryText;
    LinesNumbered(content);
    it := ItemIsParsed(own, n - s - 1, e - s - 1);
    SliceOfSlice(Number(content, 1), s + 1, end, n - s, e - s - 1);
    OwnItem(content, n, e);
  }

  lemma {:induction false} OwnItem(content: seq<Line>, n: nat, e: nat)
    requires n < e <= |content| == |Number(content, 1)|
    ensures ItemOf(Part(Number(content, 1)[n], Number(content, 1)[n + 1..e])) == ParsedItem(n + 1, e, EntryText(content, n, e))
  {
    var lines := Number(content, 1);
    NumberAt(content, 1, n);
    NumberAt(content, 1, e - 1);
    NumberedTexts(content, n, e);
    var p := Part(lines[n], lines[n + 1..e]);
    assert PartLines(p) == lines[n..e];
  }

  // ---------------------------------------------------------------- taking entries out

  /** How many of the first `n` items pass. */
  function CountOf(items: seq<ParsedItem>, q: Test, n: nat): nat
    requires n <= |items|
  {
    if n == 0 then 0 else (if q(items[0]) then 1 else 0) + CountOf(items[1..], q, n - 1)
  }

  lemma {:induction false} FilterAt(items: seq<ParsedItem>, q: Test, i: nat)
    requires i <= |items|
    ensures |Filter(items, q)| == CountOf(items, q, |items|)
    ensures i < |items| && q(items[i]) ==> CountOf(items, q, i) < |Filter(items, q)| && Filter(items, q)[CountOf(items, q, i)] == items[i]
  {
    if items != [] {
      FilterAt(items[1..], q, if i > 0 then i - 1 else |items| - 1);
    }
  }

  function Not(q: Test): Test {
    (item: ParsedItem) => !q(item)
  }

  lemma {:induction false} CountsAdd(items: seq<ParsedItem>, q: Test, n: nat)
    requires n <= |items|
    ensures CountOf(items, q, n) + CountOf(items, Not(q), n) == n
  {
    if n > 0 {
      assert Not(q)(items[0]) == !q(items[0]);
      CountsAdd(items[1..], q, n - 1);
    }
  }

  lemma {:induction false} LeaveIsFilter(parts: seq<Part<NumberedLine>>, q: Test)
    ensures ItemsOfParts(LeaveParts(parts, Picks(q))) == Filter(ItemsOfParts(parts), Not(q))
  {
    hide ItemOf;
    if parts != [] {
      LeaveIsFilter(parts[1..], q);
      var items, x := ItemsOfParts(parts), ItemOf(parts[0]);
      assert items[1..] == ItemsOfParts(parts[1..]) && Picks(q)(parts[0]) == q(x) && Not(q)(x) == !q(x);
      if !q(x) {
        assert LeaveParts(parts, Picks(q))[1..] == LeaveParts(parts[1..], Picks(q));
      }
    }
  }

  lemma {:induction false} PickedIsFilter(lines: seq<NumberedLine>, q: Test)
    ensures Picked(lines, q) == Filter(ItemsOfParts(Parts(lines)), q)
  {
    FilterPicks(Parts(lines), q);
  }

  lemma {:induction false} LeftIsFilter(lines: seq<NumberedLine>, q: Test)
    ensures ItemsOfParts(Parts(Left(lines, Picks(q)))) == Filter(ItemsOfParts(Parts(lines)), Not(q))
  {
    hide *;
    LeftIsProper(lines, Picks(q));
    LeaveIsFilter(Parts(lines), q);
  }

  lemma {:induction false} NotMeans(q: Test, item: ParsedItem)
    ensures Not(q)(item) == !q(item)
  {
  }

  /** Each item that passes is taken out and each other one stays, both in the order they had; nothing else does either. */
  lemma {:induction false} SortedOut(lines: seq<NumberedLine>, q: Test, i: nat)
    requires i <= |ItemsOfParts(Parts(lines))|
    ensures var items, rest := ItemsOfParts(Parts(lines)), ItemsOfParts(Parts(Left(lines, Picks(q))));
            var before := CountOf(items, q, i);
            && before <= i && |Picked(lines, q)| == CountOf(items, q, |items|) && |rest| == |items| - |Picked(lines, q)|
            && (i < |items| ==> if q(items[i]) then before < |Picked(lines, q)| && Picked(lines, q)[before] == items[i]
                                else i - before < |rest| && rest[i - before] == items[i])
  {
    hide *;
    var items := ItemsOfParts(Parts(lines));
    PickedIsFilter(lines, q);
    FilterAt(items, q, i);
    LeftIsFilter(lines, q);
    FilterAt(items, Not(q), i);
    CountsAdd(items, q, i);
    CountsAdd(items, q, |items|);
    if i < |items| {
      NotMeans(q, items[i]);
    }
  }

  // ---------------------------------------------------------------- what happens to an entry

  /**
   A bullet of a release whose line is promotable stands whole in the [Unreleased] of the fixed file, in the one
   subsection with the `###` heading above it.
   */
  lemma {:induction false} MarkedEntryMoves(content: seq<Line>, promotable: set<nat>, historical: set<Key>, parts: VersionOrder.Parts,
                             t: seq<Section>, fixed: seq<Line>, r: nat, s: nat, n: nat, e: nat) returns (j: nat)
    requires Fixes(content, promotable, historical, parts, t, fixed)
    requires EntryAt(content, r, s, n, e) && content[r].title != UNRELEASED && n + 1 in promotable
    ensures j < |Arrange(t, parts)| && Arrange(t, parts)[j].title == UNRELEASED
    ensures DistinctTitles(Arrange(t, parts)[j].subsections)
    ensures HasKey(Arrange(t, parts)[j].subsections, content[s].title, EntryText(content, n, e))
  {
    hide *;
    EntryMeans(content, r, s, n, e);
    var i, k, it := EntryIsParsed(content, r, s, n, e);
    var lines, q := Parsed(content).sections[i].subsections[k].lines, StartIn(promotable);
    SortedOut(lines, q, it);
    StartInMeans(promotable, ItemsOfParts(Parts(lines))[it]);
    j := PromotableIsUnreleased(content, promotable, historical, parts, t, fixed, i, k, CountOf(ItemsOfParts(Parts(lines)), q, it));
  }

  lemma {:induction false} StartInMeans(promotable: set<nat>, item: ParsedItem)
    ensures StartIn(promotable)(item) <==> item.startLine in promotable
  {
  }

  /** The text of any other bullet of a release stays in that release, under its `###` heading. */
  lemma {:induction false} UnmarkedEntryStays(content: seq<Line>, promotable: set<nat>, historical: set<Key>, parts: VersionOrder.Parts,
                               t: seq<Section>, fixed: seq<Line>, r: nat, s: nat, n: nat, e: nat) returns (j: nat)
    requires Fixes(content, promotable, historical, parts, t, fixed)
    requires EntryAt(content, r, s, n, e) && content[r].title != UNRELEASED && n + 1 !in promotable
    ensures j < |Arrange(t, parts)| && Arrange(t, parts)[j].title == content[r].title
    ensures forall x :: x in Solid(EntryText(content, n, e)) ==> x in Under(Arrange(t, parts)[j].subsections, content[s].title)
  {
    hide *;
    EntryMeans(content, r, s, n, e);
    var i, k, it := EntryIsParsed(content, r, s, n, e);
    var section, q, key := Parsed(content).sections[i], StartIn(promotable), EntryText(content, n, e);
    StartInMeans(promotable, ItemsOfParts(Parts(section.subsections[k].lines))[it]);
    LeftInKeys(section.subsections[k].lines, q, it);
    j := ReleasesAreKept(content, promotable, historical, parts, t, fixed, i);
    forall x | x in Solid(key) ensures x in Under(Arrange(t, parts)[j].subsections, content[s].title) {
      TextStaysUnder(section, q, k, key, x, Arrange(t, parts)[j]);
    }
    SameHeading(StripSection(section, q), Arrange(t, parts)[j]);
    StripHeading(section, q);
  }

  lemma {:induction false} SameHeading(s: Section, t: Section)
    requires SameText(s, t)
    ensures t.title == s.title
  {
  }

  lemma {:induction false} StripHeading(s: Section, q: Test)
    ensures StripSection(s, q).title == s.title && |StripSection(s, q).subsections| == |s.subsections|
    ensures forall k :: 0 <= k < |s.subsections| ==>
              StripSection(s, q).subsections[k] == Subsection(s.subsections[k].title, Left(s.subsections[k].lines, Picks(q)))
  {
    hide Left;
  }

  lemma {:induction false} TextStaysUnder(s: Section, q: Test, k: nat, key: seq<Line>, x: Line, t: Section)
    requires k < |s.subsections| && key in Keys(Texts(Left(s.subsections[k].lines, Picks(q)))) && x in Solid(key)
    requires SameText(StripSection(s, q), t)
    ensures x in Under(t.subsections, s.subsections[k].title)
  {
    hide Left, Keys, Texts, Solid, StripSection, UnderTo;
    StripHeading(s, q);
    KeyTextInLines(Texts(Left(s.subsections[k].lines, Picks(q))), key, x);
    var left := StripSection(s, q).subsections;
    SubTextUnder(left, |left|, k, x);
    assert Under(t.subsections, s.subsections[k].title) == UnderTo(left, |left|, s.subsections[k].title);
  }

  /** An item that is not taken out is among those that are left. */
  lemma {:induction false} LeftInKeys(lines: seq<NumberedLine>, q: Test, it: nat)
    requires it < |ItemsOfParts(Parts(lines))| && !q(ItemsOfParts(Parts(lines))[it])
    ensures ItemsOfParts(Parts(lines))[it].lines in Keys(Texts(Left(lines, Picks(q))))
  {
    hide *;
    SortedOut(lines, q, it);
    ItemTexts(Left(lines, Picks(q)));
    var c := CountOf(ItemsOfParts(Parts(lines)), q, it);
    assert Keys(Texts(Left(lines, Picks(q))))[it - c] == ItemsOfParts(Parts(lines))[it].lines;
  }

  // ---------------------------------------------------------------- duplicates

  /** Some release has the entry. */
  ghost predicate Released(sections: seq<Section>, key: Key) {
    exists i, k :: 0 <= i < |sections| && sections[i].title != UNRELEASED && 0 <= k < |sections[i].subsections|
                   && key in Keys(Texts(sections[i].subsections[k].lines))
  }

  lemma {:induction false} ReleasedExactly(sections: seq<Section>, key: Key)
    ensures key in ReleasedKeys(sections, |sections|) <==> Released(sections, key)
  {
    hide Keys, SubKeys, ReleasedKeys;
    if Released(sections, key) {
      var i, k :| 0 <= i < |sections| && sections[i].title != UNRELEASED && 0 <= k < |sections[i].subsections|
                  && key in Keys(Texts(sections[i].subsections[k].lines));
      ReleasedKeyHolds(sections, |sections|, i, k, key);
    }
    if key in ReleasedKeys(sections, |sections|) {
      var i, k := KeySource(sections, |sections|, key);
    }
  }

  lemma {:induction false} InKeysMeans(keys: set<Key>, item: ParsedItem)
    ensures InKeys(keys)(item) <==> item.lines in keys
  {
  }

  /** Taking out the entries in a set leaves exactly the others. */
  lemma {:induction false} KeysLeft(lines: seq<NumberedLine>, keys: set<Key>, key: Key)
    ensures key in Keys(Texts(Left(lines, Picks(InKeys(keys))))) <==> key in Keys(Texts(lines)) && key !in keys
  {
    hide *;
    var q, items := InKeys(keys), ItemsOfParts(Parts(lines));
    ItemTexts(lines);
    ItemTexts(Left(lines, Picks(q)));
    if key in Keys(Texts(lines)) && key !in keys {
      var it :| 0 <= it < |Keys(Texts(lines))| && Keys(Texts(lines))[it] == key;
      InKeysMeans(keys, items[it]);
      LeftInKeys(lines, q, it);
    }
    if key in Keys(Texts(Left(lines, Picks(q)))) {
      var j :| 0 <= j < |Keys(Texts(Left(lines, Picks(q))))| && Keys(Texts(Left(lines, Picks(q))))[j] == key;
      LeftIsFilter(lines, q);
      var it := FilterHas(items, Not(q), j);
      NotMeans(q, items[it]);
      InKeysMeans(keys, items[it]);
      assert Keys(Texts(lines))[it] == key;
    }
  }

  /** The first [Unreleased] loses an entry exactly when a release has it, now or in history; every other section stays. */
  lemma {:induction false} DuplicatesGo(content: seq<Line>, historical: set<Key>, k: nat, key: Key)
    requires var sections := Parsed(content).sections; First(sections) >= 0 && k < |sections[First(sections)].subsections|
    ensures var before, now := Parsed(content).sections, Deduplicated(content, historical);
            var u := First(before);
            && |now| == |before| && now[u].title == UNRELEASED && |now[u].subsections| == |before[u].subsections|
            && now[u].subsections[k].title == before[u].subsections[k].title
            && (key in Keys(Texts(now[u].subsections[k].lines)) <==>
                  key in Keys(Texts(before[u].subsections[k].lines)) && !Released(before, key) && key !in historical)
            && forall i :: 0 <= i < |before| && i != u ==> now[i] == before[i]
  {
    var sections := Parsed(content).sections;
    var u, keys := First(sections), ReleasedKeys(sections, |sections|) + historical;
    ReleasedExactly(sections, key);
    StripHeading(sections[u], InKeys(keys));
    KeysLeft(sections[u].subsections[k].lines, keys, key);
    hide StripSection, Keys, Left, Parsed, ReleasedKeys, Released, InKeys, Picks;
  }
}
