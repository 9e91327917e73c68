/** The items of lines that are joined, trimmed or compacted (scripts/fix-changelogs.ts). */
module ChangelogKeys {
  import opened LineSplit
  import opened ChangelogDocument
  import opened ChangelogRender
  import opened ChangelogItems

  // ---------------------------------------------------------------- the items of joined lines

  predicate StartsWithItem(lines: seq<Line>) {
    lines != [] && lines[0].Item?
  }

  function ItemParts(lines: seq<Line>): Split<Line> {
    SplitOf(lines, IsItem(Same))
  }

  lemma {:induction false} FlatJoin(a: seq<Part<Line>>, b: seq<Part<Line>>)
    ensures FlatParts(a + b) == FlatParts(a) + FlatParts(b)
  {
    if a == [] {
      assert a + b == b;
    } else {
      FlatJoin(a[1..], b);
      assert (a + b)[1..] == a[1..] + b;
      Associates([a[0].head] + a[0].body, FlatParts(a[1..]), FlatParts(b));
    }
  }

  lemma {:induction false} KeysOfJoin(a: seq<Part<Line>>, b: seq<Part<Line>>)
    ensures KeysOf(a + b) == KeysOf(a) + KeysOf(b)
  {
    if a == [] {
      assert a + b == b;
    } else {
      KeysOfJoin(a[1..], b);
      assert (a + b)[1..] == a[1..] + b;
      Associates([Trim(PartLines(a[0]))], KeysOf(a[1..]), KeysOf(b));
    }
  }

  lemma {:induction false} ProperJoin(a: seq<Part<Line>>, b: seq<Part<Line>>)
    ensures ProperParts(a + b, IsItem(Same)) <==> ProperParts(a, IsItem(Same)) && ProperParts(b, IsItem(Same))
  {
    if a == [] {
      assert a + b == b;
    } else {
      ProperJoin(a[1..], b);
      assert (a + b)[1..] == a[1..] + b;
    }
  }

  lemma {:induction false} SplitStartingWithItem(b: seq<Line>)
    requires StartsWithItem(b)
    ensures ItemParts(b).before == [] && FlatParts(ItemParts(b).parts) == b && ProperParts(ItemParts(b).parts, IsItem(Same))
  {
    ItemHeads();
    FlatOfSplit(b, IsItem(Same));
    assert IsItem(Same)(b[0]);
    assert [] + FlatParts(ItemParts(b).parts) == FlatParts(ItemParts(b).parts);
  }

  /** The split of lines is known once its parts are. */
  lemma {:induction false} KeysFromParts(before: seq<Line>, parts: seq<Part<Line>>)
    requires NoHead(before, IsItem(Same)) && ProperParts(parts, IsItem(Same))
    ensures Keys(before + FlatParts(parts)) == KeysOf(parts)
  {
    SplitOfFlat(Split(before, parts), IsItem(Same));
  }

  /** Lines that start with an item add their items to those above. */
  lemma {:induction false} KeysJoin(a: seq<Line>, b: seq<Line>)
    requires StartsWithItem(b)
    ensures Keys(a + b) == Keys(a) + Keys(b)
  {
    FlatOfSplit(a, IsItem(Same));
    SplitStartingWithItem(b);
    var before, x, y := ItemParts(a).before, ItemParts(a).parts, ItemParts(b).parts;
    ProperJoin(x, y);
    KeysFromParts(before, x + y);
    KeysOfJoin(x, y);
    FlatJoin(x, y);
    Associates(before, FlatParts(x), FlatParts(y));
  }

  /** A blank line below belongs to no item's text. */
  lemma {:induction false} KeysWithBlank(a: seq<Line>, blank: Line)
    requires blank.Blank?
    ensures Keys(a + [blank]) == Keys(a)
  {
    ItemHeads();
    FlatOfSplit(a, IsItem(Same));
    var before, x := ItemParts(a).before, ItemParts(a).parts;
    if x == [] {
      NoHeadPush(before, blank, IsItem(Same));
      KeysFromParts(before + [blank], []);
      assert before + [blank] + FlatParts<Line>([]) == a + [blank];
    } else {
      var k := |x| - 1;
      var init, last := x[..k], x[k];
      var longer := Part(last.head, last.body + [blank]);
      assert x == init + [last];
      LastPartLonger(init, last, blank);
      KeysFromParts(before, init + [longer]);
      Associates(before, FlatParts(x), [blank]);
    }
  }

  lemma {:induction false} LastPartLonger(init: seq<Part<Line>>, last: Part<Line>, blank: Line)
    requires blank.Blank? && ProperParts(init + [last], IsItem(Same))
    ensures var longer := init + [Part(last.head, last.body + [blank])];
            && ProperParts(longer, IsItem(Same)) && KeysOf(longer) == KeysOf(init + [last])
            && FlatParts(longer) == FlatParts(init + [last]) + [blank]
  {
    var longer := Part(last.head, last.body + [blank]);
    ProperJoin(init, [last]);
    ProperJoin(init, [longer]);
    OnePart(last);
    OnePart(longer);
    NoHeadPush(last.body, blank, IsItem(Same));
    assert PartLines(longer) == PartLines(last) + [blank];
    KeysOfJoin(init, [last]);
    KeysOfJoin(init, [longer]);
    FlatJoin(init, [last]);
    FlatJoin(init, [longer]);
    Associates(FlatParts(init), PartLines(last), [blank]);
  }

  lemma {:induction false} OnePart(p: Part<Line>)
    ensures FlatParts([p]) == PartLines(p) && KeysOf([p]) == [Trim(PartLines(p))]
    ensures ProperParts([p], IsItem(Same)) <==> p.head.Item? && NoHead(p.body, IsItem(Same))
  {
    ItemHeads();
    assert [p][1..] == [];
    assert FlatParts<Line>([]) == [];
  }

  lemma {:induction false} KeysOfTrimEnd(lines: seq<Line>)
    ensures Keys(TrimEnd(lines)) == Keys(lines)
  {
    if lines != [] && lines[|lines| - 1].Blank? {
      KeysOfTrimEnd(lines[..|lines| - 1]);
      KeysWithBlank(lines[..|lines| - 1], lines[|lines| - 1]);
      assert lines == lines[..|lines| - 1] + [lines[|lines| - 1]];
    }
  }

  lemma {:induction false} KeysOfTrimStart(lines: seq<Line>)
    ensures Keys(TrimStart(lines)) == Keys(lines)
  {
    ItemHeads();
    if lines != [] && lines[0].Blank? {
      KeysOfTrimStart(lines[1..]);
    }
  }

  lemma {:induction false} KeysOfTrim(lines: seq<Line>)
    ensures Keys(Trim(lines)) == Keys(lines)
  {
    KeysOfTrimStart(lines);
    KeysOfTrimEnd(TrimStart(lines));
  }

  /** The lines of one item: a bullet, then no other, without blank lines below. */
  predicate IsBlock(lines: seq<Line>) {
    StartsWithItem(lines) && NoHead(lines[1..], IsItem(Same)) && Trimmed(lines)
  }

  lemma {:induction false} KeysOfBlock(lines: seq<Line>)
    requires IsBlock(lines)
    ensures Keys(lines) == [lines]
  {
    var p := Part(lines[0], lines[1..]);
    OnePart(p);
    KeysFromParts([], [p]);
    assert [] + FlatParts([p]) == lines == PartLines(p);
    TrimOfTrimmed(lines);
  }

  /** Appending an item adds exactly that item. */
  lemma {:induction false} KeysAppended(lines: seq<Line>, item: seq<Line>)
    requires IsBlock(item)
    ensures Keys(Appended(lines, item)) == Keys(lines) + [item]
  {
    var existing := Trim(lines);
    TrimOfTrimmed(item);
    KeysOfTrim(lines);
    KeysOfBlock(item);
    if existing == [] {
      assert Keys(existing) == [];
    } else if existing[|existing| - 1].Item? {
      assert existing + [] == existing;
      KeysJoin(existing, item);
    } else {
      KeysWithBlank(existing, EMPTY);
      KeysJoin(existing + [EMPTY], item);
    }
  }

  lemma {:induction false} NoItemTexts(lines: seq<NumberedLine>)
    requires NoHead(lines, IsItem(LineOf))
    ensures NoHead(Texts(lines), IsItem(Same))
  {
    ItemHeads();
    if lines != [] {
      NoItemTexts(lines[1..]);
      assert Texts(lines)[1..] == Texts(lines[1..]);
    }
  }

  lemma {:induction false} TrimEndKeepsFirst(lines: seq<Line>)
    requires lines != [] && !lines[0].Blank?
    ensures TrimEnd(lines) != [] && TrimEnd(lines)[0] == lines[0]
  {
    if lines[|lines| - 1].Blank? {
      TrimEndKeepsFirst(lines[..|lines| - 1]);
    }
  }

  /** The text of an item found by the parser is a block. */
  lemma {:induction false} ItemIsBlock(p: Part<NumberedLine>)
    requires p.head.line.Item? && NoHead(p.body, IsItem(LineOf))
    ensures IsBlock(ItemOf(p).lines)
  {
    var texts := Texts(PartLines(p));
    assert PartLines(p)[1..] == p.body;
    assert texts == [p.head.line] + Texts(p.body);
    NoItemTexts(p.body);
    TrimIsTrimmed(texts);
    TrimEndKeepsFirst(texts);
    TrimEndIs(texts);
    NoHeadTake(Texts(p.body), |Trim(texts)| - 1, IsItem(Same));
    assert Trim(texts)[1..] == Texts(p.body)[..|Trim(texts)| - 1];
  }

  // ---------------------------------------------------------------- items that stay whole

  /** Whatever is put above some lines, their items stay whole: text at their top joins the item above it. */
  lemma {:induction false} KeysBelow(a: seq<Line>, b: seq<Line>, key: seq<Line>)
    requires key in Keys(b)
    ensures key in Keys(a + b)
  {
    var s := ItemParts(b);
    FlatOfSplit(b, IsItem(Same));
    var rest := FlatParts(s.parts);
    ItemHeads();
    KeysFromParts([], s.parts);
    assert [] + rest == rest;
    assert StartsWithItem(rest) by {
      assert s.parts != [];
    }
    Associates(a, s.before, rest);
    KeysJoin(a + s.before, rest);
  }

  lemma {:induction false} KeysAppendedKept(lines: seq<Line>, more: seq<Line>, key: seq<Line>)
    requires key in Keys(more)
    ensures key in Keys(Appended(lines, more))
  {
    var source, existing := Trim(more), Trim(lines);
    KeysOfTrim(more);
    assert Keys([]) == [];
    if source != [] && existing != [] {
      var separator := if existing[|existing| - 1].Item? && source[0].Item? then [] else [EMPTY];
      KeysBelow(existing + separator, source, key);
    }
  }

  lemma {:induction false} PartIsBlock(p: Part<Line>)
    requires p.head.Item? && NoHead(p.body, IsItem(Same))
    ensures IsBlock(Trim(PartLines(p)))
  {
    var lines := PartLines(p);
    TrimIsTrimmed(lines);
    TrimEndKeepsFirst(lines);
    TrimEndIs(lines);
    assert lines[1..] == p.body;
    NoHeadTake(p.body, |Trim(lines)| - 1, IsItem(Same));
    assert Trim(lines)[1..] == p.body[..|Trim(lines)| - 1];
  }

  lemma {:induction false} KeysFlattened(parts: seq<Part<Line>>)
    requires ProperParts(parts, IsItem(Same))
    ensures Keys(Flatten(KeysOf(parts))) == KeysOf(parts)
    ensures parts != [] ==> StartsWithItem(Flatten(KeysOf(parts)))
  {
    if parts == [] {
      assert Keys([]) == [];
    } else {
      ItemHeads();
      var block, rest := Trim(PartLines(parts[0])), Flatten(KeysOf(parts[1..]));
      PartIsBlock(parts[0]);
      KeysOfBlock(block);
      KeysFlattened(parts[1..]);
      assert KeysOf(parts)[1..] == KeysOf(parts[1..]);
      if parts[1..] == [] {
        assert block + rest == block;
      } else {
        KeysJoin(block, rest);
      }
    }
  }

  /** Compacting changes the space between items, not the items. */
  lemma {:induction false} KeysOfCompact(lines: seq<Line>)
    ensures Keys(Compact(lines)) == Keys(lines)
  {
    var trimmed := Trim(lines);
    KeysOfTrim(lines);
    if trimmed != [] && trimmed[0].Item? {
      FlatOfSplit(trimmed, IsItem(Same));
      KeysFlattened(ItemParts(trimmed).parts);
    }
  }
}
