/** Bullets of a changelog section: finding, removing and appending them (scripts/fix-changelogs.ts). */
module ChangelogItems {
  import opened LineSplit
  import opened ChangelogDocument
  import opened ChangelogRender

  function IsItem<L>(lineOf: L -> Line): L -> bool {
    (l: L) => lineOf(l).Item?
  }

  lemma {:induction false} ItemHeads()
    ensures forall l :: IsItem(Same)(l) == l.Item?
    ensures forall n :: IsItem(LineOf)(n) == n.line.Item?
  {
    forall l ensures IsItem(Same)(l) == l.Item? {
      assert Same(l) == l;
    }
    forall n ensures IsItem(LineOf)(n) == n.line.Item? {
      assert LineOf(n) == n.line;
    }
  }

  lemma {:induction false} Associates<T>(a: seq<T>, b: seq<T>, c: seq<T>)
    ensures a + (b + c) == (a + b) + c
  {
  }

  function Texts(lines: seq<NumberedLine>): seq<Line> {
    Untag(lines, LineOf)
  }

  lemma {:induction false} TextsJoin(a: seq<NumberedLine>, b: seq<NumberedLine>)
    ensures Texts(a + b) == Texts(a) + Texts(b)
  {
    if a == [] {
      assert a + b == b;
    } else {
      TextsJoin(a[1..], b);
      assert (a + b)[1..] == a[1..] + b;
    }
  }

  /** Lines that stand for no line of the file any more. */
  function Synthetic(lines: seq<Line>): seq<NumberedLine> {
    if lines == [] then [] else [NumberedLine(lines[0], 0)] + Synthetic(lines[1..])
  }

  lemma {:induction false} SyntheticTexts(lines: seq<Line>)
    ensures Texts(Synthetic(lines)) == lines
  {
    if lines != [] {
      SyntheticTexts(lines[1..]);
      assert Synthetic(lines)[1..] == Synthetic(lines[1..]);
    }
  }

  // ---------------------------------------------------------------- text that counts

  /** The lines that are not blank, in order: what no step may lose. */
  function Solid(lines: seq<Line>): seq<Line> {
    if lines == [] then [] else if lines[0].Blank? then Solid(lines[1..]) else [lines[0]] + Solid(lines[1..])
  }

  lemma {:induction false} SolidJoin(a: seq<Line>, b: seq<Line>)
    ensures Solid(a + b) == Solid(a) + Solid(b)
  {
    if a == [] {
      assert a + b == b;
    } else {
      SolidJoin(a[1..], b);
      assert (a + b)[1..] == a[1..] + b;
      if !a[0].Blank? {
        Associates([a[0]], Solid(a[1..]), Solid(b));
      }
    }
  }

  lemma {:induction false} SolidTrimEnd(lines: seq<Line>)
    ensures Solid(TrimEnd(lines)) == Solid(lines)
  {
    if lines != [] && lines[|lines| - 1].Blank? {
      SolidTrimEnd(lines[..|lines| - 1]);
      SolidJoin(lines[..|lines| - 1], [lines[|lines| - 1]]);
      assert lines == lines[..|lines| - 1] + [lines[|lines| - 1]];
      assert Solid([lines[|lines| - 1]]) == [];
    }
  }

  lemma {:induction false} SolidTrimStart(lines: seq<Line>)
    ensures Solid(TrimStart(lines)) == Solid(lines)
  {
    if lines != [] && lines[0].Blank? {
      SolidTrimStart(lines[1..]);
    }
  }

  lemma {:induction false} SolidTrim(lines: seq<Line>)
    ensures Solid(Trim(lines)) == Solid(lines)
  {
    SolidTrimStart(lines);
    SolidTrimEnd(TrimStart(lines));
  }

  // ---------------------------------------------------------------- items

  datatype ParsedItem = ParsedItem(startLine: nat, endLine: nat, lines: seq<Line>)

  /** A bullet with the lines up to the next bullet. */
  function PartLines<L>(p: Part<L>): seq<L> {
    [p.head] + p.body
  }

  function ItemOf(p: Part<NumberedLine>): ParsedItem {
    ParsedItem(p.head.number, PartLines(p)[|p.body|].number, Trim(Texts(PartLines(p))))
  }

  function ItemsOfParts(parts: seq<Part<NumberedLine>>): seq<ParsedItem> {
    if parts == [] then [] else [ItemOf(parts[0])] + ItemsOfParts(parts[1..])
  }

  function Parts(lines: seq<NumberedLine>): seq<Part<NumberedLine>> {
    SplitOf(lines, IsItem(LineOf)).parts
  }

  method ParseItems(lines: seq<NumberedLine>) returns (items: seq<ParsedItem>)
    ensures items == ItemsOfParts(Parts(lines))
  {
    var s := SplitAtHeadings(lines, IsItem(LineOf));
    items := [];
    for i := 0 to |s.parts|
      invariant |items| == i && forall k :: 0 <= k < i ==> items[k] == ItemOf(s.parts[k])
    {
      var itemLines := PartLines(s.parts[i]);
      var lines := TrimBlankLines(Texts(itemLines));
      items := items + [ParsedItem(itemLines[0].number, itemLines[|itemLines| - 1].number, lines)];
    }
    ItemsPointwise(s.parts, items);
  }

  lemma {:induction false} ItemsPointwise(parts: seq<Part<NumberedLine>>, items: seq<ParsedItem>)
    requires |items| == |parts| && forall k :: 0 <= k < |parts| ==> items[k] == ItemOf(parts[k])
    ensures items == ItemsOfParts(parts)
  {
    if parts != [] {
      ItemsPointwise(parts[1..], items[1..]);
    }
  }

  // keys

  /** The texts of the items of some lines: two items with the same text are the same entry. */
  function KeysOf(parts: seq<Part<Line>>): seq<seq<Line>> {
    if parts == [] then [] else [Trim(PartLines(parts[0]))] + KeysOf(parts[1..])
  }

  function Keys(lines: seq<Line>): seq<seq<Line>> {
    KeysOf(SplitOf(lines, IsItem(Same)).parts)
  }

  lemma {:induction false} KeysOfItems(parts: seq<Part<NumberedLine>>, i: nat)
    requires i < |parts|
    ensures |ItemsOfParts(parts)| == |parts| && ItemsOfParts(parts)[i] == ItemOf(parts[i])
    ensures |KeysOf(UntagParts(parts, LineOf))| == |parts| && KeysOf(UntagParts(parts, LineOf))[i] == ItemOf(parts[i]).lines
  {
    var p := parts[0];
    assert PartLines(p)[1..] == p.body;
    assert UntagParts(parts, LineOf)[1..] == UntagParts(parts[1..], LineOf);
    if i > 0 {
      KeysOfItems(parts[1..], i - 1);
    } else if |parts| > 1 {
      KeysOfItems(parts[1..], 0);
    } else {
      assert parts[1..] == [];
    }
  }

  /** The items found in numbered lines are the items of their texts. */
  lemma {:induction false} ItemTexts(lines: seq<NumberedLine>)
    ensures |ItemsOfParts(Parts(lines))| == |Keys(Texts(lines))|
    ensures forall i :: 0 <= i < |Keys(Texts(lines))| ==> ItemsOfParts(Parts(lines))[i].lines == Keys(Texts(lines))[i]
  {
    ItemHeads();
    var parts := Parts(lines);
    SplitUntag(lines, LineOf, IsItem(Same), IsItem(LineOf));
    if parts != [] {
      KeysOfItems(parts, 0);
    }
    forall i: nat | i < |parts| ensures ItemsOfParts(parts)[i].lines == Keys(Texts(lines))[i] {
      KeysOfItems(parts, i);
    }
  }

  predicate HasItem(lines: seq<NumberedLine>, wanted: seq<Line>) {
    wanted == [] || wanted in Keys(Texts(lines))
  }

  method SubsectionHasItem(sub: Subsection<NumberedLine>, itemLines: seq<Line>) returns (r: bool)
    ensures r == HasItem(sub.lines, Trim(itemLines))
  {
    var wanted := TrimBlankLines(itemLines);
    if wanted == [] {
      return true;
    }
    var items := ParseItems(sub.lines);
    ItemTexts(sub.lines);
    for i := 0 to |items|
      invariant forall k :: 0 <= k < i ==> items[k].lines != wanted
    {
      if items[i].lines == wanted {
        assert Keys(Texts(sub.lines))[i] == wanted;
        return true;
      }
    }
    return false;
  }

  // ---------------------------------------------------------------- appending

  /** The lines with others added below, a blank line between them unless both are bullets. */
  function Appended(lines: seq<Line>, more: seq<Line>): seq<Line> {
    var source, existing := Trim(more), Trim(lines);
    if source == [] then lines
    else if existing == [] then source
    else existing + (if existing[|existing| - 1].Item? && source[0].Item? then [] else [EMPTY]) + source
  }

  method AppendSubsectionLines(target: Subsection<NumberedLine>, more: seq<Line>) returns (r: Subsection<NumberedLine>)
    ensures r.title == target.title && Texts(r.lines) == Appended(Texts(target.lines), more)
    ensures r == AppendTo(target, more)
  {
    var source := TrimBlankLines(more);
    if |source| == 0 {
      return target;
    }
    var existing := TrimBlankLines(Texts(target.lines));
    if |existing| == 0 {
      SyntheticTexts(source);
      return Subsection(target.title, Synthetic(source));
    }
    var separator := if existing[|existing| - 1].Item? && source[0].Item? then [] else [EMPTY];
    SyntheticTexts(existing + separator + source);
    return Subsection(target.title, Synthetic(existing + separator + source));
  }

  function AppendTo(target: Subsection<NumberedLine>, more: seq<Line>): Subsection<NumberedLine> {
    if Trim(more) == [] then target
    else Subsection(target.title, Synthetic(Appended(Texts(target.lines), more)))
  }

  lemma {:induction false} SolidSeparated(a: seq<Line>, gap: bool, b: seq<Line>)
    ensures Solid(a + (if gap then [EMPTY] else []) + b) == Solid(a) + Solid(b)
  {
    var separator := if gap then [EMPTY] else [];
    SolidJoin(a + separator, b);
    SolidJoin(a, separator);
    assert Solid(separator) == [];
  }

  lemma {:induction false} SolidAppended(lines: seq<Line>, more: seq<Line>)
    ensures Solid(Appended(lines, more)) == Solid(lines) + Solid(more)
  {
    SolidTrim(lines);
    SolidTrim(more);
    var source, existing := Trim(more), Trim(lines);
    if source != [] && existing != [] {
      SolidSeparated(existing, !(existing[|existing| - 1].Item? && source[0].Item?), source);
    }
  }

  // ---------------------------------------------------------------- removing

  /** Consecutive lines of the file. */
  predicate Consecutive(lines: seq<NumberedLine>) {
    forall i, j :: 0 <= i < j < |lines| ==> lines[j].number == lines[i].number + (j - i)
  }

  /** `lineRangeSet` */
  predicate InRange(items: seq<ParsedItem>, n: nat) {
    exists i :: 0 <= i < |items| && items[i].startLine <= n <= items[i].endLine
  }

  function Without(lines: seq<NumberedLine>, items: seq<ParsedItem>): seq<NumberedLine> {
    if lines == [] then []
    else if InRange(items, lines[0].number) then Without(lines[1..], items)
    else [lines[0]] + Without(lines[1..], items)
  }

  method RemoveItems(lines: seq<NumberedLine>, items: seq<ParsedItem>) returns (left: seq<NumberedLine>)
    ensures left == Without(lines, items)
  {
    left := [];
    for i := 0 to |lines|
      invariant left + Without(lines[i..], items) == Without(lines, items)
    {
      assert lines[i..][1..] == lines[i + 1..];
      if !InRange(items, lines[i].number) {
        left := left + [lines[i]];
      }
    }
  }

  /** Which items to take out: a test of the bullet with its lines. */
  type Pick = Part<NumberedLine> -> bool

  function PickParts(parts: seq<Part<NumberedLine>>, pick: Pick): seq<Part<NumberedLine>> {
    if parts == [] then []
    else if pick(parts[0]) then [parts[0]] + PickParts(parts[1..], pick)
    else PickParts(parts[1..], pick)
  }

  function LeaveParts(parts: seq<Part<NumberedLine>>, pick: Pick): seq<Part<NumberedLine>> {
    if parts == [] then []
    else if pick(parts[0]) then LeaveParts(parts[1..], pick)
    else [parts[0]] + LeaveParts(parts[1..], pick)
  }

  /** The lines without the picked items, everything else in place. */
  function Left(lines: seq<NumberedLine>, pick: Pick): seq<NumberedLine> {
    var s := SplitOf(lines, IsItem(LineOf));
    s.before + FlatParts(LeaveParts(s.parts, pick))
  }

  lemma {:induction false} ConsecutiveCut(a: seq<NumberedLine>, b: seq<NumberedLine>)
    requires Consecutive(a + b)
    ensures Consecutive(a) && Consecutive(b)
    ensures forall i, j :: 0 <= i < |a| && 0 <= j < |b| ==> a[i].number < b[j].number
  {
    forall i, j | 0 <= i < j < |a| ensures a[j].number == a[i].number + (j - i) {
      assert (a + b)[i] == a[i] && (a + b)[j] == a[j];
    }
    forall i, j | 0 <= i < j < |b| ensures b[j].number == b[i].number + (j - i) {
      assert (a + b)[|a| + i] == b[i] && (a + b)[|a| + j] == b[j];
    }
    forall i, j | 0 <= i < |a| && 0 <= j < |b| ensures a[i].number < b[j].number {
      assert (a + b)[i] == a[i] && (a + b)[|a| + j] == b[j];
    }
  }

  predicate EndBefore(items: seq<ParsedItem>, n: int) {
    forall i :: 0 <= i < |items| ==> items[i].endLine < n
  }

  predicate StartAfter(items: seq<ParsedItem>, n: int) {
    forall i :: 0 <= i < |items| ==> items[i].startLine > n
  }

  predicate AllAfter(lines: seq<NumberedLine>, n: int) {
    forall i :: 0 <= i < |lines| ==> lines[i].number > n
  }

  lemma {:induction false} InRangeJoin(a: seq<ParsedItem>, b: seq<ParsedItem>, n: nat)
    ensures InRange(a + b, n) <==> InRange(a, n) || InRange(b, n)
  {
    if InRange(a, n) {
      var i :| 0 <= i < |a| && a[i].startLine <= n <= a[i].endLine;
      assert (a + b)[i] == a[i];
    }
    if InRange(b, n) {
      var i :| 0 <= i < |b| && b[i].startLine <= n <= b[i].endLine;
      assert (a + b)[|a| + i] == b[i];
    }
  }

  lemma {:induction false} WithoutJoin(a: seq<NumberedLine>, b: seq<NumberedLine>, items: seq<ParsedItem>)
    ensures Without(a + b, items) == Without(a, items) + Without(b, items)
  {
    if a == [] {
      assert a + b == b;
    } else {
      WithoutUnfolds(a, items);
      WithoutUnfolds(a + b, items);
      assert (a + b)[0] == a[0] && (a + b)[1..] == a[1..] + b;
      hide Without, InRange;
      WithoutJoin(a[1..], b, items);
    }
  }

  lemma {:induction false} WithoutUnfolds(lines: seq<NumberedLine>, items: seq<ParsedItem>)
    requires lines != []
    ensures Without(lines, items) == (if InRange(items, lines[0].number) then [] else [lines[0]]) + Without(lines[1..], items)
  {
  }

  /** Lines that are all in range, or all out of it. */
  lemma {:induction false} WithoutBlock(lines: seq<NumberedLine>, items: seq<ParsedItem>, all: bool)
    requires forall i :: 0 <= i < |lines| ==> InRange(items, lines[i].number) == all
    ensures Without(lines, items) == if all then [] else lines
  {
    if lines != [] {
      WithoutBlock(lines[1..], items, all);
    }
  }

  lemma {:induction false} PickedStartAfter(parts: seq<Part<NumberedLine>>, pick: Pick, n: int)
    requires AllAfter(FlatParts(parts), n)
    ensures StartAfter(ItemsOfParts(PickParts(parts, pick)), n)
  {
    if parts != [] {
      var rest := FlatParts(parts[1..]);
      assert FlatParts(parts)[0] == parts[0].head;
      forall i | 0 <= i < |rest| ensures rest[i].number > n {
        assert FlatParts(parts)[1 + |parts[0].body| + i] == rest[i];
      }
      PickedStartAfter(parts[1..], pick, n);
    }
  }

  function Own(p: Part<NumberedLine>, pick: Pick): seq<ParsedItem> {
    if pick(p) then [ItemOf(p)] else []
  }

  /** The lines of an item are in the range of its own item and of no other. */
  lemma {:induction false} BlockInRange(p: Part<NumberedLine>, earlier: seq<ParsedItem>, later: seq<ParsedItem>, picked: bool)
    requires Consecutive(PartLines(p)) && EndBefore(earlier, p.head.number) && StartAfter(later, ItemOf(p).endLine)
    ensures var lines, items := PartLines(p), earlier + ((if picked then [ItemOf(p)] else []) + later);
            forall i :: 0 <= i < |lines| ==> InRange(items, lines[i].number) == picked
  {
    var lines, own := PartLines(p), if picked then [ItemOf(p)] else [];
    forall i | 0 <= i < |lines| ensures InRange(earlier + (own + later), lines[i].number) == picked {
      InRangeJoin(earlier, own + later, lines[i].number);
      InRangeJoin(own, later, lines[i].number);
      assert lines[0] == p.head && lines[|lines| - 1].number == ItemOf(p).endLine;
      assert p.head.number <= lines[i].number <= ItemOf(p).endLine;
      if picked {
        assert own[0].startLine <= lines[i].number <= own[0].endLine;
      }
    }
  }

  /** The first item is removed if it is picked, and stays if not. */
  lemma {:induction false} WithoutFirst(parts: seq<Part<NumberedLine>>, pick: Pick, earlier: seq<ParsedItem>)
    requires parts != [] && Consecutive(FlatParts(parts)) && EndBefore(earlier, parts[0].head.number)
    ensures var p, later := parts[0], ItemsOfParts(PickParts(parts[1..], pick));
            Without(PartLines(p), earlier + (Own(p, pick) + later)) == if pick(p) then [] else PartLines(p)
    ensures Consecutive(FlatParts(parts[1..]))
    ensures parts[1..] != [] ==> EndBefore(earlier + Own(parts[0], pick), parts[1].head.number)
  {
    var p, rest := parts[0], FlatParts(parts[1..]);
    var later := ItemsOfParts(PickParts(parts[1..], pick));
    assert FlatParts(parts) == PartLines(p) + rest;
    ConsecutiveCut(PartLines(p), rest);
    assert AllAfter(rest, PartLines(p)[|p.body|].number);
    PickedStartAfter(parts[1..], pick, ItemOf(p).endLine);
    BlockInRange(p, earlier, later, pick(p));
    WithoutBlock(PartLines(p), earlier + (Own(p, pick) + later), pick(p));
    if parts[1..] != [] {
      assert rest[0] == parts[1].head;
      assert PartLines(p)[0].number < rest[0].number && PartLines(p)[|p.body|].number < rest[0].number;
    }
  }

  lemma {:induction false} ItemsSplit(parts: seq<Part<NumberedLine>>, pick: Pick, earlier: seq<ParsedItem>)
    requires parts != []
    ensures var items, own, later := ItemsOfParts(PickParts(parts, pick)), Own(parts[0], pick), ItemsOfParts(PickParts(parts[1..], pick));
            earlier + items == earlier + (own + later) && earlier + items == (earlier + own) + later
  {
    Associates(earlier, Own(parts[0], pick), ItemsOfParts(PickParts(parts[1..], pick)));
  }

  lemma {:induction false} WithoutBoth(block: seq<NumberedLine>, rest: seq<NumberedLine>, items: seq<ParsedItem>, keptBlock: seq<NumberedLine>,
                    keptRest: seq<NumberedLine>)
    requires Without(block, items) == keptBlock && Without(rest, items) == keptRest
    ensures Without(block + rest, items) == keptBlock + keptRest
  {
    WithoutJoin(block, rest, items);
  }

  lemma {:induction false} WithoutParts(parts: seq<Part<NumberedLine>>, pick: Pick, earlier: seq<ParsedItem>)
    requires Consecutive(FlatParts(parts)) && (parts != [] ==> EndBefore(earlier, parts[0].head.number))
    ensures Without(FlatParts(parts), earlier + ItemsOfParts(PickParts(parts, pick))) == FlatParts(LeaveParts(parts, pick))
  {
    if parts != [] {
      var items := earlier + ItemsOfParts(PickParts(parts, pick));
      var kept := if pick(parts[0]) then [] else PartLines(parts[0]);
      ItemsSplit(parts, pick, earlier);
      WithoutFirst(parts, pick, earlier);
      WithoutParts(parts[1..], pick, earlier + Own(parts[0], pick));
      WithoutBoth(PartLines(parts[0]), FlatParts(parts[1..]), items, kept, FlatParts(LeaveParts(parts[1..], pick)));
    }
  }

  /** Removing the line ranges of the picked items removes these items and nothing else. */
  lemma {:induction false} RemovesPicked(lines: seq<NumberedLine>, pick: Pick)
    requires Consecutive(lines)
    ensures Without(lines, ItemsOfParts(PickParts(Parts(lines), pick))) == Left(lines, pick)
  {
    var s := SplitOf(lines, IsItem(LineOf));
    FlatOfSplit(lines, IsItem(LineOf));
    var items := ItemsOfParts(PickParts(s.parts, pick));
    ConsecutiveCut(s.before, FlatParts(s.parts));
    forall i | 0 <= i < |s.before| ensures InRange(items, s.before[i].number) == false {
      assert AllAfter(FlatParts(s.parts), s.before[i].number);
      PickedStartAfter(s.parts, pick, s.before[i].number);
    }
    WithoutBlock(s.before, items, false);
    WithoutJoin(s.before, FlatParts(s.parts), items);
    WithoutParts(s.parts, pick, []);
    assert [] + items == items;
  }

  // what is left

  /** No picked item is left. */
  lemma {:induction false} LeftIsProper(lines: seq<NumberedLine>, pick: Pick)
    ensures Parts(Left(lines, pick)) == LeaveParts(Parts(lines), pick)
    ensures PickParts(Parts(Left(lines, pick)), pick) == []
  {
    var s := SplitOf(lines, IsItem(LineOf));
    FlatOfSplit(lines, IsItem(LineOf));
    LeaveProper(s.parts, pick);
    SplitOfFlat(Split(s.before, LeaveParts(s.parts, pick)), IsItem(LineOf));
  }

  lemma {:induction false} LeaveProper(parts: seq<Part<NumberedLine>>, pick: Pick)
    requires ProperParts(parts, IsItem(LineOf))
    ensures ProperParts(LeaveParts(parts, pick), IsItem(LineOf)) && PickParts(LeaveParts(parts, pick), pick) == []
  {
    if parts != [] {
      LeaveProper(parts[1..], pick);
      if !pick(parts[0]) {
        assert LeaveParts(parts, pick)[1..] == LeaveParts(parts[1..], pick);
      }
    }
  }

  /** The text of some lines, with how often each line occurs. */
  function Bag(lines: seq<NumberedLine>): multiset<Line> {
    multiset(Solid(Texts(lines)))
  }

  lemma {:induction false} BagJoin(a: seq<NumberedLine>, b: seq<NumberedLine>)
    ensures Bag(a + b) == Bag(a) + Bag(b)
  {
    TextsJoin(a, b);
    SolidJoin(Texts(a), Texts(b));
  }

  function BagOfItems(items: seq<ParsedItem>): multiset<Line> {
    if items == [] then multiset{} else multiset(Solid(items[0].lines)) + BagOfItems(items[1..])
  }

  lemma {:induction false} PartsBag(parts: seq<Part<NumberedLine>>, pick: Pick)
    ensures Bag(FlatParts(parts)) == Bag(FlatParts(LeaveParts(parts, pick))) + BagOfItems(ItemsOfParts(PickParts(parts, pick)))
  {
    if parts != [] {
      var p := parts[0];
      PartsBag(parts[1..], pick);
      assert FlatParts(parts) == PartLines(p) + FlatParts(parts[1..]);
      BagJoin(PartLines(p), FlatParts(parts[1..]));
      SolidTrim(Texts(PartLines(p)));
      if pick(p) {
        var items := ItemsOfParts(PickParts(parts, pick));
        assert items[1..] == ItemsOfParts(PickParts(parts[1..], pick));
      } else {
        BagJoin(PartLines(p), FlatParts(LeaveParts(parts[1..], pick)));
      }
    }
  }

  /** What is removed is the text of the picked items. */
  lemma {:induction false} LeftBag(lines: seq<NumberedLine>, pick: Pick)
    ensures Bag(lines) == Bag(Left(lines, pick)) + BagOfItems(ItemsOfParts(PickParts(Parts(lines), pick)))
  {
    var s := SplitOf(lines, IsItem(LineOf));
    FlatOfSplit(lines, IsItem(LineOf));
    PartsBag(s.parts, pick);
    BagJoin(s.before, FlatParts(s.parts));
    BagJoin(s.before, FlatParts(LeaveParts(s.parts, pick)));
  }

  // ---------------------------------------------------------------- spacing between items

  function Flatten(blocks: seq<seq<Line>>): seq<Line> {
    if blocks == [] then [] else blocks[0] + Flatten(blocks[1..])
  }

  lemma {:induction false} SolidOfKeys(parts: seq<Part<Line>>)
    ensures Solid(Flatten(KeysOf(parts))) == Solid(FlatParts(parts))
  {
    if parts != [] {
      SolidOfKeys(parts[1..]);
      SolidTrim(PartLines(parts[0]));
      SolidJoin(Trim(PartLines(parts[0])), Flatten(KeysOf(parts[1..])));
      SolidJoin(PartLines(parts[0]), FlatParts(parts[1..]));
      assert KeysOf(parts)[1..] == KeysOf(parts[1..]);
      assert FlatParts(parts) == PartLines(parts[0]) + FlatParts(parts[1..]);
    }
  }

  /** Items without the blank lines after them, if the block starts with an item; any other block as it is. */
  function Compact(lines: seq<Line>): seq<Line> {
    var trimmed := Trim(lines);
    if trimmed != [] && trimmed[0].Item? then Flatten(Keys(trimmed)) else trimmed
  }

  lemma {:induction false} CompactKeeps(lines: seq<Line>)
    ensures Solid(Compact(lines)) == Solid(lines)
  {
    var trimmed := Trim(lines);
    SolidTrim(lines);
    if trimmed != [] && trimmed[0].Item? {
      CompareDecides(trimmed);
    }
  }

  /** Comparing the lines that are not blank tells whether text stands before the first item. */
  lemma {:induction false} CompareDecides(trimmed: seq<Line>)
    requires trimmed != [] && !trimmed[0].Blank?
    ensures Solid(trimmed) == Solid(Flatten(Keys(trimmed))) <==> trimmed[0].Item?
  {
    var s := SplitOf(trimmed, IsItem(Same));
    ItemHeads();
    FlatOfSplit(trimmed, IsItem(Same));
    SolidOfKeys(s.parts);
    SolidJoin(s.before, FlatParts(s.parts));
    if s.before != [] {
      assert s.before[0] == trimmed[0];
    }
  }

  method CompactAdjacentListSpacing(lines: seq<Line>) returns (r: seq<Line>)
    ensures r == Compact(lines)
  {
    var trimmed := TrimBlankLines(lines);
    if |trimmed| == 0 {
      return [];
    }
    TrimIsTrimmed(lines);
    SyntheticTexts(trimmed);
    ItemTexts(Synthetic(trimmed));
    CompareDecides(trimmed);
    var items := ParseItems(Synthetic(trimmed));
    if |items| == 0 {
      NoItems(trimmed);
      return trimmed;
    }
    var flattened := FlattenItems(items, Keys(trimmed));
    var original := SolidLines(trimmed);
    var kept := SolidLines(flattened);
    if original != kept {
      return trimmed;
    }
    return flattened;
  }

  lemma {:induction false} NoItems(lines: seq<Line>)
    requires Keys(lines) == []
    ensures lines == [] || !lines[0].Item?
  {
    ItemHeads();
    FlatOfSplit(lines, IsItem(Same));
  }

  method FlattenItems(items: seq<ParsedItem>, ghost keys: seq<seq<Line>>) returns (flat: seq<Line>)
    requires |items| == |keys| && forall i :: 0 <= i < |keys| ==> items[i].lines == keys[i]
    ensures flat == Flatten(keys)
  {
    flat := [];
    for i := 0 to |items|
      invariant flat + Flatten(keys[i..]) == Flatten(keys)
    {
      assert keys[i..][1..] == keys[i + 1..];
      Associates(flat, keys[i], Flatten(keys[i + 1..]));
      flat := flat + items[i].lines;
    }
    assert keys[|items|..] == [];
  }

  method SolidLines(lines: seq<Line>) returns (r: seq<Line>)
    ensures r == Solid(lines)
  {
    r := [];
    for i := 0 to |lines|
      invariant r + Solid(lines[i..]) == Solid(lines)
    {
      assert lines[i..][1..] == lines[i + 1..];
      if !lines[i].Blank? {
        r := r + [lines[i]];
      }
    }
  }
}
