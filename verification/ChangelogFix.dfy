/** Fixing a whole changelog, and why no text is lost (scripts/fix-changelogs.ts). */
module ChangelogFix {
  import opened Prelude
  import opened LineSplit
  import opened ChangelogDocument
  import opened ChangelogRender
  import opened ChangelogRoundTrip
  import opened ChangelogItems
  import opened ChangelogKeys
  import opened ChangelogNormalize
  import opened ChangelogMoves
  import opened ChangelogPromote
  import StableSort
  import VersionOrder

  type Key = seq<Line>

  // ---------------------------------------------------------------- line numbers of a parsed file

  lemma {:induction false} NumberConsecutive(content: seq<Line>, first: nat)
    ensures |Number(content, first)| == |content| && Consecutive(Number(content, first))
    ensures forall i :: 0 <= i < |content| ==> Number(content, first)[i].number == first + i
  {
    if content != [] {
      NumberConsecutive(content[1..], first + 1);
    }
  }

  predicate ConsecutiveBodies(parts: seq<Part<NumberedLine>>) {
    forall i :: 0 <= i < |parts| ==> Consecutive(parts[i].body)
  }

  lemma {:induction false} BodiesConsecutive(parts: seq<Part<NumberedLine>>)
    requires Consecutive(FlatParts(parts))
    ensures ConsecutiveBodies(parts)
  {
    if parts != [] {
      ConsecutiveCut([parts[0].head] + parts[0].body, FlatParts(parts[1..]));
      ConsecutiveCut([parts[0].head], parts[0].body);
      BodiesConsecutive(parts[1..]);
    }
  }

  predicate ConsecutiveSubs(subs: seq<Sub>) {
    forall i :: 0 <= i < |subs| ==> Consecutive(subs[i].lines)
  }

  lemma {:induction false} SubsectionsConsecutive(parts: seq<Part<NumberedLine>>)
    requires ConsecutiveBodies(parts)
    ensures ConsecutiveSubs(SubsectionsOf(parts, LineOf))
  {
    if parts != [] {
      SubsectionsConsecutive(parts[1..]);
    }
  }

  lemma {:induction false} SectionsConsecutive(parts: seq<Part<NumberedLine>>)
    requires ConsecutiveBodies(parts)
    ensures forall i :: 0 <= i < |SectionsOf(parts, LineOf)| ==> ConsecutiveSubs(SectionsOf(parts, LineOf)[i].subsections)
  {
    if parts != [] {
      var s := SplitOf(parts[0].body, IsSubHead(LineOf));
      FlatOfSplit(parts[0].body, IsSubHead(LineOf));
      ConsecutiveCut(s.before, FlatParts(s.parts));
      BodiesConsecutive(s.parts);
      SubsectionsConsecutive(s.parts);
      SectionsConsecutive(parts[1..]);
    }
  }

  function Parsed(content: seq<Line>): Document<NumberedLine> {
    ParseLines(Number(content, 1), LineOf)
  }

  /** Within a subsection of a parsed file, line numbers run on without a gap. */
  lemma {:induction false} ParsedConsecutive(content: seq<Line>)
    ensures forall i :: 0 <= i < |Parsed(content).sections| ==> ConsecutiveSubs(Parsed(content).sections[i].subsections)
  {
    var lines := Number(content, 1);
    var s := SplitOf(lines, IsRelease(LineOf));
    NumberConsecutive(content, 1);
    FlatOfSplit(lines, IsRelease(LineOf));
    ConsecutiveCut(s.before, FlatParts(s.parts));
    BodiesConsecutive(s.parts);
    SectionsConsecutive(s.parts);
  }

  // ---------------------------------------------------------------- duplicates of released entries

  /** The entries of the first `n` subsections. */
  function SubKeys(subs: seq<Sub>, n: nat): set<Key>
    requires n <= |subs|
  {
    if n == 0 then {} else SubKeys(subs, n - 1) + SetOf(Keys(Texts(subs[n - 1].lines)))
  }

  /** The entries of the first `n` sections that are released. */
  function ReleasedKeys(sections: seq<Section>, n: nat): set<Key>
    requires n <= |sections|
  {
    if n == 0 then {}
    else if sections[n - 1].title == UNRELEASED then ReleasedKeys(sections, n - 1)
    else ReleasedKeys(sections, n - 1) + SubKeys(sections[n - 1].subsections, |sections[n - 1].subsections|)
  }

  method CollectReleasedItemKeys(sections: seq<Section>) returns (keys: set<Key>)
    ensures keys == ReleasedKeys(sections, |sections|)
  {
    keys := {};
    hide SubKeys;
    for i := 0 to |sections|
      invariant keys == ReleasedKeys(sections, i)
    {
      if sections[i].title == UNRELEASED {
        continue;
      }
      var found := CollectSubKeys(sections[i].subsections);
      keys := keys + found;
    }
  }

  method CollectSubKeys(subs: seq<Sub>) returns (keys: set<Key>)
    ensures keys == SubKeys(subs, |subs|)
  {
    keys := {};
    hide SetOf, Keys;
    for j := 0 to |subs|
      invariant keys == SubKeys(subs, j)
    {
      var found := ItemKeys(subs[j]);
      keys := keys + found;
    }
  }

  method ItemKeys(sub: Sub) returns (keys: set<Key>)
    ensures keys == SetOf(Keys(Texts(sub.lines)))
  {
    var items := ParseItems(sub.lines);
    ItemTexts(sub.lines);
    ghost var all := Keys(Texts(sub.lines));
    keys := {};
    for i := 0 to |items|
      invariant keys == SetOf(all[..i])
    {
      assert all[..i + 1] == all[..i] + [all[i]];
      keys := keys + {items[i].lines};
    }
    assert all[..|items|] == all;
  }

  function InKeys(keys: set<Key>): Test {
    (item: ParsedItem) => item.lines in keys
  }

  /** The first [Unreleased] without the entries in `keys`. */
  function Dropped(sections: seq<Section>, keys: set<Key>): seq<Section> {
    var k := First(sections);
    if k < 0 then sections else sections[k := StripSection(sections[k], InKeys(keys))]
  }

  /** How many entries of the first [Unreleased] are released already. */
  function DroppedCount(sections: seq<Section>, historical: set<Key>): nat {
    if First(sections) < 0 then 0
    else
      var subs := sections[First(sections)].subsections;
      |SubMoves(subs, InKeys(ReleasedKeys(sections, |sections|) + historical), |subs|)|
  }

  method DropDuplicates(sections: seq<Section>, historical: set<Key>) returns (now: seq<Section>, dropped: nat)
    requires First(sections) >= 0 ==> ConsecutiveSubs(sections[First(sections)].subsections)
    ensures now == Dropped(sections, ReleasedKeys(sections, |sections|) + historical)
    ensures dropped == DroppedCount(sections, historical)
  {
    now, dropped := sections, 0;
    var unreleased := First(sections);
    if unreleased < 0 {
      return;
    }
    var keys := CollectReleasedItemKeys(sections);
    keys := keys + historical;
    if keys == {} {
      NoKeys(sections[unreleased].subsections);
      assert sections == sections[unreleased := sections[unreleased]];
      return;
    }
    var left: seq<Sub>;
    left, dropped := DropFrom(sections[unreleased].subsections, keys);
    now := sections[unreleased := sections[unreleased].(subsections := left)];
  }

  method DropFrom(subs: seq<Sub>, keys: set<Key>) returns (left: seq<Sub>, dropped: nat)
    requires ConsecutiveSubs(subs)
    ensures left == StripTo(subs, InKeys(keys), |subs|) && dropped == |SubMoves(subs, InKeys(keys), |subs|)|
  {
    hide Strip, Picked, InKeys;
    left, dropped := [], 0;
    for j := 0 to |subs|
      invariant |left| == j && forall i :: 0 <= i < j ==> left[i] == Strip(subs[i], InKeys(keys))
      invariant dropped == |SubMoves(subs, InKeys(keys), j)|
    {
      var sub, duplicates := TakeOut(subs[j], InKeys(keys));
      left := left + [sub];
      dropped := dropped + |duplicates|;
    }
  }

  /** Where nothing is picked, nothing moves and nothing is taken out. */
  lemma {:induction false} NonePicked(subs: seq<Sub>, q: Test, n: nat)
    requires n <= |subs| && forall i :: 0 <= i < n ==> Picked(subs[i].lines, q) == []
    ensures SubMoves(subs, q, n) == [] && StripTo(subs, q, n) == subs
  {
    hide Picked, Strip;
    if n == 0 {
      assert StripTo(subs, q, 0) == subs && SubMoves(subs, q, 0) == [];
    } else {
      StripNone(subs[n - 1], q);
      StripNext(subs, q, n);
      hide *;
      NonePicked(subs, q, n - 1);
    }
  }

  lemma {:induction false} StripNone(sub: Sub, q: Test)
    requires Picked(sub.lines, q) == []
    ensures Strip(sub, q) == sub
  {
    hide Left, Picked;
    LeftAll(sub.lines, q);
  }

  lemma {:induction false} NoKeysIn(parts: seq<Part<NumberedLine>>)
    ensures PickParts(parts, Picks(InKeys({}))) == []
  {
    if parts != [] {
      NoKeysIn(parts[1..]);
    }
  }

  lemma {:induction false} NoKeys(subs: seq<Sub>)
    ensures SubMoves(subs, InKeys({}), |subs|) == [] && StripTo(subs, InKeys({}), |subs|) == subs
  {
    hide InKeys, SubMoves, StripTo, PickParts;
    forall i | 0 <= i < |subs| ensures Picked(subs[i].lines, InKeys({})) == [] {
      NoKeysIn(Parts(subs[i].lines));
    }
    NonePicked(subs, InKeys({}), |subs|);
  }

  lemma {:induction false} StripNext(subs: seq<Sub>, q: Test, n: nat)
    requires 0 < n <= |subs| && Strip(subs[n - 1], q) == subs[n - 1] && Picked(subs[n - 1].lines, q) == []
    ensures StripTo(subs, q, n) == StripTo(subs, q, n - 1) && SubMoves(subs, q, n) == SubMoves(subs, q, n - 1)
  {
    hide Strip, Picked;
    assert MovesOf(subs[n - 1].title, []) == [];
  }

  // ---------------------------------------------------------------- the order of releases

  function IsUnreleased(): Section -> bool {
    (s: Section) => s.title == UNRELEASED
  }

  function IsReleased(): Section -> bool {
    (s: Section) => s.title != UNRELEASED
  }

  function ByVersion(parts: VersionOrder.Parts): (Section, Section) -> bool {
    (x: Section, y: Section) => VersionOrder.NotOlder(parts(x.title), parts(y.title))
  }

  /** `sortReleaseSections` */
  function Arrange(sections: seq<Section>, parts: VersionOrder.Parts): seq<Section> {
    StableSort.Only(sections, IsUnreleased()) + StableSort.Sort(StableSort.Only(sections, IsReleased()), ByVersion(parts))
  }

  lemma {:induction false} OnlySplits(sections: seq<Section>)
    ensures multiset(StableSort.Only(sections, IsUnreleased())) + multiset(StableSort.Only(sections, IsReleased())) == multiset(sections)
  {
    if sections != [] {
      OnlySplits(sections[1..]);
      assert sections == [sections[0]] + sections[1..];
    }
  }

  lemma {:induction false} ByVersionIsPreorder(parts: VersionOrder.Parts)
    ensures StableSort.TotalPreorder(ByVersion(parts))
  {
    forall x: Section, y: Section, z: Section
      ensures ByVersion(parts)(x, y) || ByVersion(parts)(y, x)
      ensures ByVersion(parts)(x, y) && ByVersion(parts)(y, z) ==> ByVersion(parts)(x, z)
    {
      VersionOrder.NotOlderIsPreorder(parts(x.title), parts(y.title), parts(z.title));
    }
  }

  /** Arranging moves whole sections only, [Unreleased] to the front and the others into order, newest first. */
  lemma {:induction false} ArrangePermutes(sections: seq<Section>, parts: VersionOrder.Parts)
    ensures multiset(Arrange(sections, parts)) == multiset(sections)
    ensures var u := StableSort.Only(sections, IsUnreleased());
            |u| <= |Arrange(sections, parts)| && Arrange(sections, parts)[..|u|] == u &&
            StableSort.Ordered(Arrange(sections, parts)[|u|..], ByVersion(parts))
  {
    OnlySplits(sections);
    ByVersionIsPreorder(parts);
    StableSort.SortSorts(StableSort.Only(sections, IsReleased()), ByVersion(parts));
  }

  lemma {:induction false} OnlySatisfies<T>(a: seq<T>, p: T -> bool, i: nat)
    requires i < |StableSort.Only(a, p)|
    ensures p(StableSort.Only(a, p)[i])
  {
    if p(a[0]) {
      if i > 0 {
        OnlySatisfies(a[1..], p, i - 1);
      }
    } else {
      OnlySatisfies(a[1..], p, i);
    }
  }

  /** The two halves of an arranged list. */
  lemma {:induction false} Halves(t: seq<Section>, parts: VersionOrder.Parts)
    ensures var u, r := StableSort.Only(t, IsUnreleased()), StableSort.Sort(StableSort.Only(t, IsReleased()), ByVersion(parts));
            && Arrange(t, parts) == u + r && StableSort.Ordered(r, ByVersion(parts))
            && (forall i :: 0 <= i < |u| ==> u[i].title == UNRELEASED) && (forall i :: 0 <= i < |r| ==> r[i].title != UNRELEASED)
  {
    var u, only := StableSort.Only(t, IsUnreleased()), StableSort.Only(t, IsReleased());
    var r := StableSort.Sort(only, ByVersion(parts));
    ByVersionIsPreorder(parts);
    StableSort.SortSorts(only, ByVersion(parts));
    forall i | 0 <= i < |u| ensures u[i].title == UNRELEASED {
      OnlySatisfies(t, IsUnreleased(), i);
    }
    forall i | 0 <= i < |r| ensures r[i].title != UNRELEASED {
      assert r[i] in multiset(only);
      var k :| 0 <= k < |only| && only[k] == r[i];
      OnlySatisfies(t, IsReleased(), k);
    }
  }

  /** [Unreleased] stands before all releases, and no release before a newer one. */
  lemma {:induction false} NewestFirst(sections: seq<Section>, parts: VersionOrder.Parts, i: nat, j: nat)
    requires i < j < |Arrange(sections, parts)|
    ensures var r := Arrange(sections, parts);
            && (r[j].title == UNRELEASED ==> r[i].title == UNRELEASED)
            && (r[i].title != UNRELEASED ==> !VersionOrder.Newer(parts(r[j].title), parts(r[i].title)))
  {
    var u, r := StableSort.Only(sections, IsUnreleased()), StableSort.Sort(StableSort.Only(sections, IsReleased()), ByVersion(parts));
    Halves(sections, parts);
    hide Arrange;
    if i >= |u| {
      ByVersionIsPreorder(parts);
      StableSort.OrderedFrom(r, ByVersion(parts), i - |u|, j - |u|);
      assert ByVersion(parts)(r[i - |u|], r[j - |u|]);
      VersionOrder.NewerOrSame(parts(r[i - |u|].title), parts(r[j - |u|].title));
    }
  }

  // ---------------------------------------------------------------- the whole fix

  function StartIn(promotable: set<nat>): Test {
    (item: ParsedItem) => item.startLine in promotable
  }

  /** The sections after duplicates have been dropped. */
  function Deduplicated(content: seq<Line>, historical: set<Key>): seq<Section> {
    var sections := Parsed(content).sections;
    Dropped(sections, ReleasedKeys(sections, |sections|) + historical)
  }

  /** The sections after promotable entries have moved. */
  function Moved(content: seq<Line>, promotable: set<nat>, historical: set<Key>): seq<Section> {
    var sections := Deduplicated(content, historical);
    Promoted(sections, StartIn(promotable), |sections|)
  }

  function NormalSections(sections: seq<Section>): seq<Section> {
    seq(|sections|, i requires 0 <= i < |sections| => NormalSection(sections[i]))
  }

  /** The sections of the fixed file, before they are put in order. */
  function FixedSections(content: seq<Line>, promotable: set<nat>, historical: set<Key>): seq<Section> {
    NormalSections(Moved(content, promotable, historical))
  }

  /** The fixed file. */
  function FixedContent(content: seq<Line>, promotable: set<nat>, historical: set<Key>, parts: VersionOrder.Parts): seq<Line> {
    Print(DocumentText(Document(Parsed(content).prefix, Arrange(FixedSections(content, promotable, historical), parts))))
  }

  datatype Fixed = Fixed(content: seq<Line>, promoted: nat, merged: nat, removed: nat, dropped: nat)

  ghost predicate Fixes(content: seq<Line>, promotable: set<nat>, historical: set<Key>, parts: VersionOrder.Parts,
                        t: seq<Section>, fixed: seq<Line>) {
    t == FixedSections(content, promotable, historical) && fixed == FixedContent(content, promotable, historical, parts)
  }

  lemma {:induction false} DeduplicatedReady(content: seq<Line>, historical: set<Key>, q: Test)
    ensures ReleasedReady(Deduplicated(content, historical), q)
  {
    ParsedConsecutive(content);
    var sections := Parsed(content).sections;
    var now := Deduplicated(content, historical);
    forall i | 0 <= i < |now| && now[i].title != UNRELEASED ensures AllReady(now[i].subsections, q) {
      assert now[i] == sections[i];
    }
  }

  method FixChangelogContent(content: seq<Line>, promotable: set<nat>, historical: set<Key>, parts: VersionOrder.Parts)
    returns (r: Fixed)
    ensures r.content == FixedContent(content, promotable, historical, parts)
    ensures var t, moved := FixedSections(content, promotable, historical), Moved(content, promotable, historical);
            SubCount(t, |t|) + r.merged + r.removed == SubCount(moved, |moved|) && r.removed == EmptyCount(moved, |moved|)
    ensures var sections := Deduplicated(content, historical); r.promoted == |AllMoves(sections, StartIn(promotable), |sections|)|
    ensures r.dropped == DroppedCount(Parsed(content).sections, historical)
  {
    var document := ParseChangelog(content);
    ParsedConsecutive(content);
    assert document == Parsed(content);
    ghost var k := First(document.sections);
    assert k >= 0 ==> ConsecutiveSubs(Parsed(content).sections[k].subsections);
    var sections, dropped := DropDuplicates(document.sections, historical);
    DeduplicatedReady(content, historical, StartIn(promotable));
    hide Arrange, Promoted, Dropped, AllMoves, DocumentText, Print, ReleasedKeys, ConsecutiveSubs, SubCount, EmptyCount, DroppedCount, NormalSections;
    var promoted: nat;
    sections, promoted := PromoteItems(sections, StartIn(promotable));
    var merged, removed: nat;
    sections, merged, removed := NormalizeAll(sections);
    var output := RenderChangelog(DocumentText(Document(document.prefix, Arrange(sections, parts))));
    r := Fixed(output, promoted, merged, removed, dropped);
  }

  function SubCount(sections: seq<Section>, n: nat): nat
    requires n <= |sections|
  {
    if n == 0 then 0 else SubCount(sections, n - 1) + |sections[n - 1].subsections|
  }

  /** Subsections without text. */
  ghost function EmptyCount(sections: seq<Section>, n: nat): nat
    requires n <= |sections|
  {
    if n == 0 then 0
    else EmptyCount(sections, n - 1) + |Empties(sections[n - 1].subsections, |sections[n - 1].subsections|)|
  }

  lemma {:induction false} SubCountSame(a: seq<Section>, b: seq<Section>, n: nat)
    requires n <= |a| && n <= |b| && forall i :: 0 <= i < n ==> a[i] == b[i]
    ensures SubCount(a, n) == SubCount(b, n)
  {
    if n > 0 {
      SubCountSame(a, b, n - 1);
    }
  }

  /** Every section normalized; each subsection that is gone was merged or removed. */
  method NormalizeAll(sections: seq<Section>) returns (t: seq<Section>, merged: nat, removed: nat)
    ensures t == NormalSections(sections)
    ensures SubCount(t, |t|) + merged + removed == SubCount(sections, |sections|) && removed == EmptyCount(sections, |sections|)
  {
    hide NormalSection, Empties;
    t, merged, removed := [], 0, 0;
    for i := 0 to |sections|
      invariant |t| == i && SubCount(t, i) + merged + removed == SubCount(sections, i) && removed == EmptyCount(sections, i)
      invariant |t| == i && forall k :: 0 <= k < i ==> t[k] == NormalSection(sections[k])
    {
      var section, m, n := NormalizeSection(sections[i]);
      SubCountSame(t, t + [section], i);
      t, merged, removed := t + [section], merged + m, removed + n;
    }
  }

  // ---------------------------------------------------------------- text

  /** A line of text in some subsection. */
  ghost predicate InSubs(subs: seq<Sub>, x: Line) {
    exists k :: 0 <= k < |subs| && x in Solid(Texts(subs[k].lines))
  }

  ghost predicate InSections(sections: seq<Section>, x: Line) {
    exists i :: 0 <= i < |sections| && InSubs(sections[i].subsections, x)
  }

  lemma {:induction false} UnderText(subs: seq<Sub>, n: nat, title: string, x: Line) returns (k: nat)
    requires n <= |subs| && x in UnderTo(subs, n, title)
    ensures k < n && subs[k].title == title && x in Solid(Texts(subs[k].lines))
  {
    if subs[n - 1].title == title && x in Solid(Texts(subs[n - 1].lines)) {
      k := n - 1;
    } else {
      k := UnderText(subs, n - 1, title, x);
    }
  }

  lemma {:induction false} UnderInSubs(subs: seq<Sub>, title: string, x: Line)
    requires x in Under(subs, title)
    ensures InSubs(subs, x)
  {
    var k := UnderText(subs, |subs|, title, x);
  }

  lemma {:induction false} SameTextSubs(s: Section, t: Section, x: Line)
    requires SameText(s, t)
    ensures InSubs(s.subsections, x) <==> InSubs(t.subsections, x)
  {
    if InSubs(s.subsections, x) {
      var k :| 0 <= k < |s.subsections| && x in Solid(Texts(s.subsections[k].lines));
      SubTextUnder(s.subsections, |s.subsections|, k, x);
      UnderInSubs(t.subsections, s.subsections[k].title, x);
    }
    if InSubs(t.subsections, x) {
      var k :| 0 <= k < |t.subsections| && x in Solid(Texts(t.subsections[k].lines));
      SubTextUnder(t.subsections, |t.subsections|, k, x);
      UnderInSubs(s.subsections, t.subsections[k].title, x);
    }
  }

  lemma {:induction false} NormalizedText(s: seq<Section>, t: seq<Section>, x: Line)
    requires t == NormalSections(s)
    ensures InSections(s, x) <==> InSections(t, x)
  {
    hide NormalSection, InSubs;
    forall i | 0 <= i < |s| ensures InSubs(s[i].subsections, x) <==> InSubs(t[i].subsections, x) {
      NormalSectionKeeps(s[i]);
      SameTextSubs(s[i], t[i], x);
    }
  }

  lemma {:induction false} PermutedText(s: seq<Section>, t: seq<Section>, x: Line)
    requires multiset(s) == multiset(t) && InSections(s, x)
    ensures InSections(t, x)
  {
    var i :| 0 <= i < |s| && InSubs(s[i].subsections, x);
    assert s[i] in multiset(t);
    var j :| 0 <= j < |t| && t[j] == s[i];
  }

  // stripping

  lemma {:induction false} BagHas(items: seq<ParsedItem>, x: Line) returns (i: nat)
    requires x in BagOfItems(items)
    ensures i < |items| && x in Solid(items[i].lines)
  {
    if x in Solid(items[0].lines) {
      i := 0;
    } else {
      i := BagHas(items[1..], x);
      i := i + 1;
    }
  }

  lemma {:induction false} BagHolds(items: seq<ParsedItem>, i: nat, x: Line)
    requires i < |items| && x in Solid(items[i].lines)
    ensures x in BagOfItems(items)
  {
    hide Solid;
    if i > 0 {
      BagHolds(items[1..], i - 1, x);
    }
  }

  /** A line of text either stays, or is part of an entry that is taken out. */
  lemma {:induction false} StripText(sub: Sub, q: Test, x: Line)
    ensures x in Solid(Texts(sub.lines)) <==>
            x in Solid(Texts(Strip(sub, q).lines)) || x in BagOfItems(Picked(sub.lines, q))
  {
    LeftBag(sub.lines, Picks(q));
    assert x in Solid(Texts(sub.lines)) <==> x in Bag(sub.lines);
    assert x in Solid(Texts(Strip(sub, q).lines)) <==> x in Bag(Left(sub.lines, Picks(q)));
  }

  /** An entry that is taken out is in the keys of its subsection. */
  lemma {:induction false} PickedInKeys(lines: seq<NumberedLine>, q: Test, i: nat)
    requires i < |Picked(lines, q)|
    ensures q(Picked(lines, q)[i]) && Picked(lines, q)[i].lines in Keys(Texts(lines))
  {
    FilterPicks(Parts(lines), q);
    ItemTexts(lines);
    var items := ItemsOfParts(Parts(lines));
    var k := FilterHas(items, q, i);
    assert Keys(Texts(lines))[k] == items[k].lines;
  }

  lemma {:induction false} FilterHas(items: seq<ParsedItem>, q: Test, i: nat) returns (k: nat)
    requires i < |Filter(items, q)|
    ensures k < |items| && items[k] == Filter(items, q)[i] && q(items[k])
  {
    if q(items[0]) && i == 0 {
      k := 0;
    } else {
      k := FilterHas(items[1..], q, if q(items[0]) then i - 1 else i);
      k := k + 1;
    }
  }
}
