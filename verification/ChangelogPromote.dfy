/** Moving promotable bullets out of released sections, while [Unreleased] may be created (scripts/fix-changelogs.ts). */
module ChangelogPromote {
  import opened LineSplit
  import opened ChangelogDocument
  import opened ChangelogRender
  import opened ChangelogItems
  import opened ChangelogKeys
  import opened ChangelogNormalize
  import opened ChangelogMoves

  // ---------------------------------------------------------------- taking items out

  type Test = ParsedItem -> bool

  function Picks(q: Test): Pick {
    (p: Part<NumberedLine>) => q(ItemOf(p))
  }

  function Filter(items: seq<ParsedItem>, q: Test): seq<ParsedItem> {
    if items == [] then [] else if q(items[0]) then [items[0]] + Filter(items[1..], q) else Filter(items[1..], q)
  }

  function Picked(lines: seq<NumberedLine>, q: Test): seq<ParsedItem> {
    ItemsOfParts(PickParts(Parts(lines), Picks(q)))
  }

  lemma {:induction false} FilterPicks(parts: seq<Part<NumberedLine>>, q: Test)
    ensures Filter(ItemsOfParts(parts), q) == ItemsOfParts(PickParts(parts, Picks(q)))
  {
    if parts != [] {
      FilterPicks(parts[1..], q);
      assert ItemsOfParts(parts)[1..] == ItemsOfParts(parts[1..]);
    }
  }

  method FilterItems(items: seq<ParsedItem>, q: Test) returns (r: seq<ParsedItem>)
    ensures r == Filter(items, q)
  {
    r := [];
    for i := 0 to |items|
      invariant r + Filter(items[i..], q) == Filter(items, q)
    {
      assert items[i..][1..] == items[i + 1..];
      if q(items[i]) {
        r := r + [items[i]];
      }
    }
  }

  lemma {:induction false} LeaveAll(parts: seq<Part<NumberedLine>>, pick: Pick)
    requires PickParts(parts, pick) == []
    ensures LeaveParts(parts, pick) == parts
  {
    if parts != [] {
      LeaveAll(parts[1..], pick);
    }
  }

  lemma {:induction false} LeftAll(lines: seq<NumberedLine>, q: Test)
    requires Picked(lines, q) == []
    ensures Left(lines, Picks(q)) == lines
  {
    var s := SplitOf(lines, IsItem(LineOf));
    FlatOfSplit(lines, IsItem(LineOf));
    LeaveAll(s.parts, Picks(q));
  }

  /** Items can be taken out of lines of the file, or none is to be. */
  predicate Ready(sub: Sub, q: Test) {
    Consecutive(sub.lines) || Picked(sub.lines, q) == []
  }

  function Strip(sub: Sub, q: Test): Sub {
    Subsection(sub.title, Left(sub.lines, Picks(q)))
  }

  /** The items that pass the test, and the subsection without them. */
  method TakeOut(sub: Sub, q: Test) returns (left: Sub, items: seq<ParsedItem>)
    requires Ready(sub, q)
    ensures items == Picked(sub.lines, q) && left == Strip(sub, q) && left.title == sub.title
  {
    var all := ParseItems(sub.lines);
    items := FilterItems(all, q);
    FilterPicks(Parts(sub.lines), q);
    if |items| == 0 {
      LeftAll(sub.lines, q);
      return sub, items;
    }
    RemovesPicked(sub.lines, Picks(q));
    var lines := RemoveItems(sub.lines, items);
    left := Subsection(sub.title, lines);
  }

  lemma {:induction false} PickedBlocks(parts: seq<Part<NumberedLine>>, pick: Pick)
    requires ProperParts(parts, IsItem(LineOf))
    ensures forall i :: 0 <= i < |ItemsOfParts(PickParts(parts, pick))| ==> IsBlock(ItemsOfParts(PickParts(parts, pick))[i].lines)
  {
    if parts != [] {
      ItemHeads();
      PickedBlocks(parts[1..], pick);
      ItemIsBlock(parts[0]);
    }
  }

  lemma {:induction false} PickedAreBlocks(lines: seq<NumberedLine>, q: Test)
    ensures forall i :: 0 <= i < |Picked(lines, q)| ==> IsBlock(Picked(lines, q)[i].lines)
  {
    FlatOfSplit(lines, IsItem(LineOf));
    PickedBlocks(Parts(lines), Picks(q));
  }

  // ---------------------------------------------------------------- adding them to [Unreleased]

  function MovesOf(title: string, items: seq<ParsedItem>): seq<Move> {
    seq(|items|, i requires 0 <= i < |items| => Move(title, items[i].lines))
  }

  lemma {:induction false} WithTitleKept(subs: seq<Sub>, mv: Move)
    ensures WithTitle(AddMove(subs, mv), mv.title) == AddMove(subs, mv)
  {
    var s := WithTitle(subs, mv.title);
    var k := FindLast(s, |s|, mv.title);
    FindLastAt(AddMove(subs, mv), k, mv.title);
  }

  lemma {:induction false} AddMoveStep(subs: seq<Sub>, mv: Move)
    ensures var s := WithTitle(subs, mv.title);
            var k := FindLast(s, |s|, mv.title);
            && k >= 0 && WithTitle(AddMove(subs, mv), mv.title) == AddMove(subs, mv)
            && AddMove(subs, mv) == if HasItem(s[k].lines, mv.lines) then s else s[k := AppendTo(s[k], mv.lines)]
  {
    WithTitleKept(subs, mv);
  }

  /** Append each item that the subsection under `title` lacks. */
  method AddItems(subs: seq<Sub>, title: string, items: seq<ParsedItem>) returns (now: seq<Sub>)
    requires items != [] && forall i :: 0 <= i < |items| ==> IsBlock(items[i].lines)
    ensures now == AddMoves(subs, MovesOf(title, items), |items|)
  {
    hide AddMove, HasItem, AppendTo, WithTitle, Trim;
    ghost var moves := MovesOf(title, items);
    now := WithTitle(subs, title);
    for i := 0 to |items|
      invariant now == WithTitle(AddMoves(subs, moves, i), title)
    {
      AddMoveStep(AddMoves(subs, moves, i), moves[i]);
      TrimOfTrimmed(items[i].lines);
      var k := FindLast(now, |now|, title);
      var held := SubsectionHasItem(now[k], items[i].lines);
      if !held {
        var appended := AppendSubsectionLines(now[k], items[i].lines);
        now := now[k := appended];
      }
    }
    WithTitleKept(AddMoves(subs, moves, |items| - 1), moves[|items| - 1]);
  }

  lemma {:induction false} AddMovesJoin(subs: seq<Sub>, a: seq<Move>, b: seq<Move>, n: nat)
    requires n <= |b|
    ensures AddMoves(AddMoves(subs, a, |a|), b, n) == AddMoves(subs, a + b, |a| + n)
  {
    hide AddMove;
    if n > 0 {
      AddMovesJoin(subs, a, b, n - 1);
    } else {
      AddMovesSame(subs, a, a + b, |a|);
    }
  }

  lemma {:induction false} AddMovesSame(subs: seq<Sub>, a: seq<Move>, b: seq<Move>, n: nat)
    requires n <= |a| && n <= |b| && forall i :: 0 <= i < n ==> a[i] == b[i]
    ensures AddMoves(subs, a, n) == AddMoves(subs, b, n)
  {
    hide AddMove;
    if n > 0 {
      AddMovesSame(subs, a, b, n - 1);
    }
  }

  const FRESH: Section := ReleaseSection(UNRELEASED, "", [], [])

  /** The first [Unreleased] section; -1 if there is none. */
  function First(sections: seq<Section>): int {
    FirstFrom(sections, 0)
  }

  function FirstFrom(sections: seq<Section>, from: nat): (k: int)
    requires from <= |sections|
    ensures -1 <= k < |sections| && (k >= 0 ==> from <= k && sections[k].title == UNRELEASED)
    ensures forall i :: from <= i < |sections| && (i < k || k < 0) ==> sections[i].title != UNRELEASED
    decreases |sections| - from
  {
    if from == |sections| then -1 else if sections[from].title == UNRELEASED then from else FirstFrom(sections, from + 1)
  }

  lemma {:induction false} FirstAt(sections: seq<Section>, k: nat)
    requires k < |sections| && sections[k].title == UNRELEASED && forall i :: 0 <= i < k ==> sections[i].title != UNRELEASED
    ensures First(sections) == k
  {
  }

  lemma {:induction false} FirstNone(sections: seq<Section>)
    requires forall i :: 0 <= i < |sections| ==> sections[i].title != UNRELEASED
    ensures First(sections) == -1
  {
  }

  function Gaining(s: Section, moves: seq<Move>): Section {
    s.(subsections := AddMoves(s.subsections, moves, |moves|))
  }

  /** The sections once the moves have been added to [Unreleased], which is created in front if need be. */
  function WithMoves(sections: seq<Section>, moves: seq<Move>): seq<Section> {
    var k := First(sections);
    if moves == [] then sections
    else if k < 0 then [Gaining(FRESH, moves)] + sections
    else sections[k := Gaining(sections[k], moves)]
  }

  lemma {:induction false} FirstWithMoves(sections: seq<Section>, moves: seq<Move>)
    requires moves != []
    ensures First(WithMoves(sections, moves)) == if First(sections) < 0 then 0 else First(sections)
  {
    var k, now := First(sections), WithMoves(sections, moves);
    FirstAt(now, if k < 0 then 0 else k);
  }

  lemma {:induction false} GainingTwice(s: Section, a: seq<Move>, b: seq<Move>)
    ensures Gaining(Gaining(s, a), b) == Gaining(s, a + b)
  {
    hide AddMoves;
    AddMovesJoin(s.subsections, a, b, |b|);
  }

  lemma {:induction false} WithMovesTwice(sections: seq<Section>, a: seq<Move>, b: seq<Move>)
    ensures WithMoves(WithMoves(sections, a), b) == WithMoves(sections, a + b)
  {
    hide AddMoves;
    var k := First(sections);
    if a == [] {
      assert a + b == b;
    } else if b == [] {
      assert a + b == a;
    } else {
      FirstWithMoves(sections, a);
      GainingTwice(if k < 0 then FRESH else sections[k], a, b);
      if k < 0 {
        assert ([Gaining(FRESH, a)] + sections)[0 := Gaining(FRESH, a + b)] == [Gaining(FRESH, a + b)] + sections;
      } else {
        assert sections[k := Gaining(sections[k], a)][k := Gaining(sections[k], a + b)] == sections[k := Gaining(sections[k], a + b)];
      }
    }
  }

  /** Where the section at `at` stands once the moves have been added. */
  function Shifted(sections: seq<Section>, moves: seq<Move>, at: nat): nat {
    if moves != [] && First(sections) < 0 then at + 1 else at
  }

  lemma {:induction false} FirstUpdated(sections: seq<Section>, at: nat, s: Section)
    requires at < |sections| && sections[at].title != UNRELEASED && s.title != UNRELEASED
    ensures First(sections[at := s]) == First(sections)
  {
    var k := First(sections);
    if k < 0 {
      FirstNone(sections[at := s]);
    } else {
      FirstAt(sections[at := s], k);
    }
  }

  lemma {:induction false} UpdatePrepended<T>(x: T, s: seq<T>, at: nat, y: T)
    requires at < |s|
    ensures ([x] + s)[at + 1 := y] == [x] + s[at := y]
  {
  }

  lemma {:induction false} UpdatesCommute<T>(s: seq<T>, i: nat, x: T, j: nat, y: T)
    requires i < |s| && j < |s| && i != j
    ensures s[i := x][j := y] == s[j := y][i := x]
  {
  }

  lemma {:induction false} UpdateWithMoves(sections: seq<Section>, moves: seq<Move>, at: nat, s: Section)
    requires at < |sections| && sections[at].title != UNRELEASED && s.title != UNRELEASED
    ensures var now, p := WithMoves(sections, moves), Shifted(sections, moves, at);
            p < |now| && now[p] == sections[at] && now[p := s] == WithMoves(sections[at := s], moves)
  {
    FirstUpdated(sections, at, s);
    var k := First(sections);
    assert k < |sections| && (k >= 0 ==> k != at);
    hide First, Gaining;
    if k < 0 {
      UpdatePrepended(Gaining(FRESH, moves), sections, at, s);
    } else {
      UpdatesCommute(sections, k, Gaining(sections[k], moves), at, s);
    }
  }

  // ---------------------------------------------------------------- one released section

  function SubMoves(subs: seq<Sub>, q: Test, n: nat): seq<Move>
    requires n <= |subs|
  {
    if n == 0 then [] else SubMoves(subs, q, n - 1) + MovesOf(subs[n - 1].title, Picked(subs[n - 1].lines, q))
  }

  function StripTo(subs: seq<Sub>, q: Test, n: nat): seq<Sub> {
    seq(|subs|, i requires 0 <= i < |subs| => if i < n then Strip(subs[i], q) else subs[i])
  }

  function StripSection(s: Section, q: Test): Section {
    s.(subsections := StripTo(s.subsections, q, |s.subsections|))
  }

  predicate AllReady(subs: seq<Sub>, q: Test) {
    forall i :: 0 <= i < |subs| ==> Ready(subs[i], q)
  }

  /** The sections when `j` subsections of the section at `at` are done. */
  function Midway(sections: seq<Section>, at: nat, q: Test, j: nat): seq<Section>
    requires at < |sections| && j <= |sections[at].subsections|
  {
    WithMoves(sections[at := PartDone(sections[at], q, j)], SubMoves(sections[at].subsections, q, j))
  }

  function PartDone(s: Section, q: Test, j: nat): Section {
    s.(subsections := StripTo(s.subsections, q, j))
  }

  lemma {:induction false} PartDoneNext(s: Section, q: Test, j: nat)
    requires j < |s.subsections|
    ensures var x := PartDone(s, q, j);
            && |x.subsections| == |s.subsections| && x.subsections[j] == s.subsections[j]
            && PartDone(s, q, j + 1) == x.(subsections := x.subsections[j := Strip(s.subsections[j], q)])
    ensures Picked(s.subsections[j].lines, q) == [] ==> PartDone(s, q, j + 1) == PartDone(s, q, j)
  {
    assert StripTo(s.subsections, q, j + 1) == StripTo(s.subsections, q, j)[j := Strip(s.subsections[j], q)];
    if Picked(s.subsections[j].lines, q) == [] {
      LeftAll(s.subsections[j].lines, q);
      assert StripTo(s.subsections, q, j + 1) == StripTo(s.subsections, q, j);
    }
  }

  /** A section is updated where it stands, then more items are moved. */
  lemma {:induction false} MoveOn(sections: seq<Section>, at: nat, y: Section, z: Section, a: seq<Move>, b: seq<Move>)
    requires at < |sections| && sections[at].title != UNRELEASED && y.title != UNRELEASED && z.title != UNRELEASED
    ensures var now, p := WithMoves(sections[at := y], a), Shifted(sections, a, at);
            && p < |now| && now[p] == y && First(now[p := z]) == First(now)
            && WithMoves(sections[at := z], a + b) == WithMoves(now[p := z], b)
            && Shifted(sections, a + b, at) == p + if b != [] && First(now) < 0 then 1 else 0
  {
    var x := sections[at := y];
    FirstUpdated(sections, at, y);
    UpdateWithMoves(x, a, at, z);
    assert x[at := z] == sections[at := z];
    WithMovesTwice(sections[at := z], a, b);
    FirstUpdated(WithMoves(x, a), Shifted(x, a, at), z);
    if a != [] {
      FirstWithMoves(x, a);
    }
  }

  /** One more subsection of the section at `at`. */
  lemma {:induction false} MidwayNext(sections: seq<Section>, at: nat, q: Test, j: nat)
    requires at < |sections| && sections[at].title != UNRELEASED && j < |sections[at].subsections|
    ensures var s := sections[at];
            var now, p := Midway(sections, at, q, j), Shifted(sections, SubMoves(s.subsections, q, j), at);
            var b := MovesOf(s.subsections[j].title, Picked(s.subsections[j].lines, q));
            && p < |now| && now[p] == PartDone(s, q, j) && First(now[p := PartDone(s, q, j + 1)]) == First(now)
            && Midway(sections, at, q, j + 1) == WithMoves(now[p := PartDone(s, q, j + 1)], b)
            && Shifted(sections, SubMoves(s.subsections, q, j + 1), at) == p + (if b != [] && First(now) < 0 then 1 else 0)
            && (b == [] ==> Midway(sections, at, q, j + 1) == now)
  {
    var s := sections[at];
    PartDoneNext(s, q, j);
    MoveOn(sections, at, PartDone(s, q, j), PartDone(s, q, j + 1), SubMoves(s.subsections, q, j),
           MovesOf(s.subsections[j].title, Picked(s.subsections[j].lines, q)));
  }

  lemma {:induction false} MidwayEnds(sections: seq<Section>, at: nat, q: Test)
    requires at < |sections| && sections[at].title != UNRELEASED
    ensures var s := sections[at];
            && Midway(sections, at, q, 0) == sections && PartDone(s, q, 0) == s
            && Shifted(sections, SubMoves(s.subsections, q, 0), at) == at
            && Midway(sections, at, q, |s.subsections|) ==
                 WithMoves(sections[at := StripSection(s, q)], SubMoves(s.subsections, q, |s.subsections|))
            && forall j :: 0 <= j <= |s.subsections| ==> |PartDone(s, q, j).subsections| == |s.subsections|
  {
    assert StripTo(sections[at].subsections, q, 0) == sections[at].subsections;
  }

  lemma {:induction false} MidwayAt(sections: seq<Section>, at: nat, q: Test, j: nat)
    requires at < |sections| && sections[at].title != UNRELEASED && j <= |sections[at].subsections|
    ensures var now, p := Midway(sections, at, q, j), Shifted(sections, SubMoves(sections[at].subsections, q, j), at);
            p < |now| && now[p] == PartDone(sections[at], q, j)
  {
    var y, a := PartDone(sections[at], q, j), SubMoves(sections[at].subsections, q, j);
    MoveOn(sections, at, y, y, a, []);
  }

  /** The section at `pos` with its `j`-th subsection stripped, and the items taken out of it moved to [Unreleased]. */
  method MoveItems(sections: seq<Section>, pos: nat, j: nat, left: Sub, items: seq<ParsedItem>, unreleased0: int)
    returns (now: seq<Section>, unreleased: int)
    requires pos < |sections| && j < |sections[pos].subsections| && items != []
    requires forall i :: 0 <= i < |items| ==> IsBlock(items[i].lines)
    requires var updated := sections[pos := sections[pos].(subsections := sections[pos].subsections[j := left])];
             unreleased0 == First(updated)
    ensures var updated := sections[pos := sections[pos].(subsections := sections[pos].subsections[j := left])];
            now == WithMoves(updated, MovesOf(left.title, items))
    ensures unreleased == First(now)
  {
    hide AddMoves;
    ghost var updated := sections[pos := sections[pos].(subsections := sections[pos].subsections[j := left])];
    FirstWithMoves(updated, MovesOf(left.title, items));
    now := sections[pos := sections[pos].(subsections := sections[pos].subsections[j := left])];
    unreleased := unreleased0;
    if unreleased < 0 {
      now, unreleased := [FRESH] + now, 0;
    }
    var target := AddItems(now[unreleased].subsections, left.title, items);
    now := now[unreleased := now[unreleased].(subsections := target)];
  }

  method PromoteSection(sections: seq<Section>, at: nat, q: Test, unreleased0: int)
    returns (now: seq<Section>, unreleased: int, promoted: nat)
    requires at < |sections| && sections[at].title != UNRELEASED && AllReady(sections[at].subsections, q)
    requires unreleased0 == First(sections)
    ensures var s := sections[at];
            && now == WithMoves(sections[at := StripSection(s, q)], SubMoves(s.subsections, q, |s.subsections|))
            && promoted == |SubMoves(s.subsections, q, |s.subsections|)|
    ensures unreleased == First(now)
  {
    hide WithMoves, FirstFrom, Midway, PartDone, Strip, Picked, Ready;
    now, unreleased, promoted := sections, unreleased0, 0;
    ghost var s := sections[at];
    var pos, j := at, 0;
    MidwayEnds(sections, at, q);
    while j < |now[pos].subsections|
      invariant j <= |s.subsections| && now == Midway(sections, at, q, j) && unreleased == First(now)
      invariant promoted == |SubMoves(s.subsections, q, j)|
      invariant pos == Shifted(sections, SubMoves(s.subsections, q, j), at) && pos < |now| && now[pos] == PartDone(s, q, j)
      decreases |s.subsections| - j
    {
      var sub := now[pos].subsections[j];
      MidwayNext(sections, at, q, j);
      MidwayAt(sections, at, q, j + 1);
      PartDoneNext(s, q, j);
      var left, items := TakeOut(sub, q);
      PickedAreBlocks(sub.lines, q);
      if |items| > 0 {
        var created := unreleased < 0;
        now, unreleased := MoveItems(now, pos, j, left, items, unreleased);
        pos := if created then pos + 1 else pos;
        promoted := promoted + |items|;
      }
      j := j + 1;
    }
  }

  // ---------------------------------------------------------------- all released sections

  function StripAll(sections: seq<Section>, q: Test, n: nat): seq<Section> {
    seq(|sections|, i requires 0 <= i < |sections| =>
      if i < n && sections[i].title != UNRELEASED then StripSection(sections[i], q) else sections[i])
  }

  /** The moves out of the first `n` sections, in the order of the file. */
  function AllMoves(sections: seq<Section>, q: Test, n: nat): seq<Move>
    requires n <= |sections|
  {
    if n == 0 then []
    else if sections[n - 1].title == UNRELEASED then AllMoves(sections, q, n - 1)
    else AllMoves(sections, q, n - 1) + SubMoves(sections[n - 1].subsections, q, |sections[n - 1].subsections|)
  }

  /** The sections when the first `n` are done. */
  function Promoted(sections: seq<Section>, q: Test, n: nat): seq<Section>
    requires n <= |sections|
  {
    WithMoves(StripAll(sections, q, n), AllMoves(sections, q, n))
  }

  /** Every released section's items can be taken out by line numbers. */
  predicate ReleasedReady(sections: seq<Section>, q: Test) {
    forall i :: 0 <= i < |sections| && sections[i].title != UNRELEASED ==> AllReady(sections[i].subsections, q)
  }

  lemma {:induction false} FirstOfStripped(sections: seq<Section>, q: Test, n: nat)
    ensures First(StripAll(sections, q, n)) == First(sections)
  {
    var k := First(sections);
    if k < 0 {
      FirstNone(StripAll(sections, q, n));
    } else {
      FirstAt(StripAll(sections, q, n), k);
    }
  }

  /** Whether [Unreleased] had to be created for the first `n` sections. */
  predicate Created(sections: seq<Section>, q: Test, n: nat)
    requires n <= |sections|
  {
    First(sections) < 0 && AllMoves(sections, q, n) != []
  }

  lemma {:induction false} PromotedLength(sections: seq<Section>, q: Test, n: nat)
    requires n <= |sections|
    ensures |Promoted(sections, q, n)| == |sections| + if Created(sections, q, n) then 1 else 0
    ensures Promoted(sections, q, 0) == sections
  {
    FirstOfStripped(sections, q, n);
    assert StripAll(sections, q, 0) == sections;
  }

  lemma {:induction false} PromotedNext(sections: seq<Section>, q: Test, n: nat)
    requires n < |sections| && sections[n].title != UNRELEASED
    ensures var now, p, s := Promoted(sections, q, n), n + (if Created(sections, q, n) then 1 else 0), sections[n];
            && p < |now| && now[p] == s
            && Promoted(sections, q, n + 1) ==
                 WithMoves(now[p := StripSection(s, q)], SubMoves(s.subsections, q, |s.subsections|))
  {
    hide AddMoves, SubMoves, StripTo;
    var x, s := StripAll(sections, q, n), sections[n];
    FirstOfStripped(sections, q, n);
    StripOneMore(sections, q, n);
    hide StripSection, First, WithMoves;
    MoveOn(x, n, s, StripSection(s, q), AllMoves(sections, q, n), SubMoves(s.subsections, q, |s.subsections|));
  }

  lemma {:induction false} StripOneMore(sections: seq<Section>, q: Test, n: nat)
    requires n < |sections| && sections[n].title != UNRELEASED
    ensures var x := StripAll(sections, q, n);
            x[n := sections[n]] == x && x[n := StripSection(sections[n], q)] == StripAll(sections, q, n + 1)
  {
    hide StripSection;
  }

  lemma {:induction false} PromotedSkip(sections: seq<Section>, q: Test, n: nat)
    requires n < |sections| && sections[n].title == UNRELEASED
    ensures Promoted(sections, q, n + 1) == Promoted(sections, q, n)
    ensures Created(sections, q, n + 1) == Created(sections, q, n)
  {
    assert StripAll(sections, q, n + 1) == StripAll(sections, q, n);
  }

  /** Once [Unreleased] has been created in front, the other sections stand one further on. */
  lemma {:induction false} PromotedAt(sections: seq<Section>, q: Test, n: nat, i: nat)
    requires n <= |sections| && i < |sections|
    ensures Created(sections, q, n) ==>
              var now := Promoted(sections, q, n); i + 1 < |now| && now[i + 1] == StripAll(sections, q, n)[i] && now[i + 1].title != UNRELEASED
    ensures First(sections) < 0 ==> sections[i].title != UNRELEASED
    ensures !Created(sections, q, n) ==> Promoted(sections, q, n)[i].title == sections[i].title
  {
    FirstOfStripped(sections, q, n);
  }

  // a section that is visited again

  lemma {:induction false} StripTwice(sub: Sub, q: Test)
    ensures Strip(Strip(sub, q), q) == Strip(sub, q) && Picked(Strip(sub, q).lines, q) == []
  {
    LeftIsProper(sub.lines, Picks(q));
    LeftAll(Strip(sub, q).lines, q);
  }

  lemma {:induction false} NoMovesLeft(s: Section, q: Test, n: nat)
    requires n <= |s.subsections|
    ensures SubMoves(StripSection(s, q).subsections, q, n) == []
  {
    hide *;
    if n == 0 {
      NoMovesOut(s, q);
    } else {
      NoMovesLeft(s, q, n - 1);
      NoneMoved(s, q, n);
    }
  }

  lemma {:induction false} NoMovesOut(s: Section, q: Test)
    ensures |StripSection(s, q).subsections| == |s.subsections| && SubMoves(StripSection(s, q).subsections, q, 0) == []
  {
  }

  lemma {:induction false} NoneMoved(s: Section, q: Test, n: nat)
    requires 0 < n <= |s.subsections|
    ensures |StripSection(s, q).subsections| == |s.subsections|
    ensures SubMoves(StripSection(s, q).subsections, q, n) == SubMoves(StripSection(s, q).subsections, q, n - 1)
  {
    hide Strip, Picked;
    StripTwice(s.subsections[n - 1], q);
    assert MovesOf(s.subsections[n - 1].title, []) == [];
  }

  /** Going over a section again finds nothing to move. */
  lemma {:induction false} Revisit(s: Section, q: Test)
    ensures var t := StripSection(s, q);
            && AllReady(t.subsections, q) && StripSection(t, q) == t && SubMoves(t.subsections, q, |t.subsections|) == []
  {
    var t := StripSection(s, q);
    NoMovesLeft(s, q, |s.subsections|);
    forall i | 0 <= i < |s.subsections| ensures Strip(t.subsections[i], q) == t.subsections[i] && Ready(t.subsections[i], q) {
      StripTwice(s.subsections[i], q);
    }
  }

  /**
   The iteration of `fixChangelogContent` over sections. Creating [Unreleased] puts it in front of the list that is being
   iterated, so that the section it was created for comes up once more.
   */
  method PromoteItems(sections: seq<Section>, q: Test) returns (now: seq<Section>, promoted: nat)
    requires ReleasedReady(sections, q)
    ensures now == Promoted(sections, q, |sections|) && promoted == |AllMoves(sections, q, |sections|)|
  {
    hide WithMoves, FirstFrom, StripAll, StripSection, Ready, SubMoves;
    now, promoted := sections, 0;
    var unreleased := First(sections);
    ghost var done := 0;
    var i := 0;
    PromotedLength(sections, q, 0);
    while i < |now|
      invariant i <= |now| && done <= |sections| && now == Promoted(sections, q, done) && unreleased == First(now)
      invariant promoted == |AllMoves(sections, q, done)|
      invariant |now| == |sections| + if Created(sections, q, done) then 1 else 0
      invariant if Created(sections, q, done) then i >= 1 && (done == i || done == i - 1) else done == i
      decreases |sections| + 1 - i
    {
      ghost var created := Created(sections, q, done);
      PromotedAt(sections, q, done, if created then i - 1 else i);
      if now[i].title == UNRELEASED {
        PromotedSkip(sections, q, done);
        done := done + 1;
      } else {
        ghost var again := created && done == i;
        if again {
          RevisitAt(sections, q, done);
        } else {
          PromotedNext(sections, q, done);
          PromotedLength(sections, q, done + 1);
        }
        var more: nat;
        now, unreleased, more := PromoteSection(now, i, q, unreleased);
        promoted := promoted + more;
        if !again {
          done := done + 1;
        }
      }
      i := i + 1;
    }
  }

  lemma {:induction false} RevisitAt(sections: seq<Section>, q: Test, n: nat)
    requires 0 < n <= |sections| && Created(sections, q, n)
    ensures var now := Promoted(sections, q, n);
            && n < |now| && AllReady(now[n].subsections, q) && SubMoves(now[n].subsections, q, |now[n].subsections|) == []
            && WithMoves(now[n := StripSection(now[n], q)], []) == now
  {
    hide AddMoves, SubMoves, StripTo, Ready;
    PromotedAt(sections, q, n, n - 1);
    Revisit(sections[n - 1], q);
  }
}
