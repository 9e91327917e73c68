/** What follow-up reads add to a first ranged read (scripts/session-stats/analyze_selector_reads.py). */
module SelectorReads {
  import opened Prelude
  import opened Intervals

  datatype Kind = Range | Default | Raw | Conflicts

  /** `bounds` is absent for kinds without line bounds. They may be any two numbers: `:10-5` is a range. */
  datatype Read = Read(kind: Kind, bounds: Option<Interval>)

  datatype Position = Inside | GapAbove | GapBelow | Forward | Backward | Both

  datatype Coverage = Coverage(
    initSize: int, followups: nat, rangeFollowups: nat, rawFollowups: nat, firstPosition: Option<Position>,
    intervals: seq<Interval>, regions: nat, covered: int, extraLines: int, span: int, gapLines: int)

  // ---------------------------------------------------------------- where a follow-up lands

  /** Where `v` lands relative to the first read. */
  function ClassifyFollowup(v: Interval, init: Interval): Position {
    if v.lo >= init.lo && v.hi <= init.hi then Inside
    else if v.lo > init.hi + 1 then GapAbove
    else if v.hi < init.lo - 1 then GapBelow
    else if v.hi > init.hi && v.lo >= init.lo then Forward
    else if v.lo < init.lo && v.hi <= init.hi then Backward
    else Both
  }

  predicate Gap(p: Position) {
    p.GapAbove? || p.GapBelow?
  }

  /** Some line of `v` is beyond the last line of `init`. */
  predicate Beyond(v: Interval, init: Interval) {
    exists x :: x in Span(v) && x > init.hi
  }

  predicate Ahead(v: Interval, init: Interval) {
    exists x :: x in Span(v) && x < init.lo
  }

  /** A line of one is a line of the other or next to one. */
  predicate Touch(v: Interval, init: Interval) {
    exists x, y :: x in Span(v) && y in Span(init) && -1 <= x - y <= 1
  }

  /** The six positions in terms of the lines read. */
  lemma {:induction false} PositionMeans(v: Interval, init: Interval)
    requires v.lo <= v.hi && init.lo <= init.hi
    ensures var p := ClassifyFollowup(v, init);
            && (p.Inside? <==> Span(v) <= Span(init))
            && (Gap(p) <==> !Touch(v, init))
            && (p.GapAbove? <==> !Touch(v, init) && Beyond(v, init))
            && (p.GapBelow? <==> !Touch(v, init) && Ahead(v, init))
            && (p.Forward? <==> Touch(v, init) && Beyond(v, init) && !Ahead(v, init))
            && (p.Backward? <==> Touch(v, init) && Ahead(v, init) && !Beyond(v, init))
            && (p.Both? <==> Beyond(v, init) && Ahead(v, init))
  {
    assert v.lo in Span(v) && v.hi in Span(v) && init.lo in Span(init) && init.hi in Span(init);
    assert Beyond(v, init) <==> v.hi > init.hi;
    assert Ahead(v, init) <==> v.lo < init.lo;
    TouchMeans(v, init);
  }

  lemma {:induction false} TouchMeans(v: Interval, init: Interval)
    requires v.lo <= v.hi && init.lo <= init.hi
    ensures Touch(v, init) <==> v.lo <= init.hi + 1 && v.hi >= init.lo - 1
  {
    if v.lo <= init.hi + 1 && v.hi >= init.lo - 1 {
      var x := if v.lo >= init.lo - 1 then v.lo else if v.hi <= init.hi then v.hi else init.lo;
      var y := if x < init.lo then init.lo else if x > init.hi then init.hi else x;
      assert x in Span(v) && y in Span(init);
    }
  }

  // ---------------------------------------------------------------- regions

  /** Lines without a predecessor: one for each region. */
  function Starts(lines: set<int>): set<int> {
    set x | x in lines && StartsAt(lines, x)
  }

  predicate StartsAt(lines: set<int>, x: int) {
    x - 1 !in lines
  }

  lemma {:induction false} RegionsTo(ivs: seq<Interval>, n: nat)
    requires Normal(ivs) && n <= |ivs|
    ensures |Starts(LinesTo(ivs, n))| == n
  {
    if n > 0 {
      RegionsTo(ivs, n - 1);
      var before := LinesTo(ivs, n - 1);
      forall x | x in before ensures x < ivs[n - 1].lo - 1 {
        var i := WhichInterval(ivs, n - 1, x);
      }
      OneMoreStart(before, ivs[n - 1]);
    }
  }

  lemma {:induction false} OneMoreStart(before: set<int>, last: Interval)
    requires last.lo <= last.hi && forall x :: x in before ==> x < last.lo - 1
    ensures |Starts(before + Span(last))| == |Starts(before)| + 1
  {
    assert last.lo in Span(last);
    assert Starts(before + Span(last)) == Starts(before) + {last.lo};
    assert last.lo !in Starts(before);
  }

  /** All lines of a merged list lie between its first and its last, and those that do not belong to it are gaps. */
  function GapsOf(v: Interval, lines: set<int>): set<int> {
    Span(v) - lines
  }

  function BoundingBox(ivs: seq<Interval>): Interval
    requires ivs != []
  {
    Interval(ivs[0].lo, ivs[|ivs| - 1].hi)
  }

  lemma {:induction false} InsideBox(ivs: seq<Interval>)
    requires Normal(ivs) && ivs != []
    ensures var box := BoundingBox(ivs);
            && box.lo <= box.hi && box.lo in Lines(ivs) && box.hi in Lines(ivs)
            && Lines(ivs) <= Span(box) && |GapsOf(box, Lines(ivs))| == |Span(box)| - |Lines(ivs)|
  {
    var box, lines := BoundingBox(ivs), Lines(ivs);
    LinesHave(ivs, |ivs|, 0, box.lo);
    LinesHave(ivs, |ivs|, |ivs| - 1, box.hi);
    forall x | x in lines ensures x in Span(box) {
      var i := WhichInterval(ivs, |ivs|, x);
    }
    var gaps := GapsOf(box, lines);
    assert gaps + lines == Span(box) && gaps !! lines;
  }

  /** A set of lines has one first and one last line. */
  ghost predicate Bounds(box: Interval, lines: set<int>) {
    box.lo in lines && box.hi in lines && lines <= Span(box)
  }

  // ---------------------------------------------------------------- one group of group

  predicate HasRange(r: Read) {
    (r.kind.Range? || r.kind.Default?) && r.bounds.Some?
  }

  /** The known bounds among the reads, in order. */
  function Ranged(group: seq<Read>): seq<Interval> {
    if group == [] then []
    else
      var last := |group| - 1;
      Ranged(group[..last]) + if HasRange(group[last]) then [group[last].bounds.value] else []
  }

  function Positions(ivs: seq<Interval>, init: Interval): (p: seq<Position>)
    ensures |p| == |ivs| && forall i :: 0 <= i < |ivs| ==> p[i] == ClassifyFollowup(ivs[i], init)
  {
    seq(|ivs|, i requires 0 <= i < |ivs| => ClassifyFollowup(ivs[i], init))
  }

  predicate Eligible(group: seq<Read>) {
    group != [] && group[0].kind.Range? && group[0].bounds.Some?
  }

  /** All intervals that count towards the coverage of a group: the first read's and the follow-ups'. */
  function Given(group: seq<Read>): seq<Interval>
    requires Eligible(group)
  {
    [group[0].bounds.value] + Ranged(group[1..])
  }

  /** Where the follow-ups with known bounds landed, in order. */
  function Landed(group: seq<Read>): seq<Position>
    requires Eligible(group)
  {
    Positions(Ranged(group[1..]), group[0].bounds.value)
  }

  /**
   The numbers of a group are sizes of sets of lines, less what reversed bounds fall short of: those of the first read,
   of the box, and of the strays.
   */
  ghost predicate Sizes(init: Interval, lines: set<int>, strays: nat, box: Interval, c: Coverage) {
    && c.initSize == |Span(init)| - Shortfall(init)
    && c.covered == |lines| - strays
    && c.extraLines == AtLeastZero(|lines - Span(init)| + Shortfall(init) - strays)
    && c.span == |Span(box)| - Shortfall(box)
    && c.gapLines == |GapsOf(box, lines)| - |lines - Span(box)| - Shortfall(box) + strays
  }

  function AtLeastZero(n: int): nat {
    if n > 0 then n else 0
  }

  /** What the coverage of a group says of the lines its reads returned. */
  ghost predicate Accounts(group: seq<Read>, c: Coverage)
    requires Eligible(group)
  {
    var init, given := group[0].bounds.value, Given(group);
    var lines := Lines(given);
    && Lines(c.intervals) == lines && Apart(c.intervals) && c.regions == |c.intervals| > 0
    && c.covered <= |lines| && (c.covered == |lines| <==> !HasStray(given))
    && Sizes(init, lines, StrayDeficit(given, lines), BoundingBox(c.intervals), c)
    && (NonEmpty(given) ==>
      && Normal(c.intervals) && c.initSize == |Span(init)|
      && c.regions == |Starts(lines)| && c.extraLines == |lines - Span(init)|
      && var box := BoundingBox(c.intervals);
         Bounds(box, lines) && c.span == |Span(box)| && c.gapLines == |GapsOf(box, lines)|)
  }

  function Kinds(group: seq<Read>): seq<Kind> {
    seq(|group|, i requires 0 <= i < |group| => group[i].kind)
  }

  /** What the coverage of a group says of its follow-ups. */
  ghost predicate Tallies(group: seq<Read>, c: Coverage)
    requires Eligible(group)
  {
    var positions, kinds := Landed(group), multiset(Kinds(group[1..]));
    && c.followups == |group| - 1
    && c.firstPosition == (if positions == [] then None else Some(positions[0]))
    && c.rangeFollowups == kinds[Range] + kinds[Default] && c.rawFollowups == kinds[Raw]
  }

  /** None for a group whose first read is no range. `positions` counts the follow-ups of all groups so far. */
  method AnalyzeGroup(group: seq<Read>, positions0: multiset<Position>)
    returns (r: Option<Coverage>, positions: multiset<Position>)
    requires group != []
    ensures r.Some? <==> Eligible(group)
    ensures r.Some? <==> group[0].kind == Range && group[0].bounds.Some?
    ensures r.None? ==> positions == positions0
    ensures r.Some? ==> Accounts(group, r.value) && Tallies(group, r.value)
    ensures r.Some? ==> positions == positions0 + multiset(Landed(group))
  {
    positions := positions0;
    if !Eligible(group) {
      return None, positions;
    }
    hide Accounts, TotalLength, Ranged, Positions, HasReversed, HasStray, Deficit, StrayDeficit, Lines, Normal, Apart, NonEmpty;
    var init, followups := group[0].bounds.value, group[1..];
    var intervals, firstPosition, rangeCount, rawCount;
    intervals, firstPosition, positions := ScanFollowups(followups, init, positions0);
    rangeCount, rawCount := CountKinds(followups);
    var merged := Merge(intervals);
    var covered := CoveredLines(merged);
    var initSize := init.hi - init.lo + 1;
    var box := BoundingBox(merged);
    var span := box.hi - box.lo + 1;
    var extra := AtLeastZero(covered - initSize);
    r := Some(Coverage(initSize, |followups|, rangeCount, rawCount, firstPosition, merged, |merged|, covered, extra,
                       span, span - covered));
    CoverageHolds(group, r.value);
  }

  lemma {:induction false} CoverageHolds(group: seq<Read>, c: Coverage)
    requires Eligible(group) && c.intervals != [] && c.regions == |c.intervals| && Apart(c.intervals)
    requires Lines(c.intervals) == Lines(Given(group)) && (NonEmpty(Given(group)) ==> Normal(c.intervals))
    requires HasReversed(c.intervals) <==> HasStray(Given(group))
    requires Deficit(c.intervals, |c.intervals|) == StrayDeficit(Given(group), Lines(Given(group)))
    requires var init, box := group[0].bounds.value, BoundingBox(c.intervals);
             && c.initSize == init.hi - init.lo + 1 && c.covered == TotalLength(c.intervals, |c.intervals|)
             && c.extraLines == AtLeastZero(c.covered - c.initSize)
             && c.span == box.hi - box.lo + 1 && c.gapLines == c.span - c.covered
    ensures Accounts(group, c)
  {
    hide Sizes, Bounds, GapsOf, Starts, Span, Lines, TotalLength, HasStray, HasReversed, Deficit, StrayDeficit, Normal, Apart;
    CoverageAccounts(group, c.intervals);
    CoverageFallsShort(group, c.intervals);
    CoverageSizes(group, c);
  }

  lemma {:induction false} CoverageSizes(group: seq<Read>, c: Coverage)
    requires Eligible(group) && c.intervals != []
    requires FallsShort(group[0].bounds.value, Given(group), c.intervals)
    requires var init, box := group[0].bounds.value, BoundingBox(c.intervals);
             && c.initSize == init.hi - init.lo + 1 && c.covered == TotalLength(c.intervals, |c.intervals|)
             && c.extraLines == AtLeastZero(c.covered - c.initSize)
             && c.span == box.hi - box.lo + 1 && c.gapLines == c.span - c.covered
    ensures Sizes(group[0].bounds.value, Lines(Given(group)), StrayDeficit(Given(group), Lines(Given(group))),
                  BoundingBox(c.intervals), c)
  {
    hide Span, Lines, TotalLength, StrayDeficit, Shortfall, GapsOf, Given;
  }

  method ScanFollowups(followups: seq<Read>, init: Interval, positions0: multiset<Position>)
    returns (intervals: seq<Interval>, firstPosition: Option<Position>, positions: multiset<Position>)
    ensures intervals == [init] + Ranged(followups)
    ensures var landed := Positions(Ranged(followups), init);
            && positions == positions0 + multiset(landed)
            && firstPosition == if landed == [] then None else Some(landed[0])
  {
    intervals, firstPosition, positions := [init], None, positions0;
    ghost var landed := [];
    NoneRanged(followups, init);
    hide Positions, ClassifyFollowup, Ranged;
    for i := 0 to |followups|
      invariant intervals == [init] + Ranged(followups[..i])
      invariant landed == Positions(Ranged(followups[..i]), init)
      invariant positions == positions0 + multiset(landed)
      invariant firstPosition == if landed == [] then None else Some(landed[0])
    {
      RangedPush(followups, i);
      if HasRange(followups[i]) {
        var v := followups[i].bounds.value;
        var pos := ClassifyFollowup(v, init);
        PositionsPush(Ranged(followups[..i]), v, init);
        landed := landed + [pos];
        positions := positions + multiset{pos};
        if firstPosition.None? {
          firstPosition := Some(pos);
        }
        intervals := intervals + [v];
      }
    }
    assert followups[..|followups|] == followups;
  }

  lemma {:induction false} NoneRanged(group: seq<Read>, init: Interval)
    ensures Ranged(group[..0]) == [] && Positions([], init) == []
  {
  }

  lemma {:induction false} RangedPush(group: seq<Read>, n: nat)
    requires n < |group|
    ensures Ranged(group[..n + 1]) == Ranged(group[..n]) + if HasRange(group[n]) then [group[n].bounds.value] else []
  {
    assert group[..n + 1][..n] == group[..n];
  }

  lemma {:induction false} PositionsPush(ivs: seq<Interval>, v: Interval, init: Interval)
    ensures Positions(ivs + [v], init) == Positions(ivs, init) + [ClassifyFollowup(v, init)]
  {
  }

  predicate Has(order: seq<nat>, j: nat) {
    j in order
  }

  /** `ivs` are the bounds of the reads in `order`: of exactly the reads from `lo` on that have known bounds, in order. */
  ghost predicate Lists(group: seq<Read>, lo: nat, ivs: seq<Interval>, order: seq<nat>) {
    && |ivs| == |order|
    && (forall i :: 0 <= i < |order| ==>
          lo <= order[i] < |group| && HasRange(group[order[i]]) && ivs[i] == group[order[i]].bounds.value)
    && (forall i, k :: 0 <= i < k < |order| ==> order[i] < order[k])
    && (forall j: nat :: lo <= j < |group| && HasRange(group[j]) ==> Has(order, j))
  }

  lemma {:induction false} ListsNext(group: seq<Read>, ivs: seq<Interval>, order: seq<nat>)
    requires group != [] && Lists(group[..|group| - 1], 0, ivs, order)
    ensures var last := |group| - 1;
            if HasRange(group[last]) then Lists(group, 0, ivs + [group[last].bounds.value], order + [last])
            else Lists(group, 0, ivs, order)
  {
    var last, now := |group| - 1, order + [|group| - 1];
    var rest := group[..last];
    hide HasRange, Has;
    forall j: nat | j < |group| && HasRange(group[j]) ensures if HasRange(group[last]) then Has(now, j) else Has(order, j) {
      assert j < last ==> rest[j] == group[j];
      HasPush(order, last, j);
    }
    forall i | 0 <= i < |order| ensures order[i] < last && HasRange(group[order[i]]) && ivs[i] == group[order[i]].bounds.value {
      assert rest[order[i]] == group[order[i]];
    }
  }

  lemma {:induction false} HasPush(order: seq<nat>, x: nat, j: nat)
    ensures Has(order + [x], j) <==> Has(order, j) || j == x
  {
  }

  lemma {:induction false} RangedInOrder(group: seq<Read>) returns (order: seq<nat>)
    ensures Lists(group, 0, Ranged(group), order)
  {
    order := [];
    RangedUnfolds(group);
    if group == [] {
      NothingListed();
    } else {
      var last := |group| - 1;
      hide *;
      order := RangedInOrder(group[..last]);
      ListsNext(group, Ranged(group[..last]), order);
      order := if HasRange(group[last]) then order + [last] else order;
    }
  }

  lemma {:induction false} RangedUnfolds(group: seq<Read>)
    ensures if group == [] then Ranged(group) == [] else
              var last := |group| - 1;
              Ranged(group) == if HasRange(group[last]) then Ranged(group[..last]) + [group[last].bounds.value] else Ranged(group[..last])
  {
  }

  lemma {:induction false} NothingListed()
    ensures Lists([], 0, [], [])
  {
  }

  function Shifted(order: seq<nat>): (r: seq<nat>)
    ensures |r| == |order| && forall i :: 0 <= i < |order| ==> r[i] == order[i] + 1
  {
    seq(|order|, i requires 0 <= i < |order| => order[i] + 1)
  }

  lemma {:induction false} HasShifted(order: seq<nat>, j: nat)
    requires Has(order, j)
    ensures Has(Shifted(order), j + 1)
  {
    var i :| 0 <= i < |order| && order[i] == j;
    assert Shifted(order)[i] == j + 1;
  }

  lemma {:induction false} ListsBelow(group: seq<Read>, ivs: seq<Interval>, below: seq<nat>)
    requires group != [] && Lists(group[1..], 0, ivs, below)
    ensures Lists(group, 1, ivs, Shifted(below))
  {
    var rest, order := group[1..], Shifted(below);
    hide HasRange, Has, Shifted;
    forall i | 0 <= i < |order| ensures 1 <= order[i] < |group| && HasRange(group[order[i]]) && ivs[i] == group[order[i]].bounds.value {
      assert rest[below[i]] == group[order[i]];
    }
    forall i, k | 0 <= i < k < |order| ensures order[i] < order[k] {
      assert below[i] < below[k];
    }
    forall j: nat | 1 <= j < |group| && HasRange(group[j]) ensures Has(order, j) {
      assert rest[j - 1] == group[j];
      HasShifted(below, j - 1);
    }
  }

  lemma {:induction false} RangesAre(group: seq<Read>)
    ensures forall j :: 0 <= j < |group| ==>
              (HasRange(group[j]) <==> (group[j].kind == Range || group[j].kind == Default) && group[j].bounds.Some?)
  {
  }

  lemma {:induction false} LandedPointwise(group: seq<Read>)
    requires Eligible(group)
    ensures |Landed(group)| == |Ranged(group[1..])|
    ensures forall i :: 0 <= i < |Landed(group)| ==> Landed(group)[i] == ClassifyFollowup(Ranged(group[1..])[i], group[0].bounds.value)
  {
  }

  /** Each follow-up with known bounds landed once, in order: `order` has exactly these. */
  lemma {:induction false} LandedInOrder(group: seq<Read>) returns (order: seq<nat>)
    requires Eligible(group)
    ensures |Landed(group)| == |order|
    ensures forall i :: 0 <= i < |order| ==>
              && 0 < order[i] < |group| && HasRange(group[order[i]])
              && Landed(group)[i] == ClassifyFollowup(group[order[i]].bounds.value, group[0].bounds.value)
    ensures forall i, k :: 0 <= i < k < |order| ==> order[i] < order[k]
    ensures forall j: nat :: 0 < j < |group| && (group[j].kind == Range || group[j].kind == Default) && group[j].bounds.Some? ==> j in order
  {
    RangesAre(group);
    LandedPointwise(group);
    hide Landed, Ranged, Shifted, ClassifyFollowup, HasRange;
    var below := RangedInOrder(group[1..]);
    ListsBelow(group, Ranged(group[1..]), below);
    order := Shifted(below);
  }

  /** The read at `j` is a follow-up with known bounds, and `x` is one of its lines. */
  predicate LineAt(group: seq<Read>, j: nat, x: int) {
    0 < j < |group| && (group[j].kind == Range || group[j].kind == Default) && group[j].bounds.Some?
    && group[j].bounds.value.lo <= x <= group[j].bounds.value.hi
  }

  lemma {:induction false} ListedLine(group: seq<Read>, ivs: seq<Interval>, order: seq<nat>, x: int)
    requires Lists(group, 1, ivs, order)
    ensures x in Lines(ivs) <==> exists j: nat :: LineAt(group, j, x)
  {
    RangesAre(group);
    hide Lines, HasRange, Has;
    if x in Lines(ivs) {
      var i := LineOfOne(ivs, x);
      assert LineAt(group, order[i], x);
    }
    if j: nat :| LineAt(group, j, x) {
      var i := IndexIn(order, j);
      LineHeld(ivs, i, x);
    }
  }

  lemma {:induction false} IndexIn(order: seq<nat>, j: nat) returns (i: nat)
    requires Has(order, j)
    ensures i < |order| && order[i] == j
  {
    i :| 0 <= i < |order| && order[i] == j;
  }

  /** The lines that count are those of the first read and of the follow-ups with known bounds. */
  lemma {:induction false} GivenMeans(group: seq<Read>, x: int)
    requires Eligible(group)
    ensures x in Lines(Given(group)) <==> x in Span(group[0].bounds.value) || exists j: nat :: LineAt(group, j, x)
  {
    GivenLines(group);
    hide *;
    var below := RangedInOrder(group[1..]);
    ListsBelow(group, Ranged(group[1..]), below);
    ListedLine(group, Ranged(group[1..]), Shifted(below), x);
  }

  lemma {:induction false} LineOfOne(ivs: seq<Interval>, x: int) returns (i: nat)
    requires x in Lines(ivs)
    ensures i < |ivs| && x in Span(ivs[i])
  {
    i := WhichInterval(ivs, |ivs|, x);
  }

  lemma {:induction false} LineHeld(ivs: seq<Interval>, i: nat, x: int)
    requires i < |ivs| && x in Span(ivs[i])
    ensures x in Lines(ivs)
  {
    LinesHave(ivs, |ivs|, i, x);
  }

  method CountKinds(group: seq<Read>) returns (ranges: nat, raws: nat)
    ensures var kinds := multiset(Kinds(group)); ranges == kinds[Range] + kinds[Default] && raws == kinds[Raw]
  {
    ranges, raws := 0, 0;
    for i := 0 to |group|
      invariant var kinds := multiset(Kinds(group[..i])); ranges == kinds[Range] + kinds[Default] && raws == kinds[Raw]
    {
      assert Kinds(group[..i + 1]) == Kinds(group[..i]) + [group[i].kind];
      if group[i].kind.Range? || group[i].kind.Default? {
        ranges := ranges + 1;
      }
      if group[i].kind.Raw? {
        raws := raws + 1;
      }
    }
    assert group[..|group|] == group;
  }

  method CoveredLines(merged: seq<Interval>) returns (covered: int)
    ensures covered == TotalLength(merged, |merged|)
  {
    covered := 0;
    for i := 0 to |merged|
      invariant covered == TotalLength(merged, i)
    {
      covered := covered + (merged[i].hi - merged[i].lo + 1);
    }
  }

  /** The sums over the merged list are sizes of sets of lines. */
  lemma {:induction false} CoverageAccounts(group: seq<Read>, merged: seq<Interval>)
    requires Eligible(group) && Apart(merged) && merged != [] && Lines(merged) == Lines(Given(group))
    requires NonEmpty(Given(group)) ==> Normal(merged)
    requires HasReversed(merged) <==> HasStray(Given(group))
    ensures var init, given, covered := group[0].bounds.value, Given(group), TotalLength(merged, |merged|);
            var lines, box := Lines(given), BoundingBox(merged);
            && covered <= |lines| && (covered == |lines| <==> !HasStray(given))
            && (NonEmpty(given) ==>
              && Bounds(box, lines) && init.hi - init.lo + 1 == |Span(init)| <= covered
              && |merged| == |Starts(lines)| && covered - |Span(init)| == |lines - Span(init)|
              && box.hi - box.lo + 1 == |Span(box)| && box.hi - box.lo + 1 - covered == |GapsOf(box, lines)|)
  {
    LengthIsSize(merged, |merged|);
    var init, given := group[0].bounds.value, Given(group);
    if NonEmpty(given) {
      RegionsTo(merged, |merged|);
      InsideBox(merged);
      SpanSize(BoundingBox(merged));
      assert given[0] == init;
      SpanSize(init);
      LinesOfFirst(given);
      var lines := Lines(given);
      assert (lines - Span(init)) + Span(init) == lines;
    }
  }

  /** Counting by bounds instead of lines. */
  ghost predicate FallsShort(init: Interval, given: seq<Interval>, merged: seq<Interval>)
    requires merged != []
  {
    var lines, box, covered := Lines(given), BoundingBox(merged), TotalLength(merged, |merged|);
    var strays := StrayDeficit(given, lines);
    && init.hi - init.lo + 1 == |Span(init)| - Shortfall(init)
    && covered == |lines| - strays
    && covered - (init.hi - init.lo + 1) == |lines - Span(init)| + Shortfall(init) - strays
    && box.hi - box.lo + 1 == |Span(box)| - Shortfall(box)
    && box.hi - box.lo + 1 - covered == |GapsOf(box, lines)| - |lines - Span(box)| - Shortfall(box) + strays
  }

  /** ... for any bounds, reversed or not. */
  lemma {:induction false} CoverageFallsShort(group: seq<Read>, merged: seq<Interval>)
    requires Eligible(group) && Apart(merged) && merged != [] && Lines(merged) == Lines(Given(group))
    requires Deficit(merged, |merged|) == StrayDeficit(Given(group), Lines(Given(group)))
    ensures FallsShort(group[0].bounds.value, Given(group), merged)
  {
    LengthIsSize(merged, |merged|);
    var init, given := group[0].bounds.value, Given(group);
    var lines, box := Lines(given), BoundingBox(merged);
    SpanLength(init);
    SpanLength(box);
    LinesOfFirst(given);
    assert given[0] == init;
    assert (lines - Span(init)) + Span(init) == lines;
    SymmetricSizes(Span(box), lines);
  }

  lemma {:induction false} SymmetricSizes(a: set<int>, b: set<int>)
    ensures |a| - |a - b| == |b| - |b - a|
  {
    assert a == (a - b) + a * b && b == (b - a) + a * b;
  }

  lemma {:induction false} LinesOfFirst(ivs: seq<Interval>)
    requires ivs != []
    ensures Span(ivs[0]) <= Lines(ivs)
  {
    forall x | x in Span(ivs[0]) ensures x in Lines(ivs) {
      LinesHave(ivs, |ivs|, 0, x);
    }
  }

  // ---------------------------------------------------------------- what the numbers of a group tell

  /** Coverage depends on the lines read, not on how many reads returned them or in which order. */
  lemma {:induction false} CoverageIsUnique(group: seq<Read>, c: Coverage, others: seq<Read>, d: Coverage)
    requires Eligible(group) && Accounts(group, c) && NonEmpty(Given(group))
    requires Eligible(others) && Accounts(others, d) && NonEmpty(Given(others))
    requires group[0].bounds == others[0].bounds && Lines(Given(group)) == Lines(Given(others))
    ensures c.intervals == d.intervals && c.covered == d.covered && c.extraLines == d.extraLines
    ensures c.regions == d.regions && c.span == d.span && c.gapLines == d.gapLines
  {
    NormalIsUnique(c.intervals, d.intervals);
    NoStray(Given(group));
    NoStray(Given(others));
  }

  lemma {:induction false} NoStray(ivs: seq<Interval>)
    requires NonEmpty(ivs)
    ensures !HasStray(ivs)
  {
  }

  lemma {:induction false} GivenLines(group: seq<Read>)
    requires Eligible(group)
    ensures var init, ranged := group[0].bounds.value, Ranged(group[1..]);
            && Lines(Given(group)) == Span(init) + Lines(ranged)
            && (NonEmpty(Given(group)) ==> init.lo <= init.hi && NonEmpty(ranged))
  {
    var init, ranged := group[0].bounds.value, Ranged(group[1..]);
    LinesOfOne(init);
    LinesJoin([init], ranged, |ranged|);
    assert Given(group)[0] == init && forall i :: 0 <= i < |ranged| ==> Given(group)[i + 1] == ranged[i];
  }

  /** Intervals add nothing to `v` exactly when each lies inside it. */
  lemma {:induction false} NothingAdded(ivs: seq<Interval>, v: Interval)
    requires NonEmpty(ivs) && v.lo <= v.hi
    ensures Lines(ivs) <= Span(v) <==> forall i :: 0 <= i < |ivs| ==> ClassifyFollowup(ivs[i], v).Inside?
  {
    hide ClassifyFollowup;
    forall i: nat | i < |ivs| ensures ClassifyFollowup(ivs[i], v).Inside? <==> Span(ivs[i]) <= Span(v) {
      PositionMeans(ivs[i], v);
    }
    if Lines(ivs) <= Span(v) {
      forall i: nat | i < |ivs| ensures Span(ivs[i]) <= Span(v) {
        forall x | x in Span(ivs[i]) ensures x in Lines(ivs) {
          LinesHave(ivs, |ivs|, i, x);
        }
      }
    } else {
      var x :| x in Lines(ivs) && x !in Span(v);
      var i := WhichInterval(ivs, |ivs|, x);
    }
  }

  /** Follow-ups brought no new line exactly when each landed inside the first read. */
  lemma {:induction false} NoExtraExactlyInside(group: seq<Read>, c: Coverage)
    requires Eligible(group) && Accounts(group, c) && NonEmpty(Given(group))
    ensures c.extraLines == 0 <==> forall i :: 0 <= i < |Landed(group)| ==> Landed(group)[i].Inside?
  {
    var init, ranged, lines := group[0].bounds.value, Ranged(group[1..]), Lines(Given(group));
    assert c.extraLines == |lines - Span(init)|;
    GivenLines(group);
    hide Accounts, Normal, ClassifyFollowup, Lines, NonEmpty, Given, Ranged;
    NothingAdded(ranged, init);
    assert forall i :: 0 <= i < |ranged| ==> Landed(group)[i] == ClassifyFollowup(ranged[i], init);
    assert c.extraLines == 0 <==> lines - Span(init) == {};
    assert lines - Span(init) == {} <==> Lines(ranged) <= Span(init);
  }

  /** Without a follow-up that landed in a gap, what was read is one region, and nothing in it is missing. */
  lemma {:induction false} NoGapOneRegion(group: seq<Read>, c: Coverage)
    requires Eligible(group) && Accounts(group, c) && NonEmpty(Given(group))
    requires forall i :: 0 <= i < |Landed(group)| ==> !Gap(Landed(group)[i])
    ensures c.regions == 1 && c.gapLines == 0
  {
    var init, ranged := group[0].bounds.value, Ranged(group[1..]);
    forall i | 0 <= i < |ranged| ensures !Gap(ClassifyFollowup(ranged[i], init)) {
      assert !Gap(Landed(group)[i]);
    }
    GivenLines(group);
    var box := OneBlock(ranged, init, |ranged|);
    OneRegion(c.intervals, box);
  }

  /** Intervals that all touch `init` make one interval with it. */
  lemma {:induction false} OneBlock(ivs: seq<Interval>, init: Interval, n: nat) returns (box: Interval)
    requires n <= |ivs| && init.lo <= init.hi && NonEmpty(ivs)
    requires forall i :: 0 <= i < |ivs| ==> !Gap(ClassifyFollowup(ivs[i], init))
    ensures box.lo <= init.lo && init.hi <= box.hi && Span(init) + LinesTo(ivs, n) == Span(box)
  {
    if n == 0 {
      box := init;
    } else {
      var v := ivs[n - 1];
      var rest := OneBlock(ivs, init, n - 1);
      assert !Gap(ClassifyFollowup(v, init));
      box := Interval(if v.lo < rest.lo then v.lo else rest.lo, if v.hi > rest.hi then v.hi else rest.hi);
      assert Span(box) == Span(rest) + Span(v);
    }
  }

  lemma {:induction false} OneRegion(ivs: seq<Interval>, box: Interval)
    requires Normal(ivs) && box.lo <= box.hi && Lines(ivs) == Span(box)
    ensures |ivs| == 1 && GapsOf(BoundingBox(ivs), Lines(ivs)) == {}
  {
    LinesOfOne(box);
    NormalIsUnique(ivs, [box]);
    assert BoundingBox([box]) == box;
  }

  /** A group that reads `:1-3` and then `:10-5` covers three lines, but is said to cover minus one. */
  lemma {:induction false} ReversedRangeMiscounts(c: Coverage)
    requires var group := [Read(Range, Some(Interval(1, 3))), Read(Range, Some(Interval(10, 5)))];
             Eligible(group) && Accounts(group, c)
    ensures c.covered == -1 && c.extraLines == 0 && Lines(c.intervals) == {1, 2, 3}
  {
    var first, second := Interval(1, 3), Interval(10, 5);
    GivenTwo(first, second);
    LinesOfTwo(first, second);
    ThreeLines(first, second);
    hide Given, Span, GapsOf, HasStray, StrayDeficit, Lines, Normal, Apart, Starts, Bounds;
  }

  lemma {:induction false} ThreeLines(first: Interval, second: Interval)
    requires first == Interval(1, 3) && second == Interval(10, 5)
    ensures Span(first) == {1, 2, 3} && Span(first) + Span(second) == Span(first) && |Span(first)| == 3
    ensures StrayDeficit([first, second], Span(first)) == 4 && |Span(first) - Span(first)| == 0
  {
    var lines := Span(first);
    assert [first, second][1..] == [second] && StrayDeficit([second], lines) == 4;
  }

  lemma {:induction false} GivenTwo(first: Interval, second: Interval)
    ensures var group := [Read(Range, Some(first)), Read(Range, Some(second))];
            Eligible(group) && Given(group) == [first] + [second] == [first, second]
  {
    var group := [Read(Range, Some(first)), Read(Range, Some(second))];
    assert group[1..] == [group[1]] && Ranged([group[1]]) == [second] by {
      assert [group[1]][..0] == [];
    }
  }
}
