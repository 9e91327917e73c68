/** Line intervals as lists: merging, membership, subtraction and chunking (scripts/session-stats/optimize_read_config.py). */
module Intervals {
  /** Lines `lo` to `hi`, both included. */
  datatype Interval = Interval(lo: int, hi: int)

  predicate Has(v: Interval, x: int) {
    v.lo <= x <= v.hi
  }

  function Span(v: Interval): set<int> {
    set x | v.lo <= x <= v.hi && Has(v, x)
  }

  /** The lines of the first `n` intervals. */
  function LinesTo(ivs: seq<Interval>, n: nat): set<int>
    requires n <= |ivs|
  {
    if n == 0 then {} else LinesTo(ivs, n - 1) + Span(ivs[n - 1])
  }

  function Lines(ivs: seq<Interval>): set<int> {
    LinesTo(ivs, |ivs|)
  }

  predicate NonEmpty(ivs: seq<Interval>) {
    forall i :: 0 <= i < |ivs| ==> ivs[i].lo <= ivs[i].hi
  }

  /** Ascending intervals with at least one line between any two. */
  predicate Normal(ivs: seq<Interval>) {
    NonEmpty(ivs) && forall i, j :: 0 <= i < j < |ivs| ==> ivs[i].hi + 1 < ivs[j].lo
  }

  /** What `Normal` says of the order, for intervals that may be empty. */
  predicate Apart(ivs: seq<Interval>) {
    forall i, j :: 0 <= i < j < |ivs| ==> ivs[i].hi + 1 < ivs[j].lo && ivs[i].lo <= ivs[j].lo
  }

  /** Ends before the line in front of its start. Such a pair of bounds counts as a negative number of lines. */
  predicate Reversed(v: Interval) {
    v.hi + 1 < v.lo
  }

  predicate HasReversed(ivs: seq<Interval>) {
    exists i :: 0 <= i < |ivs| && Reversed(ivs[i])
  }

  /** Some reversed interval does not start right after a line of the list. */
  predicate HasStray(ivs: seq<Interval>) {
    exists i :: 0 <= i < |ivs| && Reversed(ivs[i]) && ivs[i].lo - 1 !in Lines(ivs)
  }

  /** How many lines too few the bounds of an interval count: none unless they are reversed. */
  function Shortfall(v: Interval): nat {
    if Reversed(v) then v.lo - v.hi - 1 else 0
  }

  /** ... of the first `n` intervals together. */
  function Deficit(ivs: seq<Interval>, n: nat): nat
    requires n <= |ivs|
  {
    if n == 0 then 0 else Deficit(ivs, n - 1) + Shortfall(ivs[n - 1])
  }

  /** The shortfall of an interval that does not start right after one of `lines`. */
  function StrayShortfall(v: Interval, lines: set<int>): nat {
    if v.lo - 1 in lines then 0 else Shortfall(v)
  }

  /** ... of all intervals together. */
  function StrayDeficit(ivs: seq<Interval>, lines: set<int>): nat {
    if ivs == [] then 0 else StrayShortfall(ivs[0], lines) + StrayDeficit(ivs[1..], lines)
  }

  lemma {:induction false} DeficitIsReversed(ivs: seq<Interval>, n: nat)
    requires n <= |ivs|
    ensures Deficit(ivs, n) == 0 <==> forall i :: 0 <= i < n ==> !Reversed(ivs[i])
  {
    if n > 0 {
      DeficitIsReversed(ivs, n - 1);
      NoneReversed(ivs, n);
    }
  }

  lemma {:induction false} NoneReversed(ivs: seq<Interval>, n: nat)
    requires 0 < n <= |ivs|
    ensures (forall i :: 0 <= i < n ==> !Reversed(ivs[i])) <==>
            !Reversed(ivs[n - 1]) && forall i :: 0 <= i < n - 1 ==> !Reversed(ivs[i])
  {
    if !Reversed(ivs[n - 1]) && forall i :: 0 <= i < n - 1 ==> !Reversed(ivs[i]) {
      forall i | 0 <= i < n ensures !Reversed(ivs[i]) {
      }
    }
  }

  lemma {:induction false} NoStrayShortfall(ivs: seq<Interval>, lines: set<int>)
    ensures StrayDeficit(ivs, lines) == 0 <==> forall i :: 0 <= i < |ivs| && Reversed(ivs[i]) ==> ivs[i].lo - 1 in lines
  {
    if ivs != [] {
      var rest := ivs[1..];
      NoStrayShortfall(rest, lines);
      assert forall i :: 0 <= i < |rest| ==> rest[i] == ivs[i + 1];
      if StrayDeficit(ivs, lines) == 0 {
        forall i | 0 <= i < |ivs| && Reversed(ivs[i]) ensures ivs[i].lo - 1 in lines {
          assert i > 0 ==> ivs[i] == rest[i - 1];
        }
      }
    }
  }

  // ---------------------------------------------------------------- lines of a list

  lemma {:induction false} WhichInterval(ivs: seq<Interval>, n: nat, x: int) returns (i: nat)
    requires n <= |ivs| && x in LinesTo(ivs, n)
    ensures i < n && Has(ivs[i], x)
  {
    if Has(ivs[n - 1], x) {
      i := n - 1;
    } else {
      i := WhichInterval(ivs, n - 1, x);
    }
  }

  lemma {:induction false} LinesHave(ivs: seq<Interval>, n: nat, i: nat, x: int)
    requires i < n <= |ivs| && Has(ivs[i], x)
    ensures x in LinesTo(ivs, n)
  {
    if i < n - 1 {
      LinesHave(ivs, n - 1, i, x);
    }
  }

  lemma {:induction false} SamePrefix(a: seq<Interval>, b: seq<Interval>, n: nat)
    requires n <= |a| && n <= |b| && forall i :: 0 <= i < n ==> a[i] == b[i]
    ensures LinesTo(a, n) == LinesTo(b, n)
  {
    if n > 0 {
      SamePrefix(a, b, n - 1);
    }
  }

  lemma {:induction false} LinesPush(ivs: seq<Interval>, v: Interval)
    ensures Lines(ivs + [v]) == Lines(ivs) + Span(v)
  {
    SamePrefix(ivs, ivs + [v], |ivs|);
  }

  lemma {:induction false} LinesOfOne(v: Interval)
    ensures Lines([v]) == Span(v)
  {
    LinesPush([], v);
    assert [] + [v] == [v];
  }

  lemma {:induction false} UnionAssociates(a: set<int>, b: set<int>, c: set<int>)
    ensures (a + b) + c == a + (b + c)
  {
  }

  lemma {:induction false} LinesGrow(ivs: seq<Interval>, n: nat, m: nat)
    requires n <= m <= |ivs|
    ensures LinesTo(ivs, n) <= LinesTo(ivs, m)
  {
    if n < m {
      LinesGrow(ivs, n, m - 1);
    }
  }

  // ---------------------------------------------------------------- the normal form is unique

  /** The last interval of a normal form ends at its greatest line and starts after a missing one. */
  lemma {:induction false} LastOfNormal(a: seq<Interval>, n: nat)
    requires Normal(a) && 0 < n <= |a|
    ensures a[n - 1].hi in LinesTo(a, n) && a[n - 1].lo - 1 !in LinesTo(a, n)
    ensures forall x :: x in LinesTo(a, n) ==> x <= a[n - 1].hi
    ensures LinesTo(a, n - 1) == LinesTo(a, n) - Span(a[n - 1])
  {
    forall x | x in LinesTo(a, n) ensures x <= a[n - 1].hi && x != a[n - 1].lo - 1 {
      var i := WhichInterval(a, n, x);
    }
    var before, last := LinesTo(a, n - 1), Span(a[n - 1]);
    forall x | x in before ensures x !in last {
      var i := WhichInterval(a, n - 1, x);
    }
  }

  lemma {:induction false} SameLast(a: seq<Interval>, n: nat, b: seq<Interval>, m: nat)
    requires Normal(a) && Normal(b) && 0 < n <= |a| && 0 < m <= |b| && LinesTo(a, n) == LinesTo(b, m)
    ensures a[n - 1] == b[m - 1]
  {
    LastOfNormal(a, n);
    LastOfNormal(b, m);
    var v, w := a[n - 1], b[m - 1];
    assert Span(v) <= LinesTo(a, n) && Span(w) <= LinesTo(b, m);
    assert w.lo - 1 !in Span(v) && v.lo - 1 !in Span(w);
    assert !Has(v, w.lo - 1) && !Has(w, v.lo - 1);
  }

  lemma {:induction false} NoLines(a: seq<Interval>, n: nat)
    requires Normal(a) && n <= |a| && LinesTo(a, n) == {}
    ensures n == 0
  {
    if n > 0 {
      LastOfNormal(a, n);
    }
  }

  lemma {:induction false} SameButLast(a: seq<Interval>, n: nat, b: seq<Interval>, m: nat)
    requires Normal(a) && Normal(b) && 0 < n <= |a| && 0 < m <= |b| && LinesTo(a, n) == LinesTo(b, m)
    requires a[n - 1] == b[m - 1]
    ensures LinesTo(a, n - 1) == LinesTo(b, m - 1)
  {
    LastOfNormal(a, n);
    LastOfNormal(b, m);
  }

  /** Both lists hold the same lines in their first `n` and `m` intervals. */
  ghost predicate Alike(a: seq<Interval>, n: nat, b: seq<Interval>, m: nat) {
    n <= |a| && m <= |b| && LinesTo(a, n) == LinesTo(b, m)
  }

  lemma {:induction false} AlikeStep(a: seq<Interval>, n: nat, b: seq<Interval>, m: nat)
    requires Normal(a) && Normal(b) && Alike(a, n, b, m)
    ensures n == 0 <==> m == 0
    ensures n > 0 && m > 0 ==> a[n - 1] == b[m - 1] && Alike(a, n - 1, b, m - 1)
  {
    if n == 0 {
      NoLines(b, m);
    } else if m == 0 {
      NoLines(a, n);
    } else {
      SameLast(a, n, b, m);
      SameButLast(a, n, b, m);
    }
  }

  lemma {:induction false} SameAt(a: seq<Interval>, n: nat, b: seq<Interval>, m: nat, i: nat)
    requires Normal(a) && Normal(b) && Alike(a, n, b, m)
    ensures n == m && (i < n ==> a[i] == b[i])
  {
    AlikeStep(a, n, b, m);
    if n > 0 {
      SameAt(a, n - 1, b, m - 1, i);
    }
  }

  /** A set of lines has one normal form: what `merge` returns depends on nothing but the lines it is given. */
  lemma {:induction false} NormalIsUnique(a: seq<Interval>, b: seq<Interval>)
    requires Normal(a) && Normal(b) && Lines(a) == Lines(b)
    ensures a == b
  {
    SameAt(a, |a|, b, |b|, 0);
    forall i: nat | i < |a| ensures a[i] == b[i] {
      SameAt(a, |a|, b, |b|, i);
    }
  }

  // ---------------------------------------------------------------- merge

  predicate Before(v: Interval, w: Interval) {
    v.lo < w.lo || (v.lo == w.lo && v.hi <= w.hi)
  }

  function Insert(v: Interval, ivs: seq<Interval>): seq<Interval> {
    if ivs == [] || Before(v, ivs[0]) then [v] + ivs else [ivs[0]] + Insert(v, ivs[1..])
  }

  /** `sorted`: by first line, then by last. */
  function Sorted(ivs: seq<Interval>): seq<Interval> {
    if ivs == [] then [] else Insert(ivs[0], Sorted(ivs[1..]))
  }

  predicate Ascending(ivs: seq<Interval>) {
    |ivs| < 2 || (Before(ivs[0], ivs[1]) && Ascending(ivs[1..]))
  }

  lemma {:induction false} AscendingAt(ivs: seq<Interval>, k: nat)
    requires Ascending(ivs) && k + 1 < |ivs|
    ensures Before(ivs[k], ivs[k + 1])
  {
    if k > 0 {
      AscendingAt(ivs[1..], k - 1);
    }
  }

  lemma {:induction false} AscendingLo(ivs: seq<Interval>, j: nat, k: nat)
    requires Ascending(ivs) && j <= k < |ivs|
    ensures ivs[j].lo <= ivs[k].lo
  {
    if j < k {
      AscendingLo(ivs, j, k - 1);
      AscendingAt(ivs, k - 1);
    }
  }

  lemma {:induction false} InsertAscends(v: Interval, ivs: seq<Interval>)
    requires Ascending(ivs)
    ensures Ascending(Insert(v, ivs))
  {
    if ivs != [] && !Before(v, ivs[0]) {
      InsertAscends(v, ivs[1..]);
      assert Insert(v, ivs)[1..] == Insert(v, ivs[1..]);
    } else {
      assert Insert(v, ivs)[1..] == ivs;
    }
  }

  lemma {:induction false} InsertAdds(v: Interval, ivs: seq<Interval>)
    ensures multiset(Insert(v, ivs)) == multiset(ivs) + multiset{v}
  {
    if ivs != [] && !Before(v, ivs[0]) {
      InsertAdds(v, ivs[1..]);
      assert ivs == [ivs[0]] + ivs[1..];
    }
  }

  lemma {:induction false} SortedKeeps(ivs: seq<Interval>)
    ensures Ascending(Sorted(ivs)) && multiset(Sorted(ivs)) == multiset(ivs)
  {
    if ivs != [] {
      SortedKeeps(ivs[1..]);
      InsertAscends(ivs[0], Sorted(ivs[1..]));
      InsertAdds(ivs[0], Sorted(ivs[1..]));
      assert ivs == [ivs[0]] + ivs[1..];
    }
  }

  lemma {:induction false} NonEmptyOfMultiset(a: seq<Interval>, b: seq<Interval>)
    requires NonEmpty(a) && multiset(a) == multiset(b)
    ensures NonEmpty(b) && |a| == |b|
  {
    assert |multiset(a)| == |a| && |multiset(b)| == |b|;
    forall i | 0 <= i < |b| ensures b[i].lo <= b[i].hi {
      assert b[i] in multiset(b);
      assert b[i] in a;
    }
  }

  lemma {:induction false} LinesOfMultiset(a: seq<Interval>, b: seq<Interval>)
    requires multiset(a) == multiset(b)
    ensures Lines(a) == Lines(b)
  {
    LinesWithin(a, b, |a|);
    LinesWithin(b, a, |b|);
  }

  lemma {:induction false} LinesWithin(a: seq<Interval>, b: seq<Interval>, n: nat)
    requires multiset(a) == multiset(b) && n <= |a|
    ensures LinesTo(a, n) <= Lines(b)
  {
    if n > 0 {
      LinesWithin(a, b, n - 1);
      assert a[n - 1] in multiset(b);
      var j :| 0 <= j < |b| && b[j] == a[n - 1];
      forall x | x in Span(a[n - 1]) ensures x in Lines(b) {
        LinesHave(b, |b|, j, x);
      }
    }
  }

  /** What the first `k` intervals fall short of, each judged by the lines of those before it. */
  function StrayDeficitTo(ivs: seq<Interval>, k: nat): nat
    requires k <= |ivs|
  {
    if k == 0 then 0 else StrayDeficitTo(ivs, k - 1) + StrayShortfall(ivs[k - 1], LinesTo(ivs, k - 1))
  }

  /** No later interval can reach the line in front of an earlier one. */
  lemma {:induction false} LaterStartLater(ivs: seq<Interval>, j: nat)
    requires Ascending(ivs) && j < |ivs|
    ensures ivs[j].lo - 1 in Lines(ivs) <==> ivs[j].lo - 1 in LinesTo(ivs, j)
  {
    var x := ivs[j].lo - 1;
    LinesGrow(ivs, j, |ivs|);
    if x in Lines(ivs) {
      var i := WhichInterval(ivs, |ivs|, x);
      if i < j {
        LinesHave(ivs, j, i, x);
      } else {
        AscendingLo(ivs, j, i);
      }
    }
  }

  /** In ascending order, the lines before an interval tell as much as all of them. */
  lemma {:induction false} StrayByPrefix(ivs: seq<Interval>, k: nat)
    requires Ascending(ivs) && k <= |ivs|
    ensures StrayDeficitTo(ivs, k) + StrayDeficit(ivs[k..], Lines(ivs)) == StrayDeficit(ivs, Lines(ivs))
  {
    if k > 0 {
      StrayByPrefix(ivs, k - 1);
      LaterStartLater(ivs, k - 1);
      assert ivs[k - 1..][1..] == ivs[k..];
    } else {
      assert ivs[0..] == ivs;
    }
  }

  lemma {:induction false} StrayInserted(v: Interval, ivs: seq<Interval>, lines: set<int>)
    ensures StrayDeficit(Insert(v, ivs), lines) == StrayShortfall(v, lines) + StrayDeficit(ivs, lines)
  {
    if ivs != [] && !Before(v, ivs[0]) {
      StrayInserted(v, ivs[1..], lines);
      assert Insert(v, ivs)[1..] == Insert(v, ivs[1..]);
    } else {
      assert Insert(v, ivs)[1..] == ivs;
    }
  }

  lemma {:induction false} StraySorted(ivs: seq<Interval>, lines: set<int>)
    ensures StrayDeficit(Sorted(ivs), lines) == StrayDeficit(ivs, lines)
  {
    if ivs != [] {
      StraySorted(ivs[1..], lines);
      StrayInserted(ivs[0], Sorted(ivs[1..]), lines);
    }
  }

  /**
   The lines of a list of intervals, merged where they touch: the normal form if no interval is empty. A reversed
   one is left over exactly when nothing it could be merged into reaches up to it, and falls short as much as before.
   */
  method Merge(given: seq<Interval>) returns (out: seq<Interval>)
    ensures Lines(out) == Lines(given) && Apart(out) && (out == [] <==> given == [])
    ensures NonEmpty(given) ==> Normal(out)
    ensures HasReversed(out) <==> HasStray(given)
    ensures Deficit(out, |out|) == StrayDeficit(given, Lines(given))
  {
    if given == [] {
      return [];
    }
    var ivs := Sorted(given);
    SortedKeeps(given);
    assert |multiset(ivs)| == |multiset(given)|;
    out := [ivs[0]];
    MergedFirst(ivs);
    for k := 1 to |ivs|
      invariant Merged(out, ivs, k)
    {
      MergedNext(out, ivs, k);
      out := Absorb(out, ivs[k]);
    }
    MergedAll(given, ivs, out);
  }

  /** `out` is what merging the first `k` intervals gives. */
  ghost predicate Merged(out: seq<Interval>, ivs: seq<Interval>, k: nat) {
    && 0 < k <= |ivs| && |out| > 0 && Apart(out) && Lines(out) == LinesTo(ivs, k)
    && (NonEmpty(ivs) ==> NonEmpty(out))
    && Deficit(out, |out|) == StrayDeficitTo(ivs, k)
    && Before(out[|out| - 1], ivs[k - 1])
  }

  lemma {:induction false} MergedFirst(ivs: seq<Interval>)
    requires ivs != []
    ensures Merged([ivs[0]], ivs, 1)
  {
    LinesOfOne(ivs[0]);
    assert LinesTo(ivs, 0) == {};
    assert LinesTo(ivs, 1) == LinesTo(ivs, 0) + Span(ivs[0]);
    assert Deficit([ivs[0]], 1) == Deficit([ivs[0]], 0) + Shortfall(ivs[0]);
    assert StrayDeficitTo(ivs, 1) == StrayDeficitTo(ivs, 0) + StrayShortfall(ivs[0], LinesTo(ivs, 0));
  }

  lemma {:induction false} MergedNext(out: seq<Interval>, ivs: seq<Interval>, k: nat)
    requires Ascending(ivs) && k < |ivs| && Merged(out, ivs, k)
    ensures Merged(Absorb(out, ivs[k]), ivs, k + 1)
  {
    hide Deficit, StrayShortfall, Apart, Absorb, Lines;
    AscendingAt(ivs, k - 1);
    AbsorbKeeps(out, ivs[k]);
  }

  lemma {:induction false} MergedAll(given: seq<Interval>, ivs: seq<Interval>, out: seq<Interval>)
    requires Ascending(ivs) && ivs == Sorted(given) && multiset(given) == multiset(ivs) && Merged(out, ivs, |ivs|)
    ensures Lines(out) == Lines(given) && Apart(out) && (NonEmpty(given) ==> Normal(out))
    ensures Deficit(out, |out|) == StrayDeficit(given, Lines(given)) && (HasReversed(out) <==> HasStray(given))
  {
    hide Deficit, StrayDeficit, StrayDeficitTo, Reversed;
    LinesOfMultiset(ivs, given);
    StrayByPrefix(ivs, |ivs|);
    assert ivs[|ivs|..] == [];
    NoStrayShortfall([], Lines(ivs));
    StraySorted(given, Lines(given));
    DeficitIsReversed(out, |out|);
    NoStrayShortfall(given, Lines(given));
    if NonEmpty(given) {
      NonEmptyOfMultiset(given, ivs);
    }
  }

  /** Extend the last interval, or start another. */
  function Absorb(out: seq<Interval>, v: Interval): seq<Interval>
    requires |out| > 0
  {
    var last := out[|out| - 1];
    if v.lo <= last.hi + 1 then out[|out| - 1 := Interval(last.lo, if last.hi >= v.hi then last.hi else v.hi)]
    else out + [v]
  }

  lemma {:induction false} AbsorbKeeps(out: seq<Interval>, v: Interval)
    requires |out| > 0 && Apart(out) && Before(out[|out| - 1], v)
    ensures var r := Absorb(out, v);
            && |r| > 0 && Apart(r) && Before(r[|r| - 1], v) && Lines(r) == Lines(out) + Span(v)
            && (NonEmpty(out) && v.lo <= v.hi ==> NonEmpty(r))
            && Deficit(r, |r|) == Deficit(out, |out|) + StrayShortfall(v, Lines(out))
  {
    AbsorbLines(out, v);
    AbsorbDeficit(out, v);
  }

  lemma {:induction false} AbsorbLines(out: seq<Interval>, v: Interval)
    requires |out| > 0 && Before(out[|out| - 1], v)
    ensures Lines(Absorb(out, v)) == Lines(out) + Span(v)
  {
    var last, r := out[|out| - 1], Absorb(out, v);
    if v.lo <= last.hi + 1 {
      SamePrefix(out, r, |out| - 1);
      assert Span(r[|r| - 1]) == Span(last) + Span(v);
    } else {
      LinesPush(out, v);
    }
  }

  lemma {:induction false} SameDeficit(a: seq<Interval>, b: seq<Interval>, n: nat)
    requires n <= |a| && n <= |b| && forall i :: 0 <= i < n ==> a[i] == b[i]
    ensures Deficit(a, n) == Deficit(b, n)
  {
    if n > 0 {
      SameDeficit(a, b, n - 1);
    }
  }

  lemma {:induction false} AbsorbDeficit(out: seq<Interval>, v: Interval)
    requires |out| > 0 && Apart(out) && Before(out[|out| - 1], v)
    ensures var r := Absorb(out, v); Deficit(r, |r|) == Deficit(out, |out|) + StrayShortfall(v, Lines(out))
  {
    hide Lines;
    var last, r := out[|out| - 1], Absorb(out, v);
    if Reversed(v) {
      ReachesFront(out, v);
    }
    if v.lo <= last.hi + 1 {
      SameDeficit(out, r, |out| - 1);
    } else {
      SameDeficit(out, r, |out|);
    }
  }

  /** The line in front of `v` is there exactly when the last interval reaches it, unless `v` starts where that does. */
  lemma {:induction false} ReachesFront(out: seq<Interval>, v: Interval)
    requires |out| > 0 && Apart(out) && Before(out[|out| - 1], v) && Reversed(v)
    ensures v.lo - 1 in Lines(out) <==> v.lo <= out[|out| - 1].hi + 1
  {
    var last := out[|out| - 1];
    if v.lo <= last.hi + 1 {
      LinesHave(out, |out|, |out| - 1, v.lo - 1);
    }
    if v.lo - 1 in Lines(out) {
      var i := WhichInterval(out, |out|, v.lo - 1);
    }
  }

  // ---------------------------------------------------------------- contained

  /** In a normal form, some interval holds [s, e] exactly when every line of it is covered. */
  method Contained(s: int, e: int, ivs: seq<Interval>) returns (r: bool)
    requires s <= e && Normal(ivs)
    ensures r <==> Span(Interval(s, e)) <= Lines(ivs)
  {
    var k := 0;
    while k < |ivs|
      invariant 0 <= k <= |ivs|
      invariant forall i :: 0 <= i < k ==> !(ivs[i].lo <= s && ivs[i].hi >= e)
    {
      if ivs[k].lo <= s && ivs[k].hi >= e {
        forall x | x in Span(Interval(s, e)) ensures x in Lines(ivs) {
          LinesHave(ivs, |ivs|, k, x);
        }
        return true;
      }
      k := k + 1;
    }
    if Span(Interval(s, e)) <= Lines(ivs) {
      var i := OneHolds(s, e, ivs);
    }
    return false;
  }

  lemma {:induction false} OneHolds(s: int, e: int, ivs: seq<Interval>) returns (i: nat)
    requires s <= e && Normal(ivs) && Span(Interval(s, e)) <= Lines(ivs)
    ensures i < |ivs| && ivs[i].lo <= s && ivs[i].hi >= e
  {
    assert s in Span(Interval(s, e));
    i := WhichInterval(ivs, |ivs|, s);
    if ivs[i].hi < e {
      assert ivs[i].hi + 1 in Span(Interval(s, e));
      var j := WhichInterval(ivs, |ivs|, ivs[i].hi + 1);
    }
  }

  // ---------------------------------------------------------------- subtract

  /** What is left of `p` without `v`. */
  function Cut(p: Interval, v: Interval): seq<Interval> {
    if v.hi < p.lo || v.lo > p.hi then [p]
    else
      (if v.lo > p.lo then [Interval(p.lo, v.lo - 1)] else []) + (if v.hi < p.hi then [Interval(v.hi + 1, p.hi)] else [])
  }

  lemma {:induction false} SpanCut(p: Interval, v: Interval)
    requires v.lo <= p.hi && p.lo <= v.hi && v.lo <= v.hi
    ensures Span(p) - Span(v) == Span(Interval(p.lo, v.lo - 1)) + Span(Interval(v.hi + 1, p.hi))
  {
  }

  lemma {:induction false} LinesOfTwo(v: Interval, w: Interval)
    ensures Lines([v] + [w]) == Span(v) + Span(w)
  {
    LinesOfOne(v);
    LinesPush([v], w);
  }

  lemma {:induction false} SpanOfNone(v: Interval)
    requires v.lo > v.hi
    ensures Span(v) == {}
  {
  }

  /** The pieces of a cut, by which of them are not empty. */
  lemma {:induction false} CutOverlap(p: Interval, v: Interval)
    requires p.lo <= p.hi && v.lo <= v.hi && v.lo <= p.hi && p.lo <= v.hi
    ensures Lines(Cut(p, v)) == Span(Interval(p.lo, v.lo - 1)) + Span(Interval(v.hi + 1, p.hi))
  {
    var left, right := Interval(p.lo, v.lo - 1), Interval(v.hi + 1, p.hi);
    if v.lo > p.lo && v.hi < p.hi {
      LinesOfTwo(left, right);
    } else if v.lo > p.lo {
      LinesOfOne(left);
      SpanOfNone(right);
      assert Cut(p, v) == [left];
    } else if v.hi < p.hi {
      LinesOfOne(right);
      SpanOfNone(left);
      assert Cut(p, v) == [right];
    } else {
      SpanOfNone(left);
      SpanOfNone(right);
      assert Cut(p, v) == [];
    }
  }

  lemma {:induction false} CutLines(p: Interval, v: Interval)
    requires p.lo <= p.hi && v.lo <= v.hi
    ensures Normal(Cut(p, v)) && Lines(Cut(p, v)) == Span(p) - Span(v)
    ensures forall i :: 0 <= i < |Cut(p, v)| ==> p.lo <= Cut(p, v)[i].lo && Cut(p, v)[i].hi <= p.hi
  {
    if v.hi < p.lo || v.lo > p.hi {
      LinesOfOne(p);
      assert Span(p) - Span(v) == Span(p);
    } else {
      CutOverlap(p, v);
      SpanCut(p, v);
    }
  }

  lemma {:induction false} LinesJoin(a: seq<Interval>, b: seq<Interval>, n: nat)
    requires n <= |b|
    ensures LinesTo(a + b, |a| + n) == Lines(a) + LinesTo(b, n)
  {
    if n == 0 {
      SamePrefix(a, a + b, |a|);
    } else {
      LinesJoin(a, b, n - 1);
    }
  }

  /** Normal forms on either side of a missing line join to one. */
  lemma {:induction false} NormalJoin(a: seq<Interval>, b: seq<Interval>, bound: int)
    requires Normal(a) && Normal(b)
    requires (forall i :: 0 <= i < |a| ==> a[i].hi + 1 < bound) && (forall i :: 0 <= i < |b| ==> bound <= b[i].lo)
    ensures Normal(a + b) && Lines(a + b) == Lines(a) + Lines(b)
  {
    LinesJoin(a, b, |b|);
  }

  /** [s, e] without the lines of `ivs`: as a set the difference, as a list its normal form. */
  method Subtract(s: int, e: int, ivs: seq<Interval>) returns (out: seq<Interval>)
    requires s <= e && NonEmpty(ivs)
    ensures Normal(out) && Lines(out) == Span(Interval(s, e)) - Lines(ivs)
  {
    out := [Interval(s, e)];
    LinesOfOne(Interval(s, e));
    var k := 0;
    while k < |ivs|
      invariant 0 <= k <= |ivs|
      invariant Normal(out) && Lines(out) == Span(Interval(s, e)) - LinesTo(ivs, k)
    {
      out := CutAll(out, ivs[k]);
      k := k + 1;
      if out == [] {
        LinesGrow(ivs, k, |ivs|);
        break;
      }
    }
  }

  method CutAll(out: seq<Interval>, v: Interval) returns (cut: seq<Interval>)
    requires Normal(out) && v.lo <= v.hi
    ensures Normal(cut) && Lines(cut) == Lines(out) - Span(v)
  {
    cut := [];
    var j := 0;
    while j < |out|
      invariant 0 <= j <= |out|
      invariant Normal(cut) && Lines(cut) == LinesTo(out, j) - Span(v)
      invariant forall i :: 0 <= i < |cut| ==> j > 0 && cut[i].hi <= out[j - 1].hi
    {
      CutLines(out[j], v);
      NormalJoin(cut, Cut(out[j], v), out[j].lo);
      cut := cut + Cut(out[j], v);
      j := j + 1;
    }
  }

  // ---------------------------------------------------------------- how many lines

  lemma {:induction false} SpanSize(v: Interval)
    requires v.lo <= v.hi + 1
    ensures |Span(v)| == v.hi - v.lo + 1
    decreases v.hi - v.lo + 1
  {
    if v.lo <= v.hi {
      var shorter := Interval(v.lo, v.hi - 1);
      SpanSize(shorter);
      assert Span(v) == Span(shorter) + {v.hi};
    } else {
      assert Span(v) == {};
    }
  }

  lemma {:induction false} LinesToSize(ivs: seq<Interval>, n: nat)
    requires Apart(ivs) && 0 < n <= |ivs|
    ensures |LinesTo(ivs, n)| == |LinesTo(ivs, n - 1)| + |Span(ivs[n - 1])|
  {
    var before, last := LinesTo(ivs, n - 1), Span(ivs[n - 1]);
    forall x | x in before ensures x !in last {
      var i := WhichInterval(ivs, n - 1, x);
    }
  }

  /** The sum of the lengths of the first `n` intervals. */
  function TotalLength(ivs: seq<Interval>, n: nat): (total: int)
    requires n <= |ivs|
    ensures NonEmpty(ivs) ==> total >= 0
  {
    if n == 0 then 0 else TotalLength(ivs, n - 1) + (ivs[n - 1].hi - ivs[n - 1].lo + 1)
  }

  lemma {:induction false} SpanLength(v: Interval)
    ensures v.hi - v.lo + 1 == |Span(v)| - Shortfall(v)
  {
    if Reversed(v) {
      SpanOfNone(v);
    } else {
      SpanSize(v);
    }
  }

  lemma {:induction false} LengthFallsShort(ivs: seq<Interval>, n: nat)
    requires Apart(ivs) && n <= |ivs|
    ensures TotalLength(ivs, n) == |LinesTo(ivs, n)| - Deficit(ivs, n)
  {
    if n == 0 {
      assert LinesTo(ivs, n) == {};
    } else {
      hide Apart, LinesTo, Shortfall, Span;
      LengthFallsShort(ivs, n - 1);
      LinesToSize(ivs, n);
      SpanLength(ivs[n - 1]);
    }
  }

  /** The lengths of a merged list never count a line twice, and miss lines exactly when some interval is reversed. */
  lemma {:induction false} LengthIsSize(ivs: seq<Interval>, n: nat)
    requires Apart(ivs) && n <= |ivs|
    ensures TotalLength(ivs, n) == |LinesTo(ivs, n)| - Deficit(ivs, n)
    ensures TotalLength(ivs, n) <= |LinesTo(ivs, n)|
    ensures TotalLength(ivs, n) == |LinesTo(ivs, n)| <==> forall i :: 0 <= i < n ==> !Reversed(ivs[i])
  {
    LengthFallsShort(ivs, n);
    DeficitIsReversed(ivs, n);
  }

  // ---------------------------------------------------------------- chunks

  /** [s, e] in pieces of `cap` lines, the last one shorter if need be. */
  function Chunks(s: int, e: int, cap: int): (c: seq<Interval>)
    requires cap >= 1
    decreases e - s + 1
  {
    if s > e then []
    else
      var end := if s + cap - 1 < e then s + cap - 1 else e;
      [Interval(s, end)] + Chunks(end + 1, e, cap)
  }

  lemma {:induction false} ChunkNext(out: seq<Interval>, cur: int, e: int, cap: int)
    requires cap >= 1 && cur <= e
    ensures var end := if cur + cap - 1 < e then cur + cap - 1 else e;
            out + Chunks(cur, e, cap) == (out + [Interval(cur, end)]) + Chunks(end + 1, e, cap)
  {
    var end := if cur + cap - 1 < e then cur + cap - 1 else e;
    assert out + ([Interval(cur, end)] + Chunks(end + 1, e, cap)) == (out + [Interval(cur, end)]) + Chunks(end + 1, e, cap);
  }

  method ChunkRange(s: int, e: int, cap: int) returns (out: seq<Interval>)
    requires cap >= 1
    ensures out == Chunks(s, e, cap)
  {
    out := [];
    var cur := s;
    while cur <= e
      invariant out + Chunks(cur, e, cap) == Chunks(s, e, cap)
      decreases e - cur + 1
    {
      ChunkNext(out, cur, e, cap);
      var end := if cur + cap - 1 < e then cur + cap - 1 else e;
      out := out + [Interval(cur, end)];
      cur := end + 1;
    }
  }

  /** The chunks follow one another from `s` to `e`, and all but the last are full. */
  lemma {:induction false} ChunksTile(s: int, e: int, cap: int)
    requires cap >= 1 && s <= e
    ensures var c := Chunks(s, e, cap);
            && |c| > 0 && c[0].lo == s && c[|c| - 1].hi == e
            && (forall k :: 0 <= k < |c| - 1 ==> c[k + 1].lo == c[k].hi + 1 && c[k].hi - c[k].lo + 1 == cap)
            && 1 <= c[|c| - 1].hi - c[|c| - 1].lo + 1 <= cap
    decreases e - s
  {
    var end := if s + cap - 1 < e then s + cap - 1 else e;
    var rest := Chunks(end + 1, e, cap);
    if end < e {
      ChunksTile(end + 1, e, cap);
      var c := Chunks(s, e, cap);
      forall k | 0 <= k < |c| - 1 ensures c[k + 1].lo == c[k].hi + 1 && c[k].hi - c[k].lo + 1 == cap {
        if k > 0 {
          assert c[k] == rest[k - 1] && c[k + 1] == rest[k - 1 + 1];
        }
      }
    }
  }

  /** Where the loop of `chunk_range` stands after `n` rounds, whatever the cap. */
  function Cursor(s: int, e: int, cap: int, n: nat): int {
    if n == 0 then s
    else
      var cur := Cursor(s, e, cap, n - 1);
      if cur > e then cur else (if cur + cap - 1 < e then cur + cap - 1 else e) + 1
  }

  lemma {:induction false} CursorMoves(s: int, e: int, cap: int, n: nat)
    ensures cap >= 1 ==> Cursor(s, e, cap, n) > e || Cursor(s, e, cap, n) >= s + n
    ensures cap < 1 && s <= e ==> Cursor(s, e, cap, n) <= s
  {
    if n > 0 {
      CursorMoves(s, e, cap, n - 1);
    }
  }

  /** The loop ends exactly when there is nothing to do or the cap is at least one line. */
  lemma {:induction false} ChunkingEnds(s: int, e: int, cap: int)
    ensures (exists n: nat :: Cursor(s, e, cap, n) > e) <==> s > e || cap >= 1
  {
    if s > e {
      assert Cursor(s, e, cap, 0) > e;
    } else if cap >= 1 {
      CursorMoves(s, e, cap, e - s + 1);
    } else {
      forall n: nat ensures Cursor(s, e, cap, n) <= e {
        CursorMoves(s, e, cap, n);
      }
    }
  }
}
