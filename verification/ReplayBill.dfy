/** What the bill of a replay is made of (scripts/session-stats/optimize_read_config.py). */
module ReplayBill {
  import opened Intervals
  import opened ReadReplay

  // ---------------------------------------------------------------- lines

  /** Call `i` returns line `x` under the configuration. */
  predicate Brings(calls: seq<ReadCall>, fs: FileStats, cfg: Config, i: nat, x: int)
    requires i < |calls|
  {
    var r := Returned(calls[i], fs, cfg);
    r.Some? && r.value.lo <= x <= r.value.hi
  }

  /** By its footer, the call returned line `x` when it was observed. */
  predicate Showed(rc: ReadCall, x: int) {
    rc.actualFrom.Some? && rc.actualTo.Some? && rc.actualFrom.value <= x <= rc.actualTo.value
  }

  lemma {:induction false} DeliveredMeans(calls: seq<ReadCall>, fs: FileStats, cfg: Config, n: nat, x: int)
    requires n <= |calls|
    ensures x in Delivered(calls, fs, cfg, n) <==> exists i: nat :: i < n && Brings(calls, fs, cfg, i, x)
  {
    hide Returned;
    if n > 0 {
      DeliveredMeans(calls, fs, cfg, n - 1, x);
      assert x in Delivered(calls, fs, cfg, n) <==> x in Delivered(calls, fs, cfg, n - 1) || Brings(calls, fs, cfg, n - 1, x);
    }
  }

  lemma {:induction false} ObservedMeans(calls: seq<ReadCall>, n: nat, x: int)
    requires n <= |calls|
    ensures x in Observed(calls, n) <==> exists i: nat :: i < n && Showed(calls[i], x)
  {
    if n > 0 {
      ObservedMeans(calls, n - 1, x);
      assert x in Observed(calls, n) <==> x in Observed(calls, n - 1) || Showed(calls[n - 1], x);
    }
  }

  /** A call is charged exactly if it brings a line that no call before it brought. */
  lemma {:induction false} ChargedMeans(calls: seq<ReadCall>, fs: FileStats, cfg: Config, i: nat)
    requires i < |calls|
    ensures Charged(calls, fs, cfg, i) <==>
            exists x :: Brings(calls, fs, cfg, i, x) && forall k: nat :: k < i ==> !Brings(calls, fs, cfg, k, x)
  {
    hide Returned;
    forall x ensures x in Delivered(calls, fs, cfg, i) <==> exists k: nat :: k < i && Brings(calls, fs, cfg, k, x) {
      DeliveredMeans(calls, fs, cfg, i, x);
    }
    var r := Returned(calls[i], fs, cfg);
    assert r.Some? ==> forall x :: x in Span(r.value) <==> Brings(calls, fs, cfg, i, x);
    if Charged(calls, fs, cfg, i) {
      var x :| x in Span(r.value) && x !in Delivered(calls, fs, cfg, i);
      assert Brings(calls, fs, cfg, i, x);
    }
  }

  // ---------------------------------------------------------------- sums

  function Sum(xs: seq<real>): real {
    if xs == [] then 0.0 else Sum(xs[..|xs| - 1]) + xs[|xs| - 1]
  }

  function Total(ns: seq<nat>): nat {
    if ns == [] then 0 else Total(ns[..|ns| - 1]) + ns[|ns| - 1]
  }

  // ---------------------------------------------------------------- the first phase

  /** `order` has exactly the charged ones of the first `n` calls, in order, and `costs` what their lines cost. */
  ghost predicate Paid(calls: seq<ReadCall>, fs: FileStats, cfg: Config, n: nat, order: seq<nat>, costs: seq<real>)
    requires n <= |calls|
  {
    && |costs| == |order|
    && (forall i :: 0 <= i < |order| ==>
          order[i] < n && Charged(calls, fs, cfg, order[i]) && costs[i] == CallCost(calls[order[i]], fs, cfg))
    && (forall i, k :: 0 <= i < k < |order| ==> order[i] < order[k])
    && (forall j: nat :: j < n && Charged(calls, fs, cfg, j) ==> j in order)
  }

  function CallCost(rc: ReadCall, fs: FileStats, cfg: Config): real {
    var r := Returned(rc, fs, cfg);
    if r.Some? then CostOfChunk(r.value, fs, rc.intent.Bare?, cfg) else 0.0
  }

  lemma {:induction false} FirstPhaseIs(calls: seq<ReadCall>, fs: FileStats, cfg: Config, n: nat)
    returns (order: seq<nat>, costs: seq<real>)
    requires n <= |calls|
    ensures Paid(calls, fs, cfg, n, order, costs)
    ensures FirstPhase(calls, fs, cfg, n) == Bill(Sum(costs) + |order| as real * ROUNDTRIP_OVERHEAD, |order|)
  {
    hide *;
    order, costs := [], [];
    if n == 0 {
      NothingPaid(calls, fs, cfg);
    } else {
      order, costs := FirstPhaseIs(calls, fs, cfg, n - 1);
      PaidNext(calls, fs, cfg, n, order, costs);
      PhaseNext(calls, fs, cfg, n);
      if Charged(calls, fs, cfg, n - 1) {
        var cost := CallCost(calls[n - 1], fs, cfg);
        SumPush(costs, cost);
        Overheads(|order|, 1);
        order, costs := order + [n - 1], costs + [cost];
      }
    }
  }

  lemma {:induction false} NothingPaid(calls: seq<ReadCall>, fs: FileStats, cfg: Config)
    ensures Paid(calls, fs, cfg, 0, [], []) && FirstPhase(calls, fs, cfg, 0) == Bill(Sum([]) + 0 as real * ROUNDTRIP_OVERHEAD, 0)
  {
  }

  lemma {:induction false} PaidNext(calls: seq<ReadCall>, fs: FileStats, cfg: Config, n: nat, order: seq<nat>, costs: seq<real>)
    requires 0 < n <= |calls| && Paid(calls, fs, cfg, n - 1, order, costs)
    ensures if Charged(calls, fs, cfg, n - 1) then
              Paid(calls, fs, cfg, n, order + [n - 1], costs + [CallCost(calls[n - 1], fs, cfg)])
            else Paid(calls, fs, cfg, n, order, costs)
  {
    hide Returned, CostOfChunk, Charged, CallCost;
    if Charged(calls, fs, cfg, n - 1) {
      var now := order + [n - 1];
      forall j: nat | j < n && Charged(calls, fs, cfg, j) ensures j in now {
        if j < n - 1 {
          assert j in order;
        } else {
          assert now[|order|] == j;
        }
      }
    }
  }

  lemma {:induction false} PhaseNext(calls: seq<ReadCall>, fs: FileStats, cfg: Config, n: nat)
    requires 0 < n <= |calls|
    ensures var before, cost := FirstPhase(calls, fs, cfg, n - 1), CallCost(calls[n - 1], fs, cfg);
            FirstPhase(calls, fs, cfg, n) == if Charged(calls, fs, cfg, n - 1) then
              Bill(before.total + cost + 1 as real * ROUNDTRIP_OVERHEAD, before.kept + 1) else before
  {
    ChargedReturns(calls, fs, cfg, n - 1);
    hide Returned, CostOfChunk, Charged, CallCost;
  }

  lemma {:induction false} ChargedReturns(calls: seq<ReadCall>, fs: FileStats, cfg: Config, i: nat)
    requires i < |calls|
    ensures Charged(calls, fs, cfg, i) ==>
              && Returned(calls[i], fs, cfg).Some?
              && CallCost(calls[i], fs, cfg) == CostOfChunk(Returned(calls[i], fs, cfg).value, fs, calls[i].intent.Bare?, cfg)
  {
    hide Returned, CostOfChunk;
  }

  lemma {:induction false} SumPush(xs: seq<real>, x: real)
    ensures Sum(xs + [x]) == Sum(xs) + x
  {
    assert (xs + [x])[..|xs|] == xs;
  }

  lemma {:induction false} TotalPush(ns: seq<nat>, n: nat)
    ensures Total(ns + [n]) == Total(ns) + n
  {
    assert (ns + [n])[..|ns|] == ns;
  }

  // ---------------------------------------------------------------- the second phase

  /** One call may return `n` lines if the line cap allows it and, unless it is one, so do the bytes. */
  lemma {:induction false} PerCallMeans(fs: FileStats, cfg: Config, n: nat)
    requires n >= 1
    ensures n <= PerCall(fs, cfg) <==>
            n <= cfg.lineCap && (fs.bytesPerLine > 0.0 && n > 1 ==> n as real * fs.bytesPerLine <= cfg.byteCap as real)
  {
    if fs.bytesPerLine > 0.0 {
      BytesFit(n, cfg.byteCap, fs.bytesPerLine);
    }
  }

  /** As many chunks as it takes: with one less, the cap would not suffice. */
  predicate Suffices(chunks: nat, lines: int, cap: int) {
    (chunks - 1) * cap < lines <= chunks * cap
  }

  lemma {:induction false} ChunkNumber(s: int, e: int, cap: int)
    requires cap >= 1 && s <= e
    ensures Suffices(|Chunks(s, e, cap)|, e - s + 1, cap)
    decreases e - s
  {
    if s + cap - 1 < e {
      var n := |Chunks(s + cap, e, cap)|;
      ChunkNumber(s + cap, e, cap);
      assert |Chunks(s, e, cap)| == n + 1;
      hide Chunks;
      assert (n + 1) * cap == n * cap + cap && n * cap == (n - 1) * cap + cap;
    }
  }

  lemma {:induction false} ChunksByGap(gaps: seq<Interval>, cap: int, n: nat) returns (counts: seq<nat>)
    requires cap >= 1 && n <= |gaps| && NonEmpty(gaps)
    ensures |counts| == n && Total(counts) == ChunkCount(gaps, cap, n)
    ensures forall g :: 0 <= g < n ==> Suffices(counts[g], gaps[g].hi - gaps[g].lo + 1, cap)
  {
    hide Suffices, Chunks;
    counts := [];
    if n > 0 {
      counts := ChunksByGap(gaps, cap, n - 1);
      var chunks := |Chunks(gaps[n - 1].lo, gaps[n - 1].hi, cap)|;
      ChunkNumber(gaps[n - 1].lo, gaps[n - 1].hi, cap);
      TotalPush(counts, chunks);
      counts := counts + [chunks];
    }
  }

  // ---------------------------------------------------------------- the bill

  /** Observed, but returned by no simulated call. */
  ghost predicate IsMissing(calls: seq<ReadCall>, fs: FileStats, cfg: Config, x: int) {
    (exists i: nat :: i < |calls| && Showed(calls[i], x)) && forall k: nat :: k < |calls| ==> !Brings(calls, fs, cfg, k, x)
  }

  lemma {:induction false} MissingMeans(calls: seq<ReadCall>, fs: FileStats, cfg: Config, x: int)
    ensures x in Missing(calls, fs, cfg) <==> IsMissing(calls, fs, cfg, x)
  {
    DeliveredMeans(calls, fs, cfg, |calls|, x);
    ObservedMeans(calls, |calls|, x);
    hide Delivered, Observed, Brings, Showed;
  }

  /**
   The bill: what the lines of the charged calls cost, every missing line at the rate of the file, and an overhead for each
   charged call and for each of the fewest chunks that the stretches of missing lines take.
   */
  lemma {:induction false} BillIs(calls: seq<ReadCall>, fs: FileStats, cfg: Config, bill: Bill)
    returns (order: seq<nat>, costs: seq<real>, gaps: seq<Interval>, counts: seq<nat>)
    requires cfg.lineCap >= 1 && IsBill(calls, fs, cfg, bill)
    ensures Paid(calls, fs, cfg, |calls|, order, costs)
    ensures Normal(gaps) && forall x :: x in Lines(gaps) <==> IsMissing(calls, fs, cfg, x)
    ensures |counts| == |gaps|
    ensures forall g :: 0 <= g < |gaps| ==> Suffices(counts[g], gaps[g].hi - gaps[g].lo + 1, PerCall(fs, cfg))
    ensures bill.kept == |order| + Total(counts)
    ensures bill.total == Sum(costs) + |Lines(gaps)| as real * fs.tokensPerLine + (|order| + Total(counts)) as real * ROUNDTRIP_OVERHEAD
  {
    var cap := PerCall(fs, cfg);
    hide IsBill, Lines, Paid, Suffices, IsMissing, Missing, FirstPhase, ChunkCount, Tokens;
    order, costs := FirstPhaseIs(calls, fs, cfg, |calls|);
    gaps := WhichGaps(calls, fs, cfg, bill);
    assert NonEmpty(gaps);
    counts := ChunksByGap(gaps, cap, |gaps|);
    forall x ensures x in Lines(gaps) <==> IsMissing(calls, fs, cfg, x) {
      MissingMeans(calls, fs, cfg, x);
    }
    TokensIsProduct(|Missing(calls, fs, cfg)|, fs.tokensPerLine);
    Overheads(|order|, Total(counts));
  }

  lemma {:induction false} Overheads(a: nat, b: nat)
    ensures (a + b) as real * ROUNDTRIP_OVERHEAD == a as real * ROUNDTRIP_OVERHEAD + b as real * ROUNDTRIP_OVERHEAD
  {
  }
}
