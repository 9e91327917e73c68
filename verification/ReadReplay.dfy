/** Replaying the reads of one file under another configuration (scripts/session-stats/optimize_read_config.py). */
module ReadReplay {
  import opened Prelude
  import opened Intervals

  datatype Intent = Bare | Range(start: nat, end: Option<int>) | Raw | Conflicts | Other

  /** One observed call: what was asked for, and which lines came back when the footer says so. */
  datatype ReadCall = ReadCall(intent: Intent, actualFrom: Option<int>, actualTo: Option<int>)

  datatype FileStats = FileStats(sizeLines: int, tokensPerLine: real, bytesPerLine: real)

  datatype Config = Config(defaultPage: int, lineCap: int, byteCap: nat, summarizeMin: int)

  const ROUNDTRIP_OVERHEAD: real := 200.0

  function Min(a: int, b: int): int {
    if a <= b then a else b
  }

  function Max(a: int, b: int): int {
    if a >= b then a else b
  }

  /** How many lines the byte cap leaves, if the file has a byte rate. */
  function ByteLines(fs: FileStats, cfg: Config): Option<int> {
    if fs.bytesPerLine > 0.0 then Some(Max(1, (cfg.byteCap as real / fs.bytesPerLine).Floor)) else None
  }

  /** Most lines one call returns. */
  function PerCall(fs: FileStats, cfg: Config): int {
    var lines := ByteLines(fs, cfg);
    if lines.Some? then Min(cfg.lineCap, lines.value) else cfg.lineCap
  }

  // ---------------------------------------------------------------- one call

  /** The lines the call asks for: None when it has no line bounds. */
  function Asked(intent: Intent, size: int, cfg: Config): Option<Interval> {
    match intent
    case Bare => Some(Interval(1, cfg.defaultPage))
    case Range(start, end) =>
      var from := if start == 0 then 1 else start;
      Some(Interval(from, if end.Some? then end.value else from + cfg.defaultPage - 1))
    case Raw => Some(Interval(1, size))
    case _ => None
  }

  /** The range the tool returns for one call. */
  method EffectiveReturned(rc: ReadCall, fs: FileStats, cfg: Config) returns (r: Option<Interval>)
    ensures r == Returned(rc, fs, cfg)
  {
    var size := Max(fs.sizeLines, 1);
    var asked := Asked(rc.intent, size, cfg);
    if asked.None? {
      return None;
    }
    var start := asked.value.lo;
    var end := Min(Min(asked.value.hi, size), start + cfg.lineCap - 1);
    var lines := ByteLines(fs, cfg);
    if lines.Some? {
      end := Min(end, start + lines.value - 1);
    }
    if end < start {
      end := start;
    }
    return Some(Interval(start, end));
  }

  /** The longest part of what was asked for that the file and the caps allow, but always at least its first line. */
  function Returned(rc: ReadCall, fs: FileStats, cfg: Config): (r: Option<Interval>)
    ensures r.Some? ==> 1 <= r.value.lo <= r.value.hi
  {
    var size := Max(fs.sizeLines, 1);
    var asked := Asked(rc.intent, size, cfg);
    if asked.None? then None
    else
      var longest := Min(Min(asked.value.hi, size), asked.value.lo + PerCall(fs, cfg) - 1);
      Some(Interval(asked.value.lo, Max(longest, asked.value.lo)))
  }

  /** The call asks for line `l`: up to the page size, up to the end given, or for the whole file. */
  predicate AsksFor(intent: Intent, from: int, l: int, cfg: Config) {
    match intent
    case Bare => l <= cfg.defaultPage
    case Range(_, end) => if end.Some? then l <= end.value else l < from + cfg.defaultPage
    case Raw => true
    case _ => false
  }

  /** The lines up to `l` fit what one call may return: in the file, in lines, and in bytes. */
  predicate Allowed(fs: FileStats, cfg: Config, from: int, l: int) {
    && l <= fs.sizeLines && l - from < cfg.lineCap
    && (fs.bytesPerLine > 0.0 ==> (l - from + 1) as real * fs.bytesPerLine <= cfg.byteCap as real)
  }

  lemma {:induction false} BytesFit(n: int, cap: nat, rate: real)
    requires rate > 0.0
    ensures n <= (cap as real / rate).Floor <==> n as real * rate <= cap as real
  {
    var q := cap as real / rate;
    assert q * rate == cap as real;
    if n as real <= q {
      assert n as real * rate <= q * rate;
    } else {
      assert n as real * rate > q * rate;
    }
  }

  /**
   What a call returns: nothing if it has no bounds; otherwise its first line, and every later line that it asks for and that
   is allowed.
   */
  lemma {:induction false} ReturnedMeans(rc: ReadCall, fs: FileStats, cfg: Config, l: int)
    ensures var r := Returned(rc, fs, cfg);
            && (r.None? <==> rc.intent.Conflicts? || rc.intent.Other?)
            && (r.Some? ==>
                  && r.value.lo == (if rc.intent.Range? && rc.intent.start > 0 then rc.intent.start else 1)
                  && (r.value.lo <= l <= r.value.hi <==>
                        l == r.value.lo || (l > r.value.lo && AsksFor(rc.intent, r.value.lo, l, cfg) && Allowed(fs, cfg, r.value.lo, l))))
  {
    if fs.bytesPerLine > 0.0 {
      var r := Returned(rc, fs, cfg);
      if r.Some? {
        BytesFit(l - r.value.lo + 1, cfg.byteCap, fs.bytesPerLine);
      }
    }
  }

  // ---------------------------------------------------------------- what a replay amounts to, as sets of lines

  /** The lines the first `n` calls return under the configuration, kept or not. */
  function Delivered(calls: seq<ReadCall>, fs: FileStats, cfg: Config, n: nat): set<int>
    requires n <= |calls|
  {
    if n == 0 then {}
    else
      var r := Returned(calls[n - 1], fs, cfg);
      Delivered(calls, fs, cfg, n - 1) + if r.Some? then Span(r.value) else {}
  }

  predicate Footed(rc: ReadCall) {
    rc.actualFrom.Some? && rc.actualTo.Some? && rc.actualTo.value >= rc.actualFrom.value
  }

  /** The lines the first `n` calls were observed to return. */
  function Observed(calls: seq<ReadCall>, n: nat): set<int>
    requires n <= |calls|
  {
    if n == 0 then {}
    else
      var rc := calls[n - 1];
      Observed(calls, n - 1) + if Footed(rc) then Span(Interval(rc.actualFrom.value, rc.actualTo.value)) else {}
  }

  /** A call is charged unless the calls before it returned all of its lines. */
  predicate Charged(calls: seq<ReadCall>, fs: FileStats, cfg: Config, i: nat)
    requires i < |calls|
  {
    var r := Returned(calls[i], fs, cfg);
    r.Some? && !(Span(r.value) <= Delivered(calls, fs, cfg, i))
  }

  /** `n * rate`, as a sum. */
  function Tokens(n: nat, rate: real): real {
    if n == 0 then 0.0 else Tokens(n - 1, rate) + rate
  }

  lemma {:induction false} TokensIsProduct(n: nat, rate: real)
    ensures Tokens(n, rate) == n as real * rate
  {
    if n > 0 {
      TokensIsProduct(n - 1, rate);
    }
  }

  lemma {:induction false} TokensAdd(a: nat, b: nat, rate: real)
    ensures Tokens(a + b, rate) == Tokens(a, rate) + Tokens(b, rate)
  {
    if b > 0 {
      TokensAdd(a, b - 1, rate);
      assert a + b - 1 == a + (b - 1);
    }
  }

  function CostOfChunk(v: Interval, fs: FileStats, bare: bool, cfg: Config): real {
    var raw := Tokens(Max(v.hi - v.lo + 1, 0), fs.tokensPerLine);
    if bare && cfg.summarizeMin >= 0 && fs.sizeLines >= cfg.summarizeMin then raw * 0.35 else raw
  }

  /** A chunk costs its lines at the rate of the file; a bare read of a file that is summarized costs 0.35 of that. */
  lemma {:induction false} CostMeans(v: Interval, fs: FileStats, bare: bool, cfg: Config, lines: nat)
    requires lines == v.hi - v.lo + 1
    ensures var full := lines as real * fs.tokensPerLine;
            CostOfChunk(v, fs, bare, cfg) == if bare && 0 <= cfg.summarizeMin <= fs.sizeLines then full * 0.35 else full
  {
    var full := lines as real * fs.tokensPerLine;
    TokensIsProduct(lines, fs.tokensPerLine);
    assert Max(v.hi - v.lo + 1, 0) == lines;
    assert Tokens(Max(v.hi - v.lo + 1, 0), fs.tokensPerLine) == full;
  }

  datatype Bill = Bill(total: real, kept: nat)

  /** What the charged ones of the first `n` calls cost. */
  function FirstPhase(calls: seq<ReadCall>, fs: FileStats, cfg: Config, n: nat): Bill
    requires n <= |calls|
  {
    if n == 0 then Bill(0.0, 0)
    else
      var before := FirstPhase(calls, fs, cfg, n - 1);
      if Charged(calls, fs, cfg, n - 1) then
        var cost := CostOfChunk(Returned(calls[n - 1], fs, cfg).value, fs, calls[n - 1].intent.Bare?, cfg);
        Bill(before.total + cost + ROUNDTRIP_OVERHEAD, before.kept + 1)
      else before
  }

  /** How many chunks the first `n` gaps take. */
  function ChunkCount(gaps: seq<Interval>, cap: int, n: nat): nat
    requires cap >= 1 && n <= |gaps|
  {
    if n == 0 then 0 else ChunkCount(gaps, cap, n - 1) + |Chunks(gaps[n - 1].lo, gaps[n - 1].hi, cap)|
  }

  /** The observed lines that no simulated call returns. */
  function Missing(calls: seq<ReadCall>, fs: FileStats, cfg: Config): set<int> {
    Observed(calls, |calls|) - Delivered(calls, fs, cfg, |calls|)
  }

  /** A bill with some more lines, returned in some more calls. */
  function Charge(b: Bill, lines: nat, chunks: nat, rate: real): Bill {
    Bill(b.total + Tokens(lines, rate) + chunks as real * ROUNDTRIP_OVERHEAD, b.kept + chunks)
  }

  lemma {:induction false} ChargeAdds(b: Bill, lines: nat, chunks: nat, moreLines: nat, moreChunks: nat, rate: real)
    ensures Charge(Charge(b, lines, chunks, rate), moreLines, moreChunks, rate) ==
            Charge(b, lines + moreLines, chunks + moreChunks, rate)
  {
    TokensAdd(lines, moreLines, rate);
  }

  /** A bill with the chunks of one gap. */
  function ChargeGap(b: Bill, gap: Interval, cap: int, rate: real): Bill
    requires cap >= 1 && gap.lo <= gap.hi
  {
    Charge(b, gap.hi - gap.lo + 1, |Chunks(gap.lo, gap.hi, cap)|, rate)
  }

  /** `first` and the chunks of the first `n` gaps. */
  function SecondPhase(first: Bill, gaps: seq<Interval>, cap: int, rate: real, n: nat): Bill
    requires cap >= 1 && n <= |gaps| && NonEmpty(gaps)
  {
    if n == 0 then first else ChargeGap(SecondPhase(first, gaps, cap, rate, n - 1), gaps[n - 1], cap, rate)
  }

  /** Gap by gap, each missing line is charged once. */
  lemma {:induction false} SecondPhaseTotal(first: Bill, gaps: seq<Interval>, cap: int, rate: real, n: nat)
    requires cap >= 1 && n <= |gaps| && NonEmpty(gaps)
    ensures SecondPhase(first, gaps, cap, rate, n) == Charge(first, TotalLength(gaps, n), ChunkCount(gaps, cap, n), rate)
  {
    if n == 0 {
      assert Tokens(0, rate) == 0.0;
    } else {
      hide Tokens, Chunks;
      var gap := gaps[n - 1];
      SecondPhaseTotal(first, gaps, cap, rate, n - 1);
      ChargeAdds(first, TotalLength(gaps, n - 1), ChunkCount(gaps, cap, n - 1), gap.hi - gap.lo + 1,
                 |Chunks(gap.lo, gap.hi, cap)|, rate);
    }
  }

  /**
   The bill of a replay: every call that brings a new line, then each missing line once, and a roundtrip a chunk.
   */
  ghost predicate IsBill(calls: seq<ReadCall>, fs: FileStats, cfg: Config, bill: Bill)
    requires cfg.lineCap >= 1
  {
    var missing := Missing(calls, fs, cfg);
    exists gaps ::
      && Normal(gaps) && Lines(gaps) == missing
      && bill == Charge(FirstPhase(calls, fs, cfg, |calls|), |missing|, ChunkCount(gaps, PerCall(fs, cfg), |gaps|), fs.tokensPerLine)
  }

  /** The bill is a function of the sets of lines alone. */
  lemma {:induction false} BillIsUnique(calls: seq<ReadCall>, fs: FileStats, cfg: Config, x: Bill, y: Bill)
    requires cfg.lineCap >= 1 && IsBill(calls, fs, cfg, x) && IsBill(calls, fs, cfg, y)
    ensures x == y
  {
    var a := WhichGaps(calls, fs, cfg, x);
    var b := WhichGaps(calls, fs, cfg, y);
    NormalIsUnique(a, b);
  }

  lemma {:induction false} WhichGaps(calls: seq<ReadCall>, fs: FileStats, cfg: Config, bill: Bill) returns (gaps: seq<Interval>)
    requires cfg.lineCap >= 1 && IsBill(calls, fs, cfg, bill)
    ensures Normal(gaps) && Lines(gaps) == Missing(calls, fs, cfg)
    ensures bill == Charge(FirstPhase(calls, fs, cfg, |calls|), |Missing(calls, fs, cfg)|,
                           ChunkCount(gaps, PerCall(fs, cfg), |gaps|), fs.tokensPerLine)
  {
    var missing := Missing(calls, fs, cfg);
    gaps :|
      && Normal(gaps) && Lines(gaps) == missing
      && bill == Charge(FirstPhase(calls, fs, cfg, |calls|), |missing|, ChunkCount(gaps, PerCall(fs, cfg), |gaps|), fs.tokensPerLine);
  }

  // ---------------------------------------------------------------- the replay

  /**
   Replay the calls, then fill what the agent is known to have read. `covered` ends up as all lines delivered or
   observed.
   */
  method ReplayPair(calls: seq<ReadCall>, fs: FileStats, cfg: Config) returns (total: real, kept: nat, covered: seq<Interval>)
    requires cfg.lineCap >= 1
    ensures IsBill(calls, fs, cfg, Bill(total, kept))
    ensures Normal(covered)
    ensures Lines(covered) == Delivered(calls, fs, cfg, |calls|) + Observed(calls, |calls|)
  {
    var observed: seq<Interval>;
    total, kept, covered, observed := ReplayCalls(calls, fs, cfg);
    observed := Merge(observed);
    var gaps := Gaps(observed, covered);
    SecondPhaseTotal(Bill(total, kept), gaps, PerCall(fs, cfg), fs.tokensPerLine, |gaps|);
    LengthIsSize(gaps, |gaps|);
    total, kept, covered := FillGaps(gaps, PerCall(fs, cfg), fs, cfg, total, kept, covered);
  }

  lemma {:induction false} NoGaps(first: Bill, gaps: seq<Interval>, cap: int, rate: real, before: set<int>)
    requires cap >= 1 && NonEmpty(gaps)
    ensures SecondPhase(first, gaps, cap, rate, 0) == first && before + LinesTo(gaps, 0) == before
    ensures Lines(gaps) == LinesTo(gaps, |gaps|)
  {
  }

  lemma {:induction false} NextGap(first: Bill, gaps: seq<Interval>, cap: int, rate: real, before: set<int>, g: nat)
    requires cap >= 1 && NonEmpty(gaps) && g < |gaps|
    ensures gaps[g].lo <= gaps[g].hi
    ensures SecondPhase(first, gaps, cap, rate, g + 1) == ChargeGap(SecondPhase(first, gaps, cap, rate, g), gaps[g], cap, rate)
    ensures before + LinesTo(gaps, g + 1) == (before + LinesTo(gaps, g)) + Span(gaps[g])
  {
    hide ChargeGap, Span;
    UnionAssociates(before, LinesTo(gaps, g), Span(gaps[g]));
  }

  method FillGaps(gaps: seq<Interval>, cap: int, fs: FileStats, cfg: Config, total0: real, kept0: nat, covered0: seq<Interval>)
    returns (total: real, kept: nat, covered: seq<Interval>)
    requires cap >= 1 && Normal(gaps) && Normal(covered0)
    ensures Bill(total, kept) == SecondPhase(Bill(total0, kept0), gaps, cap, fs.tokensPerLine, |gaps|)
    ensures Normal(covered) && Lines(covered) == Lines(covered0) + Lines(gaps)
  {
    total, kept, covered := total0, kept0, covered0;
    assert NonEmpty(gaps);
    NoGaps(Bill(total0, kept0), gaps, cap, fs.tokensPerLine, Lines(covered0));
    hide *;
    for g := 0 to |gaps|
      invariant Bill(total, kept) == SecondPhase(Bill(total0, kept0), gaps, cap, fs.tokensPerLine, g)
      invariant Normal(covered) && Lines(covered) == Lines(covered0) + LinesTo(gaps, g)
    {
      NextGap(Bill(total0, kept0), gaps, cap, fs.tokensPerLine, Lines(covered0), g);
      total, kept, covered := FillGap(gaps[g], cap, fs, cfg, total, kept, covered);
    }
  }

  method FillGap(gap: Interval, cap: int, fs: FileStats, cfg: Config, total0: real, kept0: nat, covered0: seq<Interval>)
    returns (total: real, kept: nat, covered: seq<Interval>)
    requires cap >= 1 && gap.lo <= gap.hi && Normal(covered0)
    ensures Bill(total, kept) == ChargeGap(Bill(total0, kept0), gap, cap, fs.tokensPerLine)
    ensures Normal(covered) && Lines(covered) == Lines(covered0) + Span(gap)
  {
    var chunks := ChunkRange(gap.lo, gap.hi, cap);
    ChunksCover(gap.lo, gap.hi, cap);
    total, kept, covered := ChargeChunks(chunks, fs, cfg, total0, kept0, covered0);
    covered := Merge(covered);
    assert Interval(gap.lo, gap.hi) == gap;
  }

  method ReplayCalls(calls: seq<ReadCall>, fs: FileStats, cfg: Config)
    returns (total: real, kept: nat, covered: seq<Interval>, observed: seq<Interval>)
    ensures Bill(total, kept) == FirstPhase(calls, fs, cfg, |calls|)
    ensures Normal(covered) && Lines(covered) == Delivered(calls, fs, cfg, |calls|)
    ensures NonEmpty(observed) && Lines(observed) == Observed(calls, |calls|)
  {
    total, kept, covered, observed := 0.0, 0, [], [];
    for i := 0 to |calls|
      invariant Bill(total, kept) == FirstPhase(calls, fs, cfg, i)
      invariant Normal(covered) && Lines(covered) == Delivered(calls, fs, cfg, i)
      invariant NonEmpty(observed) && Lines(observed) == Observed(calls, i)
    {
      var rc := calls[i];
      if Footed(rc) {
        LinesPush(observed, Interval(rc.actualFrom.value, rc.actualTo.value));
        observed := observed + [Interval(rc.actualFrom.value, rc.actualTo.value)];
      }
      var ret := EffectiveReturned(rc, fs, cfg);
      if ret.None? {
        continue;
      }
      var held := Contained(ret.value.lo, ret.value.hi, covered);
      assert Interval(ret.value.lo, ret.value.hi) == ret.value;
      if held {
        continue;
      }
      total := total + CostOfChunk(ret.value, fs, rc.intent.Bare?, cfg);
      total := total + ROUNDTRIP_OVERHEAD;
      kept := kept + 1;
      LinesPush(covered, ret.value);
      covered := covered + [ret.value];
      covered := Merge(covered);
    }
  }

  /** What each observed interval lacks, in one list: the normal form of all that is missing. */
  method Gaps(observed: seq<Interval>, covered: seq<Interval>) returns (gaps: seq<Interval>)
    requires Normal(observed) && NonEmpty(covered)
    ensures Normal(gaps) && Lines(gaps) == Lines(observed) - Lines(covered)
  {
    gaps := [];
    for i := 0 to |observed|
      invariant Normal(gaps) && Lines(gaps) == LinesTo(observed, i) - Lines(covered)
      invariant forall k :: 0 <= k < |gaps| ==> i > 0 && gaps[k].hi <= observed[i - 1].hi
    {
      var left := Subtract(observed[i].lo, observed[i].hi, covered);
      PiecesInside(left, observed[i]);
      NormalJoin(gaps, left, observed[i].lo);
      gaps := gaps + left;
    }
  }

  lemma {:induction false} PiecesInside(pieces: seq<Interval>, v: Interval)
    requires NonEmpty(pieces) && Lines(pieces) <= Span(v)
    ensures forall k :: 0 <= k < |pieces| ==> v.lo <= pieces[k].lo && pieces[k].hi <= v.hi
  {
    forall k | 0 <= k < |pieces| ensures v.lo <= pieces[k].lo && pieces[k].hi <= v.hi {
      LinesHave(pieces, |pieces|, k, pieces[k].lo);
      LinesHave(pieces, |pieces|, k, pieces[k].hi);
    }
  }

  lemma {:induction false} NothingCharged(b: Bill, chunks: seq<Interval>, rate: real, before: set<int>)
    ensures b == Charge(b, TotalLength(chunks, 0), 0, rate) && before == before + LinesTo(chunks, 0)
    ensures Lines(chunks) == LinesTo(chunks, |chunks|)
  {
    assert Tokens(0, rate) == 0.0;
  }

  lemma {:induction false} ChunkCharged(b: Bill, chunks: seq<Interval>, fs: FileStats, cfg: Config, c: nat)
    requires NonEmpty(chunks) && c < |chunks|
    ensures TotalLength(chunks, c) >= 0 && TotalLength(chunks, c + 1) >= 0
    ensures var charged := Charge(b, TotalLength(chunks, c), c, fs.tokensPerLine);
            Charge(b, TotalLength(chunks, c + 1), c + 1, fs.tokensPerLine) ==
            Bill(charged.total + CostOfChunk(chunks[c], fs, false, cfg) + ROUNDTRIP_OVERHEAD, charged.kept + 1)
  {
    hide Tokens;
    TokensAdd(TotalLength(chunks, c), chunks[c].hi - chunks[c].lo + 1, fs.tokensPerLine);
  }

  lemma {:induction false} ChunkCovered(covered: seq<Interval>, chunks: seq<Interval>, before: set<int>, c: nat)
    requires NonEmpty(covered) && NonEmpty(chunks) && c < |chunks| && Lines(covered) == before + LinesTo(chunks, c)
    ensures NonEmpty(covered + [chunks[c]]) && Lines(covered + [chunks[c]]) == before + LinesTo(chunks, c + 1)
  {
    hide Span;
    LinesPush(covered, chunks[c]);
    UnionAssociates(before, LinesTo(chunks, c), Span(chunks[c]));
  }

  method ChargeChunks(chunks: seq<Interval>, fs: FileStats, cfg: Config, total0: real, kept0: nat, covered0: seq<Interval>)
    returns (total: real, kept: nat, covered: seq<Interval>)
    requires NonEmpty(chunks) && NonEmpty(covered0)
    ensures Bill(total, kept) == Charge(Bill(total0, kept0), TotalLength(chunks, |chunks|), |chunks|, fs.tokensPerLine)
    ensures NonEmpty(covered) && Lines(covered) == Lines(covered0) + Lines(chunks)
  {
    total, kept, covered := total0, kept0, covered0;
    NothingCharged(Bill(total0, kept0), chunks, fs.tokensPerLine, Lines(covered0));
    hide *;
    for c := 0 to |chunks|
      invariant Bill(total, kept) == Charge(Bill(total0, kept0), TotalLength(chunks, c), c, fs.tokensPerLine)
      invariant NonEmpty(covered) && Lines(covered) == Lines(covered0) + LinesTo(chunks, c)
    {
      ChunkCharged(Bill(total0, kept0), chunks, fs, cfg, c);
      total := total + CostOfChunk(chunks[c], fs, false, cfg);
      total := total + ROUNDTRIP_OVERHEAD;
      kept := kept + 1;
      ChunkCovered(covered, chunks, Lines(covered0), c);
      covered := covered + [chunks[c]];
    }
  }

  lemma {:induction false} ChunksCover(s: int, e: int, cap: int)
    requires cap >= 1 && s <= e + 1
    ensures var c := Chunks(s, e, cap);
            NonEmpty(c) && Lines(c) == Span(Interval(s, e)) && TotalLength(c, |c|) == e - s + 1
    decreases e - s + 1
  {
    hide *;
    if s > e {
      NoChunks(s, e, cap);
    } else {
      var end := if s + cap - 1 < e then s + cap - 1 else e;
      ChunksCover(end + 1, e, cap);
      FirstChunk(s, e, cap, end);
      OneMoreCovers(s, end, e, Chunks(end + 1, e, cap));
    }
  }

  lemma {:induction false} NoChunks(s: int, e: int, cap: int)
    requires cap >= 1 && s == e + 1
    ensures var c := Chunks(s, e, cap);
            NonEmpty(c) && Lines(c) == Span(Interval(s, e)) && TotalLength(c, |c|) == e - s + 1
  {
    assert Span(Interval(s, e)) == {};
  }

  lemma {:induction false} FirstChunk(s: int, e: int, cap: int, end: int)
    requires cap >= 1 && s <= e && end == if s + cap - 1 < e then s + cap - 1 else e
    ensures Chunks(s, e, cap) == [Interval(s, end)] + Chunks(end + 1, e, cap)
  {
  }

  lemma {:induction false} OneMoreCovers(s: int, end: int, e: int, rest: seq<Interval>)
    requires s <= end <= e && NonEmpty(rest) && Lines(rest) == Span(Interval(end + 1, e)) && TotalLength(rest, |rest|) == e - end
    ensures var c := [Interval(s, end)] + rest;
            NonEmpty(c) && Lines(c) == Span(Interval(s, e)) && TotalLength(c, |c|) == e - s + 1
  {
    LinesOfOne(Interval(s, end));
    LinesJoin([Interval(s, end)], rest, |rest|);
    LengthJoin(Interval(s, end), rest, |rest|);
    SpanSplits(s, end, e);
    hide Span, LinesTo, TotalLength;
  }

  lemma {:induction false} SpanSplits(s: int, end: int, e: int)
    requires s <= end <= e
    ensures Span(Interval(s, e)) == Span(Interval(s, end)) + Span(Interval(end + 1, e))
  {
  }

  lemma {:induction false} LengthJoin(v: Interval, rest: seq<Interval>, n: nat)
    requires n <= |rest| && v.lo <= v.hi && NonEmpty(rest)
    ensures TotalLength([v] + rest, n + 1) == v.hi - v.lo + 1 + TotalLength(rest, n)
  {
    if n > 0 {
      LengthJoin(v, rest, n - 1);
    }
  }
}
