/** Pairing tool results with their calls, and what they cost later requests (scripts/session-stats/audit.ts). */
module SessionScan {
  import opened Prelude
  import opened TopResults

  datatype Call = Call(id: string, name: string)

  /** A message of the session: an assistant request with its tool calls, or a tool result. */
  datatype Message = Request(calls: seq<Call>) | Result(callId: string, toolName: string, toks: nat)

  datatype PendingCall = PendingCall(name: string, requestIndex: nat)

  datatype LogEntry = LogEntry(tool: string, toks: nat, requestIndex: nat)

  // ---------------------------------------------------------------- which call a result answers

  /** Requests among the first `n` messages. */
  function Requests(ms: seq<Message>, n: nat): nat
    requires n <= |ms|
  {
    if n == 0 then 0 else Requests(ms, n - 1) + if ms[n - 1].Request? then 1 else 0
  }

  /** The last of the first `n` calls with this id. */
  function CallNamed(calls: seq<Call>, n: nat, id: string): Option<Call>
    requires n <= |calls|
  {
    if n == 0 then None else if calls[n - 1].id == id then Some(calls[n - 1]) else CallNamed(calls, n - 1, id)
  }

  /** The call that a result with this id answers after `n` messages: the latest one, unless it has been answered. */
  function OpenCall(ms: seq<Message>, n: nat, id: string): Option<PendingCall>
    requires n <= |ms|
  {
    if n == 0 then None
    else
      match ms[n - 1]
      case Result(callId, _, _) => if callId == id then None else OpenCall(ms, n - 1, id)
      case Request(calls) =>
        var call := CallNamed(calls, |calls|, id);
        if call.Some? then Some(PendingCall(call.value.name, Requests(ms, n))) else OpenCall(ms, n - 1, id)
  }

  function EntryOf(ms: seq<Message>, n: nat): LogEntry
    requires n < |ms| && ms[n].Result?
  {
    var call := OpenCall(ms, n, ms[n].callId);
    if call.Some? then LogEntry(call.value.name, ms[n].toks, call.value.requestIndex)
    else LogEntry(ms[n].toolName, ms[n].toks, Requests(ms, n))
  }

  /** The results among the first `n` messages, each with the request its call was made in. */
  function Log(ms: seq<Message>, n: nat): seq<LogEntry>
    requires n <= |ms|
  {
    if n == 0 then [] else if ms[n - 1].Result? then Log(ms, n - 1) + [EntryOf(ms, n - 1)] else Log(ms, n - 1)
  }

  lemma {:induction false} CallsAreMade(ms: seq<Message>, n: nat, id: string)
    requires n <= |ms|
    ensures OpenCall(ms, n, id).Some? ==> OpenCall(ms, n, id).value.requestIndex <= Requests(ms, n)
  {
    if n > 0 {
      CallsAreMade(ms, n - 1, id);
    }
  }

  /** No result is logged before its call's request. */
  lemma {:induction false} LogIndexes(ms: seq<Message>, n: nat)
    requires n <= |ms|
    ensures forall i :: 0 <= i < |Log(ms, n)| ==> Log(ms, n)[i].requestIndex <= Requests(ms, n)
  {
    if n > 0 {
      LogIndexes(ms, n - 1);
      if ms[n - 1].Result? {
        CallsAreMade(ms, n - 1, ms[n - 1].callId);
      }
    }
  }

  // ---------------------------------------------------------------- residency

  function Max(a: int, b: int): nat
    requires b >= 0
  {
    if a >= b then a else b
  }

  function Product(n: nat, toks: nat): nat {
    if n == 0 then 0 else Product(n - 1, toks) + toks
  }

  lemma {:induction false} ProductIs(n: nat, toks: nat)
    ensures Product(n, toks) == n * toks
  {
    if n > 0 {
      ProductIs(n - 1, toks);
    }
  }

  /** What the first `n` results of a tool add up to, each times the later requests. */
  function Weighted(log: seq<LogEntry>, n: nat, tool: string, requests: nat): nat
    requires n <= |log|
  {
    if n == 0 then 0
    else
      Weighted(log, n - 1, tool, requests) +
      if log[n - 1].tool == tool then Product(Max(requests - log[n - 1].requestIndex, 0), log[n - 1].toks) else 0
  }

  /** The result tokens of a tool that the context of one request carries: those of calls made in earlier requests. */
  function Carried(log: seq<LogEntry>, n: nat, tool: string, request: nat): nat
    requires n <= |log|
  {
    if n == 0 then 0
    else
      Carried(log, n - 1, tool, request) +
      if log[n - 1].tool == tool && log[n - 1].requestIndex < request then log[n - 1].toks else 0
  }

  /** ... summed over the first requests. */
  function CarriedTotal(log: seq<LogEntry>, n: nat, tool: string, requests: nat): nat
    requires n <= |log|
  {
    if requests == 0 then 0 else CarriedTotal(log, n, tool, requests - 1) + Carried(log, n, tool, requests)
  }

  lemma {:induction false} CarriedByOneMore(log: seq<LogEntry>, n: nat, tool: string, requests: nat)
    requires 0 < n <= |log|
    ensures CarriedTotal(log, n, tool, requests) ==
            CarriedTotal(log, n - 1, tool, requests) +
            if log[n - 1].tool == tool then Product(Max(requests - log[n - 1].requestIndex, 0), log[n - 1].toks) else 0
  {
    if requests > 0 {
      CarriedByOneMore(log, n, tool, requests - 1);
    }
  }

  lemma {:induction false} NothingCarried(log: seq<LogEntry>, tool: string, requests: nat)
    ensures CarriedTotal(log, 0, tool, requests) == 0
  {
    if requests > 0 {
      NothingCarried(log, tool, requests - 1);
    }
  }

  /** A tool's residency is the sum, over all requests, of the result tokens each had to pay for again. */
  lemma {:induction false} ResidencyIsRepaid(log: seq<LogEntry>, n: nat, tool: string, requests: nat)
    requires n <= |log|
    ensures Weighted(log, n, tool, requests) == CarriedTotal(log, n, tool, requests)
  {
    if n == 0 {
      NothingCarried(log, tool, requests);
    } else {
      ResidencyIsRepaid(log, n - 1, tool, requests);
      CarriedByOneMore(log, n, tool, requests);
    }
  }

  // ---------------------------------------------------------------- the scan

  function At(m: map<string, nat>, tool: string): nat {
    if tool in m then m[tool] else 0
  }

  function ResultsOf(log: seq<LogEntry>): seq<ToolResult> {
    if log == [] then [] else ResultsOf(log[..|log| - 1]) + [ToolResult(log[|log| - 1].tool, log[|log| - 1].toks)]
  }

  ghost predicate Tracks(pending: map<string, PendingCall>, ms: seq<Message>, n: nat)
    requires n <= |ms|
  {
    forall id: string :: OpenCall(ms, n, id) == Get(pending, id)
  }

  lemma {:induction false} TracksCalls(before: map<string, PendingCall>, pending: map<string, PendingCall>, ms: seq<Message>, i: nat)
    requires i < |ms| && ms[i].Request? && Tracks(before, ms, i)
    requires forall id ::
               var call := CallNamed(ms[i].calls, |ms[i].calls|, id);
               Get(pending, id) == if call.Some? then Some(PendingCall(call.value.name, Requests(ms, i) + 1)) else Get(before, id)
    ensures Tracks(pending, ms, i + 1)
  {
    forall id: string ensures OpenCall(ms, i + 1, id) == Get(pending, id) {
      assert OpenCall(ms, i, id) == Get(before, id);
    }
  }

  lemma {:induction false} TracksResult(pending: map<string, PendingCall>, ms: seq<Message>, i: nat)
    requires i < |ms| && ms[i].Result? && Tracks(pending, ms, i)
    ensures OpenCall(ms, i, ms[i].callId) == Get(pending, ms[i].callId)
    ensures Tracks(map id | id in pending && id != ms[i].callId :: pending[id], ms, i + 1)
  {
    assert OpenCall(ms, i, ms[i].callId) == Get(pending, ms[i].callId);
    var left := map id | id in pending && id != ms[i].callId :: pending[id];
    forall id: string ensures OpenCall(ms, i + 1, id) == Get(left, id) {
      assert OpenCall(ms, i, id) == Get(pending, id);
    }
  }

  lemma {:induction false} RequestCounted(ms: seq<Message>, i: nat)
    requires i < |ms| && ms[i].Request?
    ensures Requests(ms, i + 1) == Requests(ms, i) + 1 && Log(ms, i + 1) == Log(ms, i)
  {
  }

  lemma {:induction false} ResultLogged(pending: map<string, PendingCall>, ms: seq<Message>, i: nat)
    requires i < |ms| && ms[i].Result? && Tracks(pending, ms, i)
    ensures var id := ms[i].callId;
            var entry := if id in pending then LogEntry(pending[id].name, ms[i].toks, pending[id].requestIndex)
                         else LogEntry(ms[i].toolName, ms[i].toks, Requests(ms, i));
            Requests(ms, i + 1) == Requests(ms, i) && Log(ms, i + 1) == Log(ms, i) + [entry]
  {
    assert OpenCall(ms, i, ms[i].callId) == Get(pending, ms[i].callId);
  }

  /** `scanFile`: residency by tool, and the largest results. */
  method ScanFile(ms: seq<Message>) returns (residency: map<string, nat>, topResults: seq<ToolResult>)
    ensures forall tool :: At(residency, tool) == CarriedTotal(Log(ms, |ms|), |Log(ms, |ms|)|, tool, Requests(ms, |ms|))
    ensures topResults == Top(Large(ResultsOf(Log(ms, |ms|))), KEPT)
  {
    var pending: map<string, PendingCall> := map[];
    var resultLog: seq<LogEntry> := [];
    var requestCount := 0;
    var buffer := new TopBuffer();
    ghost var large: seq<ToolResult> := [];
    assert Tracks(pending, ms, 0) && large == Large(ResultsOf(resultLog));
    hide *;
    for i := 0 to |ms|
      invariant fresh(buffer) && buffer.StandsFor(large) && large == Large(ResultsOf(resultLog))
      invariant requestCount == Requests(ms, i) && resultLog == Log(ms, i) && Tracks(pending, ms, i)
    {
      match ms[i]
      case Request(calls) =>
        requestCount := requestCount + 1;
        ghost var before := pending;
        pending := AddCalls(pending, calls, requestCount);
        RequestCounted(ms, i);
        TracksCalls(before, pending, ms, i);
      case Result(callId, toolName, toks) =>
        var entry :=
          if callId in pending then LogEntry(pending[callId].name, toks, pending[callId].requestIndex)
          else LogEntry(toolName, toks, requestCount);
        ResultLogged(pending, ms, i);
        LargeOfPush(resultLog, entry);
        resultLog := resultLog + [entry];
        buffer.Push(ToolResult(entry.tool, toks), large);
        large := Large(ResultsOf(resultLog));
        TracksResult(pending, ms, i);
        pending := map id | id in pending && id != callId :: pending[id];
    }
    residency := Reside(resultLog, requestCount);
    buffer.Finish(large);
    topResults := buffer.topResults;
  }

  lemma {:induction false} LargeOfPush(log: seq<LogEntry>, entry: LogEntry)
    ensures var large, r := Large(ResultsOf(log)), ToolResult(entry.tool, entry.toks);
            Large(ResultsOf(log + [entry])) == if r.toks > THRESHOLD then large + [r] else large
  {
    var results := ResultsOf(log) + [ToolResult(entry.tool, entry.toks)];
    assert (log + [entry])[..|log|] == log;
    assert results[..|results| - 1] == ResultsOf(log);
  }

  function Get(pending: map<string, PendingCall>, id: string): Option<PendingCall> {
    if id in pending then Some(pending[id]) else None
  }

  method AddCalls(pending0: map<string, PendingCall>, calls: seq<Call>, requestIndex: nat) returns (pending: map<string, PendingCall>)
    ensures forall id ::
              var call := CallNamed(calls, |calls|, id);
              Get(pending, id) == if call.Some? then Some(PendingCall(call.value.name, requestIndex)) else Get(pending0, id)
  {
    pending := pending0;
    for j := 0 to |calls|
      invariant forall id ::
                  var call := CallNamed(calls, j, id);
                  Get(pending, id) == if call.Some? then Some(PendingCall(call.value.name, requestIndex)) else Get(pending0, id)
    {
      pending := pending[calls[j].id := PendingCall(calls[j].name, requestIndex)];
    }
  }

  method Reside(log: seq<LogEntry>, requestCount: nat) returns (residency: map<string, nat>)
    ensures forall tool :: At(residency, tool) == CarriedTotal(log, |log|, tool, requestCount)
  {
    residency := map[];
    for i := 0 to |log|
      invariant forall tool :: At(residency, tool) == Weighted(log, i, tool, requestCount)
    {
      var r := log[i];
      var later := Max(requestCount - r.requestIndex, 0);
      ProductIs(later, r.toks);
      residency := residency[r.tool := At(residency, r.tool) + r.toks * later];
    }
    forall tool ensures At(residency, tool) == CarriedTotal(log, |log|, tool, requestCount) {
      ResidencyIsRepaid(log, |log|, tool, requestCount);
    }
  }
}
