/** Which call each logged result answers, and which results are large (scripts/session-stats/audit.ts). */
module SessionLog {
  import opened Prelude
  import opened TopResults
  import opened SessionScan

  // ---------------------------------------------------------------- calls and their results

  predicate Mentions(m: Message, id: string) {
    match m
    case Result(callId, _, _) => callId == id
    case Request(calls) => exists d :: 0 <= d < |calls| && calls[d].id == id
  }

  /** Call `c` of the request at `j` has this id, and no message between it and `i` has anything to do with the id. */
  predicate Opened(ms: seq<Message>, i: nat, id: string, j: nat, c: nat) {
    && j < i <= |ms| && ms[j].Request? && c < |ms[j].calls| && ms[j].calls[c].id == id
    && (forall d :: c < d < |ms[j].calls| ==> ms[j].calls[d].id != id)
    && (forall m :: j < m < i ==> !Mentions(ms[m], id))
  }

  /** The result at `i` answers call `c` of the request at `j`. */
  predicate Answers(ms: seq<Message>, i: nat, j: nat, c: nat) {
    i < |ms| && ms[i].Result? && Opened(ms, i, ms[i].callId, j, c)
  }

  lemma {:induction false} LastNamed(calls: seq<Call>, n: nat, id: string, c: nat)
    requires c < n <= |calls| && calls[c].id == id && forall d :: c < d < n ==> calls[d].id != id
    ensures CallNamed(calls, n, id) == Some(calls[c])
  {
    if c < n - 1 {
      LastNamed(calls, n - 1, id, c);
    }
  }

  lemma {:induction false} NamedAt(calls: seq<Call>, n: nat, id: string) returns (c: nat)
    requires n <= |calls| && CallNamed(calls, n, id).Some?
    ensures c < n && calls[c].id == id && CallNamed(calls, n, id) == Some(calls[c])
    ensures forall d :: c < d < n ==> calls[d].id != id
  {
    if calls[n - 1].id == id {
      c := n - 1;
    } else {
      c := NamedAt(calls, n - 1, id);
    }
  }

  lemma {:induction false} NoneNamed(calls: seq<Call>, n: nat, id: string)
    requires n <= |calls| && forall d :: 0 <= d < n ==> calls[d].id != id
    ensures CallNamed(calls, n, id) == None
  {
    if n > 0 {
      NoneNamed(calls, n - 1, id);
    }
  }

  lemma {:induction false} OpenedIsOpen(ms: seq<Message>, i: nat, id: string, j: nat, c: nat)
    requires Opened(ms, i, id, j, c)
    ensures OpenCall(ms, i, id) == Some(PendingCall(ms[j].calls[c].name, Requests(ms, j + 1)))
  {
    if j == i - 1 {
      LastNamed(ms[j].calls, |ms[j].calls|, id, c);
    } else {
      assert !Mentions(ms[i - 1], id);
      if ms[i - 1].Request? {
        NoneNamed(ms[i - 1].calls, |ms[i - 1].calls|, id);
      }
      OpenedIsOpen(ms, i - 1, id, j, c);
    }
  }

  lemma {:induction false} OpenIsOpened(ms: seq<Message>, i: nat, id: string) returns (j: nat, c: nat)
    requires i <= |ms| && OpenCall(ms, i, id).Some?
    ensures Opened(ms, i, id, j, c)
  {
    if ms[i - 1].Request? && CallNamed(ms[i - 1].calls, |ms[i - 1].calls|, id).Some? {
      j := i - 1;
      c := NamedAt(ms[j].calls, |ms[j].calls|, id);
    } else {
      j, c := OpenIsOpened(ms, i - 1, id);
      if Mentions(ms[i - 1], id) && ms[i - 1].Request? {
        NotNamed(ms[i - 1].calls, id);
      }
    }
  }

  lemma {:induction false} NotNamed(calls: seq<Call>, id: string)
    requires exists d :: 0 <= d < |calls| && calls[d].id == id
    ensures CallNamed(calls, |calls|, id).Some?
  {
    if CallNamed(calls, |calls|, id) == None {
      var d :| 0 <= d < |calls| && calls[d].id == id;
      NamedIfPresent(calls, |calls|, id, d);
    }
  }

  lemma {:induction false} NamedIfPresent(calls: seq<Call>, n: nat, id: string, d: nat)
    requires d < n <= |calls| && calls[d].id == id
    ensures CallNamed(calls, n, id).Some?
  {
    if calls[n - 1].id != id {
      NamedIfPresent(calls, n - 1, id, d);
    }
  }

  // ---------------------------------------------------------------- the log

  /** Results among the first `n` messages. */
  function Results(ms: seq<Message>, n: nat): nat
    requires n <= |ms|
  {
    if n == 0 then 0 else Results(ms, n - 1) + if ms[n - 1].Result? then 1 else 0
  }

  lemma {:induction false} LogAt(ms: seq<Message>, n: nat, i: nat)
    requires n <= |ms|
    ensures |Log(ms, n)| == Results(ms, n)
    ensures i < n && ms[i].Result? ==> Results(ms, i) < |Log(ms, n)| && Log(ms, n)[Results(ms, i)] == EntryOf(ms, i)
  {
    hide EntryOf;
    if n > 0 {
      LogAt(ms, n - 1, i);
      if i == n - 1 {
        LogAt(ms, i, i);
      }
    }
  }

  /**
   Every result is logged once, in order: under the name and the request of the call it answers, and if it answers none,
   under its own name and the requests made so far.
   */
  lemma {:induction false} LoggedAs(ms: seq<Message>, i: nat)
    requires i < |ms| && ms[i].Result?
    ensures |Log(ms, |ms|)| == Results(ms, |ms|) && Results(ms, i) < |Log(ms, |ms|)|
    ensures var entry := Log(ms, |ms|)[Results(ms, i)];
            && entry.toks == ms[i].toks
            && |ResultsOf(Log(ms, |ms|))| == |Log(ms, |ms|)| && ResultsOf(Log(ms, |ms|))[Results(ms, i)] == ToolResult(entry.tool, entry.toks)
            && (forall j: nat, c: nat :: Answers(ms, i, j, c) ==> entry.tool == ms[j].calls[c].name && entry.requestIndex == Requests(ms, j + 1))
            && ((forall j: nat, c: nat :: !Answers(ms, i, j, c)) ==> entry.tool == ms[i].toolName && entry.requestIndex == Requests(ms, i))
  {
    LogAt(ms, |ms|, i);
    ResultAt(Log(ms, |ms|), Results(ms, i));
    var id := ms[i].callId;
    forall j: nat, c: nat | Answers(ms, i, j, c) ensures OpenCall(ms, i, id) == Some(PendingCall(ms[j].calls[c].name, Requests(ms, j + 1))) {
      OpenedIsOpen(ms, i, id, j, c);
    }
    if OpenCall(ms, i, id).Some? {
      var j, c := OpenIsOpened(ms, i, id);
      assert Answers(ms, i, j, c);
    }
  }

  // ---------------------------------------------------------------- large results

  /** The results over the threshold are kept, each as often as it occurs, and no others. */
  lemma {:induction false} LargeExactly(results: seq<ToolResult>, r: ToolResult)
    ensures multiset(Large(results))[r] == if r.toks > THRESHOLD then multiset(results)[r] else 0
  {
    if results != [] {
      var n := |results| - 1;
      LargeExactly(results[..n], r);
      assert results == results[..n] + [results[n]];
    }
  }

  lemma {:induction false} ResultAt(log: seq<LogEntry>, i: nat)
    requires i < |log|
    ensures |ResultsOf(log)| == |log| && ResultsOf(log)[i] == ToolResult(log[i].tool, log[i].toks)
  {
    var n := |log| - 1;
    if n > 0 {
      ResultAt(log[..n], if i < n then i else 0);
    } else {
      assert log[..n] == [];
    }
  }
}
