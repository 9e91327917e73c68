/** The bounded buffer of the largest tool results (scripts/session-stats/audit.ts). */
module TopResults {
  import opened StableSort

  datatype ToolResult = ToolResult(tool: string, toks: nat)

  /** Larger results first. */
  function Larger(): (ToolResult, ToolResult) -> bool {
    (x: ToolResult, y: ToolResult) => x.toks >= y.toks
  }

  function Take<T>(s: seq<T>, k: nat): seq<T> {
    if |s| <= k then s else s[..k]
  }

  /** The `k` largest results, larger ones first and earlier ones first among equals. */
  function Top(s: seq<ToolResult>, k: nat): seq<ToolResult> {
    Take(Sort(s, Larger()), k)
  }

  // ---------------------------------------------------------------- inserting many

  /** Insert the elements of `s`, the last one first. */
  function InsertAll<T>(s: seq<T>, base: seq<T>, le: (T, T) -> bool): seq<T> {
    if s == [] then base else Insert(s[0], InsertAll(s[1..], base, le), le)
  }

  lemma {:induction false} SortJoin<T>(s: seq<T>, t: seq<T>, le: (T, T) -> bool)
    ensures Sort(s + t, le) == InsertAll(s, Sort(t, le), le)
  {
    if s == [] {
      assert s + t == t;
    } else {
      SortJoin(s[1..], t, le);
      assert (s + t)[1..] == s[1..] + t;
    }
  }

  /** Elements that do not compare equal may be inserted in either order. */
  lemma {:induction false} InsertSwap<T(!new)>(x: T, y: T, s: seq<T>, le: (T, T) -> bool)
    requires TotalPreorder(le) && !le(x, y)
    ensures Insert(x, Insert(y, s, le), le) == Insert(y, Insert(x, s, le), le)
  {
    if s != [] && !le(y, s[0]) {
      InsertSwap(x, y, s[1..], le);
      assert Insert(y, s, le)[1..] == Insert(y, s[1..], le);
      assert !le(x, s[0]);
      assert Insert(x, s, le)[1..] == Insert(x, s[1..], le);
    } else {
      assert ([y] + s)[1..] == s;
      if s != [] && !le(x, s[0]) {
        assert Insert(x, s, le)[0] == s[0];
      }
    }
  }

  lemma {:induction false} InsertAllOfInsert<T(!new)>(x: T, s: seq<T>, base: seq<T>, le: (T, T) -> bool)
    requires TotalPreorder(le)
    ensures InsertAll(Insert(x, s, le), base, le) == Insert(x, InsertAll(s, base, le), le)
  {
    if s == [] || le(x, s[0]) {
      assert ([x] + s)[1..] == s;
    } else {
      InsertAllOfInsert(x, s[1..], base, le);
      assert Insert(x, s, le)[1..] == Insert(x, s[1..], le);
      InsertSwap(x, s[0], InsertAll(s[1..], base, le), le);
    }
  }

  /** Inserting the sorted elements is inserting the elements. */
  lemma {:induction false} InsertAllSorted<T(!new)>(s: seq<T>, base: seq<T>, le: (T, T) -> bool)
    requires TotalPreorder(le)
    ensures InsertAll(Sort(s, le), base, le) == InsertAll(s, base, le)
  {
    if s != [] {
      InsertAllSorted(s[1..], base, le);
      InsertAllOfInsert(s[0], Sort(s[1..], le), base, le);
    }
  }

  // ---------------------------------------------------------------- what truncation forgets

  /** `longer` is `s` with `y` at `p`. */
  predicate WithAt<T(==)>(longer: seq<T>, s: seq<T>, y: T, p: nat) {
    p <= |s| && longer == s[..p] + [y] + s[p..]
  }

  lemma {:induction false} InsertOrdered<T(!new)>(x: T, s: seq<T>, le: (T, T) -> bool)
    requires TotalPreorder(le) && Ordered(s, le)
    ensures Ordered(Insert(x, s, le), le)
  {
    InsertSorts(x, s, le);
  }

  /** Where an element is inserted. */
  lemma {:induction false} InsertAt<T(!new)>(x: T, s: seq<T>, le: (T, T) -> bool) returns (p: nat)
    ensures WithAt(Insert(x, s, le), s, x, p)
    ensures (forall i :: 0 <= i < p ==> !le(x, s[i])) && (p < |s| ==> le(x, s[p]))
  {
    if s == [] || le(x, s[0]) {
      p := 0;
    } else {
      p := InsertAt(x, s[1..], le);
      var r := Insert(x, s[1..], le);
      assert [s[0]] + r == s[..p + 1] + [x] + s[p + 1..];
      p := p + 1;
    }
  }

  lemma {:induction false} InsertUnique<T>(x: T, s: seq<T>, le: (T, T) -> bool, p: nat)
    requires p <= |s| && (forall i :: 0 <= i < p ==> !le(x, s[i])) && (p < |s| ==> le(x, s[p]))
    ensures Insert(x, s, le) == s[..p] + [x] + s[p..] && WithAt(Insert(x, s, le), s, x, p)
  {
    if p > 0 {
      InsertUnique(x, s[1..], le, p - 1);
      assert s[1..][..p - 1] == s[1..p] && s[1..][p - 1..] == s[p..];
      assert [s[0]] + (s[1..p] + [x] + s[p..]) == s[..p] + [x] + s[p..];
    }
  }

  /** What is inserted before `y` moves it one place on and is otherwise inserted as without it. */
  lemma {:induction false} InsertBefore<T(!new)>(x: T, y: T, longer: seq<T>, s: seq<T>, p: nat, le: (T, T) -> bool)
    requires TotalPreorder(le) && WithAt(longer, s, y, p) && Ordered(longer, le) && le(x, y)
    ensures WithAt(Insert(x, longer, le), Insert(x, s, le), y, p + 1)
  {
    var q := InsertAt(x, longer, le);
    assert longer[p] == y;
    assert q <= p;
    forall i | 0 <= i < q ensures !le(x, s[i]) {
      assert longer[i] == s[i];
    }
    if q < |s| {
      if q < p {
        assert longer[q] == s[q];
      } else {
        OrderedFrom(longer, le, p, p + 1);
        assert longer[p + 1] == s[p];
        assert le(x, s[q]);
      }
    }
    InsertUnique(x, s, le, q);
    hide *;
    MovedOn(Insert(x, longer, le), longer, Insert(x, s, le), s, x, y, q, p);
  }

  lemma {:induction false} MovedOn<T>(after: seq<T>, longer: seq<T>, more: seq<T>, s: seq<T>, x: T, y: T, q: nat, p: nat)
    requires q <= p && WithAt(longer, s, y, p) && WithAt(after, longer, x, q) && WithAt(more, s, x, q)
    ensures WithAt(after, more, y, p + 1)
  {
    assert longer[..q] == s[..q] && longer[q..] == s[q..p] + [y] + s[p..];
    assert more[..p + 1] == s[..q] + [x] + s[q..p] && more[p + 1..] == s[p..];
  }

  lemma {:induction false} InsertAllOrdered<T(!new)>(s: seq<T>, base: seq<T>, le: (T, T) -> bool)
    requires TotalPreorder(le) && Ordered(base, le)
    ensures Ordered(InsertAll(s, base, le), le) && |InsertAll(s, base, le)| == |s| + |base|
  {
    if s != [] {
      InsertAllOrdered(s[1..], base, le);
      InsertOrdered(s[0], InsertAll(s[1..], base, le), le);
      var p := InsertAt(s[0], InsertAll(s[1..], base, le), le);
    }
  }

  /** An element that follows all of `s` stands behind as many elements. */
  lemma {:induction false} BehindAll<T(!new)>(s: seq<T>, y: T, base: seq<T>, le: (T, T) -> bool) returns (p: nat)
    requires TotalPreorder(le) && Ordered(base, le) && forall i :: 0 <= i < |s| ==> le(s[i], y)
    ensures p >= |s| && WithAt(InsertAll(s, Insert(y, base, le), le), InsertAll(s, base, le), y, p)
  {
    if s == [] {
      p := InsertAt(y, base, le);
    } else {
      p := BehindAll(s[1..], y, base, le);
      InsertOrdered(y, base, le);
      InsertAllOrdered(s[1..], Insert(y, base, le), le);
      InsertBefore(s[0], y, InsertAll(s[1..], Insert(y, base, le), le), InsertAll(s[1..], base, le), p, le);
      p := p + 1;
    }
  }

  lemma {:induction false} InsertAllJoin<T>(a: seq<T>, b: seq<T>, base: seq<T>, le: (T, T) -> bool)
    ensures InsertAll(a + b, base, le) == InsertAll(a, InsertAll(b, base, le), le)
  {
    if a == [] {
      assert a + b == b;
    } else {
      InsertAllJoin(a[1..], b, base, le);
      assert (a + b)[1..] == a[1..] + b;
    }
  }

  /** The elements of an ordered list behind its first `k` do not show among the first `k` of anything it goes into. */
  lemma {:induction false} TailForgotten<T(!new)>(u: seq<T>, v: seq<T>, base: seq<T>, le: (T, T) -> bool)
    requires TotalPreorder(le) && Ordered(base, le)
    requires forall i, j :: 0 <= i < |u| && 0 <= j < |v| ==> le(u[i], v[j])
    ensures Take(InsertAll(u, InsertAll(v, base, le), le), |u|) == Take(InsertAll(u, base, le), |u|)
  {
    InsertAllOrdered(u, base, le);
    if v != [] {
      var rest := InsertAll(v[1..], base, le);
      InsertAllOrdered(v[1..], base, le);
      var p := BehindAll(u, v[0], rest, le);
      TailForgotten(u, v[1..], base, le);
      InsertAllOrdered(u, rest, le);
      assert InsertAll(v, base, le) == Insert(v[0], rest, le);
      var longer, shorter := InsertAll(u, Insert(v[0], rest, le), le), InsertAll(u, rest, le);
      assert longer[..|u|] == shorter[..|u|];
    }
  }

  /** Sorting and truncating early loses nothing: later results find the same `k` largest. */
  lemma {:induction false} TopOfTruncated(s: seq<ToolResult>, t: seq<ToolResult>, k: nat)
    ensures Top(Top(s, k) + t, k) == Top(s + t, k)
  {
    hide Sort, InsertAll, Ordered;
    var le, sorted, base := Larger(), Sort(s, Larger()), Sort(t, Larger());
    SortSorts(s, le);
    SortSorts(t, le);
    SortJoin(s, t, le);
    SortJoin(Top(s, k), t, le);
    InsertAllSorted(s, base, le);
    if |sorted| > k {
      var u, v := sorted[..k], sorted[k..];
      forall i, j | 0 <= i < |u| && 0 <= j < |v| ensures le(u[i], v[j]) {
        OrderedFrom(sorted, le, i, k + j);
      }
      assert sorted == u + v;
      InsertAllJoin(u, v, base, le);
      TailForgotten(u, v, base, le);
    }
  }

  lemma {:induction false} SortedDescends(s: seq<ToolResult>)
    ensures var sorted := Sort(s, Larger());
            && |sorted| == |s| && multiset(sorted) == multiset(s)
            && forall i, j :: 0 <= i < j < |sorted| ==> sorted[i].toks >= sorted[j].toks
  {
    var sorted := Sort(s, Larger());
    SortSorts(s, Larger());
    assert |multiset(sorted)| == |sorted| && |multiset(s)| == |s|;
    forall i, j | 0 <= i < j < |sorted| ensures sorted[i].toks >= sorted[j].toks {
      OrderedFrom(sorted, Larger(), i, j);
    }
  }

  /** The others are none larger than any of the `k`. */
  lemma {:induction false} TopIsLargest(s: seq<ToolResult>, k: nat) returns (others: seq<ToolResult>)
    ensures multiset(Top(s, k)) + multiset(others) == multiset(s)
    ensures |Top(s, k)| == if |s| <= k then |s| else k
    ensures forall i, j :: 0 <= i < |Top(s, k)| && 0 <= j < |others| ==> Top(s, k)[i].toks >= others[j].toks
    ensures forall i, j :: 0 <= i < j < |Top(s, k)| ==> Top(s, k)[i].toks >= Top(s, k)[j].toks
  {
    hide Sort;
    var sorted, top := Sort(s, Larger()), Top(s, k);
    SortedDescends(s);
    others := if |sorted| <= k then [] else sorted[k..];
    assert sorted == top + others;
    forall i, j | 0 <= i < |top| && 0 <= j < |others| ensures top[i].toks >= others[j].toks {
      assert top[i] == sorted[i] && others[j] == sorted[|top| + j];
    }
  }

  // ---------------------------------------------------------------- the buffer

  const KEPT := 12
  const LIMIT := 24
  const THRESHOLD := 2000

  function Large(results: seq<ToolResult>): seq<ToolResult> {
    if results == [] then []
    else if results[|results| - 1].toks > THRESHOLD then Large(results[..|results| - 1]) + [results[|results| - 1]]
    else Large(results[..|results| - 1])
  }

  /** `topResults` of `scanFile`. */
  class TopBuffer {
    var topResults: seq<ToolResult>

    constructor ()
      ensures topResults == []
    {
      topResults := [];
    }

    /** The buffer stands for `all` large results so far: whatever comes, it will end as they would. */
    ghost predicate StandsFor(all: seq<ToolResult>)
      reads this
    {
      |topResults| <= LIMIT && forall t: seq<ToolResult> :: Top(topResults + t, KEPT) == Top(all + t, KEPT)
    }

    method Push(r: ToolResult, ghost all: seq<ToolResult>)
      requires StandsFor(all)
      modifies this
      ensures StandsFor(if r.toks > THRESHOLD then all + [r] else all)
    {
      if r.toks > THRESHOLD {
        ghost var was := topResults;
        topResults := topResults + [r];
        forall t: seq<ToolResult> ensures Top(topResults + t, KEPT) == Top((all + [r]) + t, KEPT) {
          assert topResults + t == was + ([r] + t) && (all + [r]) + t == all + ([r] + t);
        }
        if |topResults| > LIMIT {
          ghost var full := topResults;
          topResults := Sort(topResults, Larger());
          topResults := if |topResults| <= KEPT then topResults else topResults[..KEPT];
          forall t: seq<ToolResult> ensures Top(topResults + t, KEPT) == Top((all + [r]) + t, KEPT) {
            TopOfTruncated(full, t, KEPT);
          }
        }
      }
    }

    /** What is reported: exactly the twelve largest of all, in order. */
    method Finish(ghost all: seq<ToolResult>)
      requires StandsFor(all)
      modifies this
      ensures topResults == Top(all, KEPT)
    {
      assert topResults + [] == topResults && all + [] == all;
      topResults := Sort(topResults, Larger());
      topResults := if |topResults| <= KEPT then topResults else topResults[..KEPT];
    }
  }
}
