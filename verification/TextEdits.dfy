/** Applying substitution edits to the text of a node, right to left. */
module TextEdits {
  /** A replacement of `source[start..end]`, in absolute positions. */
  datatype Edit = Edit(start: nat, end: nat, text: string)

  predicate NoneEmpty(edits: seq<Edit>) {
    forall i :: 0 <= i < |edits| ==> edits[i].start < edits[i].end
  }

  /** No edit that ends by `hi` starts in the stretch. */
  predicate Clear(edits: seq<Edit>, lo: nat, mid: nat, hi: nat) {
    forall i :: 0 <= i < |edits| && edits[i].end <= hi ==> !(lo <= edits[i].start < mid)
  }

  /** Edits replace identifiers: none is empty, and no two overlap. */
  predicate Separate(edits: seq<Edit>) {
    NoneEmpty(edits) && forall i, j :: 0 <= i < j < |edits| ==> edits[i].end <= edits[j].start || edits[j].end <= edits[i].start
  }

  predicate Within(e: Edit, lo: nat, hi: nat) {
    lo <= e.start && e.end <= hi
  }

  // ---------------------------------------------------------------- simultaneous substitution

  /** The first edit from index `k` on that starts at `at` and ends by `hi`, or the number of edits. */
  function EditFrom(edits: seq<Edit>, k: nat, at: nat, hi: nat): (i: nat)
    requires k <= |edits|
    ensures k <= i <= |edits|
    ensures i < |edits| ==> edits[i].start == at && edits[i].end <= hi
    ensures forall j :: k <= j < i ==> !(edits[j].start == at && edits[j].end <= hi)
    decreases |edits| - k
  {
    if k == |edits| || (edits[k].start == at && edits[k].end <= hi) then k else EditFrom(edits, k + 1, at, hi)
  }

  function EditAt(edits: seq<Edit>, at: nat, hi: nat): nat {
    EditFrom(edits, 0, at, hi)
  }

  /** `source[lo..hi]` with every edit inside it replaced at once. */
  function Substituted(source: string, edits: seq<Edit>, lo: nat, hi: nat): string
    requires lo <= hi <= |source| && NoneEmpty(edits)
    decreases hi - lo
  {
    if lo == hi then []
    else
      var i := EditAt(edits, lo, hi);
      if i < |edits| then edits[i].text + Substituted(source, edits, edits[i].end, hi)
      else [source[lo]] + Substituted(source, edits, lo + 1, hi)
  }

  /** A stretch without edits is copied. */
  lemma {:induction false} CopiedStretch(source: string, edits: seq<Edit>, lo: nat, mid: nat, hi: nat)
    requires lo <= mid <= hi <= |source| && NoneEmpty(edits) && Clear(edits, lo, mid, hi)
    ensures Substituted(source, edits, lo, hi) == source[lo..mid] + Substituted(source, edits, mid, hi)
    decreases mid - lo
  {
    if lo < mid {
      CopiedStretch(source, edits, lo + 1, mid, hi);
      HeadAndRest(source, lo, mid);
    } else {
      assert source[lo..mid] == [];
    }
  }

  lemma {:induction false} HeadAndRest(source: string, lo: nat, mid: nat)
    requires lo < mid <= |source|
    ensures source[lo..mid] == [source[lo]] + source[lo + 1..mid]
  {
  }

  lemma {:induction false} SameEditAt(edits: seq<Edit>, lo: nat, mid: nat, hi: nat)
    requires mid <= hi && EditAt(edits, lo, hi) < |edits| && edits[EditAt(edits, lo, hi)].end <= mid
    ensures EditAt(edits, lo, mid) == EditAt(edits, lo, hi)
  {
  }

  lemma {:induction false} EditInside(edits: seq<Edit>, lo: nat, hi: nat)
    ensures var i := EditAt(edits, lo, hi);
            i <= |edits| && (i < |edits| ==> edits[i].start == lo && edits[i].end <= hi)
  {
  }

  lemma {:induction false} EmptyPiece(source: string, edits: seq<Edit>, lo: nat)
    requires lo <= |source| && NoneEmpty(edits)
    ensures Substituted(source, edits, lo, lo) == []
  {
  }

  lemma {:induction false} ReplacedAt(source: string, edits: seq<Edit>, lo: nat, mid: nat, hi: nat)
    requires lo < mid <= hi <= |source| && NoneEmpty(edits)
    requires EditAt(edits, lo, hi) < |edits| && EditAt(edits, lo, mid) == EditAt(edits, lo, hi)
    ensures var e := edits[EditAt(edits, lo, hi)];
            && lo == e.start < e.end <= mid
            && Substituted(source, edits, lo, hi) == e.text + Substituted(source, edits, e.end, hi)
            && Substituted(source, edits, lo, mid) == e.text + Substituted(source, edits, e.end, mid)
  {
  }

  lemma {:induction false} CopiedAt(source: string, edits: seq<Edit>, lo: nat, mid: nat, hi: nat)
    requires lo < mid <= hi <= |source| && NoneEmpty(edits) && EditAt(edits, lo, hi) == |edits|
    ensures Substituted(source, edits, lo, hi) == [source[lo]] + Substituted(source, edits, lo + 1, hi)
    ensures Substituted(source, edits, lo, mid) == [source[lo]] + Substituted(source, edits, lo + 1, mid)
  {
    assert EditAt(edits, lo, mid) == |edits|;
  }

  /** Substitution distributes over adjacent pieces that no edit straddles. */
  lemma {:induction false} Distributes(source: string, edits: seq<Edit>, lo: nat, mid: nat, hi: nat)
    requires lo <= mid <= hi <= |source| && Separate(edits)
    requires forall i :: 0 <= i < |edits| && Within(edits[i], lo, hi) ==> edits[i].end <= mid || mid <= edits[i].start
    ensures Substituted(source, edits, lo, hi) ==
            Substituted(source, edits, lo, mid) + Substituted(source, edits, mid, hi)
    decreases hi - lo
  {
    hide Substituted, EditAt;
    if lo == mid {
      EmptyPiece(source, edits, lo);
    } else {
      var i := EditAt(edits, lo, hi);
      if i < |edits| {
        EditInside(edits, lo, hi);
        assert Within(edits[i], lo, hi);
        SameEditAt(edits, lo, mid, hi);
        ReplacedAt(source, edits, lo, mid, hi);
        Distributes(source, edits, edits[i].end, mid, hi);
      } else {
        EditInside(edits, lo, hi);
        CopiedAt(source, edits, lo, mid, hi);
        Distributes(source, edits, lo + 1, mid, hi);
      }
    }
  }

  // ---------------------------------------------------------------- right to left

  function Local(edits: seq<Edit>, lo: nat, hi: nat): seq<Edit> {
    if edits == [] then []
    else (if Within(edits[0], lo, hi) then [edits[0]] else []) + Local(edits[1..], lo, hi)
  }

  /** `sort((a, b) => b.start - a.start)` */
  function SortDescending(edits: seq<Edit>): seq<Edit> {
    if edits == [] then [] else Insert(edits[0], SortDescending(edits[1..]))
  }

  function Insert(e: Edit, sorted: seq<Edit>): seq<Edit> {
    if sorted == [] || e.start >= sorted[0].start then [e] + sorted else [sorted[0]] + Insert(e, sorted[1..])
  }

  predicate Descending(edits: seq<Edit>) {
    |edits| <= 1 || (edits[0].start >= edits[1].start && Descending(edits[1..]))
  }

  lemma {:induction false} DescendingAll(edits: seq<Edit>, i: nat, j: nat)
    requires Descending(edits) && i < j < |edits|
    ensures edits[i].start >= edits[j].start
  {
    if i > 0 {
      DescendingAll(edits[1..], i - 1, j - 1);
    } else if j > 1 {
      DescendingAll(edits[1..], 0, j - 1);
    }
  }

  lemma {:induction false} InsertSorts(e: Edit, sorted: seq<Edit>)
    requires Descending(sorted)
    ensures Descending(Insert(e, sorted))
    ensures multiset(Insert(e, sorted)) == multiset(sorted) + multiset{e}
  {
    if sorted == [] || e.start >= sorted[0].start {
      assert ([e] + sorted)[1..] == sorted;
    } else {
      var rest := Insert(e, sorted[1..]);
      InsertSorts(e, sorted[1..]);
      assert sorted == [sorted[0]] + sorted[1..];
      assert ([sorted[0]] + rest)[1..] == rest;
    }
  }

  lemma {:induction false} SortSorts(edits: seq<Edit>)
    ensures Descending(SortDescending(edits)) && multiset(SortDescending(edits)) == multiset(edits)
  {
    if edits != [] {
      SortSorts(edits[1..]);
      InsertSorts(edits[0], SortDescending(edits[1..]));
      assert edits == [edits[0]] + edits[1..];
    }
  }

  lemma {:induction false} LocalMembers(edits: seq<Edit>, lo: nat, hi: nat)
    ensures forall e :: e in Local(edits, lo, hi) <==> e in edits && Within(e, lo, hi)
    ensures Separate(edits) ==> Separate(Local(edits, lo, hi))
  {
    if edits != [] {
      LocalMembers(edits[1..], lo, hi);
      assert edits == [edits[0]] + edits[1..];
      if Separate(edits) {
        hide Within, Local;
        LocalSeparate(edits, Local(edits[1..], lo, hi));
      }
    }
  }

  lemma {:induction false} LocalSeparate(edits: seq<Edit>, rest: seq<Edit>)
    requires edits != [] && Separate(edits) && Separate(rest) && forall e :: e in rest ==> e in edits[1..]
    ensures Separate([edits[0]] + rest)
  {
    forall k | 0 <= k < |rest| ensures edits[0].end <= rest[k].start || rest[k].end <= edits[0].start {
      assert rest[k] in edits[1..];
    }
  }

  /** Being separate does not depend on the order. */
  lemma {:induction false} SeparatePermuted(a: seq<Edit>, b: seq<Edit>)
    requires Separate(a) && multiset(a) == multiset(b)
    ensures Separate(b)
  {
    forall i | 0 <= i < |b| ensures b[i].start < b[i].end {
      assert b[i] in multiset(a);
    }
    forall i, j | 0 <= i < j < |b| ensures b[i].end <= b[j].start || b[j].end <= b[i].start {
      assert b[i] in multiset(a) && b[j] in multiset(a);
      if b[i] == b[j] {
        assert multiset(b)[b[i]] >= 2 by {
          assert b == b[..i] + [b[i]] + b[i + 1..j] + [b[j]] + b[j + 1..];
        }
        TwiceInSeq(a, b[i]);
      }
    }
  }

  lemma {:induction false} TwiceInSeq(a: seq<Edit>, e: Edit)
    requires multiset(a)[e] >= 2
    ensures exists i, j :: 0 <= i < j < |a| && a[i] == e && a[j] == e
  {
    assert a == [a[0]] + a[1..];
    if a[0] == e {
      assert e in multiset(a[1..]);
      var j :| 0 <= j < |a[1..]| && a[1..][j] == e;
      assert a[0] == e && a[j + 1] == e;
    } else {
      TwiceInSeq(a[1..], e);
      var i, j :| 0 <= i < j < |a[1..]| && a[1..][i] == e && a[1..][j] == e;
      assert a[i + 1] == e && a[j + 1] == e;
    }
  }

  /** The sorted local edits: descending, separate, and exactly the edits inside the node. */
  lemma {:induction false} SortedLocal(edits: seq<Edit>, lo: nat, hi: nat)
    requires Separate(edits)
    ensures var local := SortDescending(Local(edits, lo, hi));
            && Separate(local) && Descending(local)
            && forall e :: e in local <==> e in edits && Within(e, lo, hi)
  {
    var found := Local(edits, lo, hi);
    var local := SortDescending(found);
    LocalMembers(edits, lo, hi);
    SortSorts(found);
    SeparatePermuted(found, local);
    forall e ensures e in local <==> e in found {
      assert e in multiset(local) <==> e in multiset(found);
    }
  }

  /**
   Splicing the edits inside a node into its text one by one, the last first, is simultaneous substitution: no splice
   moves the position of an edit still to come.
   */
  method SubText(source: string, start: nat, end: nat, edits: seq<Edit>) returns (text: string)
    requires start <= end <= |source| && Separate(edits)
    ensures text == Substituted(source, edits, start, end)
  {
    var local := SortDescending(Local(edits, start, end));
    SortedLocal(edits, start, end);
    AllPending(source, edits, local, start, end);
    text := source[start..end];
    ghost var done := end;
    for i := 0 to |local|
      invariant start <= done <= end
      invariant text == Progress(source, edits, start, done, end)
      invariant Pending(edits, local, i, start, done, end)
    {
      var e := local[i];
      NextSplice(edits, local, i, start, done, end);
      SpliceOne(source, edits, start, done, end, e);
      text := Splice(text, e.start - start, e.end - start, e.text);
      done := e.start;
    }
    NothingPending(source, edits, local, start, done, end);
  }

  /** `text.slice(0, from) + insert + text.slice(to)` */
  function Splice(text: string, from: int, to: int, insert: string): string
    requires 0 <= from <= to <= |text|
  {
    text[..from] + insert + text[to..]
  }

  lemma {:induction false} SpliceText(source: string, start: nat, from: nat, to: nat, done: nat, insert: string, rest: string)
    requires start <= from <= to <= done <= |source|
    ensures Splice(source[start..done] + rest, from - start, to - start, insert) ==
            source[start..from] + (insert + (source[to..done] + rest))
  {
    var all := source[start..done] + rest;
    assert all[..from - start] == source[start..from];
    assert all[to - start..] == source[to..done] + rest;
  }

  /** The text while the edits from `done` on are replaced and those before are not. */
  ghost function Progress(source: string, edits: seq<Edit>, start: nat, done: nat, end: nat): string
    requires start <= done <= end <= |source| && NoneEmpty(edits)
  {
    source[start..done] + Substituted(source, edits, done, end)
  }

  /** Splicing the rightmost edit not yet done. */
  lemma {:induction false} SpliceOne(source: string, edits: seq<Edit>, start: nat, done: nat, end: nat, e: Edit)
    requires start <= done <= end <= |source| && NoneEmpty(edits)
    requires start <= e.start < e.end <= done && Clear(edits, e.end, done, end)
    requires EditAt(edits, e.start, end) < |edits| && edits[EditAt(edits, e.start, end)] == e
    ensures Splice(Progress(source, edits, start, done, end), e.start - start, e.end - start, e.text) ==
            Progress(source, edits, start, e.start, end)
  {
    var rest := Substituted(source, edits, done, end);
    SpliceText(source, start, e.start, e.end, done, e.text, rest);
    CopiedStretch(source, edits, e.end, done, end);
    var here := Substituted(source, edits, e.start, end);
    assert here == e.text + (source[e.end..done] + rest);
  }

  /** What is left to splice: everything inside the node that starts before `done`, all of it ending by then. */
  ghost predicate Pending(edits: seq<Edit>, local: seq<Edit>, i: nat, start: nat, done: nat, end: nat) {
    (forall k :: i <= k < |local| ==> local[k].end <= done)
    && forall e :: e in edits && Within(e, start, end) && e.start < done ==> exists k :: i <= k < |local| && local[k] == e
  }

  lemma {:induction false} AllPending(source: string, edits: seq<Edit>, local: seq<Edit>, start: nat, end: nat)
    requires start <= end <= |source| && NoneEmpty(edits)
    requires forall e :: e in local <==> e in edits && Within(e, start, end)
    ensures Pending(edits, local, 0, start, end, end)
    ensures Progress(source, edits, start, end, end) == source[start..end]
  {
    assert forall k :: 0 <= k < |local| ==> local[k] in local;
    assert Substituted(source, edits, end, end) == [];
  }

  lemma {:induction false} NothingPending(source: string, edits: seq<Edit>, local: seq<Edit>, start: nat, done: nat, end: nat)
    requires start <= done <= end <= |source| && NoneEmpty(edits)
    requires Pending(edits, local, |local|, start, done, end)
    ensures Progress(source, edits, start, done, end) == Substituted(source, edits, start, end)
  {
    assert forall k :: 0 <= k < |edits| ==> edits[k] in edits;
    CopiedStretch(source, edits, start, done, end);
  }

  /** The next edit is the rightmost one left, and starts before everything done. */
  lemma {:induction false} NextSplice(edits: seq<Edit>, local: seq<Edit>, i: nat, start: nat, done: nat, end: nat)
    requires Separate(edits) && Separate(local) && Descending(local) && i < |local| && start <= done <= end
    requires forall e :: e in local ==> e in edits && Within(e, start, end)
    requires Pending(edits, local, i, start, done, end)
    ensures var e := local[i];
            var at := EditAt(edits, e.start, end);
            && start <= e.start < e.end <= done
            && at < |edits| && edits[at] == e && Clear(edits, e.end, done, end)
            && Pending(edits, local, i + 1, start, e.start, end)
  {
    var e := local[i];
    assert e in local;
    EditFound(edits, e, end);
    forall k | i < k < |local| ensures local[k].end <= e.start {
      DescendingAll(local, i, k);
    }
    forall k | 0 <= k < |edits| && edits[k].end <= end ensures !(e.end <= edits[k].start < done) {
      if e.end <= edits[k].start < done {
        assert edits[k] in edits && Within(edits[k], start, end);
      }
    }
  }

  lemma {:induction false} EditFound(edits: seq<Edit>, e: Edit, hi: nat)
    requires Separate(edits) && e in edits && e.end <= hi
    ensures EditAt(edits, e.start, hi) < |edits| && edits[EditAt(edits, e.start, hi)] == e
  {
    var k :| 0 <= k < |edits| && edits[k] == e;
  }
}
