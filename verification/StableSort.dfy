/** The stable sort behind `Array.prototype.sort`, for any total preorder. */
module StableSort {
  ghost predicate TotalPreorder<T(!new)>(le: (T, T) -> bool) {
    && (forall x, y :: le(x, y) || le(y, x))
    && (forall x, y, z :: le(x, y) && le(y, z) ==> le(x, z))
  }

  /** `x` in front of the first element that may follow it. */
  function Insert<T>(x: T, s: seq<T>, le: (T, T) -> bool): seq<T> {
    if s == [] || le(x, s[0]) then [x] + s else [s[0]] + Insert(x, s[1..], le)
  }

  function Sort<T>(s: seq<T>, le: (T, T) -> bool): seq<T> {
    if s == [] then [] else Insert(s[0], Sort(s[1..], le), le)
  }

  predicate Ordered<T>(s: seq<T>, le: (T, T) -> bool) {
    |s| < 2 || (le(s[0], s[1]) && Ordered(s[1..], le))
  }

  function Only<T>(s: seq<T>, p: T -> bool): seq<T> {
    if s == [] then [] else if p(s[0]) then [s[0]] + Only(s[1..], p) else Only(s[1..], p)
  }

  lemma {:induction false} InsertSorts<T(!new)>(x: T, s: seq<T>, le: (T, T) -> bool)
    requires TotalPreorder(le) && Ordered(s, le)
    ensures Ordered(Insert(x, s, le), le) && multiset(Insert(x, s, le)) == multiset(s) + multiset{x}
    ensures s != [] ==> Insert(x, s, le)[0] == x || Insert(x, s, le)[0] == s[0]
  {
    if s == [] || le(x, s[0]) {
      assert ([x] + s)[1..] == s;
    } else {
      InsertSorts(x, s[1..], le);
      assert Insert(x, s, le)[1..] == Insert(x, s[1..], le);
      assert s == [s[0]] + s[1..];
    }
  }

  /** Sorting is a permutation into order. */
  lemma {:induction false} SortSorts<T(!new)>(s: seq<T>, le: (T, T) -> bool)
    requires TotalPreorder(le)
    ensures Ordered(Sort(s, le), le) && multiset(Sort(s, le)) == multiset(s)
  {
    if s != [] {
      SortSorts(s[1..], le);
      InsertSorts(s[0], Sort(s[1..], le), le);
      BagSplits(s);
      assert Sort(s, le) == Insert(s[0], Sort(s[1..], le), le);
      hide *;
    }
  }

  lemma {:induction false} BagSplits<T>(s: seq<T>)
    requires s != []
    ensures multiset(s) == multiset(s[1..]) + multiset{s[0]}
  {
    assert s == [s[0]] + s[1..];
  }

  lemma {:induction false} InsertStable<T>(x: T, s: seq<T>, le: (T, T) -> bool, p: T -> bool)
    requires forall i :: 0 <= i < |s| && p(x) && p(s[i]) ==> le(x, s[i])
    ensures Only(Insert(x, s, le), p) == Only([x] + s, p)
  {
    assert ([x] + s)[1..] == s;
    if s != [] && !le(x, s[0]) {
      InsertStable(x, s[1..], le, p);
      assert ([x] + s[1..])[1..] == s[1..];
      assert Insert(x, s, le)[1..] == Insert(x, s[1..], le);
    }
  }

  /** Elements that compare equal keep their order. */
  lemma {:induction false} SortStable<T(!new)>(s: seq<T>, le: (T, T) -> bool, p: T -> bool)
    requires TotalPreorder(le) && forall x, y :: p(x) && p(y) ==> le(x, y)
    ensures Only(Sort(s, le), p) == Only(s, p)
  {
    if s != [] {
      SortStable(s[1..], le, p);
      InsertStable(s[0], Sort(s[1..], le), le, p);
      assert ([s[0]] + Sort(s[1..], le))[1..] == Sort(s[1..], le);
    }
  }

  lemma {:induction false} OrderedFrom<T(!new)>(s: seq<T>, le: (T, T) -> bool, i: nat, j: nat)
    requires TotalPreorder(le) && Ordered(s, le) && i <= j < |s|
    ensures le(s[i], s[j])
    decreases |s|
  {
    if i > 0 {
      OrderedFrom(s[1..], le, i - 1, j - 1);
    } else if j > 0 {
      OrderedFrom(s[1..], le, 0, j - 1);
    }
  }

  /** Elements that compare equal stand in the order `before`. */
  ghost predicate InTurn<T(!new)>(s: seq<T>, le: (T, T) -> bool, before: (T, T) -> bool) {
    forall i, j :: 0 <= i < j < |s| && le(s[j], s[i]) ==> before(s[i], s[j])
  }

  ghost predicate Pairwise<T(!new)>(s: seq<T>, before: (T, T) -> bool) {
    forall i, j :: 0 <= i < j < |s| ==> before(s[i], s[j])
  }

  lemma {:induction false} InsertInTurn<T(!new)>(x: T, s: seq<T>, le: (T, T) -> bool, before: (T, T) -> bool)
    requires InTurn(s, le, before) && forall i :: 0 <= i < |s| ==> before(x, s[i])
    ensures InTurn(Insert(x, s, le), le, before)
    ensures forall y :: y in Insert(x, s, le) ==> y == x || y in s
  {
    var r := Insert(x, s, le);
    if s == [] || le(x, s[0]) {
      forall i, j | 0 <= i < j < |r| && le(r[j], r[i]) ensures before(r[i], r[j]) {
        assert r[j] == s[j - 1] && (i > 0 ==> r[i] == s[i - 1]);
      }
    } else {
      var rest := Insert(x, s[1..], le);
      forall i, j | 0 <= i < j < |s[1..]| && le(s[1..][j], s[1..][i]) ensures before(s[1..][i], s[1..][j]) {
        assert s[1..][i] == s[i + 1] && s[1..][j] == s[j + 1];
      }
      InsertInTurn(x, s[1..], le, before);
      forall i, j | 0 <= i < j < |r| && le(r[j], r[i]) ensures before(r[i], r[j]) {
        assert r[j] == rest[j - 1];
        if i == 0 {
          assert r[j] in rest;
          var k :| 0 <= k < |s[1..]| && s[1..][k] == r[j];
          assert s[1..][k] == s[k + 1];
        } else {
          assert r[i] == rest[i - 1];
        }
      }
    }
  }

  /** Elements that compare equal keep any order that the given ones are in. */
  lemma {:induction false} SortInTurn<T(!new)>(s: seq<T>, le: (T, T) -> bool, before: (T, T) -> bool)
    requires Pairwise(s, before)
    ensures InTurn(Sort(s, le), le, before)
    ensures forall y :: y in Sort(s, le) ==> y in s
  {
    if s != [] {
      forall i, j | 0 <= i < j < |s[1..]| ensures before(s[1..][i], s[1..][j]) {
        assert s[1..][i] == s[i + 1] && s[1..][j] == s[j + 1];
      }
      SortInTurn(s[1..], le, before);
      var rest := Sort(s[1..], le);
      forall i | 0 <= i < |rest| ensures before(s[0], rest[i]) {
        assert rest[i] in s[1..];
        var k :| 0 <= k < |s[1..]| && s[1..][k] == rest[i];
        assert s[1..][k] == s[k + 1];
      }
      InsertInTurn(s[0], rest, le, before);
    }
  }

  /** Sorting changes nothing that is in order. */
  lemma {:induction false} SortOrdered<T>(s: seq<T>, le: (T, T) -> bool)
    requires Ordered(s, le)
    ensures Sort(s, le) == s
  {
    if |s| > 1 {
      SortOrdered(s[1..], le);
    } else if |s| == 1 {
      assert Sort(s[1..], le) == [];
    }
  }
}
