/** Newest release first: the order of release titles (scripts/fix-changelogs.ts). */
module VersionOrder {
  import StableSort

  /** A title's dotted parts as numbers. */
  type Parts = string -> seq<int>

  function At(v: seq<int>, i: nat): int {
    if i < |v| then v[i] else 0
  }

  function Limit(l: seq<int>, r: seq<int>): nat {
    if |l| >= |r| then |l| else |r|
  }

  /** `x` is newer than `y`: it has the larger part where they first differ. Missing parts are zero. */
  ghost predicate NewerAt(x: seq<int>, y: seq<int>, k: nat) {
    At(x, k) > At(y, k) && forall i: nat :: i < k ==> At(x, i) == At(y, i)
  }

  ghost predicate Newer(x: seq<int>, y: seq<int>) {
    exists k: nat :: NewerAt(x, y, k)
  }

  /** `compareVersionTitlesDesc`: negative exactly when the left version is newer, positive exactly when the right one is. */
  method CompareVersionTitlesDesc(left: seq<int>, right: seq<int>) returns (d: int)
    ensures d == Difference(left, right, 0, Limit(left, right))
    ensures d < 0 <==> Newer(left, right)
    ensures d > 0 <==> Newer(right, left)
  {
    var limit := Limit(left, right);
    DifferenceDecides(left, right);
    hide Newer;
    for index := 0 to limit
      invariant Difference(left, right, index, limit) == Difference(left, right, 0, limit)
    {
      var difference := At(right, index) - At(left, index);
      if difference != 0 {
        return difference;
      }
    }
    return 0;
  }

  function Difference(left: seq<int>, right: seq<int>, i: nat, limit: nat): int
    decreases limit - i
  {
    if i >= limit then 0
    else if At(right, i) != At(left, i) then At(right, i) - At(left, i)
    else Difference(left, right, i + 1, limit)
  }

  predicate NotOlder(left: seq<int>, right: seq<int>) {
    Difference(left, right, 0, Limit(left, right)) <= 0
  }

  /** Past the limit all parts are missing, so the first difference lies before it, and it is the result. */
  lemma {:induction false} FirstDifference(l: seq<int>, r: seq<int>, i: nat, k: nat)
    requires i <= k && At(l, k) != At(r, k) && forall n: nat :: i <= n < k ==> At(l, n) == At(r, n)
    ensures Difference(l, r, i, Limit(l, r)) == At(r, k) - At(l, k)
    decreases k - i
  {
    if i < k {
      FirstDifference(l, r, i + 1, k);
    }
  }

  lemma {:induction false} NoDifference(l: seq<int>, r: seq<int>, i: nat) returns (k: nat)
    requires Difference(l, r, i, Limit(l, r)) != 0
    ensures i <= k && At(l, k) != At(r, k) && forall n: nat :: i <= n < k ==> At(l, n) == At(r, n)
    decreases Limit(l, r) - i
  {
    if At(r, i) != At(l, i) {
      k := i;
    } else {
      k := NoDifference(l, r, i + 1);
    }
  }

  /** The comparison is negative exactly when the left version is newer, positive exactly when the right one is. */
  lemma {:induction false} DifferenceDecides(l: seq<int>, r: seq<int>)
    ensures var d := Difference(l, r, 0, Limit(l, r)); (d < 0 <==> Newer(l, r)) && (d > 0 <==> Newer(r, l))
  {
    var d := Difference(l, r, 0, Limit(l, r));
    if k: nat :| NewerAt(l, r, k) {
      FirstDifference(l, r, 0, k);
    }
    if k: nat :| NewerAt(r, l, k) {
      FirstDifference(l, r, 0, k);
    }
    if d != 0 {
      var k := NoDifference(l, r, 0);
      FirstDifference(l, r, 0, k);
      assert NewerAt(l, r, k) || NewerAt(r, l, k);
    }
  }

  /** After the same parts the larger next part decides, whatever follows; a missing part is zero. */
  lemma {:induction false} NextPartDecides(same: seq<int>, x: int, xs: seq<int>, y: int, ys: seq<int>)
    requires x > y
    ensures Newer(same + [x] + xs, same + [y] + ys) && !Newer(same + [y] + ys, same + [x] + xs)
    ensures y == 0 ==> Newer(same + [x] + xs, same) && !Newer(same, same + [x] + xs)
    ensures x == 0 ==> Newer(same, same + [y] + ys) && !Newer(same + [y] + ys, same)
  {
    var l, r, n := same + [x] + xs, same + [y] + ys, |same|;
    assert l[n] == x && r[n] == y;
    OnlyNewer(l, r, n);
    if y == 0 {
      OnlyNewer(l, same, n);
    }
    if x == 0 {
      OnlyNewer(same, r, n);
    }
  }

  lemma {:induction false} OnlyNewer(x: seq<int>, y: seq<int>, k: nat)
    requires NewerAt(x, y, k)
    ensures Newer(x, y) && !Newer(y, x)
  {
    forall n: nat ensures !NewerAt(y, x, n) {
      assert n < k ==> At(x, n) == At(y, n);
    }
  }

  /** Of two versions one is newer, or they agree in all parts, as `1.0` and `1.0.0` do. */
  lemma {:induction false} NewerOrSame(x: seq<int>, y: seq<int>)
    ensures NotOlder(x, y) <==> !Newer(y, x)
    ensures Newer(x, y) || Newer(y, x) <==> exists i: nat :: At(x, i) != At(y, i)
    ensures NotOlder(x, x + [0]) && NotOlder(x + [0], x)
  {
    DifferenceDecides(x, y);
    if i: nat :| At(x, i) != At(y, i) {
      var k := FirstApart(x, y, i);
      assert NewerAt(x, y, k) || NewerAt(y, x, k);
    }
    SameParts(x, x + [0], 0);
    SameParts(x + [0], x, 0);
  }

  lemma {:induction false} FirstApart(x: seq<int>, y: seq<int>, i: nat) returns (k: nat)
    requires At(x, i) != At(y, i)
    ensures At(x, k) != At(y, k) && forall n: nat :: n < k ==> At(x, n) == At(y, n)
    decreases i
  {
    if n: nat :| n < i && At(x, n) != At(y, n) {
      k := FirstApart(x, y, n);
    } else {
      k := i;
    }
  }

  lemma {:induction false} SameParts(x: seq<int>, y: seq<int>, i: nat)
    requires forall n: nat :: At(x, n) == At(y, n)
    ensures Difference(x, y, i, Limit(x, y)) == 0
    decreases Limit(x, y) - i
  {
    if i < Limit(x, y) {
      SameParts(x, y, i + 1);
    }
  }

  /** Zeros at the end do not matter. */
  lemma {:induction false} LimitFree(l: seq<int>, r: seq<int>, i: nat, a: nat, b: nat)
    requires Limit(l, r) <= a <= b
    ensures Difference(l, r, i, a) == Difference(l, r, i, b)
    decreases b - i
  {
    if i < b {
      LimitFree(l, r, i + 1, a, b);
    }
  }

  lemma {:induction false} Opposite(l: seq<int>, r: seq<int>, i: nat, limit: nat)
    ensures Difference(l, r, i, limit) == -Difference(r, l, i, limit)
    decreases limit - i
  {
    if i < limit {
      Opposite(l, r, i + 1, limit);
    }
  }

  lemma {:induction false} Chain(x: seq<int>, y: seq<int>, z: seq<int>, i: nat, limit: nat)
    requires Difference(x, y, i, limit) <= 0 && Difference(y, z, i, limit) <= 0
    ensures Difference(x, z, i, limit) <= 0
    decreases limit - i
  {
    if i < limit && At(x, i) == At(y, i) == At(z, i) {
      Chain(x, y, z, i + 1, limit);
    }
  }

  /** Comparing versions is a total preorder, so sorting by it is well defined. */
  lemma {:induction false} NotOlderIsPreorder(x: seq<int>, y: seq<int>, z: seq<int>)
    ensures NotOlder(x, y) || NotOlder(y, x)
    ensures NotOlder(x, y) && NotOlder(y, z) ==> NotOlder(x, z)
  {
    var n := Limit(x, y) + Limit(y, z) + Limit(x, z);
    LimitFree(x, y, 0, Limit(x, y), n);
    LimitFree(y, x, 0, Limit(y, x), n);
    LimitFree(y, z, 0, Limit(y, z), n);
    LimitFree(x, z, 0, Limit(x, z), n);
    Opposite(x, y, 0, n);
    if NotOlder(x, y) && NotOlder(y, z) {
      Chain(x, y, z, 0, n);
    }
  }
}
