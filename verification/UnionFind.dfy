/** Union-find with path compression over a sparse parent map, and the connectivity it computes. */
module UnionFind {
  type Edges = set<(nat, nat)>

  predicate Joined(edges: Edges, a: nat, b: nat) {
    (a, b) in edges || (b, a) in edges
  }

  predicate IsPath(edges: Edges, p: seq<nat>) {
    |p| > 0 && forall i :: 0 <= i < |p| - 1 ==> Joined(edges, p[i], p[i + 1])
  }

  ghost predicate Connected(edges: Edges, a: nat, b: nat) {
    exists p :: IsPath(edges, p) && p[0] == a && p[|p| - 1] == b
  }

  // ---------------------------------------------------------------- connectivity

  lemma {:induction false} ConnectedSelf(edges: Edges, a: nat)
    ensures Connected(edges, a, a)
  {
    assert IsPath(edges, [a]);
  }

  lemma {:induction false} ConnectedEdge(edges: Edges, a: nat, b: nat)
    requires Joined(edges, a, b)
    ensures Connected(edges, a, b)
  {
    assert IsPath(edges, [a, b]);
  }

  function Reversed(p: seq<nat>): (r: seq<nat>)
    ensures |r| == |p| && forall i :: 0 <= i < |p| ==> r[i] == p[|p| - 1 - i]
  {
    if p == [] then [] else Reversed(p[1..]) + [p[0]]
  }

  lemma {:induction false} ConnectedSym(edges: Edges, a: nat, b: nat)
    requires Connected(edges, a, b)
    ensures Connected(edges, b, a)
  {
    var p :| IsPath(edges, p) && p[0] == a && p[|p| - 1] == b;
    var r := Reversed(p);
    forall i | 0 <= i < |r| - 1 ensures Joined(edges, r[i], r[i + 1]) {
      assert Joined(edges, p[|p| - 2 - i], p[|p| - 2 - i + 1]);
    }
    assert IsPath(edges, r);
  }

  lemma {:induction false} ConnectedTrans(edges: Edges, a: nat, b: nat, c: nat)
    requires Connected(edges, a, b) && Connected(edges, b, c)
    ensures Connected(edges, a, c)
  {
    var p :| IsPath(edges, p) && p[0] == a && p[|p| - 1] == b;
    var q :| IsPath(edges, q) && q[0] == b && q[|q| - 1] == c;
    var r := p + q[1..];
    forall i | 0 <= i < |r| - 1 ensures Joined(edges, r[i], r[i + 1]) {
      if i >= |p| - 1 {
        assert r[i] == q[i - |p| + 1] && r[i + 1] == q[i - |p| + 2];
        assert Joined(edges, q[i - |p| + 1], q[i - |p| + 1 + 1]);
      }
    }
    assert IsPath(edges, r);
  }

  /** A relation that holds of every edge's ends and is an equivalence holds of connected points. */
  lemma {:induction false} PathImplies(edges: Edges, same: (nat, nat) -> bool, p: seq<nat>)
    requires IsPath(edges, p)
    requires forall x: nat :: same(x, x)
    requires forall x: nat, y: nat :: same(x, y) ==> same(y, x)
    requires forall x: nat, y: nat, z: nat :: same(x, y) && same(y, z) ==> same(x, z)
    requires forall x: nat, y: nat :: (x, y) in edges ==> same(x, y)
    ensures same(p[0], p[|p| - 1])
  {
    if |p| > 1 {
      PathImplies(edges, same, p[1..]);
      assert Joined(edges, p[0], p[1]);
    }
  }

  /** Edges that connect only what other edges connect. */
  lemma {:induction false} ConnectedVia(edges: Edges, others: Edges, p: seq<nat>)
    requires IsPath(edges, p)
    requires forall x: nat, y: nat :: (x, y) in edges ==> Connected(others, x, y)
    ensures Connected(others, p[0], p[|p| - 1])
  {
    if |p| == 1 {
      ConnectedSelf(others, p[0]);
    } else {
      ConnectedVia(edges, others, p[1..]);
      assert Joined(edges, p[0], p[1]);
      if (p[0], p[1]) !in edges {
        ConnectedSym(others, p[1], p[0]);
      }
      ConnectedTrans(others, p[0], p[1], p[|p| - 1]);
    }
  }

  // ---------------------------------------------------------------- the structure

  function ParentOf(parent: map<nat, nat>, x: nat): nat {
    if x in parent then parent[x] else x
  }

  /**
   `rep` names each element's root. A link leads to an element with the same root and a smaller depth, so following
   links ends.
   */
  ghost predicate Forest(parent: map<nat, nat>, rep: nat -> nat, depth: nat -> nat) {
    forall x: nat ::
      && rep(ParentOf(parent, x)) == rep(x)
      && ParentOf(parent, rep(x)) == rep(x)
      && rep(rep(x)) == rep(x)
      && (ParentOf(parent, x) == x ==> rep(x) == x)
      && (ParentOf(parent, x) != x ==> depth(ParentOf(parent, x)) < depth(x))
  }

  /** Linking an element to its own root keeps the forest. */
  lemma {:induction false} Compressed(parent: map<nat, nat>, rep: nat -> nat, depth: nat -> nat, x: nat)
    requires Forest(parent, rep, depth) && depth(rep(x)) < depth(x)
    ensures Forest(parent[x := rep(x)], rep, depth)
  {
    var after := parent[x := rep(x)];
    forall y: nat | y != x ensures ParentOf(after, y) == ParentOf(parent, y) {
    }
    assert ParentOf(after, x) == rep(x) && rep(x) != x;
  }

  ghost function MergedRep(rep: nat -> nat, ra: nat, rb: nat): nat -> nat {
    (x: nat) => if rep(x) == ra then rb else rep(x)
  }

  ghost function MergedDepth(rep: nat -> nat, depth: nat -> nat, ra: nat, rb: nat): nat -> nat {
    (x: nat) => if rep(x) == ra then depth(x) + depth(rb) + 1 else depth(x)
  }

  /** Linking one root to another moves its whole tree below the other. */
  lemma {:induction false} Linked(parent: map<nat, nat>, rep: nat -> nat, depth: nat -> nat, ra: nat, rb: nat)
    requires Forest(parent, rep, depth) && ra != rb && rep(ra) == ra && rep(rb) == rb
    ensures Forest(parent[ra := rb], MergedRep(rep, ra, rb), MergedDepth(rep, depth, ra, rb))
  {
    var after, r, d := parent[ra := rb], MergedRep(rep, ra, rb), MergedDepth(rep, depth, ra, rb);
    forall x: nat
      ensures r(ParentOf(after, x)) == r(x) && ParentOf(after, r(x)) == r(x) && r(r(x)) == r(x)
      ensures ParentOf(after, x) == x ==> r(x) == x
      ensures ParentOf(after, x) != x ==> d(ParentOf(after, x)) < d(x)
    {
      assert x != ra ==> ParentOf(after, x) == ParentOf(parent, x);
      assert rep(ParentOf(parent, x)) == rep(x);
      assert ParentOf(parent, rb) == rb && ParentOf(parent, rep(x)) == rep(x);
    }
  }

  ghost predicate Partition(rep: nat -> nat, edges: Edges) {
    forall x: nat, y: nat :: rep(x) == rep(y) <==> Connected(edges, x, y)
  }

  ghost function RepAfter(rep: nat -> nat, a: nat, b: nat): nat -> nat {
    if rep(a) == rep(b) then rep else MergedRep(rep, rep(a), rep(b))
  }

  /** Merging two classes is what one more edge does. */
  lemma {:induction false} MergedPartition(rep: nat -> nat, edges: Edges, a: nat, b: nat)
    requires Partition(rep, edges)
    ensures Partition(RepAfter(rep, a, b), edges + {(a, b)})
  {
    var more := edges + {(a, b)};
    var r: nat -> nat := RepAfter(rep, a, b);
    forall x: nat, y: nat ensures r(x) == r(y) <==> Connected(more, x, y) {
      if r(x) == r(y) {
        assert rep(x) == rep(y) || (rep(x) == rep(a) && rep(y) == rep(b)) || (rep(x) == rep(b) && rep(y) == rep(a));
        MergedConnected(rep, edges, a, b, x, y);
      }
      if Connected(more, x, y) {
        var p :| IsPath(more, p) && p[0] == x && p[|p| - 1] == y;
        forall u: nat, v: nat | (u, v) in more ensures r(u) == r(v) {
          if (u, v) in edges {
            ConnectedEdge(edges, u, v);
          }
        }
        PathImplies(more, (u: nat, v: nat) => r(u) == r(v), p);
      }
    }
  }

  lemma {:induction false} MergedConnected(rep: nat -> nat, edges: Edges, a: nat, b: nat, x: nat, y: nat)
    requires Partition(rep, edges)
    requires rep(x) == rep(y) || (rep(x) == rep(a) && rep(y) == rep(b)) || (rep(x) == rep(b) && rep(y) == rep(a))
    ensures Connected(edges + {(a, b)}, x, y)
  {
    var more := edges + {(a, b)};
    if rep(x) == rep(y) {
    } else {
      var from, to := if rep(x) == rep(a) then a else b, if rep(x) == rep(a) then b else a;
      assert Connected(edges, x, from) && Connected(edges, to, y);
      ConnectedEdge(more, from, to);
      ConnectedTrans(more, x, from, to);
      ConnectedTrans(more, x, to, y);
    }
  }

  class UnionFind {
    var parent: map<nat, nat>
    ghost var rep: nat -> nat
    ghost var depth: nat -> nat
    ghost var edges: Edges

    /** Two elements have the same root exactly when the unions made so far connect them. */
    ghost predicate Valid()
      reads this
    {
      Forest(parent, rep, depth) && Partition(rep, edges)
    }

    constructor ()
      ensures Valid() && edges == {}
    {
      parent := map[];
      rep := x => x;
      depth := x => 0;
      edges := {};
      new;
      forall x: nat, y: nat ensures rep(x) == rep(y) <==> Connected(edges, x, y) {
        ConnectedSelf(edges, x);
        if Connected(edges, x, y) {
          var p :| IsPath(edges, p) && p[0] == x && p[|p| - 1] == y;
          PathImplies(edges, (a: nat, b: nat) => a == b, p);
        }
      }
    }

    /** The root of `x`. Compressing the path changes nobody's root. */
    method Find(x: nat) returns (r: nat)
      requires Valid()
      modifies this`parent
      decreases depth(x)
      ensures Valid() && r == rep(x) && depth(r) <= depth(x)
    {
      r := if x in parent then parent[x] else x;
      if r != x {
        assert ParentOf(parent, x) == r;
        r := Find(r);
        Compressed(parent, rep, depth, x);
        parent := parent[x := r];
      } else {
        assert ParentOf(parent, x) == x;
      }
    }

    method Union(a: nat, b: nat)
      requires Valid()
      modifies this
      ensures Valid() && edges == old(edges) + {(a, b)}
    {
      var ra := Find(a);
      var rb := Find(b);
      MergedPartition(rep, edges, a, b);
      edges := edges + {(a, b)};
      if ra != rb {
        Linked(parent, rep, depth, ra, rb);
        parent := parent[ra := rb];
        depth := MergedDepth(rep, depth, ra, rb);
        rep := MergedRep(rep, ra, rb);
      }
    }
  }
}
