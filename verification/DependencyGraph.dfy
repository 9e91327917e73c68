/** Dependency graphs by name, and what it means for one to have a cycle. */
module DependencyGraph {
  type Graph = map<string, seq<string>>

  /** `b` is a known dependency of `a`; names that are not nodes are ignored. */
  predicate Edge(g: Graph, a: string, b: string) {
    a in g && b in g && b in g[a]
  }

  predicate IsPath(g: Graph, p: seq<string>) {
    |p| > 0 && (forall i :: 0 <= i < |p| ==> p[i] in g) && forall i :: 0 < i < |p| ==> Edge(g, p[i - 1], p[i])
  }

  /** A path whose last name occurs earlier on it. */
  predicate Closes(g: Graph, p: seq<string>) {
    |p| > 1 && IsPath(g, p) && p[|p| - 1] in p[..|p| - 1]
  }

  ghost predicate Acyclic(g: Graph) {
    forall p :: !Closes(g, p)
  }

  /** Every edge inside `nodes` goes down in `rank`. */
  ghost predicate Ranks(g: Graph, nodes: set<string>, rank: map<string, nat>) {
    nodes <= rank.Keys && forall a, b :: a in nodes && b in nodes && Edge(g, a, b) ==> rank[b] < rank[a]
  }

  lemma {:induction false} RankFallsAlongPath(g: Graph, rank: map<string, nat>, p: seq<string>, i: nat, j: nat)
    requires Ranks(g, g.Keys, rank) && IsPath(g, p) && i < j < |p|
    ensures rank[p[j]] < rank[p[i]]
    decreases j
  {
    assert Edge(g, p[j - 1], p[j]);
    if i < j - 1 {
      RankFallsAlongPath(g, rank, p, i, j - 1);
    }
  }

  lemma {:induction false} RankedIsAcyclic(g: Graph, rank: map<string, nat>)
    requires Ranks(g, g.Keys, rank)
    ensures Acyclic(g)
  {
    forall p ensures !Closes(g, p) {
      if Closes(g, p) {
        var i :| 0 <= i < |p| - 1 && p[i] == p[|p| - 1];
        RankFallsAlongPath(g, rank, p, i, |p| - 1);
      }
    }
  }

  predicate HasEdgeInto(g: Graph, a: string, nodes: set<string>) {
    exists b :: b in nodes && Edge(g, a, b)
  }

  /** A walk inside `nodes` that never repeats a name ends, and it ends at a sink. */
  lemma {:induction false} WalkToSink(g: Graph, nodes: set<string>, p: seq<string>) returns (sink: string)
    requires Acyclic(g) && nodes <= g.Keys && IsPath(g, p) && forall n :: n in p ==> n in nodes
    ensures sink in nodes && !HasEdgeInto(g, sink, nodes)
    decreases nodes - (set n | n in p)
  {
    var last := p[|p| - 1];
    if HasEdgeInto(g, last, nodes) {
      var next :| next in nodes && Edge(g, last, next);
      var longer := p + [next];
      assert IsPath(g, longer);
      if next in p {
        assert longer[..|longer| - 1] == p && Closes(g, longer);
        assert false;
      }
      assert next in longer && next in nodes - (set n | n in p);
      sink := WalkToSink(g, nodes, longer);
    } else {
      sink := last;
    }
  }

  /** Removing sinks one by one ranks an acyclic graph. */
  lemma {:induction false} AcyclicHasRank(g: Graph, nodes: set<string>) returns (rank: map<string, nat>)
    requires Acyclic(g) && nodes <= g.Keys
    ensures Ranks(g, nodes, rank)
    decreases |nodes|
  {
    if nodes == {} {
      rank := map[];
    } else {
      var n :| n in nodes;
      var sink := WalkToSink(g, nodes, [n]);
      var below := AcyclicHasRank(g, nodes - {sink});
      rank := map m | m in nodes :: if m == sink then 0 else below[m] + 1;
      forall a, b | a in nodes && b in nodes && Edge(g, a, b) ensures rank[b] < rank[a] {
        assert a != sink;
      }
    }
  }
}
