/** The depth-first cycle check that runs before any job starts. */
module CycleCheck {
  import opened Prelude
  import opened DependencyGraph

  datatype Mark = Visiting | Finished

  /** `chain` is the path of names being visited; finished names come after everything they depend on. */
  ghost predicate Marked(graph: Graph, state: map<string, Mark>, order: seq<string>, chain: seq<string>) {
    && state.Keys <= graph.Keys
    && (chain != [] ==> IsPath(graph, chain))
    && (forall n :: n in state && state[n].Visiting? <==> n in chain)
    && (forall n :: n in state && state[n].Finished? <==> n in order)
    && (forall i, n :: 0 <= i < |order| && Edge(graph, order[i], n) ==> n in order[..i])
  }

  /** Every finished name stays finished. */
  ghost predicate StayFinished(before: map<string, Mark>, after: map<string, Mark>) {
    forall n :: n in before && before[n].Finished? ==> n in after && after[n].Finished?
  }

  /** A name that is not marked yet becomes the innermost of the chain. */
  lemma {:induction false} MarkVisiting(graph: Graph, state: map<string, Mark>, order: seq<string>, chain: seq<string>, name: string)
    requires Marked(graph, state, order, chain) && name in graph && name !in state
    requires chain != [] ==> Edge(graph, chain[|chain| - 1], name)
    ensures Marked(graph, state[name := Visiting], order, chain + [name]) && name !in chain
    ensures StayFinished(state, state[name := Visiting])
  {
    var path := chain + [name];
    assert IsPath(graph, path);
    assert path[|chain|] == name && forall n :: n in chain ==> n in path;
  }

  /** The name is on the chain already. */
  lemma {:induction false} ChainCloses(graph: Graph, state: map<string, Mark>, order: seq<string>, chain: seq<string>, name: string)
    requires Marked(graph, state, order, chain) && name in graph && name in state && state[name].Visiting?
    requires chain != [] ==> Edge(graph, chain[|chain| - 1], name)
    ensures Closes(graph, chain + [name])
  {
    var reported := chain + [name];
    assert name in chain && (chain != [] ==> IsPath(graph, chain));
    hide Marked;
    assert reported[..|reported| - 1] == chain;
  }

  /** The innermost name of the chain is finished, after everything it depends on. */
  lemma {:induction false} MarkFinished(graph: Graph, state: map<string, Mark>, order: seq<string>, chain: seq<string>, name: string)
    requires Marked(graph, state, order, chain + [name]) && name !in chain
    requires forall n :: Edge(graph, name, n) ==> n in state && state[n].Finished?
    ensures Marked(graph, state[name := Finished], order + [name], chain)
  {
    var path := chain + [name];
    assert path[|chain|] == name && name in state && state[name].Visiting?;
    assert name !in order;
    if chain != [] {
      assert forall i :: 0 <= i < |chain| ==> chain[i] == path[i];
      assert IsPath(graph, chain);
    }
    var now := order + [name];
    forall i, n | 0 <= i < |now| && Edge(graph, now[i], n) ensures n in now[..i] {
      if i < |order| {
        assert now[i] == order[i] && now[..i] == order[..i];
      } else {
        assert now[..i] == order;
      }
    }
  }

  /** The marks of the search, and the order in which it finished names. */
  class Search {
    const graph: Graph
    var state: map<string, Mark>
    ghost var order: seq<string>

    constructor (graph: Graph)
      ensures this.graph == graph && state == map[] && order == []
      ensures Valid([])
    {
      this.graph := graph;
      state := map[];
      order := [];
    }

    ghost predicate Valid(chain: seq<string>)
      reads this
    {
      Marked(graph, state, order, chain)
    }

    /** Err carries the chain the source reports: a path whose last name occurs earlier on it. */
    method Visit(name: string, chain: seq<string>) returns (r: Result<(), seq<string>>)
      requires Valid(chain) && name in graph
      requires chain != [] ==> Edge(graph, chain[|chain| - 1], name)
      modifies this
      decreases graph.Keys - state.Keys, 0
      ensures old(state.Keys) <= state.Keys
      ensures r.Ok? ==> Valid(chain) && name in state && state[name].Finished?
      ensures r.Ok? ==> StayFinished(old(state), state)
      ensures r.Err? ==> Closes(graph, r.error)
    {
      if name in state && state[name].Finished? {
        return Ok(());
      }
      if name in state {
        ChainCloses(graph, state, order, chain, name);
        return Err(chain + [name]);
      }
      var deps, path := graph[name], chain + [name];
      MarkVisiting(graph, state, order, chain, name);
      MarkedKeys(graph, state[name := Visiting], order, path);
      state := state[name := Visiting];
      ghost var before := state.Keys;
      hide Marked, StayFinished, IsPath, Closes;
      for i := 0 to |deps|
        invariant Valid(path) && before <= state.Keys
        invariant DepsFinished(graph, deps, i, state) && StayFinished(old(state), state)
      {
        ghost var was := state;
        if deps[i] in graph {
          MarkedKeys(graph, state, order, path);
          var sub := Visit(deps[i], path);
          if sub.Err? {
            return sub;
          }
          FinishedStay(graph, deps, i, old(state), was, state);
        }
        DepsNext(graph, deps, i, state);
      }
      AllFinished(graph, name, state);
      Finish(name, chain);
      return Ok(());
    }

    /** Leave the innermost name of the chain, everything it depends on being finished. */
    method Finish(name: string, chain: seq<string>)
      requires Valid(chain + [name]) && name !in chain && name in graph
      requires forall n :: Edge(graph, name, n) ==> n in state && state[n].Finished?
      modifies this
      ensures Valid(chain) && state == old(state)[name := Finished]
    {
      MarkFinished(graph, state, order, chain, name);
      state := state[name := Finished];
      order := order + [name];
    }
  }

  lemma {:induction false} MarkedKeys(graph: Graph, state: map<string, Mark>, order: seq<string>, chain: seq<string>)
    requires Marked(graph, state, order, chain)
    ensures state.Keys <= graph.Keys
  {
  }

  /** The first `i` dependencies that are in the graph are finished. */
  ghost predicate DepsFinished(graph: Graph, deps: seq<string>, i: nat, state: map<string, Mark>) {
    forall k :: 0 <= k < i && k < |deps| && deps[k] in graph ==> deps[k] in state && state[deps[k]].Finished?
  }

  lemma {:induction false} FinishedStay(graph: Graph, deps: seq<string>, i: nat, first: map<string, Mark>, was: map<string, Mark>,
                                        now: map<string, Mark>)
    requires DepsFinished(graph, deps, i, was) && StayFinished(first, was) && StayFinished(was, now)
    ensures DepsFinished(graph, deps, i, now) && StayFinished(first, now)
  {
  }

  lemma {:induction false} DepsNext(graph: Graph, deps: seq<string>, i: nat, state: map<string, Mark>)
    requires i < |deps| && DepsFinished(graph, deps, i, state)
    requires deps[i] in graph ==> deps[i] in state && state[deps[i]].Finished?
    ensures DepsFinished(graph, deps, i + 1, state)
  {
  }

  lemma {:induction false} AllFinished(graph: Graph, name: string, state: map<string, Mark>)
    requires name in graph && DepsFinished(graph, graph[name], |graph[name]|, state)
    ensures forall n :: Edge(graph, name, n) ==> n in state && state[n].Finished?
  {
  }

  /** Position of each finished name. */
  ghost function Position(order: seq<string>, n: string): nat
    requires n in order
    ensures Position(order, n) < |order| && order[Position(order, n)] == n
    ensures n !in order[..Position(order, n)]
  {
    if order[0] == n then 0
    else
      var p := Position(order[1..], n);
      assert order[..p + 1] == [order[0]] + order[1..][..p];
      p + 1
  }

  /** A finishing order ranks the graph. */
  lemma {:induction false} FinishingOrderRanks(g: Graph, order: seq<string>)
    requires forall n :: n in g ==> n in order
    requires forall i, n :: 0 <= i < |order| && Edge(g, order[i], n) ==> n in order[..i]
    ensures Acyclic(g)
  {
    var rank := map n | n in g :: Position(order, n);
    forall a, b | a in g && b in g && Edge(g, a, b) ensures rank[b] < rank[a] {
      var i := Position(order, a);
      assert b in order[..i];
    }
    RankedIsAcyclic(g, rank);
  }

  /**
   Sound and complete: Ok exactly when no chain of known dependencies closes on itself, self-dependencies included;
   otherwise the reported chain is such a path.
   */
  method AssertAcyclic(graph: Graph, names: seq<string>) returns (r: Result<(), seq<string>>)
    requires forall n :: n in names <==> n in graph
    ensures r.Ok? <==> Acyclic(graph)
    ensures r.Err? ==> Closes(graph, r.error)
  {
    var search := new Search(graph);
    for i := 0 to |names|
      invariant search.Valid([])
      invariant search.graph == graph
      invariant forall k :: 0 <= k < i ==> names[k] in search.state && search.state[names[k]].Finished?
    {
      var sub := search.Visit(names[i], []);
      if sub.Err? {
        return sub;
      }
    }
    FinishingOrderRanks(graph, search.order);
    return Ok(());
  }
}
