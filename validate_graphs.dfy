// Validators and mutators for graph arguments: a graph is a map from each
// node to the set of its neighbours. A validator accepts or rejects a
// generated argument; a mutator repairs the argument in place and always
// accepts it.
module ValidateGraphs {

  /** The argument cell a mutator repairs: the caller's dictionary, updated in place. */
  class GraphArg<N(==)> {
    var adj: map<N, set<N>>

    constructor (adj0: map<N, set<N>>)
      ensures adj == adj0
    {
      adj := adj0;
    }
  }

  /** Every neighbour is a node and no node lists itself. */
  ghost predicate DirectedValid<N>(g: map<N, set<N>>) {
    forall u, v :: u in g && v in g[u] ==> v in g && v != u
  }

  /** A directed graph whose edges all come in both directions. */
  ghost predicate UndirectedValid<N>(g: map<N, set<N>>) {
    DirectedValid(g) && forall u, v :: u in g && v in g[u] ==> u in g[v]
  }

  /** The neighbour check of one node, the inner loop of the validators. */
  method CheckNeighbours<N>(graph: map<N, set<N>>, node: N, symmetric: bool) returns (ok: bool)
    requires node in graph
    ensures ok <==> forall v :: v in graph[node] ==>
      v in graph && v != node && (symmetric ==> node in graph[v])
  {
    var nbrs := graph[node];
    while nbrs != {}
      invariant nbrs <= graph[node]
      invariant forall v :: v in graph[node] - nbrs ==>
        v in graph && v != node && (symmetric ==> node in graph[v])
      decreases |nbrs|
    {
      assert nbrs != {};
      var nbr :| nbr in nbrs;
      if nbr !in graph {
        return false;
      } else if nbr == node {
        return false;
      } else if symmetric && node !in graph[nbr] {
        return false;
      }
      nbrs := nbrs - {nbr};
    }
    ok := true;
  }

  /** The outer loop of the validators, over every node in turn. */
  method CheckGraph<N>(graph: map<N, set<N>>, symmetric: bool) returns (ok: bool)
    ensures ok <==> forall u, v :: u in graph && v in graph[u] ==>
      v in graph && v != u && (symmetric ==> u in graph[v])
  {
    var todo := graph.Keys;
    while todo != {}
      invariant todo <= graph.Keys
      invariant forall u, v :: u in graph.Keys - todo && v in graph[u] ==>
        v in graph && v != u && (symmetric ==> u in graph[v])
      decreases |todo|
    {
      assert todo != {};
      var node :| node in todo;
      var good := CheckNeighbours(graph, node, symmetric);
      if !good {
        return false;
      }
      todo := todo - {node};
    }
    ok := true;
  }

  /** validate_directed_graph */
  method ValidateDirectedGraph<N>(graph: map<N, set<N>>) returns (ok: bool)
    ensures ok <==> DirectedValid(graph)
  {
    ok := CheckGraph(graph, false);
  }

  /** validate_undirected_graph */
  method ValidateUndirectedGraph<N>(graph: map<N, set<N>>) returns (ok: bool)
    ensures ok <==> UndirectedValid(graph)
  {
    ok := CheckGraph(graph, true);
  }

  /** validate_bfs: a valid undirected graph and a start node of it. */
  method ValidateBfs<N>(graph: map<N, set<N>>, start: N) returns (ok: bool)
    ensures ok <==> UndirectedValid(graph) && start in graph
  {
    ok := ValidateUndirectedGraph(graph);
    if ok {
      ok := start in graph;
    }
  }

  /** No element of `s` occurs twice. */
  predicate NoDuplicates<N(==)>(s: seq<N>) {
    forall i, j :: 0 <= i < j < |s| ==> s[i] != s[j]
  }

  /** validate_resilience: a valid undirected graph and a list of distinct nodes of it. */
  method ValidateResilience<N>(graph: map<N, set<N>>, nodes: seq<N>) returns (ok: bool)
    ensures ok <==> (UndirectedValid(graph) && (forall i :: 0 <= i < |nodes| ==> nodes[i] in graph)
      && NoDuplicates(nodes))
  {
    ok := ValidateUndirectedGraph(graph);
    if ok {
      ok := (forall i :: 0 <= i < |nodes| ==> nodes[i] in graph) && NoDuplicates(nodes);
    }
  }

  // ---------------------------------------------------------------------
  // Mutators. Both build a repaired copy `newGraph` node by node and then
  // replace the contents of the argument with it.

  /** `w` is not a node, but some node of `from` names it as a neighbour. */
  ghost predicate IsAbsent<N>(g: map<N, set<N>>, from: set<N>, w: N) {
    w !in g && exists u :: u in from && u in g && w in g[u]
  }

  /** `r[w]` is the single node, among `from`, that first named the absent `w`. */
  ghost predicate FirstNamer<N>(g: map<N, set<N>>, from: set<N>, w: N, r: set<N>) {
    exists u :: u in from && u in g && w in g[u] && r == {u}
  }

  /**
   * The repaired copy after mutate_directed_graph has visited the nodes of
   * `done`: each visited node keeps its neighbours but itself, and each
   * absent neighbour becomes a node pointing back at the visited node that
   * named it first.
   */
  ghost predicate DirectedSoFar<N>(g: map<N, set<N>>, done: set<N>, r: map<N, set<N>>) {
    done <= g.Keys
    && (forall w :: w in r ==> w in done || IsAbsent(g, done, w))
    && done <= r.Keys
    && (forall u, w :: u in done && w in g[u] && w !in g ==> w in r)
    && (forall u :: u in done ==> r[u] == g[u] - {u})
    && (forall w :: w in r && w !in g ==> FirstNamer(g, done, w, r[w]))
  }

  /** What mutate_directed_graph leaves in the argument. */
  ghost predicate DirectedMutation<N>(g: map<N, set<N>>, r: map<N, set<N>>) {
    DirectedSoFar(g, g.Keys, r)
  }

  /** The visit of one node by mutate_directed_graph. */
  method DirectedVisit<N>(graph: map<N, set<N>>, ghost done: set<N>, node: N, newGraph: map<N, set<N>>)
    returns (r: map<N, set<N>>)
    requires node in graph && node !in done && DirectedSoFar(graph, done, newGraph)
    ensures DirectedSoFar(graph, done + {node}, r)
  {
    assert node !in newGraph;
    if node !in newGraph {
      r := newGraph[node := graph[node]];
    } else {
      assert false;
    }
    r := DirectedNeighbours(graph, node, newGraph, r);
    DirectedVisitDone(graph, done, node, newGraph, r);
  }

  /** The copy while mutate_directed_graph runs through the neighbours `seen` of `node`. */
  ghost predicate DirectedNeighboursSoFar<N>(graph: map<N, set<N>>, node: N, newGraph: map<N, set<N>>,
                                             seen: set<N>, r: map<N, set<N>>)
    requires node in graph
  {
    && r.Keys == newGraph.Keys + {node} + (seen - graph.Keys)
    && (forall k :: k in newGraph ==> r[k] == newGraph[k])
    && r[node] == (if node in seen then graph[node] - {node} else graph[node])
    && (forall w :: w in r && w !in newGraph && w != node ==> r[w] == {node})
  }

  /** The body of the inner loop of mutate_directed_graph, for one neighbour. */
  function DirectedNeighbour<N>(graph: map<N, set<N>>, node: N, nbr: N, r: map<N, set<N>>): map<N, set<N>>
    requires node in r
  {
    if nbr !in graph then
      if nbr !in r then r[nbr := {node}] else r
    else if nbr == node then r[node := r[node] - {node}]
    else r
  }

  lemma DirectedNeighbourStep<N>(graph: map<N, set<N>>, node: N, newGraph: map<N, set<N>>,
                                 seen: set<N>, nbr: N, r: map<N, set<N>>)
    requires node in graph && node !in newGraph && nbr in graph[node]
    requires DirectedNeighboursSoFar(graph, node, newGraph, seen, r)
    ensures DirectedNeighboursSoFar(graph, node, newGraph, seen + {nbr}, DirectedNeighbour(graph, node, nbr, r))
  {
  }

  /** The inner loop of mutate_directed_graph: drop a self-loop, give each new absent neighbour a node. */
  method DirectedNeighbours<N>(graph: map<N, set<N>>, node: N, newGraph: map<N, set<N>>, start: map<N, set<N>>)
    returns (r: map<N, set<N>>)
    requires node in graph && node !in newGraph && start == newGraph[node := graph[node]]
    ensures DirectedNeighboursSoFar(graph, node, newGraph, graph[node], r)
  {
    r := start;
    var nbrs := graph[node];
    ghost var seen: set<N> := {};
    while nbrs != {}
      invariant nbrs + seen == graph[node]
      invariant DirectedNeighboursSoFar(graph, node, newGraph, seen, r)
      decreases |nbrs|
    {
      var nbr :| nbr in nbrs;
      DirectedNeighbourStep(graph, node, newGraph, seen, nbr, r);
      r := DirectedNeighbour(graph, node, nbr, r);
      nbrs := nbrs - {nbr};
      seen := seen + {nbr};
    }
  }

  lemma DirectedVisitDone<N>(g: map<N, set<N>>, done: set<N>, node: N, before: map<N, set<N>>, after: map<N, set<N>>)
    requires node in g && node !in done && DirectedSoFar(g, done, before)
    requires DirectedNeighboursSoFar(g, node, before, g[node], after)
    ensures DirectedSoFar(g, done + {node}, after)
  {
    var done' := done + {node};
    forall w | w in after ensures w in done' || IsAbsent(g, done', w) {
      if w !in done' && w !in before {
        assert w in g[node] && w !in g;
      }
    }
    forall w | w in after && w !in g ensures FirstNamer(g, done', w, after[w]) {
      if w in before {
        var u :| u in done && u in g && w in g[u] && before[w] == {u};
        assert u in done';
      } else {
        assert w in g[node];
        assert after[w] == {node};
      }
    }
  }

  lemma NothingVisited<N>(g: map<N, set<N>>)
    ensures DirectedSoFar(g, {}, map[])
  {
  }

  /** The loop of mutate_directed_graph over every node in turn. */
  method DirectedRepair<N>(graph: map<N, set<N>>) returns (newGraph: map<N, set<N>>)
    ensures DirectedMutation(graph, newGraph)
  {
    newGraph := map[];
    var done: set<N> := {};
    NothingVisited(graph);
    while done != graph.Keys
      invariant done <= graph.Keys
      invariant DirectedSoFar(graph, done, newGraph)
      decreases |graph.Keys - done|
    {
      var node :| node in graph.Keys - done;
      newGraph := DirectedVisit(graph, done, node, newGraph);
      done := done + {node};
    }
  }

  /** mutate_directed_graph: always accepts, and repairs the argument in place. */
  method MutateDirectedGraph<N(==)>(graph: GraphArg<N>) returns (ok: bool)
    modifies graph
    ensures ok
    ensures DirectedMutation(old(graph.adj), graph.adj)
  {
    var newGraph := DirectedRepair(graph.adj);
    graph.adj := newGraph;
    ok := true;
  }

  /**
   * The repaired directed graph is valid, keeps every node, keeps every
   * edge except self-loops, and makes every formerly absent neighbour a node.
   */
  lemma {:induction false} DirectedMutationValid<N>(g: map<N, set<N>>, r: map<N, set<N>>)
    requires DirectedMutation(g, r)
    ensures DirectedValid(r)
    ensures g.Keys <= r.Keys
    ensures forall u, v :: u in g && v in g[u] ==> v in r
    ensures forall u :: u in g ==> r[u] == g[u] - {u}
  {
    forall u, v | u in r && v in r[u] ensures v in r && v != u {
      if u in g {
        assert v in g[u];
      } else {
        var x :| x in g && u in g[x] && r[u] == {x};
        assert v == x;
      }
    }
  }

  // mutate_undirected_graph. The `fixed` flag selects how an absent
  // neighbour is recorded: as written, only the first node that names it
  // becomes its neighbour (`new_graph[nbr] = set([node])` when it is not yet
  // a key); fixed, every node that names it is added.

  /** The nodes of `from` with an edge to `v`. */
  ghost function Into<N>(g: map<N, set<N>>, from: set<N>, v: N): set<N> {
    set u | u in from && u in g && v in g[u] && u != v
  }

  /** The nodes of `from` with an edge to `v` that `v` does not return. */
  ghost function AsymInto<N>(g: map<N, set<N>>, from: set<N>, v: N): set<N>
    requires v in g
  {
    set u | u in from && u in g && v in g[u] && u != v && u !in g[v]
  }

  /**
   * The repaired copy after mutate_undirected_graph has visited the nodes of
   * `done`: a visited node has its own neighbours but itself and every
   * visited node that points at it; an unvisited node has the visited nodes
   * whose edge to it it does not return; an absent neighbour has the first
   * visited node that named it (as written) or all of them (fixed).
   */
  ghost predicate UndirectedSoFar<N>(g: map<N, set<N>>, done: set<N>, r: map<N, set<N>>, fixed: bool) {
    done <= g.Keys
    && done <= r.Keys
    && (forall w :: w in r ==> w in done || IsAbsent(g, done, w) || (w in g && AsymInto(g, done, w) != {}))
    && (forall u, w :: u in done && w in g[u] && w !in g ==> w in r)
    && (forall w :: w in g && AsymInto(g, done, w) != {} ==> w in r)
    && (forall v :: v in done ==> r[v] == (g[v] - {v}) + Into(g, done, v))
    && (forall v :: v in r && v in g && v !in done ==> r[v] == AsymInto(g, done, v))
    && (forall w :: w in r && w !in g ==>
          if fixed then r[w] == Into(g, done, w) else FirstNamer(g, done, w, r[w]))
  }

  /** What mutate_undirected_graph leaves in the argument. */
  ghost predicate UndirectedMutation<N>(g: map<N, set<N>>, r: map<N, set<N>>, fixed: bool) {
    UndirectedSoFar(g, g.Keys, r, fixed)
  }

  /** Whether visiting `node` adds `node` to the neighbours of `k`. */
  ghost predicate AddsBack<N>(g: map<N, set<N>>, node: N, newGraph: map<N, set<N>>, k: N, fixed: bool)
    requires node in g
  {
    k in g[node] && k != node
    && (if k in g then node !in g[k] else fixed || k !in newGraph)
  }

  /** The neighbours among `seen` to which visiting `node` adds `node`. */
  ghost function AddedBack<N>(g: map<N, set<N>>, node: N, newGraph: map<N, set<N>>, seen: set<N>, fixed: bool): set<N>
    requires node in g
  {
    set k | k in seen && AddsBack(g, node, newGraph, k, fixed)
  }

  /** The copy while mutate_undirected_graph runs through the neighbours `seen` of `node`. */
  ghost predicate UndirectedNeighboursSoFar<N>(g: map<N, set<N>>, node: N, newGraph: map<N, set<N>>,
                                               seen: set<N>, r: map<N, set<N>>, fixed: bool)
    requires node in g
  {
    && r.Keys == newGraph.Keys + {node} + AddedBack(g, node, newGraph, seen, fixed)
    && r[node] == (if node in newGraph then newGraph[node] else {}) + g[node] - (if node in seen then {node} else {})
    && (forall k :: k in r && k != node ==>
          r[k] == (if k in newGraph then newGraph[k] else {})
                  + (if k in seen && AddsBack(g, node, newGraph, k, fixed) then {node} else {}))
  }

  /** The body of the inner loop of mutate_undirected_graph, for one neighbour. */
  function UndirectedNeighbour<N>(graph: map<N, set<N>>, node: N, nbr: N, r: map<N, set<N>>, fixed: bool): map<N, set<N>>
    requires node in r
  {
    if nbr !in graph then
      if fixed then r[nbr := (if nbr in r then r[nbr] else {}) + {node}]
      else if nbr !in r then r[nbr := {node}] else r
    else if nbr == node then r[node := r[node] - {node}]
    else if node !in graph[nbr] then r[nbr := (if nbr in r then r[nbr] else {}) + {node}]
    else r
  }

  lemma UndirectedNeighbourStep<N>(g: map<N, set<N>>, node: N, newGraph: map<N, set<N>>,
                                   seen: set<N>, nbr: N, r: map<N, set<N>>, fixed: bool)
    requires node in g && nbr in g[node] && seen <= g[node]
    requires UndirectedNeighboursSoFar(g, node, newGraph, seen, r, fixed)
    ensures UndirectedNeighboursSoFar(g, node, newGraph, seen + {nbr}, UndirectedNeighbour(g, node, nbr, r, fixed), fixed)
  {
    AddedBackAdd(g, node, newGraph, seen, nbr, fixed);
    if nbr == node {
      assert !AddsBack(g, node, newGraph, nbr, fixed);
    } else if AddsBack(g, node, newGraph, nbr, fixed) {
      AddsBackStep(g, node, newGraph, seen, nbr, r, fixed);
    } else {
      assert UndirectedNeighbour(g, node, nbr, r, fixed) == r;
    }
  }

  lemma AddedBackAdd<N>(g: map<N, set<N>>, node: N, newGraph: map<N, set<N>>, seen: set<N>, nbr: N, fixed: bool)
    requires node in g
    ensures AddedBack(g, node, newGraph, seen + {nbr}, fixed)
        == AddedBack(g, node, newGraph, seen, fixed) + (if AddsBack(g, node, newGraph, nbr, fixed) then {nbr} else {})
  {
  }

  lemma AddsBackStep<N>(g: map<N, set<N>>, node: N, newGraph: map<N, set<N>>,
                        seen: set<N>, nbr: N, r: map<N, set<N>>, fixed: bool)
    requires node in g && nbr in g[node] && nbr != node && AddsBack(g, node, newGraph, nbr, fixed)
    requires UndirectedNeighboursSoFar(g, node, newGraph, seen, r, fixed)
    requires AddedBack(g, node, newGraph, seen + {nbr}, fixed) == AddedBack(g, node, newGraph, seen, fixed) + {nbr}
    ensures UndirectedNeighboursSoFar(g, node, newGraph, seen + {nbr}, UndirectedNeighbour(g, node, nbr, r, fixed), fixed)
  {
    var r' := UndirectedNeighbour(g, node, nbr, r, fixed);
    var old_ := if nbr in r then r[nbr] else {};
    assert r'.Keys == r.Keys + {nbr};
    assert r'[nbr] == old_ + {node};
    assert forall k :: k in r && k != nbr ==> r'[k] == r[k];
  }

  lemma UndirectedNeighboursStart<N>(g: map<N, set<N>>, node: N, newGraph: map<N, set<N>>, r: map<N, set<N>>, fixed: bool)
    requires node in g
    requires r == newGraph[node := (if node in newGraph then newGraph[node] else {}) + g[node]]
    ensures UndirectedNeighboursSoFar(g, node, newGraph, {}, r, fixed)
  {
    assert AddedBack(g, node, newGraph, {}, fixed) == {};
  }

  /** The inner loop of mutate_undirected_graph. */
  method UndirectedNeighbours<N>(graph: map<N, set<N>>, node: N, newGraph: map<N, set<N>>, fixed: bool)
    returns (r: map<N, set<N>>)
    requires node in graph
    ensures UndirectedNeighboursSoFar(graph, node, newGraph, graph[node], r, fixed)
  {
    if node !in newGraph {
      r := newGraph[node := graph[node]];
    } else {
      r := newGraph[node := newGraph[node] + graph[node]];
    }
    UndirectedNeighboursStart(graph, node, newGraph, r, fixed);
    var nbrs := graph[node];
    ghost var seen: set<N> := {};
    while nbrs != {}
      invariant nbrs + seen == graph[node]
      invariant UndirectedNeighboursSoFar(graph, node, newGraph, seen, r, fixed)
      decreases |nbrs|
    {
      assert nbrs != {};
      var nbr :| nbr in nbrs;
      UndirectedNeighbourStep(graph, node, newGraph, seen, nbr, r, fixed);
      r := UndirectedNeighbour(graph, node, nbr, r, fixed);
      nbrs := nbrs - {nbr};
      seen := seen + {nbr};
    }
  }

  lemma IntoAdd<N>(g: map<N, set<N>>, done: set<N>, node: N, v: N)
    requires node in g
    ensures Into(g, done + {node}, v) == Into(g, done, v) + (if v in g[node] && v != node then {node} else {})
  {
  }

  lemma AsymIntoAdd<N>(g: map<N, set<N>>, done: set<N>, node: N, v: N)
    requires node in g && v in g
    ensures AsymInto(g, done + {node}, v)
         == AsymInto(g, done, v) + (if v in g[node] && v != node && node !in g[v] then {node} else {})
  {
  }

  /** The facts about the copy before a visit that the visit relies on. */
  lemma UndirectedBefore<N>(g: map<N, set<N>>, done: set<N>, node: N, newGraph: map<N, set<N>>, fixed: bool)
    requires node in g && node !in done && UndirectedSoFar(g, done, newGraph, fixed)
    ensures (if node in newGraph then newGraph[node] else {}) == AsymInto(g, done, node)
    ensures forall w :: w in g[node] && w !in g && w !in newGraph ==> Into(g, done, w) == {}
  {
    forall w | w in g[node] && w !in g && w !in newGraph ensures Into(g, done, w) == {} {
      if x :| x in Into(g, done, w) {
        assert false;
      }
    }
  }

  lemma UndirectedVisitKeys<N>(g: map<N, set<N>>, done: set<N>, node: N, newGraph: map<N, set<N>>,
                               r: map<N, set<N>>, fixed: bool)
    requires node in g && node !in done && UndirectedSoFar(g, done, newGraph, fixed)
    requires UndirectedNeighboursSoFar(g, node, newGraph, g[node], r, fixed)
    ensures var done' := done + {node};
      done' <= r.Keys
      && (forall w :: w in r ==> w in done' || IsAbsent(g, done', w) || (w in g && AsymInto(g, done', w) != {}))
      && (forall u, w :: u in done' && w in g[u] && w !in g ==> w in r)
      && (forall w :: w in g && AsymInto(g, done', w) != {} ==> w in r)
  {
    var done' := done + {node};
    forall w | w in r ensures w in done' || IsAbsent(g, done', w) || (w in g && AsymInto(g, done', w) != {}) {
      if w in newGraph {
        if w !in done && !IsAbsent(g, done, w) {
          var x :| x in AsymInto(g, done, w);
          assert x in AsymInto(g, done', w);
        } else if w !in done {
          var u :| u in done && u in g && w in g[u];
          assert IsAbsent(g, done', w);
        }
      } else if w != node {
        assert AddsBack(g, node, newGraph, w, fixed);
        if w in g {
          assert node in AsymInto(g, done', w);
        } else {
          assert IsAbsent(g, done', w);
        }
      }
    }
    forall u, w | u in done' && w in g[u] && w !in g ensures w in r {
      if u == node && w !in newGraph {
        assert AddsBack(g, node, newGraph, w, fixed);
      }
    }
    forall w | w in g && AsymInto(g, done', w) != {} ensures w in r {
      var x :| x in AsymInto(g, done', w);
      if x in done {
        assert x in AsymInto(g, done, w);
      } else {
        assert AddsBack(g, node, newGraph, w, fixed);
      }
    }
  }

  /** The visited node itself ends with its own neighbours but itself, and those of its asymmetric in-edges. */
  lemma UndirectedVisitNode<N>(g: map<N, set<N>>, done: set<N>, node: N, newGraph: map<N, set<N>>,
                               r: map<N, set<N>>, fixed: bool)
    requires node in g && node !in done && UndirectedSoFar(g, done, newGraph, fixed)
    requires UndirectedNeighboursSoFar(g, node, newGraph, g[node], r, fixed)
    ensures r[node] == (g[node] - {node}) + Into(g, done + {node}, node)
  {
    UndirectedBefore(g, done, node, newGraph, fixed);
    IntoAdd(g, done, node, node);
    assert Into(g, done, node) - AsymInto(g, done, node) <= g[node] - {node};
  }

  lemma UndirectedVisitVisited<N>(g: map<N, set<N>>, done: set<N>, node: N, newGraph: map<N, set<N>>,
                                  r: map<N, set<N>>, fixed: bool)
    requires node in g && node !in done && UndirectedSoFar(g, done, newGraph, fixed)
    requires UndirectedNeighboursSoFar(g, node, newGraph, g[node], r, fixed)
    ensures forall v :: v in done + {node} ==> r[v] == (g[v] - {v}) + Into(g, done + {node}, v)
  {
    UndirectedVisitNode(g, done, node, newGraph, r, fixed);
    forall v | v in done ensures r[v] == (g[v] - {v}) + Into(g, done + {node}, v) {
      IntoAdd(g, done, node, v);
    }
  }

  lemma UndirectedVisitUnvisited<N>(g: map<N, set<N>>, done: set<N>, node: N, newGraph: map<N, set<N>>,
                                    r: map<N, set<N>>, fixed: bool)
    requires node in g && node !in done && UndirectedSoFar(g, done, newGraph, fixed)
    requires UndirectedNeighboursSoFar(g, node, newGraph, g[node], r, fixed)
    ensures forall v :: v in r && v in g && v !in done + {node} ==> r[v] == AsymInto(g, done + {node}, v)
  {
    var done' := done + {node};
    forall v | v in r && v in g && v !in done' ensures r[v] == AsymInto(g, done', v) {
      AsymIntoAdd(g, done, node, v);
      if v !in newGraph && AsymInto(g, done, v) != {} {
        assert false;
      }
    }
  }

  lemma UndirectedVisitAbsent<N>(g: map<N, set<N>>, done: set<N>, node: N, newGraph: map<N, set<N>>,
                                 r: map<N, set<N>>, fixed: bool)
    requires node in g && node !in done && UndirectedSoFar(g, done, newGraph, fixed)
    requires UndirectedNeighboursSoFar(g, node, newGraph, g[node], r, fixed)
    ensures forall w :: w in r && w !in g ==>
      if fixed then r[w] == Into(g, done + {node}, w) else FirstNamer(g, done + {node}, w, r[w])
  {
    UndirectedBefore(g, done, node, newGraph, fixed);
    forall w | w in r && w !in g ensures if fixed then r[w] == Into(g, done + {node}, w) else FirstNamer(g, done + {node}, w, r[w]) {
      UndirectedAbsentOne(g, done, node, newGraph, r, fixed, w);
    }
  }

  lemma UndirectedAbsentOne<N>(g: map<N, set<N>>, done: set<N>, node: N, newGraph: map<N, set<N>>,
                               r: map<N, set<N>>, fixed: bool, w: N)
    requires node in g && node !in done && UndirectedSoFar(g, done, newGraph, fixed)
    requires UndirectedNeighboursSoFar(g, node, newGraph, g[node], r, fixed)
    requires forall w :: w in g[node] && w !in g && w !in newGraph ==> Into(g, done, w) == {}
    requires w in r && w !in g
    ensures if fixed then r[w] == Into(g, done + {node}, w) else FirstNamer(g, done + {node}, w, r[w])
  {
    if fixed {
      IntoAdd(g, done, node, w);
    } else if w in newGraph {
      var u :| u in done && u in g && w in g[u] && newGraph[w] == {u};
      assert u in done + {node};
    } else {
      assert AddsBack(g, node, newGraph, w, fixed);
      assert r[w] == {node};
    }
  }

  /** Visiting one more node keeps the partial-state description. */
  lemma UndirectedVisitDone<N>(g: map<N, set<N>>, done: set<N>, node: N, newGraph: map<N, set<N>>,
                               r: map<N, set<N>>, fixed: bool)
    requires node in g && node !in done && UndirectedSoFar(g, done, newGraph, fixed)
    requires UndirectedNeighboursSoFar(g, node, newGraph, g[node], r, fixed)
    ensures UndirectedSoFar(g, done + {node}, r, fixed)
  {
    UndirectedVisitKeys(g, done, node, newGraph, r, fixed);
    UndirectedVisitVisited(g, done, node, newGraph, r, fixed);
    UndirectedVisitUnvisited(g, done, node, newGraph, r, fixed);
    UndirectedVisitAbsent(g, done, node, newGraph, r, fixed);
  }

  /** One turn of the outer loop of mutate_undirected_graph. */
  method UndirectedVisit<N>(graph: map<N, set<N>>, ghost done: set<N>, node: N, newGraph: map<N, set<N>>, fixed: bool)
    returns (r: map<N, set<N>>)
    requires node in graph && node !in done && UndirectedSoFar(graph, done, newGraph, fixed)
    ensures UndirectedSoFar(graph, done + {node}, r, fixed)
  {
    r := UndirectedNeighbours(graph, node, newGraph, fixed);
    UndirectedVisitDone(graph, done, node, newGraph, r, fixed);
  }

  lemma NothingVisitedUndirected<N>(g: map<N, set<N>>, fixed: bool)
    ensures UndirectedSoFar(g, {}, map[], fixed)
  {
    forall w | w in g ensures AsymInto(g, {}, w) == {} {
    }
  }

  /** The loop of mutate_undirected_graph over every node in turn. */
  method UndirectedRepair<N>(graph: map<N, set<N>>, fixed: bool) returns (newGraph: map<N, set<N>>)
    ensures UndirectedMutation(graph, newGraph, fixed)
  {
    newGraph := map[];
    var done: set<N> := {};
    NothingVisitedUndirected(graph, fixed);
    while done != graph.Keys
      invariant done <= graph.Keys
      invariant UndirectedSoFar(graph, done, newGraph, fixed)
      decreases |graph.Keys - done|
    {
      var node :| node in graph.Keys - done;
      newGraph := UndirectedVisit(graph, done, node, newGraph, fixed);
      done := done + {node};
    }
  }

  /** mutate_undirected_graph as written: always accepts, and replaces the argument's contents. */
  method MutateUndirectedGraphAsWritten<N(==)>(graph: GraphArg<N>) returns (ok: bool)
    modifies graph
    ensures ok
    ensures UndirectedMutation(old(graph.adj), graph.adj, false)
  {
    var newGraph := UndirectedRepair(graph.adj, false);
    graph.adj := newGraph;
    ok := true;
  }

  /**
   * mutate_undirected_graph with an absent neighbour given every node that
   * names it: the repair the source evidently intends.
   */
  method MutateUndirectedGraph<N(==)>(graph: GraphArg<N>) returns (ok: bool)
    modifies graph
    ensures ok
    ensures UndirectedMutation(old(graph.adj), graph.adj, true)
  {
    var newGraph := UndirectedRepair(graph.adj, true);
    graph.adj := newGraph;
    ok := true;
  }

  /**
   * The repaired undirected graph is valid and keeps every node; each node
   * keeps its neighbours but itself and gains every node that names it.
   */
  lemma {:induction false} UndirectedMutationValid<N>(g: map<N, set<N>>, r: map<N, set<N>>)
    requires UndirectedMutation(g, r, true)
    ensures UndirectedValid(r)
    ensures g.Keys <= r.Keys
    ensures forall u :: u in g ==> r[u] == (g[u] - {u}) + Into(g, g.Keys, u)
    ensures forall u, v :: u in g && v in g[u] && v != u ==> v in r && u in r[v] && v in r[u]
  {
    var K := g.Keys;
    forall u, v | u in g && v in g[u] && v != u ensures v in r && u in r[v] {
      assert u in Into(g, K, v);
    }
    forall u, v | u in r && v in r[u] ensures v in r && v != u && u in r[v] {
      if u in g && v in g[u] {
        assert v != u;
      } else {
        assert v in Into(g, K, u);
        assert u in g[v] - {v};
      }
    }
  }

  /**
   * As written, two nodes naming the same absent neighbour leave the result
   * asymmetric: with 0 and 1 both pointing at 2, node 2 gets only one of them.
   */
  lemma SharedAbsentNeighbour(r: map<int, set<int>>)
    requires UndirectedMutation(map[0 := {2}, 1 := {2}], r, false)
    ensures !UndirectedValid(r)
  {
    var g := map[0 := {2}, 1 := {2}];
    assert 2 in g[0] && 2 !in g;
    assert Into(g, g.Keys, 0) == {} && Into(g, g.Keys, 1) == {};
    assert r[0] == {2} && r[1] == {2};
    var u :| u in g.Keys && u in g && 2 in g[u] && r[2] == {u};
    if u == 0 {
      assert 2 in r[1] && 1 !in r[2];
    } else {
      assert 2 in r[0] && 0 !in r[2];
    }
  }

  /** Visiting 0 first gives 2 the neighbour 0 only, which is one outcome the loop can reach. */
  lemma SharedAbsentNeighbourReached()
    ensures UndirectedMutation(map[0 := {2}, 1 := {2}], map[0 := {2}, 1 := {2}, 2 := {0}], false)
  {
    var g := map[0 := {2}, 1 := {2}];
    var r := map[0 := {2}, 1 := {2}, 2 := {0}];
    assert Into(g, g.Keys, 0) == {} && Into(g, g.Keys, 1) == {};
    assert FirstNamer(g, g.Keys, 2, r[2]);
    assert IsAbsent(g, g.Keys, 2);
  }

  /** mutate_bfs: repairs the graph, then accepts exactly when the start node is one of its nodes. */
  method MutateBfs<N(==)>(graph: GraphArg<N>, start: N) returns (ok: bool)
    modifies graph
    ensures UndirectedMutation(old(graph.adj), graph.adj, false)
    ensures ok <==> start in graph.adj
  {
    ok := MutateUndirectedGraphAsWritten(graph);
    if ok {
      ok := start in graph.adj;
    }
  }

  /** mutate_resilience: repairs the graph, then checks the node list as validate_resilience does. */
  method MutateResilience<N(==)>(graph: GraphArg<N>, nodes: seq<N>) returns (ok: bool)
    modifies graph
    ensures UndirectedMutation(old(graph.adj), graph.adj, false)
    ensures ok <==> (forall i :: 0 <= i < |nodes| ==> nodes[i] in graph.adj) && NoDuplicates(nodes)
  {
    ok := MutateUndirectedGraphAsWritten(graph);
    if ok {
      ok := (forall i :: 0 <= i < |nodes| ==> nodes[i] in graph.adj) && NoDuplicates(nodes);
    }
  }
}
