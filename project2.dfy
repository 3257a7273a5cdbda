// Reference solution of the graph project: complete graphs, in-degrees and
// the in-degree distribution of a directed graph given as a map from each
// node to the set of its neighbours.
module Project2 {
  import opened Wrappers
  import opened MapSums

  /** The nodes 0..n-1 other than `k`. */
  function Others(n: int, k: int): set<int> {
    Range(n) - {k}
  }

  /** The nodes 0..n-1. */
  function Range(n: int): (r: set<int>)
    ensures forall v :: v in r <==> 0 <= v < n
    decreases n
  {
    if n <= 0 then {} else Range(n - 1) + {n - 1}
  }

  lemma {:induction false} RangeSize(n: int)
    ensures |Range(n)| == if n > 0 then n else 0
    decreases n
  {
    if n > 0 {
      RangeSize(n - 1);
      assert n - 1 !in Range(n - 1);
    }
  }

  /** make_complete_graph: nodes 0..n-1, each joined to every other node. */
  method MakeCompleteGraph(numNodes: int) returns (result: map<int, set<int>>)
    ensures forall k :: k in result <==> 0 <= k < numNodes
    ensures forall k :: k in result ==> result[k] == Others(numNodes, k)
    ensures numNodes <= 0 ==> result == map[]
  {
    result := map[];
    var nodeKey := 0;
    while nodeKey < numNodes
      invariant 0 <= nodeKey && (nodeKey <= numNodes || nodeKey == 0)
      invariant forall k :: k in result <==> 0 <= k < nodeKey
      invariant forall k :: k in result ==> result[k] == Others(numNodes, k)
    {
      result := AddNeighbours(result[nodeKey := {}], numNodes, nodeKey);
      nodeKey := nodeKey + 1;
    }
  }

  /** The inner loop of make_complete_graph: node_key's set receives every other node below numNodes. */
  method AddNeighbours(graph: map<int, set<int>>, numNodes: int, nodeKey: int) returns (result: map<int, set<int>>)
    requires nodeKey in graph && graph[nodeKey] == {}
    ensures result.Keys == graph.Keys && result[nodeKey] == Others(numNodes, nodeKey)
    ensures forall k :: k in graph && k != nodeKey ==> result[k] == graph[k]
  {
    result := graph;
    var nodeValue := 0;
    assert Others(0, nodeKey) == {} by { assert Range(0) == {}; }
    while nodeValue < numNodes
      invariant 0 <= nodeValue && (nodeValue <= numNodes || nodeValue == 0)
      invariant result.Keys == graph.Keys && result[nodeKey] == Others(nodeValue, nodeKey)
      invariant forall k :: k in graph && k != nodeKey ==> result[k] == graph[k]
    {
      if nodeKey != nodeValue {
        result := result[nodeKey := result[nodeKey] + {nodeValue}];
      }
      OthersStep(nodeValue, nodeKey);
      nodeValue := nodeValue + 1;
    }
    assert Others(nodeValue, nodeKey) == Others(numNodes, nodeKey);
  }

  lemma OthersStep(v: int, k: int)
    requires 0 <= v
    ensures Others(v + 1, k) == if v == k then Others(v, k) else Others(v, k) + {v}
  {
    assert Range(v + 1) == Range(v) + {v};
  }

  /** The nodes among `from` whose neighbour set contains `v`. */
  ghost function Sources<N>(g: map<N, set<N>>, from: set<N>, v: N): set<N> {
    set u | u in from && u in g && v in g[u]
  }

  /** The number of nodes whose neighbour set contains `v`. */
  ghost function InDegree<N>(g: map<N, set<N>>, v: N): nat {
    |Sources(g, g.Keys, v)|
  }

  /** Every node mapped to its in-degree: what compute_in_degrees returns. */
  ghost function InDegrees<N>(g: map<N, set<N>>): (r: map<N, int>)
    ensures r.Keys == g.Keys
  {
    map v | v in g :: InDegree(g, v)
  }

  /** Every edge ends at a node of the graph. */
  predicate NeighboursAreKeys<N>(g: map<N, set<N>>) {
    EdgesEndAtKeys(g, g.Keys)
  }

  /** Every edge leaving a node of `from` ends at a node of the graph. */
  predicate EdgesEndAtKeys<N>(g: map<N, set<N>>, from: set<N>) {
    forall u :: u in from && u in g ==> g[u] <= g.Keys
  }

  /** Each node of `from` mapped to the size of its neighbour set. */
  ghost function EdgeSizes<N>(g: map<N, set<N>>, from: set<N>): (r: map<N, int>)
    requires from <= g.Keys
    ensures r.Keys == from && forall u :: u in r ==> r[u] == |g[u]|
  {
    map u | u in from :: |g[u]|
  }

  /** The number of edges leaving the nodes of `from`. */
  ghost function EdgeCount<N>(g: map<N, set<N>>, from: set<N>): int
    requires from <= g.Keys
  {
    SumValues(EdgeSizes(g, from))
  }

  lemma SourcesAdd<N>(g: map<N, set<N>>, from: set<N>, u: N, v: N)
    requires u in g && u !in from
    ensures |Sources(g, from + {u}, v)| == |Sources(g, from, v)| + (if v in g[u] then 1 else 0)
  {
    if v in g[u] {
      assert Sources(g, from + {u}, v) == Sources(g, from, v) + {u};
    } else {
      assert Sources(g, from + {u}, v) == Sources(g, from, v);
    }
  }

  lemma EdgeCountEmpty<N>(g: map<N, set<N>>)
    ensures EdgeCount(g, {}) == 0
  {
    assert EdgeSizes(g, {}) == map[];
  }

  lemma EdgeCountAdd<N>(g: map<N, set<N>>, from: set<N>, u: N)
    requires from <= g.Keys && u in g && u !in from
    ensures EdgeCount(g, from + {u}) == EdgeCount(g, from) + |g[u]|
  {
    var m := EdgeSizes(g, from + {u});
    SumValuesRemove(m, u);
    assert m - {u} == EdgeSizes(g, from);
  }

  /** The in-degree counts as far as the edges leaving `from`. */
  ghost function PartialInDegrees<N>(g: map<N, set<N>>, from: set<N>): (r: map<N, int>)
    ensures r.Keys == g.Keys
  {
    map v | v in g :: |Sources(g, from, v)|
  }

  /**
   * Each edge is counted once at its target: when every edge ends at a node,
   * the in-degrees add up to the number of edges.
   */
  lemma {:induction false} InDegreesSum<N>(g: map<N, set<N>>)
    requires NeighboursAreKeys(g)
    ensures SumValues(InDegrees(g)) == EdgeCount(g, g.Keys)
  {
    PartialInDegreesSum(g, g.Keys);
    assert InDegrees(g) == PartialInDegrees(g, g.Keys);
  }

  lemma {:induction false} PartialInDegreesSum<N>(g: map<N, set<N>>, from: set<N>)
    requires NeighboursAreKeys(g) && from <= g.Keys
    ensures SumValues(PartialInDegrees(g, from)) == EdgeCount(g, from)
    decreases |from|
  {
    if from == {} {
      SumValuesZero(PartialInDegrees(g, from));
      EdgeCountEmpty(g);
    } else {
      var u :| u in from;
      var rest := from - {u};
      assert rest + {u} == from;
      PartialInDegreesSum(g, rest);
      var before := PartialInDegrees(g, rest);
      var after := PartialInDegrees(g, from);
      forall v | v in before ensures after[v] == before[v] + (if v in g[u] then 1 else 0) {
        SourcesAdd(g, rest, u, v);
      }
      SumValuesAddOnes(before, after, g[u]);
      EdgeCountAdd(g, rest, u);
    }
  }

  lemma PartialInDegreesNone<N>(g: map<N, set<N>>, zero: map<N, int>)
    requires zero.Keys == g.Keys && forall v :: v in zero ==> zero[v] == 0
    ensures zero == PartialInDegrees(g, {})
  {
    forall v | v in g ensures Sources(g, {}, v) == {} { }
  }

  lemma PartialInDegreesAll<N>(g: map<N, set<N>>)
    ensures PartialInDegrees(g, g.Keys) == InDegrees(g)
  {
  }

  /** One pass of the inner loop extends the counts by the edges of one more node. */
  lemma PartialInDegreesAdd<N>(g: map<N, set<N>>, done: set<N>, node: N, before: map<N, int>, after: map<N, int>)
    requires node in g && node !in done
    requires before == PartialInDegrees(g, done) && after.Keys == g.Keys
    requires forall v :: v in before ==> after[v] == before[v] + (if v in g[node] then 1 else 0)
    ensures after == PartialInDegrees(g, done + {node})
  {
    forall v | v in after ensures after[v] == |Sources(g, done + {node}, v)| {
      SourcesAdd(g, done, node, v);
    }
  }

  /**
   * A graph made by make_complete_graph has no edge leaving it, and each of
   * its n nodes has in-degree n - 1.
   */
  lemma CompleteGraphInDegrees(g: map<int, set<int>>, n: int)
    requires forall k :: k in g <==> 0 <= k < n
    requires forall k :: k in g ==> g[k] == Others(n, k)
    ensures NeighboursAreKeys(g)
    ensures forall v :: v in g ==> InDegree(g, v) == n - 1
  {
    RangeSize(n);
    forall v | v in g ensures InDegree(g, v) == n - 1 {
      assert Sources(g, g.Keys, v) == Others(n, v);
    }
  }

  /** The first loop of compute_in_degrees: every node starts at zero. */
  method ZeroDegrees<N>(keys: set<N>) returns (degrees: map<N, int>)
    ensures degrees.Keys == keys
    ensures forall v :: v in degrees ==> degrees[v] == 0
  {
    degrees := map[];
    var todo := keys;
    while todo != {}
      invariant todo <= keys
      invariant degrees.Keys == keys - todo
      invariant forall v :: v in degrees ==> degrees[v] == 0
      decreases |todo|
    {
      assert todo != {};
      var node :| node in todo;
      degrees := degrees[node := 0];
      todo := todo - {node};
    }
  }

  /**
   * The inner loop: each neighbour of `node` gains one, which adds the edges
   * of `node` to the counts; a neighbour that is not a key raises KeyError.
   */
  method CountEdgesOf<N>(digraph: map<N, set<N>>, ghost done: set<N>, node: N, degrees: map<N, int>)
    returns (r: Result<map<N, int>>)
    requires node in digraph && node !in done
    requires degrees == PartialInDegrees(digraph, done)
    ensures r.Success? <==> digraph[node] <= digraph.Keys
    ensures r.Failure? ==> r.error == "KeyError"
    ensures r.Success? ==> r.value == PartialInDegrees(digraph, done + {node})
  {
    var d := degrees;
    var nbrs := digraph[node];
    ghost var seen: set<N> := {};
    while nbrs != {}
      invariant nbrs + seen == digraph[node] && nbrs !! seen
      invariant d.Keys == degrees.Keys
      invariant forall v :: v in d ==> d[v] == degrees[v] + (if v in seen then 1 else 0)
      invariant seen <= digraph.Keys
      decreases |nbrs|
    {
      assert nbrs != {};
      var nbr :| nbr in nbrs;
      if nbr !in d {
        return Failure("KeyError");
      }
      d := d[nbr := d[nbr] + 1];
      nbrs := nbrs - {nbr};
      seen := seen + {nbr};
    }
    PartialInDegreesAdd(digraph, done, node, degrees, d);
    r := Success(d);
  }

  /**
   * compute_in_degrees: every node starts at zero and each edge adds one to
   * its target. An edge to a node that is not a key raises KeyError.
   */
  method ComputeInDegrees<N>(digraph: map<N, set<N>>) returns (r: Result<map<N, int>>)
    ensures r.Success? <==> NeighboursAreKeys(digraph)
    ensures r.Failure? ==> r.error == "KeyError"
    ensures r.Success? ==> r.value == InDegrees(digraph)
  {
    var degrees := ZeroDegrees(digraph.Keys);
    PartialInDegreesNone(digraph, degrees);
    r := CountAllEdges(digraph, degrees);
  }

  /** The second loop of compute_in_degrees, over every node in turn. */
  method CountAllEdges<N>(digraph: map<N, set<N>>, zero: map<N, int>) returns (r: Result<map<N, int>>)
    requires zero == PartialInDegrees(digraph, {})
    ensures r.Success? <==> NeighboursAreKeys(digraph)
    ensures r.Failure? ==> r.error == "KeyError"
    ensures r.Success? ==> r.value == InDegrees(digraph)
  {
    var degrees := zero;
    var done: set<N> := {};
    while done != digraph.Keys
      invariant done <= digraph.Keys
      invariant degrees == PartialInDegrees(digraph, done)
      invariant EdgesEndAtKeys(digraph, done)
      decreases |digraph.Keys - done|
    {
      var next;
      next, done := CountRound(digraph, done, degrees);
      if next.Failure? {
        return next;
      }
      degrees := next.value;
    }
    PartialInDegreesAll(digraph);
    r := Success(degrees);
  }

  /** One pass of the second loop: the edges of a node not yet counted. */
  method CountRound<N>(digraph: map<N, set<N>>, done: set<N>, degrees: map<N, int>)
    returns (r: Result<map<N, int>>, done': set<N>)
    requires done <= digraph.Keys && done != digraph.Keys
    requires degrees == PartialInDegrees(digraph, done) && EdgesEndAtKeys(digraph, done)
    ensures r.Failure? ==> r.error == "KeyError" && !NeighboursAreKeys(digraph)
    ensures r.Success? ==>
      done' <= digraph.Keys && |digraph.Keys - done'| < |digraph.Keys - done|
      && r.value == PartialInDegrees(digraph, done') && EdgesEndAtKeys(digraph, done')
  {
    assert digraph.Keys - done != {};
    var node :| node in digraph.Keys - done;
    r := CountEdgesOf(digraph, done, node, degrees);
    done' := done + {node};
    assert digraph.Keys - done' < digraph.Keys - done;
  }

  /** The nodes of `from` whose degree in `deg` is `d`. */
  ghost function WithDegree<N>(deg: map<N, int>, from: set<N>, d: int): set<N> {
    set v | v in from && v in deg && deg[v] == d
  }

  /** The degrees that the nodes of `from` have. */
  ghost function DegreesOf<N>(deg: map<N, int>, from: set<N>): set<int>
    requires from <= deg.Keys
  {
    set v | v in from :: deg[v]
  }

  /** The distribution of the degrees of the nodes of `from`. */
  ghost function Distribution<N>(deg: map<N, int>, from: set<N>): (r: map<int, int>)
    requires from <= deg.Keys
    ensures r.Keys == DegreesOf(deg, from)
  {
    map d | d in DegreesOf(deg, from) :: |WithDegree(deg, from, d)|
  }

  lemma WithDegreeAdd<N>(deg: map<N, int>, from: set<N>, v: N, d: int)
    requires v in deg && v !in from
    ensures |WithDegree(deg, from + {v}, d)| == |WithDegree(deg, from, d)| + (if deg[v] == d then 1 else 0)
  {
    if deg[v] == d {
      assert WithDegree(deg, from + {v}, d) == WithDegree(deg, from, d) + {v};
    } else {
      assert WithDegree(deg, from + {v}, d) == WithDegree(deg, from, d);
    }
  }

  /** Counting one more node raises the count of its degree by one, starting a new count at one. */
  lemma {:induction false} DistributionAdd<N>(deg: map<N, int>, from: set<N>, v: N)
    requires from <= deg.Keys && v in deg && v !in from
    ensures var old_ := Distribution(deg, from); var d := deg[v];
      Distribution(deg, from + {v}) == old_[d := if d in old_ then old_[d] + 1 else 1]
  {
    var before := Distribution(deg, from);
    var after := Distribution(deg, from + {v});
    var d := deg[v];
    var expected := before[d := if d in before then before[d] + 1 else 1];
    assert DegreesOf(deg, from + {v}) == DegreesOf(deg, from) + {d};
    forall e | e in after ensures after[e] == expected[e] {
      WithDegreeAdd(deg, from, v, e);
      if e == d && d !in before {
        assert WithDegree(deg, from, d) == {};
      }
    }
  }

  /** Every node is counted once: the distribution's counts add up to the number of nodes. */
  lemma {:induction false} DistributionSum<N>(deg: map<N, int>, from: set<N>)
    requires from <= deg.Keys
    ensures SumValues(Distribution(deg, from)) == |from|
    ensures forall d :: d in Distribution(deg, from) ==> Distribution(deg, from)[d] >= 1
    decreases |from|
  {
    if from == {} {
      assert Distribution(deg, from) == map[];
    } else {
      var v :| v in from;
      var rest := from - {v};
      assert rest + {v} == from;
      DistributionSum(deg, rest);
      DistributionAdd(deg, rest, v);
      var before := Distribution(deg, rest);
      var d := deg[v];
      SumValuesUpdate(before, d, if d in before then before[d] + 1 else 1);
    }
  }

  /**
   * in_degree_distribution: maps each in-degree that occurs to the number of
   * nodes having it.
   */
  method InDegreeDistribution<N>(digraph: map<N, set<N>>) returns (r: Result<map<int, int>>)
    ensures r.Success? <==> NeighboursAreKeys(digraph)
    ensures r.Failure? ==> r.error == "KeyError"
    ensures r.Success? ==> r.value == Distribution(InDegrees(digraph), digraph.Keys)
  {
    var inDegrees := ComputeInDegrees(digraph);
    if inDegrees.Failure? {
      return Failure(inDegrees.error);
    }
    var deg := inDegrees.value;
    var dist: map<int, int> := map[];
    var todo := deg.Keys;
    ghost var done: set<N> := {};
    assert Distribution(deg, done) == map[];
    while todo != {}
      invariant todo <= deg.Keys && done == deg.Keys - todo
      invariant dist == Distribution(deg, done)
      decreases |todo|
    {
      assert todo != {};
      var node :| node in todo;
      var nodeDegree := deg[node];
      DistributionAdd(deg, done, node);
      if nodeDegree !in dist {
        dist := dist[nodeDegree := 1];
      } else {
        dist := dist[nodeDegree := dist[nodeDegree] + 1];
      }
      done := done + {node};
      todo := todo - {node};
    }
    assert done == digraph.Keys;
    r := Success(dist);
  }

  /**
   * The distribution counts every node once, and every count in it is
   * positive.
   */
  lemma InDegreeDistributionSum<N>(digraph: map<N, set<N>>)
    ensures var dist := Distribution(InDegrees(digraph), digraph.Keys);
      SumValues(dist) == |digraph.Keys| && forall d :: d in dist ==> dist[d] >= 1
  {
    DistributionSum(InDegrees(digraph), digraph.Keys);
  }
}
