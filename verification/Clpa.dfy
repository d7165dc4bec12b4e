// algorithm/partition_CLPA.go: label propagation over the transaction graph. It moves
// vertices between shards and keeps, move by move, the weight of every shard, the number of
// crossing edges and the shard sizes.
module Clpa {
  import Addresses
  import opened Sums
  import opened Graphs
  import opened Cuts
  import opened ClpaMoves

  const INT_MAX := 0x7fffffff

  // ----- least of a list, and sizes of shards -----

  ghost predicate IsMin(m: int, xs: seq<int>) {
    m in xs && forall x | x in xs :: m <= x
  }

  function Capped(xs: seq<int>): int {
    if xs == [] then INT_MAX
    else
      var m := Capped(xs[..|xs| - 1]);
      if m > xs[|xs| - 1] then xs[|xs| - 1] else m
  }

  lemma {:induction false} CappedIsMin(xs: seq<int>)
    ensures Capped(xs) <= INT_MAX && forall x | x in xs :: Capped(xs) <= x
    ensures Capped(xs) == INT_MAX || Capped(xs) in xs
  {
    if xs != [] {
      CappedIsMin(xs[..|xs| - 1]);
      assert forall x | x in xs :: x in xs[..|xs| - 1] || x == xs[|xs| - 1];
    }
  }

  // The recount starts from the largest 32-bit number, the update after a move does not;
  // they give the same exactly when some shard weighs no more than that.
  lemma MinAgrees(m: int, xs: seq<int>)
    requires IsMin(m, xs)
    ensures m == Capped(xs) <==> m <= INT_MAX
  {
    CappedIsMin(xs);
  }

  ghost predicate SizesOk(p: Partition, sizes: seq<int>) {
    forall k | 0 <= k < |sizes| :: sizes[k] == |Members(p, k)|
  }

  // A move changes the sizes of two shards.
  lemma MoveSizes(p: Partition, sizes: seq<int>, v: Vertex, n: int)
    requires SizesOk(p, sizes) && v in p && 0 <= p[v] < |sizes| && 0 <= n < |sizes| && p[v] != n
    ensures SizesOk(p[v := n], sizes[p[v] := sizes[p[v]] - 1][n := sizes[n] + 1])
  {
    forall k | 0 <= k < |sizes|
      ensures |Members(p[v := n], k)| == |Members(p, k)| + (if k == n then 1 else 0) - (if k == p[v] then 1 else 0)
    {
      MoveMembers(p, v, n, k);
    }
    hide Members;
  }

  lemma MoveMembers(p: Partition, v: Vertex, n: int, k: int)
    requires v in p && p[v] != n
    ensures |Members(p[v := n], k)| == |Members(p, k)| + (if k == n then 1 else 0) - (if k == p[v] then 1 else 0)
  {
    assert v in Members(p, k) <==> k == p[v];
    if k == n {
      assert Members(p[v := n], k) == Members(p, k) + {v};
    } else {
      assert Members(p[v := n], k) == Members(p, k) - {v};
    }
  }

  lemma NewSizes(p: Partition, sizes: seq<int>, v: Vertex, n: int)
    requires SizesOk(p, sizes) && v !in p && 0 <= n < |sizes|
    ensures SizesOk(p[v := n], sizes[n := sizes[n] + 1])
  {
    assert Members(p[v := n], n) == Members(p, n) + {v};
    forall k | 0 <= k < |sizes| && k != n ensures Members(p[v := n], k) == Members(p, k) {
    }
  }

  // The sizes of all shards sum up to the number of vertices.
  lemma {:induction false} SizesSum(p: Partition, sizes: seq<int>)
    requires SizesOk(p, sizes) && forall v | v in p :: 0 <= p[v] < |sizes|
    ensures Sum(sizes) == |p|
  {
    assert p.Keys == set v | v in p && p[v] < |sizes|;
    SizesSumUpTo(p, sizes, |sizes|);
    assert sizes[..|sizes|] == sizes;
  }

  lemma {:induction false} SizesSumUpTo(p: Partition, sizes: seq<int>, n: nat)
    requires SizesOk(p, sizes) && (forall v | v in p :: 0 <= p[v] < |sizes|) && n <= |sizes|
    ensures Sum(sizes[..n]) == |set v | v in p && p[v] < n|
  {
    if n == 0 {
      assert (set v | v in p && p[v] < n) == {};
    } else {
      SizesSumUpTo(p, sizes, n - 1);
      var below, upTo := set v | v in p && p[v] < n - 1, set v | v in p && p[v] < n;
      assert upTo == below + Members(p, n - 1);
      assert below !! Members(p, n - 1);
      assert sizes[..n][..n - 1] == sizes[..n - 1];
    }
  }

  // ----- the totals -----

  ghost predicate WeightsOk(log: seq<Edge>, p: Partition, weights: seq<int>) {
    forall k | 0 <= k < |weights| :: weights[k] == Touch(log, p, k)
  }

  ghost predicate NoLoops(log: seq<Edge>) {
    forall e | e in log :: e.u != e.v
  }

  lemma {:induction false} NoLoopsAt(log: seq<Edge>, v: Vertex)
    requires NoLoops(log)
    ensures Loops(log, v) == 0
  {
    if log != [] {
      assert log[|log| - 1] in log;
      NoLoopsAt(log[..|log| - 1], v);
    }
  }

  // The weights of all shards sum up to the edges plus the crossing edges.
  lemma WeightsSum(log: seq<Edge>, p: Partition, weights: seq<int>)
    requires WeightsOk(log, p, weights) && InRange(log, p, |weights|)
    ensures Sum(weights) == |log| + Cross(log, p)
  {
    ShardSums(log, p, |weights|);
    SumIsTouch(log, p, weights, |weights|);
    assert weights[..|weights|] == weights;
  }

  lemma {:induction false} SumIsTouch(log: seq<Edge>, p: Partition, weights: seq<int>, n: nat)
    requires WeightsOk(log, p, weights) && n <= |weights|
    ensures Sum(weights[..n]) == TouchUpTo(log, p, n)
  {
    if n > 0 {
      SumIsTouch(log, p, weights, n - 1);
      assert weights[..n][..n - 1] == weights[..n - 1];
    }
  }

  // What the update after a move does to weights and crossings.
  ghost predicate Stepped(xs: seq<Vertex>, p: Partition, o: int, n: int,
                          before: seq<int>, cross: int, after: seq<int>, cross': int)
  {
    && |after| == |before|
    && (forall k | 0 <= k < |before| :: after[k] == before[k] + WeightSteps(xs, p, o, n, k))
    && cross' == cross + CrossSteps(xs, p, o, n)
  }

  // The update after a move is a recount exactly when the moved vertex has no self-loop.
  lemma UpdateIsRecount(log: seq<Edge>, p: Partition, v: Vertex, n: int,
                        before: seq<int>, cross: int, after: seq<int>, cross': int)
    requires TwoWay(log) && ShardOf(p, v) != n
    requires WeightsOk(log, p, before) && cross == Cross(log, p)
    requires Stepped(Adj(log, v), p[v := n], ShardOf(p, v), n, before, cross, after, cross')
    ensures WeightsOk(log, p[v := n], after) && cross' == Cross(log, p[v := n]) <==> Loops(log, v) == 0
  {
    forall k | 0 <= k < |before|
      ensures after[k] == Touch(log, p[v := n], k) - if k == ShardOf(p, v) || k == n then Loops(log, v) else 0
    {
      MoveIsRecount(log, p, v, n, k);
    }
    MoveIsRecount(log, p, v, n, 0);
  }

  // Weights and crossings are a full recount on a graph without self-loops; their
  // difference is the number of edges on any graph.
  ghost predicate TotalsOk(log: seq<Edge>, p: Partition, weights: seq<int>, cross: int, least: int) {
    && Sum(weights) == |log| + cross
    && (least == Capped(weights) || IsMin(least, weights))
    && (NoLoops(log) ==> WeightsOk(log, p, weights) && cross == Cross(log, p))
  }

  lemma MoveTotals(log: seq<Edge>, p: Partition, v: Vertex, n: int, weights: seq<int>, cross: int, least: int,
                   weights': seq<int>, cross': int, least': int)
    requires TwoWay(log) && v in p && p[v] != n && TotalsOk(log, p, weights, cross, least)
    requires Stepped(Adj(log, v), p[v := n], p[v], n, weights, cross, weights', cross')
    requires Sum(weights') - cross' == Sum(weights) - cross && IsMin(least', weights')
    ensures TotalsOk(log, p[v := n], weights', cross', least')
  {
    if NoLoops(log) {
      NoLoopsAt(log, v);
      UpdateIsRecount(log, p, v, n, weights, cross, weights', cross');
    }
  }

  // What has been decided so far: the moved vertices, each once, with their shard.
  ghost predicate Decided(start: Partition, p: Partition, addrs: seq<Vertex>, res: map<Vertex, int>) {
    && p.Keys == start.Keys && res.Keys <= start.Keys
    && (forall v | v in p :: p[v] == if v in res then res[v] else start[v])
    && (forall i, j | 0 <= i < j < |addrs| :: addrs[i] != addrs[j])
    && (forall v :: v in addrs <==> v in res)
  }

  lemma DecideOne(start: Partition, p: Partition, addrs: seq<Vertex>, res: map<Vertex, int>, v: Vertex, to: int)
    requires Decided(start, p, addrs, res) && v in p
    ensures Decided(start, p[v := to], if v in res then addrs else addrs + [v], res[v := to])
  {
    assert forall x :: x in addrs + [v] <==> x in addrs || x == v;
  }

  // A shard that has a vertex keeps one.
  ghost predicate Inhabited(sizes: seq<int>, sizes': seq<int>) {
    |sizes| == |sizes'| && forall k | 0 <= k < |sizes| && sizes[k] > 0 :: sizes'[k] > 0
  }

  // The adjacency entries of the vertices in s, and of the first j entries of one more
  // list, sorted by where they lead.
  ghost predicate EntriesOk(log: seq<Edge>, p: Partition, s: set<Vertex>, at: int, xs: seq<Vertex>,
                            into: seq<int>, inner: seq<int>)
  {
    && |into| == |inner|
    && forall k | 0 <= k < |into| ::
         && into[k] == Into(log, p, k, s) + (if at != k then CountIn(xs, p, k) else 0)
         && inner[k] == Within(log, p, k, s) + (if at == k then CountIn(xs, p, k) else 0)
  }

  // The lists of the vertices in s have been sorted.
  ghost predicate AllSorted(log: seq<Edge>, p: Partition, s: set<Vertex>, into: seq<int>, inner: seq<int>) {
    forall at :: EntriesOk(log, p, s, at, [], into, inner)
  }

  lemma EntriesStep(log: seq<Edge>, p: Partition, s: set<Vertex>, at: int, xs: seq<Vertex>, x: Vertex,
                    into: seq<int>, inner: seq<int>)
    requires EntriesOk(log, p, s, at, xs, into, inner) && 0 <= ShardOf(p, x) < |into|
    ensures var k := ShardOf(p, x);
            EntriesOk(log, p, s, at, xs + [x],
                      if at != k then into[k := into[k] + 1] else into,
                      if at != k then inner else inner[k := inner[k] + 1])
  {
    forall k | 0 <= k < |into| ensures CountIn(xs + [x], p, k) == CountIn(xs, p, k) + One(ShardOf(p, x) == k) {
      CountInAppend(xs, true, x, p, k);
    }
  }

  lemma EntriesNext(log: seq<Edge>, p: Partition, s: set<Vertex>, v: Vertex, into: seq<int>, inner: seq<int>)
    requires TwoWay(log) && v !in s && EntriesOk(log, p, s, ShardOf(p, v), Adj(log, v), into, inner)
    ensures AllSorted(log, p, s + {v}, into, inner)
  {
    forall k | 0 <= k < |into|
      ensures into[k] == Into(log, p, k, s + {v}) && inner[k] == Within(log, p, k, s + {v})
    {
      IntoStep(log, p, k, s, v);
    }
  }

  lemma NoEntries(log: seq<Edge>, p: Partition, into: seq<int>, inner: seq<int>)
    requires |into| == |inner| && forall k | 0 <= k < |into| :: into[k] == inner[k] == 0
    ensures AllSorted(log, p, {}, into, inner)
  {
    forall k ensures Into(log, p, k, {}) == 0 && Within(log, p, k, {}) == 0 {
      EmptyInto(log, p, k);
    }
  }

  lemma {:induction false} EmptyInto(log: seq<Edge>, p: Partition, k: int)
    ensures Into(log, p, k, {}) == 0 && Within(log, p, k, {}) == 0
  {
    if log != [] {
      EmptyInto(log[..|log| - 1], p, k);
    }
  }

  lemma {:induction false} SumIsCross(log: seq<Edge>, p: Partition, into: seq<int>, n: nat)
    requires n <= |into| && forall k | 0 <= k < |into| :: into[k] == CrossAt(log, p, k)
    ensures Sum(into[..n]) == SumUpTo(log, p, n)
  {
    if n > 0 {
      SumIsCross(log, p, into, n - 1);
      assert into[..n][..n - 1] == into[..n - 1];
    }
  }

  // New ends of an edge start where the address table puts them.
  function WithHomes(p: Partition, table: map<Vertex, int>, default: Vertex -> int, u: Vertex,
                     v: Vertex): (r: Partition)
    ensures r.Keys == p.Keys + {u, v}
  {
    var q := if u in p then p else p[u := Addresses.Answer(table, default, u)];
    if v in q then q else q[v := Addresses.Answer(table, default, v)]
  }

  // Every vertex starts in the shard the table lists for it.
  ghost predicate StartsAsListed(p: Partition, table: map<Vertex, int>) {
    forall v | v in p :: v in table && p[v] == table[v]
  }

  class CLPAState {
    const netGraph: Graph
    const accounts: Addresses.AddressTable
    const shardNum: nat
    const maxIterations: nat
    const formula: Formula
    var partitionMap: Partition
    var edges2Shard: seq<int>
    var vertexsNumInShard: seq<int>
    var minEdges2Shard: int
    var crossShardEdgeNum: int

    ghost predicate Homes()
      reads accounts
    {
      forall v :: 0 <= accounts.Of(v) < shardNum
    }

    ghost predicate Base()
      reads this, netGraph
    {
      && netGraph.Valid() && TwoWay(netGraph.log)
      && partitionMap.Keys == netGraph.vertexSet.Keys
      && (forall v | v in partitionMap :: 0 <= partitionMap[v] < shardNum)
      && |vertexsNumInShard| == shardNum
    }

    ghost predicate Valid()
      reads this, netGraph
    {
      Base() && SizesOk(partitionMap, vertexsNumInShard)
    }

    constructor (graph: Graph, accounts: Addresses.AddressTable, formula: Formula, mIter: nat, sn: nat)
      requires graph.Valid() && graph.log == [] && graph.vertexSet == map[]
      ensures Valid() && partitionMap == map[] && netGraph == graph && this.accounts == accounts
      ensures shardNum == sn && maxIterations == mIter && this.formula == formula
    {
      netGraph, this.accounts, this.formula, shardNum, maxIterations := graph, accounts, formula, sn, mIter;
      partitionMap, edges2Shard, minEdges2Shard, crossShardEdgeNum := map[], [], 0, 0;
      vertexsNumInShard := seq(sn, i => 0);
      new;
      assert forall k :: Members(partitionMap, k) == {};
    }

    // The sizes stay right exactly when the vertex is new. A new vertex has an entry in the
    // table from then on, and starts where the entry says.
    method AddVertex(v: Vertex)
      requires Valid() && Homes()
      modifies this`partitionMap, this`vertexsNumInShard, accounts,
               netGraph`vertexSet, netGraph`vertexs, netGraph`edgeWeight
      ensures Base() && Homes() && netGraph.vertexSet.Keys == old(netGraph.vertexSet).Keys + {v}
      ensures partitionMap ==
              if v in old(partitionMap) then old(partitionMap) else old(partitionMap)[v := old(accounts.Of(v))]
      ensures accounts.table == if v in old(partitionMap) then old(accounts.table)
                                else Addresses.AfterAsking(old(accounts.table), accounts.default, [v])
      ensures forall x :: accounts.Of(x) == old(accounts.Of(x))
      ensures old(StartsAsListed(partitionMap, accounts.table)) ==> StartsAsListed(partitionMap, accounts.table)
      ensures Valid() <==> v !in old(partitionMap)
    {
      hide Graph.Sound, Links;
      netGraph.AddVertex(v);
      if v !in partitionMap {
        NewSizes(partitionMap, vertexsNumInShard, v, accounts.Of(v));
        var id := accounts.Addr2Shard(v);
        partitionMap := partitionMap[v := id];
      }
      var k := partitionMap[v];
      vertexsNumInShard := vertexsNumInShard[k := vertexsNumInShard[k] + 1];
    }

    method AddEnds(u: Vertex, v: Vertex)
      requires Valid() && Homes()
      modifies this`partitionMap, this`vertexsNumInShard, accounts,
               netGraph`vertexSet, netGraph`vertexs, netGraph`edgeWeight
      ensures Valid() && Homes() && u in netGraph.vertexSet && v in netGraph.vertexSet
      ensures partitionMap == WithHomes(old(partitionMap), old(accounts.table), accounts.default, u, v)
      ensures forall x :: accounts.Of(x) == old(accounts.Of(x))
      ensures old(StartsAsListed(partitionMap, accounts.table)) ==> StartsAsListed(partitionMap, accounts.table)
    {
      hide SizesOk;
      if u !in netGraph.vertexSet {
        AddVertex(u);
      }
      if v !in netGraph.vertexSet {
        AddVertex(v);
      }
    }

    method AddEdge(u: Vertex, v: Vertex)
      requires Valid() && Homes()
      modifies this`partitionMap, this`vertexsNumInShard, accounts, netGraph
      ensures Valid() && Homes() && netGraph.log == old(netGraph.log) + [Edge(u, v, false)]
      ensures partitionMap.Keys == old(partitionMap).Keys + {u, v}
      ensures partitionMap == WithHomes(old(partitionMap), old(accounts.table), accounts.default, u, v)
      ensures forall x :: accounts.Of(x) == old(accounts.Of(x))
      ensures old(StartsAsListed(partitionMap, accounts.table)) ==> StartsAsListed(partitionMap, accounts.table)
    {
      hide SizesOk, WithHomes, Graph.Sound, Links;
      AddEnds(u, v);
      netGraph.AddEdge(u, v, 0);
    }

    // What a pass over all adjacency lists has counted.
    ghost predicate Counted(into: seq<int>, inner: seq<int>)
      reads this, netGraph
    {
      && |into| == |inner| == shardNum
      && forall k | 0 <= k < shardNum ::
           into[k] == CrossAt(netGraph.log, partitionMap, k) && inner[k] == 2 * InsideAt(netGraph.log, partitionMap, k)
    }

    method CountEntries() returns (into: seq<int>, inner: seq<int>)
      requires Base()
      ensures Counted(into, inner)
    {
      into, inner := seq(shardNum, k => 0), seq(shardNum, k => 0);
      var todo := netGraph.edgeSet.Keys;
      ghost var seen := {};
      NoEntries(netGraph.log, partitionMap, into, inner);
      assert TwoWay(netGraph.log);
      hide *;
      while todo != {}
        invariant todo <= netGraph.edgeSet.Keys && seen == netGraph.edgeSet.Keys - todo
        invariant |into| == |inner| == shardNum
        invariant AllSorted(netGraph.log, partitionMap, seen, into, inner)
        decreases |todo|
      {
        var v :| v in todo;
        todo := todo - {v};
        into, inner := CountList(v, into, inner, seen);
        EntriesNext(netGraph.log, partitionMap, seen, v, into, inner);
        seen := seen + {v};
      }
      assert seen == netGraph.edgeSet.Keys;
      AllSeen(seen, into, inner);
    }

    lemma AllSeen(seen: set<Vertex>, into: seq<int>, inner: seq<int>)
      requires Base() && seen == netGraph.edgeSet.Keys && |into| == |inner| == shardNum
      requires AllSorted(netGraph.log, partitionMap, seen, into, inner)
      ensures Counted(into, inner)
    {
      assert Covers(seen, netGraph.log) by {
        forall e | e in netGraph.log ensures e.u in seen && e.v in seen {
          netGraph.Lists(e);
        }
      }
      forall k | 0 <= k < shardNum
        ensures into[k] == CrossAt(netGraph.log, partitionMap, k)
              && inner[k] == 2 * InsideAt(netGraph.log, partitionMap, k)
      {
        assert EntriesOk(netGraph.log, partitionMap, seen, k, [], into, inner);
        AllEntries(netGraph.log, partitionMap, k, seen);
      }
    }

    // The list of one vertex.
    method CountList(v: Vertex, into: seq<int>, inner: seq<int>, ghost seen: set<Vertex>)
      returns (into': seq<int>, inner': seq<int>)
      requires Base() && v in netGraph.edgeSet && |into| == |inner| == shardNum
      requires AllSorted(netGraph.log, partitionMap, seen, into, inner)
      ensures |into'| == |inner'| == shardNum
      ensures EntriesOk(netGraph.log, partitionMap, seen, ShardOf(partitionMap, v), Adj(netGraph.log, v), into', inner')
    {
      var p := partitionMap;
      ghost var log := netGraph.log;
      var lst := netGraph.edgeSet[v];
      assert ListOf(netGraph.edgeSet, v) == Adj(log, v);
      forall u | u in lst ensures 0 <= ShardOf(p, u) < shardNum {
        InList(v, u);
      }
      into', inner' := SortList(p, ShardOf(p, v), lst, into, inner, log, seen);
    }

    static method SortList(p: Partition, vShard: int, lst: seq<Vertex>, into: seq<int>, inner: seq<int>,
                           ghost log: seq<Edge>, ghost seen: set<Vertex>)
      returns (into': seq<int>, inner': seq<int>)
      requires |into| == |inner| && (forall u | u in lst :: 0 <= ShardOf(p, u) < |into|)
      requires EntriesOk(log, p, seen, vShard, [], into, inner)
      ensures |into'| == |inner'| == |into| && EntriesOk(log, p, seen, vShard, lst, into', inner')
    {
      hide EntriesOk;
      into', inner' := into, inner;
      for j := 0 to |lst|
        invariant |into'| == |inner'| == |into|
        invariant EntriesOk(log, p, seen, vShard, lst[..j], into', inner')
      {
        var uShard := ShardOf(p, lst[j]);
        EntriesStep(log, p, seen, vShard, lst[..j], lst[j], into', inner');
        assert lst[..j + 1] == lst[..j] + [lst[j]];
        if vShard != uShard {
          into' := into'[uShard := into'[uShard] + 1];
        } else {
          inner' := inner'[uShard := inner'[uShard] + 1];
        }
      }
      assert lst[..|lst|] == lst;
    }

    lemma InList(v: Vertex, u: Vertex)
      requires Base() && u in Adj(netGraph.log, v)
      ensures u in partitionMap && 0 <= partitionMap[u] < shardNum && v in partitionMap
            && 0 <= partitionMap[v] < shardNum
    {
      OutIn(netGraph.links, v, u);
    }

    // A full recount gives the weights, the crossing edges, and the least weight: both
    // halvings are exact.
    method ComputeEdges2Shard()
      requires Base()
      modifies this`edges2Shard, this`minEdges2Shard, this`crossShardEdgeNum
      ensures |edges2Shard| == shardNum && WeightsOk(netGraph.log, partitionMap, edges2Shard)
      ensures crossShardEdgeNum == Cross(netGraph.log, partitionMap)
      ensures minEdges2Shard == Capped(edges2Shard)
    {
      var into, interEdge := CountEntries();
      AllInRange();
      SumIsCross(netGraph.log, partitionMap, into, shardNum);
      ShardSums(netGraph.log, partitionMap, shardNum);
      assert into[..shardNum] == into;
      var total := SumAll(into);
      crossShardEdgeNum := total / 2;
      edges2Shard := AddHalves(into, interEdge);
      forall k | 0 <= k < shardNum ensures edges2Shard[k] == Touch(netGraph.log, partitionMap, k) {
        TouchSplits(netGraph.log, partitionMap, k);
      }
      minEdges2Shard := LeastCapped(edges2Shard);
    }

    static method SumAll(xs: seq<int>) returns (sum: int)
      ensures sum == Sum(xs)
    {
      sum := 0;
      for i := 0 to |xs|
        invariant sum == Sum(xs[..i])
      {
        assert xs[..i + 1][..i] == xs[..i];
        sum := sum + xs[i];
      }
      assert xs[..|xs|] == xs;
    }

    static method AddHalves(into: seq<int>, interEdge: seq<int>) returns (weights: seq<int>)
      requires |into| == |interEdge|
      ensures |weights| == |into| && forall k | 0 <= k < |into| :: weights[k] == into[k] + interEdge[k] / 2
    {
      weights := into;
      for idx := 0 to |into|
        invariant |weights| == |into|
        invariant forall k | 0 <= k < idx :: weights[k] == into[k] + interEdge[k] / 2
        invariant forall k | idx <= k < |into| :: weights[k] == into[k]
      {
        weights := weights[idx := weights[idx] + interEdge[idx] / 2];
      }
    }

    static method LeastCapped(weights: seq<int>) returns (m: int)
      ensures m == Capped(weights)
    {
      m := INT_MAX;
      for i := 0 to |weights|
        invariant m == Capped(weights[..i])
      {
        assert weights[..i + 1][..i] == weights[..i];
        if m > weights[i] {
          m := weights[i];
        }
      }
      assert weights[..|weights|] == weights;
    }

    lemma AllInRange()
      requires Base()
      ensures InRange(netGraph.log, partitionMap, shardNum)
    {
      forall e | e in netGraph.log ensures e.u in partitionMap && e.v in partitionMap {
        netGraph.Lists(e);
      }
    }

    // The update after vertex v has moved here from another shard.
    method ComputeEdges2Shard1(v: Vertex, oldshard: int)
      requires Base() && v in partitionMap && 0 <= oldshard < shardNum == |edges2Shard|
      modifies this`edges2Shard, this`minEdges2Shard, this`crossShardEdgeNum
      ensures Stepped(Adj(netGraph.log, v), partitionMap, oldshard, partitionMap[v],
                      old(edges2Shard), old(crossShardEdgeNum), edges2Shard, crossShardEdgeNum)
      ensures Sum(edges2Shard) - crossShardEdgeNum == old(Sum(edges2Shard) - crossShardEdgeNum)
      ensures IsMin(minEdges2Shard, edges2Shard)
    {
      var lst := ListOf(netGraph.edgeSet, v);
      assert lst == Adj(netGraph.log, v);
      edges2Shard, crossShardEdgeNum :=
        Update(partitionMap, lst, oldshard, partitionMap[v], edges2Shard, crossShardEdgeNum);
      minEdges2Shard := Least(edges2Shard);
    }

    static method Least(weights: seq<int>) returns (m: int)
      requires weights != []
      ensures IsMin(m, weights)
    {
      m := weights[0];
      for i := 0 to |weights|
        invariant m in weights && forall x | x in weights[..i] :: m <= x
      {
        if m > weights[i] {
          m := weights[i];
        }
        assert weights[..i + 1] == weights[..i] + [weights[i]];
      }
      assert weights[..|weights|] == weights;
    }

    static method Update(p: Partition, lst: seq<Vertex>, oldshard: int, vShard: int, weights: seq<int>, cross: int)
      returns (weights': seq<int>, cross': int)
      requires 0 <= oldshard < |weights| && 0 <= vShard < |weights|
      ensures Stepped(lst, p, oldshard, vShard, weights, cross, weights', cross')
      ensures Sum(weights') - cross' == Sum(weights) - cross
    {
      weights', cross' := weights, cross;
      for j := 0 to |lst|
        invariant Stepped(lst[..j], p, oldshard, vShard, weights, cross, weights', cross')
        invariant Sum(weights') - cross' == Sum(weights) - cross
      {
        weights', cross' := UpdateOne(p, lst, j, oldshard, vShard, weights, cross, weights', cross');
      }
      assert lst[..|lst|] == lst;
    }

    // One entry of the list.
    static method UpdateOne(p: Partition, lst: seq<Vertex>, j: nat, oldshard: int, vShard: int,
                            ghost weights: seq<int>, ghost cross: int, ws: seq<int>, c: int)
      returns (weights': seq<int>, cross': int)
      requires j < |lst| && 0 <= oldshard < |weights| && 0 <= vShard < |weights|
      requires Stepped(lst[..j], p, oldshard, vShard, weights, cross, ws, c)
      ensures Stepped(lst[..j + 1], p, oldshard, vShard, weights, cross, weights', cross')
      ensures Sum(weights') - cross' == Sum(ws) - c
    {
      hide Sum, WeightSteps, CrossSteps;
      weights', cross' := ws, c;
      var uShard := ShardOf(p, lst[j]);
      if vShard != uShard {
        SumUpdate(weights', vShard, weights'[vShard] + 1);
        weights' := weights'[vShard := weights'[vShard] + 1];
        if uShard == oldshard {
          cross' := cross' + 1;
        } else {
          SumUpdate(weights', oldshard, weights'[oldshard] - 1);
          weights' := weights'[oldshard := weights'[oldshard] - 1];
        }
      } else {
        SumUpdate(weights', oldshard, weights'[oldshard] - 1);
        weights' := weights'[oldshard := weights'[oldshard] - 1];
        cross' := cross' - 1;
      }
      assert lst[..j + 1] == lst[..j] + [lst[j]];
      forall k | 0 <= k < |weights|
        ensures WeightSteps(lst[..j + 1], p, oldshard, vShard, k) ==
                WeightSteps(lst[..j], p, oldshard, vShard, k) + WeightStep(uShard, oldshard, vShard, k)
      {
        StepsAppend(lst[..j], true, lst[j], p, oldshard, vShard, k);
      }
      StepsAppend(lst[..j], true, lst[j], p, oldshard, vShard, 0);
    }

    ghost predicate Totals()
      reads this, netGraph
    {
      |edges2Shard| == shardNum && TotalsOk(netGraph.log, partitionMap, edges2Shard, crossShardEdgeNum, minEdges2Shard)
    }

    // What the algorithm keeps, in one value.
    ghost function Now(addrs: seq<Vertex>, res: map<Vertex, int>, tries: map<Vertex, int>): State
      reads this
    {
      State(partitionMap, edges2Shard, crossShardEdgeNum, minEdges2Shard, vertexsNumInShard, addrs, res, tries)
    }

    // The score of a move: the edges of v that lead to the shard are counted.
    method GetShardScore(v: Vertex, uShard: int, ghost s: State) returns (score: real)
      requires Base() && s == Now(s.addrs, s.res, s.tries) && 0 <= uShard < |edges2Shard|
      ensures score == Score(formula, s, Adj(netGraph.log, v), uShard)
      ensures var lst := Adj(netGraph.log, v);
              score == formula(CountIn(lst, partitionMap, uShard), |lst|, edges2Shard[uShard], minEdges2Shard)
    {
      var lst := ListOf(netGraph.edgeSet, v);
      assert lst == Adj(netGraph.log, v);
      hide Base;
      var edgesToShard := 0;
      for j := 0 to |lst|
        invariant edgesToShard == CountIn(lst[..j], partitionMap, uShard)
      {
        assert lst[..j + 1][..j] == lst[..j];
        if ShardOf(partitionMap, lst[j]) == uShard {
          edgesToShard := edgesToShard + 1;
        }
      }
      assert lst[..|lst|] == lst;
      score := formula(edgesToShard, |lst|, edges2Shard[uShard], minEdges2Shard);
    }

    // The shard to which v should go: its own, or that of a neighbour.
    method BestShard(v: Vertex, ghost s: State) returns (best: int)
      requires Base() && v in partitionMap && |edges2Shard| == shardNum && s == Now(s.addrs, s.res, s.tries)
      ensures 0 <= best < shardNum
      ensures best == Choice(formula, s, Adj(netGraph.log, v), partitionMap[v])
    {
      var neighborShardScore: map<int, real> := map[];
      var maxScore := NO_SCORE;
      best := partitionMap[v];
      var lst := ListOf(netGraph.edgeSet, v);
      assert lst == Adj(netGraph.log, v);
      hide Score;
      for j := 0 to |lst|
        invariant 0 <= best < shardNum
        invariant (best, maxScore) == Scan(formula, s, lst, partitionMap[v], j)
        invariant forall k | k in neighborShardScore ::
                    neighborShardScore[k] == Score(formula, s, lst, k) && neighborShardScore[k] <= maxScore
      {
        InList(v, lst[j]);
        var uShard := ShardOf(partitionMap, lst[j]);
        if uShard !in neighborShardScore {
          var score := GetShardScore(v, uShard, s);
          neighborShardScore := neighborShardScore[uShard := score];
          if maxScore < score {
            maxScore := score;
            best := uShard;
          }
        }
      }
    }

    // Vertex v moves to another shard.
    method Move(v: Vertex, to: int)
      requires Valid() && Totals() && v in partitionMap && 0 <= to < shardNum && to != partitionMap[v]
      requires vertexsNumInShard[partitionMap[v]] > 1
      modifies this
      ensures Valid() && Totals() && partitionMap == old(partitionMap)[v := to]
      ensures vertexsNumInShard == Add(Add(old(vertexsNumInShard), old(partitionMap[v]), -1), to, 1)
      ensures edges2Shard == Shifted(Adj(netGraph.log, v), partitionMap, old(partitionMap[v]), to, old(edges2Shard))
      ensures crossShardEdgeNum ==
              old(crossShardEdgeNum) + CrossSteps(Adj(netGraph.log, v), partitionMap, old(partitionMap[v]), to)
      ensures minEdges2Shard == MinOf(edges2Shard)
      ensures Inhabited(old(vertexsNumInShard), vertexsNumInShard)
    {
      hide TotalsOk, SizesOk, Stepped, IsMin, Sum;
      ghost var p, weights, cross, least := partitionMap, edges2Shard, crossShardEdgeNum, minEdges2Shard;
      var vNowShard := partitionMap[v];
      MoveSizes(partitionMap, vertexsNumInShard, v, to);
      partitionMap := partitionMap[v := to];
      vertexsNumInShard :=
        vertexsNumInShard[vNowShard := vertexsNumInShard[vNowShard] - 1][to := vertexsNumInShard[to] + 1];
      assert Base();
      ComputeEdges2Shard1(v, vNowShard);
      MoveTotals(netGraph.log, p, v, to, weights, cross, least, edges2Shard, crossShardEdgeNum, minEdges2Shard);
      SteppedIs(Adj(netGraph.log, v), partitionMap, vNowShard, to, weights, cross, edges2Shard, crossShardEdgeNum);
      LeastIs(minEdges2Shard, edges2Shard);
    }

    // Vertex v goes to the shard it has chosen.
    method Go(v: Vertex, best: int, addrs: seq<Vertex>, res: map<Vertex, int>, tries: map<Vertex, int>,
              ghost start: Partition)
      returns (addrs': seq<Vertex>, res': map<Vertex, int>, tries': map<Vertex, int>)
      requires Valid() && Totals() && v in partitionMap && Decided(start, partitionMap, addrs, res)
      requires 0 <= best < shardNum
      requires best == Choice(formula, Now(addrs, res, tries), Adj(netGraph.log, v), partitionMap[v])
      requires Leaves(formula, Now(addrs, res, tries), Adj(netGraph.log, v), v)
      modifies this
      ensures Valid() && Totals() && Decided(start, partitionMap, addrs', res')
      ensures Inhabited(old(vertexsNumInShard), vertexsNumInShard)
      ensures Now(addrs', res', tries') == Visited(netGraph.log, formula, old(Now(addrs, res, tries)), v)
    {
      ghost var s := Now(addrs, res, tries);
      hide Totals, Decided, SizesOk, Choice, Shifted, CrossSteps, MinOf, Add, Adj, Inhabited, Visited, Moved;
      DecideOne(start, partitionMap, addrs, res, v, best);
      Move(v, best);
      addrs' := addrs;
      if v !in res {
        addrs' := addrs + [v];
      }
      res' := res[v := best];
      tries' := tries[v := (if v in tries then tries[v] else 0) + 1];
      GoesTo(netGraph.log, formula, s, Now(addrs', res', tries'), v, best);
    }

    // One vertex in one round of the algorithm.
    method Visit(v: Vertex, addrs: seq<Vertex>, res: map<Vertex, int>, tries: map<Vertex, int>, ghost start: Partition)
      returns (addrs': seq<Vertex>, res': map<Vertex, int>, tries': map<Vertex, int>)
      requires Valid() && Totals() && v in partitionMap && Decided(start, partitionMap, addrs, res)
      modifies this
      ensures Valid() && Totals() && Decided(start, partitionMap, addrs', res')
      ensures Inhabited(old(vertexsNumInShard), vertexsNumInShard)
      ensures Now(addrs', res', tries') == Visited(netGraph.log, formula, old(Now(addrs, res, tries)), v)
    {
      ghost var s := Now(addrs, res, tries);
      assert 0 <= partitionMap[v] < |vertexsNumInShard| && |edges2Shard| == shardNum;
      assert Base() by { ValidBase(); }
      assert Inhabited(vertexsNumInShard, vertexsNumInShard);
      hide Totals, Decided, SizesOk, Valid, Base, Choice, Adj, Inhabited, Visited;
      addrs', res', tries' := addrs, res, tries;
      if v in tries && tries[v] >= MOVE_LIMIT {
        StaysPut(netGraph.log, formula, s, v);
        return;
      }
      var vNowShard := partitionMap[v];
      var best := BestShard(v, s);
      if vNowShard != best && vertexsNumInShard[vNowShard] > 1 {
        addrs', res', tries' := Go(v, best, addrs, res, tries, start);
      } else {
        StaysPut(netGraph.log, formula, s, v);
      }
    }

    lemma ValidBase()
      requires Valid()
      ensures Base()
    {
    }

    // What the algorithm starts from: the totals are a recount, nothing is decided.
    ghost function Start(): State
      reads this, netGraph
    {
      var weights := Touches(netGraph.log, partitionMap, shardNum);
      State(partitionMap, weights, Cross(netGraph.log, partitionMap), Capped(weights), vertexsNumInShard,
            [], map[], map[])
    }

    // The rounds of the algorithm, vertex by vertex. Whatever the score formula, the totals
    // and sizes stay exact, no shard that has a vertex loses its last one, and the result
    // lists each moved vertex once with its final shard.
    method CLPA_Partition() returns (addrs: seq<Vertex>, res: map<Vertex, int>)
      requires Valid()
      modifies this
      ensures Valid() && Totals() && Decided(old(partitionMap), partitionMap, addrs, res)
      ensures Inhabited(old(vertexsNumInShard), vertexsNumInShard)
      ensures exists tries :: Now(addrs, res, tries) ==
                Rounds(netGraph.log, formula, old(Start()), netGraph.vertexs, maxIterations)
    {
      ghost var begin := Start();
      ComputeEdges2Shard();
      AllInRange();
      WeightsSum(netGraph.log, partitionMap, edges2Shard);
      addrs, res := [], map[];
      var tries: map<Vertex, int> := map[];
      assert edges2Shard == begin.weights;
      assert Now(addrs, res, tries) == begin;
      assert forall v | v in netGraph.vertexs :: v in partitionMap;
      ghost var start, sizes := partitionMap, vertexsNumInShard;
      hide Totals, Decided, SizesOk, Valid, Now, Visited, Start;
      for iter := 0 to maxIterations
        invariant Valid() && Totals() && Decided(start, partitionMap, addrs, res)
        invariant Inhabited(sizes, vertexsNumInShard) && partitionMap.Keys == start.Keys
        invariant Now(addrs, res, tries) == Rounds(netGraph.log, formula, begin, netGraph.vertexs, iter)
      {
        ghost var s := Now(addrs, res, tries);
        for i := 0 to |netGraph.vertexs|
          invariant Valid() && Totals() && Decided(start, partitionMap, addrs, res)
          invariant Inhabited(sizes, vertexsNumInShard) && partitionMap.Keys == start.Keys
          invariant Now(addrs, res, tries) == Round(netGraph.log, formula, s, netGraph.vertexs, i)
        {
          assert netGraph.vertexs[i] in netGraph.vertexs;
          addrs, res, tries := Visit(netGraph.vertexs[i], addrs, res, tries, start);
          DecidedKeys(start, partitionMap, addrs, res);
        }
      }
    }
  }

  ghost function Touches(log: seq<Edge>, p: Partition, n: nat): seq<int> {
    seq(n, k => Touch(log, p, k))
  }

  lemma DecidedKeys(start: Partition, p: Partition, addrs: seq<Vertex>, res: map<Vertex, int>)
    requires Decided(start, p, addrs, res)
    ensures p.Keys == start.Keys
  {
  }

  lemma SteppedIs(xs: seq<Vertex>, p: Partition, o: int, n: int, before: seq<int>, cross: int,
                  after: seq<int>, cross': int)
    requires Stepped(xs, p, o, n, before, cross, after, cross')
    ensures after == Shifted(xs, p, o, n, before) && cross' == cross + CrossSteps(xs, p, o, n)
  {
  }

  lemma LeastIs(m: int, xs: seq<int>)
    requires IsMin(m, xs)
    ensures m == MinOf(xs)
  {
    MinOfIs(xs);
  }
}
