// algorithm/partition_LBF.go: shards are filled one after the other with random vertices
// until they carry the average load; the last one takes what is left. The load of a vertex
// is the length of its adjacency list. Sums are exact here.
module Lbf {
  import Addresses
  import opened Graphs
  import opened Cuts

  // ----- loads -----

  // The load of a set of vertices: the list entries they hold.
  ghost function Load(links: seq<Link>, s: set<Vertex>): nat {
    if links == [] then 0 else Load(links[..|links| - 1], s) + if links[|links| - 1].at in s then 1 else 0
  }

  lemma {:induction false} LoadStep(links: seq<Link>, s: set<Vertex>, v: Vertex)
    requires v !in s
    ensures Load(links, s + {v}) == Load(links, s) + |Out(links, v)|
  {
    if links != [] {
      LoadStep(links[..|links| - 1], s, v);
    }
  }

  lemma {:induction false} LoadNone(links: seq<Link>)
    ensures Load(links, {}) == 0
  {
    if links != [] {
      LoadNone(links[..|links| - 1]);
    }
  }

  lemma {:induction false} LoadAll(links: seq<Link>, s: set<Vertex>)
    requires forall l | l in links :: l.at in s
    ensures Load(links, s) == |links|
  {
    if links != [] {
      assert links[|links| - 1] in links;
      LoadAll(links[..|links| - 1], s);
    }
  }

  lemma {:induction false} LoadJoin(links: seq<Link>, s: set<Vertex>, t: set<Vertex>)
    requires s !! t
    ensures Load(links, s + t) == Load(links, s) + Load(links, t)
  {
    if links != [] {
      LoadJoin(links[..|links| - 1], s, t);
    }
  }

  ghost function ShardLoad(links: seq<Link>, p: Partition, k: int): nat {
    Load(links, Members(p, k))
  }

  ghost function LoadUpTo(links: seq<Link>, p: Partition, n: nat): nat {
    if n == 0 then 0 else LoadUpTo(links, p, n - 1) + ShardLoad(links, p, n - 1)
  }

  ghost function Below(p: Partition, n: int): set<Vertex> {
    set v | v in p && 0 <= p[v] < n
  }

  lemma {:induction false} LoadsAdd(links: seq<Link>, p: Partition, n: nat)
    ensures LoadUpTo(links, p, n) == Load(links, Below(p, n))
  {
    if n == 0 {
      assert Below(p, 0) == {};
      LoadNone(links);
    } else {
      LoadsAdd(links, p, n - 1);
      assert Below(p, n) == Below(p, n - 1) + Members(p, n - 1);
      LoadJoin(links, Below(p, n - 1), Members(p, n - 1));
    }
  }

  // The loads of all shards sum up to the load of the graph.
  lemma LoadsSum(links: seq<Link>, p: Partition, n: nat)
    requires forall l | l in links :: l.at in p && 0 <= p[l.at] < n
    ensures LoadUpTo(links, p, n) == |links|
  {
    LoadsAdd(links, p, n);
    LoadAll(links, Below(p, n));
  }

  // n shares of size avg.
  ghost function Shares(n: nat, avg: real): real {
    if n == 0 then 0.0 else Shares(n - 1, avg) + avg
  }

  lemma {:induction false} SharesIsProduct(n: nat, avg: real)
    ensures Shares(n, avg) == avg * n as real
  {
    if n > 0 {
      SharesIsProduct(n - 1, avg);
      assert avg * n as real == avg * (n - 1) as real + avg;
    }
  }

  lemma {:induction false} FullShards(links: seq<Link>, p: Partition, avg: real, n: nat)
    requires forall k | 0 <= k < n :: ShardLoad(links, p, k) as real >= avg
    ensures LoadUpTo(links, p, n) as real >= Shares(n, avg)
  {
    if n > 0 {
      FullShards(links, p, avg, n - 1);
    }
  }

  lemma AverageOf(total: nat, n: nat, avg: real)
    requires n > 0 && avg == total as real / n as real
    ensures avg >= 0.0 && avg * n as real == total as real
  {
  }

  // No vertex carries more than d.
  ghost predicate Degrees(links: seq<Link>, d: nat) {
    forall v :: |Out(links, v)| <= d
  }

  // ----- the invariant of the filling -----

  // The vertices still to be given out, each once; all others have a shard up to i.
  ghost predicate Given(all: set<Vertex>, vertexs: seq<Vertex>, p: Partition, i: int) {
    && (forall a, b | 0 <= a < b < |vertexs| :: vertexs[a] != vertexs[b])
    && (forall v :: v in all <==> v in p || v in vertexs)
    && (forall v | v in vertexs :: v !in p)
    && (forall v | v in p :: 0 <= p[v] <= i)
  }

  // A shard is full, but no fuller than one vertex makes it.
  ghost predicate Filled(links: seq<Link>, p: Partition, k: int, avg: real, left: seq<Vertex>) {
    && (ShardLoad(links, p, k) as real >= avg || left == [])
    && (avg > 0.0 ==> forall d | Degrees(links, d) :: ShardLoad(links, p, k) as real < avg + d as real)
  }

  // The accounts whose shard changes, each once, with their shard.
  ghost predicate Changes(home: Vertex -> int, p: Partition, addrs: seq<Vertex>, res: map<Vertex, int>) {
    && (forall a, b | 0 <= a < b < |addrs| :: addrs[a] != addrs[b])
    && (forall v :: v in addrs <==> v in res)
    && (forall v :: v in res <==> v in p && p[v] != home(v))
    && (forall v | v in res :: res[v] == p[v])
  }

  lemma ChangesOne(home: Vertex -> int, p: Partition, addrs: seq<Vertex>, res: map<Vertex, int>, v: Vertex, k: int)
    requires Changes(home, p, addrs, res) && v !in p
    ensures if k != home(v) then Changes(home, p[v := k], addrs + [v], res[v := k])
            else Changes(home, p[v := k], addrs, res)
  {
    assert forall x :: x in addrs + [v] <==> x in addrs || x == v;
  }

  lemma GiveOne(all: set<Vertex>, vertexs: seq<Vertex>, p: Partition, i: nat, index: nat)
    requires Given(all, vertexs, p, i) && index < |vertexs|
    ensures Given(all, vertexs[..index] + vertexs[index + 1..], p[vertexs[index] := i], i)
  {
    var v, rest := vertexs[index], vertexs[..index] + vertexs[index + 1..];
    assert vertexs == vertexs[..index] + [v] + vertexs[index + 1..];
    assert forall x :: x in vertexs <==> x in rest || x == v;
  }

  // One more vertex for shard k leaves the loads of the others.
  lemma LoadOne(links: seq<Link>, p: Partition, v: Vertex, k: int)
    requires v !in p
    ensures ShardLoad(links, p[v := k], k) == ShardLoad(links, p, k) + |Out(links, v)|
    ensures forall j | j != k :: ShardLoad(links, p[v := k], j) == ShardLoad(links, p, j)
  {
    assert Members(p[v := k], k) == Members(p, k) + {v};
    LoadStep(links, Members(p, k), v);
    forall j | j != k ensures Members(p[v := k], j) == Members(p, j) {
    }
  }

  // The first n shards are full.
  ghost predicate AllFilled(links: seq<Link>, p: Partition, n: int, avg: real, left: seq<Vertex>) {
    forall k | 0 <= k < n :: Filled(links, p, k, avg, left)
  }

  lemma StillFilled(links: seq<Link>, p: Partition, n: int, avg: real, left: seq<Vertex>, v: Vertex, k: int,
                    left': seq<Vertex>)
    requires AllFilled(links, p, n, avg, left) && v !in p && k >= n && left != []
    ensures AllFilled(links, p[v := k], n, avg, left')
  {
    LoadOne(links, p, v, k);
    var q := p[v := k];
    forall j | 0 <= j < n ensures Filled(links, q, j, avg, left') {
      assert Filled(links, p, j, avg, left);
    }
  }

  // The last shard carries no more than the average.
  lemma LastIsSmall(links: seq<Link>, p: Partition, n: nat, avg: real, left: seq<Vertex>)
    requires n > 0 && avg >= 0.0 && Shares(n, avg) == |links| as real && AllFilled(links, p, n - 1, avg, left)
    requires forall l | l in links :: l.at in p && 0 <= p[l.at] < n
    requires left == [] ==> forall v | v in p :: p[v] < n - 1
    ensures ShardLoad(links, p, n - 1) as real <= avg
  {
    LoadsSum(links, p, n);
    if left == [] {
      assert Members(p, n - 1) == {};
      LoadNone(links);
    } else {
      forall k | 0 <= k < n - 1 ensures ShardLoad(links, p, k) as real >= avg {
        assert Filled(links, p, k, avg, left);
      }
      FullShards(links, p, avg, n - 1);
    }
  }

  // Loads sum up to the total; the first shards carry less than the average and one
  // vertex, the last no more than the average.
  ghost predicate Balanced(links: seq<Link>, p: Partition, n: nat, avg: real) {
    && n > 0 && LoadUpTo(links, p, n) == |links| && avg * n as real == |links| as real
    && (avg > 0.0 ==> forall k, d | 0 <= k < n - 1
     && Degrees(links, d) :: ShardLoad(links, p, k) as real < avg + d as real)
    && ShardLoad(links, p, n - 1) as real <= avg
  }

  lemma LoadsBalanced(links: seq<Link>, p: Partition, n: nat, avg: real, left: seq<Vertex>)
    requires n > 0 && avg >= 0.0 && avg * n as real == |links| as real && AllFilled(links, p, n - 1, avg, left)
    requires forall l | l in links :: l.at in p && 0 <= p[l.at] < n
    requires left == [] ==> forall v | v in p :: p[v] < n - 1
    ensures Balanced(links, p, n, avg)
  {
    SharesIsProduct(n, avg);
    LoadsSum(links, p, n);
    LastIsSmall(links, p, n, avg, left);
    FilledBound(links, p, n - 1, avg, left);
    hide Shares, LoadUpTo, AllFilled, ShardLoad, Degrees;
  }

  lemma FilledBound(links: seq<Link>, p: Partition, n: int, avg: real, left: seq<Vertex>)
    requires AllFilled(links, p, n, avg, left)
    ensures avg > 0.0 ==>
              forall k, d | 0 <= k < n && Degrees(links, d) :: ShardLoad(links, p, k) as real < avg + d as real
  {
    forall k, d | 0 <= k < n && Degrees(links, d)
      ensures avg > 0.0 ==> ShardLoad(links, p, k) as real < avg + d as real
    {
      assert Filled(links, p, k, avg, left);
    }
  }

  class LBFState {
    const netGraph: Graph
    const accounts: Addresses.AddressTable
    const shardNum: nat
    var partitionMap: Partition
    var avgWeight: real

    constructor (graph: Graph, accounts: Addresses.AddressTable, sn: nat)
      ensures netGraph == graph && this.accounts == accounts && shardNum == sn
    {
      netGraph, this.accounts, shardNum, partitionMap, avgWeight := graph, accounts, sn, map[], 0.0;
    }

    // Asking the table does not change what it answers, and leaves an entry for each vertex
    // that has been given out.
    ghost predicate Answers(home: Vertex -> int)
      reads this, accounts
    {
      (forall v :: accounts.Of(v) == home(v)) && forall v | v in partitionMap :: v in accounts.table
    }

    method SumDegrees() returns (sum: nat)
      requires netGraph.Valid()
      ensures sum == |netGraph.links|
    {
      sum := 0;
      var todo := netGraph.edgeSet.Keys;
      ghost var seen: set<Vertex>, links := {}, netGraph.links;
      LoadNone(links);
      while todo != {}
        invariant todo <= netGraph.edgeSet.Keys && seen == netGraph.edgeSet.Keys - todo
        invariant sum == Load(links, seen)
        decreases |todo|
      {
        var v :| v in todo;
        todo := todo - {v};
        LoadStep(links, seen, v);
        assert ListOf(netGraph.edgeSet, v) == Out(links, v);
        hide Load, Out;
        sum := sum + |netGraph.edgeSet[v]|;
        seen := seen + {v};
      }
      forall l | l in links ensures l.at in seen {
        OutIn(links, l.at, l.other);
        assert ListOf(netGraph.edgeSet, l.at) == Out(links, l.at);
      }
      LoadAll(links, seen);
    }

    // The average load of a shard.
    method ComputeAvgWeight()
      requires netGraph.Valid() && shardNum > 0
      modifies this`avgWeight
      ensures avgWeight >= 0.0 && avgWeight * shardNum as real == |netGraph.links| as real
    {
      hide Graph.Valid;
      var sum := SumDegrees();
      avgWeight := sum as real / shardNum as real;
      AverageOf(sum, shardNum, avgWeight);
    }

    ghost predicate Lists(links: seq<Link>)
      reads netGraph`edgeSet
    {
      forall v :: ListOf(netGraph.edgeSet, v) == Out(links, v)
    }

    // Vertex number index of those left goes to shard i.
    method Give(index: nat, i: nat, addrs: seq<Vertex>, res: map<Vertex, int>,
                ghost all: set<Vertex>, ghost home: Vertex -> int)
      returns (addrs': seq<Vertex>, res': map<Vertex, int>)
      requires index < |netGraph.vertexs| && Given(all, netGraph.vertexs, partitionMap, i)
      requires Changes(home, partitionMap, addrs, res) && Answers(home)
      modifies this`partitionMap, netGraph`vertexs, accounts
      ensures Given(all, netGraph.vertexs, partitionMap, i) && Changes(home, partitionMap, addrs', res')
             && Answers(home)
      ensures partitionMap == old(partitionMap)[old(netGraph.vertexs)[index] := i]
      ensures netGraph.vertexs == old(netGraph.vertexs)[..index] + old(netGraph.vertexs)[index + 1..]
    {
      var vertex := netGraph.vertexs[index];
      GiveOne(all, netGraph.vertexs, partitionMap, i, index);
      ChangesOne(home, partitionMap, addrs, res, vertex, i);
      addrs', res' := addrs, res;
      partitionMap := partitionMap[vertex := i];
      var now := accounts.Addr2Shard(vertex);
      if i != now {
        addrs' := addrs + [vertex];
        res' := res[vertex := i];
      }
      netGraph.vertexs := netGraph.vertexs[..index] + netGraph.vertexs[index + 1..];
    }

    // Random vertices go to shard i until it carries the average or none is left.
    method FillShard(i: nat, addrs: seq<Vertex>, res: map<Vertex, int>,
                ghost all: set<Vertex>, ghost home: Vertex -> int, ghost links: seq<Link>)
      returns (addrs': seq<Vertex>, res': map<Vertex, int>)
      requires Lists(links) && Given(all, netGraph.vertexs, partitionMap, i - 1)
      requires Changes(home, partitionMap, addrs, res) && Answers(home)
      requires AllFilled(links, partitionMap, i, avgWeight, netGraph.vertexs)
      modifies this`partitionMap, netGraph`vertexs, accounts
      ensures Given(all, netGraph.vertexs, partitionMap, i) && Changes(home, partitionMap, addrs', res')
             && Answers(home)
      ensures AllFilled(links, partitionMap, i + 1, avgWeight, netGraph.vertexs)
    {
      addrs', res' := addrs, res;
      var curSum := 0.0;
      assert Members(partitionMap, i) == {};
      LoadNone(links);
      hide Given, Changes;
      while curSum < avgWeight && |netGraph.vertexs| > 0
        invariant Given(all, netGraph.vertexs, partitionMap, i) && Changes(home, partitionMap, addrs', res')
               && Answers(home)
        invariant AllFilled(links, partitionMap, i, avgWeight, netGraph.vertexs)
        invariant curSum == ShardLoad(links, partitionMap, i) as real
        invariant avgWeight > 0.0 ==> forall d | Degrees(links, d) :: curSum < avgWeight + d as real
        decreases |netGraph.vertexs|
      {
        var index: nat :| index < |netGraph.vertexs|;
        var vertex := netGraph.vertexs[index];
        ghost var p, left := partitionMap, netGraph.vertexs;
        NotGiven(all, left, p, i, index);
        addrs', res' := Give(index, i, addrs', res', all, home);
        curSum := curSum + |ListOf(netGraph.edgeSet, vertex)| as real;
        LoadOne(links, p, vertex, i);
        StillFilled(links, p, i, avgWeight, left, vertex, i, netGraph.vertexs);
      }
    }

    lemma NotGiven(all: set<Vertex>, vertexs: seq<Vertex>, p: Partition, i: int, index: nat)
      requires Given(all, vertexs, p, i) && index < |vertexs|
      ensures vertexs[index] !in p
    {
    }

    // Whatever the random choices: every vertex gets one shard; the first shards carry less
    // than the average and one vertex, the last no more than the average; and the result
    // lists the accounts that change shard.
    method LBF_Partition() returns (addrs: seq<Vertex>, res: map<Vertex, int>)
      requires netGraph.Valid() && shardNum > 0
      modifies this, netGraph`vertexs, accounts
      ensures partitionMap.Keys == netGraph.vertexSet.Keys
      ensures forall v | v in partitionMap :: 0 <= partitionMap[v] < shardNum
      ensures Balanced(netGraph.links, partitionMap, shardNum, avgWeight)
      ensures Changes(Addresses.Answers(old(accounts.table), accounts.default), partitionMap, addrs, res)
      ensures Answers(Addresses.Answers(old(accounts.table), accounts.default))
    {
      hide Given, Changes, Lists, AllFilled, Links, Balanced;
      ghost var home := Addresses.Answers(accounts.table, accounts.default);
      ghost var all, links := netGraph.vertexSet.Keys, netGraph.links;
      NothingGiven();
      ComputeAvgWeight();
      hide Graph.Valid;
      addrs, res := FillAll(all, home, links);
      ghost var left := netGraph.vertexs;
      GivenShards(all, left, partitionMap, shardNum - 2);
      addrs, res := GiveRest(addrs, res, all, home, links);
      LoadsBalanced(links, partitionMap, shardNum, avgWeight, left);
    }

    lemma GivenShards(all: set<Vertex>, vertexs: seq<Vertex>, p: Partition, i: int)
      requires Given(all, vertexs, p, i)
      ensures forall v | v in p :: p[v] <= i
    {
    }

    lemma NothingGiven()
      requires netGraph.Valid()
      ensures Given(netGraph.vertexSet.Keys, netGraph.vertexs, map[], -1) && Lists(netGraph.links)
      ensures forall l | l in netGraph.links :: l.at in netGraph.vertexSet.Keys
    {
    }

    // All shards but the last.
    method FillAll(ghost all: set<Vertex>, ghost home: Vertex -> int, ghost links: seq<Link>)
      returns (addrs: seq<Vertex>, res: map<Vertex, int>)
      requires (forall v :: accounts.Of(v) == home(v)) && shardNum > 0 && Lists(links) && Given(all, netGraph.vertexs, map[], -1)
      modifies this`partitionMap, netGraph`vertexs, accounts
      ensures Given(all, netGraph.vertexs, partitionMap, shardNum - 2) && Changes(home, partitionMap, addrs, res)
             && Answers(home)
      ensures AllFilled(links, partitionMap, shardNum - 1, avgWeight, netGraph.vertexs)
    {
      addrs, res := [], map[];
      partitionMap := map[];
      assert Changes(home, partitionMap, addrs, res);
      hide Given, Changes, Lists, Filled;
      for i := 0 to shardNum - 1
        invariant Lists(links) && Given(all, netGraph.vertexs, partitionMap, i - 1)
        invariant Changes(home, partitionMap, addrs, res) && Answers(home)
        invariant AllFilled(links, partitionMap, i, avgWeight, netGraph.vertexs)
      {
        addrs, res := FillShard(i, addrs, res, all, home, links);
      }
    }

    // What is left goes to the last shard.
    method GiveRest(addrs: seq<Vertex>, res: map<Vertex, int>,
                ghost all: set<Vertex>, ghost home: Vertex -> int, ghost links: seq<Link>)
      returns (addrs': seq<Vertex>, res': map<Vertex, int>)
      requires shardNum > 0 && Given(all, netGraph.vertexs, partitionMap, shardNum - 2)
      requires Changes(home, partitionMap, addrs, res) && Answers(home)
      requires AllFilled(links, partitionMap, shardNum - 1, avgWeight, netGraph.vertexs)
      modifies this`partitionMap, accounts
      ensures partitionMap.Keys == all && Changes(home, partitionMap, addrs', res') && Answers(home)
      ensures forall v | v in partitionMap :: 0 <= partitionMap[v] < shardNum
      ensures AllFilled(links, partitionMap, shardNum - 1, avgWeight, netGraph.vertexs)
      ensures netGraph.vertexs == [] ==> partitionMap == old(partitionMap)
    {
      addrs', res' := addrs, res;
      var last := shardNum - 1;
      for j := 0 to |netGraph.vertexs|
        invariant Given(all, netGraph.vertexs[j..], partitionMap, last) && Changes(home, partitionMap, addrs', res')
               && Answers(home)
        invariant AllFilled(links, partitionMap, last, avgWeight, netGraph.vertexs)
        invariant netGraph.vertexs == [] ==> partitionMap == old(partitionMap)
      {
        var vertex := netGraph.vertexs[j];
        GiveOne(all, netGraph.vertexs[j..], partitionMap, last, 0);
        ChangesOne(home, partitionMap, addrs', res', vertex, last);
        StillFilled(links, partitionMap, last, avgWeight, netGraph.vertexs, vertex, last, netGraph.vertexs);
        partitionMap := partitionMap[vertex := last];
        var now := accounts.Addr2Shard(vertex);
        if last != now {
          addrs' := addrs' + [vertex];
          res' := res'[vertex := last];
        }
      }
    }
  }
}
