// What a partition of the vertices does to the edges of a graph: per shard, the edges that
// touch it, and overall the edges that cross. These recounts over the log of edges are the
// reference for the totals CLPA maintains.
module Cuts {
  import opened Graphs

  type Partition = map<Vertex, int>

  // A vertex without an entry reads as shard 0.
  function ShardOf(p: Partition, v: Vertex): int {
    if v in p then p[v] else 0
  }

  // The vertices of shard k.
  ghost function Members(p: Partition, k: int): set<Vertex> {
    set v | v in p && p[v] == k
  }

  function One(b: bool): (n: int)
    ensures 0 <= n <= 1
  {
    if b then 1 else 0
  }

  predicate Crosses(p: Partition, e: Edge) {
    ShardOf(p, e.u) != ShardOf(p, e.v)
  }

  // The edges between shards; those that touch shard k from another one; those within k.
  function Cross(log: seq<Edge>, p: Partition): nat {
    if log == [] then 0 else Cross(log[..|log| - 1], p) + One(Crosses(p, log[|log| - 1]))
  }

  function CrossAt(log: seq<Edge>, p: Partition, k: int): nat {
    if log == [] then 0
    else
      var e := log[|log| - 1];
      CrossAt(log[..|log| - 1], p, k) + One(Crosses(p, e) && (ShardOf(p, e.u) == k || ShardOf(p, e.v) == k))
  }

  function InsideAt(log: seq<Edge>, p: Partition, k: int): nat {
    if log == [] then 0
    else
      var e := log[|log| - 1];
      InsideAt(log[..|log| - 1], p, k) + One(ShardOf(p, e.u) == k == ShardOf(p, e.v))
  }

  // The weight of a shard: the edges with at least one end in it.
  function Touch(log: seq<Edge>, p: Partition, k: int): nat {
    if log == [] then 0
    else
      var e := log[|log| - 1];
      Touch(log[..|log| - 1], p, k) + One(ShardOf(p, e.u) == k || ShardOf(p, e.v) == k)
  }

  lemma {:induction false} TouchSplits(log: seq<Edge>, p: Partition, k: int)
    ensures Touch(log, p, k) == CrossAt(log, p, k) + InsideAt(log, p, k)
  {
    if log != [] {
      TouchSplits(log[..|log| - 1], p, k);
    }
  }

  // ----- adjacency entries, counted over the vertices seen so far -----

  // Entries of lists of vertices in s that lead into shard k from another shard.
  function Into(log: seq<Edge>, p: Partition, k: int, s: set<Vertex>): nat {
    if log == [] then 0
    else
      var e := log[|log| - 1];
      Into(log[..|log| - 1], p, k, s)
      + One(e.u in s && ShardOf(p, e.v) == k && Crosses(p, e)) + One(e.v in s && ShardOf(p, e.u) == k && Crosses(p, e))
  }

  function Within(log: seq<Edge>, p: Partition, k: int, s: set<Vertex>): nat {
    if log == [] then 0
    else
      var e := log[|log| - 1];
      Within(log[..|log| - 1], p, k, s)
      + One(e.u in s && ShardOf(p, e.v) == k && !Crosses(p, e)) + One(e.v in s && ShardOf(p, e.u) == k && !Crosses(p, e))
  }

  function CountIn(xs: seq<Vertex>, p: Partition, k: int): nat {
    if xs == [] then 0 else CountIn(xs[..|xs| - 1], p, k) + One(ShardOf(p, xs[|xs| - 1]) == k)
  }

  lemma CountInAppend(xs: seq<Vertex>, b: bool, x: Vertex, p: Partition, k: int)
    ensures CountIn(xs + if b then [x] else [], p, k) == CountIn(xs, p, k) + One(b && ShardOf(p, x) == k)
  {
    if b {
      assert (xs + [x])[..|xs|] == xs;
    } else {
      assert xs + [] == xs;
    }
  }

  lemma AdjCount(log: seq<Edge>, v: Vertex, p: Partition, k: int)
    requires log != [] && !log[|log| - 1].oneWay
    ensures var e := log[|log| - 1];
            CountIn(Adj(log, v), p, k) == CountIn(Adj(log[..|log| - 1], v), p, k)
              + One(e.u == v && ShardOf(p, e.v) == k) + One(e.v == v && ShardOf(p, e.u) == k)
  {
    AdjStep(log, v);
    var e, xs := log[|log| - 1], Adj(log[..|log| - 1], v);
    CountInAppend(xs, e.u == v, e.v, p, k);
    CountInAppend(xs + if e.u == v then [e.v] else [], e.v == v, e.u, p, k);
    hide CountIn, Adj;
  }

  // The entries of one edge, with one more vertex seen.
  lemma EdgeEntries(e: Edge, p: Partition, k: int, s: set<Vertex>, v: Vertex)
    requires v !in s
    ensures One(e.u in s + {v} && ShardOf(p, e.v) == k && Crosses(p, e)) ==
            One(e.u in s && ShardOf(p, e.v) == k && Crosses(p, e))
            + if ShardOf(p, v) != k then One(e.u == v && ShardOf(p, e.v) == k) else 0
    ensures One(e.v in s + {v} && ShardOf(p, e.u) == k && Crosses(p, e)) ==
            One(e.v in s && ShardOf(p, e.u) == k && Crosses(p, e))
            + if ShardOf(p, v) != k then One(e.v == v && ShardOf(p, e.u) == k) else 0
    ensures One(e.u in s + {v} && ShardOf(p, e.v) == k && !Crosses(p, e)) ==
            One(e.u in s && ShardOf(p, e.v) == k && !Crosses(p, e))
            + if ShardOf(p, v) == k then One(e.u == v && ShardOf(p, e.v) == k) else 0
    ensures One(e.v in s + {v} && ShardOf(p, e.u) == k && !Crosses(p, e)) ==
            One(e.v in s && ShardOf(p, e.u) == k && !Crosses(p, e))
            + if ShardOf(p, v) == k then One(e.v == v && ShardOf(p, e.u) == k) else 0
  {
  }

  // One more vertex adds the entries of its list.
  lemma {:induction false} IntoStep(log: seq<Edge>, p: Partition, k: int, s: set<Vertex>, v: Vertex)
    requires TwoWay(log) && v !in s
    ensures Into(log, p, k, s + {v}) ==
            Into(log, p, k, s) + if ShardOf(p, v) != k then CountIn(Adj(log, v), p, k) else 0
    ensures Within(log, p, k, s + {v}) ==
            Within(log, p, k, s) + if ShardOf(p, v) == k then CountIn(Adj(log, v), p, k) else 0
  {
    if log == [] {
    } else {
      var init, e := log[..|log| - 1], log[|log| - 1];
      assert e in log && TwoWay(init);
      IntoStep(init, p, k, s, v);
      AdjCount(log, v, p, k);
      EdgeEntries(e, p, k, s, v);
      hide Adj, CountIn, TwoWay, One, Crosses, ShardOf;
    }
  }

  ghost predicate Covers(s: set<Vertex>, log: seq<Edge>) {
    forall e | e in log :: e.u in s && e.v in s
  }

  // Counted over all vertices, a crossing edge is one entry into each of its shards, and an
  // inner edge is two entries of its shard.
  lemma {:induction false} AllEntries(log: seq<Edge>, p: Partition, k: int, s: set<Vertex>)
    requires Covers(s, log)
    ensures Into(log, p, k, s) == CrossAt(log, p, k) && Within(log, p, k, s) == 2 * InsideAt(log, p, k)
  {
    if log != [] {
      assert log[|log| - 1] in log;
      AllEntries(log[..|log| - 1], p, k, s);
    }
  }

  // ----- sums over the shards -----

  function SumUpTo(log: seq<Edge>, p: Partition, n: nat): nat {
    if n == 0 then 0 else SumUpTo(log, p, n - 1) + CrossAt(log, p, n - 1)
  }

  function TouchUpTo(log: seq<Edge>, p: Partition, n: nat): nat {
    if n == 0 then 0 else TouchUpTo(log, p, n - 1) + Touch(log, p, n - 1)
  }

  lemma {:induction false} SumStep(log: seq<Edge>, p: Partition, n: nat)
    requires log != []
    ensures var e := log[|log| - 1]; var a, b := ShardOf(p, e.u), ShardOf(p, e.v);
            && SumUpTo(log, p, n) == SumUpTo(log[..|log| - 1], p, n)
                 + (if a == b then 0 else One(0 <= a < n) + One(0 <= b < n))
            && TouchUpTo(log, p, n) == TouchUpTo(log[..|log| - 1], p, n)
                 + One(0 <= a < n) + if a == b then 0 else One(0 <= b < n)
  {
    if n > 0 {
      SumStep(log, p, n - 1);
    }
  }

  ghost predicate InRange(log: seq<Edge>, p: Partition, n: nat) {
    forall e | e in log :: 0 <= ShardOf(p, e.u) < n && 0 <= ShardOf(p, e.v) < n
  }

  // Over all shards, each crossing edge is counted twice, and the weights of the shards
  // sum up to the edges plus the crossing ones.
  lemma {:induction false} ShardSums(log: seq<Edge>, p: Partition, n: nat)
    requires InRange(log, p, n)
    ensures SumUpTo(log, p, n) == 2 * Cross(log, p)
    ensures TouchUpTo(log, p, n) == |log| + Cross(log, p)
  {
    if log == [] {
      NothingToSum(p, n);
    } else {
      assert log[|log| - 1] in log;
      ShardSums(log[..|log| - 1], p, n);
      SumStep(log, p, n);
    }
  }

  lemma {:induction false} NothingToSum(p: Partition, n: nat)
    ensures SumUpTo([], p, n) == 0 && TouchUpTo([], p, n) == 0
  {
    if n > 0 {
      NothingToSum(p, n - 1);
    }
  }

  // ----- moving one vertex -----

  // The self-loops of a vertex.
  function Loops(log: seq<Edge>, v: Vertex): nat {
    if log == [] then 0 else Loops(log[..|log| - 1], v) + One(log[|log| - 1].u == v == log[|log| - 1].v)
  }

  // What the neighbours of a vertex that moves from shard o to shard n change about the
  // weight of shard k, and about the crossing edges, one list entry at a time.
  function WeightStep(uShard: int, o: int, n: int, k: int): int {
    if uShard != n then One(k == n) - (if uShard == o then 0 else One(k == o)) else -One(k == o)
  }

  function CrossStep(uShard: int, o: int, n: int): int {
    if uShard != n then One(uShard == o) else -1
  }

  function WeightSteps(xs: seq<Vertex>, p: Partition, o: int, n: int, k: int): int {
    if xs == [] then 0
    else WeightSteps(xs[..|xs| - 1], p, o, n, k) + WeightStep(ShardOf(p, xs[|xs| - 1]), o, n, k)
  }

  function CrossSteps(xs: seq<Vertex>, p: Partition, o: int, n: int): int {
    if xs == [] then 0
    else CrossSteps(xs[..|xs| - 1], p, o, n) + CrossStep(ShardOf(p, xs[|xs| - 1]), o, n)
  }

  lemma StepsAppend(xs: seq<Vertex>, b: bool, x: Vertex, p: Partition, o: int, n: int, k: int)
    ensures WeightSteps(xs + if b then [x] else [], p, o, n, k) ==
            WeightSteps(xs, p, o, n, k) + if b then WeightStep(ShardOf(p, x), o, n, k) else 0
    ensures CrossSteps(xs + if b then [x] else [], p, o, n) ==
            CrossSteps(xs, p, o, n) + if b then CrossStep(ShardOf(p, x), o, n) else 0
  {
    if b {
      assert (xs + [x])[..|xs|] == xs;
    } else {
      assert xs + [] == xs;
    }
  }

  lemma AdjSteps(log: seq<Edge>, v: Vertex, p: Partition, o: int, n: int, k: int)
    requires log != [] && !log[|log| - 1].oneWay
    ensures var e, init := log[|log| - 1], log[..|log| - 1];
            && WeightSteps(Adj(log, v), p, o, n, k) == WeightSteps(Adj(init, v), p, o, n, k)
                 + (if e.u == v then WeightStep(ShardOf(p, e.v), o, n, k) else 0)
                 + (if e.v == v then WeightStep(ShardOf(p, e.u), o, n, k) else 0)
            && CrossSteps(Adj(log, v), p, o, n) == CrossSteps(Adj(init, v), p, o, n)
                 + (if e.u == v then CrossStep(ShardOf(p, e.v), o, n) else 0)
                 + (if e.v == v then CrossStep(ShardOf(p, e.u), o, n) else 0)
  {
    AdjStep(log, v);
    var e, xs := log[|log| - 1], Adj(log[..|log| - 1], v);
    StepsAppend(xs, e.u == v, e.v, p, o, n, k);
    StepsAppend(xs + if e.u == v then [e.v] else [], e.v == v, e.u, p, o, n, k);
    hide WeightSteps, CrossSteps, WeightStep, CrossStep, Adj;
  }

  // The same for one edge.
  lemma EdgeMoves(e: Edge, p: Partition, v: Vertex, n: int, k: int)
    requires ShardOf(p, v) != n
    ensures var o, q, loop := ShardOf(p, v), p[v := n], One(e.u == v == e.v);
            && One(ShardOf(p, e.u) == k || ShardOf(p, e.v) == k)
               + (if e.u == v then WeightStep(ShardOf(q, e.v), o, n, k) else 0)
               + (if e.v == v then WeightStep(ShardOf(q, e.u), o, n, k) else 0)
               == One(ShardOf(q, e.u) == k || ShardOf(q, e.v) == k) - (if k == o || k == n then loop else 0)
            && One(Crosses(p, e)) + (if e.u == v then CrossStep(ShardOf(q, e.v), o, n) else 0)
               + (if e.v == v then CrossStep(ShardOf(q, e.u), o, n) else 0)
               == One(Crosses(q, e)) - 2 * loop
  {
  }

  // The steps over the neighbours of a moved vertex amount to a recount, up to its
  // self-loops, each of which leaves both its shards one short and the crossings two short.
  lemma {:induction false} MoveIsRecount(log: seq<Edge>, p: Partition, v: Vertex, n: int, k: int)
    requires TwoWay(log) && ShardOf(p, v) != n
    ensures var o, q := ShardOf(p, v), p[v := n];
            && Touch(log, p, k) + WeightSteps(Adj(log, v), q, o, n, k) ==
                 Touch(log, q, k) - (if k == o || k == n then Loops(log, v) else 0)
            && Cross(log, p) + CrossSteps(Adj(log, v), q, o, n) == Cross(log, q) - 2 * Loops(log, v)
  {
    if log == [] {
    } else {
      var init, e := log[..|log| - 1], log[|log| - 1];
      assert e in log && TwoWay(init);
      MoveIsRecount(init, p, v, n, k);
      AdjSteps(log, v, p[v := n], ShardOf(p, v), n, k);
      EdgeMoves(e, p, v, n, k);
      hide Adj, WeightSteps, CrossSteps, TwoWay, WeightStep, CrossStep, One, Crosses;
    }
  }
}
