// algorithm/partition_CLPA.go, the moves: which shard a vertex chooses, when it goes there,
// and what a visit, a round and all rounds do to what the algorithm keeps.
module ClpaMoves {
  import opened Graphs
  import opened Cuts

  // What the score makes of the edges to a shard, the degree of the vertex, the weight of
  // the shard and the least weight; floating-point arithmetic, so any function. A score
  // that is not a number is never chosen, nor is one of -9999 or less.
  type Formula = (nat, nat, int, int) -> real

  const NO_SCORE := -9999.0
  const MOVE_LIMIT := 1000

  // What the algorithm keeps while it runs: the partition with its totals, the result so
  // far, and how often each vertex has moved.
  datatype State = State(
    p: Partition,
    weights: seq<int>,
    cross: int,
    least: int,
    sizes: seq<int>,
    addrs: seq<Vertex>,
    res: map<Vertex, int>,
    tries: map<Vertex, int>)

  function At(xs: seq<int>, i: int): int {
    if 0 <= i < |xs| then xs[i] else 0
  }

  function Add(xs: seq<int>, i: int, d: int): (r: seq<int>)
    ensures |r| == |xs|
  {
    if 0 <= i < |xs| then xs[i := xs[i] + d] else xs
  }

  function TriesOf(s: State, v: Vertex): int {
    if v in s.tries then s.tries[v] else 0
  }

  // ----- the choice -----

  function Score(f: Formula, s: State, lst: seq<Vertex>, k: int): real {
    f(CountIn(lst, s.p, k), |lst|, At(s.weights, k), s.least)
  }

  // The scan over the neighbours takes a shard whenever its score beats all before.
  function Scan(f: Formula, s: State, lst: seq<Vertex>, own: int, n: nat): (int, real)
    requires n <= |lst|
  {
    if n == 0 then (own, NO_SCORE)
    else
      var (best, max) := Scan(f, s, lst, own, n - 1);
      var k := ShardOf(s.p, lst[n - 1]);
      if max < Score(f, s, lst, k) then (k, Score(f, s, lst, k)) else (best, max)
  }

  function Choice(f: Formula, s: State, lst: seq<Vertex>, own: int): int {
    Scan(f, s, lst, own, |lst|).0
  }

  // The i-th neighbour is the first one whose shard has the greatest score.
  ghost predicate Wins(f: Formula, s: State, lst: seq<Vertex>, n: nat, i: int)
    requires n <= |lst|
  {
    && 0 <= i < n && Score(f, s, lst, ShardOf(s.p, lst[i])) > NO_SCORE
    && (forall j | 0 <= j < n :: Score(f, s, lst, ShardOf(s.p, lst[j])) <= Score(f, s, lst, ShardOf(s.p, lst[i])))
    && (forall j | 0 <= j < i :: Score(f, s, lst, ShardOf(s.p, lst[j])) < Score(f, s, lst, ShardOf(s.p, lst[i])))
  }

  ghost predicate NoneScores(f: Formula, s: State, lst: seq<Vertex>, n: nat)
    requires n <= |lst|
  {
    forall j | 0 <= j < n :: Score(f, s, lst, ShardOf(s.p, lst[j])) <= NO_SCORE
  }

  lemma {:induction false} ScanWins(f: Formula, s: State, lst: seq<Vertex>, own: int, n: nat)
    requires n <= |lst|
    ensures var (best, max) := Scan(f, s, lst, own, n);
            || (NoneScores(f, s, lst, n) && best == own && max == NO_SCORE)
            || exists i :: Wins(f, s, lst, n, i) && best == ShardOf(s.p, lst[i]) && max == Score(f, s, lst, best)
  {
    hide Score;
    if n > 0 {
      ScanWins(f, s, lst, own, n - 1);
      var (best, max) := Scan(f, s, lst, own, n - 1);
      if max < Score(f, s, lst, ShardOf(s.p, lst[n - 1])) {
        assert Wins(f, s, lst, n, n - 1);
      } else if i :| Wins(f, s, lst, n - 1, i) && best == ShardOf(s.p, lst[i]) && max == Score(f, s, lst, best) {
        assert Wins(f, s, lst, n, i);
      }
    }
  }

  // A vertex chooses the shard with the greatest score among its neighbours', the first of
  // several, and its own shard if none scores at all.
  lemma ChoiceIsBest(f: Formula, s: State, lst: seq<Vertex>, own: int, best: int)
    ensures Choice(f, s, lst, own) == best <==>
              if NoneScores(f, s, lst, |lst|) then best == own
              else exists i :: Wins(f, s, lst, |lst|, i) && best == ShardOf(s.p, lst[i])
  {
    ScanWins(f, s, lst, own, |lst|);
    hide Score, Scan;
    forall i, j | Wins(f, s, lst, |lst|, i) && Wins(f, s, lst, |lst|, j) ensures i == j {
      OneWins(f, s, lst, i, j);
    }
  }

  lemma OneWins(f: Formula, s: State, lst: seq<Vertex>, i: int, j: int)
    requires Wins(f, s, lst, |lst|, i) && Wins(f, s, lst, |lst|, j)
    ensures i == j
  {
    hide Score;
  }

  // ----- a visit -----

  function Shifted(lst: seq<Vertex>, p: Partition, o: int, n: int, weights: seq<int>): seq<int> {
    seq(|weights|, k requires 0 <= k < |weights| => weights[k] + WeightSteps(lst, p, o, n, k))
  }

  function MinOf(xs: seq<int>): int {
    if |xs| <= 1 then At(xs, 0)
    else
      var m := MinOf(xs[..|xs| - 1]);
      if m > xs[|xs| - 1] then xs[|xs| - 1] else m
  }

  lemma {:induction false} MinOfIs(xs: seq<int>)
    requires xs != []
    ensures MinOf(xs) in xs && forall x | x in xs :: MinOf(xs) <= x
  {
    if |xs| > 1 {
      MinOfIs(xs[..|xs| - 1]);
      assert forall x | x in xs :: x in xs[..|xs| - 1] || x == xs[|xs| - 1];
    }
  }

  // Whether a vertex leaves its shard for the one it chooses: the choice is another shard,
  // its own does not become empty, and it has not moved too often.
  ghost predicate Leaves(f: Formula, s: State, lst: seq<Vertex>, v: Vertex) {
    && Choice(f, s, lst, ShardOf(s.p, v)) != ShardOf(s.p, v)
    && At(s.sizes, ShardOf(s.p, v)) > 1 && TriesOf(s, v) < MOVE_LIMIT
  }

  // The state after v has moved to shard n.
  function Moved(s: State, lst: seq<Vertex>, v: Vertex, n: int): State {
    var o, q := ShardOf(s.p, v), s.p[v := n];
    State(q, Shifted(lst, q, o, n, s.weights), s.cross + CrossSteps(lst, q, o, n),
          MinOf(Shifted(lst, q, o, n, s.weights)), Add(Add(s.sizes, o, -1), n, 1),
          if v in s.res then s.addrs else s.addrs + [v], s.res[v := n], s.tries[v := TriesOf(s, v) + 1])
  }

  ghost function Visited(log: seq<Edge>, f: Formula, s: State, v: Vertex): State {
    var lst := Adj(log, v);
    if Leaves(f, s, lst, v) then Moved(s, lst, v, Choice(f, s, lst, ShardOf(s.p, v))) else s
  }

  lemma StaysPut(log: seq<Edge>, f: Formula, s: State, v: Vertex)
    requires !Leaves(f, s, Adj(log, v), v)
    ensures Visited(log, f, s, v) == s
  {
  }

  lemma GoesTo(log: seq<Edge>, f: Formula, s: State, t: State, v: Vertex, n: int)
    requires Leaves(f, s, Adj(log, v), v) && n == Choice(f, s, Adj(log, v), ShardOf(s.p, v))
    requires t.p == s.p[v := n]
    requires t.weights == Shifted(Adj(log, v), t.p, ShardOf(s.p, v), n, s.weights) && t.least == MinOf(t.weights)
    requires t.cross == s.cross + CrossSteps(Adj(log, v), t.p, ShardOf(s.p, v), n)
    requires t.sizes == Add(Add(s.sizes, ShardOf(s.p, v), -1), n, 1)
    requires t.addrs == (if v in s.res then s.addrs else s.addrs + [v]) && t.res == s.res[v := n]
    requires t.tries == s.tries[v := TriesOf(s, v) + 1]
    ensures Visited(log, f, s, v) == t
  {
    hide Choice, Shifted, CrossSteps, MinOf, Add, Adj, Leaves, TriesOf;
  }

  // A visit moves the vertex to shard n exactly when n is another shard and the one with the
  // greatest score among its neighbours' (the first of several), its own shard holds more
  // than it, and it has moves left; otherwise nothing changes.
  lemma VisitMoves(log: seq<Edge>, f: Formula, s: State, v: Vertex, n: int)
    requires v in s.p
    ensures var lst := Adj(log, v);
            && (Visited(log, f, s, v).p == s.p[v := n] && n != s.p[v] <==>
                  && n != s.p[v] && At(s.sizes, s.p[v]) > 1 && TriesOf(s, v) < MOVE_LIMIT
                  && exists i :: Wins(f, s, lst, |lst|, i) && n == ShardOf(s.p, lst[i]))
            && (Visited(log, f, s, v).p == s.p <==> Visited(log, f, s, v) == s)
  {
    var lst := Adj(log, v);
    ChoiceIsBest(f, s, lst, s.p[v], n);
    if i :| Wins(f, s, lst, |lst|, i) && n == ShardOf(s.p, lst[i]) {
      assert !NoneScores(f, s, lst, |lst|);
    }
    var c := Choice(f, s, lst, s.p[v]);
    if Leaves(f, s, lst, v) {
      assert s.p[v := c][v] == c;
      assert s.p[v := n][v] == n;
      assert s.p[v := c] != s.p;
    }
    hide Wins, NoneScores, Choice, Score, Shifted, MinOf, Add;
  }

  // ----- rounds -----

  // One round visits every vertex; the first n of them have been visited.
  ghost function Round(log: seq<Edge>, f: Formula, s: State, vertexs: seq<Vertex>, n: nat): State
    requires n <= |vertexs|
  {
    if n == 0 then s else Visited(log, f, Round(log, f, s, vertexs, n - 1), vertexs[n - 1])
  }

  ghost function Rounds(log: seq<Edge>, f: Formula, s: State, vertexs: seq<Vertex>, iterations: nat): State {
    if iterations == 0 then s
    else Round(log, f, Rounds(log, f, s, vertexs, iterations - 1), vertexs, |vertexs|)
  }

  lemma TriesGrow(log: seq<Edge>, f: Formula, s: State, v: Vertex, x: Vertex)
    ensures TriesOf(Visited(log, f, s, v), x) ==
            TriesOf(s, x) + if x == v && Leaves(f, s, Adj(log, v), v) then 1 else 0
  {
    hide Leaves, Choice;
  }

  lemma {:induction false} RoundTries(log: seq<Edge>, f: Formula, s: State, vertexs: seq<Vertex>,
                                       n: nat, m: nat, x: Vertex)
    requires n <= m <= |vertexs|
    ensures TriesOf(Round(log, f, s, vertexs, n), x) <= TriesOf(Round(log, f, s, vertexs, m), x)
  {
    if n < m {
      RoundTries(log, f, s, vertexs, n, m - 1, x);
      TriesGrow(log, f, Round(log, f, s, vertexs, m - 1), vertexs[m - 1], x);
      hide Visited, TriesOf;
    }
  }

  // A round changes nothing exactly when no vertex would leave its shard: each chooses its
  // own, is the last one there, or has used up its moves.
  lemma RoundRests(log: seq<Edge>, f: Formula, s: State, vertexs: seq<Vertex>)
    ensures Round(log, f, s, vertexs, |vertexs|) == s <==> forall v | v in vertexs :: !Leaves(f, s, Adj(log, v), v)
  {
    hide Leaves, Adj, Visited, TriesOf, Round;
    if forall v | v in vertexs :: !Leaves(f, s, Adj(log, v), v) {
      RestsUpTo(log, f, s, vertexs, |vertexs|);
    } else {
      var n := FirstToLeave(log, f, s, vertexs);
      LeaverMoves(log, f, s, vertexs, n);
    }
  }

  lemma LeaverMoves(log: seq<Edge>, f: Formula, s: State, vertexs: seq<Vertex>, n: nat)
    requires n < |vertexs| && Leaves(f, s, Adj(log, vertexs[n]), vertexs[n])
    requires forall i | 0 <= i < n :: !Leaves(f, s, Adj(log, vertexs[i]), vertexs[i])
    ensures Round(log, f, s, vertexs, |vertexs|) != s
  {
    hide Leaves, Adj, Visited, TriesOf;
    RestsUpTo(log, f, s, vertexs, n);
    TriesGrow(log, f, s, vertexs[n], vertexs[n]);
    assert Round(log, f, s, vertexs, n + 1) == Visited(log, f, s, vertexs[n]);
    RoundTries(log, f, s, vertexs, n + 1, |vertexs|, vertexs[n]);
  }

  lemma FirstToLeave(log: seq<Edge>, f: Formula, s: State, vertexs: seq<Vertex>) returns (n: nat)
    requires exists v :: v in vertexs && Leaves(f, s, Adj(log, v), v)
    ensures n < |vertexs| && Leaves(f, s, Adj(log, vertexs[n]), vertexs[n])
    ensures forall i | 0 <= i < n :: !Leaves(f, s, Adj(log, vertexs[i]), vertexs[i])
  {
    hide Leaves, Adj;
    n := 0;
    while !Leaves(f, s, Adj(log, vertexs[n]), vertexs[n])
      invariant n < |vertexs|
      invariant forall i | 0 <= i < n :: !Leaves(f, s, Adj(log, vertexs[i]), vertexs[i])
      decreases |vertexs| - n
    {
      if n == |vertexs| - 1 {
        var v :| v in vertexs && Leaves(f, s, Adj(log, v), v);
        var i :| 0 <= i < |vertexs| && vertexs[i] == v;
        assert false;
      }
      n := n + 1;
    }
  }

  lemma {:induction false} RestsUpTo(log: seq<Edge>, f: Formula, s: State, vertexs: seq<Vertex>, n: nat)
    requires n <= |vertexs| && forall i | 0 <= i < n :: !Leaves(f, s, Adj(log, vertexs[i]), vertexs[i])
    ensures Round(log, f, s, vertexs, n) == s
  {
    hide Leaves;
    if n > 0 {
      RestsUpTo(log, f, s, vertexs, n - 1);
    }
  }

  // Once a round changes nothing, neither do the rounds after it.
  lemma {:induction false} RoundsRest(log: seq<Edge>, f: Formula, s: State, vertexs: seq<Vertex>, m: nat, n: nat)
    requires m <= n && Rounds(log, f, s, vertexs, m + 1) == Rounds(log, f, s, vertexs, m)
    ensures Rounds(log, f, s, vertexs, n) == Rounds(log, f, s, vertexs, m)
  {
    if m < n {
      RoundsRest(log, f, s, vertexs, m, n - 1);
      hide Round;
    }
  }

  // No vertex moves more often than the limit.
  lemma {:induction false} RoundLimit(log: seq<Edge>, f: Formula, s: State, vertexs: seq<Vertex>, n: nat, x: Vertex)
    requires n <= |vertexs| && TriesOf(s, x) <= MOVE_LIMIT
    ensures TriesOf(Round(log, f, s, vertexs, n), x) <= MOVE_LIMIT
  {
    if n > 0 {
      RoundLimit(log, f, s, vertexs, n - 1, x);
      TriesGrow(log, f, Round(log, f, s, vertexs, n - 1), vertexs[n - 1], x);
      hide Visited, Choice;
    }
  }

  lemma {:induction false} RoundsLimit(log: seq<Edge>, f: Formula, s: State, vertexs: seq<Vertex>, n: nat, x: Vertex)
    requires TriesOf(s, x) <= MOVE_LIMIT
    ensures TriesOf(Rounds(log, f, s, vertexs, n), x) <= MOVE_LIMIT
  {
    if n > 0 {
      RoundsLimit(log, f, s, vertexs, n - 1, x);
      RoundLimit(log, f, Rounds(log, f, s, vertexs, n - 1), vertexs, |vertexs|, x);
      hide Round, TriesOf;
    }
  }
}
