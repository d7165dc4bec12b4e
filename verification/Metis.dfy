// algorithm/partition_METIS.go: the writer of the METIS input counts the weight entries of
// the graph and stops the program when they are odd.
module Metis {
  import opened Graphs

  // The pairs of vertices of which the first lists the second.
  ghost function Pairs(links: seq<Link>): set<(Vertex, Vertex)> {
    set l | l in links :: (l.at, l.other)
  }

  ghost function Looped(log: seq<Edge>): set<Vertex> {
    set e | e in log && e.u == e.v :: e.u
  }

  lemma PairsStep(links: seq<Link>, l: Link)
    ensures Pairs(links + [l]) == Pairs(links) + {(l.at, l.other)}
  {
  }

  // In a graph of two-way edges, weights are symmetric.
  lemma {:induction false} WeightsAreSymmetric(log: seq<Edge>, v: Vertex, w: Vertex)
    requires TwoWay(log)
    ensures Times(Links(log), v, w) == Times(Links(log), w, v)
    ensures (v, w) in Pairs(Links(log)) <==> (w, v) in Pairs(Links(log))
  {
    if log != [] {
      var init, e := log[..|log| - 1], log[|log| - 1];
      assert e in log && TwoWay(init);
      WeightsAreSymmetric(init, v, w);
      var some := Links(init) + [Link(e.u, e.v)];
      assert Links(log) == some + [Link(e.v, e.u)];
      TimesStep(Links(init), Link(e.u, e.v), v, w);
      TimesStep(some, Link(e.v, e.u), v, w);
      TimesStep(Links(init), Link(e.u, e.v), w, v);
      TimesStep(some, Link(e.v, e.u), w, v);
      PairsStep(Links(init), Link(e.u, e.v));
      PairsStep(some, Link(e.v, e.u));
      hide Times, Links, Pairs;
    }
  }

  lemma LoopedStep(log: seq<Edge>, e: Edge)
    ensures Looped(log + [e]) == if e.u == e.v then Looped(log) + {e.u} else Looped(log)
  {
    assert forall x :: x in log + [e] <==> x in log || x == e;
  }

  // So every entry has a twin, but for those of self-loops.
  ghost predicate Twins(pairs: set<(Vertex, Vertex)>, loops: set<Vertex>) {
    |pairs| % 2 == |loops| % 2 && forall v :: (v, v) in pairs <==> v in loops
  }

  lemma TwinsStep(pairs: set<(Vertex, Vertex)>, loops: set<Vertex>, u: Vertex, v: Vertex)
    requires Twins(pairs, loops) && ((u, v) in pairs <==> (v, u) in pairs)
    ensures Twins(pairs + {(u, v)} + {(v, u)}, if u == v then loops + {u} else loops)
  {
    if u == v {
      assert pairs + {(u, v)} + {(v, u)} == pairs + {(u, u)};
    } else if (u, v) in pairs {
      assert pairs + {(u, v)} + {(v, u)} == pairs;
    }
  }

  lemma {:induction false} PairsParity(log: seq<Edge>)
    requires TwoWay(log)
    ensures Twins(Pairs(Links(log)), Looped(log))
  {
    if log != [] {
      var init, e := log[..|log| - 1], log[|log| - 1];
      assert e in log && TwoWay(init) && init + [e] == log;
      hide Twins, Pairs, Looped;
      PairsParity(init);
      WeightsAreSymmetric(init, e.u, e.v);
      LinksStep(init, e);
      PairsStep(Links(init), Link(e.u, e.v));
      PairsStep(Links(init) + [Link(e.u, e.v)], Link(e.v, e.u));
      LoopedStep(init, e);
      TwinsStep(Pairs(Links(init)), Looped(init), e.u, e.v);
    }
  }

  // ----- the count as the code makes it -----

  ghost function PairsFrom(links: seq<Link>, from: set<Vertex>): set<(Vertex, Vertex)> {
    set l | l in links && l.at in from :: (l.at, l.other)
  }

  // One row of weights holds the pairs of one vertex.
  lemma RowCount(g: Graph, i: nat)
    requires g.Valid() && i < |g.vertexs|
    ensures |g.edgeWeight[i]| == |PairsFrom(g.links, {g.vertexs[i]})|
  {
    var v, row := g.vertexs[i], g.edgeWeight[i];
    var pairs := PairsFrom(g.links, {v});
    forall j | j in row ensures 0 <= j < |g.vertexs| && (v, g.vertexs[j]) in pairs {
      assert WeightOk(row, g.links, v, g.vertexs, j);
      TimesIn(g.links, v, g.vertexs[j]);
    }
    forall w | (v, w) in pairs ensures w in g.vertexSet && g.vertexSet[w] in row {
      var j := g.vertexSet[w];
      assert Link(v, w) in g.links;
      assert WeightOk(row, g.links, v, g.vertexs, j);
      TimesIn(g.links, v, w);
    }
    assert forall q | q in pairs :: q.0 == v;
    Matched(row.Keys, pairs, g.vertexs, v);
  }

  lemma {:induction false} Matched(row: set<int>, pairs: set<(Vertex, Vertex)>, vertexs: seq<Vertex>, v: Vertex)
    requires forall i, j | 0 <= i < j < |vertexs| :: vertexs[i] != vertexs[j]
    requires forall j | j in row :: 0 <= j < |vertexs| && (v, vertexs[j]) in pairs
    requires forall q | q in pairs :: q.0 == v && exists j :: j in row && 0 <= j < |vertexs| && vertexs[j] == q.1
    ensures |row| == |pairs|
    decreases |pairs|
  {
    if pairs != {} {
      var q :| q in pairs;
      var j :| j in row && 0 <= j < |vertexs| && vertexs[j] == q.1;
      forall x | x in pairs - {q} ensures exists i :: i in row - {j} && 0 <= i < |vertexs| && vertexs[i] == x.1 {
        var i :| i in row && 0 <= i < |vertexs| && vertexs[i] == x.1;
        assert i != j;
      }
      Matched(row - {j}, pairs - {q}, vertexs, v);
    } else {
      assert forall j | j in row :: false;
    }
  }

  lemma FromStep(links: seq<Link>, from: set<Vertex>, v: Vertex)
    requires v !in from
    ensures |PairsFrom(links, from + {v})| == |PairsFrom(links, from)| + |PairsFrom(links, {v})|
  {
    assert PairsFrom(links, from + {v}) == PairsFrom(links, from) + PairsFrom(links, {v});
    assert PairsFrom(links, from) !! PairsFrom(links, {v});
  }

  // The first half of Write_to_txt: ok is false where the code panics.
  method CountEdges(g: Graph) returns (ok: bool, edgeNum: int)
    requires g.Valid() && TwoWay(g.log)
    ensures ok <==> |Looped(g.log)| % 2 == 0
    ensures ok ==> 2 * edgeNum == |Pairs(g.links)|
  {
    hide Listed, WeightOk, Links;
    edgeNum := 0;
    ghost var from, links := {}, g.links;
    assert PairsFrom(links, {}) == {};
    for i := 0 to |g.edgeWeight|
      invariant from == set j | 0 <= j < i :: g.vertexs[j]
      invariant edgeNum == |PairsFrom(links, from)|
    {
      var v := g.vertexs[i];
      RowCount(g, i);
      assert v !in from;
      FromStep(links, from, v);
      edgeNum := edgeNum + |g.edgeWeight[i]|;
      from := from + {v};
    }
    AllFrom(g, from);
    PairsParity(g.log);
    hide PairsFrom, Pairs, Looped;
    ok := edgeNum % 2 == 0;
    edgeNum := edgeNum / 2;
  }

  lemma AllFrom(g: Graph, from: set<Vertex>)
    requires g.Valid() && from == set j | 0 <= j < |g.vertexs| :: g.vertexs[j]
    ensures PairsFrom(g.links, from) == Pairs(g.links)
  {
    forall l | l in g.links ensures l.at in from {
      assert g.vertexs[g.vertexSet[l.at]] in from;
    }
  }

  // Without self-loops, as the client builds the graph, the writer never stops.
  lemma NoLoopsNoPanic(log: seq<Edge>)
    requires TwoWay(log) && forall e | e in log :: e.u != e.v
    ensures |Looped(log)| % 2 == 0 && |Pairs(Links(log))| % 2 == 0
  {
    PairsParity(log);
    assert Looped(log) == {};
  }
}
