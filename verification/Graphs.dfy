// algorithm/graph.go: the multigraph of transactions between accounts. The log of the
// edges added so far is the reference; vertex numbers, adjacency lists and weights are
// what the code keeps.
module Graphs {
  import Addresses

  type Vertex = Addresses.Addr

  // oneWay: only the second vertex lists the first.
  datatype Edge = Edge(u: Vertex, v: Vertex, oneWay: bool)

  ghost predicate TwoWay(log: seq<Edge>) {
    forall e | e in log :: !e.oneWay
  }

  // One entry of an adjacency list.
  datatype Link = Link(at: Vertex, other: Vertex)

  function LinksOf(e: Edge): seq<Link> {
    (if e.oneWay then [] else [Link(e.u, e.v)]) + [Link(e.v, e.u)]
  }

  function Links(log: seq<Edge>): seq<Link> {
    if log == [] then [] else Links(log[..|log| - 1]) + LinksOf(log[|log| - 1])
  }

  lemma LinksStep(log: seq<Edge>, e: Edge)
    ensures Links(log + [e]) == Links(log) + LinksOf(e)
    ensures Links(log + [e]) == (if e.oneWay then Links(log) else Links(log) + [Link(e.u, e.v)]) + [Link(e.v, e.u)]
  {
    assert (log + [e])[..|log|] == log;
  }

  // The neighbours of a vertex, in the order the links came.
  function Out(links: seq<Link>, v: Vertex): seq<Vertex> {
    if links == [] then []
    else
      var l := links[|links| - 1];
      Out(links[..|links| - 1], v) + if l.at == v then [l.other] else []
  }

  function Adj(log: seq<Edge>, v: Vertex): seq<Vertex> {
    Out(Links(log), v)
  }

  lemma OutStep(links: seq<Link>, l: Link, v: Vertex)
    ensures Out(links + [l], v) == Out(links, v) + if l.at == v then [l.other] else []
  {
    assert (links + [l])[..|links|] == links;
  }

  lemma AdjStep(log: seq<Edge>, v: Vertex)
    requires log != []
    ensures var e := log[|log| - 1];
            Adj(log, v) == Adj(log[..|log| - 1], v)
              + (if !e.oneWay && e.u == v then [e.v] else []) + (if e.v == v then [e.u] else [])
  {
    var e, before := log[|log| - 1], Links(log[..|log| - 1]);
    if e.oneWay {
      assert Links(log) == before + [Link(e.v, e.u)];
      OutStep(before, Link(e.v, e.u), v);
    } else {
      assert Links(log) == before + [Link(e.u, e.v)] + [Link(e.v, e.u)];
      OutStep(before, Link(e.u, e.v), v);
      OutStep(before + [Link(e.u, e.v)], Link(e.v, e.u), v);
    }
  }

  lemma {:induction false} OutIn(links: seq<Link>, v: Vertex, w: Vertex)
    ensures w in Out(links, v) <==> Link(v, w) in links
  {
    if links != [] {
      var init, l := links[..|links| - 1], links[|links| - 1];
      OutIn(init, v, w);
      assert Link(v, w) in links <==> Link(v, w) in init || Link(v, w) == l;
    }
  }

  // ----- what the fields of a graph say about the links -----

  // Vertex numbers are a bijection between the vertices and 0..n-1.
  ghost predicate Numbered(vertexSet: map<Vertex, int>, vertexs: seq<Vertex>, links: seq<Link>) {
    && (forall v | v in vertexSet :: 0 <= vertexSet[v] < |vertexs| && vertexs[vertexSet[v]] == v)
    && (forall i | 0 <= i < |vertexs| :: vertexs[i] in vertexSet && vertexSet[vertexs[i]] == i)
    && (forall l | l in links :: l.at in vertexSet && l.other in vertexSet)
  }

  function ListOf(edgeSet: map<Vertex, seq<Vertex>>, v: Vertex): seq<Vertex> {
    if v in edgeSet then edgeSet[v] else []
  }

  ghost predicate Listed(vertexSet: map<Vertex, int>, edgeSet: map<Vertex, seq<Vertex>>, links: seq<Link>) {
    edgeSet.Keys <= vertexSet.Keys && forall v :: ListOf(edgeSet, v) == Out(links, v)
  }

  // How often one vertex lists another.
  ghost function Times(links: seq<Link>, v: Vertex, w: Vertex): nat {
    multiset(Out(links, v))[w]
  }

  ghost predicate WeightOk(row: map<int, int>, links: seq<Link>, v: Vertex, vertexs: seq<Vertex>, j: int) {
    var n := if 0 <= j < |vertexs| then Times(links, v, vertexs[j]) else 0;
    (j in row <==> n > 0) && (j in row ==> row[j] == n)
  }

  // The weight between two vertices is how often one lists the other.
  ghost predicate Weighed(vertexs: seq<Vertex>, edgeWeight: seq<map<int, int>>, links: seq<Link>) {
    && |edgeWeight| == |vertexs|
    && forall i, j | 0 <= i < |vertexs| :: WeightOk(edgeWeight[i], links, vertexs[i], vertexs, j)
  }

  lemma TimesStep(links: seq<Link>, l: Link, v: Vertex, w: Vertex)
    ensures Times(links + [l], v, w) == Times(links, v, w) + if l == Link(v, w) then 1 else 0
  {
    OutStep(links, l, v);
  }

  lemma TimesIn(links: seq<Link>, v: Vertex, w: Vertex)
    ensures Times(links, v, w) > 0 <==> Link(v, w) in links
  {
    OutIn(links, v, w);
    assert w in multiset(Out(links, v)) <==> w in Out(links, v);
  }

  lemma NewVertexWeighed(vertexSet: map<Vertex, int>, vertexs: seq<Vertex>, edgeWeight: seq<map<int, int>>,
                         links: seq<Link>, v: Vertex)
    requires Numbered(vertexSet, vertexs, links) && Weighed(vertexs, edgeWeight, links) && v !in vertexSet
    ensures Weighed(vertexs + [v], edgeWeight + [map[]], links)
  {
    var vs, ws := vertexs + [v], edgeWeight + [map[]];
    forall i, j | 0 <= i < |vs| ensures WeightOk(ws[i], links, vs[i], vs, j) {
      if 0 <= j < |vs| {
        TimesIn(links, vs[i], vs[j]);
      }
      if i < |vertexs| {
        assert WeightOk(edgeWeight[i], links, vertexs[i], vertexs, j);
      }
    }
  }

  lemma NewLinkWeighed(vertexSet: map<Vertex, int>, vertexs: seq<Vertex>, edgeWeight: seq<map<int, int>>,
                       links: seq<Link>, u: Vertex, v: Vertex)
    requires Numbered(vertexSet, vertexs, links) && Weighed(vertexs, edgeWeight, links) && u in vertexSet
           && v in vertexSet
    ensures var i, j := vertexSet[u], vertexSet[v];
            Weighed(vertexs, edgeWeight[i := edgeWeight[i][j := WeightIn(edgeWeight[i], j) + 1]], links + [Link(u, v)])
  {
    var a, b := vertexSet[u], vertexSet[v];
    var ws := edgeWeight[a := edgeWeight[a][b := WeightIn(edgeWeight[a], b) + 1]];
    forall i, j | 0 <= i < |vertexs| ensures WeightOk(ws[i], links + [Link(u, v)], vertexs[i], vertexs, j) {
      assert WeightOk(edgeWeight[i], links, vertexs[i], vertexs, j);
      if 0 <= j < |vertexs| {
        TimesStep(links, Link(u, v), vertexs[i], vertexs[j]);
      }
      hide Times, Weighed;
    }
  }

  lemma NewLinkListed(vertexSet: map<Vertex, int>, edgeSet: map<Vertex, seq<Vertex>>, links: seq<Link>, u: Vertex,
                      v: Vertex)
    requires Listed(vertexSet, edgeSet, links) && u in vertexSet
    ensures Listed(vertexSet, edgeSet[u := ListOf(edgeSet, u) + [v]], links + [Link(u, v)])
  {
    forall w ensures ListOf(edgeSet[u := ListOf(edgeSet, u) + [v]], w) == Out(links + [Link(u, v)], w) {
      OutStep(links, Link(u, v), w);
    }
  }

  lemma NewLinkNumbered(vertexSet: map<Vertex, int>, vertexs: seq<Vertex>, links: seq<Link>, l: Link)
    requires Numbered(vertexSet, vertexs, links) && l.at in vertexSet && l.other in vertexSet
    ensures Numbered(vertexSet, vertexs, links + [l])
    ensures 0 <= vertexSet[l.at] < |vertexs|
  {
  }

  function WeightIn(row: map<int, int>, j: int): int {
    if j in row then row[j] else 0
  }

  // The vertices once both ends of an edge are known.
  function WithEnds(vertexs: seq<Vertex>, known: set<Vertex>, u: Vertex, v: Vertex): seq<Vertex> {
    vertexs + (if u in known then [] else [u]) + (if v in known || v == u then [] else [v])
  }

  lemma {:induction false} LinksIn(log: seq<Edge>, e: Edge)
    requires e in log && !e.oneWay
    ensures Link(e.u, e.v) in Links(log) && Link(e.v, e.u) in Links(log)
  {
    if log[|log| - 1] != e {
      assert e in log[..|log| - 1];
      LinksIn(log[..|log| - 1], e);
    }
  }

  class Graph {
    var vertexSet: map<Vertex, int>
    var vertexs: seq<Vertex>
    var edgeSet: map<Vertex, seq<Vertex>>
    var edgeWeight: seq<map<int, int>>
    ghost var links: seq<Link>
    ghost var log: seq<Edge>

    ghost predicate Sound()
      reads `vertexSet, `vertexs, `edgeSet, `edgeWeight, `links
    {
      Numbered(vertexSet, vertexs, links) && Listed(vertexSet, edgeSet, links) && Weighed(vertexs, edgeWeight, links)
    }

    ghost predicate Valid()
      reads this
    {
      Sound() && links == Links(log)
    }

    constructor ()
      ensures Valid() && log == [] && vertexs == [] && vertexSet == map[]
    {
      vertexSet, vertexs, edgeSet, edgeWeight, links, log := map[], [], map[], [], [], [];
    }

    method AddVertex(v: Vertex)
      requires Sound()
      modifies this`vertexSet, this`vertexs, this`edgeWeight
      ensures Sound()
      ensures vertexs == if v in old(vertexSet) then old(vertexs) else old(vertexs) + [v]
      ensures vertexSet.Keys == old(vertexSet).Keys + {v}
    {
      if v !in vertexSet {
        NewVertexWeighed(vertexSet, vertexs, edgeWeight, links, v);
        vertexSet := vertexSet[v := |vertexs|];
        vertexs := vertexs + [v];
        edgeWeight := edgeWeight + [map[]];
        hide Weighed, Out, ListOf;
      }
    }

    method AddEnds(u: Vertex, v: Vertex)
      requires Sound()
      modifies this`vertexSet, this`vertexs, this`edgeWeight
      ensures Sound() && u in vertexSet && v in vertexSet
      ensures vertexSet.Keys == old(vertexSet).Keys + {u, v}
      ensures vertexs == WithEnds(old(vertexs), old(vertexSet).Keys, u, v)
    {
      hide Sound;
      if u !in vertexSet {
        AddVertex(u);
      }
      if v !in vertexSet {
        AddVertex(v);
      }
    }

    method AddEdge(u: Vertex, v: Vertex, uni: int)
      requires Valid()
      modifies this
      ensures Valid() && log == old(log) + [Edge(u, v, uni != 0)]
      ensures vertexSet.Keys == old(vertexSet).Keys + {u, v}
      ensures vertexs == WithEnds(old(vertexs), old(vertexSet).Keys, u, v)
      ensures forall x :: ListOf(edgeSet, x) == ListOf(old(edgeSet), x)
                + (if x == u && uni == 0 then [v] else []) + (if x == v then [u] else [])
    {
      hide Sound, WithEnds, ListOf;
      AddEnds(u, v);
      if uni == 0 {
        PointTo(u, v);
      }
      PointTo(v, u);
      LinksStep(log, Edge(u, v, uni != 0));
      log := log + [Edge(u, v, uni != 0)];
    }

    // Both ends of a two-way edge list each other.
    lemma Lists(e: Edge)
      requires Valid() && e in log && TwoWay(log)
      ensures e.u in edgeSet && e.v in edgeSet && e.u in vertexSet && e.v in vertexSet
    {
      LinksIn(log, e);
      OutIn(links, e.u, e.v);
      OutIn(links, e.v, e.u);
      assert ListOf(edgeSet, e.u) != [] && ListOf(edgeSet, e.v) != [];
    }

    // One direction of an edge.
    method PointTo(u: Vertex, v: Vertex)
      requires Sound() && u in vertexSet && v in vertexSet
      modifies this`edgeSet, this`edgeWeight, this`links
      ensures Sound() && links == old(links) + [Link(u, v)]
      ensures forall x :: ListOf(edgeSet, x) == ListOf(old(edgeSet), x) + if x == u then [v] else []
    {
      assert |edgeWeight| == |vertexs|;
      hide Numbered, Listed, Weighed, WeightIn, ListOf;
      NewLinkNumbered(vertexSet, vertexs, links, Link(u, v));
      NewLinkWeighed(vertexSet, vertexs, edgeWeight, links, u, v);
      NewLinkListed(vertexSet, edgeSet, links, u, v);
      edgeSet := edgeSet[u := ListOf(edgeSet, u) + [v]];
      var i, j := vertexSet[u], vertexSet[v];
      edgeWeight := edgeWeight[i := edgeWeight[i][j := WeightIn(edgeWeight[i], j) + 1]];
      links := links + [Link(u, v)];
    }
  }
}
