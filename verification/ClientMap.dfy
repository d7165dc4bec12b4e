// pbft/client.go: the client builds the transaction graph, lets an algorithm divide it, and
// sends out the accounts whose shard in its table changes.
module ClientMap {
  import opened Graphs
  import Addresses
  import Clpa
  import ClpaMoves
  import Cuts
  import Lbf

  // The shard of an account in the client's table; Go reads a missing entry as 0.
  function InTable(table: map<Vertex, int>, v: Vertex): int {
    if v in table then table[v] else 0
  }

  ghost predicate Filtered(table: map<Vertex, int>, addrs: seq<Vertex>, res: map<Vertex, int>,
                           newAddrs: seq<Vertex>, newShards: map<Vertex, int>)
  {
    && (forall i, j | 0 <= i < j < |newAddrs| :: newAddrs[i] != newAddrs[j])
    && (forall v :: v in newAddrs <==> v in newShards)
    && (forall v :: v in newShards <==> v in addrs && v in res && InTable(table, v) != res[v])
    && (forall v | v in newShards :: v in res && newShards[v] == res[v])
  }

  method FilterMoves(table: map<Vertex, int>, addrs: seq<Vertex>, res: map<Vertex, int>)
    returns (newAddrs: seq<Vertex>, newShards: map<Vertex, int>)
    requires forall v | v in addrs :: v in res
    requires forall i, j | 0 <= i < j < |addrs| :: addrs[i] != addrs[j]
    ensures Filtered(table, addrs, res, newAddrs, newShards)
  {
    newAddrs, newShards := [], map[];
    for i := 0 to |addrs|
      invariant Filtered(table, addrs[..i], res, newAddrs, newShards)
    {
      var acc := addrs[i];
      assert addrs[..i + 1] == addrs[..i] + [acc];
      assert acc !in addrs[..i];
      if InTable(table, acc) != res[acc] {
        newShards := newShards[acc := res[acc]];
        newAddrs := newAddrs + [acc];
      }
    }
    assert addrs[..|addrs|] == addrs;
  }

  // The accounts that the partition puts elsewhere than they were, each once, with their
  // new shard.
  ghost predicate Moves(was: Vertex -> int, p: Cuts.Partition, newAddrs: seq<Vertex>, newShards: map<Vertex, int>) {
    && (forall i, j | 0 <= i < j < |newAddrs| :: newAddrs[i] != newAddrs[j])
    && (forall v :: v in newAddrs <==> v in p && p[v] != was(v))
    && (forall v :: v in newShards <==> v in newAddrs)
    && (forall v | v in newShards && v in p :: newShards[v] == p[v])
  }

  // When every vertex starts where the table lists it, the client keeps exactly the accounts
  // that end up in another shard than they started in.
  lemma FilterKeepsMoved(table: map<Vertex, int>, was: Vertex -> int, start: Cuts.Partition, p: Cuts.Partition,
                         addrs: seq<Vertex>, res: map<Vertex, int>, newAddrs: seq<Vertex>, newShards: map<Vertex, int>)
    requires Clpa.Decided(start, p, addrs, res) && Filtered(table, addrs, res, newAddrs, newShards)
    requires Clpa.StartsAsListed(start, table) && forall v | v in start :: start[v] == was(v)
    ensures Moves(was, p, newAddrs, newShards)
  {
  }

  // LBF lists the changed accounts itself; the filter keeps them all.
  lemma FilterKeepsChanged(table: map<Vertex, int>, was: Vertex -> int, p: Cuts.Partition,
                           addrs: seq<Vertex>, res: map<Vertex, int>, newAddrs: seq<Vertex>, newShards: map<Vertex, int>)
    requires Lbf.Changes(was, p, addrs, res) && Filtered(table, addrs, res, newAddrs, newShards)
    requires forall v | v in p :: v in table && table[v] == was(v)
    ensures Moves(was, p, newAddrs, newShards)
    ensures forall v :: v in newAddrs <==> v in addrs
  {
  }

  // The accounts that pay or are paid by others.
  ghost predicate Pays(pays: seq<(Vertex, Vertex)>, v: Vertex) {
    exists pay :: pay in pays && pay.0 != pay.1 && (v == pay.0 || v == pay.1)
  }

  lemma PaysStep(pays: seq<(Vertex, Vertex)>, i: nat, v: Vertex)
    requires i < |pays|
    ensures Pays(pays[..i + 1], v) <==>
              Pays(pays[..i], v) || (pays[i].0 != pays[i].1 && (v == pays[i].0 || v == pays[i].1))
  {
    assert pays[..i + 1] == pays[..i] + [pays[i]];
    assert pays[i] in pays[..i + 1];
  }

  lemma NoPays(v: Vertex)
    ensures !Pays([], v)
  {
  }

  lemma DecidedLists(start: Cuts.Partition, p: Cuts.Partition, addrs: seq<Vertex>, res: map<Vertex, int>)
    requires Clpa.Decided(start, p, addrs, res)
    ensures forall v | v in addrs :: v in res
    ensures forall i, j | 0 <= i < j < |addrs| :: addrs[i] != addrs[j]
    ensures p.Keys == start.Keys
  {
  }

  // Each pending payment between two accounts becomes an edge.
  method AddPays(state: Clpa.CLPAState, pays: seq<(Vertex, Vertex)>)
    requires state.Valid() && state.Homes() && state.partitionMap == map[]
    modifies state, state.accounts, state.netGraph
    ensures state.Valid() && Clpa.StartsAsListed(state.partitionMap, state.accounts.table)
    ensures forall v :: v in state.partitionMap <==> Pays(pays, v)
    ensures forall v :: state.accounts.Of(v) == old(state.accounts.Of(v))
  {
    hide Pays, Clpa.WithHomes, Clpa.CLPAState.Valid, Addresses.Answer;
    forall v ensures !Pays([], v) {
      NoPays(v);
    }
    assert pays[..0] == [];
    for i := 0 to |pays|
      invariant state.Valid() && state.Homes()
      invariant Clpa.StartsAsListed(state.partitionMap, state.accounts.table)
      invariant forall v :: state.accounts.Of(v) == old(state.accounts.Of(v))
      invariant forall v :: v in state.partitionMap <==> Pays(pays[..i], v)
    {
      forall v ensures Pays(pays[..i + 1], v) <==>
          Pays(pays[..i], v) || (pays[i].0 != pays[i].1 && (v == pays[i].0 || v == pays[i].1))
      {
        PaysStep(pays, i, v);
      }
      if pays[i].0 != pays[i].1 {
        state.AddEdge(pays[i].0, pays[i].1);
      }
    }
    assert pays[..|pays|] == pays;
  }

  lemma StartsAsAnswered(start: Cuts.Partition, table: map<Vertex, int>, before: map<Vertex, int>,
                         default: Vertex -> int)
    requires Clpa.StartsAsListed(start, table)
    requires forall v :: Addresses.Answer(table, default, v) == Addresses.Answer(before, default, v)
    ensures forall v | v in start :: start[v] == Addresses.Answers(before, default)(v)
  {
    forall v | v in start ensures start[v] == Addresses.Answers(before, default)(v) {
      assert Addresses.Answer(table, default, v) == table[v];
    }
  }

  // One division by CLPA, from the pending payments to the accounts sent out: exactly those
  // that end up in another shard than the one the client's table gave, or would have given,
  // before. The table answers as before.
  method CLPAMap(accounts: Addresses.AddressTable, pays: seq<(Vertex, Vertex)>, formula: ClpaMoves.Formula,
                 mIter: nat, sn: nat)
    returns (newAddrs: seq<Vertex>, newShards: map<Vertex, int>, p: Cuts.Partition)
    requires forall v :: 0 <= accounts.Of(v) < sn
    modifies accounts
    ensures forall v :: v in p <==> Pays(pays, v)
    ensures forall v :: accounts.Of(v) == old(accounts.Of(v))
    ensures Moves(Addresses.Answers(old(accounts.table), accounts.default), p, newAddrs, newShards)
  {
    hide Pays, Clpa.Decided, Filtered, Moves, Clpa.CLPAState.Totals, Clpa.Inhabited;
    var graph := new Graph();
    var state := new Clpa.CLPAState(graph, accounts, formula, mIter, sn);
    hide Clpa.CLPAState.Valid, Graph.Valid;
    AddPays(state, pays);
    ghost var start, table, before := state.partitionMap, accounts.table, old(accounts.table);
    forall v ensures Addresses.Answer(table, accounts.default, v) == Addresses.Answer(before, accounts.default, v) {
      assert accounts.Of(v) == old(accounts.Of(v));
    }
    StartsAsAnswered(start, table, before, accounts.default);
    hide Clpa.StartsAsListed, Addresses.Answer, Addresses.Answers;
    var addrs, res := state.CLPA_Partition();
    DecidedLists(start, state.partitionMap, addrs, res);
    newAddrs, newShards := FilterMoves(accounts.table, addrs, res);
    p := state.partitionMap;
    FilterKeepsMoved(table, Addresses.Answers(before, accounts.default), start, p, addrs, res, newAddrs, newShards);
  }

  // The same for LBF, on any graph.
  method LBFMap(state: Lbf.LBFState) returns (newAddrs: seq<Vertex>, newShards: map<Vertex, int>)
    requires state.netGraph.Valid() && state.shardNum > 0
    modifies state, state.netGraph, state.accounts
    ensures state.partitionMap.Keys == state.netGraph.vertexSet.Keys
    ensures Moves(Addresses.Answers(old(state.accounts.table), state.accounts.default), state.partitionMap,
                  newAddrs, newShards)
  {
    hide Moves, Lbf.Balanced, Graph.Valid;
    ghost var was := Addresses.Answers(state.accounts.table, state.accounts.default);
    var addrs, res := state.LBF_Partition();
    newAddrs, newShards := FilterMoves(state.accounts.table, addrs, res);
    AnswersListed(state, was);
    hide Filtered, Lbf.Changes, Lbf.LBFState.Answers;
    FilterKeepsChanged(state.accounts.table, was, state.partitionMap, addrs, res, newAddrs, newShards);
  }

  lemma AnswersListed(state: Lbf.LBFState, was: Vertex -> int)
    requires state.Answers(was)
    ensures forall v | v in state.partitionMap :: v in state.accounts.table && state.accounts.table[v] == was(v)
  {
    forall v | v in state.partitionMap ensures state.accounts.table[v] == was(v) {
      assert state.accounts.Of(v) == was(v);
    }
  }
}
