// When the client's gate opens again: exactly when no map has listed an account with the
// shard where it lived already.
module MigrationGate {
  import Ledger
  import Leader
  import opened Migration
  import opened MigrationInv
  import MigrationSteps
  import opened MigrationRuns
  import opened MigrationProgress

  ghost function Travelling(s: Sys): set<Ledger.Addr> {
    set a | a in s.phase && !s.phase[a].Idle?
  }

  // All accounts can be brought to rest, one after the other.
  lemma {:induction false} AllCanArrive(s: Sys) returns (es: seq<Event>, t: Sys)
    requires Inv(s)
    ensures Run(s, es, t) && Plain(es) && Inv(t) && Travelling(t) == {}
    decreases |Travelling(s)|
  {
    hide Inv, Run, Plain;
    if Travelling(s) == {} {
      es, t := RunsStay(s);
    } else {
      var a :| a in Travelling(s);
      var es1, s1 := CanArrive(s, a);
      KeysStay(s, es1, s1);
      assert Travelling(s1) == Travelling(s) - {a};
      var es2;
      es2, t := AllCanArrive(s1);
      RunsChain(s, es1, s1, es2, t);
      es := es1 + es2;
      PlainChain(es1, es2);
    }
  }

  lemma RunsStay(s: Sys) returns (es: seq<Event>, t: Sys)
    ensures t == s && Run(s, es, t) && Plain(es) && es == []
  {
    es, t := [], s;
  }

  lemma PlainChain(es: seq<Event>, more: seq<Event>)
    requires Plain(es) && Plain(more)
    ensures Plain(es + more)
  {
  }

  lemma {:induction false} KeysStay(s: Sys, es: seq<Event>, t: Sys)
    requires Run(s, es, t)
    ensures t.phase.Keys == s.phase.Keys
    decreases |es|
  {
    if es != [] {
      KeysStep(s, es[0]);
      hide Enabled, Next;
      KeysStay(Next(s, es[0]), es[1..], t);
    }
  }

  lemma KeysStep(s: Sys, e: Event)
    requires Enabled(s, e)
    ensures Next(s, e).phase.Keys == s.phase.Keys
  {
    hide Leader.CommitReady, BlockFits, Leader.CommitOut, PoolsAfter, PhaseAfter, HandsOf, PaysOf, Single;
    hide Ledger.TxsKnown, Changes;
  }

  // The client can take all reports into account.
  lemma {:induction false} TellAll(s: Sys) returns (es: seq<Event>, t: Sys)
    requires Inv(s)
    ensures Run(s, es, t) && Plain(es) && Inv(t) && t.reports == multiset{}
    ensures t.phase == s.phase && t.pools == s.pools && t.nodes == s.nodes
    decreases |s.reports|
  {
    hide Inv;
    if s.reports == multiset{} {
      es, t := [], s;
    } else {
      var r :| r in s.reports;
      MigrationSteps.ReportKeepsInv(s, r);
      var more;
      more, t := TellAll(ReportStep(s, r));
      es := [Tell(r)] + more;
      assert es[0] == Tell(r) && es[1..] == more;
    }
  }

  lemma QuietIsOpen(s: Sys)
    requires CountersOk(s) && !s.collecting && Travelling(s) == {} && s.reports == multiset{} && s.unasked == 0
    ensures RoundOpen(s)
  {
    forall a ensures a !in UnsettledSet(s) && a !in UnarrivedSet(s) {
      assert a !in Travelling(s);
    }
    assert UnsettledSet(s) == {} && UnarrivedSet(s) == {};
  }

  lemma CanOpen(s: Sys) returns (es: seq<Event>, t: Sys)
    requires Inv(s) && !s.collecting && s.unasked == 0
    ensures Run(s, es, t) && Plain(es) && Inv(t) && RoundOpen(t) && Travelling(t) == {}
  {
    hide Inv, Run, Plain, RoundOpen;
    var es1, s1 := AllCanArrive(s);
    var es2, s2 := TellAll(s1);
    RunsChain(s, es1, s1, es2, s2);
    PlainChain(es1, es2);
    es, t := es1 + es2, s2;
    PlainRun(s, es, t);
    assert Travelling(t) == Travelling(s1);
    assert CountersOk(t) by { InvParts(t); }
    QuietIsOpen(t);
  }

  lemma InvParts(s: Sys)
    requires Inv(s)
    ensures CountersOk(s)
  {
  }

  // As long as an account stays uncounted, the gate is shut, so no round starts.
  lemma {:induction false} StaysShut(s: Sys, es: seq<Event>, t: Sys)
    requires Inv(s) && s.unasked > 0 && Run(s, es, t)
    ensures !RoundOpen(t)
    decreases |es|
  {
    hide Inv, Enabled, Next, Travelling;
    assert CountersOk(s) by { InvParts(s); }
    IsShut(s);
    if es != [] {
      ShutStep(s, es[0]);
      NextKeepsInv(s, es[0]);
      PlainStep(s, es[0]);
      StaysShut(Next(s, es[0]), es[1..], t);
    }
  }

  lemma IsShut(s: Sys)
    requires CountersOk(s) && s.unasked > 0
    ensures !s.collecting && !RoundOpen(s)
  {
    hide UnsettledSet, UnarrivedSet, ReportTotal;
  }

  lemma ShutStep(s: Sys, e: Event)
    requires Enabled(s, e) && !s.collecting && !RoundOpen(s)
    ensures !e.Want? && !e.NewMap?
  {
    hide HandsFit;
  }

  // Wherever a run has got to, the gate can open again if and only if no account was listed
  // where it already lived; the shards would never ask for such an account, and the client
  // would go on counting it.
  lemma GateCanOpen(s: Sys, done: seq<Event>, t: Sys)
    requires Genesis(s) && Run(s, done, t) && Patient(s, done) && !t.collecting
    ensures (exists es, u :: Run(t, es, u) && RoundOpen(u)) <==> t.unasked == 0
  {
    GenesisInv(s);
    RunKeepsInv(s, done, t);
    hide Genesis, Run, Patient, Inv, RoundOpen;
    if t.unasked == 0 {
      var es, u := CanOpen(t);
    } else {
      forall es, u | Run(t, es, u) ensures !RoundOpen(u) {
        StaysShut(t, es, u);
      }
    }
  }

  // A new map leaves the gate able to open again exactly when every account it lists goes
  // to another shard.
  lemma MapLetsGateOpen(s: Sys, done: seq<Event>, t: Sys, moves: map<Ledger.Addr, int>)
    requires Genesis(s) && Run(s, done, t) && Patient(s, done)
    requires MapFits(t, moves) && Waits(t, moves) && |t.nodes| == |t.pools|
    ensures (exists es, u :: Run(MapStep(t, moves), es, u) && RoundOpen(u)) <==>
              forall a | a in moves :: t.phase[a] != Idle(moves[a])
  {
    var u := MapStep(t, moves);
    OneStep(t, NewMap(moves));
    RunsChain(s, done, t, [NewMap(moves)], u);
    GateCanOpen(s, done + [NewMap(moves)], u);
    hide Genesis, Run, Patient, RoundOpen;
    if u.unasked == 0 {
      forall a | a in moves ensures t.phase[a] != Idle(moves[a]) {
        assert a !in Staying(t, moves);
      }
    } else {
      var a :| a in Staying(t, moves);
    }
  }

  lemma OneStep(s: Sys, e: Event)
    requires Enabled(s, e)
    ensures Run(s, [e], Next(s, e))
    ensures (e.NewMap? ==> Waits(s, e.moves)) ==> Patient(s, [e])
  {
    hide Enabled, Next, Waits;
    assert [e][0] == e && [e][1..] == [];
    assert Run(Next(s, e), [], Next(s, e));
  }
}
