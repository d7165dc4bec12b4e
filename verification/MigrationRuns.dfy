// Runs of the migration protocol: any number of shards, rounds, blocks and messages, in
// any order. As long as no account is sent where old news of it is still queued, in every
// state a run reaches all copies of each account together with the payments on their way to
// it stand for one ledger, and the client's gate opens only when every account is at rest.
module MigrationRuns {
  import opened Ledger
  import Leader
  import LeaderLaws
  import opened Migration
  import PaymentLaws
  import opened MigrationInv
  import MigrationCommit
  import MigrationPools
  import MigrationSteps

  datatype Event =
    | Commit(k: int, b: Block)
    | Deliver(j: int, hs: seq<Hand>)
    | Tell(r: Report)
    | Want
    | NewMap(moves: map<Addr, int>)

  ghost predicate Enabled(s: Sys, e: Event) {
    match e
    case Commit(k, b) => MigrationCommit.CanCommit(s, k, b)
    case Deliver(j, hs) => HandsFit(s, j, hs)
    case Tell(r) => r in s.reports
    case Want => RoundOpen(s)
    case NewMap(moves) => |s.nodes| == |s.pools| && MapFits(s, moves)
  }

  ghost function Next(s: Sys, e: Event): Sys
    requires Enabled(s, e)
  {
    match e
    case Commit(k, b) => CommitStep(s, k, b)
    case Deliver(j, hs) => DeliverStep(s, j, hs)
    case Tell(r) => ReportStep(s, r)
    case Want => WantStep(s)
    case NewMap(moves) => MapStep(s, moves)
  }

  lemma NextKeepsInv(s: Sys, e: Event)
    requires Inv(s) && Enabled(s, e) && (e.NewMap? ==> Waits(s, e.moves))
    ensures Inv(Next(s, e))
  {
    hide Inv;
    match e
    case Commit(k, b) => MigrationPools.CommitKeepsInv(s, k, b);
    case Deliver(j, hs) => MigrationSteps.DeliverKeepsInv(s, j, hs);
    case Tell(r) => MigrationSteps.ReportKeepsInv(s, r);
    case Want => MigrationSteps.WantKeepsInv(s);
    case NewMap(moves) => MigrationSteps.MapKeepsInv(s, moves);
  }

  // Before anything happens: every shard knows every account and agrees on its home, where
  // the account holds what the ledger says; nothing is on its way.
  ghost predicate Genesis(s: Sys) {
    && NodesOk(s)
    && (forall a | a in s.phase :: s.phase[a].Idle? && 0 <= s.phase[a].home < |s.nodes|)
    && (forall a, k | a in s.phase && 0 <= k < |s.nodes| ::
          a in s.nodes[k].st && s.nodes[k].st[a].location == s.phase[a].home && a !in s.nodes[k].before)
    && (forall a | a in s.phase && a in s.ledger ::
          s.nodes[s.phase[a].home].st[a].balance == s.ledger[a])
    && (forall k | 0 <= k < |s.pools| :: s.pools[k] == Pools(multiset{}, multiset{}, multiset{}, multiset{}))
    && s.relays == multiset{} && s.hands == multiset{} && s.reports == multiset{}
    && s.unsettled == 0 && s.unarrived == 0 && s.unasked == 0 && !s.collecting
  }

  lemma GenesisInv(s: Sys)
    requires Genesis(s)
    ensures Inv(s)
  {
    assert UnsettledSet(s) == {} && UnarrivedSet(s) == {};
    assert CountersOk(s);
    QuietIsOk(s);
    hide CountersOk, NodesOk, Booked, Mig1sOk, Mig2sOk, NSsOk, HandsOk, AnnsOk, UnsettledSet, UnarrivedSet;
    forall a | a in s.phase && a in s.ledger ensures Booked(s, a) {
      GenesisBooks(s, a);
    }
  }

  lemma GenesisBooks(s: Sys, a: Addr)
    requires Genesis(s) && a in s.phase && a in s.ledger
    ensures Booked(s, a)
  {
    hide NodesOk;
    forall k | 0 <= k < |s.nodes| ensures PlaceOk(s.nodes[k], k, s.phase[a], a) {
    }
  }

  lemma QuietIsOk(s: Sys)
    requires forall a | a in s.phase :: s.phase[a].Idle?
    requires forall k | 0 <= k < |s.pools| :: s.pools[k] == Pools(multiset{}, multiset{}, multiset{}, multiset{})
    requires s.hands == multiset{}
    ensures Mig1sOk(s) && Mig2sOk(s) && NSsOk(s) && HandsOk(s) && AnnsOk(s)
  {
  }

  // The states a run goes through: each event was enabled when it happened.
  ghost predicate Run(s: Sys, es: seq<Event>, t: Sys)
    decreases |es|
  {
    if es == [] then t == s
    else Enabled(s, es[0]) && Run(Next(s, es[0]), es[1..], t)
  }

  // No map of the run sends an account where an announcement about it is still queued.
  ghost predicate Patient(s: Sys, es: seq<Event>)
    decreases |es|
  {
    es == [] ||
    ((es[0].NewMap? ==> Waits(s, es[0].moves)) && (Enabled(s, es[0]) ==> Patient(Next(s, es[0]), es[1..])))
  }

  // The one ledger after the blocks of a run: every fresh payment moves its value once.
  ghost predicate LedgerRuns(l: map<Addr, int>, es: seq<Event>, l': map<Addr, int>)
    decreases |es|
  {
    if es == [] then l' == l
    else if es[0].Commit? then
      Single(es[0].b.txs) && TxsKnown(l.Keys, es[0].b.txs) && LedgerRuns(Transfers(l, es[0].b.txs), es[1..], l')
    else LedgerRuns(l, es[1..], l')
  }

  lemma {:induction false} RunKeepsInv(s: Sys, es: seq<Event>, t: Sys)
    requires Inv(s) && Run(s, es, t) && Patient(s, es)
    ensures Inv(t) && LedgerRuns(s.ledger, es, t.ledger)
    decreases |es|
  {
    hide Inv, Enabled, Waits;
    if es != [] {
      NextKeepsInv(s, es[0]);
      RunKeepsInv(Next(s, es[0]), es[1..], t);
      NextLedger(s, es[0]);
    }
  }

  lemma NextLedger(s: Sys, e: Event)
    requires Enabled(s, e)
    ensures e.Commit? ==> Single(e.b.txs) && TxsKnown(s.ledger.Keys, e.b.txs)
    ensures Next(s, e).ledger == if e.Commit? then Transfers(s.ledger, e.b.txs) else s.ledger
  {
    hide Leader.CommitReady, BlockKnown, Leader.CommitOut, PoolsAfter, PhaseAfter, HandsOf, PaysOf, Single, TxsKnown;
    if e.Commit? {
      assert PaymentsFit(e.k, Arrived(e.k, s.nodes[e.k].st, e.b), s.relays, e.b.txs);
    }
  }

  // Single-ledger refinement. In every state of every run, each account lives exactly where
  // its phase says, and what its live copies amount to, with the late change and the
  // relayed payments still on their way, is its balance in the one ledger. The late change
  // is the one in the hand-over message or the TXns that waits.
  lemma RunsRefineLedger(s: Sys, es: seq<Event>, t: Sys, a: Addr)
    requires Genesis(s) && Run(s, es, t) && Patient(s, es) && a in s.ledger
    ensures LedgerRuns(s.ledger, es, t.ledger)
    ensures a in t.ledger && a in t.phase && |t.pools| == |t.nodes| && Placed(t.nodes, t.phase[a], a)
    ensures Effective(t.nodes, t.phase[a], a) + PaymentLaws.RelayTotal(t.relays, a) == t.ledger[a]
    ensures t.phase[a].Moved? ==> t.hands[Hand(a, t.phase[a].dest, t.phase[a].gain)] == 1
    ensures t.phase[a].Late? ==> t.pools[t.phase[a].dest].nss[NS(a, t.phase[a].gain)] == 1
  {
    hide Genesis, Run, Patient, LedgerRuns, AnnsOk, Mig1sOk, Mig2sOk, NSsOk, HandsOk, CountersOk;
    hide LeaderLaws.TableAgrees, PlaceOk;
    hide Effective, PaymentLaws.RelayTotal;
    GenesisInv(s);
    RunKeepsInv(s, es, t);
    LedgerKeys(s.ledger, es, t.ledger);
    assert Booked(t, a);
    hide NodesOk, AllBooked;
    GainWaits(t, a);
  }

  lemma GainWaits(s: Sys, a: Addr)
    requires NSsOk(s) && HandsOk(s) && a in s.phase && PhaseOk(s.phase[a], |s.pools|)
    ensures s.phase[a].Moved? ==> s.hands[Hand(a, s.phase[a].dest, s.phase[a].gain)] == 1
    ensures s.phase[a].Late? ==> s.pools[s.phase[a].dest].nss[NS(a, s.phase[a].gain)] == 1
  {
    if s.phase[a].Moved? {
      var h := Hand(a, s.phase[a].dest, s.phase[a].gain);
      assert s.hands[h] == if InPhase(s, h.addr, Moved(h.to, h.gain)) then 1 else 0;
    }
    if s.phase[a].Late? {
      var d, m := s.phase[a].dest, NS(a, s.phase[a].gain);
      assert s.pools[d].nss[m] == if InPhase(s, m.addr, Late(d, m.change)) then 1 else 0;
    }
  }

  lemma {:induction false} LedgerKeys(l: map<Addr, int>, es: seq<Event>, l': map<Addr, int>)
    requires LedgerRuns(l, es, l')
    ensures l'.Keys == l.Keys
    decreases |es|
  {
    if es != [] {
      LedgerKeys(if es[0].Commit? then Transfers(l, es[0].b.txs) else l, es[1..], l');
    }
  }

  // ----- the client's gate -----

  // Nothing of an account is on its way, except news of it for shards where it is not.
  ghost predicate AtRest(s: Sys, a: Addr) {
    && a in s.phase && s.phase[a].Idle?
    && (forall h | h in s.hands :: h.addr != a)
    && (forall k, m | 0 <= k < |s.pools| && m in s.pools[k].mig1s :: m.addr != a)
    && (forall k, m | 0 <= k < |s.pools| && m in s.pools[k].mig2s :: m.addr != a)
    && (forall k, m | 0 <= k < |s.pools| && m in s.pools[k].nss :: m.addr != a)
    && (forall k, m | 0 <= k < |s.pools| && m in s.pools[k].anns && m.addr == a :: k != s.phase[a].home)
  }

  // The counters never go below zero, and when both are zero every account is at rest, so a
  // round starts only when every earlier settlement and hand-off is done.
  lemma GateIsSafe(s: Sys, es: seq<Event>, t: Sys, a: Addr)
    requires Genesis(s) && Run(s, es, t) && Patient(s, es) && a in s.ledger
    ensures t.unsettled >= 0 && t.unarrived >= 0
    ensures RoundOpen(t) ==> !t.collecting && AtRest(t, a)
  {
    RunsRefineLedger(s, es, t, a);
    GenesisInv(s);
    RunKeepsInv(s, es, t);
    hide Genesis, Run, Patient, LedgerRuns, AllBooked, NodesOk, AnnsOk, Placed;
    hide Effective, Mig1sOk, Mig2sOk, NSsOk, HandsOk, AtRest;
    hide CountersOk;
    OpenIsIdle(t, a);
    if RoundOpen(t) {
      RestingHasNoMail(t, a);
    }
  }

  lemma OpenIsIdle(s: Sys, a: Addr)
    requires CountersOk(s) && a in s.phase
    ensures s.unsettled >= 0 && s.unarrived >= 0
    ensures RoundOpen(s) ==> !s.collecting && s.phase[a].Idle?
  {
    if RoundOpen(s) {
      assert a !in UnsettledSet(s) && a !in UnarrivedSet(s);
    }
  }

  lemma RestingHasNoMail(s: Sys, a: Addr)
    requires Mig1sOk(s) && Mig2sOk(s) && NSsOk(s) && HandsOk(s) && AnnsOk(s) && a in s.phase && s.phase[a].Idle?
    ensures AtRest(s, a)
  {
    forall k, m | 0 <= k < |s.pools| && m in s.pools[k].anns && m.addr == a ensures k != s.phase[a].home {
      assert AnnFitsAt(s, k, m);
    }
    forall h | h in s.hands ensures h.addr != a {
      assert s.hands[h] == if InPhase(s, h.addr, Moved(h.to, h.gain)) then 1 else 0;
    }
    forall k, m | 0 <= k < |s.pools| && m in s.pools[k].mig1s ensures m.addr != a {
      assert s.pools[k].mig1s[m] == if InPhase(s, m.addr, Asked(k, m.to)) then 1 else 0;
    }
    forall k, m | 0 <= k < |s.pools| && m in s.pools[k].mig2s ensures m.addr != a {
      assert s.pools[k].mig2s[m] == if Arriving(s, k, m) then 1 else 0;
    }
    forall k, m | 0 <= k < |s.pools| && m in s.pools[k].nss ensures m.addr != a {
      assert s.pools[k].nss[m] == if InPhase(s, m.addr, Late(k, m.change)) then 1 else 0;
    }
  }

  // Outside the collecting time, each counter is exactly the accounts still on their way,
  // those reported and not yet counted off, and those that were listed where they lived.
  lemma CountersAreExact(s: Sys, es: seq<Event>, t: Sys)
    requires Genesis(s) && Run(s, es, t) && Patient(s, es) && !t.collecting
    ensures t.unsettled == |set a | a in t.phase && Unsettled(t.phase[a])| + ReportTotal(t.reports, true) + t.unasked
    ensures t.unarrived == |set a | a in t.phase && Unarrived(t.phase[a])| + ReportTotal(t.reports, false) + t.unasked
  {
    GenesisInv(s);
    RunKeepsInv(s, es, t);
    hide Genesis, Run, Patient, LedgerRuns, AllBooked, NodesOk, AnnsOk, Mig1sOk, Mig2sOk, NSsOk, HandsOk;
    assert UnsettledSet(t) == set a | a in t.phase && Unsettled(t.phase[a]);
    assert UnarrivedSet(t) == set a | a in t.phase && Unarrived(t.phase[a]);
  }

  // Every shard can always process what the others sent it: a block whose messages come
  // from the pools and whose payments fit meets everything the commit demands.
  lemma RunsNeverStick(s: Sys, es: seq<Event>, t: Sys, k: int, b: Block)
    requires Genesis(s) && Run(s, es, t) && Patient(s, es) && BlockFits(t, k, b)
    ensures Enabled(t, Commit(k, b))
  {
    GenesisInv(s);
    RunKeepsInv(s, es, t);
    MigrationPools.BlockCanCommit(t, k, b);
  }

  // ----- nothing is created or lost -----

  ghost function Total(m: map<Addr, int>): int
    decreases |m|
  {
    if m == map[] then 0
    else
      var a :| a in m;
      m[a] + Total(m - {a})
  }

  lemma {:induction false} TotalDrop(m: map<Addr, int>, a: Addr)
    requires a in m
    ensures Total(m) == m[a] + Total(m - {a})
    decreases |m|
  {
    var x :| x in m && Total(m) == m[x] + Total(m - {x});
    if x != a {
      TotalDrop(m - {x}, a);
      TotalDrop(m - {a}, x);
      assert m - {x} - {a} == m - {a} - {x};
    }
  }

  lemma TotalUpdate(m: map<Addr, int>, a: Addr, v: int)
    requires a in m
    ensures Total(m[a := v]) == Total(m) - m[a] + v
  {
    TotalDrop(m, a);
    TotalDrop(m[a := v], a);
    assert m[a := v] - {a} == m - {a};
  }

  lemma {:induction false} TransfersTotal(l: map<Addr, int>, txs: seq<Tx>)
    requires Single(txs) && TxsKnown(l.Keys, txs)
    ensures Total(Transfers(l, txs)) == Total(l)
  {
    if txs != [] {
      PaymentLaws.TransfersStep(l, txs);
      hide *;
      var tx := txs[|txs| - 1];
      TransfersTotal(l, txs[..|txs| - 1]);
      if !tx.isRelay {
        OneTransfer(Transfers(l, txs[..|txs| - 1]), tx.sender, tx.recipients[0], tx.values[0]);
      }
    }
  }

  lemma OneTransfer(l: map<Addr, int>, a: Addr, b: Addr, v: int)
    requires a in l && b in l
    ensures var paid := l[a := l[a] - v]; Total(paid[b := paid[b] + v]) == Total(l)
  {
    hide Total;
    var paid := l[a := l[a] - v];
    TotalUpdate(l, a, l[a] - v);
    TotalUpdate(paid, b, paid[b] + v);
  }

  lemma {:induction false} LedgerTotal(l: map<Addr, int>, es: seq<Event>, l': map<Addr, int>)
    requires LedgerRuns(l, es, l')
    ensures Total(l') == Total(l)
    decreases |es|
  {
    if es != [] {
      if es[0].Commit? {
        TransfersTotal(l, es[0].b.txs);
      }
      LedgerTotal(if es[0].Commit? then Transfers(l, es[0].b.txs) else l, es[1..], l');
    }
  }

  // What an account is worth: its live copies, its late change and its relayed payments.
  ghost predicate Worth(s: Sys, w: map<Addr, int>) {
    && w.Keys == s.phase.Keys
    && forall a | a in s.phase :: Placed(s.nodes, s.phase[a], a) &&
         w[a] == Effective(s.nodes, s.phase[a], a) + PaymentLaws.RelayTotal(s.relays, a)
  }

  lemma WorthIsLedger(s: Sys, w: map<Addr, int>)
    requires NodesOk(s) && AllBooked(s) && Worth(s, w)
    ensures w == s.ledger
  {
    hide Placed, Effective, LeaderLaws.TableAgrees, PaymentLaws.RelayTotal;
    forall a | a in s.phase ensures w[a] == s.ledger[a] {
      assert Booked(s, a);
    }
  }

  // Over any run, through any number of migrations, the accounts of all shards together
  // are worth what they were worth at the start.
  lemma RunsConserve(s: Sys, es: seq<Event>, t: Sys, w: map<Addr, int>, w': map<Addr, int>)
    requires Genesis(s) && Run(s, es, t) && Patient(s, es) && Worth(s, w) && Worth(t, w')
    ensures Total(w') == Total(w)
  {
    hide Genesis, Run, Patient, LedgerRuns, NodesOk, AllBooked, Worth, CountersOk;
    hide AnnsOk, Mig1sOk, Mig2sOk, NSsOk, HandsOk, Total;
    GenesisInv(s);
    RunKeepsInv(s, es, t);
    LedgerTotal(s.ledger, es, t.ledger);
    WorthIsLedger(s, w);
    WorthIsLedger(t, w');
  }
}
