// No account is stranded on its way: whatever has happened so far, the messages that carry
// it on are there, and processing them brings it to rest at its destination.
module MigrationProgress {
  import opened Ledger
  import opened LedgerLaws
  import opened Leader
  import opened Migration
  import opened MigrationInv
  import MigrationCommit
  import opened MigrationPools
  import opened MigrationRuns

  // Where an account is going, and how many steps are still ahead of it.
  function Goal(p: Phase): int {
    if p.Idle? then p.home else p.dest
  }

  function Ahead(p: Phase): nat {
    match p
    case Idle(_) => 0
    case Late(_, _) => 1
    case Moved(_, _) => 2
    case Both(_, _, _) => 3
    case Leaving(_, _, _) => 4
    case Asked(_, _) => 5
  }

  // A shard that an account neither leaves nor goes to.
  predicate Third(p: Phase, j: int) {
    j != Goal(p) && (p.Asked? || p.Leaving? || p.Both? ==> j != p.home)
  }

  // One phase closer to the same destination.
  ghost predicate Closer(p: Phase, p': Phase) {
    && Ahead(p') < Ahead(p) && Goal(p') == Goal(p)
    && (p.Asked? ==> p'.Leaving?)
    && forall j :: Third(p, j) ==> Third(p', j)
  }

  // A block with one message, or none, of each kind.
  function Only(mig1s: seq<Mig1>, mig2s: seq<Mig2>, anns: seq<Ann>, nss: seq<NS>): Block {
    Block(mig2s, [], mig1s, anns, nss)
  }

  lemma OneIn<T>(m: T, pool: multiset<T>)
    requires m in pool
    ensures multiset([m]) <= pool
  {
  }

  lemma NoneIn<T>(pool: multiset<T>)
    ensures multiset([]) <= pool
  {
  }

  // A block without payments whose messages are pooled fits.
  lemma QuietBlockFits(s: Sys, k: int, b: Block)
    requires 0 <= k < |s.nodes| == |s.pools| && s.nodes[k].st.Keys == s.phase.Keys && b.txs == []
    requires multiset(b.mig1s) <= s.pools[k].mig1s && multiset(b.mig2s) <= s.pools[k].mig2s
    requires multiset(b.anns) <= s.pools[k].anns && multiset(b.nss) <= s.pools[k].nss
    requires (forall m | m in b.mig1s :: m.addr in s.phase) && (forall m | m in b.mig2s :: m.addr in s.phase)
    requires (forall m | m in b.anns :: m.addr in s.phase) && (forall m | m in b.nss :: m.addr in s.phase)
    ensures BlockFits(s, k, b)
  {
    assert PaysOf(b.txs, true) == [];
    NoneIn<Payment>(s.relays);
  }

  // A block that fits is an enabled event, and moves the accounts as PhaseFacts says.
  lemma BlockMoves(s: Sys, k: int, b: Block, a: Addr)
    requires Inv(s) && BlockFits(s, k, b) && a in s.phase
    ensures Enabled(s, Commit(k, b)) && MigrationCommit.CanCommit(s, k, b) && a in Next(s, Commit(k, b)).phase
    ensures PhaseFacts(s, k, b, OutOf(s, k, b), LeftOf(s, k, b), s.phase[a], Next(s, Commit(k, b)).phase[a], a)
  {
    hide Inv, BlockFits, PhaseFacts;
    BlockCanCommit(s, k, b);
    CommitPhase(s, k, b, Next(s, Commit(k, b)), a);
  }

  // The event that carries an account on.
  function Onward(p: Phase, a: Addr): Event
    requires !p.Idle?
  {
    match p
    case Asked(h, d) => Commit(h, Only([Mig1(a, d)], [], [], []))
    case Leaving(_, d, snap) => Commit(d, Only([], [Mig2(a, snap)], [], []))
    case Both(h, d, _) => Commit(h, Only([], [], [Ann(a, d)], []))
    case Moved(d, gain) => Deliver(d, [Hand(a, d, gain)])
    case Late(d, gain) => Commit(d, Only([], [], [], [NS(a, gain)]))
  }

  lemma InShards(s: Sys, a: Addr)
    requires NodesOk(s) && AllBooked(s) && a in s.phase
    ensures PhaseOk(s.phase[a], |s.nodes|)
  {
    assert Booked(s, a);
  }

  // Its message is waiting where it is needed.
  lemma AskedFits(s: Sys, a: Addr)
    requires Mig1sOk(s) && NodesOk(s) && a in s.phase && s.phase[a].Asked? && PhaseOk(s.phase[a], |s.nodes|)
    ensures BlockFits(s, s.phase[a].home, Only([Mig1(a, s.phase[a].dest)], [], [], []))
  {
    var h, m := s.phase[a].home, Mig1(a, s.phase[a].dest);
    assert s.pools[h].mig1s[m] == if InPhase(s, m.addr, Asked(h, m.to)) then 1 else 0;
    OneIn(m, s.pools[h].mig1s);
    hide BlockFits, NodesOk;
    QuietBlockFits(s, h, Only([m], [], [], []));
  }

  lemma LeavingFits(s: Sys, a: Addr)
    requires Mig2sOk(s) && NodesOk(s) && a in s.phase && s.phase[a].Leaving? && PhaseOk(s.phase[a], |s.nodes|)
    ensures BlockFits(s, s.phase[a].dest, Only([], [Mig2(a, s.phase[a].snap)], [], []))
  {
    var d, m := s.phase[a].dest, Mig2(a, s.phase[a].snap);
    assert s.pools[d].mig2s[m] == if Arriving(s, d, m) then 1 else 0;
    OneIn(m, s.pools[d].mig2s);
    hide BlockFits, NodesOk;
    QuietBlockFits(s, d, Only([], [m], [], []));
  }

  lemma BothFits(s: Sys, a: Addr)
    requires AnnsOk(s) && NodesOk(s) && a in s.phase && s.phase[a].Both? && PhaseOk(s.phase[a], |s.nodes|)
    ensures BlockFits(s, s.phase[a].home, Only([], [], [Ann(a, s.phase[a].dest)], []))
  {
    var h, m := s.phase[a].home, Ann(a, s.phase[a].dest);
    assert AwaitedAt(s, a);
    OneIn(m, s.pools[h].anns);
    hide BlockFits, NodesOk;
    QuietBlockFits(s, h, Only([], [], [m], []));
  }

  lemma MovedFits(s: Sys, a: Addr)
    requires HandsOk(s) && NodesOk(s) && a in s.phase && s.phase[a].Moved? && PhaseOk(s.phase[a], |s.nodes|)
    ensures HandsFit(s, s.phase[a].dest, [Hand(a, s.phase[a].dest, s.phase[a].gain)])
  {
    var h := Hand(a, s.phase[a].dest, s.phase[a].gain);
    assert s.hands[h] == if InPhase(s, h.addr, Moved(h.to, h.gain)) then 1 else 0;
    OneIn(h, s.hands);
  }

  lemma LateFits(s: Sys, a: Addr)
    requires NSsOk(s) && NodesOk(s) && a in s.phase && s.phase[a].Late? && PhaseOk(s.phase[a], |s.nodes|)
    ensures BlockFits(s, s.phase[a].dest, Only([], [], [], [NS(a, s.phase[a].gain)]))
  {
    var d, m := s.phase[a].dest, NS(a, s.phase[a].gain);
    assert s.pools[d].nss[m] == if InPhase(s, m.addr, Late(d, m.change)) then 1 else 0;
    OneIn(m, s.pools[d].nss);
    hide BlockFits, NodesOk;
    QuietBlockFits(s, d, Only([], [], [], [m]));
  }

  lemma OneMap(a: Addr, d: int, v: int)
    ensures Mig1Map([Mig1(a, d)]) == map[a := d] && Mig2Map([Mig2(a, v)]) == map[a := v]
    ensures AnnMap([Ann(a, d)]) == map[a := d]
  {
    assert [Mig1(a, d)][..0] == [] && [Mig2(a, v)][..0] == [] && [Ann(a, d)][..0] == [];
  }

  // The block carries the message that the phase of an account waits for.
  ghost predicate Carries(k: int, b: Block, p: Phase, a: Addr) {
    match p
    case Asked(h, d) => k == h && a in Mig1Map(b.mig1s) && Mig1Map(b.mig1s)[a] == d
    case Leaving(_, d, _) => k == d && a in Mig2Map(b.mig2s)
    case Both(h, d, _) => k == h && a in AnnMap(b.anns)
    case Late(_, _) => exists m :: m in b.nss && m.addr == a
    case _ => false
  }

  lemma FactsAdvance(s: Sys, k: int, b: Block, out: Out, left: map<Addr, int>, p: Phase, p': Phase, a: Addr)
    requires PhaseFacts(s, k, b, out, left, p, p', a) && Carries(k, b, p, a)
    ensures Closer(p, p')
  {
    hide Mig1Map, Mig2Map, AnnMap, GainOf, PhaseOk;
  }

  // The block of an account's message brings it one phase closer.
  lemma BlockAdvances(s: Sys, k: int, b: Block, a: Addr)
    requires Inv(s) && BlockFits(s, k, b) && a in s.phase && Carries(k, b, s.phase[a], a)
    ensures var e := Commit(k, b);
            && Enabled(s, e) && a in Next(s, e).phase
            && Closer(s.phase[a], Next(s, e).phase[a])
  {
    BlockMoves(s, k, b, a);
    hide Inv, BlockFits, Enabled, Next, OutOf, LeftOf, PhaseFacts, Carries, Closer;
    FactsAdvance(s, k, b, OutOf(s, k, b), LeftOf(s, k, b), s.phase[a], Next(s, Commit(k, b)).phase[a], a);
  }

  lemma HandAdvances(s: Sys, a: Addr, h: Hand)
    requires HandsFit(s, h.to, [h]) && h.addr == a && a in s.phase && s.phase[a] == Moved(h.to, h.gain)
    ensures var e := Deliver(h.to, [h]);
            && Enabled(s, e) && a in Next(s, e).phase
            && Closer(s.phase[a], Next(s, e).phase[a])
  {
    assert h in [h];
    hide HandsFit, Changes;
  }

  // Each account on its way has an enabled event that brings it one phase closer.
  lemma OnwardAdvances(s: Sys, a: Addr)
    requires Inv(s) && a in s.phase && !s.phase[a].Idle?
    ensures var e := Onward(s.phase[a], a);
            && Enabled(s, e) && a in Next(s, e).phase
            && Closer(s.phase[a], Next(s, e).phase[a])
  {
    hide NodesOk, AllBooked, Mig1sOk, Mig2sOk, NSsOk, HandsOk, AnnsOk, CountersOk, BlockFits, HandsFit;
    hide Mig1Map, Mig2Map, AnnMap, PhaseOk, Enabled, Next;
    InShards(s, a);
    match s.phase[a]
    case Asked(h, d) =>
      AskedFits(s, a);
      OneMap(a, d, 0);
      BlockAdvances(s, h, Only([Mig1(a, d)], [], [], []), a);
    case Leaving(_, d, snap) =>
      LeavingFits(s, a);
      OneMap(a, d, snap);
      BlockAdvances(s, d, Only([], [Mig2(a, snap)], [], []), a);
    case Both(h, d, _) =>
      BothFits(s, a);
      OneMap(a, d, 0);
      BlockAdvances(s, h, Only([], [], [Ann(a, d)], []), a);
    case Moved(d, gain) =>
      MovedFits(s, a);
      HandAdvances(s, a, Hand(a, d, gain));
    case Late(d, gain) =>
      LateFits(s, a);
      assert NS(a, gain) in [NS(a, gain)];
      BlockAdvances(s, d, Only([], [], [], [NS(a, gain)]), a);
  }

  // ----- what the event leaves alone -----

  // The block says nothing about an account.
  ghost predicate Silent(b: Block, x: Addr) {
    && x !in Mig1Map(b.mig1s) && x !in Mig2Map(b.mig2s) && x !in AnnMap(b.anns)
    && forall m | m in b.nss :: m.addr != x
  }

  lemma SilentStays(s: Sys, k: int, b: Block, out: Out, left: map<Addr, int>, p: Phase, p': Phase, x: Addr)
    requires PhaseFacts(s, k, b, out, left, p, p', x) && Silent(b, x)
    ensures p' == p
  {
    hide Mig1Map, Mig2Map, AnnMap, GainOf, PhaseOk;
  }

  lemma OnwardIsSilent(p: Phase, a: Addr, x: Addr)
    requires !p.Idle? && x != a
    ensures Onward(p, a).Commit? ==> Silent(Onward(p, a).b, x)
  {
    match p
    case Asked(_, d) => OneMap(a, d, 0);
    case Leaving(_, _, snap) => OneMap(a, 0, snap);
    case Both(_, d, _) => OneMap(a, d, 0);
    case _ =>
  }

  lemma PlainOnward(p: Phase, a: Addr)
    requires !p.Idle?
    ensures !Onward(p, a).Want? && !Onward(p, a).NewMap?
  {
  }

  // The other accounts stay in their phases.
  lemma OnwardSpares(s: Sys, a: Addr, x: Addr)
    requires Inv(s) && a in s.phase && x in s.phase && !s.phase[a].Idle? && x != a && Enabled(s, Onward(s.phase[a], a))
    ensures x in Next(s, Onward(s.phase[a], a)).phase && Next(s, Onward(s.phase[a], a)).phase[x] == s.phase[x]
  {
    var e := Onward(s.phase[a], a);
    if e.Commit? {
      OnwardIsSilent(s.phase[a], a, x);
      BlockMoves(s, e.k, e.b, x);
      hide Inv, Enabled, Next, OutOf, LeftOf, PhaseFacts, Silent, Onward, BlockFits;
      SilentStays(s, e.k, e.b, OutOf(s, e.k, e.b), LeftOf(s, e.k, e.b), s.phase[x], Next(s, e).phase[x], x);
    }
  }

  // News already queued at such a shard stays there, and news of the arrival joins it.
  lemma OnwardKeepsNews(s: Sys, a: Addr, j: int)
    requires a in s.phase && !s.phase[a].Idle? && Third(s.phase[a], j) && 0 <= j < |s.pools|
    requires Enabled(s, Onward(s.phase[a], a))
    ensures |Next(s, Onward(s.phase[a], a)).pools| == |s.pools|
    ensures s.pools[j].anns <= Next(s, Onward(s.phase[a], a)).pools[j].anns
    ensures s.phase[a].Leaving? ==> Ann(a, s.phase[a].dest) in Next(s, Onward(s.phase[a], a)).pools[j].anns
  {
    var e := Onward(s.phase[a], a);
    if e.Commit? {
      CommitKeepsNews(s, e.k, e.b, j);
      OnwardElsewhere(s.phase[a], a, j);
      if s.phase[a].Leaving? {
        OneNews(e.k, e.b.mig2s, a);
      }
      hide Enabled, Next, Announcements, Onward;
      More(s.pools[j].anns, multiset(Announcements(e.k, e.b.mig2s)));
    } else {
      DeliverKeepsNews(s, e.j, e.hs, j);
      hide Enabled, Next;
    }
  }

  lemma OnwardElsewhere(p: Phase, a: Addr, j: int)
    requires !p.Idle? && Third(p, j)
    ensures Onward(p, a).Commit? ==> Onward(p, a).k != j
    ensures p.Leaving? ==> Onward(p, a).Commit? && Onward(p, a).k == p.dest && Onward(p, a).b.mig2s == [Mig2(a, p.snap)]
    ensures Onward(p, a).Commit? || Onward(p, a).Deliver?
  {
  }

  lemma More<T>(ms: multiset<T>, come: multiset<T>)
    ensures ms <= ms + come
  {
  }

  lemma DeliverKeepsNews(s: Sys, i: int, hs: seq<Hand>, j: int)
    requires HandsFit(s, i, hs) && 0 <= j < |s.pools|
    ensures |DeliverStep(s, i, hs).pools| == |s.pools| && DeliverStep(s, i, hs).pools[j].anns == s.pools[j].anns
  {
    hide Changes;
  }

  lemma OneNews(k: int, ms: seq<Mig2>, a: Addr)
    requires |ms| > 0 && ms[0].addr == a
    ensures Ann(a, k) in multiset(Announcements(k, ms))
  {
    assert Announcements(k, ms)[0] == Ann(a, k);
  }

  lemma CommitKeepsNews(s: Sys, k: int, b: Block, j: int)
    requires MigrationCommit.CanCommit(s, k, b) && 0 <= j < |s.pools|
    ensures var s' := Next(s, Commit(k, b));
            && |s'.pools| == |s.pools|
            && s'.pools[j].anns == if j == k then s.pools[j].anns - multiset(b.anns)
                                   else s.pools[j].anns + multiset(Announcements(k, b.mig2s))
  {
    CommitParts(s, k, b, Next(s, Commit(k, b)));
    hide MigrationCommit.CanCommit, OutOf, LeftOf, Announcements, CommitStep;
  }

  // ----- runs without a new round -----

  predicate Plain(es: seq<Event>) {
    forall e | e in es :: !e.Want? && !e.NewMap?
  }

  lemma {:induction false} PlainRun(s: Sys, es: seq<Event>, t: Sys)
    requires Run(s, es, t) && Plain(es)
    ensures Patient(s, es) && (t.collecting, t.unasked, |t.pools|) == (s.collecting, s.unasked, |s.pools|)
    decreases |es|
  {
    if es != [] {
      assert es[0] in es;
      PlainStep(s, es[0]);
      hide Enabled, Next;
      PlainRun(Next(s, es[0]), es[1..], t);
    }
  }

  lemma PlainStep(s: Sys, e: Event)
    requires Enabled(s, e) && !e.Want? && !e.NewMap?
    ensures var s' := Next(s, e); (s'.collecting, s'.unasked, |s'.pools|) == (s.collecting, s.unasked, |s.pools|)
  {
    hide CommitReady, BlockKnown, CommitOut, PoolsAfter, PhaseAfter, HandsOf, PaysOf, Single, TxsKnown, Changes;
  }

  lemma {:induction false} RunsChain(s: Sys, es: seq<Event>, t: Sys, more: seq<Event>, u: Sys)
    requires Run(s, es, t) && Run(t, more, u)
    ensures Run(s, es + more, u)
    ensures Patient(s, es) && Patient(t, more) ==> Patient(s, es + more)
    decreases |es|
  {
    hide Enabled, Next, Waits;
    if es == [] {
      assert es + more == more;
    } else {
      assert (es + more)[0] == es[0] && (es + more)[1..] == es[1..] + more;
      RunsChain(Next(s, es[0]), es[1..], t, more, u);
    }
  }

  // From every state a run reaches, any account can be brought to rest at its destination,
  // the others staying where they are.
  lemma {:induction false} CanArrive(s: Sys, a: Addr) returns (es: seq<Event>, t: Sys)
    requires Inv(s) && a in s.phase
    ensures Run(s, es, t) && Plain(es) && |es| <= Ahead(s.phase[a]) <= 5
    ensures Inv(t) && a in t.phase && t.phase[a] == Idle(Goal(s.phase[a])) && |t.pools| == |s.pools|
    ensures forall x | x in s.phase && x != a :: x in t.phase && t.phase[x] == s.phase[x]
    ensures forall j | 0 <= j < |s.pools| && Third(s.phase[a], j) ::
              && s.pools[j].anns <= t.pools[j].anns
              && (s.phase[a].Asked? || s.phase[a].Leaving? ==> Ann(a, s.phase[a].dest) in t.pools[j].anns)
    decreases Ahead(s.phase[a])
  {
    hide Inv, Enabled, Next, Onward, Waits;
    if s.phase[a].Idle? {
      es, t := [], s;
    } else {
      var e := Onward(s.phase[a], a);
      OnwardAdvances(s, a);
      PlainOnward(s.phase[a], a);
      NextKeepsInv(s, e);
      PlainStep(s, e);
      var rest;
      rest, t := CanArrive(Next(s, e), a);
      es := [e] + rest;
      assert es[0] == e && es[1..] == rest;
      forall x | x in s.phase && x != a ensures x in t.phase && t.phase[x] == s.phase[x] {
        OnwardSpares(s, a, x);
      }
      forall j | 0 <= j < |s.pools| && Third(s.phase[a], j)
        ensures s.pools[j].anns <= t.pools[j].anns
        ensures s.phase[a].Asked? || s.phase[a].Leaving? ==> Ann(a, s.phase[a].dest) in t.pools[j].anns
      {
        OnwardKeepsNews(s, a, j);
      }
    }
  }

  lemma RunsCanFinish(s: Sys, done: seq<Event>, t: Sys, a: Addr) returns (es: seq<Event>, u: Sys)
    requires Genesis(s) && Run(s, done, t) && Patient(s, done) && a in s.ledger
    ensures a in t.phase && Run(t, es, u) && a in u.phase && u.phase[a] == Idle(Goal(t.phase[a])) && |es| <= 5
  {
    RunsRefineLedger(s, done, t, a);
    GenesisInv(s);
    RunKeepsInv(s, done, t);
    es, u := CanArrive(t, a);
  }
}
