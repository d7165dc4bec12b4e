// A committed block keeps the messages on their way, and the client's counters, in step
// with the phases of the accounts.
module MigrationPools {
  import opened Ledger
  import opened LedgerLaws
  import opened Leader
  import LeaderLaws
  import opened Migration
  import PaymentLaws
  import opened MigrationInv
  import opened MigrationCommit
  import Sums

  // The phases an account can go through when shard k commits a block.
  ghost predicate PhaseStep(k: int, p: Phase, p': Phase) {
    || p' == p
    || (p.Asked? && p'.Leaving? && p.home == k == p'.home && p'.dest == p.dest)
    || (p.Leaving? && p.dest == k && p' == Both(p.home, k, p.snap))
    || (p.Both? && p.home == k && p'.Moved? && p'.dest == p.dest)
    || (p.Late? && p.dest == k && p' == Idle(k))
  }

  // What a commit does to the phase of an account, and why.
  ghost predicate PhaseFacts(s: Sys, k: int, b: Block, out: Out, left: map<Addr, int>, p: Phase, p': Phase, a: Addr) {
    && PhaseStep(k, p, p') && PhaseOk(p, |s.nodes|)
    && (p.Asked? && p'.Leaving? <==> a in Mig1Map(b.mig1s))
    && (p.Leaving? && p'.Both? <==> a in Mig2Map(b.mig2s))
    && (p.Both? && p'.Moved? <==> a in out.gone)
    && (p.Late? && p'.Idle? <==> exists m :: m in b.nss && m.addr == a)
    && (a in out.gone <==> a in AnnMap(b.anns) && p.Both? && p.home == k)
    && (a in out.gone ==> p' == Moved(out.gone[a], GainOf(out.nss, a, out.gone[a])))
    && (a in Mig1Map(b.mig1s) ==> a in left && p' == Leaving(k, Mig1Map(b.mig1s)[a], left[a]))
  }

  ghost predicate Parts(s: Sys, k: int, b: Block, s': Sys, out: Out, left: map<Addr, int>) {
    && 0 <= k < |s.nodes| == |s.pools| == |s'.pools| == |s'.nodes|
    && (forall j | 0 <= j < |s.pools| :: s'.pools[j] == PoolsAfter(s, k, b, out, j))
    && s'.hands == s.hands + multiset(HandsOf(out))
    && s'.reports == s.reports + multiset{Settled(|b.nss|), Settled(out.same)}
    && s'.ledger.Keys == s.ledger.Keys && s'.phase.Keys == s.phase.Keys
    && (s'.unsettled, s'.unarrived, s'.collecting, s'.unasked) == (s.unsettled, s.unarrived, s.collecting, s.unasked)
    && (forall m | m in b.mig1s :: m.addr in left)
    && out.mig2s == Departures(left, b.mig1s) && out.anns == Announcements(k, b.mig2s)
    && multiset(b.mig1s) <= s.pools[k].mig1s && multiset(b.mig2s) <= s.pools[k].mig2s
    && multiset(b.anns) <= s.pools[k].anns && multiset(b.nss) <= s.pools[k].nss
  }

  ghost function OutOf(s: Sys, k: int, b: Block): Out
    requires CanCommit(s, k, b)
  {
    CommitOut(k, s.nodes[k], b)
  }

  ghost function LeftOf(s: Sys, k: int, b: Block): map<Addr, int>
    requires CanCommit(s, k, b)
  {
    BlockOut(k, s.nodes[k].st, b)
  }

  lemma CommitParts(s: Sys, k: int, b: Block, s': Sys)
    requires IsCommit(s, k, b, s')
    ensures Parts(s, k, b, s', OutOf(s, k, b), LeftOf(s, k, b))
  {
    hide CommitNode, PhaseAfter, HandsOf, PoolsAfter, PaysOf, Swept;
    hide RelayList, CommitList, Recorded, CollectGains, PaymentsFit;
    hide ApplyBlock, PaymentsFit, Single, TxsKnown, Departures, Announcements, Paid;
  }

  lemma CommitPhase(s: Sys, k: int, b: Block, s': Sys, a: Addr)
    requires Inv(s) && IsCommit(s, k, b, s') && a in s.phase
    ensures a in s'.phase && PhaseFacts(s, k, b, OutOf(s, k, b), LeftOf(s, k, b), s.phase[a], s'.phase[a], a)
  {
    hide CommitNode, CommitOut, Transfers, PaysOf, PaymentLaws.RelayTotal, Single, TxsKnown, PaymentsFit, Mig1Map;
    hide AnnMap, Mig2Map, Swept, BlockKnown, Delta, ArrivedAt, GainOf, BlockOut, LeaderLaws.TableAgrees;
    hide Mig1sOk, Mig2sOk, AnnsOk, NSsOk, HandsOk, CountersOk;
    var n, p := s.nodes[k], s.phase[a];
    assert Booked(s, a) && a in n.st;
    BlockKindOk(s, k, b, a);
    CommitMoves(k, n, b, p, a);
    MoveReasons(k, n, b, p, a);
    MemoryAfter(k, n, b, a);
    BlockAt(k, n.st, b, a);
    hide Inv, CommitReady, BlockFits;
  }

  // Everything the message lemmas need of a commit, account by account.
  ghost predicate Facts(s: Sys, k: int, b: Block, s': Sys, out: Out, left: map<Addr, int>) {
    && Parts(s, k, b, s', out, left)
    && (forall a | a in s.phase :: a in s'.phase && PhaseFacts(s, k, b, out, left, s.phase[a], s'.phase[a], a))
    && (forall a | a in out.gone :: a in s.phase)
  }

  lemma CommitFacts(s: Sys, k: int, b: Block, s': Sys)
    requires Inv(s) && IsCommit(s, k, b, s')
    ensures Facts(s, k, b, s', OutOf(s, k, b), LeftOf(s, k, b))
  {
    CommitParts(s, k, b, s');
    forall a | a in s.phase
      ensures a in s'.phase && PhaseFacts(s, k, b, OutOf(s, k, b), LeftOf(s, k, b), s.phase[a], s'.phase[a], a)
    {
      CommitPhase(s, k, b, s', a);
    }
    forall a | a in OutOf(s, k, b).gone ensures a in s.phase {
      GoneKnown(s, k, b, a);
    }
  }

  lemma GoneKnown(s: Sys, k: int, b: Block, a: Addr)
    requires Inv(s) && CanCommit(s, k, b)
    ensures a in OutOf(s, k, b).gone ==> a in s.phase
  {
    hide ApplyBlock, CollectGains, RelayList, CommitList, Recorded, PaymentsFit, HandleAnns, AnnMap;
    GoneIsBoth(s, k, b, a);
  }

  // The facts that concern one account.
  lemma FactsAt(s: Sys, k: int, b: Block, s': Sys, out: Out, left: map<Addr, int>, a: Addr)
    requires Facts(s, k, b, s', out, left)
    ensures 0 <= k < |s.pools| == |s'.pools|
    ensures a in s.phase <==> a in s'.phase
    ensures a in s.phase ==> PhaseFacts(s, k, b, out, left, s.phase[a], s'.phase[a], a)
  {
    hide PhaseFacts, Departures, Announcements, PoolsAfter, HandsOf;
  }

  // What is taken from a collection of messages, and what comes in.
  ghost predicate Flow<T(!new)>(was: multiset<T>, now: multiset<T>, taken: multiset<T>, come: multiset<T>) {
    forall m :: was[m] + come[m] == now[m] + taken[m]
  }

  lemma FlowOf<T(!new)>(was: multiset<T>, taken: multiset<T>, come: multiset<T>)
    requires taken <= was
    ensures Flow(was, was - taken + come, taken, come)
  {
  }

  // What becomes of the messages waiting in a pool, in the committing shard and elsewhere.
  ghost predicate PoolMoves(p: Pools, p': Pools, here: bool, b: Block, anns: seq<Ann>, come: seq<Mig2>) {
    && Flow(p.mig1s, p'.mig1s, if here then multiset(b.mig1s) else multiset{}, multiset{})
    && Flow(p.mig2s, p'.mig2s, if here then multiset(b.mig2s) else multiset{}, multiset(come))
    && Flow(p.nss, p'.nss, if here then multiset(b.nss) else multiset{}, multiset{})
    && Flow(p.anns, p'.anns, if here then multiset(b.anns) else multiset{}, if here then multiset{} else multiset(anns))
  }

  lemma PoolAt(s: Sys, k: int, b: Block, s': Sys, out: Out, left: map<Addr, int>, j: int)
    requires 0 <= k < |s.pools| == |s'.pools| && 0 <= j < |s'.pools|
    requires Facts(s, k, b, s', out, left)
    ensures PoolMoves(s.pools[j], s'.pools[j], j == k, b, out.anns, For(out.mig2s, j))
    ensures out.anns == Announcements(k, b.mig2s)
    ensures out.mig2s == Departures(left, b.mig1s) && forall m | m in b.mig1s :: m.addr in left
  {
    hide PhaseFacts, Departures, Announcements, HandsOf, For;
    assert s'.pools[j] == PoolsAfter(s, k, b, out, j);
    Takes(s, k, b, s', out, left);
    hide Facts;
    PoolMoved(s, k, b, out, j);
  }

  lemma PoolMoved(s: Sys, k: int, b: Block, out: Out, j: int)
    requires 0 <= k < |s.pools| && 0 <= j < |s.pools|
    requires multiset(b.mig1s) <= s.pools[k].mig1s && multiset(b.mig2s) <= s.pools[k].mig2s
    requires multiset(b.anns) <= s.pools[k].anns && multiset(b.nss) <= s.pools[k].nss
    ensures PoolMoves(s.pools[j], PoolsAfter(s, k, b, out, j), j == k, b, out.anns, For(out.mig2s, j))
  {
    hide For, Flow;
    var p := s.pools[j];
    FlowOf(p.mig1s, if j == k then multiset(b.mig1s) else multiset{}, multiset{});
    FlowOf(p.mig2s, if j == k then multiset(b.mig2s) else multiset{}, multiset(For(out.mig2s, j)));
    FlowOf(p.anns, if j == k then multiset(b.anns) else multiset{}, if j == k then multiset{} else multiset(out.anns));
    FlowOf(p.nss, if j == k then multiset(b.nss) else multiset{}, multiset{});
    Unmoved(p.mig1s);
    Unmoved(p.nss);
    Unmoved(p.mig1s - multiset(b.mig1s));
    Unmoved(p.nss - multiset(b.nss));
    Unmoved(p.anns);
    Unmoved(p.anns - multiset(b.anns));
    Unmoved(p.mig2s);
  }

  lemma Unmoved<T>(ms: multiset<T>)
    ensures ms - multiset{} + multiset{} == ms == ms + multiset{} == ms - multiset{}
  {
  }

  // A block takes a message at most as often as the pool holds it.
  lemma Taken<T>(ms: seq<T>, pool: multiset<T>, m: T)
    requires multiset(ms) <= pool && pool[m] <= 1
    ensures multiset(ms)[m] == if m in ms then 1 else 0
    ensures m in ms ==> pool[m] == 1
  {
    assert m in ms <==> m in multiset(ms);
  }

  lemma Takes(s: Sys, k: int, b: Block, s': Sys, out: Out, left: map<Addr, int>)
    requires Facts(s, k, b, s', out, left)
    ensures 0 <= k < |s.pools|
    ensures multiset(b.mig1s) <= s.pools[k].mig1s && multiset(b.mig2s) <= s.pools[k].mig2s
    ensures multiset(b.anns) <= s.pools[k].anns && multiset(b.nss) <= s.pools[k].nss
  {
  }

  // ----- departures, changes and hand-over messages -----

  // A request is in a block exactly when its account leaves with the block.
  lemma RequestTaken(s: Sys, k: int, b: Block, s': Sys, out: Out, left: map<Addr, int>, m: Mig1)
    requires Mig1sOk(s) && Facts(s, k, b, s', out, left)
    ensures multiset(b.mig1s)[m] == if m in b.mig1s then 1 else 0
    ensures m in b.mig1s ==> InPhase(s, m.addr, Asked(k, m.to)) && m.addr in Mig1Map(b.mig1s)
    ensures m.addr in Mig1Map(b.mig1s) && InPhase(s, m.addr, Asked(k, m.to)) ==> m in b.mig1s
  {
    Takes(s, k, b, s', out, left);
    hide Facts, Mig1Map;
    assert s.pools[k].mig1s[m] == if InPhase(s, m.addr, Asked(k, m.to)) then 1 else 0;
    Taken(b.mig1s, s.pools[k].mig1s, m);
    Mig1In(b.mig1s, m.addr);
    if m.addr in Mig1Map(b.mig1s) {
      var x := Mig1(m.addr, Mig1Map(b.mig1s)[m.addr]);
      assert s.pools[k].mig1s[x] == if InPhase(s, x.addr, Asked(k, x.to)) then 1 else 0;
      Taken(b.mig1s, s.pools[k].mig1s, x);
    }
  }

  lemma CommitMig1s(s: Sys, k: int, b: Block, s': Sys, out: Out, left: map<Addr, int>, j: int, m: Mig1)
    requires Mig1sOk(s) && Facts(s, k, b, s', out, left) && 0 <= j < |s'.pools|
    ensures s'.pools[j].mig1s[m] == if InPhase(s', m.addr, Asked(j, m.to)) then 1 else 0
  {
    hide Facts, Mig1Map, Mig2Map, AnnMap, GainOf, Announcements, Departures, For;
    FactsAt(s, k, b, s', out, left, m.addr);
    PoolAt(s, k, b, s', out, left, j);
    RequestTaken(s, k, b, s', out, left, m);
    assert s.pools[j].mig1s[m] == if InPhase(s, m.addr, Asked(j, m.to)) then 1 else 0;
    hide Mig1sOk;
  }

  lemma ChangeTaken(s: Sys, k: int, b: Block, s': Sys, out: Out, left: map<Addr, int>, m: NS)
    requires NSsOk(s) && Facts(s, k, b, s', out, left)
    ensures multiset(b.nss)[m] == if m in b.nss then 1 else 0
    ensures m in b.nss ==> InPhase(s, m.addr, Late(k, m.change))
    ensures (exists x :: x in b.nss && x.addr == m.addr) && InPhase(s, m.addr, Late(k, m.change)) ==> m in b.nss
  {
    Takes(s, k, b, s', out, left);
    hide Facts;
    assert s.pools[k].nss[m] == if InPhase(s, m.addr, Late(k, m.change)) then 1 else 0;
    Taken(b.nss, s.pools[k].nss, m);
    if x :| x in b.nss && x.addr == m.addr {
      assert s.pools[k].nss[x] == if InPhase(s, x.addr, Late(k, x.change)) then 1 else 0;
      Taken(b.nss, s.pools[k].nss, x);
    }
  }

  lemma CommitNSs(s: Sys, k: int, b: Block, s': Sys, out: Out, left: map<Addr, int>, j: int, m: NS)
    requires NSsOk(s) && Facts(s, k, b, s', out, left) && 0 <= j < |s'.pools|
    ensures s'.pools[j].nss[m] == if InPhase(s', m.addr, Late(j, m.change)) then 1 else 0
  {
    hide Facts, Mig1Map, Mig2Map, AnnMap, GainOf, Announcements, Departures, For;
    FactsAt(s, k, b, s', out, left, m.addr);
    PoolAt(s, k, b, s', out, left, j);
    ChangeTaken(s, k, b, s', out, left, m);
    assert s.pools[j].nss[m] == if InPhase(s, m.addr, Late(j, m.change)) then 1 else 0;
    hide NSsOk;
  }

  lemma CommitHands(s: Sys, k: int, b: Block, s': Sys, out: Out, left: map<Addr, int>, h: Hand)
    requires HandsOk(s) && Facts(s, k, b, s', out, left)
    ensures s'.hands[h] == if InPhase(s', h.addr, Moved(h.to, h.gain)) then 1 else 0
  {
    hide Mig1Map, Mig2Map, AnnMap, GainOf, Announcements, Departures, For;
    assert s.hands[h] == if InPhase(s, h.addr, Moved(h.to, h.gain)) then 1 else 0;
    assert multiset(HandsOf(out))[h] == if h in HandsOf(out) then 1 else 0;
  }

  // ----- arrivals -----

  lemma {:induction false} ForCount(out: map<Addr, int>, ms: seq<Mig1>, j: int, m: Mig2)
    requires forall x | x in ms :: x.addr in out
    ensures multiset(For(Departures(out, ms), j))[m] ==
            if m.addr in out && out[m.addr] == m.value then multiset(ms)[Mig1(m.addr, j)] else 0
  {
    hide *;
    if ms == [] {
      ForNone(out, j);
    } else {
      ForStep(out, ms, j);
      ForCount(out, ms[..|ms| - 1], j, m);
      Sums.CountStep(ms, Mig1(m.addr, j));
      if ms[|ms| - 1].to == j {
        Sums.CountOne(For(Departures(out, ms[..|ms| - 1]), j), Mig2(ms[|ms| - 1].addr, out[ms[|ms| - 1].addr]), m);
      }
    }
  }

  lemma ForNone(out: map<Addr, int>, j: int)
    ensures For(Departures(out, []), j) == []
  {
  }

  lemma ForStep(out: map<Addr, int>, ms: seq<Mig1>, j: int)
    requires ms != [] && forall x | x in ms :: x.addr in out
    ensures var init, x := ms[..|ms| - 1], ms[|ms| - 1];
            && x.addr in out && (forall y | y in init :: y.addr in out)
            && For(Departures(out, ms), j) ==
                 if x.to == j then For(Departures(out, init), j) + [Mig2(x.addr, out[x.addr])]
                 else For(Departures(out, init), j)
  {
    assert ms[|ms| - 1] in ms;
    assert Departures(out, ms)[..|ms| - 1] == Departures(out, ms[..|ms| - 1]);
  }

  lemma ArrivalTaken(s: Sys, k: int, b: Block, s': Sys, out: Out, left: map<Addr, int>, m: Mig2)
    requires Mig2sOk(s) && Facts(s, k, b, s', out, left)
    ensures multiset(b.mig2s)[m] == if m in b.mig2s then 1 else 0
    ensures m in b.mig2s ==> Arriving(s, k, m) && m.addr in Mig2Map(b.mig2s)
    ensures m.addr in Mig2Map(b.mig2s) && Arriving(s, k, m) ==> m in b.mig2s
    ensures m.addr in Mig2Map(b.mig2s) ==> m.addr in s.phase && s.phase[m.addr].Leaving?
  {
    Takes(s, k, b, s', out, left);
    hide Facts, Mig2Map;
    assert s.pools[k].mig2s[m] == if Arriving(s, k, m) then 1 else 0;
    Taken(b.mig2s, s.pools[k].mig2s, m);
    Mig2In(b.mig2s, m.addr);
    if m.addr in Mig2Map(b.mig2s) {
      var x := Mig2(m.addr, Mig2Map(b.mig2s)[m.addr]);
      assert s.pools[k].mig2s[x] == if Arriving(s, k, x) then 1 else 0;
      Taken(b.mig2s, s.pools[k].mig2s, x);
    }
  }

  lemma CommitMig2s(s: Sys, k: int, b: Block, s': Sys, out: Out, left: map<Addr, int>, j: int, m: Mig2)
    requires Mig1sOk(s) && Mig2sOk(s) && Facts(s, k, b, s', out, left) && 0 <= j < |s'.pools|
    ensures s'.pools[j].mig2s[m] == if Arriving(s', j, m) then 1 else 0
  {
    hide Facts, Mig1Map, Mig2Map, AnnMap, GainOf, Announcements, Departures, For;
    FactsAt(s, k, b, s', out, left, m.addr);
    PoolAt(s, k, b, s', out, left, j);
    var req := Mig1(m.addr, j);
    RequestTaken(s, k, b, s', out, left, req);
    ArrivalTaken(s, k, b, s', out, left, m);
    assert s.pools[j].mig2s[m] == if Arriving(s, j, m) then 1 else 0;
    ForCount(left, b.mig1s, j, m);
    Mig1In(b.mig1s, m.addr);
    hide Mig1sOk, Mig2sOk;
  }

  // ----- announcements -----

  lemma NoDupCount<T>(xs: seq<T>, x: T)
    requires forall i, j | 0 <= i < j < |xs| :: xs[i] != xs[j]
    ensures multiset(xs)[x] == if x in xs then 1 else 0
  {
    if i :| 0 <= i < |xs| && xs[i] == x {
      assert xs == xs[..i] + [x] + xs[i + 1..];
      assert x !in xs[..i] && x !in xs[i + 1..];
    }
  }

  // An arriving account is announced once.
  lemma AnnouncedOnce(s: Sys, k: int, b: Block, a: Addr)
    requires Mig2sOk(s) && 0 <= k < |s.pools| && multiset(b.mig2s) <= s.pools[k].mig2s
    ensures multiset(Announcements(k, b.mig2s))[Ann(a, k)] == if a in Mig2Map(b.mig2s) then 1 else 0
  {
    var anns := Announcements(k, b.mig2s);
    forall i, j | 0 <= i < j < |anns| ensures anns[i] != anns[j] {
      if anns[i] == anns[j] {
        var m, x := b.mig2s[i], b.mig2s[j];
        assert m in multiset(b.mig2s) && x in multiset(b.mig2s);
        assert s.pools[k].mig2s[m] == (if Arriving(s, k, m) then 1 else 0)
            && s.pools[k].mig2s[x] == if Arriving(s, k, x) then 1 else 0;
        TakenOnce(b.mig2s, s.pools[k].mig2s, i, j);
        assert false;
      }
    }
    NoDupCount(anns, Ann(a, k));
    Mig2In(b.mig2s, a);
    if a in Mig2Map(b.mig2s) {
      var m := Mig2(a, Mig2Map(b.mig2s)[a]);
      var i :| 0 <= i < |b.mig2s| && b.mig2s[i] == m;
      assert anns[i] == Ann(a, k);
    }
  }

  lemma AnnouncedHere(k: int, ms: seq<Mig2>, m: Ann)
    requires m in Announcements(k, ms)
    ensures m.to == k
  {
  }

  lemma CommitAnn(s: Sys, k: int, b: Block, s': Sys, out: Out, left: map<Addr, int>, j: int, m: Ann)
    requires Mig2sOk(s) && AnnsOk(s) && Facts(s, k, b, s', out, left)
    requires 0 <= j < |s'.pools| && m in s'.pools[j].anns
    ensures AnnFitsAt(s', j, m)
  {
    hide Facts, Mig1Map, Mig2Map, AnnMap, GainOf;
    FactsAt(s, k, b, s', out, left, m.addr);
    assert AnnFitsAt(s, j, m);
    AnnCount(s, k, b, s', out, left, j, m);
    ArrivalTaken(s, k, b, s', out, left, Mig2(m.addr, 0));
    hide AnnsOk, Mig2sOk;
  }

  // The announcements that wait after a commit: those before it, less those it processes,
  // and at the other shards those of the arriving accounts.
  lemma AnnCount(s: Sys, k: int, b: Block, s': Sys, out: Out, left: map<Addr, int>, j: int, m: Ann)
    requires Mig2sOk(s) && Facts(s, k, b, s', out, left) && 0 <= j < |s'.pools|
    ensures j < |s.pools|
    ensures if j == k then s'.pools[j].anns[m] <= s.pools[j].anns[m]
            else s'.pools[j].anns[m] == s.pools[j].anns[m] + if m.to == k && m.addr in Mig2Map(b.mig2s) then 1 else 0
  {
    Takes(s, k, b, s', out, left);
    PoolAt(s, k, b, s', out, left, j);
    hide Facts, Mig2Map, Departures, For;
    AnnouncedOnce(s, k, b, m.addr);
    if m in out.anns {
      AnnouncedHere(k, b.mig2s, m);
    }
    hide Announcements, Mig2sOk;
  }

  lemma CommitAwaited(s: Sys, k: int, b: Block, s': Sys, out: Out, left: map<Addr, int>, a: Addr)
    requires Mig2sOk(s) && AnnsOk(s) && Facts(s, k, b, s', out, left)
    requires a in s'.phase && s'.phase[a].Both? && 0 <= s'.phase[a].home < |s'.pools|
    ensures AwaitedAt(s', a)
  {
    hide Facts, Mig1Map, Mig2Map, AnnMap, GainOf, Announcements, Departures, For;
    var p' := s'.phase[a];
    var j, m := p'.home, Ann(a, p'.dest);
    FactsAt(s, k, b, s', out, left, a);
    PoolAt(s, k, b, s', out, left, j);
    Takes(s, k, b, s', out, left);
    assert AwaitedAt(s, a);
    if s.phase[a].Both? {
      assert m in s.pools[j].anns;
      LeaderLaws.AnnKeys(b.anns, a);
      assert m in b.anns ==> a in AnnMap(b.anns);
    } else {
      AnnouncedOnce(s, k, b, a);
    }
    hide AnnsOk, Mig2sOk;
  }

  // ----- the counters -----

  lemma ReportTotalPick(rs: multiset<Report>, settled: bool) returns (q: Report)
    requires rs != multiset{}
    ensures q in rs
    ensures ReportTotal(rs, settled) == ReportTotal(rs - multiset{q}, settled) + if q.Settled? == settled then q.n else 0
  {
    q :| q in rs && ReportTotal(rs, settled) == ReportTotal(rs - multiset{q}, settled) + if q.Settled? == settled then q.n else 0;
  }

  lemma {:induction false} ReportTotalDrop(rs: multiset<Report>, r: Report, settled: bool)
    requires r in rs
    ensures ReportTotal(rs, settled) == ReportTotal(rs - multiset{r}, settled) + if r.Settled? == settled then r.n else 0
    decreases |rs|
  {
    hide *;
    var q := ReportTotalPick(rs, settled);
    if q != r {
      PaymentLaws.DropTwo(rs, q, r);
      ReportTotalDrop(rs - multiset{q}, r, settled);
      ReportTotalDrop(rs - multiset{r}, q, settled);
    }
  }

  lemma ReportTotalAdd(rs: multiset<Report>, r: Report, settled: bool)
    ensures ReportTotal(rs + multiset{r}, settled) == ReportTotal(rs, settled) + if r.Settled? == settled then r.n else 0
  {
    ReportTotalDrop(rs + multiset{r}, r, settled);
    assert rs + multiset{r} - multiset{r} == rs;
  }

  ghost function Changed(nss: seq<NS>): set<Addr> {
    set m | m in nss :: m.addr
  }

  lemma {:induction false} ChangedCount(nss: seq<NS>)
    requires forall i, j | 0 <= i < j < |nss| :: nss[i].addr != nss[j].addr
    ensures |Changed(nss)| == |nss|
  {
    if nss != [] {
      var init, m := nss[..|nss| - 1], nss[|nss| - 1];
      ChangedCount(init);
      assert forall x :: x in nss <==> x in init || x == m;
      assert Changed(nss) == Changed(init) + {m.addr};
      assert m.addr !in Changed(init);
    }
  }

  lemma ChangesDistinct(s: Sys, k: int, b: Block)
    requires NSsOk(s) && 0 <= k < |s.pools| && multiset(b.nss) <= s.pools[k].nss
    ensures forall i, j | 0 <= i < j < |b.nss| :: b.nss[i].addr != b.nss[j].addr
  {
    forall i, j | 0 <= i < j < |b.nss| ensures b.nss[i].addr != b.nss[j].addr {
      if b.nss[i].addr == b.nss[j].addr {
        var m, x := b.nss[i], b.nss[j];
        assert m in multiset(b.nss) && x in multiset(b.nss);
        assert s.pools[k].nss[m] == (if InPhase(s, m.addr, Late(k, m.change)) then 1 else 0)
            && s.pools[k].nss[x] == if InPhase(s, x.addr, Late(k, x.change)) then 1 else 0;
        TakenOnce(b.nss, s.pools[k].nss, i, j);
        assert false;
      }
    }
  }

  // The accounts handed over that gained nothing.
  ghost function Unchanged(out: Out): set<Addr> {
    set a | a in out.gone && GainOf(out.nss, a, out.gone[a]) == 0
  }

  lemma UnchangedCount(k: int, n: Node, b: Block)
    requires CommitReady(k, n, b)
    ensures CommitOut(k, n, b).same == |Unchanged(CommitOut(k, n, b))|
  {
    hide ApplyBlock, BlockOut, RelayList, CommitList, BlockKnown, Recorded;
    hide HandleAnns, RouteIn, OwnIn, CollectGains, AnnMap;
    var out := CommitOut(k, n, b);
    var st, before := ApplyBlock(k, n.st, b), n.before + BlockOut(k, n.st, b);
    SameCount(st, before, out.gone, b.anns);
    var sw := Sweep(RouteIn(k, n.table, b.mig2s), OwnIn(n.own, b.mig2s), map[]);
    forall a | a in out.gone ensures a in Unchanged(out) <==> a in SameSet(st, before, out.gone, b.anns) {
      LeaderLaws.SweepAt(sw, b.anns, a);
      LeaderLaws.AnnKeys(b.anns, a);
      GoneAsAnnounced(sw, before, b.anns, a);
      GainsSum(st, before, out.gone, b.anns, a, out.gone[a]);
    }
    assert Unchanged(out) == SameSet(st, before, out.gone, b.anns);
  }

  lemma UnsettledAt(s: Sys, k: int, b: Block, s': Sys, out: Out, left: map<Addr, int>, a: Addr)
    requires NSsOk(s) && Facts(s, k, b, s', out, left)
    ensures a in UnsettledSet(s) <==> a in UnsettledSet(s') || a in Changed(b.nss) || a in Unchanged(out)
    ensures a in UnsettledSet(s') ==> a !in Changed(b.nss) && a !in Unchanged(out)
    ensures a in Changed(b.nss) ==> a !in Unchanged(out)
    ensures a in UnarrivedSet(s') <==> a in UnarrivedSet(s)
  {
    hide Mig1Map, Mig2Map, AnnMap, GainOf, HandsOf, Announcements, Departures, For;
    assert a in out.gone ==> a in s.phase;
    assert 0 <= k < |s'.pools|;
    FactsAt(s, k, b, s', out, left, a);
    if a in Changed(b.nss) {
      var m :| m in b.nss && m.addr == a;
      ChangeTaken(s, k, b, s', out, left, m);
    }
    hide Facts, NSsOk;
  }

  lemma CommitUnsettled(s: Sys, k: int, b: Block, s': Sys, out: Out, left: map<Addr, int>)
    requires NSsOk(s) && Facts(s, k, b, s', out, left) && out.same == |Unchanged(out)|
    ensures |UnsettledSet(s)| == |UnsettledSet(s')| + |b.nss| + out.same
    ensures UnarrivedSet(s') == UnarrivedSet(s)
  {
    var late, none := Changed(b.nss), Unchanged(out);
    assert |late| == |b.nss| by {
      ChangesDistinct(s, k, b);
      ChangedCount(b.nss);
    }
    hide UnsettledSet, UnarrivedSet, Changed, Unchanged;
    forall a
      ensures a in UnsettledSet(s) <==> a in UnsettledSet(s') || a in late || a in none
      ensures a in UnsettledSet(s') ==> a !in late && a !in none
      ensures a in late ==> a !in none
      ensures a in UnarrivedSet(s') <==> a in UnarrivedSet(s)
    {
      UnsettledAt(s, k, b, s', out, left, a);
    }
    hide Facts, NSsOk;
    SplitCount(UnsettledSet(s), UnsettledSet(s'), late, none);
    assert UnarrivedSet(s') == UnarrivedSet(s);
  }

  lemma SplitCount(all: set<Addr>, rest: set<Addr>, late: set<Addr>, none: set<Addr>)
    requires forall a :: a in all <==> a in rest || a in late || a in none
    requires rest !! late && rest !! none && late !! none
    ensures |all| == |rest| + |late| + |none|
  {
    assert all == rest + late + none;
    assert rest + late !! none;
  }

  lemma ReportsAfter(rs: multiset<Report>, n: nat, m: nat)
    ensures var rs' := rs + multiset{Settled(n), Settled(m)};
            ReportTotal(rs', true) == ReportTotal(rs, true) + n + m && ReportTotal(rs', false) == ReportTotal(rs, false)
  {
    var r := rs + multiset{Settled(n)};
    assert rs + multiset{Settled(n), Settled(m)} == r + multiset{Settled(m)};
    ReportTotalAdd(rs, Settled(n), true);
    ReportTotalAdd(rs, Settled(n), false);
    ReportTotalAdd(r, Settled(m), true);
    ReportTotalAdd(r, Settled(m), false);
  }

  lemma CommitCounters(s: Sys, k: int, b: Block, s': Sys, out: Out, left: map<Addr, int>)
    requires NSsOk(s) && CountersOk(s) && Facts(s, k, b, s', out, left) && out.same == |Unchanged(out)|
    ensures CountersOk(s')
  {
    PartsCount(s, k, b, s', out, left);
    hide *;
    CommitUnsettled(s, k, b, s', out, left);
    ReportsAfter(s.reports, |b.nss|, out.same);
    CountersMove(s, s', |b.nss| + out.same, 0);
  }

  lemma PartsCount(s: Sys, k: int, b: Block, s': Sys, out: Out, left: map<Addr, int>)
    requires Facts(s, k, b, s', out, left)
    ensures SameCounters(s, s') && s'.reports == s.reports + multiset{Settled(|b.nss|), Settled(out.same)}
  {
    hide PhaseFacts, Departures, Announcements, PoolsAfter, HandsOf;
  }

  ghost predicate SameCounters(s: Sys, s': Sys) {
    && s'.unsettled == s.unsettled && s'.unarrived == s.unarrived
    && s'.collecting == s.collecting && s'.unasked == s.unasked
  }

  // Accounts that settle or arrive are reported at once.
  lemma CountersMove(s: Sys, s': Sys, settled: nat, arrived: nat)
    requires CountersOk(s) && SameCounters(s, s')
    requires |UnsettledSet(s)| == |UnsettledSet(s')| + settled && |UnarrivedSet(s)| == |UnarrivedSet(s')| + arrived
    requires ReportTotal(s'.reports, true) == ReportTotal(s.reports, true) + settled
    requires ReportTotal(s'.reports, false) == ReportTotal(s.reports, false) + arrived
    ensures CountersOk(s')
  {
    hide UnsettledSet, UnarrivedSet, ReportTotal;
  }

  // ----- the whole commit -----

  lemma CommitKeepsNodes(s: Sys, k: int, b: Block, s': Sys)
    requires Inv(s) && IsCommit(s, k, b, s')
    ensures NodesOk(s')
  {
    hide ApplyBlock, BlockOut, CommitOut, BlockKnown, Recorded;
    hide HandleAnns, CollectGains, PhaseAfter, PaysOf, PaymentsFit;
    hide Booked, Mig1sOk, Mig2sOk, NSsOk, HandsOk, CountersOk, LeaderLaws.TableAgrees, PoolsAfter, HandsOf, Single;
    CommitParts(s, k, b, s');
    var n, n' := s.nodes[k], CommitNode(k, s.nodes[k], b);
    forall ann | ann in b.anns ensures ann.to != k {
      assert ann in multiset(b.anns);
      assert AnnFitsAt(s, k, ann);
    }
    LeaderLaws.CommitKeepsTable(k, n, b);
    assert n'.st.Keys == n.st.Keys;
  }

  lemma {:induction false} RelaysSingle(k: int, table: map<Addr, int>, txs: seq<Tx>)
    requires Single(txs) && AllRouted(table, txs)
    ensures Single(RelayList(k, table, txs))
  {
    if txs != [] {
      PaymentLaws.RelayListStep(k, table, txs);
      RelaysSingle(k, table, txs[..|txs| - 1]);
    }
  }

  lemma BlockCanCommit(s: Sys, k: int, b: Block)
    requires Inv(s) && BlockFits(s, k, b)
    ensures CanCommit(s, k, b)
  {
    CommitIsReady(s, k, b);
    KnownIsRouted(k, s.nodes[k], b);
    RelaysSingle(k, RouteIn(k, s.nodes[k].table, b.mig2s), b.txs);
  }

  lemma CommitKeepsMessages(s: Sys, k: int, b: Block, s': Sys)
    requires Inv(s) && IsCommit(s, k, b, s')
    ensures Mig1sOk(s') && Mig2sOk(s') && NSsOk(s') && HandsOk(s') && AnnsOk(s') && CountersOk(s')
  {
    hide Mig1sOk, Mig2sOk, NSsOk, HandsOk, AnnsOk, CountersOk, NodesOk, AllBooked;
    hide CommitStep, BlockFits, CommitOut, BlockOut, PoolsAfter, Unchanged, PhaseFacts;
    CommitFacts(s, k, b, s');
    UnchangedCount(k, s.nodes[k], b);
    hide CommitReady;
    CommitKeepsPools(s, k, b, s', OutOf(s, k, b), LeftOf(s, k, b));
  }

  lemma CommitKeepsPools(s: Sys, k: int, b: Block, s': Sys, out: Out, left: map<Addr, int>)
    requires Mig1sOk(s) && Mig2sOk(s) && NSsOk(s) && HandsOk(s) && AnnsOk(s) && CountersOk(s)
    requires Facts(s, k, b, s', out, left) && out.same == |Unchanged(out)|
    ensures Mig1sOk(s') && Mig2sOk(s') && NSsOk(s') && HandsOk(s') && AnnsOk(s') && CountersOk(s')
  {
    assert |s'.pools| == |s.pools|;
    hide Unchanged;
    assert CountersOk(s') by { CommitCounters(s, k, b, s', out, left); }
    hide Facts, CountersOk, InPhase, Arriving, AnnFits;
    assert Mig1sOk(s') by {
      forall j, m | 0 <= j < |s'.pools|
        ensures s'.pools[j].mig1s[m] == if InPhase(s', m.addr, Asked(j, m.to)) then 1 else 0
      {
        CommitMig1s(s, k, b, s', out, left, j, m);
      }
    }
    assert Mig2sOk(s') by {
      forall j, m | 0 <= j < |s'.pools| ensures s'.pools[j].mig2s[m] == if Arriving(s', j, m) then 1 else 0 {
        CommitMig2s(s, k, b, s', out, left, j, m);
      }
    }
    assert NSsOk(s') by {
      forall j, m | 0 <= j < |s'.pools|
        ensures s'.pools[j].nss[m] == if InPhase(s', m.addr, Late(j, m.change)) then 1 else 0
      {
        CommitNSs(s, k, b, s', out, left, j, m);
      }
    }
    assert HandsOk(s') by {
      forall h ensures s'.hands[h] == if InPhase(s', h.addr, Moved(h.to, h.gain)) then 1 else 0 {
        CommitHands(s, k, b, s', out, left, h);
      }
    }
    CommitAnns(s, k, b, s', out, left);
  }

  lemma CommitAnns(s: Sys, k: int, b: Block, s': Sys, out: Out, left: map<Addr, int>)
    requires Mig2sOk(s) && AnnsOk(s) && Facts(s, k, b, s', out, left)
    ensures AnnsOk(s')
  {
    hide Facts, AnnFits;
    assert AnnsFit(s') by {
      forall j, m ensures AnnFitsAt(s', j, m) {
        if 0 <= j < |s'.pools| && m in s'.pools[j].anns {
          CommitAnn(s, k, b, s', out, left, j, m);
        }
      }
    }
    assert Awaited(s') by {
      forall a ensures AwaitedAt(s', a) {
        if a in s'.phase && s'.phase[a].Both? && 0 <= s'.phase[a].home < |s'.pools| {
          CommitAwaited(s, k, b, s', out, left, a);
        }
      }
    }
  }

  lemma CommitKeeps(s: Sys, k: int, b: Block, s': Sys)
    requires Inv(s) && IsCommit(s, k, b, s')
    ensures Inv(s')
  {
    hide IsCommit, NodesOk, Booked, CountersOk, Mig1sOk, Mig2sOk, AnnsOk, NSsOk, HandsOk;
    CommitKeepsMessages(s, k, b, s');
    CommitKeepsNodes(s, k, b, s');
    CommitKeys(s, k, b, s');
    forall a | a in s'.phase && a in s'.ledger ensures Booked(s', a) {
      CommitKeepsBooks(s, k, b, s', a);
    }
    assert Mig1sOk(s') && Mig2sOk(s') && NSsOk(s') && HandsOk(s');
    assert AnnsOk(s') && CountersOk(s');
    assert NodesOk(s');
    assert AllBooked(s');
  }

  lemma CommitKeys(s: Sys, k: int, b: Block, s': Sys)
    requires IsCommit(s, k, b, s')
    ensures s'.phase.Keys == s.phase.Keys
  {
    CommitParts(s, k, b, s');
  }

  // Whatever block commits, all copies of every account still stand for the one ledger,
  // the messages on their way fit the phases, and the counters count what is left to do.
  lemma CommitKeepsInv(s: Sys, k: int, b: Block)
    requires Inv(s) && BlockFits(s, k, b)
    ensures CanCommit(s, k, b) && Inv(CommitStep(s, k, b))
  {
    BlockCanCommit(s, k, b);
    CommitKeeps(s, k, b, CommitStep(s, k, b));
  }
}
