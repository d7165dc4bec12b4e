// Messages, reports and rounds keep the invariant of the migration protocol.
module MigrationSteps {
  import opened Ledger
  import Leader
  import LeaderLaws
  import opened Migration
  import PaymentLaws
  import opened MigrationInv
  import MigrationPools

  // ----- hand-over messages -----

  lemma {:induction false} ChangesCount(hs: seq<Hand>, j: int, m: NS)
    requires forall h | h in hs :: h.to == j
    ensures multiset(Changes(hs))[m] == if m.change != 0 then multiset(hs)[Hand(m.addr, j, m.change)] else 0
  {
    if hs == [] {
    } else {
      var init, h := hs[..|hs| - 1], hs[|hs| - 1];
      assert h in hs && hs == init + [h];
      ChangesCount(init, j, m);
    }
  }

  ghost predicate Handed(hs: seq<Hand>, a: Addr) {
    exists h :: h in hs && h.addr == a
  }

  // A message carries an account once, and the account waits for it.
  lemma HandOnce(s: Sys, j: int, hs: seq<Hand>, h: Hand)
    requires HandsOk(s) && HandsFit(s, j, hs)
    ensures multiset(hs)[h] == if h in hs then 1 else 0
    ensures h in hs ==> InPhase(s, h.addr, Moved(j, h.gain))
  {
    assert s.hands[h] == if InPhase(s, h.addr, Moved(h.to, h.gain)) then 1 else 0;
    assert h in hs ==> h in multiset(hs);
  }

  lemma HandedPhase(s: Sys, j: int, hs: seq<Hand>, a: Addr)
    requires HandsOk(s) && HandsFit(s, j, hs)
    ensures Handed(hs, a) ==> a in s.phase && s.phase[a].Moved? && s.phase[a].dest == j
    ensures a in s.phase && s.phase[a].Moved? ==> (Handed(hs, a) <==> Hand(a, j, s.phase[a].gain) in hs)
    ensures a in s.phase ==>
              DeliverStep(s, j, hs).phase[a] ==
                if Handed(hs, a) then if s.phase[a].gain != 0 then Late(j, s.phase[a].gain) else Idle(j) else s.phase[a]
  {
    if h :| h in hs && h.addr == a {
      HandOnce(s, j, hs, h);
    }
  }

  lemma DeliverHands(s: Sys, j: int, hs: seq<Hand>, h: Hand)
    requires HandsOk(s) && HandsFit(s, j, hs)
    ensures DeliverStep(s, j, hs).hands[h] ==
            if InPhase(DeliverStep(s, j, hs), h.addr, Moved(h.to, h.gain)) then 1 else 0
  {
    HandOnce(s, j, hs, h);
    HandedPhase(s, j, hs, h.addr);
    assert s.hands[h] == if InPhase(s, h.addr, Moved(h.to, h.gain)) then 1 else 0;
  }

  lemma DeliverNSs(s: Sys, j: int, hs: seq<Hand>, i: int, m: NS)
    requires HandsOk(s) && NSsOk(s) && HandsFit(s, j, hs) && 0 <= i < |s.pools|
    ensures DeliverStep(s, j, hs).pools[i].nss[m] ==
            if InPhase(DeliverStep(s, j, hs), m.addr, Late(i, m.change)) then 1 else 0
  {
    ChangesCount(hs, j, m);
    HandOnce(s, j, hs, Hand(m.addr, j, m.change));
    HandedPhase(s, j, hs, m.addr);
    assert s.pools[i].nss[m] == if InPhase(s, m.addr, Late(i, m.change)) then 1 else 0;
    hide HandsOk, NSsOk, Changes;
  }

  ghost function Carried(hs: seq<Hand>): set<Addr> {
    set h | h in hs :: h.addr
  }

  lemma {:induction false} CarriedCount(hs: seq<Hand>)
    requires forall i, j | 0 <= i < j < |hs| :: hs[i].addr != hs[j].addr
    ensures |Carried(hs)| == |hs|
  {
    if hs != [] {
      var init, h := hs[..|hs| - 1], hs[|hs| - 1];
      CarriedCount(init);
      assert forall x :: x in hs <==> x in init || x == h;
      assert Carried(hs) == Carried(init) + {h.addr};
      assert h.addr !in Carried(init);
    }
  }

  lemma HandsDistinct(s: Sys, j: int, hs: seq<Hand>)
    requires HandsOk(s) && HandsFit(s, j, hs)
    ensures forall i, l | 0 <= i < l < |hs| :: hs[i].addr != hs[l].addr
  {
    forall i, l | 0 <= i < l < |hs| ensures hs[i].addr != hs[l].addr {
      if hs[i].addr == hs[l].addr {
        HandOnce(s, j, hs, hs[i]);
        HandOnce(s, j, hs, hs[l]);
        TakenOnce(hs, multiset(hs), i, l);
        assert false;
      }
    }
  }

  lemma DeliverCounters(s: Sys, j: int, hs: seq<Hand>)
    requires HandsOk(s) && CountersOk(s) && HandsFit(s, j, hs)
    ensures CountersOk(DeliverStep(s, j, hs))
  {
    var s' := DeliverStep(s, j, hs);
    DeliverReports(s, j, hs);
    hide *;
    assert |Carried(hs)| == |hs| by {
      HandsDistinct(s, j, hs);
      CarriedCount(hs);
    }
    forall a
      ensures a in UnsettledSet(s') <==> a in UnsettledSet(s)
      ensures a in UnarrivedSet(s) <==> a in UnarrivedSet(s') || a in Carried(hs)
      ensures a in UnarrivedSet(s') ==> a !in Carried(hs)
    {
      DeliverSets(s, j, hs, a);
    }
    MigrationPools.ReportTotalAdd(s.reports, Arrivals(|hs|), true);
    MigrationPools.ReportTotalAdd(s.reports, Arrivals(|hs|), false);
    assert UnsettledSet(s') == UnsettledSet(s);
    MigrationPools.SplitCount(UnarrivedSet(s), UnarrivedSet(s'), Carried(hs), {});
    MigrationPools.CountersMove(s, s', 0, |hs|);
  }

  lemma DeliverReports(s: Sys, j: int, hs: seq<Hand>)
    requires HandsFit(s, j, hs)
    ensures var s' := DeliverStep(s, j, hs);
            MigrationPools.SameCounters(s, s') && s'.reports == s.reports + multiset{Arrivals(|hs|)}
  {
    hide HandsFit, Changes;
  }

  lemma DeliverSets(s: Sys, j: int, hs: seq<Hand>, a: Addr)
    requires HandsOk(s) && HandsFit(s, j, hs)
    ensures var s' := DeliverStep(s, j, hs);
            && (a in UnsettledSet(s') <==> a in UnsettledSet(s))
            && (a in UnarrivedSet(s) <==> a in UnarrivedSet(s') || a in Carried(hs))
            && (a in UnarrivedSet(s') ==> a !in Carried(hs))
  {
    HandedPhase(s, j, hs, a);
    assert a in Carried(hs) <==> Handed(hs, a);
    hide HandsOk, HandsFit, Changes;
  }

  lemma DeliverBooks(s: Sys, j: int, hs: seq<Hand>, a: Addr)
    requires HandsOk(s) && HandsFit(s, j, hs) && a in s.phase && a in s.ledger && Booked(s, a)
    ensures Booked(DeliverStep(s, j, hs), a)
  {
    HandedPhase(s, j, hs, a);
    var s' := DeliverStep(s, j, hs);
    assert Placed(s'.nodes, s'.phase[a], a) by {
      forall i | 0 <= i < |s.nodes| ensures PlaceOk(s.nodes[i], i, s'.phase[a], a) {
        assert PlaceOk(s.nodes[i], i, s.phase[a], a);
      }
    }
  }

  lemma DeliverAnnFits(s: Sys, j: int, hs: seq<Hand>, a: Addr, k: int, to: int)
    requires HandsOk(s) && HandsFit(s, j, hs) && a in s.phase
    ensures var p, p' := s.phase[a], DeliverStep(s, j, hs).phase[a];
            (AnnFits(p, k, to) ==> AnnFits(p', k, to)) && (p.Both? || p'.Both? ==> p' == p)
  {
    HandedPhase(s, j, hs, a);
  }

  lemma DeliverAnns(s: Sys, j: int, hs: seq<Hand>)
    requires HandsOk(s) && AnnsOk(s) && HandsFit(s, j, hs)
    ensures AnnsOk(DeliverStep(s, j, hs))
  {
    hide HandsOk, Changes, AnnFits;
    var s' := DeliverStep(s, j, hs);
    assert |s'.pools| == |s.pools| && forall k | 0 <= k < |s.pools| :: s'.pools[k].anns == s.pools[k].anns;
    assert s'.phase.Keys == s.phase.Keys;
    hide HandsOk, HandsFit, AnnFits, DeliverStep, Changes;
    assert AnnsFit(s') by {
      forall k, m ensures AnnFitsAt(s', k, m) {
        assert AnnFitsAt(s, k, m);
        if m.addr in s.phase {
          DeliverAnnFits(s, j, hs, m.addr, k, m.to);
        }
      }
    }
    assert Awaited(s') by {
      forall a ensures AwaitedAt(s', a) {
        assert AwaitedAt(s, a);
        if a in s.phase {
          DeliverAnnFits(s, j, hs, a, 0, 0);
        }
      }
    }
  }

  lemma DeliverRequests(s: Sys, j: int, hs: seq<Hand>)
    requires HandsOk(s) && Mig1sOk(s) && Mig2sOk(s) && HandsFit(s, j, hs)
    ensures Mig1sOk(DeliverStep(s, j, hs)) && Mig2sOk(DeliverStep(s, j, hs))
  {
    var s' := DeliverStep(s, j, hs);
    forall k, m | 0 <= k < |s'.pools|
      ensures s'.pools[k].mig1s[m] == if InPhase(s', m.addr, Asked(k, m.to)) then 1 else 0
    {
      HandedPhase(s, j, hs, m.addr);
      assert s.pools[k].mig1s[m] == if InPhase(s, m.addr, Asked(k, m.to)) then 1 else 0;
    }
    forall k, m | 0 <= k < |s'.pools| ensures s'.pools[k].mig2s[m] == if Arriving(s', k, m) then 1 else 0 {
      HandedPhase(s, j, hs, m.addr);
      assert s.pools[k].mig2s[m] == if Arriving(s, k, m) then 1 else 0;
    }
  }

  lemma DeliverKeepsInv(s: Sys, j: int, hs: seq<Hand>)
    requires Inv(s) && HandsFit(s, j, hs)
    ensures Inv(DeliverStep(s, j, hs))
  {
    var s' := DeliverStep(s, j, hs);
    hide Booked, Mig1sOk, Mig2sOk, AnnsOk, HandsOk, NSsOk, CountersOk;
    assert NodesOk(s') && AllBooked(s) && s'.phase.Keys == s.phase.Keys && s'.ledger == s.ledger
         && |s'.pools| == |s.pools|;
    hide NodesOk, HandsFit;
    DeliverCounters(s, j, hs);
    DeliverAnns(s, j, hs);
    DeliverRequests(s, j, hs);
    DeliverMessages(s, j, hs);
    hide DeliverStep;
    forall a | a in s'.phase && a in s'.ledger ensures Booked(s', a) {
      DeliverBooks(s, j, hs, a);
    }
  }

  lemma DeliverMessages(s: Sys, j: int, hs: seq<Hand>)
    requires HandsOk(s) && NSsOk(s) && HandsFit(s, j, hs)
    ensures HandsOk(DeliverStep(s, j, hs)) && NSsOk(DeliverStep(s, j, hs))
  {
    var s' := DeliverStep(s, j, hs);
    assert |s'.pools| == |s.pools|;
    hide InPhase, DeliverStep, HandsFit;
    forall h ensures s'.hands[h] == if InPhase(s', h.addr, Moved(h.to, h.gain)) then 1 else 0 {
      DeliverHands(s, j, hs, h);
    }
    forall i, m | 0 <= i < |s'.pools|
      ensures s'.pools[i].nss[m] == if InPhase(s', m.addr, Late(i, m.change)) then 1 else 0
    {
      DeliverNSs(s, j, hs, i, m);
    }
  }

  // ----- reports and the opening of a round -----

  lemma ReportKeepsInv(s: Sys, r: Report)
    requires Inv(s) && r in s.reports
    ensures Inv(ReportStep(s, r))
  {
    var s' := ReportStep(s, r);
    MigrationPools.ReportTotalDrop(s.reports, r, true);
    MigrationPools.ReportTotalDrop(s.reports, r, false);
    assert UnsettledSet(s') == UnsettledSet(s) && UnarrivedSet(s') == UnarrivedSet(s);
    assert CountersOk(s');
    SameButCounters(s, s');
  }

  lemma WantKeepsInv(s: Sys)
    requires Inv(s) && RoundOpen(s)
    ensures Inv(WantStep(s))
  {
    var s' := WantStep(s);
    assert UnsettledSet(s') == UnsettledSet(s) && UnarrivedSet(s') == UnarrivedSet(s);
    assert CountersOk(s');
    SameButCounters(s, s');
  }

  lemma SameButCounters(s: Sys, s': Sys)
    requires Inv(s) && CountersOk(s')
    requires s' == s.(reports := s'.reports, unsettled := s'.unsettled, unarrived := s'.unarrived, collecting := s'.collecting)
    ensures Inv(s')
  {
    hide CountersOk, Mig1sOk, Mig2sOk, NSsOk, HandsOk, Placed, Effective, LeaderLaws.TableAgrees;
    SameMessages(s, s');
    SameAnns(s, s');
    hide AnnsOk;
    assert NodesOk(s');
    hide NodesOk;
    forall a | a in s'.phase && a in s'.ledger ensures Booked(s', a) {
      assert Booked(s, a);
    }
  }

  lemma SameAnns(s: Sys, s': Sys)
    requires AnnsOk(s) && s'.pools == s.pools && s'.phase == s.phase
    ensures AnnsOk(s')
  {
    hide AnnFits;
    forall a ensures AwaitedAt(s', a) {
      assert AwaitedAt(s, a);
    }
    forall k, m ensures AnnFitsAt(s', k, m) {
      assert AnnFitsAt(s, k, m);
    }
  }

  lemma SameMessages(s: Sys, s': Sys)
    requires Mig1sOk(s) && Mig2sOk(s) && NSsOk(s) && HandsOk(s)
    requires s'.pools == s.pools && s'.hands == s.hands && s'.phase == s.phase
    ensures Mig1sOk(s') && Mig2sOk(s') && NSsOk(s') && HandsOk(s')
  {
    assert forall k, m | 0 <= k < |s'.pools| :: Arriving(s', k, m) == Arriving(s, k, m);
    assert forall a, p :: InPhase(s', a, p) == InPhase(s, a, p);
    hide Arriving, InPhase;
  }

  // ----- a new map -----

  // While the client collects, every account is at rest.
  lemma CollectingIsIdle(s: Sys, a: Addr)
    requires CountersOk(s) && s.collecting && a in s.phase
    ensures s.phase[a].Idle?
  {
    assert a !in UnsettledSet(s) && a !in UnarrivedSet(s);
  }

  lemma MapPhase(s: Sys, moves: map<Addr, int>, a: Addr)
    requires CountersOk(s) && s.collecting && |s.nodes| == |s.pools| && a in s.phase
    ensures s.phase[a].Idle?
    ensures MapStep(s, moves).phase[a] ==
              if a in moves && s.phase[a].home != moves[a] then Asked(s.phase[a].home, moves[a]) else s.phase[a]
  {
    CollectingIsIdle(s, a);
  }

  // An account at rest belongs to the shard where it lives, and to no other.
  lemma MapHome(s: Sys, moves: map<Addr, int>, a: Addr, k: int)
    requires Inv(s) && MapFits(s, moves) && a in s.phase && 0 <= k < |s.nodes|
    ensures s.phase[a].Idle? && (a in s.nodes[k].own <==> k == s.phase[a].home)
  {
    hide Mig1sOk, Mig2sOk, NSsOk, HandsOk, AnnsOk, PaymentLaws.RelayTotal;
    MapPhase(s, moves, a);
    assert Booked(s, a);
    assert PlaceOk(s.nodes[k], k, s.phase[a], a) && LeaderLaws.TableAgrees(k, s.nodes[k]);
    hide CountersOk;
  }

  lemma AskedIsPlaced(nodes: seq<Leader.Node>, h: int, d: int, a: Addr)
    requires Placed(nodes, Idle(h), a) && 0 <= d < |nodes| && d != h
    ensures Placed(nodes, Asked(h, d), a) && Effective(nodes, Asked(h, d), a) == Effective(nodes, Idle(h), a)
  {
    forall k | 0 <= k < |nodes| ensures PlaceOk(nodes[k], k, Asked(h, d), a) {
      assert PlaceOk(nodes[k], k, Idle(h), a);
    }
  }

  lemma HomeInRange(s: Sys, a: Addr)
    requires a in s.phase && a in s.ledger && s.phase[a].Idle? && Booked(s, a)
    ensures 0 <= s.phase[a].home < |s.nodes|
  {
  }

  lemma MapBooks(s: Sys, moves: map<Addr, int>, a: Addr)
    requires Inv(s) && MapFits(s, moves) && a in s.phase
    ensures Booked(MapStep(s, moves), a)
  {
    hide Mig1sOk, Mig2sOk, NSsOk, HandsOk, AnnsOk, CountersOk, PaymentLaws.RelayTotal;
    hide LeaderLaws.TableAgrees, PlaceOk, Placed, Effective;
    MapPhase(s, moves, a);
    assert Booked(s, a);
    var h := s.phase[a].home;
    assert 0 <= h < |s.nodes| by { HomeInRange(s, a); }
    MapHome(s, moves, a, h);
    if a in moves && h != moves[a] {
      AskedIsPlaced(s.nodes, h, moves[a], a);
    }
  }

  lemma MapMig1s(s: Sys, moves: map<Addr, int>, k: int, m: Mig1)
    requires Inv(s) && MapFits(s, moves) && 0 <= k < |s.pools|
    ensures MapStep(s, moves).pools[k].mig1s[m] == if InPhase(MapStep(s, moves), m.addr, Asked(k, m.to)) then 1 else 0
  {
    hide Mig2sOk, NSsOk, HandsOk, AnnsOk, CountersOk, Booked;
    assert s.pools[k].mig1s[m] == if InPhase(s, m.addr, Asked(k, m.to)) then 1 else 0;
    if m.addr in s.phase {
      MapPhase(s, moves, m.addr);
      MapHome(s, moves, m.addr, k);
      assert Booked(s, m.addr);
      HomeInRange(s, m.addr);
      MapHome(s, moves, m.addr, s.phase[m.addr].home);
    }
    var asked := Requests(s.nodes[k].own, k, moves);
    assert multiset(asked)[m] == if m in asked then 1 else 0;
    assert MapStep(s, moves).pools[k].mig1s == s.pools[k].mig1s + multiset(asked);
    hide Mig1sOk, NodesOk;
  }

  lemma MapMessages(s: Sys, moves: map<Addr, int>)
    requires Inv(s) && MapFits(s, moves)
    ensures var s' := MapStep(s, moves); Mig1sOk(s') && Mig2sOk(s') && NSsOk(s') && HandsOk(s')
  {
    hide Booked, AnnsOk;
    var s' := MapStep(s, moves);
    assert |s'.pools| == |s.pools|;
    assert Mig1sOk(s') by {
      hide MapStep, NodesOk, InPhase, CountersOk, MapFits;
      forall k, m | 0 <= k < |s'.pools|
        ensures s'.pools[k].mig1s[m] == if InPhase(s', m.addr, Asked(k, m.to)) then 1 else 0
      {
        MapMig1s(s, moves, k, m);
      }
    }
    MapOthers(s, moves);
  }

  lemma MapOthers(s: Sys, moves: map<Addr, int>)
    requires |s.nodes| == |s.pools| && CountersOk(s) && MapFits(s, moves) && Mig2sOk(s) && NSsOk(s) && HandsOk(s)
    ensures var s' := MapStep(s, moves); Mig2sOk(s') && NSsOk(s') && HandsOk(s')
  {
    var s' := MapStep(s, moves);
    assert |s'.pools| == |s.pools| && s'.phase.Keys == s.phase.Keys && s'.hands == s.hands;
    assert forall k | 0 <= k < |s.pools| :: s'.pools[k].mig2s == s.pools[k].mig2s && s'.pools[k].nss == s.pools[k].nss;
    forall a | a in s.phase ensures s.phase[a].Idle? && (s'.phase[a].Idle? || s'.phase[a].Asked?) {
      MapPhase(s, moves, a);
    }
    hide MapStep, CountersOk, MapFits;
    assert forall k, m :: !Arriving(s', k, m) && !Arriving(s, k, m);
    assert forall a, d, gain :: !InPhase(s', a, Moved(d, gain)) && !InPhase(s, a, Moved(d, gain));
    assert forall a, d, gain :: !InPhase(s', a, Late(d, gain)) && !InPhase(s, a, Late(d, gain));
    hide Arriving, InPhase;
  }

  lemma MapAnns(s: Sys, moves: map<Addr, int>)
    requires |s.nodes| == |s.pools| && CountersOk(s) && MapFits(s, moves) && Waits(s, moves) && AnnsOk(s)
    ensures AnnsOk(MapStep(s, moves))
  {
    var s' := MapStep(s, moves);
    assert AnnsFit(s') by {
      forall k, m ensures AnnFitsAt(s', k, m) {
        assert AnnFitsAt(s, k, m);
        if m.addr in s.phase {
          MapPhase(s, moves, m.addr);
        }
      }
    }
    forall a ensures AwaitedAt(s', a) {
      if a in s.phase {
        MapPhase(s, moves, a);
      }
    }
  }

  lemma MapCounters(s: Sys, moves: map<Addr, int>)
    requires CountersOk(s) && MapFits(s, moves) && |s.nodes| == |s.pools|
    ensures CountersOk(MapStep(s, moves))
  {
    var s', stay := MapStep(s, moves), Staying(s, moves);
    MapCounts(s, moves);
    forall a
      ensures a in UnsettledSet(s') <==> a in moves.Keys && a !in stay
      ensures a in UnarrivedSet(s') <==> a in moves.Keys && a !in stay
    {
      MapSets(s, moves, a);
    }
    StayingListed(s, moves);
    hide *;
    assert UnsettledSet(s') == moves.Keys - stay && UnarrivedSet(s') == moves.Keys - stay;
    Remaining(moves.Keys, stay);
    FreshCounters(s', |moves|);
  }

  lemma MapSets(s: Sys, moves: map<Addr, int>, a: Addr)
    requires CountersOk(s) && MapFits(s, moves) && |s.nodes| == |s.pools|
    ensures a in UnsettledSet(MapStep(s, moves)) <==> a in moves && a !in Staying(s, moves)
    ensures a in UnarrivedSet(MapStep(s, moves)) <==> a in moves && a !in Staying(s, moves)
  {
    if a in s.phase {
      MapPhase(s, moves, a);
    }
    hide CountersOk;
  }

  lemma StayingListed(s: Sys, moves: map<Addr, int>)
    ensures Staying(s, moves) <= moves.Keys
  {
  }

  lemma Remaining(all: set<Addr>, stay: set<Addr>)
    requires stay <= all
    ensures |all| == |all - stay| + |stay|
  {
  }

  lemma MapCounts(s: Sys, moves: map<Addr, int>)
    requires CountersOk(s) && MapFits(s, moves) && |s.nodes| == |s.pools|
    ensures var s' := MapStep(s, moves);
            && !s'.collecting && s'.unsettled == s'.unarrived == |moves| == |moves.Keys|
            && s'.unasked == |Staying(s, moves)|
            && ReportTotal(s'.reports, true) == 0 && ReportTotal(s'.reports, false) == 0
  {
    hide UnsettledSet, UnarrivedSet, ReportTotal, Staying, Requests;
  }

  lemma FreshCounters(s: Sys, n: nat)
    requires !s.collecting && s.unsettled == s.unarrived == n
    requires ReportTotal(s.reports, true) == 0 && ReportTotal(s.reports, false) == 0
    requires n == |UnsettledSet(s)| + s.unasked == |UnarrivedSet(s)| + s.unasked
    ensures CountersOk(s)
  {
    hide UnsettledSet, UnarrivedSet, ReportTotal;
  }

  lemma MapKeepsInv(s: Sys, moves: map<Addr, int>)
    requires Inv(s) && MapFits(s, moves) && Waits(s, moves)
    ensures Inv(MapStep(s, moves))
  {
    hide Mig1sOk, Mig2sOk, NSsOk, HandsOk, AnnsOk, CountersOk, Booked, MapFits;
    var s' := MapStep(s, moves);
    assert NodesOk(s') && s'.phase.Keys == s.phase.Keys && s'.ledger == s.ledger;
    hide NodesOk, MapStep;
    MapMessages(s, moves);
    MapAnns(s, moves);
    MapCounters(s, moves);
    forall a | a in s'.phase && a in s'.ledger ensures Booked(s', a) {
      MapBooks(s, moves, a);
    }
  }
}
