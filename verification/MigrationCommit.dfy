// A committed block keeps the invariant of the migration protocol.
module MigrationCommit {
  import opened Ledger
  import opened LedgerLaws
  import opened Leader
  import LeaderLaws
  import opened Migration
  import PaymentLaws
  import opened MigrationInv

  // ----- the accounts handed over -----

  ghost predicate Listed(anns: seq<Ann>, a: Addr) {
    exists ann :: ann in anns && ann.addr == a
  }

  lemma ListedStep(anns: seq<Ann>, a: Addr)
    requires anns != []
    ensures Listed(anns, a) <==> Listed(anns[..|anns| - 1], a) || anns[|anns| - 1].addr == a
  {
    var last := anns[|anns| - 1];
    assert last in anns;
    assert forall x :: x in anns <==> x in anns[..|anns| - 1] || x == last;
  }

  lemma {:induction false} GainsAt(st: State, before: map<Addr, int>, gone: map<Addr, int>, anns: seq<Ann>, a: Addr)
    requires Recorded(before, gone, anns) && gone.Keys <= st.Keys
    ensures var g := CollectGains(st, before, gone, anns);
            if a in gone && Listed(anns, a) then
              && a in before
              && (forall m | m in g.nss && m.ns.addr == a ::
                    m.ns.change == st[a].balance - before[a] && Ann(a, m.to) in anns)
              && ((exists m :: m in g.nss && m.ns.addr == a) <==> st[a].balance != before[a])
            else forall m | m in g.nss :: m.ns.addr != a
  {
    if anns == [] {
    } else {
      var init, ann := anns[..|anns| - 1], anns[|anns| - 1];
      RecordedStep(before, gone, anns);
      GainsAt(st, before, gone, init, a);
      ListedStep(anns, a);
      var r, g := CollectGains(st, before, gone, init), CollectGains(st, before, gone, anns);
      if ann.addr in gone && g.nss != r.nss {
        assert g.nss[|r.nss|] in g.nss;
        assert forall m :: m in g.nss <==> m in r.nss || m == g.nss[|r.nss|];
      }
    }
  }

  lemma NoGainYet(st: State, before: map<Addr, int>, gone: map<Addr, int>, anns: seq<Ann>, a: Addr)
    requires Recorded(before, gone, anns) && gone.Keys <= st.Keys && !Listed(anns, a)
    ensures forall m | m in CollectGains(st, before, gone, anns).nss :: m.ns.addr != a
  {
    hide *;
    GainsAt(st, before, gone, anns, a);
  }

  lemma LastRecorded(before: map<Addr, int>, gone: map<Addr, int>, anns: seq<Ann>)
    requires Recorded(before, gone, anns) && anns != []
    ensures var init, ann := anns[..|anns| - 1], anns[|anns| - 1];
            && Recorded(before, gone, init)
            && (ann.addr in gone ==> ann.addr in before && !Listed(init, ann.addr) && forall x | x in init :: x.addr != ann.addr)
  {
    RecordedStep(before, gone, anns);
  }

  lemma CollectLast(st: State, before: map<Addr, int>, gone: map<Addr, int>, anns: seq<Ann>)
    requires Recorded(before, gone, anns) && gone.Keys <= st.Keys && anns != []
    ensures Recorded(before, gone, anns[..|anns| - 1])
    ensures var init, ann := anns[..|anns| - 1], anns[|anns| - 1];
            var r := CollectGains(st, before, gone, init);
            && (ann.addr in gone ==> ann.addr in before && ann.addr in r.before && r.before[ann.addr] == before[ann.addr])
            && CollectGains(st, before, gone, anns) == GainStep(st, r, gone, ann)
  {
    LastRecorded(before, gone, anns);
    hide GainStep;
  }

  lemma GainStepSends(st: State, g: Gains, gone: map<Addr, int>, ann: Ann)
    requires ann.addr in gone ==> ann.addr in st && ann.addr in g.before
    ensures GainStep(st, g, gone, ann).nss ==
            if ann.addr !in gone || st[ann.addr].balance == g.before[ann.addr] then g.nss
            else g.nss + [SentNS(ann.to, NS(ann.addr, st[ann.addr].balance - g.before[ann.addr]))]
  {
  }

  // Each account has one change at most, so what is sent for it to a shard is that change,
  // if the account was announced to live there, and nothing otherwise.
  lemma {:induction false} GainsSum(st: State, before: map<Addr, int>, gone: map<Addr, int>,
                                      anns: seq<Ann>, a: Addr, to: int)
    requires Recorded(before, gone, anns) && gone.Keys <= st.Keys
    ensures var nss := CollectGains(st, before, gone, anns).nss;
            && (Ann(a, to) in anns && a in gone ==> a in before)
            && GainOf(nss, a, to) == if a in gone && Ann(a, to) in anns then st[a].balance - before[a] else 0
  {
    if anns != [] {
      hide *;
      var init, ann := anns[..|anns| - 1], anns[|anns| - 1];
      LastRecorded(before, gone, anns);
      CollectLast(st, before, gone, anns);
      GainStepSends(st, CollectGains(st, before, gone, init), gone, ann);
      GainsSum(st, before, gone, init, a, to);
      LastIn(anns, Ann(a, to));
      var was, now := CollectGains(st, before, gone, init).nss, CollectGains(st, before, gone, anns).nss;
      if ann.addr in gone && st[ann.addr].balance != before[ann.addr] {
        GainOfLast(was, SentNS(ann.to, NS(ann.addr, st[ann.addr].balance - before[ann.addr])), a, to);
      }
    } else {
      assert CollectGains(st, before, gone, anns).nss == [];
    }
  }

  lemma LastIn<T>(xs: seq<T>, x: T)
    requires xs != []
    ensures x in xs <==> x in xs[..|xs| - 1] || x == xs[|xs| - 1]
  {
  }

  lemma GainOfLast(nss: seq<SentNS>, m: SentNS, a: Addr, to: int)
    ensures GainOf(nss + [m], a, to) == GainOf(nss, a, to) + if m.ns.addr == a && m.to == to then m.ns.change else 0
  {
    assert (nss + [m])[..|nss|] == nss;
  }

  lemma {:induction false} GainsOnce(st: State, before: map<Addr, int>, gone: map<Addr, int>, anns: seq<Ann>)
    requires Recorded(before, gone, anns) && gone.Keys <= st.Keys
    ensures var nss := CollectGains(st, before, gone, anns).nss;
            forall i, j | 0 <= i < j < |nss| :: nss[i].ns.addr != nss[j].ns.addr
  {
    if anns != [] {
      hide *;
      var init, ann := anns[..|anns| - 1], anns[|anns| - 1];
      LastRecorded(before, gone, anns);
      CollectLast(st, before, gone, anns);
      GainStepSends(st, CollectGains(st, before, gone, init), gone, ann);
      GainsOnce(st, before, gone, init);
      if ann.addr in gone {
        NoGainYet(st, before, gone, init, ann.addr);
      }
    }
  }

  ghost function SameSet(st: State, before: map<Addr, int>, gone: map<Addr, int>, anns: seq<Ann>): set<Addr>
    requires gone.Keys <= st.Keys
  {
    set a | a in gone && Listed(anns, a) && a in before && st[a].balance == before[a]
  }

  lemma {:induction false} SameCount(st: State, before: map<Addr, int>, gone: map<Addr, int>, anns: seq<Ann>)
    requires Recorded(before, gone, anns) && gone.Keys <= st.Keys
    ensures CollectGains(st, before, gone, anns).same == |SameSet(st, before, gone, anns)|
  {
    if anns == [] {
      assert SameSet(st, before, gone, anns) == {};
    } else {
      var init, ann := anns[..|anns| - 1], anns[|anns| - 1];
      RecordedStep(before, gone, anns);
      SameCount(st, before, gone, init);
      SameSetStep(st, before, gone, anns);
      hide SameSet, Recorded;
    }
  }

  lemma SameSetStep(st: State, before: map<Addr, int>, gone: map<Addr, int>, anns: seq<Ann>)
    requires Recorded(before, gone, anns) && gone.Keys <= st.Keys && anns != []
    ensures var ann := anns[|anns| - 1];
            var was, now := SameSet(st, before, gone, anns[..|anns| - 1]), SameSet(st, before, gone, anns);
            && (ann.addr in gone ==> ann.addr in before)
            && |now| == |was| + if ann.addr in gone && st[ann.addr].balance == before[ann.addr] then 1 else 0
  {
    var init, ann := anns[..|anns| - 1], anns[|anns| - 1];
    RecordedStep(before, gone, anns);
    var was, now := SameSet(st, before, gone, init), SameSet(st, before, gone, anns);
    forall a ensures Listed(anns, a) <==> Listed(init, a) || ann.addr == a {
      ListedStep(anns, a);
    }
    assert ann.addr in gone ==> !Listed(init, ann.addr);
    hide Listed, Recorded;
    if ann.addr in gone && st[ann.addr].balance == before[ann.addr] {
      assert now == was + {ann.addr};
    } else {
      assert now == was;
    }
  }

  lemma {:induction false} GoneTo(s: Sweep, anns: seq<Ann>, a: Addr, to: int)
    requires a !in s.gone && forall ann | ann in anns && ann.addr == a :: ann.to == to
    ensures a in HandleAnns(s, anns).gone ==> HandleAnns(s, anns).gone[a] == to
  {
    if anns != [] {
      assert anns[|anns| - 1] in anns;
      GoneTo(s, anns[..|anns| - 1], a, to);
    }
  }

  // An account taken out of the shard goes where its one announcement says.
  lemma GoneAsAnnounced(s: Sweep, before: map<Addr, int>, anns: seq<Ann>, a: Addr)
    requires s.gone == map[] && Recorded(before, HandleAnns(s, anns).gone, anns)
    ensures var gone := HandleAnns(s, anns).gone;
            a in gone ==>
              && a in AnnMap(anns) && AnnMap(anns)[a] == gone[a] && Ann(a, gone[a]) in anns
              && forall to | Ann(a, to) in anns :: to == gone[a]
  {
    var gone := HandleAnns(s, anns).gone;
    LeaderLaws.SweepAt(s, anns, a);
    if a in gone {
      LeaderLaws.AnnTo(anns, a);
      var to := AnnMap(anns)[a];
      forall ann | ann in anns && ann.addr == a ensures ann.to == to {
        OneAnn(before, gone, anns, ann, Ann(a, to));
      }
      GoneTo(s, anns, a, to);
    }
  }

  lemma OneAnn(before: map<Addr, int>, gone: map<Addr, int>, anns: seq<Ann>, x: Ann, y: Ann)
    requires Recorded(before, gone, anns) && x in anns && y in anns && x.addr == y.addr && x.addr in gone
    ensures x == y
  {
    var i :| 0 <= i < |anns| && anns[i] == x;
    var j :| 0 <= j < |anns| && anns[j] == y;
    if i < j {
      assert false;
    }
    if j < i {
      assert false;
    }
  }

  // The changes a commit sends out: one for each account it hands over whose balance moved
  // since it was recorded, with the difference, to the shard the account was announced to
  // live in; and no other.
  lemma ChangesGoAlong(k: int, n: Node, b: Block, a: Addr)
    requires CommitReady(k, n, b) && a in n.st
    ensures var n', out, recorded := CommitNode(k, n, b), CommitOut(k, n, b), n.before + BlockOut(k, n.st, b);
            && a in n'.st
            && (forall i, j | 0 <= i < j < |out.nss| :: out.nss[i].ns.addr != out.nss[j].ns.addr)
            && (forall m | m in out.nss && m.ns.addr == a ::
                  && a in out.gone && a in AnnMap(b.anns) && m.to == AnnMap(b.anns)[a] == out.gone[a]
                  && a in recorded && m.ns.change == n'.st[a].balance - recorded[a] != 0)
            && (a in out.gone ==> a in recorded)
            && (a in out.gone ==>
                  ((exists m :: m in out.nss && m.ns.addr == a) <==> n'.st[a].balance != recorded[a]))
  {
    var st, recorded := ApplyBlock(k, n.st, b), n.before + BlockOut(k, n.st, b);
    var gone := Swept(k, n, b).gone;
    var sw := Sweep(RouteIn(k, n.table, b.mig2s), OwnIn(n.own, b.mig2s), map[]);
    BlockAt(k, n.st, b, a);
    LeaderLaws.SweepAt(sw, b.anns, a);
    LeaderLaws.AnnKeys(b.anns, a);
    assert CommitNode(k, n, b).st == st && CommitOut(k, n, b).gone == gone;
    assert CommitOut(k, n, b).nss == CollectGains(st, recorded, gone, b.anns).nss;
    assert gone == HandleAnns(sw, b.anns).gone && Recorded(recorded, gone, b.anns);
    assert a in gone ==> Listed(b.anns, a);
    hide ApplyBlock, BlockOut, CommitNode, CommitOut, Swept, HandleAnns, RouteIn, OwnIn, PaidAt, AnnMap, Mig1Map;
    hide BlockKnown, Listed, CollectGains;
    GainsAt(st, recorded, gone, b.anns, a);
    GainsOnce(st, recorded, gone, b.anns);
    GoneAsAnnounced(sw, recorded, b.anns, a);
    hide Recorded;
  }

  // ----- a block that fits can commit -----

  // An account handed over by shard k has two live copies, and its balance is recorded.
  lemma GoneIsBoth(s: Sys, k: int, b: Block, a: Addr)
    requires Inv(s) && BlockFits(s, k, b)
    ensures a in Swept(k, s.nodes[k], b).gone <==>
            a in AnnMap(b.anns) && a in s.phase && s.phase[a].Both? && s.phase[a].home == k
    ensures a in Swept(k, s.nodes[k], b).gone ==>
              AnnMap(b.anns)[a] == s.phase[a].dest == Swept(k, s.nodes[k], b).gone[a] && a in s.nodes[k].before
  {
    var n := s.nodes[k];
    var sw := Sweep(RouteIn(k, n.table, b.mig2s), OwnIn(n.own, b.mig2s), map[]);
    LeaderLaws.SweepAt(sw, b.anns, a);
    LeaderLaws.RouteInAt(k, n.table, n.own, b.mig2s, a);
    if a in AnnMap(b.anns) {
      LeaderLaws.AnnTo(b.anns, a);
      assert n.st.Keys == s.phase.Keys && a in n.st;
      BlockKind(s, k, b, a);
      assert Booked(s, a) && PlaceOk(n, k, s.phase[a], a);
      if a in Swept(k, n, b).gone {
        AnnsSame(s, k, b, a);
        GoneTo(sw, b.anns, a, s.phase[a].dest);
      }
    }
  }

  lemma AnnsSame(s: Sys, k: int, b: Block, a: Addr)
    requires Inv(s) && BlockFits(s, k, b) && a in s.phase
    requires s.phase[a].Both? && s.phase[a].home == k
    ensures forall ann | ann in b.anns && ann.addr == a :: ann.to == s.phase[a].dest
  {
    forall ann | ann in b.anns && ann.addr == a ensures ann.to == s.phase[a].dest {
      assert ann in multiset(b.anns);
      assert AnnFitsAt(s, k, ann);
    }
  }

  lemma AnnOnce(s: Sys, k: int, b: Block, i: nat, j: nat)
    requires Inv(s) && BlockFits(s, k, b) && i < j < |b.anns| && b.anns[i].addr in s.phase
           && s.phase[b.anns[i].addr].Both? && s.phase[b.anns[i].addr].home == k
    ensures b.anns[i].addr != b.anns[j].addr
  {
    var a := b.anns[i].addr;
    if b.anns[j].addr == a {
      AnnsSame(s, k, b, a);
      assert b.anns[i] in b.anns && b.anns[j] in b.anns && b.anns[i] in multiset(b.anns);
      assert AnnFitsAt(s, k, b.anns[i]);
      TakenOnce(b.anns, s.pools[k].anns, i, j);
      assert false;
    }
  }

  lemma CommitIsReady(s: Sys, k: int, b: Block)
    requires Inv(s) && BlockFits(s, k, b)
    ensures CommitReady(k, s.nodes[k], b)
    ensures TxsKnown(s.ledger.Keys, b.txs)
  {
    var n := s.nodes[k];
    var gone := Swept(k, n, b).gone;
    forall a | a in gone ensures a in n.st && a in n.before {
      GoneIsBoth(s, k, b, a);
    }
    forall i, j | 0 <= i < j < |b.anns| && b.anns[i].addr in gone ensures b.anns[i].addr != b.anns[j].addr {
      GoneIsBoth(s, k, b, b.anns[i].addr);
      AnnOnce(s, k, b, i, j);
    }
  }

  // ----- what a commit does to one account -----

  // What the payments of a block change about the account's copy in the shard.
  ghost function Delta(k: int, n: Node, b: Block, a: Addr): int
    requires Shaped(b.txs) && a in n.st
  {
    PaidAt(k, n.st[a], b, a) - ArrivedAt(k, n.st[a], b, a).balance
  }

  // Payments change the shard's copy, the relayed payments and the ledger together.
  lemma PaymentsKeepBooks(s: Sys, k: int, b: Block, a: Addr)
    requires Inv(s) && BlockFits(s, k, b) && a in s.phase
    ensures CommitReady(k, s.nodes[k], b) && TxsKnown(s.ledger.Keys, b.txs)
    ensures Shaped(b.txs) && a in s.nodes[k].st && Single(b.txs) && Single(CommitOut(k, s.nodes[k], b).relays)
    ensures var relays' := s.relays - multiset(PaysOf(b.txs, true))
                         + multiset(PaysOf(CommitOut(k, s.nodes[k], b).relays, true));
            Transfers(s.ledger, b.txs)[a] - s.ledger[a] ==
              PaymentLaws.RelayTotal(relays', a) - PaymentLaws.RelayTotal(s.relays, a) + Delta(k, s.nodes[k], b, a)
    ensures ArrivedAt(k, s.nodes[k].st[a], b, a).location != k ==> Delta(k, s.nodes[k], b, a) == 0
  {
    CommitIsReady(s, k, b);
    var n := s.nodes[k];
    KnownIsRouted(k, n, b);
    LeaderLaws.RouteAgreesWithState(k, n, b, a);
    Mig2sAt(k, n.st, b.mig2s, a);
    PaymentLaws.PaymentsBalance(k, Arrived(k, n.st, b), RouteIn(k, n.table, b.mig2s), s.relays, b.txs, s.ledger, a);
  }

  // The balance memory after a commit, and what a departing account has gained.
  lemma MemoryAfter(k: int, n: Node, b: Block, a: Addr)
    requires CommitReady(k, n, b) && a in n.st
    ensures BlockKnown(n.st.Keys, b) && Shaped(b.txs)
    ensures var n', out := CommitNode(k, n, b), CommitOut(k, n, b);
            && n'.st == ApplyBlock(k, n.st, b) && out.gone == Swept(k, n, b).gone
            && (a in n'.before <==> (a in n.before || a in Mig1Map(b.mig1s)) && a !in out.gone)
            && (a in n'.before ==>
                 n'.before[a] == if a in Mig1Map(b.mig1s) then PaidAt(k, n.st[a], b, a) else n.before[a])
            && (a in out.gone && a !in Mig1Map(b.mig1s) ==>
                 a in n'.st && a in n.before && GainOf(out.nss, a, out.gone[a]) == n'.st[a].balance - n.before[a])
  {
    hide BlockKnown, PaidAt, AnnMap, Mig1Map, RouteIn, OwnIn, ApplyBlock, HandleAnns;
    var st, before := ApplyBlock(k, n.st, b), n.before + BlockOut(k, n.st, b);
    var sw := Sweep(RouteIn(k, n.table, b.mig2s), OwnIn(n.own, b.mig2s), map[]);
    BlockAt(k, n.st, b, a);
    LeaderLaws.SweepAt(sw, b.anns, a);
    LeaderLaws.AnnKeys(b.anns, a);
    GoneAsAnnounced(sw, before, b.anns, a);
    if a in Swept(k, n, b).gone {
      GainsSum(st, before, Swept(k, n, b).gone, b.anns, a, Swept(k, n, b).gone[a]);
    }
    GainsAt(st, before, Swept(k, n, b).gone, b.anns, a);
    hide ApplyBlock, BlockOut, HandleAnns, RouteIn, OwnIn, PaidAt, AnnMap, Mig1Map, BlockKnown, Recorded, CollectGains;
  }

  // The one thing that happens to an account, seen from the committing shard: nothing but
  // payments, departure, arrival, retirement of the old copy, or arrival of the change.
  ghost predicate CommitMove(k: int, n: Node, n': Node, p: Phase, p': Phase, a: Addr, delta: int) {
    && a in n.st && a in n'.st
    && var was, now := n.st[a], n'.st[a];
    if p.Asked? && p'.Leaving? then
      && p == Asked(k, p'.dest) && p' == Leaving(k, p.dest, now.balance)
      && now.balance == was.balance + delta
      && now.location == was.location && a in n'.before && n'.before[a] == now.balance
    else if p.Leaving? && p'.Both? then
      && p' == Both(p.home, k, p.snap) && k == p.dest
      && now.balance == p.snap + delta && now.location == k
      && a !in n'.before
    else if p.Both? && p'.Moved? then
      && p.home == k && p' == Moved(p.dest, now.balance - p.snap)
      && now.balance == was.balance + delta && now.location == p.dest && a !in n'.before
    else
      && (if p.Late? && p'.Idle? then p.dest == k && p' == Idle(k) && now.balance == was.balance + p.gain + delta
          else p' == p && now.balance == was.balance + delta)
      && (now.location == k <==> was.location == k)
      && (a in n'.before <==> a in n.before) && (a in n.before ==> n'.before[a] == n.before[a])
  }

  // What a block may hold about an account in a given phase.
  ghost predicate KindOk(k: int, n: Node, b: Block, p: Phase, a: Addr) {
    && PlaceOk(n, k, p, a) && (p.Asked? || p.Leaving? || p.Both? ==> p.home != p.dest)
    && (a in Mig1Map(b.mig1s) ==> p == Asked(k, Mig1Map(b.mig1s)[a]))
    && (a in Mig2Map(b.mig2s) ==> p.Leaving? && p.dest == k && p.snap == Mig2Map(b.mig2s)[a])
    && (a in AnnMap(b.anns) ==> AnnMap(b.anns)[a] != k && AnnFits(p, k, AnnMap(b.anns)[a]))
    && (if exists m :: m in b.nss && m.addr == a then p == Late(k, NSSum(b.nss, a)) else NSSum(b.nss, a) == 0)
    && (a in Swept(k, n, b).gone <==> a in AnnMap(b.anns) && p.Both? && p.home == k)
    && (a in Swept(k, n, b).gone ==> Swept(k, n, b).gone[a] == p.dest == AnnMap(b.anns)[a])
  }

  lemma BlockKindOk(s: Sys, k: int, b: Block, a: Addr)
    requires Inv(s) && BlockFits(s, k, b) && a in s.phase
    ensures KindOk(k, s.nodes[k], b, s.phase[a], a)
  {
    hide Swept, AnnMap, Mig1Map, Mig2Map, NSSum, Mig1sOk, Mig2sOk;
    hide NSsOk, HandsOk, AnnsOk, CountersOk, LeaderLaws.TableAgrees, PaymentsFit, BlockKnown;
    assert a in s.nodes[k].st && Booked(s, a) && PlaceOk(s.nodes[k], k, s.phase[a], a);
    BlockKind(s, k, b, a);
    GoneIsBoth(s, k, b, a);
    hide Inv, BlockFits, AnnFits;
  }

  lemma CommitMoves(k: int, n: Node, b: Block, p: Phase, a: Addr)
    requires CommitReady(k, n, b) && KindOk(k, n, b, p, a)
    ensures BlockKnown(n.st.Keys, b) && Shaped(b.txs) && a in n.st
    ensures CommitMove(k, n, CommitNode(k, n, b), p, PhaseAfter(k, n, b, CommitOut(k, n, b), a, p), a, Delta(k, n, b, a))
    ensures ArrivedAt(k, n.st[a], b, a).location == k <==> Live(p, k) || a in Mig2Map(b.mig2s)
  {
    hide CommitNode, CommitOut, Swept, ApplyBlock, BlockOut, Pays, Sends;
    hide AnnMap, Mig1Map, Mig2Map, NSSum, GainOf, PaidAt;
    MemoryAfter(k, n, b, a);
    BlockAt(k, n.st, b, a);
    hide CommitReady, BlockKnown;
  }

  // Which message of the block makes an account move.
  lemma MoveReasons(k: int, n: Node, b: Block, p: Phase, a: Addr)
    requires CommitReady(k, n, b) && KindOk(k, n, b, p, a)
    ensures var p' := PhaseAfter(k, n, b, CommitOut(k, n, b), a, p);
            && (p.Asked? && p'.Leaving? <==> a in Mig1Map(b.mig1s))
            && (p.Leaving? && p'.Both? <==> a in Mig2Map(b.mig2s))
            && (p.Both? && p'.Moved? <==> a in Swept(k, n, b).gone)
            && (p.Late? && p'.Idle? <==> exists m :: m in b.nss && m.addr == a)
  {
    hide CommitNode, CommitOut, Swept, ApplyBlock, BlockOut, AnnMap, Mig1Map, Mig2Map, NSSum, GainOf;
    MemoryAfter(k, n, b, a);
    BlockAt(k, n.st, b, a);
    hide CommitReady, BlockKnown;
  }

  // A move keeps the copies of an account where its phase says, and adds the payments to
  // what they amount to.
  lemma MoveKeepsPlace(nodes: seq<Node>, k: int, n': Node, p: Phase, p': Phase, a: Addr, delta: int)
    requires Placed(nodes, p, a) && 0 <= k < |nodes| && CommitMove(k, nodes[k], n', p, p', a, delta)
    requires delta == 0 || Live(p, k) || (p.Leaving? && p'.Both?)
    requires p.Late? ==> p'.Late? || p'.Idle?
    ensures Placed(nodes[k := n'], p', a)
    ensures Effective(nodes[k := n'], p', a) == Effective(nodes, p, a) + delta
  {
    var nodes' := nodes[k := n'];
    forall j | 0 <= j < |nodes| ensures PlaceOk(nodes'[j], j, p', a) {
      assert PlaceOk(nodes[j], j, p, a);
    }
  }

  ghost predicate CanCommit(s: Sys, k: int, b: Block) {
    && BlockFits(s, k, b) && CommitReady(k, s.nodes[k], b)
    && TxsKnown(s.ledger.Keys, b.txs)
    && Single(CommitOut(k, s.nodes[k], b).relays)
  }

  ghost predicate IsCommit(s: Sys, k: int, b: Block, s': Sys) {
    CanCommit(s, k, b) && s' == CommitStep(s, k, b)
  }

  // What a commit does to one account, in the whole system.
  ghost predicate BooksMove(s: Sys, k: int, s': Sys, n': Node, a: Addr, delta: int)
    requires a in s.phase && a in s'.phase && a in s.ledger && a in s'.ledger
  {
    var p, p' := s.phase[a], s'.phase[a];
    && 0 <= k < |s.nodes| && s'.nodes == s.nodes[k := n']
    && CommitMove(k, s.nodes[k], n', p, p', a, delta)
    && (delta == 0 || Live(p, k) || (p.Leaving? && p'.Both?))
    && (p.Late? ==> p'.Late? || p'.Idle?)
    && s'.ledger[a] - s.ledger[a] == PaymentLaws.RelayTotal(s'.relays, a) - PaymentLaws.RelayTotal(s.relays, a) + delta
  }

  lemma CommitMovesBooks(s: Sys, k: int, b: Block, s': Sys, a: Addr) returns (delta: int)
    requires Inv(s) && IsCommit(s, k, b, s') && a in s.phase
    ensures a in s'.phase && a in s.ledger && a in s'.ledger && 0 <= k < |s.nodes| == |s'.nodes|
    ensures BooksMove(s, k, s', s'.nodes[k], a, delta)
  {
    hide Transfers, PaysOf, PaymentLaws.RelayTotal, Single, TxsKnown, PaymentsFit, KindOk, PhaseAfter;
    hide Mig1Map, PoolsAfter, HandsOf;
    hide AnnMap, Mig2Map, Swept, BlockKnown, Delta, ArrivedAt;
    hide CommitMove, Booked, LeaderLaws.TableAgrees, Recorded, CommitNode, CommitOut;
    hide Mig1sOk, Mig2sOk, NSsOk, HandsOk, AnnsOk, CountersOk;
    PaymentsKeepBooks(s, k, b, a);
    BlockKindOk(s, k, b, a);
    var n, p := s.nodes[k], s.phase[a];
    CommitMoves(k, n, b, p, a);
    MoveReasons(k, n, b, p, a);
    delta := Delta(k, n, b, a);
    LateStays(k, n, b, p, a);
  }

  lemma LateStays(k: int, n: Node, b: Block, p: Phase, a: Addr)
    requires CommitReady(k, n, b) && KindOk(k, n, b, p, a)
    ensures var p' := PhaseAfter(k, n, b, CommitOut(k, n, b), a, p); p.Late? ==> p'.Late? || p'.Idle?
  {
    hide CommitNode, CommitOut, Swept, ApplyBlock, AnnMap, Mig1Map, Mig2Map, NSSum, GainOf;
    MemoryAfter(k, n, b, a);
  }

  lemma MoveKeepsBooks(s: Sys, k: int, s': Sys, n': Node, a: Addr, delta: int)
    requires a in s.phase && a in s'.phase && a in s.ledger && a in s'.ledger
    requires Booked(s, a) && BooksMove(s, k, s', n', a, delta)
    ensures Booked(s', a)
  {
    hide CommitMove, Live, Placed, Effective;
    MoveKeepsPlace(s.nodes, k, n', s.phase[a], s'.phase[a], a, delta);
  }

  // A committed block keeps the books of every account.
  lemma CommitKeepsBooks(s: Sys, k: int, b: Block, s': Sys, a: Addr)
    requires Inv(s) && IsCommit(s, k, b, s') && a in s.phase
    ensures a in s'.phase && a in s'.ledger && Booked(s', a)
  {
    hide IsCommit, BooksMove, Booked, NodesOk, Mig1sOk, Mig2sOk, NSsOk, HandsOk, AnnsOk, CountersOk;
    var delta := CommitMovesBooks(s, k, b, s', a);
    assert Booked(s, a);
    MoveKeepsBooks(s, k, s', s'.nodes[k], a, delta);
  }
}
