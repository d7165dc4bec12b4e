// The invariant of the migration protocol: where the copies of an account live in each
// phase, which messages are on their way, what the client's counters count, and that all
// copies together stand for one ledger.
module MigrationInv {
  import opened Ledger
  import opened LedgerLaws
  import Leader
  import LeaderLaws
  import opened Migration
  import PaymentLaws

  // ----- one account -----

  // The shards in which an account lives.
  ghost predicate Live(p: Phase, k: int) {
    match p
    case Idle(h) => k == h
    case Asked(h, _) => k == h
    case Leaving(h, _, _) => k == h
    case Both(h, d, _) => k == h || k == d
    case Moved(d, _) => k == d
    case Late(d, _) => k == d
  }

  ghost predicate PhaseOk(p: Phase, n: nat) {
    match p
    case Idle(h) => 0 <= h < n
    case Asked(h, d) => 0 <= h < n && 0 <= d < n && h != d
    case Leaving(h, d, _) => 0 <= h < n && 0 <= d < n && h != d
    case Both(h, d, _) => 0 <= h < n && 0 <= d < n && h != d
    case Moved(d, _) => 0 <= d < n
    case Late(d, gain) => 0 <= d < n && gain != 0
  }

  // The shard that remembers the balance with which the account left.
  ghost predicate HasSnap(p: Phase, k: int) {
    (p.Leaving? || p.Both?) && p.home == k
  }

  ghost predicate PlaceOk(n: Leader.Node, k: int, p: Phase, a: Addr) {
    && a in n.st
    && (n.st[a].location == k <==> Live(p, k))
    && (a in n.before <==> HasSnap(p, k))
    && (HasSnap(p, k) ==> n.before[a] == p.snap)
  }

  ghost predicate Placed(nodes: seq<Leader.Node>, p: Phase, a: Addr) {
    PhaseOk(p, |nodes|) && forall k | 0 <= k < |nodes| :: PlaceOk(nodes[k], k, p, a)
  }

  // What all copies and late changes of an account amount to.
  ghost function Effective(nodes: seq<Leader.Node>, p: Phase, a: Addr): int
    requires Placed(nodes, p, a)
  {
    match p
    case Idle(h) => nodes[h].st[a].balance
    case Asked(h, _) => nodes[h].st[a].balance
    case Leaving(h, _, _) => nodes[h].st[a].balance
    case Both(h, d, snap) => nodes[d].st[a].balance + (nodes[h].st[a].balance - snap)
    case Moved(d, gain) => nodes[d].st[a].balance + gain
    case Late(d, gain) => nodes[d].st[a].balance + gain
  }

  ghost predicate Booked(s: Sys, a: Addr)
    requires a in s.phase && a in s.ledger
  {
    Placed(s.nodes, s.phase[a], a) &&
    Effective(s.nodes, s.phase[a], a) + PaymentLaws.RelayTotal(s.relays, a) == s.ledger[a]
  }

  // ----- messages on their way: each exactly when the phase says so -----

  ghost predicate InPhase(s: Sys, a: Addr, p: Phase) {
    a in s.phase && s.phase[a] == p
  }

  ghost predicate Arriving(s: Sys, k: int, m: Mig2) {
    m.addr in s.phase && s.phase[m.addr].Leaving? && s.phase[m.addr].dest == k && s.phase[m.addr].snap == m.value
  }

  // An announcement at shard k is the one that ends the account's stay there, or news of a
  // move it has made before, for a shard where it neither lives nor is about to arrive.
  ghost predicate AnnFits(p: Phase, k: int, to: int) {
    match p
    case Idle(h) => k != h
    case Asked(h, d) => k != h && k != d
    case Leaving(h, d, _) => k != h && k != d
    case Both(h, d, _) => k != d && (k == h ==> to == d)
    case Moved(d, _) => k != d
    case Late(d, _) => k != d
  }

  ghost predicate Mig1sOk(s: Sys) {
    forall k, m | 0 <= k < |s.pools| ::
      s.pools[k].mig1s[m] == if InPhase(s, m.addr, Asked(k, m.to)) then 1 else 0
  }

  ghost predicate Mig2sOk(s: Sys) {
    forall k, m | 0 <= k < |s.pools| :: s.pools[k].mig2s[m] == if Arriving(s, k, m) then 1 else 0
  }

  ghost predicate NSsOk(s: Sys) {
    forall k, m | 0 <= k < |s.pools| ::
      s.pools[k].nss[m] == if InPhase(s, m.addr, Late(k, m.change)) then 1 else 0
  }

  ghost predicate HandsOk(s: Sys) {
    forall h :: s.hands[h] == if InPhase(s, h.addr, Moved(h.to, h.gain)) then 1 else 0
  }

  ghost predicate AnnFitsAt(s: Sys, k: int, m: Ann) {
    0 <= k < |s.pools| && m in s.pools[k].anns ==>
      && m.to != k && m.addr in s.phase && AnnFits(s.phase[m.addr], k, m.to)
      && (s.phase[m.addr].Both? && s.phase[m.addr].home == k ==> s.pools[k].anns[m] == 1)
  }

  ghost predicate AnnsFit(s: Sys) {
    forall k, m :: AnnFitsAt(s, k, m)
  }

  // The old copy of an account with two copies has its announcement waiting.
  ghost predicate AwaitedAt(s: Sys, a: Addr) {
    a in s.phase && s.phase[a].Both? && 0 <= s.phase[a].home < |s.pools| ==>
      Ann(a, s.phase[a].dest) in s.pools[s.phase[a].home].anns
  }

  ghost predicate Awaited(s: Sys) {
    forall a :: AwaitedAt(s, a)
  }

  ghost predicate AnnsOk(s: Sys) {
    AnnsFit(s) && Awaited(s)
  }

  // ----- the client's counters -----

  ghost predicate Unsettled(p: Phase) {
    p.Asked? || p.Leaving? || p.Both? || (p.Moved? && p.gain != 0) || p.Late?
  }

  ghost predicate Unarrived(p: Phase) {
    p.Asked? || p.Leaving? || p.Both? || p.Moved?
  }

  ghost function UnsettledSet(s: Sys): set<Addr> {
    set a | a in s.phase && Unsettled(s.phase[a])
  }

  ghost function UnarrivedSet(s: Sys): set<Addr> {
    set a | a in s.phase && Unarrived(s.phase[a])
  }

  ghost function ReportTotal(rs: multiset<Report>, settled: bool): nat {
    if rs == multiset{} then 0
    else
      var r :| r in rs;
      ReportTotal(rs - multiset{r}, settled) + if r.Settled? == settled then r.n else 0
  }

  // Each counter counts the accounts still on their way, those reported but not yet taken
  // into account, and those that will never be on their way.
  ghost predicate CountersOk(s: Sys) {
    if s.collecting then
      && s.unsettled == 1 && s.unarrived == 1 && s.unasked == 0
      && UnsettledSet(s) == {} && UnarrivedSet(s) == {}
      && ReportTotal(s.reports, true) == 0 && ReportTotal(s.reports, false) == 0
    else
      && s.unsettled == |UnsettledSet(s)| + ReportTotal(s.reports, true) + s.unasked
      && s.unarrived == |UnarrivedSet(s)| + ReportTotal(s.reports, false) + s.unasked
  }

  ghost predicate NodesOk(s: Sys) {
    && |s.nodes| == |s.pools| && s.phase.Keys == s.ledger.Keys
    && forall k | 0 <= k < |s.nodes| :: LeaderLaws.TableAgrees(k, s.nodes[k]) && s.nodes[k].st.Keys == s.ledger.Keys
  }

  ghost predicate AllBooked(s: Sys) {
    forall a | a in s.phase && a in s.ledger :: Booked(s, a)
  }

  ghost predicate Inv(s: Sys) {
    && NodesOk(s) && AllBooked(s)
    && Mig1sOk(s) && Mig2sOk(s) && NSsOk(s) && HandsOk(s) && AnnsOk(s)
    && CountersOk(s)
  }

  // ----- what a block can hold about an account -----

  // No list taken from a pool with single copies names a message twice.
  lemma TakenOnce<T>(ms: seq<T>, pool: multiset<T>, i: nat, j: nat)
    requires multiset(ms) <= pool && i < j < |ms| && ms[i] == ms[j]
    ensures pool[ms[i]] >= 2
  {
    assert ms == ms[..i] + [ms[i]] + ms[i + 1..j] + [ms[j]] + ms[j + 1..];
  }

  lemma {:induction false} Mig1In(ms: seq<Mig1>, a: Addr)
    ensures a in Mig1Map(ms) ==> Mig1(a, Mig1Map(ms)[a]) in ms
    ensures a !in Mig1Map(ms) ==> forall m | m in ms :: m.addr != a
  {
    if ms != [] {
      Mig1In(ms[..|ms| - 1], a);
      assert forall m | m in ms :: m in ms[..|ms| - 1] || m == ms[|ms| - 1];
    }
  }

  lemma {:induction false} Mig2In(ms: seq<Mig2>, a: Addr)
    ensures a in Mig2Map(ms) ==> Mig2(a, Mig2Map(ms)[a]) in ms
    ensures a !in Mig2Map(ms) ==> forall m | m in ms :: m.addr != a
  {
    if ms != [] {
      Mig2In(ms[..|ms| - 1], a);
      assert forall m | m in ms :: m in ms[..|ms| - 1] || m == ms[|ms| - 1];
    }
  }

  lemma {:induction false} NSSumNone(ms: seq<NS>, a: Addr)
    requires forall m | m in ms :: m.addr != a
    ensures NSSum(ms, a) == 0
  {
    if ms != [] {
      NSSumNone(ms[..|ms| - 1], a);
      assert ms[|ms| - 1] in ms;
    }
  }

  lemma NSSumOnce(ms: seq<NS>, pool: multiset<NS>, a: Addr, m: NS)
    requires multiset(ms) <= pool && pool[m] == 1 && m in ms && m.addr == a
    requires forall x | x in pool && x.addr == a :: x == m
    ensures NSSum(ms, a) == m.change
  {
    var i :| 0 <= i < |ms| && ms[i] == m;
    forall j | 0 <= j < |ms| && ms[j].addr == a ensures j == i {
      assert ms[j] in multiset(ms);
      if j < i { TakenOnce(ms, pool, j, i); }
      if i < j { TakenOnce(ms, pool, i, j); }
    }
    NSSumAt(ms, a, i, |ms|);
    assert ms[..|ms|] == ms;
  }

  lemma {:induction false} NSSumAt(ms: seq<NS>, a: Addr, i: nat, n: nat)
    requires i < |ms| && n <= |ms| && ms[i].addr == a
    requires forall j | 0 <= j < |ms| && ms[j].addr == a :: j == i
    ensures NSSum(ms[..n], a) == if i < n then ms[i].change else 0
  {
    if n > 0 {
      NSSumAt(ms, a, i, n - 1);
      assert ms[..n][..n - 1] == ms[..n - 1];
    }
  }

  // The one thing a block does about an account's migration.
  lemma BlockKind(s: Sys, k: int, b: Block, a: Addr)
    requires Inv(s) && BlockFits(s, k, b) && a in s.phase
    ensures a in Mig1Map(b.mig1s) ==> s.phase[a] == Asked(k, Mig1Map(b.mig1s)[a])
    ensures a in Mig2Map(b.mig2s) ==> Arriving(s, k, Mig2(a, Mig2Map(b.mig2s)[a]))
    ensures a in AnnMap(b.anns) ==> AnnMap(b.anns)[a] != k && AnnFits(s.phase[a], k, AnnMap(b.anns)[a])
    ensures (exists m :: m in b.nss && m.addr == a) ==> s.phase[a] == Late(k, NSSum(b.nss, a))
    ensures !(exists m :: m in b.nss && m.addr == a) ==> NSSum(b.nss, a) == 0
  {
    hide NodesOk, AllBooked, CountersOk, HandsOk, BlockKnown, PaymentsFit, Mig1Map, Mig2Map, AnnMap, NSSum, AnnFits;
    Mig1In(b.mig1s, a);
    Mig2In(b.mig2s, a);
    if a in Mig1Map(b.mig1s) {
      assert Mig1(a, Mig1Map(b.mig1s)[a]) in multiset(b.mig1s);
    }
    if a in Mig2Map(b.mig2s) {
      assert Mig2(a, Mig2Map(b.mig2s)[a]) in multiset(b.mig2s);
    }
    if a in AnnMap(b.anns) {
      LeaderLaws.AnnTo(b.anns, a);
      assert Ann(a, AnnMap(b.anns)[a]) in multiset(b.anns);
      assert AnnFitsAt(s, k, Ann(a, AnnMap(b.anns)[a]));
    }
    if m :| m in b.nss && m.addr == a {
      assert m in multiset(b.nss);
      NSSumOnce(b.nss, s.pools[k].nss, a, m);
    } else {
      NSSumNone(b.nss, a);
    }
  }
}
