// What the migration protocol needs from its surroundings, exactly: where a payment may be
// executed, which announcements a shard can still process, and which new maps lead to one
// that it cannot.
module MigrationGuards {
  import opened Ledger
  import LedgerLaws
  import opened Leader
  import opened LeaderLaws
  import opened Migration
  import PaymentLaws
  import opened MigrationInv
  import MigrationPools
  import MigrationSteps
  import opened MigrationRuns
  import opened MigrationProgress
  import opened MigrationGate

  // ----- payments -----

  // How far the books of an account get out of balance when shard k executes one payment:
  // what its copy there and the relayed payments on their way to it gain, beyond what the
  // one ledger says.
  ghost function Drift(k: int, st: State, table: map<Addr, int>, l: map<Addr, int>, tx: Tx, a: Addr): int
    requires Single([tx]) && TxsKnown(st.Keys, [tx]) && l.Keys == st.Keys && a in st
    requires AllRouted(table, [tx]) && Single(RelayList(k, table, [tx]))
  {
    (if st[a].location == k then ApplyTxs(k, st, [tx])[a].balance - st[a].balance else 0)
    + LedgerLaws.PaySum(PaysOf(RelayList(k, table, [tx]), true), a) - LedgerLaws.PaySum(PaysOf([tx], true), a)
    - (Transfers(l, [tx])[a] - l[a])
  }

  lemma DriftAt(k: int, st: State, table: map<Addr, int>, l: map<Addr, int>, tx: Tx, a: Addr)
    requires |tx.recipients| == |tx.values| == 1 && TxsKnown(st.Keys, [tx]) && l.Keys == st.Keys && a in st
    requires AllRouted(table, [tx]) && forall x | x in st :: x in table && table[x] == st[x].location
    ensures Single([tx]) && Single(RelayList(k, table, [tx])) && tx.recipients[0] in st
    ensures tx.isRelay || tx.sender in st
    ensures Drift(k, st, table, l, tx, a) ==
              if tx.isRelay then if a == tx.recipients[0] && st[a].location != k then -tx.values[0] else 0
              else if a == tx.sender && st[a].location != k then tx.values[0] else 0
  {
    assert tx in [tx] && TxKnown(st.Keys, tx);
    assert tx.recipients[0] in tx.recipients;
    PaymentLaws.RelayedOut(k, table, [tx], a);
    PaymentLaws.TransfersAt(l, [tx], a);
    LedgerLaws.TxsAt(k, st, [tx], a);
    PaymentLaws.OneTx(tx, a);
    assert [tx][..0] == [];
    PaymentLaws.PaysOfStep([tx], true, a);
    PaymentLaws.PaysOfStep([tx], false, a);
    assert LedgerLaws.Pays([tx], a) == LedgerLaws.TxPays(tx, 1, a);
    assert LedgerLaws.Sends([tx], a) == LedgerLaws.TxSends(tx, 1, a);
  }

  // Executing a payment keeps the books of every account exactly when a fresh payment runs
  // where its sender lives, a relayed one where its recipient lives, or nothing is paid.
  lemma PaymentIsExact(k: int, st: State, table: map<Addr, int>, l: map<Addr, int>, tx: Tx)
    requires |tx.recipients| == |tx.values| == 1 && TxsKnown(st.Keys, [tx]) && l.Keys == st.Keys
    requires AllRouted(table, [tx]) && forall x | x in st :: x in table && table[x] == st[x].location
    ensures Single([tx]) && Single(RelayList(k, table, [tx]))
    ensures tx.recipients[0] in st && (tx.isRelay || tx.sender in st)
    ensures (forall a | a in st :: Drift(k, st, table, l, tx, a) == 0) <==>
              tx.values[0] == 0 || (if tx.isRelay then st[tx.recipients[0]].location == k else st[tx.sender].location == k)
  {
    assert tx in [tx] && TxKnown(st.Keys, tx);
    assert tx.recipients[0] in tx.recipients;
    var who := if tx.isRelay then tx.recipients[0] else tx.sender;
    DriftAt(k, st, table, l, tx, who);
    hide Drift, AllRouted, TxsKnown;
    assert Drift(k, st, table, l, tx, who) ==
           if st[who].location == k then 0 else if tx.isRelay then -tx.values[0] else tx.values[0];
    if tx.values[0] == 0 || st[who].location == k {
      forall a | a in st ensures Drift(k, st, table, l, tx, a) == 0 {
        DriftAt(k, st, table, l, tx, a);
      }
    }
  }

  // ----- announcements -----

  ghost function News(ann: Ann): Block {
    Block([], [], [], [ann], [])
  }

  // A shard can process an announcement exactly when the account does not live there, or
  // the balance with which it was sent away is still remembered.
  lemma NewsNeedsMemory(k: int, n: Node, ann: Ann)
    requires TableAgrees(k, n) && ann.addr in n.st
    ensures CommitReady(k, n, News(ann)) <==> n.st[ann.addr].location != k || ann.addr in n.before
  {
    var b := News(ann);
    assert [ann][..0] == [];
    assert HandleAnns(Sweep(n.table, n.own, map[]), [ann][..0]) == Sweep(n.table, n.own, map[]);
    assert Swept(k, n, b).gone == if ann.addr in n.own then map[ann.addr := ann.to] else map[];
    assert BlockOut(k, n.st, b) == map[];
    assert ann in b.anns;
  }

  // An old announcement of an account that has meanwhile arrived at this shard cannot be
  // processed.
  lemma StaleNewsStops(k: int, n: Node, a: Addr, value: int, to: int)
    requires TableAgrees(k, n) && a in n.st && a !in n.before
    ensures var b := Only([], [Mig2(a, value)], [], []);
            && CommitReady(k, n, b) && CommitNode(k, n, b).st.Keys == n.st.Keys
            && !CommitReady(k, CommitNode(k, n, b), News(Ann(a, to)))
  {
    var b := Only([], [Mig2(a, value)], [], []);
    assert BlockOut(k, n.st, b) == map[];
    assert Swept(k, n, b).gone == map[];
    CommitKeepsTable(k, n, b);
    LedgerLaws.BlockAt(k, n.st, b, a);
    Mig2Keys(b.mig2s, a);
    var n' := CommitNode(k, n, b);
    assert b.mig2s[0] == Mig2(a, value) && a in LedgerLaws.Mig2Map(b.mig2s);
    NewsNeedsMemory(k, n', Ann(a, to));
  }

  // ----- the round that does not wait -----

  // A block without payments and announcements needs nothing but its messages.
  lemma QuietCanCommit(s: Sys, k: int, b: Block)
    requires BlockFits(s, k, b) && TableAgrees(k, s.nodes[k]) && b.txs == [] && b.anns == []
    ensures Enabled(s, Commit(k, b)) && CommitReady(k, s.nodes[k], b)
    ensures Next(s, Commit(k, b)).nodes == s.nodes[k := CommitNode(k, s.nodes[k], b)]
  {
    var n := s.nodes[k];
    hide PaymentsFit, PaysOf, RouteIn, OwnIn, CollectGains, PoolsAfter, PhaseAfter, HandsOf, CommitNode, Transfers;
    assert Swept(k, n, b).gone == map[];
    assert CommitOut(k, n, b).relays == [];
  }

  lemma DepartureFor(left: map<Addr, int>, a: Addr, k: int)
    requires a in left
    ensures For(Departures(left, [Mig1(a, k)]), k) == [Mig2(a, left[a])]
  {
    var ds := Departures(left, [Mig1(a, k)]);
    assert ds == [SentMig2(k, Mig2(a, left[a]))] && ds[..0] == [];
  }

  // A departure leaves the destination and its announcements alone, and reaches it.
  lemma DepartureStep(s: Sys, h: int, a: Addr, k: int) returns (t: Sys, value: int)
    requires NodesOk(s) && 0 <= h < |s.nodes| && 0 <= k < |s.nodes| && h != k && a in s.phase
    requires Mig1(a, k) in s.pools[h].mig1s
    ensures var e := Commit(h, Only([Mig1(a, k)], [], [], [])); Enabled(s, e) && t == Next(s, e)
    ensures |t.pools| == |t.nodes| == |s.nodes| && t.nodes[k] == s.nodes[k] && t.phase.Keys == s.phase.Keys
    ensures Mig2(a, value) in t.pools[k].mig2s && s.pools[k].anns <= t.pools[k].anns
  {
    var b := Only([Mig1(a, k)], [], [], []);
    OneIn(Mig1(a, k), s.pools[h].mig1s);
    assert s.nodes[h].st.Keys == s.phase.Keys && TableAgrees(h, s.nodes[h]);
    hide NodesOk, TableAgrees;
    QuietBlockFits(s, h, b);
    QuietCanCommit(s, h, b);
    t := Next(s, Commit(h, b));
    KeysStep(s, Commit(h, b));
    CommitKeepsNews(s, h, b, k);
    More(s.pools[k].anns, multiset(Announcements(h, b.mig2s)));
    value := Departs(s, h, a, k);
  }

  lemma Departs(s: Sys, h: int, a: Addr, k: int) returns (value: int)
    requires var e := Commit(h, Only([Mig1(a, k)], [], [], [])); Enabled(s, e)
    requires 0 <= k < |s.pools| && h != k
    ensures var e := Commit(h, Only([Mig1(a, k)], [], [], []));
            |Next(s, e).pools| == |s.pools| && Mig2(a, value) in Next(s, e).pools[k].mig2s
  {
    var b := Only([Mig1(a, k)], [], [], []);
    var t := Next(s, Commit(h, b));
    MigrationPools.CommitParts(s, h, b, t);
    var out, left := MigrationPools.OutOf(s, h, b), MigrationPools.LeftOf(s, h, b);
    hide Enabled, Next, MigrationPools.OutOf, MigrationPools.LeftOf, Departures, For;
    assert t.pools[k] == PoolsAfter(s, h, b, out, k);
    assert Mig1(a, k) in b.mig1s;
    value := left[a];
    DepartureFor(left, a, k);
  }

  // The arrival leaves the announcements where they are.
  lemma ArrivalStep(s: Sys, k: int, a: Addr, value: int, m: Ann) returns (t: Sys)
    requires 0 <= k < |s.nodes| == |s.pools| && s.nodes[k].st.Keys == s.phase.Keys && TableAgrees(k, s.nodes[k])
    requires a in s.phase && a !in s.nodes[k].before && Mig2(a, value) in s.pools[k].mig2s
    requires m in s.pools[k].anns && m.addr == a
    ensures var e := Commit(k, Only([], [Mig2(a, value)], [], [])); Enabled(s, e) && t == Next(s, e)
    ensures BlockFits(t, k, News(m)) && !CommitReady(k, t.nodes[k], News(m))
  {
    var b := Only([], [Mig2(a, value)], [], []);
    OneIn(Mig2(a, value), s.pools[k].mig2s);
    StaleNewsStops(k, s.nodes[k], a, value, m.to);
    assert m == Ann(a, m.to);
    hide CommitReady, TableAgrees;
    QuietBlockFits(s, k, b);
    QuietCanCommit(s, k, b);
    t := Next(s, Commit(k, b));
    KeysStep(s, Commit(k, b));
    CommitKeepsNews(s, k, b, k);
    hide BlockFits, Enabled, Next, CommitNode, Announcements;
    assert t.pools[k].anns == s.pools[k].anns;
    OneIn(m, t.pools[k].anns);
    QuietBlockFits(t, k, News(m));
  }

  // An account listed for a shard where an announcement about it is queued can bring the
  // shard to that announcement.
  lemma RoundFails(s: Sys, moves: map<Addr, int>, k: int, m: Ann) returns (es: seq<Event>, t: Sys)
    requires Inv(s) && MapFits(s, moves) && 0 <= k < |s.pools| == |s.nodes|
    requires m in s.pools[k].anns && m.addr in moves && moves[m.addr] == k
    ensures Run(MapStep(s, moves), es, t) && Plain(es)
    ensures BlockFits(t, k, News(m)) && !CommitReady(k, t.nodes[k], News(m))
  {
    hide *;
    var a, s1 := m.addr, MapStep(s, moves);
    var h := LeavesFrom(s, moves, k, m);
    var e1 := Commit(h, Only([Mig1(a, k)], [], [], []));
    var s2, value := DepartureStep(s1, h, a, k);
    var e2 := Commit(k, Only([], [Mig2(a, value)], [], []));
    t := ArrivalStep(s2, k, a, value, m);
    es := TwoSteps(s1, e1, s2, e2, t);
  }

  lemma TwoSteps(s: Sys, e: Event, s': Sys, e': Event, t: Sys) returns (es: seq<Event>)
    requires Enabled(s, e) && s' == Next(s, e) && Enabled(s', e') && t == Next(s', e')
    ensures Run(s, es, t) && es == [e, e']
    ensures e.Commit? && e'.Commit? ==> Plain(es)
  {
    hide Enabled, Next, Run;
    OneStep(s, e);
    OneStep(s', e');
    RunsChain(s, [e], s', [e'], t);
    es := [e] + [e'];
  }

  lemma LeavesFrom(s: Sys, moves: map<Addr, int>, k: int, m: Ann) returns (h: int)
    requires Inv(s) && MapFits(s, moves) && 0 <= k < |s.pools| == |s.nodes|
    requires m in s.pools[k].anns && m.addr in moves && moves[m.addr] == k
    ensures var t := MapStep(s, moves);
            && NodesOk(t) && 0 <= h < |t.nodes| && h != k && 0 <= k < |t.nodes| == |t.pools| && m.addr in t.phase
            && t.nodes[k].st.Keys == t.phase.Keys && TableAgrees(k, t.nodes[k])
            && Mig1(m.addr, k) in t.pools[h].mig1s && m in t.pools[k].anns && m.addr !in t.nodes[k].before
  {
    assert s.collecting;
    hide *;
    MapNodes(s, moves, k);
    h := LivesElsewhere(s, k, m);
    AskedAt(s, moves, m.addr, h);
  }

  lemma MapNodes(s: Sys, moves: map<Addr, int>, k: int)
    requires Inv(s) && 0 <= k < |s.pools| == |s.nodes|
    ensures var t := MapStep(s, moves);
            && NodesOk(t) && t.nodes == s.nodes && t.phase.Keys == s.phase.Keys && |t.pools| == |s.pools|
            && t.nodes[k].st.Keys == t.phase.Keys && TableAgrees(k, t.nodes[k]) && t.pools[k].anns == s.pools[k].anns
  {
    hide AllBooked, Mig1sOk, Mig2sOk, NSsOk, HandsOk, TableAgrees, AnnsOk, CountersOk, Requests;
  }

  // An account in the collecting time lives in one shard, and news of it waits elsewhere.
  lemma LivesElsewhere(s: Sys, k: int, m: Ann) returns (h: int)
    requires Inv(s) && s.collecting && 0 <= k < |s.pools| == |s.nodes| && m in s.pools[k].anns
    ensures m.addr in s.phase && s.phase[m.addr] == Idle(h) && h != k && 0 <= h < |s.nodes|
    ensures m.addr !in s.nodes[k].before
  {
    var a := m.addr;
    assert AnnFitsAt(s, k, m);
    MigrationSteps.CollectingIsIdle(s, a);
    hide Mig1sOk, Mig2sOk, NSsOk, HandsOk, AnnsOk, TableAgrees, CountersOk;
    assert Booked(s, a) && PlaceOk(s.nodes[k], k, s.phase[a], a);
    MigrationSteps.HomeInRange(s, a);
    h := s.phase[a].home;
  }

  lemma AskedAt(s: Sys, moves: map<Addr, int>, a: Addr, h: int)
    requires Inv(s) && MapFits(s, moves) && a in s.phase && a in moves && |s.pools| == |s.nodes|
    requires s.phase[a] == Idle(h) && h != moves[a] && 0 <= h < |s.pools|
    ensures |MapStep(s, moves).pools| == |s.pools| && Mig1(a, moves[a]) in MapStep(s, moves).pools[h].mig1s
  {
    MigrationSteps.MapMig1s(s, moves, h, Mig1(a, moves[a]));
    hide Inv, MapFits;
  }

  // Whatever happens before the next round, every block of pooled messages and fitting
  // payments can commit.
  ghost predicate Smooth(s: Sys) {
    forall es, t, k, b | Run(s, es, t) && Plain(es) && BlockFits(t, k, b) :: CommitReady(k, t.nodes[k], b)
  }

  // For any map the client sends in any state a run reaches: the round goes smoothly if and
  // only if no listed account goes to a shard whose pool still holds news of it.
  lemma RoundIsSmooth(s: Sys, done: seq<Event>, t: Sys, moves: map<Addr, int>)
    requires Genesis(s) && Run(s, done, t) && Patient(s, done) && MapFits(t, moves) && |t.nodes| == |t.pools|
    ensures Smooth(MapStep(t, moves)) <==> Waits(t, moves)
  {
    GenesisInv(s);
    RunKeepsInv(s, done, t);
    hide Genesis, Inv, Patient, Run, MapStep, MapFits, Plain, BlockFits, CommitReady;
    if Waits(t, moves) {
      MigrationSteps.MapKeepsInv(t, moves);
      forall es, u, k, b | Run(MapStep(t, moves), es, u) && Plain(es) && BlockFits(u, k, b)
        ensures CommitReady(k, u.nodes[k], b)
      {
        PlainRun(MapStep(t, moves), es, u);
        RunKeepsInv(MapStep(t, moves), es, u);
        MigrationPools.BlockCanCommit(u, k, b);
      }
    } else {
      var k, m :| 0 <= k < |t.pools| && m in t.pools[k].anns && m.addr in moves && moves[m.addr] == k;
      var es, u := RoundFails(t, moves, k, m);
    }
  }

  // ----- the gate opens too early -----

  // With three shards or more, any account can go to a second one, come to rest there with
  // both counters at zero, and be sent on to a third one, which then cannot process the old
  // announcement of the first move.
  lemma GateOpensTooEarly(s: Sys, a: Addr, d: int, k: int) returns (es: seq<Event>, rest: Sys, more: seq<Event>, t: Sys)
    requires Genesis(s) && a in s.phase && 0 <= d < |s.nodes| && 0 <= k < |s.nodes|
    requires s.phase[a].home != d && s.phase[a].home != k && d != k
    ensures Run(s, es, rest) && Patient(s, es) && RoundOpen(rest) && a in rest.phase && rest.phase[a] == Idle(d)
    ensures Run(rest, more, t) && BlockFits(t, k, News(Ann(a, d))) && !CommitReady(k, t.nodes[k], News(Ann(a, d)))
  {
    hide *;
    var s1 := FirstRound(s, a, d);
    var es1, s2 := CanRest(s1, a, d, k);
    PlainRun(s1, es1, s2);
    es, rest := [Want, NewMap(map[a := d])] + es1, s2;
    RunsChain(s, [Want, NewMap(map[a := d])], s1, es1, s2);
    more, t := NextRound(s2, a, d, k);
  }

  // One account in the first of three shards goes to the second, then to the third.
  lemma ThreeShardsFail() returns (s: Sys, es: seq<Event>, t: Sys)
    ensures Genesis(s) && |s.nodes| == 3 && s.phase == map["a" := Idle(0)]
    ensures Run(s, es, t) && BlockFits(t, 2, News(Ann("a", 1))) && !CommitReady(2, t.nodes[2], News(Ann("a", 1)))
  {
    s := ThreeShards();
    GenesisThree();
    hide *;
    var first, rest, more;
    first, rest, more, t := GateOpensTooEarly(s, "a", 1, 2);
    RunsChain(s, first, rest, more, t);
    es := first + more;
  }

  function NoPools(): Pools {
    Pools(multiset{}, multiset{}, multiset{}, multiset{})
  }

  function ShardWith(own: set<Addr>): Node {
    Node(map["a" := Account(10, -1, 0)], map["a" := 0], own, map[])
  }

  function ThreeShards(): Sys {
    Sys([ShardWith({"a"}), ShardWith({}), ShardWith({})], [NoPools(), NoPools(), NoPools()],
        multiset{}, multiset{}, multiset{}, 0, 0, false, map["a" := 10], map["a" := Idle(0)], 0)
  }

  lemma ShardAgrees(k: int)
    ensures LeaderLaws.TableAgrees(k, ShardWith(if k == 0 then {"a"} else {}))
    ensures ShardWith({}).st == ShardWith({"a"}).st == map["a" := Account(10, -1, 0)]
    ensures ShardWith({}).before == ShardWith({"a"}).before == map[]
  {
  }

  lemma GenesisThree()
    ensures Genesis(ThreeShards()) && |ThreeShards().nodes| == 3 && ThreeShards().phase == map["a" := Idle(0)]
  {
    var s := ThreeShards();
    ShardAgrees(0);
    ShardAgrees(1);
    ShardAgrees(2);
    hide ShardWith, LeaderLaws.TableAgrees;
    assert forall k | 0 <= k < 3 :: LeaderLaws.TableAgrees(k, s.nodes[k]) && s.nodes[k].st.Keys == {"a"} == s.ledger.Keys;
    assert NodesOk(s);
    hide NodesOk;
  }

  // The round that moves one account.
  lemma FirstRound(s: Sys, a: Addr, d: int) returns (t: Sys)
    requires Genesis(s) && a in s.phase && 0 <= d < |s.nodes| && s.phase[a].home != d
    ensures var es := [Want, NewMap(map[a := d])]; Run(s, es, t) && Patient(s, es)
    ensures Inv(t) && a in t.phase && t.phase[a] == Asked(s.phase[a].home, d) && t.unasked == 0 && !t.collecting
    ensures |t.pools| == |s.nodes| && forall x | x in t.phase && x != a :: t.phase[x].Idle?
  {
    var moves := map[a := d];
    t := MapStep(WantStep(s), moves);
    GenesisShape(s);
    FirstMap(s, a, d);
    hide *;
    GenesisInv(s);
    MigrationSteps.WantKeepsInv(s);
    MigrationSteps.MapKeepsInv(WantStep(s), moves);
    WantAndMap(s, moves);
  }

  lemma FirstMap(s: Sys, a: Addr, d: int)
    requires |s.nodes| == |s.pools| && a in s.phase && 0 <= d < |s.nodes| && s.phase[a].Idle? && s.phase[a].home != d
    requires forall k | 0 <= k < |s.pools| :: s.pools[k].anns == multiset{}
    requires forall x | x in s.phase :: s.phase[x].Idle?
    ensures var moves, t := map[a := d], MapStep(WantStep(s), map[a := d]);
            && MapFits(WantStep(s), moves) && Waits(WantStep(s), moves)
            && a in t.phase && t.phase[a] == Asked(s.phase[a].home, d) && t.unasked == 0 && !t.collecting
            && |t.pools| == |s.nodes| && forall x | x in t.phase && x != a :: t.phase[x].Idle?
  {
    assert Staying(WantStep(s), map[a := d]) == {};
  }

  lemma GenesisShape(s: Sys)
    requires Genesis(s)
    ensures |s.nodes| == |s.pools| && RoundOpen(s)
    ensures forall k | 0 <= k < |s.pools| :: s.pools[k].anns == multiset{}
    ensures forall a | a in s.phase :: s.phase[a].Idle?
  {
  }

  lemma WantAndMap(s: Sys, moves: map<Addr, int>)
    requires RoundOpen(s) && |s.nodes| == |s.pools| && MapFits(WantStep(s), moves)
    ensures Run(s, [Want, NewMap(moves)], MapStep(WantStep(s), moves))
    ensures Waits(WantStep(s), moves) ==> Patient(s, [Want, NewMap(moves)])
  {
    var s1 := WantStep(s);
    hide MapFits, Waits, RoundOpen, MapStep;
    assert Enabled(s1, NewMap(moves));
    OneStep(s, Want);
    OneStep(s1, NewMap(moves));
    hide Run, Patient, WantStep, Enabled, Next;
    RunsChain(s, [Want], s1, [NewMap(moves)], MapStep(s1, moves));
    assert [Want] + [NewMap(moves)] == [Want, NewMap(moves)];
  }

  // The account comes to rest, and the news of its arrival stays behind.
  lemma CanRest(s: Sys, a: Addr, d: int, k: int) returns (es: seq<Event>, t: Sys)
    requires Inv(s) && a in s.phase && s.phase[a].Asked? && s.phase[a].dest == d && s.unasked == 0 && !s.collecting
    requires forall x | x in s.phase && x != a :: s.phase[x].Idle?
    requires 0 <= k < |s.pools| && k != d && k != s.phase[a].home
    ensures Run(s, es, t) && Plain(es) && Inv(t) && RoundOpen(t) && a in t.phase && t.phase[a] == Idle(d)
    ensures |t.pools| == |s.pools| && Ann(a, d) in t.pools[k].anns
  {
    hide Inv, Run, RoundOpen, Plain;
    var es1, s1 := CanArrive(s, a);
    KeysStay(s, es1, s1);
    var es2;
    es2, t := TellAll(s1);
    es := es1 + es2;
    RunsChain(s, es1, s1, es2, t);
    PlainChain(es1, es2);
    PlainRun(s, es, t);
    assert Third(s.phase[a], k);
    assert CountersOk(t) by { InvParts(t); }
    assert Travelling(t) == {};
    hide Travelling, CountersOk;
    QuietIsOpen(t);
  }

  // The gate is open, and the account goes on to a shard that still has news of its move.
  lemma NextRound(s: Sys, a: Addr, d: int, k: int) returns (es: seq<Event>, t: Sys)
    requires Inv(s) && RoundOpen(s) && a in s.phase && 0 <= k < |s.pools| && Ann(a, d) in s.pools[k].anns
    ensures Run(s, es, t) && BlockFits(t, k, News(Ann(a, d))) && !CommitReady(k, t.nodes[k], News(Ann(a, d)))
  {
    var moves := map[a := k];
    var s1 := WantStep(s);
    assert MapFits(s1, moves) && |s.nodes| == |s.pools| by { InvShape(s); }
    assert s1.pools == s.pools;
    hide *;
    MigrationSteps.WantKeepsInv(s);
    WantAndMap(s, moves);
    var more;
    more, t := RoundFails(s1, moves, k, Ann(a, d));
    es := [Want, NewMap(moves)] + more;
    RunsChain(s, [Want, NewMap(moves)], MapStep(s1, moves), more, t);
  }

  lemma InvShape(s: Sys)
    requires Inv(s)
    ensures |s.nodes| == |s.pools|
  {
  }
}
