// The account-migration protocol between shards: TXmig1 notes a departure and records
// the balance, TXmig2 installs it at the destination, TXann retires the old copy, TXns
// brings over what the old copy gained meanwhile, and the client starts a new round when
// its two counters say that everything has settled. One step is the commit of a block by
// a shard, the delivery of a message, or a decision of the client.
module Migration {
  import opened Ledger
  import LedgerLaws
  import opened Leader

  // What a shard's leader has received and not yet put into a block.
  datatype Pools = Pools(
    mig1s: multiset<Mig1>, mig2s: multiset<Mig2>, anns: multiset<Ann>, nss: multiset<NS>)

  // An account on its way out of handleAnns with what it gained; one message carries
  // any number of them.
  datatype Hand = Hand(addr: Addr, to: int, gain: int)

  // What shards tell the client: accounts whose balance is final (by a TXns in a block, or
  // because nothing was gained), and accounts whose pending payments have arrived.
  datatype Report = Settled(n: nat) | Arrivals(n: nat)

  // How far an account is on its way; a reading of the protocol, not stored anywhere.
  datatype Phase =
    | Idle(home: int)
    | Asked(home: int, dest: int)
    | Leaving(home: int, dest: int, snap: int)   // TXmig1 committed, snap recorded
    | Both(home: int, dest: int, snap: int)      // TXmig2 committed, two live copies
    | Moved(dest: int, gain: int)                // TXann committed, hand-over under way
    | Late(dest: int, gain: int)                 // handed over, TXns waiting

  // unsettled and unarrived are the client's num_of_unfinished_migration and
  // num_of_unfinished_migrated_TXs; collecting, that it waits for the pending payments of
  // all shards. ledger is the one ledger all copies together stand for; unasked counts the
  // accounts a map listed with the shard where they lived already.
  datatype Sys = Sys(
    nodes: seq<Node>,
    pools: seq<Pools>,
    relays: multiset<Payment>,
    hands: multiset<Hand>,
    reports: multiset<Report>,
    unsettled: int,
    unarrived: int,
    collecting: bool,
    ledger: map<Addr, int>,
    phase: map<Addr, Phase>,
    unasked: nat)

  // ----- payments -----

  ghost predicate Single(txs: seq<Tx>) {
    forall tx | tx in txs :: |tx.recipients| == 1 && |tx.values| == 1
  }

  // The relayed payments a list of transactions executes, or sends out.
  ghost function PaysOf(txs: seq<Tx>, relayed: bool): seq<Payment>
    requires Single(txs)
  {
    if txs == [] then []
    else
      var tx := txs[|txs| - 1];
      assert tx in txs;
      PaysOf(txs[..|txs| - 1], relayed) + if tx.isRelay == relayed then [Payment(tx.recipients[0], tx.values[0])] else []
  }

  // The one ledger: a payment that has not been executed before moves its value.
  ghost function Transfers(l: map<Addr, int>, txs: seq<Tx>): (r: map<Addr, int>)
    requires Single(txs) && TxsKnown(l.Keys, txs)
    ensures r.Keys == l.Keys
  {
    if txs == [] then l
    else
      var tx := txs[|txs| - 1];
      assert tx in txs && TxKnown(l.Keys, tx);
      assert TxsKnown(l.Keys, txs[..|txs| - 1]);
      var before := Transfers(l, txs[..|txs| - 1]);
      if tx.isRelay then before
      else
        var paid := before[tx.sender := before[tx.sender] - tx.values[0]];
        assert tx.recipients[0] in tx.recipients;
        paid[tx.recipients[0] := paid[tx.recipients[0]] + tx.values[0]]
  }

  // Payments run where they count: the sender of a fresh payment and the recipient of a
  // relayed one live in the shard, and a relayed payment is one that was sent.
  ghost predicate PaymentsFit(k: int, st: State, relays: multiset<Payment>, txs: seq<Tx>) {
    && Single(txs) && TxsKnown(st.Keys, txs)
    && (forall tx | tx in txs && tx.isRelay :: tx.recipients[0] in st && st[tx.recipients[0]].location == k)
    && (forall tx | tx in txs && !tx.isRelay :: tx.sender in st && st[tx.sender].location == k)
    && multiset(PaysOf(txs, true)) <= relays
  }

  // ----- commit of a block -----

  // A block can commit at shard k: its migration messages come from the pools and its
  // payments fit.
  ghost predicate BlockFits(s: Sys, k: int, b: Block) {
    && 0 <= k < |s.nodes| == |s.pools|
    && multiset(b.mig1s) <= s.pools[k].mig1s
    && multiset(b.mig2s) <= s.pools[k].mig2s
    && multiset(b.anns) <= s.pools[k].anns
    && multiset(b.nss) <= s.pools[k].nss
    && BlockKnown(s.nodes[k].st.Keys, b)
    && PaymentsFit(k, Arrived(k, s.nodes[k].st, b), s.relays, b.txs)
  }

  // The departures addressed to shard j.
  ghost function For(ms: seq<SentMig2>, j: int): seq<Mig2> {
    if ms == [] then []
    else For(ms[..|ms| - 1], j) + if ms[|ms| - 1].to == j then [ms[|ms| - 1].mig] else []
  }

  ghost function PoolsAfter(s: Sys, k: int, b: Block, out: Out, j: int): Pools
    requires 0 <= j < |s.pools|
  {
    var p := s.pools[j];
    Pools(
      if j == k then p.mig1s - multiset(b.mig1s) else p.mig1s,
      (if j == k then p.mig2s - multiset(b.mig2s) else p.mig2s) + multiset(For(out.mig2s, j)),
      if j == k then p.anns - multiset(b.anns) else p.anns + multiset(out.anns),
      if j == k then p.nss - multiset(b.nss) else p.nss)
  }

  // What the changes sent to shard `to` for an account add up to.
  ghost function GainOf(nss: seq<SentNS>, a: Addr, to: int): int {
    if nss == [] then 0
    else
      var m := nss[|nss| - 1];
      GainOf(nss[..|nss| - 1], a, to) + if m.ns.addr == a && m.to == to then m.ns.change else 0
  }

  // The hand-over messages for the accounts that leave with this block: each shard gets the
  // accounts that go there, with the changes addressed to it.
  ghost function HandsOf(out: Out): set<Hand> {
    set a | a in out.gone :: Hand(a, out.gone[a], GainOf(out.nss, a, out.gone[a]))
  }

  ghost function PhaseAfter(k: int, n: Node, b: Block, out: Out, a: Addr, p: Phase): Phase
    requires BlockKnown(n.st.Keys, b)
  {
    if a in LedgerLaws.Mig1Map(b.mig1s) && a in BlockOut(k, n.st, b) then
      Leaving(k, LedgerLaws.Mig1Map(b.mig1s)[a], BlockOut(k, n.st, b)[a])
    else if a in LedgerLaws.Mig2Map(b.mig2s) && p.Leaving? then Both(p.home, k, LedgerLaws.Mig2Map(b.mig2s)[a])
    else if a in out.gone then Moved(out.gone[a], GainOf(out.nss, a, out.gone[a]))
    else if exists m :: m in b.nss && m.addr == a then Idle(k)
    else p
  }

  ghost function CommitStep(s: Sys, k: int, b: Block): Sys
    requires BlockFits(s, k, b) && CommitReady(k, s.nodes[k], b)
    requires TxsKnown(s.ledger.Keys, b.txs)
    requires Single(CommitOut(k, s.nodes[k], b).relays)
  {
    var n := s.nodes[k];
    var out := CommitOut(k, n, b);
    s.(nodes := s.nodes[k := CommitNode(k, n, b)],
       pools := seq(|s.pools|, j requires 0 <= j < |s.pools| => PoolsAfter(s, k, b, out, j)),
       relays := s.relays - multiset(PaysOf(b.txs, true)) + multiset(PaysOf(out.relays, true)),
       hands := s.hands + multiset(HandsOf(out)),
       reports := s.reports + multiset{Settled(|b.nss|), Settled(out.same)},
       ledger := Transfers(s.ledger, b.txs),
       phase := map a | a in s.phase :: PhaseAfter(k, n, b, out, a, s.phase[a]))
  }

  // ----- delivery of messages -----

  ghost predicate HandsFit(s: Sys, j: int, hs: seq<Hand>) {
    && 0 <= j < |s.nodes| == |s.pools|
    && (forall h | h in hs :: h.to == j)
    && multiset(hs) <= s.hands
  }

  ghost function Changes(hs: seq<Hand>): seq<NS> {
    if hs == [] then []
    else
      Changes(hs[..|hs| - 1]) +
      (if hs[|hs| - 1].gain == 0 then [] else [NS(hs[|hs| - 1].addr, hs[|hs| - 1].gain)])
  }

  // handleChangesAndPendings at shard j.
  ghost function DeliverStep(s: Sys, j: int, hs: seq<Hand>): Sys
    requires HandsFit(s, j, hs)
  {
    s.(hands := s.hands - multiset(hs),
       pools := s.pools[j := s.pools[j].(nss := s.pools[j].nss + multiset(Changes(hs)))],
       reports := s.reports + multiset{Arrivals(|hs|)},
       phase := map a | a in s.phase ::
         if exists h :: h in hs && h.addr == a then
           if s.phase[a].Moved? && s.phase[a].gain != 0 then Late(j, s.phase[a].gain) else Idle(j)
         else s.phase[a])
  }

  // The client takes a report into account.
  ghost function ReportStep(s: Sys, r: Report): Sys {
    s.(reports := s.reports - multiset{r},
       unsettled := s.unsettled - (if r.Settled? then r.n else 0),
       unarrived := s.unarrived - (if r.Arrivals? then r.n else 0))
  }

  // ----- rounds -----

  // SendMigrateWanted: both counters are zero, and are kept busy until the new map is there.
  ghost predicate RoundOpen(s: Sys) {
    s.unsettled == 0 && s.unarrived == 0
  }

  ghost function WantStep(s: Sys): Sys {
    s.(collecting := true, unsettled := 1, unarrived := 1)
  }

  // A map the client may send: it lists known accounts, with a shard each. The client goes
  // by a table of its own, so an account may be listed with the shard where it lives.
  ghost predicate MapFits(s: Sys, moves: map<Addr, int>) {
    && s.collecting
    && forall a | a in moves :: a in s.phase && 0 <= moves[a] < |s.nodes|
  }

  // No account goes where an announcement about it is still queued. The code does not wait
  // for that.
  ghost predicate Waits(s: Sys, moves: map<Addr, int>) {
    forall k, m | 0 <= k < |s.pools| && m in s.pools[k].anns && m.addr in moves :: moves[m.addr] != k
  }

  // handleNewMap at shard k.
  ghost function Requests(own: set<Addr>, k: int, moves: map<Addr, int>): set<Mig1> {
    set a | a in moves && a in own && moves[a] != k :: Mig1(a, moves[a])
  }

  // The accounts a map lists where they live already.
  ghost function Staying(s: Sys, moves: map<Addr, int>): set<Addr> {
    set a | a in moves && a in s.phase && s.phase[a] == Idle(moves[a])
  }

  ghost function MapStep(s: Sys, moves: map<Addr, int>): Sys
    requires |s.nodes| == |s.pools|
  {
    s.(collecting := false, unsettled := |moves|, unarrived := |moves|,
       pools := seq(|s.pools|, k requires 0 <= k < |s.pools| =>
         s.pools[k].(mig1s := s.pools[k].mig1s + multiset(Requests(s.nodes[k].own, k, moves)))),
       unasked := |Staying(s, moves)|,
       phase := map a | a in s.phase ::
         if a in moves && s.phase[a].Idle? && s.phase[a].home != moves[a] then Asked(s.phase[a].home, moves[a])
         else s.phase[a])
  }
}
