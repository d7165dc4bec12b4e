// The address table and the state tree tell the same story, so that every payment of a
// committed block is either credited here or relayed.
module LeaderLaws {
  import opened Ledger
  import opened LedgerLaws
  import opened Leader
  import Sums

  // Routing and state agree on where every account lives, and on which accounts are own.
  ghost predicate TableAgrees(k: int, n: Node) {
    && n.table.Keys == n.st.Keys && n.own <= n.st.Keys
    && forall a | a in n.st :: n.table[a] == n.st[a].location && (a in n.own <==> n.st[a].location == k)
  }

  lemma {:induction false} RouteInAt(k: int, table: map<Addr, int>, own: set<Addr>, ms: seq<Mig2>, a: Addr)
    ensures a in RouteIn(k, table, ms) <==> a in table || a in Mig2Map(ms)
    ensures a in RouteIn(k, table, ms) ==> RouteIn(k, table, ms)[a] == if a in Mig2Map(ms) then k else table[a]
    ensures a in OwnIn(own, ms) <==> a in own || a in Mig2Map(ms)
  {
    if ms != [] {
      RouteInAt(k, table, own, ms[..|ms| - 1], a);
    }
  }

  lemma {:induction false} SweepAt(s: Sweep, anns: seq<Ann>, a: Addr)
    ensures var r := HandleAnns(s, anns);
            && (a in r.table <==> a in s.table || a in AnnMap(anns))
            && (a in r.table ==> r.table[a] == if a in AnnMap(anns) then AnnMap(anns)[a] else s.table[a])
            && (a in r.own <==> a in s.own && a !in AnnMap(anns))
            && (a in r.gone <==> a in s.gone || (a in s.own && a in AnnMap(anns)))
  {
    if anns != [] {
      SweepAt(s, anns[..|anns| - 1], a);
    }
  }

  lemma {:induction false} AnnKeys(anns: seq<Ann>, a: Addr)
    ensures a in AnnMap(anns) <==> exists ann :: ann in anns && ann.addr == a
  {
    if anns != [] {
      AnnKeys(anns[..|anns| - 1], a);
      var last := anns[|anns| - 1];
      assert last in anns;
      assert forall x | x in anns :: x in anns[..|anns| - 1] || x == last;
    }
  }

  // A commit keeps table and state together, as long as a shard is not sent an
  // announcement of its own.
  lemma CommitKeepsTable(k: int, n: Node, b: Block)
    requires TableAgrees(k, n) && CommitReady(k, n, b)
    requires forall ann | ann in b.anns :: ann.to != k
    ensures TableAgrees(k, CommitNode(k, n, b))
  {
    var n' := CommitNode(k, n, b);
    forall a ensures a in n'.table <==> a in n'.st
             ensures a in n'.own ==> a in n'.st
             ensures a in n'.st ==> n'.table[a] == n'.st[a].location && (a in n'.own <==> n'.st[a].location == k)
    {
      CommitAt(k, n, b, a);
    }
  }

  lemma CommitAt(k: int, n: Node, b: Block, a: Addr)
    requires TableAgrees(k, n) && CommitReady(k, n, b)
    requires forall ann | ann in b.anns :: ann.to != k
    ensures var n' := CommitNode(k, n, b);
            && (a in n'.table <==> a in n'.st) && (a in n'.own ==> a in n'.st)
            && (a in n'.st ==> n'.table[a] == n'.st[a].location && (a in n'.own <==> n'.st[a].location == k))
  {
    RouteInAt(k, n.table, n.own, b.mig2s, a);
    SweepAt(Sweep(RouteIn(k, n.table, b.mig2s), OwnIn(n.own, b.mig2s), map[]), b.anns, a);
    AnnKeys(b.anns, a);
    Mig2Keys(b.mig2s, a);
    if a in AnnMap(b.anns) {
      AnnTo(b.anns, a);
    }
    if a in n.st {
      BlockAt(k, n.st, b, a);
    }
  }

  lemma {:induction false} AnnTo(anns: seq<Ann>, a: Addr)
    requires a in AnnMap(anns)
    ensures Ann(a, AnnMap(anns)[a]) in anns
  {
    if anns[|anns| - 1].addr != a {
      AnnTo(anns[..|anns| - 1], a);
    }
  }

  lemma {:induction false} Mig2Keys(ms: seq<Mig2>, a: Addr)
    ensures a in Mig2Map(ms) <==> exists m :: m in ms && m.addr == a
  {
    if ms != [] {
      Mig2Keys(ms[..|ms| - 1], a);
      var last := ms[|ms| - 1];
      assert last in ms;
      assert forall x | x in ms :: x in ms[..|ms| - 1] || x == last;
    }
  }

  // ----- credited or relayed -----

  // When the payments run, table and state agree on who lives here.
  lemma RouteAgreesWithState(k: int, n: Node, b: Block, a: Addr)
    requires TableAgrees(k, n) && BlockKnown(n.st.Keys, b) && a in n.st
    ensures a in RouteIn(k, n.table, b.mig2s)
    ensures RouteIn(k, n.table, b.mig2s)[a] == Arrived(k, n.st, b)[a].location
  {
    RouteInAt(k, n.table, n.own, b.mig2s, a);
    Mig2sAt(k, n.st, b.mig2s, a);
  }

  // What the recipient of the i-th payment of a transaction in the block gains by it.
  ghost function Credit(k: int, st: State, tx: Tx, i: nat): int
    requires TxKnown(st.Keys, tx) && i < |tx.recipients|
  {
    var r := tx.recipients[i];
    var before, after := ApplyTx(k, st, tx, i), ApplyTx(k, st, tx, i + 1);
    after[r].balance - before[r].balance + if !tx.isRelay && tx.sender == r then tx.values[i] else 0
  }

  // The state in which the j-th transaction of the block runs.
  ghost function StateBefore(k: int, n: Node, b: Block, j: nat): (st: State)
    requires BlockKnown(n.st.Keys, b) && j < |b.txs|
    ensures st.Keys == n.st.Keys && TxKnown(st.Keys, b.txs[j])
  {
    assert TxsKnown(n.st.Keys, b.txs[..j]);
    assert b.txs[j] in b.txs;
    ApplyTxs(k, Arrived(k, n.st, b), b.txs[..j])
  }

  lemma CreditAt(k: int, n: Node, b: Block, j: nat, i: nat)
    requires TableAgrees(k, n) && BlockKnown(n.st.Keys, b) && j < |b.txs| && i < |b.txs[j].recipients|
    ensures Routed(RouteIn(k, n.table, b.mig2s), b.txs[j])
    ensures Credit(k, StateBefore(k, n, b, j), b.txs[j], i) ==
            if Foreign(k, RouteIn(k, n.table, b.mig2s), b.txs[j], i) then 0 else b.txs[j].values[i]
  {
    var tx, st := b.txs[j], StateBefore(k, n, b, j);
    var r := tx.recipients[i];
    assert r in tx.recipients;
    assert tx in b.txs;
    KnownIsRouted(k, n, b);
    RouteAgreesWithState(k, n, b, r);
    TxsAt(k, Arrived(k, n.st, b), b.txs[..j], r);
    TxAt(k, st, tx, i, r);
    TxAt(k, st, tx, i + 1, r);
  }

  // A payment to one recipient is credited in the state or put in the relay list, never
  // both and never neither.
  lemma SinglePaymentCreditedOrRelayed(k: int, n: Node, b: Block, j: nat)
    requires TableAgrees(k, n) && BlockKnown(n.st.Keys, b) && j < |b.txs|
    requires |b.txs[j].recipients| == 1 && !b.txs[j].isRelay
    ensures var table := RouteIn(k, n.table, b.mig2s);
            && Routed(table, b.txs[j])
            && (Relays(k, table, b.txs[j]) <==> !Commits(k, table, b.txs[j]))
            && Credit(k, StateBefore(k, n, b, j), b.txs[j], 0) ==
               if Relays(k, table, b.txs[j]) then 0 else b.txs[j].values[0]
  {
    CreditAt(k, n, b, j, 0);
    var table := RouteIn(k, n.table, b.mig2s);
    if Commits(k, table, b.txs[j]) {
      var i: nat :| i < |b.txs[j].recipients| && !Foreign(k, table, b.txs[j], i);
      assert i == 0;
    }
  }

  // A merged transaction leaves a payment stranded when it is neither credited nor relayed.
  ghost predicate Strands(k: int, n: Node, b: Block, j: nat)
    requires BlockKnown(n.st.Keys, b) && n.table.Keys == n.st.Keys && j < |b.txs|
  {
    var table := RouteIn(k, n.table, b.mig2s);
    KnownIsRouted(k, n, b);
    assert b.txs[j] in b.txs;
    !Relays(k, table, b.txs[j]) && exists i: nat | i < |b.txs[j].recipients| :: Foreign(k, table, b.txs[j], i)
  }

  // What the first n payments of a transaction credit in this shard, and what they send to
  // accounts elsewhere.
  ghost function CreditTotal(k: int, st: State, tx: Tx, n: nat): int
    requires TxKnown(st.Keys, tx) && n <= |tx.recipients|
  {
    if n == 0 then 0 else CreditTotal(k, st, tx, n - 1) + Credit(k, st, tx, n - 1)
  }

  ghost function ForeignTotal(k: int, table: map<Addr, int>, tx: Tx, n: nat): int
    requires Routed(table, tx) && n <= |tx.recipients| == |tx.values|
  {
    if n == 0 then 0
    else ForeignTotal(k, table, tx, n - 1) + if Foreign(k, table, tx, n - 1) then tx.values[n - 1] else 0
  }

  lemma {:induction false} DebitSplits(k: int, st: State, table: map<Addr, int>, tx: Tx, n: nat)
    requires TxKnown(st.Keys, tx) && Routed(table, tx) && !tx.isRelay && n <= |tx.recipients|
    requires forall i: nat | i < n :: Credit(k, st, tx, i) == if Foreign(k, table, tx, i) then 0 else tx.values[i]
    ensures TxPays(tx, n, tx.sender) == CreditTotal(k, st, tx, n) + ForeignTotal(k, table, tx, n)
  {
    hide Credit, Foreign, Routed;
    if n > 0 {
      DebitSplits(k, st, table, tx, n - 1);
    }
  }

  // The scan stops at the first local recipient, so a merged transaction strands payments
  // exactly when its first recipient is local and a later one is not. The sender pays for
  // all recipients, and what it pays beyond the credits is what goes to accounts elsewhere:
  // with a stranded payment, that is gone.
  lemma MergedPaymentStranded(k: int, n: Node, b: Block, j: nat)
    requires TableAgrees(k, n) && BlockKnown(n.st.Keys, b) && j < |b.txs| && !b.txs[j].isRelay
    ensures Routed(RouteIn(k, n.table, b.mig2s), b.txs[j])
    ensures var table, tx := RouteIn(k, n.table, b.mig2s), b.txs[j];
            && (Strands(k, n, b, j) <==>
                  |tx.recipients| > 0 && !Foreign(k, table, tx, 0) &&
                  exists i: nat | i < |tx.recipients| :: Foreign(k, table, tx, i))
            && forall i: nat | i < |tx.recipients| && Foreign(k, table, tx, i) ::
                 Credit(k, StateBefore(k, n, b, j), tx, i) == 0
    ensures var table, tx, st := RouteIn(k, n.table, b.mig2s), b.txs[j], StateBefore(k, n, b, j);
            var all := |tx.recipients|;
            && |tx.values| == all
            && (all > 0 ==>
                 && tx.sender in st
                 && st[tx.sender].balance - ApplyTx(k, st, tx, all)[tx.sender].balance ==
                      CreditTotal(k, st, tx, all) + ForeignTotal(k, table, tx, all)
                      - if st[tx.sender].location == k then TxSends(tx, all, tx.sender) else 0)
  {
    var table, tx := RouteIn(k, n.table, b.mig2s), b.txs[j];
    KnownIsRouted(k, n, b);
    assert tx in b.txs;
    forall i: nat | i < |tx.recipients|
      ensures Credit(k, StateBefore(k, n, b, j), tx, i) == if Foreign(k, table, tx, i) then 0 else tx.values[i]
    {
      CreditAt(k, n, b, j, i);
    }
    DebitSplits(k, StateBefore(k, n, b, j), table, tx, |tx.recipients|);
    if |tx.recipients| > 0 {
      TxAt(k, StateBefore(k, n, b, j), tx, |tx.recipients|, tx.sender);
    }
    hide Credit, CreditTotal, ForeignTotal, StateBefore;
  }

  // ----- what a commit reports and sends on -----

  // Where the recipients of a transaction live when the payments run.
  ghost predicate LivesHere(k: int, st: State, a: Addr) {
    a in st && st[a].location == k
  }

  // The transactions with a recipient here, in order.
  ghost function HereList(k: int, st: State, txs: seq<Tx>): seq<Tx> {
    if txs == [] then []
    else
      var tx := txs[|txs| - 1];
      HereList(k, st, txs[..|txs| - 1])
      + if exists r :: r in tx.recipients && LivesHere(k, st, r)
        then [tx.(isRelay := tx.isRelay || !LivesHere(k, st, tx.recipients[0]))] else []
  }

  // A fresh transaction goes on to other shards if its first recipient lives elsewhere, one
  // that was relayed before if its first two do.
  ghost predicate GoesAway(k: int, st: State, tx: Tx) {
    var need := if tx.isRelay then 2 else 1;
    |tx.recipients| >= need && forall r | r in tx.recipients[..need] :: !LivesHere(k, st, r)
  }

  // The transactions that go on, in order.
  ghost function AwayList(k: int, st: State, txs: seq<Tx>): seq<Tx> {
    if txs == [] then []
    else
      var tx := txs[|txs| - 1];
      AwayList(k, st, txs[..|txs| - 1]) + if GoesAway(k, st, tx) then [tx.(isRelay := true)] else []
  }

  // Table and state tell the same about the recipients of a transaction.
  ghost predicate Agree(table: map<Addr, int>, st: State, tx: Tx) {
    forall r | r in tx.recipients :: r in table && r in st && table[r] == st[r].location
  }

  lemma AgreeOn(k: int, table: map<Addr, int>, st: State, tx: Tx)
    requires Agree(table, st, tx)
    ensures Routed(table, tx)
    ensures forall i: nat | i < |tx.recipients| :: Foreign(k, table, tx, i) <==> !LivesHere(k, st, tx.recipients[i])
    ensures Commits(k, table, tx) <==> exists r :: r in tx.recipients && LivesHere(k, st, r)
  {
    forall i: nat | i < |tx.recipients| ensures Foreign(k, table, tx, i) <==> !LivesHere(k, st, tx.recipients[i]) {
      assert tx.recipients[i] in tx.recipients;
    }
    if r :| r in tx.recipients && LivesHere(k, st, r) {
      var i: nat :| i < |tx.recipients| && tx.recipients[i] == r;
      assert !Foreign(k, table, tx, i);
    }
  }

  lemma GoesOn(k: int, table: map<Addr, int>, st: State, tx: Tx)
    requires Agree(table, st, tx)
    ensures Routed(table, tx)
    ensures Relays(k, table, tx) <==> GoesAway(k, st, tx)
  {
    AgreeOn(k, table, st, tx);
    if |tx.recipients| > 0 {
      assert tx.recipients[..1] == [tx.recipients[0]];
    }
    if |tx.recipients| > 1 {
      assert tx.recipients[..2] == [tx.recipients[0], tx.recipients[1]];
    }
  }

  lemma {:induction false} ListsAgree(k: int, table: map<Addr, int>, st: State, txs: seq<Tx>)
    requires forall tx | tx in txs :: Agree(table, st, tx)
    ensures AllRouted(table, txs)
    ensures CommitList(k, table, txs) == HereList(k, st, txs) && RelayList(k, table, txs) == AwayList(k, st, txs)
  {
    forall tx | tx in txs ensures Routed(table, tx) {
      AgreeOn(k, table, st, tx);
    }
    if txs != [] {
      assert txs[|txs| - 1] in txs;
      ListsAgree(k, table, st, txs[..|txs| - 1]);
      AgreeOn(k, table, st, txs[|txs| - 1]);
      GoesOn(k, table, st, txs[|txs| - 1]);
      hide Relays, Commits, LivesHere, GoesAway, Agree, Foreign;
    }
  }

  // What a commit reports as on chain, and what it sends on, told by where the accounts
  // live in the state: neither the address table nor the scan shows.
  lemma CommitSorts(k: int, n: Node, b: Block)
    requires TableAgrees(k, n) && CommitReady(k, n, b)
    ensures CommitOut(k, n, b).committed == HereList(k, Arrived(k, n.st, b), b.txs)
    ensures CommitOut(k, n, b).relays == AwayList(k, Arrived(k, n.st, b), b.txs)
  {
    KnownIsRouted(k, n, b);
    forall tx | tx in b.txs ensures Agree(RouteIn(k, n.table, b.mig2s), Arrived(k, n.st, b), tx) {
      assert TxKnown(n.st.Keys, tx);
      forall r | r in tx.recipients
        ensures r in RouteIn(k, n.table, b.mig2s) && r in Arrived(k, n.st, b)
              && RouteIn(k, n.table, b.mig2s)[r] == Arrived(k, n.st, b)[r].location
      {
        RouteAgreesWithState(k, n, b, r);
        Mig2sAt(k, n.st, b.mig2s, r);
      }
    }
    ListsAgree(k, RouteIn(k, n.table, b.mig2s), Arrived(k, n.st, b), b.txs);
    hide Arrived, RouteIn, Agree;
  }

  lemma {:induction false} ListCounts(k: int, st: State, txs: seq<Tx>, tx: Tx)
    requires |tx.recipients| == 1 && !tx.isRelay
    ensures multiset(HereList(k, st, txs))[tx] == if LivesHere(k, st, tx.recipients[0]) then multiset(txs)[tx] else 0
    ensures multiset(AwayList(k, st, txs))[tx.(isRelay := true)] ==
            if LivesHere(k, st, tx.recipients[0]) then 0 else multiset(txs)[tx]
  {
    if txs != [] {
      var init, x := txs[..|txs| - 1], txs[|txs| - 1];
      HereStep(k, st, txs, tx);
      AwayStep(k, st, txs, tx);
      hide *;
      Sums.CountStep(txs, tx);
      ListCounts(k, st, init, tx);
    }
  }

  lemma HereStep(k: int, st: State, txs: seq<Tx>, tx: Tx)
    requires txs != [] && |tx.recipients| == 1 && !tx.isRelay
    ensures var init, x := txs[..|txs| - 1], txs[|txs| - 1];
            multiset(HereList(k, st, txs))[tx] ==
              multiset(HereList(k, st, init))[tx] + if x == tx && LivesHere(k, st, tx.recipients[0]) then 1 else 0
  {
    var init, x := txs[..|txs| - 1], txs[|txs| - 1];
    var was := HereList(k, st, init);
    hide LivesHere;
    if exists r :: r in x.recipients && LivesHere(k, st, r) {
      Sums.CountOne(was, x.(isRelay := x.isRelay || !LivesHere(k, st, x.recipients[0])), tx);
    } else {
      assert HereList(k, st, txs) == was;
      assert x == tx ==> tx.recipients[0] in x.recipients;
    }
  }

  lemma AwayStep(k: int, st: State, txs: seq<Tx>, tx: Tx)
    requires txs != [] && |tx.recipients| == 1 && !tx.isRelay
    ensures var init, x, away := txs[..|txs| - 1], txs[|txs| - 1], tx.(isRelay := true);
            multiset(AwayList(k, st, txs))[away] ==
              multiset(AwayList(k, st, init))[away] + if x == tx && !LivesHere(k, st, tx.recipients[0]) then 1 else 0
  {
    var init, x := txs[..|txs| - 1], txs[|txs| - 1];
    var was := AwayList(k, st, init);
    SingleGoesAway(k, st, x, tx);
    hide GoesAway, LivesHere;
    if GoesAway(k, st, x) {
      Sums.CountOne(was, x.(isRelay := true), tx.(isRelay := true));
    } else {
      assert AwayList(k, st, txs) == was;
    }
  }

  lemma SingleGoesAway(k: int, st: State, x: Tx, tx: Tx)
    requires |tx.recipients| == 1 && !tx.isRelay
    ensures x.(isRelay := true) == tx.(isRelay := true) && GoesAway(k, st, x) <==>
              x == tx && !LivesHere(k, st, tx.recipients[0])
  {
    assert tx.recipients[..1] == [tx.recipients[0]];
  }

  // Each fresh payment to one recipient is reported or sent on, never both, as often as it
  // is in the block.
  lemma PaymentsReportedOrSent(k: int, n: Node, b: Block, tx: Tx)
    requires TableAgrees(k, n) && CommitReady(k, n, b) && |tx.recipients| == 1 && !tx.isRelay
    ensures var out, here := CommitOut(k, n, b), LivesHere(k, Arrived(k, n.st, b), tx.recipients[0]);
            && multiset(out.committed)[tx] == (if here then multiset(b.txs)[tx] else 0)
            && multiset(out.relays)[tx.(isRelay := true)] == if here then 0 else multiset(b.txs)[tx]
  {
    CommitSorts(k, n, b);
    ListCounts(k, Arrived(k, n.st, b), b.txs, tx);
  }

  // A relayed transaction leaves payments stranded exactly when some recipient lives
  // elsewhere but it does not go on: it has one recipient only, or one of the first two
  // lives here.
  lemma RelayedPaymentStranded(k: int, n: Node, b: Block, j: nat)
    requires TableAgrees(k, n) && BlockKnown(n.st.Keys, b) && j < |b.txs| && b.txs[j].isRelay
    ensures var tx, st := b.txs[j], Arrived(k, n.st, b);
            Strands(k, n, b, j) <==>
              && (exists r :: r in tx.recipients && !LivesHere(k, st, r))
              && (|tx.recipients| == 1 || exists r :: r in tx.recipients[..2] && LivesHere(k, st, r))
  {
    var table, tx, st := RouteIn(k, n.table, b.mig2s), b.txs[j], Arrived(k, n.st, b);
    KnownIsRouted(k, n, b);
    assert tx in b.txs && TxKnown(n.st.Keys, tx);
    assert Agree(table, st, tx) by {
      forall r | r in tx.recipients ensures r in table && r in st && table[r] == st[r].location {
        RouteAgreesWithState(k, n, b, r);
        Mig2sAt(k, n.st, b.mig2s, r);
      }
    }
    AgreeOn(k, table, st, tx);
    GoesOn(k, table, st, tx);
    hide RouteIn, Arrived, Relays, LivesHere;
    if r :| r in tx.recipients && !LivesHere(k, st, r) {
      var i: nat :| i < |tx.recipients| && tx.recipients[i] == r;
      assert Foreign(k, table, tx, i);
    }
    if i: nat :| i < |tx.recipients| && Foreign(k, table, tx, i) {
      assert tx.recipients[i] in tx.recipients;
    }
  }

  // Shard 0 pays a local account 5 and one of shard 1 another 7: the 7 are debited and
  // go nowhere.
  lemma StrandedExample()
    ensures var st := map["a" := Account(20, -1, 0), "b" := Account(0, -1, 0), "c" := Account(0, -1, 1)];
            var n := Node(st, map["a" := 0, "b" := 0, "c" := 1], {"a", "b"}, map[]);
            var b := Block([], [Tx("a", ["b", "c"], [5, 7], false)], [], [], []);
            && TableAgrees(0, n) && BlockKnown(st.Keys, b) && Strands(0, n, b, 0)
            && Paid(0, st, b)["a"].balance == 8 && Paid(0, st, b)["c"].balance == 0
  {
    var st := map["a" := Account(20, -1, 0), "b" := Account(0, -1, 0), "c" := Account(0, -1, 1)];
    var n := Node(st, map["a" := 0, "b" := 0, "c" := 1], {"a", "b"}, map[]);
    var tx := Tx("a", ["b", "c"], [5, 7], false);
    var b := Block([], [tx], [], [], []);
    assert TxKnown(st.Keys, tx);
    MergedPaymentStranded(0, n, b, 0);
    assert Foreign(0, n.table, tx, 1);
    assert b.txs[..0] == [];
    assert ApplyTxs(0, st, []) == st;
    TxsAt(0, st, b.txs, "a");
    TxsAt(0, st, b.txs, "c");
    assert TxPays(tx, 1, "a") == 5 && TxPays(tx, 2, "a") == 12;
    assert TxSends(tx, 1, "a") == 0 && TxSends(tx, 2, "a") == 0;
  }
}
