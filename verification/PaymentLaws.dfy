// Payments within one block: what they do to an account's copy in the shard, to the
// relayed payments on their way to it, and to the one ledger.
module PaymentLaws {
  import opened Ledger
  import opened LedgerLaws
  import opened Leader
  import opened Migration

  // ----- sums over relayed payments -----

  ghost function RelayTotal(ms: multiset<Payment>, a: Addr): int {
    if ms == multiset{} then 0
    else
      var p :| p in ms;
      RelayTotal(ms - multiset{p}, a) + if p.to == a then p.value else 0
  }

  lemma RelayTotalPick(ms: multiset<Payment>, a: Addr) returns (p: Payment)
    requires ms != multiset{}
    ensures p in ms && RelayTotal(ms, a) == RelayTotal(ms - multiset{p}, a) + if p.to == a then p.value else 0
  {
    p :| p in ms && RelayTotal(ms, a) == RelayTotal(ms - multiset{p}, a) + if p.to == a then p.value else 0;
  }

  lemma DropTwo<T>(ms: multiset<T>, x: T, y: T)
    requires x in ms && y in ms && x != y
    ensures ms - multiset{x} - multiset{y} == ms - multiset{y} - multiset{x}
    ensures y in ms - multiset{x} && x in ms - multiset{y}
    ensures |ms - multiset{x}| < |ms| && |ms - multiset{y}| < |ms|
  {
  }

  lemma {:induction false} RelayTotalDrop(ms: multiset<Payment>, a: Addr, q: Payment)
    requires q in ms
    ensures RelayTotal(ms, a) == RelayTotal(ms - multiset{q}, a) + if q.to == a then q.value else 0
    decreases |ms|
  {
    hide *;
    var p := RelayTotalPick(ms, a);
    if p != q {
      DropTwo(ms, p, q);
      RelayTotalDrop(ms - multiset{p}, a, q);
      RelayTotalDrop(ms - multiset{q}, a, p);
    }
  }

  lemma {:induction false} RelayTotalAdd(ms: multiset<Payment>, ps: seq<Payment>, a: Addr)
    ensures RelayTotal(ms + multiset(ps), a) == RelayTotal(ms, a) + PaySum(ps, a)
  {
    if ps == [] {
      assert ms + multiset(ps) == ms;
    } else {
      var init, p := ps[..|ps| - 1], ps[|ps| - 1];
      assert ps == init + [p];
      RelayTotalAdd(ms, init, a);
      var all := ms + multiset(ps);
      RelayTotalDrop(all, a, p);
      assert all - multiset{p} == ms + multiset(init);
    }
  }

  lemma RelayTotalChange(ms: multiset<Payment>, gone: seq<Payment>, come: seq<Payment>, a: Addr)
    requires multiset(gone) <= ms
    ensures RelayTotal(ms - multiset(gone) + multiset(come), a) ==
            RelayTotal(ms, a) - PaySum(gone, a) + PaySum(come, a)
  {
    var rest := ms - multiset(gone);
    RelayTotalAdd(rest, come, a);
    RelayTotalAdd(rest, gone, a);
    assert rest + multiset(gone) == ms;
  }

  // ----- the payments of a block -----

  lemma TransfersStep(l: map<Addr, int>, txs: seq<Tx>)
    requires Single(txs) && TxsKnown(l.Keys, txs) && txs != []
    ensures var init, tx := txs[..|txs| - 1], txs[|txs| - 1];
            && Single(init) && TxsKnown(l.Keys, init) && |tx.recipients| == 1 && |tx.values| == 1
            && (!tx.isRelay ==> tx.sender in l && tx.recipients[0] in l)
            && var before := Transfers(l, init);
               Transfers(l, txs) ==
                 if tx.isRelay then before
                 else
                   var paid := before[tx.sender := before[tx.sender] - tx.values[0]];
                   paid[tx.recipients[0] := paid[tx.recipients[0]] + tx.values[0]]
  {
    var tx := txs[|txs| - 1];
    assert tx in txs && TxKnown(l.Keys, tx);
    assert tx.recipients[0] in tx.recipients;
  }

  lemma {:induction false} TransfersAt(l: map<Addr, int>, txs: seq<Tx>, a: Addr)
    requires Single(txs) && TxsKnown(l.Keys, txs) && a in l
    ensures Shaped(txs)
    ensures Transfers(l, txs)[a] == l[a] - Pays(txs, a) + PaySum(PaysOf(txs, false), a)
  {
    KnownIsShaped(l.Keys, txs);
    if txs != [] {
      PaysLast(txs, a);
      TransfersStep(l, txs);
      hide *;
      TransfersAt(l, txs[..|txs| - 1], a);
      PaysOfStep(txs, false, a);
      OneTx(txs[|txs| - 1], a);
    }
  }

  lemma KnownIsShaped(known: set<Addr>, txs: seq<Tx>)
    requires TxsKnown(known, txs)
    ensures Shaped(txs)
  {
    assert forall tx | tx in txs :: TxKnown(known, tx);
  }

  lemma PaysLast(txs: seq<Tx>, a: Addr)
    requires Shaped(txs) && txs != []
    ensures var tx := txs[|txs| - 1];
            && Shaped(txs[..|txs| - 1]) && |tx.values| == |tx.recipients|
            && Pays(txs, a) == Pays(txs[..|txs| - 1], a) + TxPays(tx, |tx.values|, a)
  {
    assert txs[|txs| - 1] in txs;
  }

  lemma OneTx(tx: Tx, a: Addr)
    requires |tx.recipients| == 1 && |tx.values| == 1
    ensures TxPays(tx, 1, a) == if !tx.isRelay && tx.sender == a then tx.values[0] else 0
    ensures TxSends(tx, 1, a) == if tx.recipients[0] == a then tx.values[0] else 0
  {
    assert TxPays(tx, 0, a) == 0 && TxSends(tx, 0, a) == 0;
  }

  lemma PaysOfStep(txs: seq<Tx>, relayed: bool, a: Addr)
    requires Single(txs) && txs != []
    ensures var tx := txs[|txs| - 1];
            && Single(txs[..|txs| - 1]) && |tx.recipients| == 1 && |tx.values| == 1
            && PaySum(PaysOf(txs, relayed), a) == PaySum(PaysOf(txs[..|txs| - 1], relayed), a)
                 + if tx.isRelay == relayed && tx.recipients[0] == a then tx.values[0] else 0
  {
    var tx := txs[|txs| - 1];
    assert tx in txs;
    var before := PaysOf(txs[..|txs| - 1], relayed);
    if tx.isRelay == relayed {
      assert PaysOf(txs, relayed)[..|before|] == before;
    } else {
      assert PaysOf(txs, relayed) == before;
    }
  }

  // All that is sent to an account is either fresh or relayed.
  lemma {:induction false} SendsSplit(txs: seq<Tx>, a: Addr)
    requires Single(txs)
    ensures Shaped(txs)
    ensures Sends(txs, a) == PaySum(PaysOf(txs, true), a) + PaySum(PaysOf(txs, false), a)
  {
    assert Shaped(txs);
    if txs != [] {
      var tx := txs[|txs| - 1];
      assert tx in txs;
      SendsSplit(txs[..|txs| - 1], a);
      PaysOfStep(txs, true, a);
      PaysOfStep(txs, false, a);
      OneTx(tx, a);
    }
  }

  // An account that does not live here neither pays nor receives relayed payments here.
  lemma {:induction false} NothingElsewhere(k: int, st: State, txs: seq<Tx>, a: Addr)
    requires Single(txs) && a in st && st[a].location != k
    requires forall tx | tx in txs && tx.isRelay :: tx.recipients[0] in st && st[tx.recipients[0]].location == k
    requires forall tx | tx in txs && !tx.isRelay :: tx.sender in st && st[tx.sender].location == k
    ensures Shaped(txs)
    ensures Pays(txs, a) == 0 && PaySum(PaysOf(txs, true), a) == 0
  {
    assert Shaped(txs);
    if txs != [] {
      var tx := txs[|txs| - 1];
      assert tx in txs;
      NothingElsewhere(k, st, txs[..|txs| - 1], a);
      PaysOfStep(txs, true, a);
      OneTx(tx, a);
    }
  }

  lemma PaysAppend(txs: seq<Tx>, tx: Tx, relayed: bool, a: Addr)
    requires Single(txs) && |tx.recipients| == 1 && |tx.values| == 1
    ensures Single(txs + [tx])
    ensures PaySum(PaysOf(txs + [tx], relayed), a) == PaySum(PaysOf(txs, relayed), a)
              + if tx.isRelay == relayed && tx.recipients[0] == a then tx.values[0] else 0
  {
    assert (txs + [tx])[..|txs|] == txs;
    PaysOfStep(txs + [tx], relayed, a);
  }

  lemma RelayListStep(k: int, table: map<Addr, int>, txs: seq<Tx>)
    requires Single(txs) && AllRouted(table, txs) && txs != []
    ensures var tx := txs[|txs| - 1];
            && Single(txs[..|txs| - 1]) && AllRouted(table, txs[..|txs| - 1]) && |tx.recipients| == 1
             && |tx.values| == 1
            && tx.recipients[0] in table
            && RelayList(k, table, txs) ==
                 if !tx.isRelay && table[tx.recipients[0]] != k
                 then RelayList(k, table, txs[..|txs| - 1]) + [tx.(isRelay := true)]
                 else RelayList(k, table, txs[..|txs| - 1])
  {
    var tx := txs[|txs| - 1];
    assert tx in txs && Routed(table, tx);
    assert tx.recipients[0] in tx.recipients;
  }

  // What goes out as relayed payments: the fresh payments to accounts that live elsewhere.
  lemma {:induction false} RelayedOut(k: int, table: map<Addr, int>, txs: seq<Tx>, a: Addr)
    requires Single(txs) && AllRouted(table, txs) && a in table
    ensures Single(RelayList(k, table, txs))
    ensures PaySum(PaysOf(RelayList(k, table, txs), true), a) ==
            if table[a] == k then 0 else PaySum(PaysOf(txs, false), a)
  {
    if txs == [] {
    } else {
      RelayedOut(k, table, txs[..|txs| - 1], a);
      RelayedOutStep(k, table, txs, a);
    }
  }

  lemma RelayedOutStep(k: int, table: map<Addr, int>, txs: seq<Tx>, a: Addr)
    requires Single(txs) && AllRouted(table, txs) && a in table && txs != []
    requires var init := txs[..|txs| - 1];
             && AllRouted(table, init) && Single(init) && Single(RelayList(k, table, init))
             && PaySum(PaysOf(RelayList(k, table, init), true), a) ==
                if table[a] == k then 0 else PaySum(PaysOf(init, false), a)
    ensures Single(RelayList(k, table, txs))
    ensures PaySum(PaysOf(RelayList(k, table, txs), true), a) ==
            if table[a] == k then 0 else PaySum(PaysOf(txs, false), a)
  {
    var tx, init := txs[|txs| - 1], txs[..|txs| - 1];
    RelayListStep(k, table, txs);
    PaysOfStep(txs, false, a);
    PaysAppend(RelayList(k, table, init), tx.(isRelay := true), true, a);
    hide RelayList, AllRouted, PaysOf, PaySum, Single;
  }

  // The books of one account over the payments of a block: its copy here (where it lives
  // here) and the payments on their way to it change together as the ledger does.
  lemma PaymentsBalance(k: int, st: State, table: map<Addr, int>, relays: multiset<Payment>, txs: seq<Tx>,
                        l: map<Addr, int>, a: Addr)
    requires PaymentsFit(k, st, relays, txs) && a in st && l.Keys == st.Keys
    requires AllRouted(table, txs) && a in table && table[a] == st[a].location
    ensures Shaped(txs) && Single(RelayList(k, table, txs))
    ensures var relays' := relays - multiset(PaysOf(txs, true)) + multiset(PaysOf(RelayList(k, table, txs), true));
            Transfers(l, txs)[a] - l[a] ==
              RelayTotal(relays', a) - RelayTotal(relays, a)
              + if st[a].location == k then Sends(txs, a) - Pays(txs, a) else 0
    ensures st[a].location != k ==> Pays(txs, a) == 0
  {
    TransfersAt(l, txs, a);
    SendsSplit(txs, a);
    RelayedOut(k, table, txs, a);
    RelayTotalChange(relays, PaysOf(txs, true), PaysOf(RelayList(k, table, txs), true), a);
    if st[a].location != k {
      NothingElsewhere(k, st, txs, a);
    }
  }
}
