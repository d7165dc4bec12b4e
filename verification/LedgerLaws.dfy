// What a block does to one account, whatever else is in the block.
module LedgerLaws {
  import opened Ledger

  // ----- the parts of a block that concern one account -----

  function Mig2Map(ms: seq<Mig2>): map<Addr, int> {
    if ms == [] then map[] else Mig2Map(ms[..|ms| - 1])[ms[|ms| - 1].addr := ms[|ms| - 1].value]
  }

  function Mig1Map(ms: seq<Mig1>): map<Addr, int> {
    if ms == [] then map[] else Mig1Map(ms[..|ms| - 1])[ms[|ms| - 1].addr := ms[|ms| - 1].to]
  }

  function AnnMap(ms: seq<Ann>): map<Addr, int> {
    if ms == [] then map[] else AnnMap(ms[..|ms| - 1])[ms[|ms| - 1].addr := ms[|ms| - 1].to]
  }

  function NSSum(ms: seq<NS>, a: Addr): int {
    if ms == [] then 0
    else NSSum(ms[..|ms| - 1], a) + if ms[|ms| - 1].addr == a then ms[|ms| - 1].change else 0
  }

  // What an account pays, and is sent, by the first n payments of a transaction.
  function TxPays(tx: Tx, n: nat, a: Addr): int
    requires n <= |tx.values|
  {
    if n == 0 then 0
    else TxPays(tx, n - 1, a) + if !tx.isRelay && tx.sender == a then tx.values[n - 1] else 0
  }

  function TxSends(tx: Tx, n: nat, a: Addr): int
    requires n <= |tx.values| && n <= |tx.recipients|
  {
    if n == 0 then 0
    else TxSends(tx, n - 1, a) + if tx.recipients[n - 1] == a then tx.values[n - 1] else 0
  }

  // What an account is sent by a list of payments.
  ghost function PaySum(ps: seq<Payment>, a: Addr): int {
    if ps == [] then 0
    else PaySum(ps[..|ps| - 1], a) + if ps[|ps| - 1].to == a then ps[|ps| - 1].value else 0
  }

  ghost predicate Shaped(txs: seq<Tx>) {
    forall tx | tx in txs :: |tx.values| == |tx.recipients|
  }

  ghost function Pays(txs: seq<Tx>, a: Addr): int
    requires Shaped(txs)
  {
    if txs == [] then 0
    else
      var tx := txs[|txs| - 1];
      assert tx in txs;
      Pays(txs[..|txs| - 1], a) + TxPays(tx, |tx.values|, a)
  }

  ghost function Sends(txs: seq<Tx>, a: Addr): int
    requires Shaped(txs)
  {
    if txs == [] then 0
    else
      var tx := txs[|txs| - 1];
      assert tx in txs;
      Sends(txs[..|txs| - 1], a) + TxSends(tx, |tx.values|, a)
  }

  // ----- pass by pass -----

  lemma {:induction false} Mig2sAt(k: int, st: State, ms: seq<Mig2>, a: Addr)
    ensures a in ApplyMig2s(k, st, ms) <==> a in Mig2Map(ms) || a in st
    ensures a in Mig2Map(ms) ==> ApplyMig2s(k, st, ms)[a] == Account(Mig2Map(ms)[a], -1, k)
    ensures a !in Mig2Map(ms) && a in st ==> ApplyMig2s(k, st, ms)[a] == st[a]
  {
    if ms != [] {
      Mig2sAt(k, st, ms[..|ms| - 1], a);
    }
  }

  lemma {:induction false} TxAt(k: int, st: State, tx: Tx, n: nat, a: Addr)
    requires TxKnown(st.Keys, tx) && n <= |tx.recipients| && a in st
    ensures var before, after := st[a], ApplyTx(k, st, tx, n)[a];
            after == before.(balance := before.balance - TxPays(tx, n, a)
                             + if before.location == k then TxSends(tx, n, a) else 0)
  {
    if n != 0 {
      TxAt(k, st, tx, n - 1, a);
    }
  }

  lemma {:induction false} TxsAt(k: int, st: State, txs: seq<Tx>, a: Addr)
    requires TxsKnown(st.Keys, txs) && a in st
    ensures Shaped(txs)
    ensures var before, after := st[a], ApplyTxs(k, st, txs)[a];
            after == before.(balance := before.balance - Pays(txs, a)
                             + if before.location == k then Sends(txs, a) else 0)
  {
    assert forall tx | tx in txs :: TxKnown(st.Keys, tx);
    if txs != [] {
      var tx := txs[|txs| - 1];
      assert tx in txs;
      TxsAt(k, st, txs[..|txs| - 1], a);
      TxAt(k, ApplyTxs(k, st, txs[..|txs| - 1]), tx, |tx.recipients|, a);
    }
  }

  lemma {:induction false} Mig1sAt(st: State, ms: seq<Mig1>, a: Addr)
    requires (forall m | m in ms :: m.addr in st) && a in st
    ensures ApplyMig1s(st, ms)[a] == if a in Mig1Map(ms) then st[a].(migrate := Mig1Map(ms)[a]) else st[a]
  {
    if ms != [] {
      Mig1sAt(st, ms[..|ms| - 1], a);
    }
  }

  lemma {:induction false} AnnsAt(st: State, ms: seq<Ann>, a: Addr)
    requires (forall m | m in ms :: m.addr in st) && a in st
    ensures ApplyAnns(st, ms)[a] ==
            if a in AnnMap(ms) then st[a].(migrate := -1, location := AnnMap(ms)[a]) else st[a]
  {
    if ms != [] {
      AnnsAt(st, ms[..|ms| - 1], a);
    }
  }

  lemma {:induction false} NSsAt(st: State, ms: seq<NS>, a: Addr)
    requires (forall m | m in ms :: m.addr in st) && a in st
    ensures ApplyNSs(st, ms)[a] == st[a].(balance := st[a].balance + NSSum(ms, a))
  {
    if ms != [] {
      NSsAt(st, ms[..|ms| - 1], a);
    }
  }

  // An account when the payments of a block run.
  ghost function ArrivedAt(k: int, acc: Account, b: Block, a: Addr): Account {
    if a in Mig2Map(b.mig2s) then Account(Mig2Map(b.mig2s)[a], -1, k) else acc
  }

  // Its balance when they have run.
  ghost function PaidAt(k: int, acc: Account, b: Block, a: Addr): int
    requires Shaped(b.txs)
  {
    var now := ArrivedAt(k, acc, b, a);
    now.balance - Pays(b.txs, a) + if now.location == k then Sends(b.txs, a) else 0
  }

  // The whole block, seen from one account: an arrival replaces it, payments count where
  // it lives, a departure is noted but changes nothing else, an announcement moves it away
  // after the payments, and late changes come last.
  lemma BlockAt(k: int, st: State, b: Block, a: Addr)
    requires BlockKnown(st.Keys, b) && a in st
    ensures Shaped(b.txs)
    ensures var now := ArrivedAt(k, st[a], b, a);
            ApplyBlock(k, st, b)[a] == Account(
              PaidAt(k, st[a], b, a) + NSSum(b.nss, a),
              if a in AnnMap(b.anns) then -1 else if a in Mig1Map(b.mig1s) then Mig1Map(b.mig1s)[a] else now.migrate,
              if a in AnnMap(b.anns) then AnnMap(b.anns)[a] else now.location)
    ensures a in BlockOut(k, st, b) <==> a in Mig1Map(b.mig1s)
    ensures a in BlockOut(k, st, b) ==> BlockOut(k, st, b)[a] == PaidAt(k, st[a], b, a)
  {
    Mig2sAt(k, st, b.mig2s, a);
    TxsAt(k, Arrived(k, st, b), b.txs, a);
    var paid := Paid(k, st, b);
    Mig1sAt(paid, b.mig1s, a);
    var marked := ApplyMig1s(paid, b.mig1s);
    AnnsAt(marked, b.anns, a);
    NSsAt(ApplyAnns(marked, b.anns), b.nss, a);
    Mig1Keys(b.mig1s, a);
  }

  lemma {:induction false} Mig1Keys(ms: seq<Mig1>, a: Addr)
    ensures a in Mig1Map(ms) <==> exists m :: m in ms && m.addr == a
  {
    if ms != [] {
      Mig1Keys(ms[..|ms| - 1], a);
      var last := ms[|ms| - 1];
      assert last in ms;
      assert forall m | m in ms :: m in ms[..|ms| - 1] || m == last;
    }
  }
}
