// chain/blockchain.go: how a block changes the state tree of a shard. A block is
// applied in five passes: incoming accounts, payments, outgoing accounts,
// announcements, late balance changes.
module Ledger {
  import Addresses

  type Addr = Addresses.Addr

  // An account as a shard stores it. Every shard stores every account; location says
  // which shard owns it, migrate where it is about to go, or -1.
  datatype Account = Account(balance: int, migrate: int, location: int)

  type State = map<Addr, Account>

  // A payment transaction; with isRelay, the sender has already paid in another shard.
  datatype Tx = Tx(sender: Addr, recipients: seq<Addr>, values: seq<int>, isRelay: bool)

  // One payment of a transaction, as its recipient sees it.
  datatype Payment = Payment(to: Addr, value: int)

  datatype Mig1 = Mig1(addr: Addr, to: int)          // leave for shard `to`
  datatype Mig2 = Mig2(addr: Addr, value: int)       // arrive with a balance
  datatype Ann = Ann(addr: Addr, to: int)            // the account now lives in `to`
  datatype NS = NS(addr: Addr, change: int)          // what its old copy gained since it left

  datatype Block = Block(mig2s: seq<Mig2>, txs: seq<Tx>, mig1s: seq<Mig1>, anns: seq<Ann>, nss: seq<NS>)

  // ----- the five passes -----

  function ApplyMig2s(k: int, st: State, ms: seq<Mig2>): (r: State)
    ensures r.Keys >= st.Keys
  {
    if ms == [] then st
    else
      var m := ms[|ms| - 1];
      ApplyMig2s(k, st, ms[..|ms| - 1])[m.addr := Account(m.value, -1, k)]
  }

  // One payment: the sender pays unless it has done so elsewhere, the recipient is
  // credited where it lives.
  function ApplyPay(k: int, st: State, sender: Addr, to: Addr, value: int, isRelay: bool): (r: State)
    requires to in st && (!isRelay ==> sender in st)
    ensures r.Keys == st.Keys
  {
    var paid := if isRelay then st else st[sender := st[sender].(balance := st[sender].balance - value)];
    if paid[to].location != k then paid else paid[to := paid[to].(balance := paid[to].balance + value)]
  }

  ghost predicate TxKnown(known: set<Addr>, tx: Tx) {
    && |tx.values| == |tx.recipients|
    && (forall r | r in tx.recipients :: r in known)
    && (!tx.isRelay && tx.recipients != [] ==> tx.sender in known)
  }

  ghost predicate TxsKnown(known: set<Addr>, txs: seq<Tx>) {
    forall tx | tx in txs :: TxKnown(known, tx)
  }

  // The first n payments of a transaction.
  function ApplyTx(k: int, st: State, tx: Tx, n: nat): (r: State)
    requires TxKnown(st.Keys, tx) && n <= |tx.recipients|
    ensures r.Keys == st.Keys
  {
    if n == 0 then st
    else ApplyPay(k, ApplyTx(k, st, tx, n - 1), tx.sender, tx.recipients[n - 1], tx.values[n - 1], tx.isRelay)
  }

  function ApplyTxs(k: int, st: State, txs: seq<Tx>): (r: State)
    requires TxsKnown(st.Keys, txs)
    ensures r.Keys == st.Keys
  {
    if txs == [] then st
    else
      var tx := txs[|txs| - 1];
      assert TxKnown(st.Keys, tx) && TxsKnown(st.Keys, txs[..|txs| - 1]);
      ApplyTx(k, ApplyTxs(k, st, txs[..|txs| - 1]), tx, |tx.recipients|)
  }

  function ApplyMig1s(st: State, ms: seq<Mig1>): (r: State)
    requires forall m | m in ms :: m.addr in st
    ensures r.Keys == st.Keys
  {
    if ms == [] then st
    else
      var m := ms[|ms| - 1];
      var before := ApplyMig1s(st, ms[..|ms| - 1]);
      before[m.addr := before[m.addr].(migrate := m.to)]
  }

  // The balances with which accounts leave.
  function OutBalances(st: State, ms: seq<Mig1>): (r: map<Addr, int>)
    requires forall m | m in ms :: m.addr in st
    ensures forall a :: a in r <==> exists m :: m in ms && m.addr == a
    ensures forall a | a in r :: a in st && r[a] == st[a].balance
  {
    map m | m in ms :: m.addr := st[m.addr].balance
  }

  function ApplyAnns(st: State, ms: seq<Ann>): (r: State)
    requires forall m | m in ms :: m.addr in st
    ensures r.Keys == st.Keys
  {
    if ms == [] then st
    else
      var m := ms[|ms| - 1];
      var before := ApplyAnns(st, ms[..|ms| - 1]);
      before[m.addr := before[m.addr].(migrate := -1, location := m.to)]
  }

  function ApplyNSs(st: State, ms: seq<NS>): (r: State)
    requires forall m | m in ms :: m.addr in st
    ensures r.Keys == st.Keys
  {
    if ms == [] then st
    else
      var m := ms[|ms| - 1];
      var before := ApplyNSs(st, ms[..|ms| - 1]);
      before[m.addr := before[m.addr].(balance := before[m.addr].balance + m.change)]
  }

  // Every account a block names is in the tree; the code stops the node otherwise.
  ghost predicate BlockKnown(known: set<Addr>, b: Block) {
    && (forall m | m in b.mig2s :: m.addr in known)
    && TxsKnown(known, b.txs)
    && (forall m | m in b.mig1s :: m.addr in known)
    && (forall m | m in b.anns :: m.addr in known)
    && (forall m | m in b.nss :: m.addr in known)
  }

  // The state at the time payments run, and after them.
  function Arrived(k: int, st: State, b: Block): (r: State)
    requires BlockKnown(st.Keys, b)
    ensures r.Keys == st.Keys
  {
    ArrivedKeys(k, st, b.mig2s);
    ApplyMig2s(k, st, b.mig2s)
  }

  lemma {:induction false} ArrivedKeys(k: int, st: State, ms: seq<Mig2>)
    requires forall m | m in ms :: m.addr in st
    ensures ApplyMig2s(k, st, ms).Keys == st.Keys
  {
    if ms != [] {
      ArrivedKeys(k, st, ms[..|ms| - 1]);
      assert ms[|ms| - 1] in ms;
    }
  }

  function Paid(k: int, st: State, b: Block): (r: State)
    requires BlockKnown(st.Keys, b)
    ensures r.Keys == st.Keys
  {
    ApplyTxs(k, Arrived(k, st, b), b.txs)
  }

  function ApplyBlock(k: int, st: State, b: Block): (r: State)
    requires BlockKnown(st.Keys, b)
    ensures r.Keys == st.Keys
  {
    ApplyNSs(ApplyAnns(ApplyMig1s(Paid(k, st, b), b.mig1s), b.anns), b.nss)
  }

  function BlockOut(k: int, st: State, b: Block): map<Addr, int>
    requires BlockKnown(st.Keys, b)
  {
    OutBalances(Paid(k, st, b), b.mig1s)
  }

  // ----- the passes as the code runs them -----

  lemma LastStep<T>(s: seq<T>, i: nat)
    requires i < |s|
    ensures s[..i + 1][..i] == s[..i] && s[..i + 1][i] == s[i] && |s[..i + 1]| == i + 1
  {
  }

  lemma PayStep(k: int, st: State, tx: Tx, i: nat)
    requires TxKnown(st.Keys, tx) && i < |tx.recipients|
    ensures i < |tx.values| && tx.recipients[i] in st && (!tx.isRelay ==> tx.sender in st)
    ensures ApplyTx(k, st, tx, i + 1) ==
            ApplyPay(k, ApplyTx(k, st, tx, i), tx.sender, tx.recipients[i], tx.values[i], tx.isRelay)
  {
    assert tx.recipients[i] in tx.recipients;
  }

  class StateTree {
    const id: int
    var st: State

    constructor (id: int, st: State)
      ensures this.id == id && this.st == st
    {
      this.id, this.st := id, st;
    }

    method AddArrivals(ms: seq<Mig2>)
      modifies this
      ensures st == ApplyMig2s(id, old(st), ms)
    {
      for i := 0 to |ms|
        invariant st == ApplyMig2s(id, old(st), ms[..i])
      {
        LastStep(ms, i);
        st := st[ms[i].addr := Account(ms[i].value, -1, id)];
      }
      assert ms[..|ms|] == ms;
    }

    method Pay(tx: Tx)
      requires TxKnown(st.Keys, tx)
      modifies this
      ensures st == ApplyTx(id, old(st), tx, |tx.recipients|)
    {
      for i := 0 to |tx.recipients|
        invariant st == ApplyTx(id, old(st), tx, i)
      {
        var to, value := tx.recipients[i], tx.values[i];
        PayStep(id, old(st), tx, i);
        hide ApplyTx;
        if !tx.isRelay {
          st := st[tx.sender := st[tx.sender].(balance := st[tx.sender].balance - value)];
        }
        if st[to].location != id {
          continue;
        }
        st := st[to := st[to].(balance := st[to].balance + value)];
      }
    }

    method PayAll(txs: seq<Tx>)
      requires TxsKnown(st.Keys, txs)
      modifies this
      ensures st == ApplyTxs(id, old(st), txs)
    {
      for i := 0 to |txs|
        invariant TxsKnown(old(st).Keys, txs[..i]) && st == ApplyTxs(id, old(st), txs[..i])
      {
        LastStep(txs, i);
        assert TxKnown(old(st).Keys, txs[i]);
        Pay(txs[i]);
      }
      assert txs[..|txs|] == txs;
    }

    method MarkLeaving(ms: seq<Mig1>) returns (outbalance: map<Addr, int>)
      requires forall m | m in ms :: m.addr in st
      modifies this
      ensures st == ApplyMig1s(old(st), ms) && outbalance == OutBalances(old(st), ms)
    {
      outbalance := map[];
      for i := 0 to |ms|
        invariant st == ApplyMig1s(old(st), ms[..i])
        invariant forall a | a in st :: st[a].balance == old(st)[a].balance
        invariant outbalance == OutBalances(old(st), ms[..i])
      {
        LastStep(ms, i);
        var a := ms[i].addr;
        st := st[a := st[a].(migrate := ms[i].to)];
        outbalance := outbalance[a := st[a].balance];
        OutBalancesStep(old(st), ms, i);
      }
      assert ms[..|ms|] == ms;
    }

    method MarkGone(ms: seq<Ann>)
      requires forall m | m in ms :: m.addr in st
      modifies this
      ensures st == ApplyAnns(old(st), ms)
    {
      for i := 0 to |ms|
        invariant st == ApplyAnns(old(st), ms[..i])
      {
        LastStep(ms, i);
        var a := ms[i].addr;
        st := st[a := st[a].(migrate := -1, location := ms[i].to)];
      }
      assert ms[..|ms|] == ms;
    }

    method AddChanges(ms: seq<NS>)
      requires forall m | m in ms :: m.addr in st
      modifies this
      ensures st == ApplyNSs(old(st), ms)
    {
      for i := 0 to |ms|
        invariant st == ApplyNSs(old(st), ms[..i])
      {
        LastStep(ms, i);
        var a := ms[i].addr;
        st := st[a := st[a].(balance := st[a].balance + ms[i].change)];
      }
      assert ms[..|ms|] == ms;
    }

    // getUpdatedTreeOfState.
    method Update(b: Block) returns (outbalance: map<Addr, int>)
      requires BlockKnown(st.Keys, b)
      modifies this
      ensures st == ApplyBlock(id, old(st), b) && outbalance == BlockOut(id, old(st), b)
    {
      ArrivedKeys(id, st, b.mig2s);
      AddArrivals(b.mig2s);
      PayAll(b.txs);
      outbalance := MarkLeaving(b.mig1s);
      MarkGone(b.anns);
      AddChanges(b.nss);
    }
  }

  lemma OutBalancesStep(st: State, ms: seq<Mig1>, i: nat)
    requires i < |ms| && forall m | m in ms :: m.addr in st
    ensures OutBalances(st, ms[..i + 1]) == OutBalances(st, ms[..i])[ms[i].addr := st[ms[i].addr].balance]
  {
    LastStep(ms, i);
    assert forall m :: m in ms[..i + 1] <==> m in ms[..i] || m == ms[i];
    assert OutBalances(st, ms[..i + 1]).Keys == OutBalances(st, ms[..i])[ms[i].addr := st[ms[i].addr].balance].Keys;
  }
}
