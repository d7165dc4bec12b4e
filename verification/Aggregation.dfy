// core/transaction.go and the merging in pbft/pbft.go: the pending transactions of a moving
// account travel as one transaction with many recipients.
module Aggregation {
  import opened Ledger
  import opened LedgerLaws
  import opened Sums


  ghost predicate Even(tx: Tx) {
    |tx.values| == |tx.recipients|
  }

  // The payments of a transaction, in order.
  function PaymentsOf(tx: Tx): seq<Payment>
    requires |tx.values| == |tx.recipients|
  {
    seq(|tx.recipients|, i requires 0 <= i < |tx.recipients| => Payment(tx.recipients[i], tx.values[i]))
  }

  ghost function AllPayments(txs: seq<Tx>): seq<Payment>
    requires Shaped(txs)
  {
    if txs == [] then []
    else
      assert txs[|txs| - 1] in txs;
      AllPayments(txs[..|txs| - 1]) + PaymentsOf(txs[|txs| - 1])
  }

  function Recipients(txs: seq<Tx>): seq<Addr> {
    if txs == [] then [] else Recipients(txs[..|txs| - 1]) + txs[|txs| - 1].recipients
  }

  function Values(txs: seq<Tx>): seq<int> {
    if txs == [] then [] else Values(txs[..|txs| - 1]) + txs[|txs| - 1].values
  }

  // All recipients and values go into the first transaction.
  function Merge(txs: seq<Tx>): Tx
    requires txs != []
  {
    txs[0].(recipients := Recipients(txs), values := Values(txs))
  }

  // One transaction per recipient; the flags are not copied.
  function Split(tx: Tx): seq<Tx>
    requires |tx.values| == |tx.recipients|
  {
    seq(|tx.recipients|, i requires 0 <= i < |tx.recipients| => Tx(tx.sender, [tx.recipients[i]], [tx.values[i]], false))
  }

  // ----- merging and splitting keep the payments -----

  lemma {:induction false} MergeLengths(txs: seq<Tx>)
    requires Shaped(txs)
    ensures |Recipients(txs)| == |Values(txs)| == |AllPayments(txs)|
    ensures forall i | 0 <= i < |AllPayments(txs)| :: AllPayments(txs)[i] == Payment(Recipients(txs)[i], Values(txs)[i])
  {
    if txs != [] {
      assert txs[|txs| - 1] in txs;
      MergeLengths(txs[..|txs| - 1]);
    }
  }

  lemma MergePayments(txs: seq<Tx>)
    requires Shaped(txs) && txs != []
    ensures Even(Merge(txs)) && PaymentsOf(Merge(txs)) == AllPayments(txs)
  {
    MergeLengths(txs);
  }

  lemma {:induction false} SinglePayments(tx: Tx, n: nat)
    requires Even(tx) && n <= |tx.recipients|
    ensures Shaped(Split(tx)[..n]) && AllPayments(Split(tx)[..n]) == PaymentsOf(tx)[..n]
    ensures Recipients(Split(tx)[..n]) == tx.recipients[..n] && Values(Split(tx)[..n]) == tx.values[..n]
  {
    var txs := Split(tx)[..n];
    assert Shaped(txs);
    if n > 0 {
      SinglePayments(tx, n - 1);
      assert txs[..n - 1] == Split(tx)[..n - 1];
      OnePayment(tx, n - 1);
      assert txs[n - 1] == Split(tx)[n - 1];
      assert PaymentsOf(tx)[..n] == PaymentsOf(tx)[..n - 1] + [PaymentsOf(tx)[n - 1]];
      assert tx.recipients[..n] == tx.recipients[..n - 1] + [tx.recipients[n - 1]];
      assert tx.values[..n] == tx.values[..n - 1] + [tx.values[n - 1]];
      hide Split, PaymentsOf;
    }
  }

  lemma OnePayment(tx: Tx, i: nat)
    requires Even(tx) && i < |tx.recipients|
    ensures Even(Split(tx)[i]) && PaymentsOf(Split(tx)[i]) == [PaymentsOf(tx)[i]]
    ensures Split(tx)[i].recipients == [tx.recipients[i]] && Split(tx)[i].values == [tx.values[i]]
  {
  }

  // Splitting gives back the payments in order, so splitting what was merged gives back the
  // payments of the originals, and merging what was split the transaction, up to its flag.
  lemma SplitMerges(txs: seq<Tx>)
    requires Shaped(txs) && txs != []
    ensures Even(Merge(txs)) && Shaped(Split(Merge(txs))) && AllPayments(Split(Merge(txs))) == AllPayments(txs)
  {
    MergePayments(txs);
    var tx := Merge(txs);
    SinglePayments(tx, |tx.recipients|);
    assert Split(tx)[..|tx.recipients|] == Split(tx) && PaymentsOf(tx)[..|tx.recipients|] == PaymentsOf(tx);
  }

  lemma MergeSplits(tx: Tx)
    requires Even(tx) && tx.recipients != []
    ensures Merge(Split(tx)) == tx.(isRelay := false)
  {
    SinglePayments(tx, |tx.recipients|);
    assert Split(tx)[..|tx.recipients|] == Split(tx);
    assert tx.recipients[..|tx.recipients|] == tx.recipients && tx.values[..|tx.values|] == tx.values;
  }

  // ----- what the payments mean -----

  lemma {:induction false} PaySumAppend(ps: seq<Payment>, qs: seq<Payment>, a: Addr)
    ensures PaySum(ps + qs, a) == PaySum(ps, a) + PaySum(qs, a)
  {
    if qs == [] {
      assert ps + qs == ps;
    } else {
      PaySumAppend(ps, qs[..|qs| - 1], a);
      assert (ps + qs)[..|ps + qs| - 1] == ps + qs[..|qs| - 1];
    }
  }

  lemma {:induction false} TxSums(tx: Tx, n: nat, a: Addr)
    requires Even(tx) && n <= |tx.recipients|
    ensures TxPays(tx, n, a) == if !tx.isRelay && tx.sender == a then Sum(tx.values[..n]) else 0
    ensures TxSends(tx, n, a) == PaySum(PaymentsOf(tx)[..n], a)
  {
    if n > 0 {
      TxSums(tx, n - 1, a);
      assert tx.values[..n][..n - 1] == tx.values[..n - 1];
      assert PaymentsOf(tx)[..n][..n - 1] == PaymentsOf(tx)[..n - 1];
    }
  }

  lemma TxSum(tx: Tx, a: Addr)
    requires Even(tx)
    ensures TxPays(tx, |tx.values|, a) == if !tx.isRelay && tx.sender == a then Sum(tx.values) else 0
    ensures TxSends(tx, |tx.values|, a) == PaySum(PaymentsOf(tx), a)
  {
    TxSums(tx, |tx.recipients|, a);
    assert tx.values[..|tx.values|] == tx.values;
    assert PaymentsOf(tx)[..|tx.recipients|] == PaymentsOf(tx);
  }

  // The values of the relayed, or of the fresh, payments.
  ghost function FlagSum(txs: seq<Tx>, relayed: bool): int {
    if txs == [] then 0
    else FlagSum(txs[..|txs| - 1], relayed) + if txs[|txs| - 1].isRelay == relayed then Sum(txs[|txs| - 1].values) else 0
  }

  lemma {:induction false} TxsSums(txs: seq<Tx>, who: Addr, a: Addr)
    requires Shaped(txs) && forall tx | tx in txs && !tx.isRelay :: tx.sender == who
    ensures Pays(txs, a) == if a == who then FlagSum(txs, false) else 0
    ensures Sends(txs, a) == PaySum(AllPayments(txs), a)
    ensures Sum(Values(txs)) == FlagSum(txs, true) + FlagSum(txs, false)
  {
    if txs != [] {
      var init, tx := txs[..|txs| - 1], txs[|txs| - 1];
      assert tx in txs;
      TxsSums(init, who, a);
      TxSum(tx, a);
      PaySumAppend(AllPayments(init), PaymentsOf(tx), a);
      SumAppend(Values(init), tx.values);
    }
  }

  // What is wrong after executing the merged transaction: payments whose flag differs from
  // the first one's are debited though they were paid before, or not debited at all.
  ghost function Misread(txs: seq<Tx>): int
    requires txs != []
  {
    if txs[0].isRelay then FlagSum(txs, false) else -FlagSum(txs, true)
  }

  lemma {:induction false} MergeKnown(known: set<Addr>, txs: seq<Tx>)
    requires TxsKnown(known, txs) && txs != []
    ensures Shaped(txs)
    ensures forall r | r in Recipients(txs) :: r in known
  {
    assert forall tx | tx in txs :: TxKnown(known, tx);
    if |txs| > 1 {
      MergeKnown(known, txs[..|txs| - 1]);
    }
    assert txs[|txs| - 1] in txs;
    assert Recipients(txs[..|txs| - 1]) + txs[|txs| - 1].recipients == Recipients(txs);
    if |txs| == 1 {
      assert Recipients(txs[..0]) == [];
    }
  }

  // The merged transaction against the originals, account by account: everyone but the
  // moving account ends up alike, and that one is off by what was misread.
  lemma MergeMeans(k: int, st: State, txs: seq<Tx>, who: Addr, a: Addr)
    requires txs != [] && TxsKnown(st.Keys, txs) && who in st && a in st
    requires forall tx | tx in txs && !tx.isRelay :: tx.sender == who
    ensures TxKnown(st.Keys, Merge(txs))
    ensures var one, each := ApplyTx(k, st, Merge(txs), |Merge(txs).recipients|)[a], ApplyTxs(k, st, txs)[a];
            one == each.(balance := each.balance + if a == who then Misread(txs) else 0)
  {
    MergeKnown(st.Keys, txs);
    MergePayments(txs);
    var tx := Merge(txs);
    assert txs[0] in txs;
    TxAt(k, st, tx, |tx.recipients|, a);
    TxsAt(k, st, txs, a);
    TxSum(tx, a);
    TxsSums(txs, who, a);
  }

  // Aggregation preserves meaning exactly when the payments whose relay flag differs from
  // the first one's add up to nothing; so always for transactions of one kind.
  lemma MergeIsExact(k: int, st: State, txs: seq<Tx>, who: Addr)
    requires txs != [] && TxsKnown(st.Keys, txs) && who in st
    requires forall tx | tx in txs && !tx.isRelay :: tx.sender == who
    ensures TxKnown(st.Keys, Merge(txs))
    ensures ApplyTx(k, st, Merge(txs), |Merge(txs).recipients|) == ApplyTxs(k, st, txs) <==>
              FlagSum(txs, !txs[0].isRelay) == 0
    ensures (forall tx | tx in txs :: tx.isRelay == txs[0].isRelay) ==>
              ApplyTx(k, st, Merge(txs), |Merge(txs).recipients|) == ApplyTxs(k, st, txs)
  {
    MergeMeans(k, st, txs, who, who);
    var one, each := ApplyTx(k, st, Merge(txs), |Merge(txs).recipients|), ApplyTxs(k, st, txs);
    if forall tx | tx in txs :: tx.isRelay == txs[0].isRelay {
      OneKind(txs, txs[0].isRelay);
    }
    if FlagSum(txs, !txs[0].isRelay) == 0 {
      forall a | a in st ensures one[a] == each[a] {
        MergeMeans(k, st, txs, who, a);
      }
    }
  }

  lemma {:induction false} OneKind(txs: seq<Tx>, relayed: bool)
    requires forall tx | tx in txs :: tx.isRelay == relayed
    ensures FlagSum(txs, !relayed) == 0
  {
    if txs != [] {
      assert txs[|txs| - 1] in txs;
      OneKind(txs[..|txs| - 1], relayed);
    }
  }

  lemma SplitSums(tx: Tx, a: Addr)
    requires Even(tx)
    ensures Shaped(Split(tx))
    ensures Pays(Split(tx), a) == if a == tx.sender then Sum(tx.values) else 0
    ensures Sends(Split(tx), a) == PaySum(PaymentsOf(tx), a)
  {
    var txs := Split(tx);
    SplitWhole(tx);
    OneKind(txs, false);
    assert forall t | t in txs :: t.sender == tx.sender;
    hide Split, Sum, PaySum, PaymentsOf, Pays, Sends, FlagSum, Shaped;
    TxsSums(txs, tx.sender, a);
  }

  lemma SplitWhole(tx: Tx)
    requires Even(tx)
    ensures Shaped(Split(tx)) && AllPayments(Split(tx)) == PaymentsOf(tx) && Values(Split(tx)) == tx.values
  {
    SinglePayments(tx, |tx.recipients|);
    assert Split(tx)[..|tx.recipients|] == Split(tx) && PaymentsOf(tx)[..|tx.recipients|] == PaymentsOf(tx);
    assert tx.values[..|tx.values|] == tx.values;
  }

  lemma SplitKnown(known: set<Addr>, tx: Tx)
    requires TxKnown(known, tx) && tx.sender in known
    ensures TxsKnown(known, Split(tx))
  {
    forall t | t in Split(tx) ensures TxKnown(known, t) {
    }
  }

  lemma SplitAt(k: int, st: State, tx: Tx, a: Addr)
    requires TxKnown(st.Keys, tx) && tx.sender in st && a in st
    ensures TxsKnown(st.Keys, Split(tx))
    ensures var one, each := ApplyTx(k, st, tx, |tx.recipients|)[a], ApplyTxs(k, st, Split(tx))[a];
            each == one.(balance := one.balance - if a == tx.sender && tx.isRelay then Sum(tx.values) else 0)
  {
    hide Split, Sum, PaySum, PaymentsOf, Pays, Sends, TxPays, TxSends, ApplyTx, ApplyTxs;
    SplitKnown(st.Keys, tx);
    TxAt(k, st, tx, |tx.recipients|, a);
    TxsAt(k, st, Split(tx), a);
    TxSum(tx, a);
    SplitSums(tx, a);
  }

  // Splitting loses the relay flag, so it preserves meaning exactly for fresh transactions
  // and for relayed ones that add up to nothing.
  lemma SplitIsExact(k: int, st: State, tx: Tx)
    requires TxKnown(st.Keys, tx) && tx.sender in st
    ensures TxsKnown(st.Keys, Split(tx))
    ensures ApplyTxs(k, st, Split(tx)) == ApplyTx(k, st, tx, |tx.recipients|) <==> !tx.isRelay || Sum(tx.values) == 0
  {
    hide Split, ApplyTx, ApplyTxs;
    SplitAt(k, st, tx, tx.sender);
    var one, each := ApplyTx(k, st, tx, |tx.recipients|), ApplyTxs(k, st, Split(tx));
    if !tx.isRelay || Sum(tx.values) == 0 {
      forall a | a in st ensures one[a] == each[a] {
        SplitAt(k, st, tx, a);
      }
    }
  }

  // A pending relayed payment merged behind a fresh one is paid for again, here by "a".
  lemma MixedExample(k: int)
    ensures var st := map["a" := Account(20, -1, 0), "b" := Account(0, -1, 0)];
            var txs := [Tx("a", ["b"], [5], false), Tx("b", ["a"], [7], true)];
            && TxsKnown(st.Keys, txs) && TxKnown(st.Keys, Merge(txs)) && "a" in st
            && ApplyTx(k, st, Merge(txs), |Merge(txs).recipients|)["a"].balance == ApplyTxs(k, st, txs)["a"].balance - 7
  {
    var st := map["a" := Account(20, -1, 0), "b" := Account(0, -1, 0)];
    var x, y := Tx("a", ["b"], [5], false), Tx("b", ["a"], [7], true);
    var txs := [x, y];
    assert TxKnown(st.Keys, x) && TxKnown(st.Keys, y);
    MergeMeans(k, st, txs, "a", "a");
    assert Misread(txs) == -7 by {
      assert txs[..1] == [x] && [x][..0] == [] && [7][..0] == [];
      assert FlagSum([x], true) == 0 && Sum([7]) == 7;
    }
  }

  // ----- the splitting as the code runs it -----

  method Mtx2totx1(tx: Tx) returns (txs: seq<Tx>)
    requires |tx.values| == |tx.recipients|
    ensures txs == Split(tx)
  {
    txs := [];
    for i := 0 to |tx.recipients|
      invariant txs == Split(tx)[..i]
    {
      txs := txs + [Tx(tx.sender, [tx.recipients[i]], [tx.values[i]], false)];
    }
  }
}
