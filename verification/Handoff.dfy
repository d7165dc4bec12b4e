// pbft/handleanns.go and pbft/pbft.go: when accounts leave a shard, their pending
// transactions are swept out of the queue, merged per account, and queued again at the
// destination.
module Handoff {
  import opened Wrappers
  import opened Ledger
  import opened LedgerLaws
  import opened Aggregation

  // ----- who takes a transaction along -----

  function FirstLeaving(leaving: set<Addr>, rs: seq<Addr>): Option<Addr> {
    if rs == [] then None
    else if rs[0] in leaving then Some(rs[0])
    else FirstLeaving(leaving, rs[1..])
  }

  // A fresh transaction goes with its sender, a relayed one with the first of its
  // recipients that leaves.
  function Owner(leaving: set<Addr>, tx: Tx): Option<Addr> {
    if tx.recipients == [] then None
    else if !tx.isRelay then if tx.sender in leaving then Some(tx.sender) else None
    else FirstLeaving(leaving, tx.recipients)
  }

  // The same without a scan: account a leaves and pays a transaction that is still to be
  // paid, or is the first to leave among the recipients of one that has been paid.
  ghost predicate GoesWith(leaving: set<Addr>, tx: Tx, a: Addr) {
    && a in leaving && tx.recipients != []
    && if !tx.isRelay then tx.sender == a
       else exists i :: FirstAt(leaving, tx.recipients, a, i)
  }

  ghost predicate FirstAt(leaving: set<Addr>, rs: seq<Addr>, a: Addr, i: int) {
    0 <= i < |rs| && rs[i] == a && forall j | 0 <= j < i :: rs[j] !in leaving
  }

  lemma {:induction false} FirstLeavingAt(leaving: set<Addr>, rs: seq<Addr>, a: Addr)
    requires a in leaving
    ensures FirstLeaving(leaving, rs) == Some(a) <==> exists i :: FirstAt(leaving, rs, a, i)
  {
    if rs != [] {
      FirstLeavingAt(leaving, rs[1..], a);
      if i :| FirstAt(leaving, rs, a, i) {
        assert rs[0] in leaving ==> i == 0;
        assert i > 0 ==> FirstAt(leaving, rs[1..], a, i - 1);
      }
      if rs[0] in leaving {
        assert rs[0] == a ==> FirstAt(leaving, rs, a, 0);
      } else if i :| FirstAt(leaving, rs[1..], a, i) {
        assert FirstAt(leaving, rs, a, i + 1);
      }
    }
  }

  lemma OwnerIs(leaving: set<Addr>, tx: Tx, a: Addr)
    ensures Owner(leaving, tx) == Some(a) <==> GoesWith(leaving, tx, a)
  {
    OwnerLeaves(leaving, tx.recipients);
    if a in leaving {
      FirstLeavingAt(leaving, tx.recipients, a);
    }
  }

  ghost predicate GoesWithNone(leaving: set<Addr>, tx: Tx) {
    forall a :: !GoesWith(leaving, tx, a)
  }

  // What goes with an account, and what stays because it goes with none, in order.
  ghost function Along(leaving: set<Addr>, txs: seq<Tx>, a: Addr): seq<Tx> {
    if txs == [] then []
    else
      Along(leaving, txs[..|txs| - 1], a) + if GoesWith(leaving, txs[|txs| - 1], a) then [txs[|txs| - 1]] else []
  }

  ghost function Staying(leaving: set<Addr>, txs: seq<Tx>): seq<Tx> {
    if txs == [] then []
    else
      Staying(leaving, txs[..|txs| - 1])
      + if GoesWithNone(leaving, txs[|txs| - 1]) then [txs[|txs| - 1]] else []
  }

  // The sweep sorts the queue by whom each transaction goes with.
  lemma {:induction false} SweepSorts(leaving: set<Addr>, txs: seq<Tx>, a: Addr)
    ensures Kept(txs, Owners(leaving, txs)) == Staying(leaving, txs)
    ensures Taken(txs, Owners(leaving, txs), a) == Along(leaving, txs, a)
  {
    if txs != [] {
      var n := |txs| - 1;
      SweepSorts(leaving, txs[..n], a);
      assert Owners(leaving, txs)[..n] == Owners(leaving, txs[..n]);
      OwnerIs(leaving, txs[n], a);
      forall x ensures Owner(leaving, txs[n]) == Some(x) <==> GoesWith(leaving, txs[n], x) {
        OwnerIs(leaving, txs[n], x);
      }
      assert Owner(leaving, txs[n]) == None <==> GoesWithNone(leaving, txs[n]) by {
        if Owner(leaving, txs[n]).Some? {
          assert GoesWith(leaving, txs[n], Owner(leaving, txs[n]).value);
        }
      }
      hide GoesWith, GoesWithNone, Owner;
    }
  }

  // After the sweep no payment waits where its payer has left, and no paid one where one of
  // its recipients has; and each account takes along what it has to pay, or what is paid to
  // it and to no account that leaves before it in the list.
  lemma {:induction false} SweptRight(leaving: set<Addr>, txs: seq<Tx>, tx: Tx)
    ensures tx in Staying(leaving, txs) <==>
              tx in txs && (tx.recipients == [] ||
                if tx.isRelay then forall r | r in tx.recipients :: r !in leaving else tx.sender !in leaving)
    ensures forall a :: tx in Along(leaving, txs, a) <==> tx in txs && GoesWith(leaving, tx, a)
  {
    if txs != [] {
      var n := |txs| - 1;
      SweptRight(leaving, txs[..n], tx);
      assert tx in txs <==> tx in txs[..n] || tx == txs[n];
      StaysBehind(leaving, txs[n]);
      hide GoesWith, GoesWithNone;
    }
  }

  lemma StaysBehind(leaving: set<Addr>, tx: Tx)
    ensures GoesWithNone(leaving, tx) <==>
              tx.recipients == [] ||
              if tx.isRelay then forall r | r in tx.recipients :: r !in leaving else tx.sender !in leaving
  {
    if tx.recipients != [] && !tx.isRelay && tx.sender in leaving {
      assert GoesWith(leaving, tx, tx.sender);
    }
    if tx.isRelay {
      OwnerLeaves(leaving, tx.recipients);
      FirstFound(leaving, tx.recipients);
      if FirstLeaving(leaving, tx.recipients).Some? {
        var o := FirstLeaving(leaving, tx.recipients).value;
        FirstLeavingAt(leaving, tx.recipients, o);
        assert GoesWith(leaving, tx, o);
      }
      if a :| GoesWith(leaving, tx, a) {
        assert a in tx.recipients;
      }
    }
  }

  lemma {:induction false} FirstFound(leaving: set<Addr>, rs: seq<Addr>)
    ensures FirstLeaving(leaving, rs).None? <==> forall r | r in rs :: r !in leaving
  {
    if rs != [] {
      FirstFound(leaving, rs[1..]);
      assert forall r | r in rs :: r == rs[0] || r in rs[1..];
    }
  }

  lemma OwnerLeaves(leaving: set<Addr>, rs: seq<Addr>)
    ensures FirstLeaving(leaving, rs).Some? ==> FirstLeaving(leaving, rs).value in leaving
  {
  }

  // What stays in the queue, and what goes with account a, each in order.
  function Kept<T>(xs: seq<T>, owners: seq<Option<Addr>>): seq<T>
    requires |xs| == |owners|
  {
    if xs == [] then []
    else
      Kept(xs[..|xs| - 1], owners[..|xs| - 1]) + if owners[|xs| - 1] == None then [xs[|xs| - 1]] else []
  }

  function Taken<T>(xs: seq<T>, owners: seq<Option<Addr>>, a: Addr): seq<T>
    requires |xs| == |owners|
  {
    if xs == [] then []
    else
      Taken(xs[..|xs| - 1], owners[..|xs| - 1], a) + if owners[|xs| - 1] == Some(a) then [xs[|xs| - 1]] else []
  }

  function Owners(leaving: set<Addr>, txs: seq<Tx>): seq<Option<Addr>> {
    seq(|txs|, i requires 0 <= i < |txs| => Owner(leaving, txs[i]))
  }

  // What travels for one account: one transaction, if there was more than one.
  function Sent(pending: seq<Tx>): seq<Tx> {
    if |pending| > 1 then [Merge(pending)] else pending
  }

  // At most one transaction travels for an account: the payments of all, in their order,
  // with the sender and the flag of the first.
  lemma SentIsOne(pending: seq<Tx>)
    requires Shaped(pending)
    ensures |Sent(pending)| <= 1 && Shaped(Sent(pending)) && AllPayments(Sent(pending)) == AllPayments(pending)
    ensures pending != [] ==> |Sent(pending)| == 1 && Sent(pending)[0].sender == pending[0].sender
                              && Sent(pending)[0].isRelay == pending[0].isRelay
  {
    if |pending| > 1 {
      MergePayments(pending);
      assert AllPayments([Merge(pending)][..0]) == [];
      assert AllPayments([Merge(pending)]) == PaymentsOf(Merge(pending));
    }
  }

  // ----- nothing is lost or doubled -----

  ghost function Bag(txs: seq<Tx>): multiset<Payment>
    requires Shaped(txs)
  {
    multiset(AllPayments(txs))
  }

  lemma BagAppend(txs: seq<Tx>, tx: Tx)
    requires Shaped(txs) && Even(tx)
    ensures Shaped(txs + [tx]) && Bag(txs + [tx]) == Bag(txs) + multiset(PaymentsOf(tx))
  {
    assert (txs + [tx])[..|txs|] == txs;
  }

  lemma {:induction false} BagJoin(txs: seq<Tx>, more: seq<Tx>)
    requires Shaped(txs) && Shaped(more)
    ensures Shaped(txs + more) && Bag(txs + more) == Bag(txs) + Bag(more)
  {
    if more == [] {
      assert txs + more == txs;
    } else {
      var init, tx := more[..|more| - 1], more[|more| - 1];
      assert tx in more && more == init + [tx];
      BagJoin(txs, init);
      BagAppend(txs + init, tx);
      BagAppend(init, tx);
      assert txs + more == txs + init + [tx];
    }
  }

  lemma SentBag(pending: seq<Tx>)
    requires Shaped(pending)
    ensures Shaped(Sent(pending)) && Bag(Sent(pending)) == Bag(pending)
  {
    SentIsOne(pending);
  }

  ghost predicate ShapedAll(m: map<Addr, seq<Tx>>) {
    forall a | a in m :: Shaped(m[a])
  }

  // All payments of the lists of several accounts.
  ghost function Bags(m: map<Addr, seq<Tx>>): multiset<Payment>
    requires ShapedAll(m)
    decreases |m|
  {
    if m == map[] then multiset{}
    else
      var a :| a in m;
      Bag(m[a]) + Bags(m - {a})
  }

  lemma BagsPick(m: map<Addr, seq<Tx>>) returns (x: Addr)
    requires ShapedAll(m) && m != map[]
    ensures x in m && Shaped(m[x]) && ShapedAll(m - {x}) && Bags(m) == Bag(m[x]) + Bags(m - {x})
  {
    hide Bag;
    x :| x in m && Bags(m) == Bag(m[x]) + Bags(m - {x});
  }

  lemma DropTwo<K, V>(m: map<K, V>, x: K, a: K)
    requires x in m && a in m && x != a
    ensures m - {x} - {a} == m - {a} - {x} && a in m - {x} && x in m - {a}
    ensures |m - {x}| < |m| && |m - {a}| < |m|
  {
    assert m.Keys - {x} < m.Keys && m.Keys - {a} < m.Keys;
    assert (m - {x}).Keys == m.Keys - {x} && (m - {a}).Keys == m.Keys - {a};
    assert |m.Keys - {x}| < |m.Keys| && |m.Keys - {a}| < |m.Keys|;
  }

  lemma LessShaped(m: map<Addr, seq<Tx>>, a: Addr)
    requires ShapedAll(m)
    ensures ShapedAll(m - {a}) && (a in m ==> Shaped(m[a]))
  {
  }

  lemma {:induction false} BagsDrop(m: map<Addr, seq<Tx>>, a: Addr)
    requires ShapedAll(m) && a in m
    ensures Shaped(m[a]) && ShapedAll(m - {a}) && Bags(m) == Bag(m[a]) + Bags(m - {a})
    decreases |m|
  {
    hide *;
    assert m != map[];
    LessShaped(m, a);
    var x := BagsPick(m);
    if x != a {
      DropTwo(m, x, a);
      BagsDrop(m - {x}, a);
      BagsDrop(m - {a}, x);
      Exchange(Bag(m[x]), Bag(m[a]), Bags(m - {x} - {a}));
    }
  }

  lemma Exchange(a: multiset<Payment>, b: multiset<Payment>, c: multiset<Payment>)
    ensures a + (b + c) == b + (a + c)
  {
  }

  lemma BagsUpdate(m: map<Addr, seq<Tx>>, a: Addr, tx: Tx)
    requires ShapedAll(m) && a in m && Even(tx)
    ensures ShapedAll(m[a := m[a] + [tx]])
    ensures Bags(m[a := m[a] + [tx]]) == Bags(m) + multiset(PaymentsOf(tx))
  {
    var m' := m[a := m[a] + [tx]];
    BagAppend(m[a], tx);
    BagsDrop(m, a);
    BagsDrop(m', a);
    assert m' - {a} == m - {a};
  }

  // The pending lists of the leaving accounts after the sweep.
  function Swept(txs: seq<Tx>, owners: seq<Option<Addr>>, pending: map<Addr, seq<Tx>>): map<Addr, seq<Tx>>
    requires |txs| == |owners|
  {
    map a | a in pending :: pending[a] + Taken(txs, owners, a)
  }

  ghost predicate OwnersIn(owners: seq<Option<Addr>>, leaving: set<Addr>) {
    forall o | o in owners && o.Some? :: o.value in leaving
  }

  lemma SweepStep(txs: seq<Tx>, owners: seq<Option<Addr>>, pending: map<Addr, seq<Tx>>)
    requires txs != [] && |txs| == |owners| && (owners[|txs| - 1].Some? ==> owners[|txs| - 1].value in pending)
    ensures var init, tx, o := txs[..|txs| - 1], txs[|txs| - 1], owners[|txs| - 1];
            var was := Swept(init, owners[..|txs| - 1], pending);
            && txs == init + [tx] && was.Keys == pending.Keys
            && Kept(txs, owners) == Kept(init, owners[..|txs| - 1]) + (if o == None then [tx] else [])
            && Swept(txs, owners, pending) == if o == None then was else was[o.value := was[o.value] + [tx]]
  {
    KeptStep(txs, owners);
    hide *;
    var init, os, tx, o := txs[..|txs| - 1], owners[..|txs| - 1], txs[|txs| - 1], owners[|txs| - 1];
    assert txs == init + [tx];
    SweptKeys(init, os, pending);
    SweptKeys(txs, owners, pending);
    var was, now := Swept(init, os, pending), Swept(txs, owners, pending);
    forall a | a in pending ensures now[a] == if o == Some(a) then was[a] + [tx] else was[a] {
      SweptOne(txs, owners, pending, a);
    }
    OneChanged(was, now, o, tx);
  }

  lemma KeptStep(txs: seq<Tx>, owners: seq<Option<Addr>>)
    requires txs != [] && |txs| == |owners|
    ensures var n := |txs| - 1;
            Kept(txs, owners) == Kept(txs[..n], owners[..n]) + if owners[n] == None then [txs[n]] else []
  {
  }

  lemma SweptKeys(txs: seq<Tx>, owners: seq<Option<Addr>>, pending: map<Addr, seq<Tx>>)
    requires |txs| == |owners|
    ensures Swept(txs, owners, pending).Keys == pending.Keys
  {
  }

  lemma SweptOne(txs: seq<Tx>, owners: seq<Option<Addr>>, pending: map<Addr, seq<Tx>>, a: Addr)
    requires txs != [] && |txs| == |owners| && a in pending
    ensures var n := |txs| - 1; var was := Swept(txs[..n], owners[..n], pending)[a];
            Swept(txs, owners, pending)[a] == if owners[n] == Some(a) then was + [txs[n]] else was
  {
    var n := |txs| - 1;
    var before := Taken(txs[..n], owners[..n], a);
    assert pending[a] + (before + [txs[n]]) == pending[a] + before + [txs[n]];
    assert before + [] == before;
  }

  lemma OneChanged(was: map<Addr, seq<Tx>>, now: map<Addr, seq<Tx>>, o: Option<Addr>, tx: Tx)
    requires now.Keys == was.Keys && (o.Some? ==> o.value in was)
    requires forall a | a in was :: now[a] == if o == Some(a) then was[a] + [tx] else was[a]
    ensures now == if o == None then was else was[o.value := was[o.value] + [tx]]
  {
  }

  lemma OneMore(a: multiset<Payment>, b: multiset<Payment>, c: multiset<Payment>, d: multiset<Payment>,
                x: multiset<Payment>)
    requires a + b == c + d
    ensures (a + x) + b == (c + x) + d && (a + x) + b == c + (d + x)
  {
    assert (a + x) + b == (a + b) + x && (c + x) + d == (c + d) + x && c + (d + x) == (c + d) + x;
  }

  // The sweep moves every payment either back into the queue or to one leaving account.
  lemma {:induction false} SweepConserves(txs: seq<Tx>, owners: seq<Option<Addr>>, pending: map<Addr, seq<Tx>>)
    requires Shaped(txs) && |txs| == |owners| && ShapedAll(pending) && OwnersIn(owners, pending.Keys)
    ensures Shaped(Kept(txs, owners)) && ShapedAll(Swept(txs, owners, pending))
    ensures Bag(txs) + Bags(pending) == Bag(Kept(txs, owners)) + Bags(Swept(txs, owners, pending))
  {
    if txs == [] {
      forall a | a in pending ensures Swept(txs, owners, pending)[a] == pending[a] {
        assert pending[a] + [] == pending[a];
      }
      assert Swept(txs, owners, pending) == pending;
    } else {
      var init, os, tx, o := txs[..|txs| - 1], owners[..|txs| - 1], txs[|txs| - 1], owners[|txs| - 1];
      assert tx in txs && o in owners && Even(tx) && Shaped(init) && OwnersIn(os, pending.Keys);
      assert o.Some? ==> o.value in pending.Keys;
      hide Kept, Swept, Bag, Bags, OwnersIn, ShapedAll, Shaped, Even;
      SweepConserves(init, os, pending);
      SweepStep(txs, owners, pending);
      BagAppend(init, tx);
      OneMore(Bag(init), Bags(pending), Bag(Kept(init, os)), Bags(Swept(init, os, pending)), multiset(PaymentsOf(tx)));
      if o == None {
        BagAppend(Kept(init, os), tx);
      } else {
        assert Kept(init, os) + [] == Kept(init, os);
        BagsUpdate(Swept(init, os, pending), o.value, tx);
      }
    }
  }

  function AddAll(m: map<Addr, seq<Tx>>, more: map<Addr, seq<Tx>>): map<Addr, seq<Tx>> {
    map a | a in m :: m[a] + if a in more then more[a] else []
  }

  lemma AddAllShaped(m: map<Addr, seq<Tx>>, more: map<Addr, seq<Tx>>)
    requires ShapedAll(m) && ShapedAll(more)
    ensures ShapedAll(AddAll(m, more))
  {
    forall x | x in m ensures Shaped(AddAll(m, more)[x]) {
      BagJoin(m[x], if x in more then more[x] else []);
    }
  }

  lemma {:induction false} AddAllBags(m: map<Addr, seq<Tx>>, more: map<Addr, seq<Tx>>)
    requires ShapedAll(m) && ShapedAll(more) && more.Keys == m.Keys
    ensures ShapedAll(AddAll(m, more)) && Bags(AddAll(m, more)) == Bags(m) + Bags(more)
    decreases |m|
  {
    AddAllShaped(m, more);
    if a :| a in m {
      var ms, mores := m - {a}, more - {a};
      assert AddAll(m, more) - {a} == AddAll(ms, mores) && AddAll(m, more)[a] == m[a] + more[a];
      assert ShapedAll(ms) && ShapedAll(mores) && mores.Keys == ms.Keys;
      hide Bag, Bags, AddAll;
      AddAllBags(ms, mores);
      BagJoin(m[a], more[a]);
      BagsDrop(m, a);
      BagsDrop(more, a);
      BagsDrop(AddAll(m, more), a);
    } else {
      assert m == map[] && more == map[];
      assert AddAll(m, more) == map[];
    }
  }

  function SentAll(pending: map<Addr, seq<Tx>>): map<Addr, seq<Tx>> {
    map a | a in pending :: Sent(pending[a])
  }

  lemma SentAllShaped(pending: map<Addr, seq<Tx>>)
    requires ShapedAll(pending)
    ensures ShapedAll(SentAll(pending))
  {
    forall x | x in pending ensures Shaped(Sent(pending[x])) {
      SentBag(pending[x]);
    }
  }

  lemma {:induction false} SentAllBags(pending: map<Addr, seq<Tx>>)
    requires ShapedAll(pending)
    ensures ShapedAll(SentAll(pending)) && Bags(SentAll(pending)) == Bags(pending)
    decreases |pending|
  {
    SentAllShaped(pending);
    if a :| a in pending {
      var rest := pending - {a};
      assert SentAll(pending) - {a} == SentAll(rest) && SentAll(pending)[a] == Sent(pending[a]);
      assert ShapedAll(rest);
      hide Bag, Bags, SentAll, Sent;
      SentAllBags(rest);
      SentBag(pending[a]);
      BagsDrop(pending, a);
      BagsDrop(SentAll(pending), a);
    } else {
      assert pending == map[];
      assert SentAll(pending) == map[];
    }
  }

  lemma OwnersLeave(leaving: set<Addr>, txs: seq<Tx>)
    ensures OwnersIn(Owners(leaving, txs), leaving)
  {
    var owners := Owners(leaving, txs);
    forall o | o in owners && o.Some? ensures o.value in leaving {
      var i :| 0 <= i < |owners| && owners[i] == o;
      OwnerLeaves(leaving, txs[i].recipients);
    }
  }

  // What travels, as a function of the pool.
  function ToSend(txs: seq<Tx>, befores: map<Addr, seq<Tx>>, afters: map<Addr, seq<Tx>>): map<Addr, seq<Tx>> {
    AddAll(Swept(txs, Owners(befores.Keys, txs), befores), afters)
  }

  // Hand-off loses and doubles nothing: the payments of the queue and of the parked pools
  // of the leaving accounts are those of the remaining queue and of what is sent.
  lemma HandoffConserves(queue: seq<Tx>, before: map<Addr, seq<Tx>>, after: map<Addr, seq<Tx>>)
    requires Shaped(queue) && ShapedAll(before) && ShapedAll(after) && after.Keys == before.Keys
    ensures var owners := Owners(before.Keys, queue);
            var sent := SentAll(ToSend(queue, before, after));
            && Shaped(Kept(queue, owners)) && ShapedAll(sent)
            && Bag(queue) + Bags(before) + Bags(after) == Bag(Kept(queue, owners)) + Bags(sent)
  {
    var owners := Owners(before.Keys, queue);
    OwnersLeave(before.Keys, queue);
    SweepConserves(queue, owners, before);
    AddAllBags(Swept(queue, owners, before), after);
    SentAllBags(AddAll(Swept(queue, owners, before), after));
  }

  // At the destination, everything received is queued.
  method Enqueue(queue: seq<Tx>, list: map<Addr, seq<Tx>>) returns (queue': seq<Tx>)
    requires Shaped(queue) && ShapedAll(list)
    ensures Shaped(queue') && Bag(queue') == Bag(queue) + Bags(list)
    ensures queue <= queue' && forall tx :: tx in queue' <==> tx in queue || exists a :: a in list && tx in list[a]
  {
    hide Bag, Bags;
    queue' := queue;
    var todo := list;
    assert Bags(map[]) == multiset{} by { NoBags(); }
    while todo != map[]
      invariant todo.Keys <= list.Keys && (forall a | a in todo :: todo[a] == list[a])
      invariant ShapedAll(todo) && Shaped(queue') && Bag(queue') + Bags(todo) == Bag(queue) + Bags(list)
      invariant queue <= queue'
      invariant forall tx :: tx in queue' <==> tx in queue || exists a :: a in list && a !in todo && tx in list[a]
      decreases |todo|
    {
      var a :| a in todo;
      BagsDrop(todo, a);
      BagJoin(queue', todo[a]);
      ghost var was := queue';
      for i := 0 to |todo[a]|
        invariant queue' == was + todo[a][..i]
      {
        queue' := queue' + [todo[a][i]];
      }
      assert todo[a][..|todo[a]|] == todo[a];
      todo := todo - {a};
    }
  }

  lemma NoBags()
    ensures Bags(map[]) == multiset{}
  {
  }

  // ----- all destinations together -----

  function SentTo(sent: map<Addr, seq<Tx>>, gone: map<Addr, int>, j: int): map<Addr, seq<Tx>> {
    map a | a in sent && a in gone && gone[a] == j :: sent[a]
  }

  ghost predicate AllShaped(queues: seq<seq<Tx>>) {
    forall q | q in queues :: Shaped(q)
  }

  ghost function QueueBags(queues: seq<seq<Tx>>): multiset<Payment>
    requires AllShaped(queues)
  {
    if queues == [] then multiset{}
    else
      assert queues[|queues| - 1] in queues;
      QueueBags(queues[..|queues| - 1]) + Bag(queues[|queues| - 1])
  }

  lemma QueueBagsAppend(queues: seq<seq<Tx>>, queue: seq<Tx>)
    requires AllShaped(queues) && Shaped(queue)
    ensures AllShaped(queues + [queue]) && QueueBags(queues + [queue]) == QueueBags(queues) + Bag(queue)
  {
    assert (queues + [queue])[..|queues|] == queues;
  }

  // The accounts sent to the first n shards.
  function SentBelow(sent: map<Addr, seq<Tx>>, gone: map<Addr, int>, n: int): map<Addr, seq<Tx>> {
    map a | a in sent && a in gone && 0 <= gone[a] < n :: sent[a]
  }

  lemma SomeShaped(sent: map<Addr, seq<Tx>>, gone: map<Addr, int>, j: int)
    requires ShapedAll(sent)
    ensures ShapedAll(SentTo(sent, gone, j)) && ShapedAll(SentBelow(sent, gone, j))
  {
  }

  lemma {:induction false} BagsSplit(m: map<Addr, seq<Tx>>, part: map<Addr, seq<Tx>>, rest: map<Addr, seq<Tx>>)
    requires ShapedAll(m) && m == part + rest && part.Keys !! rest.Keys
    ensures ShapedAll(part) && ShapedAll(rest) && Bags(m) == Bags(part) + Bags(rest)
    decreases |part|
  {
    hide *;
    PartsShaped(m, part, rest);
    if a :| a in part {
      SplitLess(m, part, rest, a);
      LessShaped(m, a);
      BagsSplit(m - {a}, part - {a}, rest);
      BagsDrop(m, a);
      BagsDrop(part, a);
      Regroup(Bag(m[a]), Bags(part - {a}), Bags(rest));
    } else {
      assert part == map[] && m == rest;
      NoBags();
      NothingMore(Bags(rest));
    }
  }

  lemma SplitLess<K, V>(m: map<K, V>, part: map<K, V>, rest: map<K, V>, a: K)
    requires m == part + rest && part.Keys !! rest.Keys && a in part
    ensures a in m && m[a] == part[a] && m - {a} == (part - {a}) + rest && (part - {a}).Keys !! rest.Keys
    ensures |part - {a}| < |part|
  {
    assert (part - {a}).Keys == part.Keys - {a};
    assert |part.Keys - {a}| < |part.Keys|;
  }

  lemma PartsShaped(m: map<Addr, seq<Tx>>, part: map<Addr, seq<Tx>>, rest: map<Addr, seq<Tx>>)
    requires ShapedAll(m) && m == part + rest && part.Keys !! rest.Keys
    ensures ShapedAll(part) && ShapedAll(rest)
  {
    assert forall a | a in part :: part[a] == m[a];
    assert forall a | a in rest :: rest[a] == m[a];
  }

  lemma Regroup(a: multiset<Payment>, b: multiset<Payment>, c: multiset<Payment>)
    ensures a + (b + c) == (a + b) + c
  {
  }

  lemma NothingMore(a: multiset<Payment>)
    ensures multiset{} + a == a
  {
  }

  // A queue and what it is after a list has been added.
  ghost predicate Received(queue: seq<Tx>, queue': seq<Tx>, list: map<Addr, seq<Tx>>) {
    && Shaped(queue) && Shaped(queue') && ShapedAll(list)
    && Bag(queue') == Bag(queue) + Bags(list)
  }

  // Each destination queues the lists of the accounts that go there.
  method DeliverAll(queues: seq<seq<Tx>>, sent: map<Addr, seq<Tx>>, gone: map<Addr, int>)
    returns (queues': seq<seq<Tx>>)
    requires AllShaped(queues) && ShapedAll(sent)
    requires forall a | a in sent :: a in gone && 0 <= gone[a] < |queues|
    ensures |queues'| == |queues| && AllShaped(queues')
    ensures forall j | 0 <= j < |queues| ::
              Received(queues[j], queues'[j], map a | a in sent && gone[a] == j :: sent[a])
    ensures QueueBags(queues') == QueueBags(queues) + Bags(sent)
  {
    queues' := [];
    NothingSent(sent, gone);
    hide Bag, Bags, Shaped, ShapedAll, SentTo, SentBelow, QueueBags, Received, AllShaped;
    for j := 0 to |queues|
      invariant |queues'| == j && AllShaped(queues') && AllShaped(queues[..j]) && ShapedAll(SentBelow(sent, gone, j))
      invariant forall i | 0 <= i < j :: Received(queues[i], queues'[i], SentTo(sent, gone, i))
      invariant QueueBags(queues') == QueueBags(queues[..j]) + Bags(SentBelow(sent, gone, j))
    {
      InQueues(queues, j);
      SomeShaped(sent, gone, j);
      var queue := Enqueue(queues[j], SentTo(sent, gone, j));
      DeliveredOne(queues, queues', sent, gone, j, queue);
      queues' := queues' + [queue];
    }
    assert queues[..|queues|] == queues;
    AllSent(sent, gone, |queues|);
    forall j | 0 <= j < |queues|
      ensures Received(queues[j], queues'[j], map a | a in sent && gone[a] == j :: sent[a])
    {
      SentToIs(sent, gone, j);
    }
  }

  lemma SentToIs(sent: map<Addr, seq<Tx>>, gone: map<Addr, int>, j: int)
    requires forall a | a in sent :: a in gone
    ensures SentTo(sent, gone, j) == map a | a in sent && gone[a] == j :: sent[a]
  {
  }

  lemma NothingSent(sent: map<Addr, seq<Tx>>, gone: map<Addr, int>)
    ensures SentBelow(sent, gone, 0) == map[] && ShapedAll(map[]) && Bags(map[]) == multiset{}
    ensures AllShaped([]) && QueueBags([]) == multiset{}
  {
    assert forall a | a in SentBelow(sent, gone, 0) :: false;
  }

  lemma InQueues(queues: seq<seq<Tx>>, j: nat)
    requires AllShaped(queues) && j < |queues|
    ensures Shaped(queues[j])
  {
    assert queues[j] in queues;
  }

  lemma DeliveredOne(queues: seq<seq<Tx>>, done: seq<seq<Tx>>, sent: map<Addr, seq<Tx>>, gone: map<Addr, int>,
                     j: nat, queue: seq<Tx>)
    requires j < |queues| && Shaped(queues[j]) && Shaped(queue) && AllShaped(done) && AllShaped(queues[..j])
    requires ShapedAll(sent) && ShapedAll(SentTo(sent, gone, j)) && ShapedAll(SentBelow(sent, gone, j))
    requires QueueBags(done) == QueueBags(queues[..j]) + Bags(SentBelow(sent, gone, j))
    requires Bag(queue) == Bag(queues[j]) + Bags(SentTo(sent, gone, j))
    ensures Received(queues[j], queue, SentTo(sent, gone, j))
    ensures AllShaped(done + [queue]) && AllShaped(queues[..j + 1]) && ShapedAll(SentBelow(sent, gone, j + 1))
    ensures QueueBags(done + [queue]) == QueueBags(queues[..j + 1]) + Bags(SentBelow(sent, gone, j + 1))
  {
    hide Bag, Bags, QueueBags, SentTo, SentBelow, Shaped, ShapedAll, AllShaped;
    SomeShaped(sent, gone, j + 1);
    NextShard(sent, gone, j);
    QueueBagsAppend(done, queue);
    QueueBagsAppend(queues[..j], queues[j]);
    assert queues[..j + 1] == queues[..j] + [queues[j]];
    FourSum(QueueBags(queues[..j]), Bags(SentBelow(sent, gone, j)), Bag(queues[j]), Bags(SentTo(sent, gone, j)));
  }

  lemma FourSum(a: multiset<Payment>, b: multiset<Payment>, c: multiset<Payment>, d: multiset<Payment>)
    ensures (a + b) + (c + d) == (a + c) + (b + d)
  {
  }

  lemma NextShard(sent: map<Addr, seq<Tx>>, gone: map<Addr, int>, j: nat)
    requires ShapedAll(sent) && ShapedAll(SentBelow(sent, gone, j + 1))
    ensures ShapedAll(SentBelow(sent, gone, j)) && ShapedAll(SentTo(sent, gone, j))
    ensures Bags(SentBelow(sent, gone, j + 1)) == Bags(SentBelow(sent, gone, j)) + Bags(SentTo(sent, gone, j))
  {
    BagsSplit(SentBelow(sent, gone, j + 1), SentBelow(sent, gone, j), SentTo(sent, gone, j));
  }

  lemma AllSent(sent: map<Addr, seq<Tx>>, gone: map<Addr, int>, n: nat)
    requires forall a | a in sent :: a in gone && 0 <= gone[a] < n
    ensures SentBelow(sent, gone, n) == sent
  {
  }

  lemma ToSendAt(txs: seq<Tx>, owners: seq<Option<Addr>>, befores: map<Addr, seq<Tx>>, afters: map<Addr, seq<Tx>>,
                 a: Addr)
    requires |txs| == |owners| && a in befores && a in afters
    ensures AddAll(Swept(txs, owners, befores), afters)[a] == befores[a] + Taken(txs, owners, a) + afters[a]
  {
  }

  // What is sent, account by account.
  lemma SentAlong(leaving: set<Addr>, txs: seq<Tx>, befores: map<Addr, seq<Tx>>, afters: map<Addr, seq<Tx>>)
    requires befores.Keys == afters.Keys == leaving
    ensures Kept(txs, Owners(leaving, txs)) == Staying(leaving, txs)
    ensures SentAll(ToSend(txs, befores, afters)).Keys == leaving
    ensures forall a | a in leaving ::
              SentAll(ToSend(txs, befores, afters))[a] == Sent(befores[a] + Along(leaving, txs, a) + afters[a])
  {
    SweepSorts(leaving, txs, "");
    forall a | a in leaving
      ensures SentAll(ToSend(txs, befores, afters))[a] == Sent(befores[a] + Along(leaving, txs, a) + afters[a])
    {
      SweepSorts(leaving, txs, a);
      ToSendAt(txs, Owners(leaving, txs), befores, afters, a);
    }
    hide Sent, Staying, Along, Kept, Taken, Owners;
  }

  // What travels to shard j: for each account that goes there, what was parked before, what
  // it takes along from the queue, and what was parked after, merged.
  ghost function Travels(queue: seq<Tx>, before: map<Addr, seq<Tx>>, after: map<Addr, seq<Tx>>,
                         gone: map<Addr, int>, j: int): map<Addr, seq<Tx>>
    requires after.Keys == before.Keys == gone.Keys
  {
    map a | a in gone && gone[a] == j :: Sent(before[a] + Along(before.Keys, queue, a) + after[a])
  }

  lemma TravelsIs(queue: seq<Tx>, before: map<Addr, seq<Tx>>, after: map<Addr, seq<Tx>>, gone: map<Addr, int>, j: int,
                  sent: map<Addr, seq<Tx>>)
    requires after.Keys == before.Keys == gone.Keys == sent.Keys
    requires forall a | a in before :: sent[a] == Sent(before[a] + Along(before.Keys, queue, a) + after[a])
    ensures (map a | a in sent && gone[a] == j :: sent[a]) == Travels(queue, before, after, gone, j)
  {
  }

  // From the source to all destinations, no payment is lost or doubled: those queued and
  // parked before are those of the remaining queue and of all destination queues.
  method HandOver(queue: seq<Tx>, before: map<Addr, seq<Tx>>, after: map<Addr, seq<Tx>>, gone: map<Addr, int>,
                  queues: seq<seq<Tx>>)
    returns (rest: seq<Tx>, queues': seq<seq<Tx>>)
    requires Shaped(queue) && ShapedAll(before) && ShapedAll(after) && after.Keys == before.Keys == gone.Keys
    requires AllShaped(queues) && forall a | a in gone :: 0 <= gone[a] < |queues|
    ensures Shaped(rest) && AllShaped(queues') && |queues'| == |queues|
    ensures Bag(queue) + Bags(before) + Bags(after) + QueueBags(queues) == Bag(rest) + QueueBags(queues')
    ensures rest == Staying(before.Keys, queue)
    ensures forall j | 0 <= j < |queues| ::
              Received(queues[j], queues'[j], Travels(queue, before, after, gone, j))
  {
    SentAlong(before.Keys, queue, before, after);
    HandoffConserves(queue, before, after);
    rest := Kept(queue, Owners(before.Keys, queue));
    var sent := SentAll(ToSend(queue, before, after));
    assert sent.Keys == before.Keys;
    hide Kept, Owners, SentAll, ToSend, Bag, Bags, QueueBags, Received, Travels;
    queues' := DeliverAll(queues, sent, gone);
    forall j | 0 <= j < |queues| ensures Received(queues[j], queues'[j], Travels(queue, before, after, gone, j)) {
      TravelsIs(queue, before, after, gone, j, sent);
    }
    assert (Bag(rest) + Bags(sent)) + QueueBags(queues) == Bag(rest) + (QueueBags(queues) + Bags(sent));
  }
}
