// pbft/handleanns.go: the same on the transaction objects of the pool.
module HandoffPool {
  import opened Wrappers
  import opened Ledger
  import LedgerLaws
  import Aggregation
  import opened Handoff

  class Pending {
    var sender: Addr
    var recipients: seq<Addr>
    var values: seq<int>
    const isRelay: bool

    constructor (tx: Tx)
      ensures View() == tx
    {
      sender, recipients, values, isRelay := tx.sender, tx.recipients, tx.values, tx.isRelay;
    }

    function View(): Tx
      reads this
    {
      Tx(sender, recipients, values, isRelay)
    }
  }

  function Views(ps: seq<Pending>): (txs: seq<Tx>)
    reads ps
    ensures |txs| == |ps|
  {
    if ps == [] then [] else Views(ps[..|ps| - 1]) + [ps[|ps| - 1].View()]
  }

  lemma {:induction false} ViewsAt(ps: seq<Pending>, i: nat)
    requires i < |ps|
    ensures Views(ps)[i] == ps[i].View()
  {
    if i < |ps| - 1 {
      ViewsAt(ps[..|ps| - 1], i);
    }
  }

  // The scan over the recipients of one queued transaction.
  method OwnerOf(leaving: set<Addr>, t: Pending) returns (o: Option<Addr>)
    ensures o == Owner(leaving, t.View())
    ensures forall a :: o == Some(a) <==> GoesWith(leaving, t.View(), a)
  {
    forall a ensures Owner(leaving, t.View()) == Some(a) <==> GoesWith(leaving, t.View(), a) {
      OwnerIs(leaving, t.View(), a);
    }
    hide GoesWith;
    for i := 0 to |t.recipients|
      invariant t.isRelay || t.recipients == [] || i == 0 || t.sender !in leaving
      invariant t.isRelay ==> FirstLeaving(leaving, t.recipients) == FirstLeaving(leaving, t.recipients[i..])
    {
      if t.sender in leaving && !t.isRelay {
        return Some(t.sender);
      }
      if t.recipients[i] in leaving && t.isRelay {
        return Some(t.recipients[i]);
      }
    }
    return None;
  }

  lemma SortStep<T>(q: seq<T>, owners: seq<Option<Addr>>, i: nat)
    requires i < |q| == |owners|
    ensures Kept(q[..i + 1], owners[..i + 1]) == Kept(q[..i], owners[..i]) + (if owners[i] == None then [q[i]] else [])
    ensures forall a :: Taken(q[..i + 1], owners[..i + 1], a) ==
                        Taken(q[..i], owners[..i], a) + if owners[i] == Some(a) then [q[i]] else []
  {
    assert q[..i + 1][..i] == q[..i] && owners[..i + 1][..i] == owners[..i];
  }

  // How far the sweep has got: front holds what stayed of the first i transactions.
  ghost predicate SweptTo<T>(q: seq<T>, owners: seq<Option<Addr>>, i: nat, front: seq<T>,
                             pending: map<Addr, seq<T>>, pending': map<Addr, seq<T>>)
    requires i <= |q| == |owners|
  {
    && front == Kept(q[..i], owners[..i]) && pending'.Keys == pending.Keys
    && forall a | a in pending :: pending'[a] == pending[a] + Taken(q[..i], owners[..i], a)
  }

  // The queue is compacted in place: what stays moves to the front, in order.
  method Sweep(leaving: set<Addr>, queue: array<Pending>, pending: map<Addr, seq<Pending>>)
    returns (j: nat, pending': map<Addr, seq<Pending>>)
    requires pending.Keys == leaving
    modifies queue
    ensures j <= queue.Length
    ensures var q := old(queue[..]); var owners := Owners(leaving, Views(q));
            && queue[..j] == Kept(q, owners)
            && pending'.Keys == leaving
            && forall a | a in leaving :: pending'[a] == pending[a] + Taken(q, owners, a)
    ensures Views(queue[..j]) == Staying(leaving, Views(old(queue[..])))
    ensures forall a | a in leaving :: Views(pending'[a]) == Views(pending[a]) + Along(leaving, Views(old(queue[..])), a)
  {
    hide Owners, Views, Owner, Kept, Taken, SweptTo;
    j, pending' := 0, pending;
    ghost var q := queue[..];
    ghost var owners := Owners(leaving, Views(q));
    OwnersAre(leaving, q);
    SweepStart(q, owners, pending);
    for i := 0 to queue.Length
      invariant j <= i && |owners| == |q| == queue.Length
      invariant forall k | i <= k < queue.Length :: queue[k] == q[k]
      invariant SweptTo(q, owners, i, queue[..j], pending, pending') && pending'.Keys == leaving
    {
      var t := queue[i];
      var o := OwnerOf(leaving, t);
      OwnerIn(leaving, t.View());
      SweptStep(q, owners, i, queue[..j], pending, pending');
      if o.Some? {
        pending' := pending'[o.value := pending'[o.value] + [t]];
      } else {
        ghost var front := queue[..j];
        queue[j] := t;
        j := j + 1;
        assert queue[..j] == front + [t];
      }
    }
    SweepEnd(q, owners, queue[..j], pending, pending');
    ViewsStay(q);
    assert owners == Owners(leaving, Views(q));
    SweptViews(leaving, q, pending, pending');
  }

  lemma SweptViews(leaving: set<Addr>, q: seq<Pending>,
                   pending: map<Addr, seq<Pending>>, pending': map<Addr, seq<Pending>>)
    requires pending.Keys == pending'.Keys == leaving
    requires forall a | a in leaving :: pending'[a] == pending[a] + Taken(q, Owners(leaving, Views(q)), a)
    ensures Views(Kept(q, Owners(leaving, Views(q)))) == Staying(leaving, Views(q))
    ensures forall a | a in leaving :: Views(pending'[a]) == Views(pending[a]) + Along(leaving, Views(q), a)
  {
    hide *;
    var owners := Owners(leaving, Views(q));
    OwnersAre(leaving, q);
    KeptViews(q, owners);
    SweepSorts(leaving, Views(q), "");
    forall a | a in leaving ensures Views(pending'[a]) == Views(pending[a]) + Along(leaving, Views(q), a) {
      SweepSorts(leaving, Views(q), a);
      TakenViews(q, owners, a);
      ViewsJoin(pending[a], Taken(q, owners, a));
    }
  }

  lemma SweepEnd(q: seq<Pending>, owners: seq<Option<Addr>>, front: seq<Pending>,
                 pending: map<Addr, seq<Pending>>, pending': map<Addr, seq<Pending>>)
    requires |q| == |owners| && SweptTo(q, owners, |q|, front, pending, pending')
    ensures front == Kept(q, owners) && pending'.Keys == pending.Keys
    ensures forall a | a in pending :: pending'[a] == pending[a] + Taken(q, owners, a)
  {
    assert q[..|q|] == q && owners[..|q|] == owners;
    hide Kept, Taken;
  }

  lemma OwnersAre(leaving: set<Addr>, q: seq<Pending>)
    ensures |Owners(leaving, Views(q))| == |q|
    ensures forall i | 0 <= i < |q| :: Owners(leaving, Views(q))[i] == Owner(leaving, q[i].View())
  {
    forall i | 0 <= i < |q| ensures Owners(leaving, Views(q))[i] == Owner(leaving, q[i].View()) {
      ViewsAt(q, i);
    }
  }

  lemma OwnerIn(leaving: set<Addr>, tx: Tx)
    ensures Owner(leaving, tx).Some? ==> Owner(leaving, tx).value in leaving
  {
    OwnerLeaves(leaving, tx.recipients);
  }

  lemma SweepStart(q: seq<Pending>, owners: seq<Option<Addr>>, pending: map<Addr, seq<Pending>>)
    requires |q| == |owners|
    ensures SweptTo(q, owners, 0, [], pending, pending)
  {
    forall a | a in pending ensures pending[a] == pending[a] + Taken(q[..0], owners[..0], a) {
      assert pending[a] + [] == pending[a];
    }
  }

  lemma SweptStep(q: seq<Pending>, owners: seq<Option<Addr>>, i: nat, front: seq<Pending>,
                  pending: map<Addr, seq<Pending>>, pending': map<Addr, seq<Pending>>)
    requires i < |q| == |owners| && SweptTo(q, owners, i, front, pending, pending')
    requires owners[i].Some? ==> owners[i].value in pending
    ensures pending'.Keys == pending.Keys
    ensures if owners[i].Some?
            then SweptTo(q, owners, i + 1, front, pending, pending'[owners[i].value := pending'[owners[i].value] + [q[i]]])
            else SweptTo(q, owners, i + 1, front + [q[i]], pending, pending')
  {
    SortStep(q, owners, i);
    var t, o := q[i], owners[i];
    forall a | a in pending
      ensures pending[a] + Taken(q[..i + 1], owners[..i + 1], a) == pending'[a] + if o == Some(a) then [t] else []
    {
      assert pending[a] + (Taken(q[..i], owners[..i], a) + [t]) == pending[a] + Taken(q[..i], owners[..i], a) + [t];
      assert Taken(q[..i], owners[..i], a) + [] == Taken(q[..i], owners[..i], a);
      assert pending'[a] + [] == pending'[a];
    }
    assert front + [] == front;
    hide Kept, Taken;
  }

  // The pending transactions of one account are merged into the first of them.
  method MergePending(pending: seq<Pending>) returns (out: seq<Pending>)
    requires forall p | p in pending :: |p.values| == |p.recipients|
    requires forall i | 0 < i < |pending| :: pending[i] != pending[0]
    modifies if |pending| > 1 then {pending[0]} else {}
    ensures out == if |pending| > 1 then [pending[0]] else pending
    ensures Views(out) == Sent(old(Views(pending)))
  {
    if |pending| <= 1 {
      return pending;
    }
    ghost var views := Views(pending);
    var head := pending[0];
    forall k | 0 <= k < |pending| ensures pending[k].View() == views[k] {
      ViewsAt(pending, k);
    }
    MergeStart(views);
    hide Views, Aggregation.Recipients, Aggregation.Values;
    for i := 1 to |pending|
      invariant head.recipients == Aggregation.Recipients(views[..i]) && head.values == Aggregation.Values(views[..i])
      invariant head.sender == old(head.sender)
      invariant forall k | 0 < k < |pending| :: pending[k].View() == views[k]
    {
      MergeStep(views, i);
      assert pending[i].View() == views[i];
      AppendTo(head, pending[i]);
    }
    assert views[..|pending|] == views;
    out := [head];
    ViewOfOne(head);
  }

  lemma MergeStart(txs: seq<Tx>)
    requires txs != []
    ensures Aggregation.Recipients(txs[..1]) == txs[0].recipients && Aggregation.Values(txs[..1]) == txs[0].values
  {
    assert txs[..1] == [txs[0]] && [txs[0]][..0] == [];
  }

  lemma MergeStep(txs: seq<Tx>, i: nat)
    requires i < |txs|
    ensures Aggregation.Recipients(txs[..i + 1]) == Aggregation.Recipients(txs[..i]) + txs[i].recipients
    ensures Aggregation.Values(txs[..i + 1]) == Aggregation.Values(txs[..i]) + txs[i].values
  {
    assert txs[..i + 1][..i] == txs[..i];
  }

  lemma ViewOfOne(t: Pending)
    ensures Views([t]) == [t.View()]
  {
  }

  method AppendTo(head: Pending, t: Pending)
    requires head != t && |t.values| == |t.recipients|
    modifies head
    ensures head.sender == old(head.sender)
    ensures head.recipients == old(head.recipients) + t.recipients && head.values == old(head.values) + t.values
  {
    for k := 0 to |t.recipients|
      invariant head.sender == old(head.sender)
      invariant head.recipients == old(head.recipients) + t.recipients[..k]
      invariant head.values == old(head.values) + t.values[..k]
    {
      head.recipients := head.recipients + [t.recipients[k]];
      head.values := head.values + [t.values[k]];
    }
  }

  // ----- the whole hand-off -----

  ghost predicate NoDup(ps: seq<Pending>) {
    forall i, j | 0 <= i < j < |ps| :: ps[i] != ps[j]
  }

  // No transaction object is in two places.
  ghost predicate Apart(m: map<Addr, seq<Pending>>) {
    && (forall a | a in m :: NoDup(m[a]))
    && (forall a, b, p | a in m && b in m && p in m[a] && p in m[b] :: a == b)
  }

  ghost predicate OnceEach(queue: seq<Pending>, before: map<Addr, seq<Pending>>, after: map<Addr, seq<Pending>>) {
    && NoDup(queue) && Apart(before) && Apart(after)
    && (forall a, p | a in before && p in before[a] :: p !in queue)
    && (forall a, p | a in after && p in after[a] :: p !in queue)
    && (forall a, b, p | a in before && b in after && p in before[a] :: p !in after[b])
  }

  ghost function Objects(m: map<Addr, seq<Pending>>): set<Pending> {
    set a, p | a in m && p in m[a] :: p
  }

  lemma NoDupJoin(ps: seq<Pending>, qs: seq<Pending>)
    requires NoDup(ps) && NoDup(qs) && forall p | p in ps :: p !in qs
    ensures NoDup(ps + qs)
  {
    var all := ps + qs;
    forall i, j | 0 <= i < j < |all| ensures all[i] != all[j] {
      if i < |ps| && |ps| <= j {
        assert ps[i] in ps && qs[j - |ps|] in qs;
      }
    }
  }

  lemma {:induction false} TakenFrom(q: seq<Pending>, owners: seq<Option<Addr>>, a: Addr, p: Pending)
    requires |q| == |owners| && p in Taken(q, owners, a)
    ensures p in q && exists i :: 0 <= i < |q| && q[i] == p && owners[i] == Some(a)
  {
    var n := |q| - 1;
    if p in Taken(q[..n], owners[..n], a) {
      TakenFrom(q[..n], owners[..n], a, p);
      var i :| 0 <= i < n && q[..n][i] == p && owners[..n][i] == Some(a);
      assert q[i] == p && owners[i] == Some(a);
    } else {
      assert q[n] == p && owners[n] == Some(a);
    }
  }

  lemma {:induction false} TakenNoDup(q: seq<Pending>, owners: seq<Option<Addr>>, a: Addr)
    requires |q| == |owners| && NoDup(q)
    ensures NoDup(Taken(q, owners, a))
  {
    if q != [] {
      var n := |q| - 1;
      TakenNoDup(q[..n], owners[..n], a);
      forall p | p in Taken(q[..n], owners[..n], a) ensures p != q[n] {
        TakenFrom(q[..n], owners[..n], a, p);
      }
      NoDupJoin(Taken(q[..n], owners[..n], a), if owners[n] == Some(a) then [q[n]] else []);
    }
  }

  lemma TakenApart(q: seq<Pending>, owners: seq<Option<Addr>>, a: Addr, b: Addr, p: Pending)
    requires |q| == |owners| && NoDup(q) && p in Taken(q, owners, a) && p in Taken(q, owners, b)
    ensures a == b
  {
    TakenFrom(q, owners, a, p);
    TakenFrom(q, owners, b, p);
  }

  lemma {:induction false} TakenViews(q: seq<Pending>, owners: seq<Option<Addr>>, a: Addr)
    requires |q| == |owners|
    ensures Views(Taken(q, owners, a)) == Taken(Views(q), owners, a)
  {
    if q != [] {
      var n := |q| - 1;
      TakenViews(q[..n], owners[..n], a);
      assert Views(q)[..n] == Views(q[..n]);
      ViewsJoin(Taken(q[..n], owners[..n], a), if owners[n] == Some(a) then [q[n]] else []);
    }
  }

  lemma {:induction false} KeptViews(q: seq<Pending>, owners: seq<Option<Addr>>)
    requires |q| == |owners|
    ensures Views(Kept(q, owners)) == Kept(Views(q), owners)
  {
    if q != [] {
      var n := |q| - 1;
      KeptViews(q[..n], owners[..n]);
      assert Views(q)[..n] == Views(q[..n]);
      ViewsJoin(Kept(q[..n], owners[..n]), if owners[n] == None then [q[n]] else []);
    }
  }

  lemma {:induction false} ViewsJoin(ps: seq<Pending>, qs: seq<Pending>)
    ensures Views(ps + qs) == Views(ps) + Views(qs)
  {
    if qs == [] {
      assert ps + qs == ps;
    } else {
      ViewsJoin(ps, qs[..|qs| - 1]);
      assert (ps + qs)[..|ps + qs| - 1] == ps + qs[..|qs| - 1];
    }
  }

  // What is collected for each account, in object form.
  ghost function Collected(q: seq<Pending>, owners: seq<Option<Addr>>, before: map<Addr, seq<Pending>>,
                           after: map<Addr, seq<Pending>>): map<Addr, seq<Pending>>
    requires |q| == |owners| && after.Keys == before.Keys
  {
    map a | a in before :: before[a] + Taken(q, owners, a) + after[a]
  }

  lemma CollectedFrom(q: seq<Pending>, owners: seq<Option<Addr>>, before: map<Addr, seq<Pending>>,
                      after: map<Addr, seq<Pending>>, a: Addr, p: Pending)
    requires |q| == |owners| && after.Keys == before.Keys && a in before && p in Collected(q, owners, before, after)[a]
    ensures p in before[a] || p in after[a] || (p in Taken(q, owners, a) && p in q)
  {
    if p in Taken(q, owners, a) {
      TakenFrom(q, owners, a, p);
    }
  }

  lemma CollectedApart(q: seq<Pending>, owners: seq<Option<Addr>>, before: map<Addr, seq<Pending>>,
                       after: map<Addr, seq<Pending>>)
    requires |q| == |owners| && after.Keys == before.Keys && OnceEach(q, before, after)
    ensures Apart(Collected(q, owners, before, after))
  {
    var all := Collected(q, owners, before, after);
    forall a | a in all ensures NoDup(all[a]) {
      TakenNoDup(q, owners, a);
      forall p | p in Taken(q, owners, a) ensures p in q {
        TakenFrom(q, owners, a, p);
      }
      hide Taken, NoDup;
      NoDupJoin(before[a], Taken(q, owners, a));
      NoDupJoin(before[a] + Taken(q, owners, a), after[a]);
    }
    hide Collected, NoDup, Taken;
    forall a, b, p | a in all && b in all && p in all[a] && p in all[b] ensures a == b {
      assert a in before && b in before by { CollectedKeys(q, owners, before, after); }
      CollectedFrom(q, owners, before, after, a, p);
      CollectedFrom(q, owners, before, after, b, p);
      if p in Taken(q, owners, a) && p in Taken(q, owners, b) {
        assert NoDup(q);
        TakenApart(q, owners, a, b, p);
      }
    }
  }

  lemma CollectedKeys(q: seq<Pending>, owners: seq<Option<Addr>>, before: map<Addr, seq<Pending>>,
                      after: map<Addr, seq<Pending>>)
    requires |q| == |owners| && after.Keys == before.Keys
    ensures Collected(q, owners, before, after).Keys == before.Keys
  {
  }

  ghost predicate Show(m: map<Addr, seq<Pending>>, views: map<Addr, seq<Tx>>)
    reads Objects(m)
  {
    views.Keys == m.Keys && forall a | a in m :: (forall p | p in m[a] :: p in Objects(m)) && Views(m[a]) == views[a]
  }

  lemma CollectedViews(q: seq<Pending>, owners: seq<Option<Addr>>, before: map<Addr, seq<Pending>>,
                       after: map<Addr, seq<Pending>>, a: Addr)
    requires |q| == |owners| && after.Keys == before.Keys && a in before
    ensures Views(Collected(q, owners, before, after)[a]) ==
            Views(before[a]) + Taken(Views(q), owners, a) + Views(after[a])
  {
    ViewsJoin(before[a] + Taken(q, owners, a), after[a]);
    ViewsJoin(before[a], Taken(q, owners, a));
    TakenViews(q, owners, a);
  }

  // One message per account, in any order; merging one leaves the lists of the others.
  method SendAll(pending: map<Addr, seq<Pending>>, ghost views: map<Addr, seq<Tx>>) returns (sent: map<Addr, seq<Tx>>)
    requires Apart(pending) && Show(pending, views) && ShapedAll(views)
    modifies Objects(pending)
    ensures sent == SentAll(views)
  {
    sent := map[];
    var todo := pending.Keys;
    hide Views, Sent, Apart;
    while todo != {}
      invariant todo <= pending.Keys && sent.Keys == pending.Keys - todo
      invariant forall a | a in sent :: sent[a] == Sent(views[a])
      invariant forall a | a in todo :: Views(pending[a]) == views[a]
      decreases |todo|
    {
      var a :| a in todo;
      todo := todo - {a};
      ShapedViews(pending[a]);
      var one := MergeOne(pending, a, todo);
      sent := sent[a := one];
    }
  }

  twostate lemma {:induction false} ViewsStay(ps: seq<Pending>)
    requires forall p | p in ps :: p.View() == old(p.View())
    ensures Views(ps) == old(Views(ps))
  {
    if ps != [] {
      assert forall p | p in ps[..|ps| - 1] :: p in ps;
      ViewsStay(ps[..|ps| - 1]);
      assert ps[|ps| - 1] in ps;
    }
  }

  method MergeOne(pending: map<Addr, seq<Pending>>, a: Addr, ghost rest: set<Addr>) returns (one: seq<Tx>)
    requires Apart(pending) && a in pending && rest <= pending.Keys - {a}
    requires forall p | p in pending[a] :: |p.values| == |p.recipients|
    modifies pending[a]
    ensures one == Sent(old(Views(pending[a])))
    ensures forall b | b in rest :: Views(pending[b]) == old(Views(pending[b]))
  {
    assert forall b, p | b in rest && p in pending[b] :: p !in pending[a];
    hide Sent, Apart;
    var out := MergePending(pending[a]);
    one := Views(out);
    forall b | b in rest ensures Views(pending[b]) == old(Views(pending[b])) {
      ViewsStay(pending[b]);
    }
  }

  lemma ShapedViews(ps: seq<Pending>)
    requires LedgerLaws.Shaped(Views(ps))
    ensures forall p | p in ps :: |p.values| == |p.recipients|
  {
    forall p | p in ps ensures |p.values| == |p.recipients| {
      var i :| 0 <= i < |ps| && ps[i] == p;
      ViewsAt(ps, i);
      assert Views(ps)[i] in Views(ps);
    }
  }

  // What the hand-off demands of the pool.
  ghost predicate Ready(q: seq<Pending>, before: map<Addr, seq<Pending>>, after: map<Addr, seq<Pending>>,
                        txs: seq<Tx>, befores: map<Addr, seq<Tx>>, afters: map<Addr, seq<Tx>>)
    reads q, Objects(before), Objects(after)
  {
    && after.Keys == before.Keys && OnceEach(q, before, after)
    && Views(q) == txs && Show(before, befores) && Show(after, afters)
    && LedgerLaws.Shaped(txs) && ShapedAll(befores) && ShapedAll(afters)
  }

  lemma CollectedReady(q: seq<Pending>, before: map<Addr, seq<Pending>>, after: map<Addr, seq<Pending>>,
                       txs: seq<Tx>, befores: map<Addr, seq<Tx>>, afters: map<Addr, seq<Tx>>)
    requires Ready(q, before, after, txs, befores, afters)
    ensures after.Keys == before.Keys && befores.Keys == before.Keys && |txs| == |q|
    ensures var owners := Owners(before.Keys, txs); var all := Collected(q, owners, before, after);
            && Apart(all) && Show(all, ToSend(txs, befores, afters)) && ShapedAll(ToSend(txs, befores, afters))
            && (forall p | p in Objects(all) :: p in q || p in Objects(before) || p in Objects(after))
            && (forall p | p in Kept(q, owners) :: p !in Objects(all))
            && Views(Kept(q, owners)) == Kept(txs, owners)
  {
    var owners := Owners(before.Keys, txs);
    hide OnceEach, Collected, Apart, Objects, Kept, AddAll, Swept, Taken, NoDup;
    CollectedApart(q, owners, before, after);
    CollectedShow(q, owners, before, after, befores, afters);
    CollectedShaped(txs, owners, befores, afters);
    CollectedObjects(q, owners, before, after);
    KeptViews(q, owners);
    KeptElsewhere(q, owners, before, after);
  }

  // The hand-off of all leaving accounts: the queue keeps what stays, in order, and each
  // account sends its parked transactions around those found in the queue, merged.
  method HandOff(queue: array<Pending>, before: map<Addr, seq<Pending>>, after: map<Addr, seq<Pending>>,
                 ghost txs: seq<Tx>, ghost befores: map<Addr, seq<Tx>>, ghost afters: map<Addr, seq<Tx>>)
    returns (j: nat, sent: map<Addr, seq<Tx>>)
    requires Ready(queue[..], before, after, txs, befores, afters)
    modifies queue, queue[..], Objects(before), Objects(after)
    ensures j <= queue.Length && queue[..j] == Kept(old(queue[..]), Owners(before.Keys, txs))
    ensures Views(queue[..j]) == Staying(before.Keys, txs)
    ensures sent.Keys == before.Keys && befores.Keys == before.Keys && afters.Keys == before.Keys
    ensures forall a | a in before :: sent[a] == Sent(befores[a] + Along(before.Keys, txs, a) + afters[a])
    ensures sent == SentAll(ToSend(txs, befores, afters))
  {
    hide OnceEach, Kept, Collected, ToSend, SentAll, Apart, LedgerLaws.Shaped, ShapedAll;
    ghost var q := queue[..];
    CollectedReady(q, before, after, txs, befores, afters);
    assert Views(q) == txs;
    ghost var owners, views := Owners(before.Keys, txs), ToSend(txs, befores, afters);
    assert Views(Kept(q, owners)) == Kept(txs, owners);
    assert Show(Collected(q, owners, before, after), views);
    var all;
    j, all := Collect(queue, before, after);
    assert Views(q) == txs;
    assert all == Collected(q, owners, before, after);
    assert queue[..j] == Kept(q, owners);
    assert Views(Kept(q, owners)) == Kept(txs, owners);
    assert Show(all, views);
    assert Views(queue[..j]) == Kept(txs, owners);
    label Sending:
    sent := SendAll(all, views);
    ViewsStay@Sending(queue[..j]);
    SentAlong(before.Keys, txs, befores, afters);
  }

  method Collect(queue: array<Pending>, before: map<Addr, seq<Pending>>, after: map<Addr, seq<Pending>>)
    returns (j: nat, all: map<Addr, seq<Pending>>)
    requires after.Keys == before.Keys
    modifies queue
    ensures j <= queue.Length
    ensures var q := old(queue[..]); var owners := Owners(before.Keys, Views(q));
            queue[..j] == Kept(q, owners) && all == Collected(q, owners, before, after)
  {
    var pending;
    hide Kept, Taken, Owners, Views, Staying, Along;
    j, pending := Sweep(before.Keys, queue, before);
    all := map a | a in before :: pending[a] + after[a];
  }

  lemma CollectedShow(q: seq<Pending>, owners: seq<Option<Addr>>, before: map<Addr, seq<Pending>>,
                      after: map<Addr, seq<Pending>>,
                      befores: map<Addr, seq<Tx>>, afters: map<Addr, seq<Tx>>)
    requires |q| == |owners| && after.Keys == before.Keys && Show(before, befores) && Show(after, afters)
    ensures Show(Collected(q, owners, before, after), AddAll(Swept(Views(q), owners, befores), afters))
  {
    hide *;
    var all, target := Collected(q, owners, before, after), AddAll(Swept(Views(q), owners, befores), afters);
    CollectedKeys(q, owners, before, after);
    ToSendKeys(Views(q), owners, before, befores, afters);
    forall a | a in before ensures Views(all[a]) == target[a] {
      CollectedShowAt(q, owners, before, after, befores, afters, a);
    }
    ShowOf(all, target);
  }

  lemma ToSendKeys(txs: seq<Tx>, owners: seq<Option<Addr>>, before: map<Addr, seq<Pending>>,
                   befores: map<Addr, seq<Tx>>, afters: map<Addr, seq<Tx>>)
    requires |txs| == |owners| && Show(before, befores)
    ensures AddAll(Swept(txs, owners, befores), afters).Keys == before.Keys == befores.Keys
  {
  }

  lemma ShowOf(m: map<Addr, seq<Pending>>, views: map<Addr, seq<Tx>>)
    requires views.Keys == m.Keys && forall a | a in m :: Views(m[a]) == views[a]
    ensures Show(m, views)
  {
    hide Views;
  }

  lemma CollectedShowAt(q: seq<Pending>, owners: seq<Option<Addr>>, before: map<Addr, seq<Pending>>,
                        after: map<Addr, seq<Pending>>,
                        befores: map<Addr, seq<Tx>>, afters: map<Addr, seq<Tx>>, a: Addr)
    requires |q| == |owners| && after.Keys == before.Keys && Show(before, befores) && Show(after, afters) && a in before
    ensures a in Collected(q, owners, before, after) && a in AddAll(Swept(Views(q), owners, befores), afters)
    ensures Views(Collected(q, owners, before, after)[a]) == AddAll(Swept(Views(q), owners, befores), afters)[a]
  {
    CollectedViews(q, owners, before, after, a);
    ToSendAt(Views(q), owners, befores, afters, a);
    hide Views, Taken;
  }

  lemma CollectedShaped(txs: seq<Tx>, owners: seq<Option<Addr>>, befores: map<Addr, seq<Tx>>,
                        afters: map<Addr, seq<Tx>>)
    requires LedgerLaws.Shaped(txs) && ShapedAll(befores) && ShapedAll(afters) && owners == Owners(befores.Keys, txs)
    ensures ShapedAll(AddAll(Swept(txs, owners, befores), afters))
  {
    OwnersLeave(befores.Keys, txs);
    SweepConserves(txs, owners, befores);
    AddAllShaped(Swept(txs, owners, befores), afters);
  }

  lemma CollectedObjects(q: seq<Pending>, owners: seq<Option<Addr>>, before: map<Addr, seq<Pending>>,
                         after: map<Addr, seq<Pending>>)
    requires |q| == |owners| && after.Keys == before.Keys
    ensures forall p | p in Objects(Collected(q, owners, before, after)) :: p in q || p in Objects(before) || p in Objects(after)
  {
    forall p | p in Objects(Collected(q, owners, before, after))
      ensures p in q || p in Objects(before) || p in Objects(after)
    {
      var a :| a in before && p in Collected(q, owners, before, after)[a];
      CollectedFrom(q, owners, before, after, a, p);
    }
  }

  lemma {:induction false} KeptFrom(q: seq<Pending>, owners: seq<Option<Addr>>, p: Pending)
    requires |q| == |owners| && p in Kept(q, owners)
    ensures p in q && exists i :: 0 <= i < |q| && q[i] == p && owners[i] == None
  {
    var n := |q| - 1;
    if p in Kept(q[..n], owners[..n]) {
      KeptFrom(q[..n], owners[..n], p);
      var i :| 0 <= i < n && q[..n][i] == p && owners[..n][i] == None;
      assert q[i] == p && owners[i] == None;
    } else {
      assert q[n] == p && owners[n] == None;
    }
  }

  lemma SameSpot(q: seq<Pending>)
    requires NoDup(q)
    ensures forall i, j | 0 <= i < |q| && 0 <= j < |q| && q[i] == q[j] :: i == j
  {
  }

  lemma KeptElsewhere(q: seq<Pending>, owners: seq<Option<Addr>>, before: map<Addr, seq<Pending>>,
                      after: map<Addr, seq<Pending>>)
    requires |q| == |owners| && after.Keys == before.Keys && OnceEach(q, before, after)
    ensures forall p | p in Kept(q, owners) :: p !in Objects(Collected(q, owners, before, after))
  {
    forall p | p in Kept(q, owners) ensures p !in Objects(Collected(q, owners, before, after)) {
      KeptFrom(q, owners, p);
      hide Kept, Taken, NoDup;
      assert forall i, j | 0 <= i < |q| && 0 <= j < |q| && q[i] == q[j] :: i == j by { SameSpot(q); }
      if a :| a in before && p in Collected(q, owners, before, after)[a] {
        CollectedFrom(q, owners, before, after, a, p);
        if p in Taken(q, owners, a) {
          TakenFrom(q, owners, a, p);
        }
        assert false;
      }
    }
  }
}
