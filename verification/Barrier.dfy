// pbft/PBFTforMigrate.go and pbft/pbftsingle.go: in stop mode, a shard that receives
// accounts waits until all of them have arrived, then proposes them in one block. Messages
// may come before the shard itself has committed the change of epoch.
module Barrier {
  import Addresses

  type Addr = Addresses.Addr

  datatype Entry = Entry(addr: Addr, balance: int)

  // inacc_count, inacc_pool, and the proposals made so far.
  datatype State = State(count: int, pool: multiset<Entry>, proposals: seq<multiset<Entry>>)

  ghost function Entries(list: map<Addr, int>): multiset<Entry> {
    multiset(set a | a in list :: Entry(a, list[a]))
  }

  ghost function Propose(s: State): State {
    s.(proposals := s.proposals + [s.pool])
  }

  // A message with accounts of another shard.
  ghost function Arrive(s: State, list: map<Addr, int>): State {
    var t := s.(count := s.count - |list|, pool := s.pool + Entries(list));
    if t.count == 0 then Propose(t) else t
  }

  // The shard commits the change of epoch, which brings it the expected accounts.
  ghost function Change(s: State, expected: set<Addr>): State {
    var t := s.(count := s.count + |expected|);
    if expected != {} && t.count == 0 then Propose(t) else t
  }

  datatype Event = Arrival(list: map<Addr, int>) | EpochChange(expected: set<Addr>)

  ghost function Step(s: State, e: Event): State {
    match e
    case Arrival(list) => Arrive(s, list)
    case EpochChange(expected) => Change(s, expected)
  }

  ghost function Run(es: seq<Event>): State {
    if es == [] then State(0, multiset{}, []) else Step(Run(es[..|es| - 1]), es[|es| - 1])
  }

  // ----- one epoch, in any order -----

  // The accounts that have arrived, with their balances.
  ghost function Arrived(es: seq<Event>): map<Addr, int> {
    if es == [] then map[]
    else if es[|es| - 1].Arrival? then Arrived(es[..|es| - 1]) + es[|es| - 1].list
    else Arrived(es[..|es| - 1])
  }

  ghost predicate Changed(es: seq<Event>) {
    exists e :: e in es && e.EpochChange?
  }

  // The events of one epoch: the change is committed at most once, messages carry at least
  // one account, and each expected account comes at most once and no other.
  ghost predicate OneEpoch(es: seq<Event>, expected: set<Addr>) {
    if es == [] then true
    else
      var init, e := es[..|es| - 1], es[|es| - 1];
      && OneEpoch(init, expected)
      && match e
         case EpochChange(x) => x == expected && !Changed(init)
         case Arrival(list) => list != map[] && list.Keys <= expected && list.Keys !! Arrived(init).Keys
  }

  lemma ChangedStep(es: seq<Event>)
    requires es != []
    ensures Changed(es) <==> Changed(es[..|es| - 1]) || es[|es| - 1].EpochChange?
  {
    var e := es[|es| - 1];
    assert e in es;
    assert forall x :: x in es <==> x in es[..|es| - 1] || x == e;
  }

  lemma EntriesJoin(m: map<Addr, int>, more: map<Addr, int>)
    requires m.Keys !! more.Keys
    ensures Entries(m + more) == Entries(m) + Entries(more) && |m + more| == |m| + |more|
  {
    var a, b := set x | x in m :: Entry(x, m[x]), set x | x in more :: Entry(x, more[x]);
    assert (set x | x in m + more :: Entry(x, (m + more)[x])) == a + b;
    assert a !! b;
    assert multiset(a + b) == multiset(a) + multiset(b);
    assert (m + more).Keys == m.Keys + more.Keys;
    assert |m + more| == |(m + more).Keys|;
  }

  // Whatever the interleaving, at every moment of an epoch the counter is what is expected
  // less what has arrived, and the incoming accounts have been proposed exactly once if the
  // change is committed and all of them are there, else not at all. The proposal lists each
  // expected account once, with the balance it arrived with.
  lemma {:induction false} ProposedOnceComplete(es: seq<Event>, expected: set<Addr>)
    requires OneEpoch(es, expected)
    ensures Arrived(es).Keys <= expected
    ensures Run(es).count == (if Changed(es) then |expected| else 0) - |Arrived(es)|
    ensures Run(es).pool == Entries(Arrived(es))
    ensures Run(es).proposals ==
            if Changed(es) && expected != {} && Arrived(es).Keys == expected then [Entries(Arrived(es))] else []
  {
    if es == [] {
      assert !Changed(es);
      assert Entries(map[]) == multiset{};
    } else {
      var init, e := es[..|es| - 1], es[|es| - 1];
      ProposedOnceComplete(init, expected);
      ChangedStep(es);
      SameSize(Arrived(init), expected);
      if e.Arrival? {
        EntriesJoin(Arrived(init), e.list);
        SameSize(Arrived(es), expected);
        NonEmpty(e.list);
        hide Entries;
      }
    }
  }

  lemma NonEmpty(m: map<Addr, int>)
    requires m != map[]
    ensures |m| > 0
  {
  }

  lemma SameSize(m: map<Addr, int>, s: set<Addr>)
    requires m.Keys <= s
    ensures |m| <= |s| && (|m| == |s| <==> m.Keys == s)
  {
    assert |m| == |m.Keys|;
    assert s == m.Keys + (s - m.Keys);
  }

  // Each account is in the proposal once.
  lemma ListedOnce(m: map<Addr, int>, a: Addr, v: int)
    ensures Entries(m)[Entry(a, v)] == if a in m && m[a] == v then 1 else 0
  {
  }

  // A message without accounts would set off a proposal at once; the senders build none.
  lemma EmptyMessageProposes()
    ensures Run([Arrival(map[])]).proposals == [multiset{}]
  {
    var es := [Arrival(map[])];
    assert es[..0] == [];
    assert Entries(map[]) == multiset{};
    assert Run(es[..0]) == State(0, multiset{}, []);
  }

  // ----- as the code runs it -----

  class Receiver {
    const shard: int
    var inaccCount: int
    var inaccPool: seq<Entry>
    var proposals: seq<seq<Entry>>

    constructor (shard: int)
      ensures this.shard == shard && Now() == State(0, multiset{}, [])
    {
      this.shard, inaccCount, inaccPool, proposals := shard, 0, [], [];
      new;
      assert multiset(inaccPool) == multiset{};
    }

    ghost function Bags(ps: seq<seq<Entry>>): seq<multiset<Entry>> {
      seq(|ps|, i requires 0 <= i < |ps| => multiset(ps[i]))
    }

    ghost function Now(): State
      reads this
    {
      State(inaccCount, multiset(inaccPool), Bags(proposals))
    }

    method HandleBalancesAndPendings(list: map<Addr, int>)
      modifies this
      ensures Now() == Arrive(old(Now()), list)
    {
      hide Entries, Bags;
      inaccCount, inaccPool := Receive(inaccCount, inaccPool, list);
      if inaccCount == 0 {
        BagsAppend(proposals, inaccPool);
        proposals := proposals + [inaccPool];
      }
    }

    lemma BagsAppend(ps: seq<seq<Entry>>, p: seq<Entry>)
      ensures Bags(ps + [p]) == Bags(ps) + [multiset(p)]
    {
    }

    ghost static predicate Holds(count: int, pool: seq<Entry>, count': int, pool': seq<Entry>, list: map<Addr, int>) {
      count' == count - |list| && multiset(pool') == multiset(pool) + Entries(list)
    }

    // The accounts of a message, in any order.
    static method Receive(count: int, pool: seq<Entry>, list: map<Addr, int>) returns (count': int, pool': seq<Entry>)
      ensures Holds(count, pool, count', pool', list)
    {
      count', pool' := count, pool;
      var todo := list.Keys;
      assert Without(list, todo) == map[] && Entries(map[]) == multiset{};
      assert Holds(count, pool, count', pool', Without(list, todo));
      hide Holds, Without;
      while todo != {}
        invariant todo <= list.Keys && Holds(count, pool, count', pool', Without(list, todo))
        decreases |todo|
      {
        var addr :| addr in todo;
        WithoutStep(list, todo, addr);
        HoldsStep(count, pool, count', pool', Without(list, todo), addr, list[addr]);
        todo := todo - {addr};
        pool' := pool' + [Entry(addr, list[addr])];
        count' := count' - 1;
      }
      WithoutNone(list);
    }

    // The accounts of the message that are dealt with.
    ghost static function Without(list: map<Addr, int>, todo: set<Addr>): map<Addr, int> {
      map a | a in list && a !in todo :: list[a]
    }

    static lemma WithoutStep(list: map<Addr, int>, todo: set<Addr>, a: Addr)
      requires a in todo && a in list
      ensures a !in Without(list, todo) && Without(list, todo - {a}) == Without(list, todo)[a := list[a]]
    {
    }

    static lemma WithoutNone(list: map<Addr, int>)
      ensures Without(list, {}) == list
    {
    }

    static lemma HoldsStep(count: int, pool: seq<Entry>, count': int, pool': seq<Entry>, done: map<Addr, int>,
                           a: Addr, v: int)
      requires Holds(count, pool, count', pool', done) && a !in done
      ensures Holds(count, pool, count' - 1, pool' + [Entry(a, v)], done[a := v])
    {
      EntriesJoin(done, map[a := v]);
      OneEntry(a, v);
      assert done + map[a := v] == done[a := v];
      hide Entries;
      assert multiset(pool' + [Entry(a, v)]) == multiset(pool') + multiset{Entry(a, v)};
    }

    static lemma OneEntry(a: Addr, v: int)
      ensures Entries(map[a := v]) == multiset{Entry(a, v)} && |map[a := v]| == 1
    {
      var one := map[a := v];
      var s := set x | x in one :: Entry(x, one[x]);
      assert a in one && Entry(a, one[a]) in s;
      assert s == {Entry(a, v)};
    }

    // own: the accounts that live here already.
    method CommitEpochChange(newShards: map<Addr, int>, own: set<Addr>)
      modifies this
      ensures Now() == Change(old(Now()), Incoming(newShards, own, shard))
    {
      var flag;
      inaccCount, flag := CountIncoming(inaccCount, newShards, own, shard);
      hide Incoming, Bags;
      if flag && inaccCount == 0 {
        BagsAppend(proposals, inaccPool);
        proposals := proposals + [inaccPool];
      }
    }

    static method CountIncoming(count: int, newShards: map<Addr, int>, own: set<Addr>, shard: int)
      returns (count': int, flag: bool)
      ensures count' == count + |Incoming(newShards, own, shard)| && flag == (Incoming(newShards, own, shard) != {})
    {
      count', flag := count, false;
      var todo := newShards.Keys;
      ghost var expected: set<Addr> := {};
      while todo != {}
        invariant todo <= newShards.Keys
        invariant forall a :: a in expected <==> a in Incoming(newShards, own, shard) && a !in todo
        invariant count' == count + |expected| && flag == (expected != {})
        decreases |todo|
      {
        var k :| k in todo;
        todo := todo - {k};
        if newShards[k] == shard && k !in own {
          count' := count' + 1;
          flag := true;
          expected := expected + {k};
        }
      }
      assert expected == Incoming(newShards, own, shard);
    }
  }

  function Incoming(newShards: map<Addr, int>, own: set<Addr>, shard: int): set<Addr> {
    set a | a in newShards && newShards[a] == shard && a !in own
  }

  // ----- what the sources send (SendOut) -----

  // The accounts that source s sends to shard r.
  function Outgoing(newShards: map<Addr, int>, own: seq<set<Addr>>, s: int, r: int): set<Addr> {
    set a | 0 <= s < |own| && a in own[s] && a in newShards && newShards[a] == r
  }

  // One message to each shard to which an account goes, with all accounts that go there;
  // those without pending transactions join at the end.
  method FillOut(outpool: map<int, map<Addr, int>>, out: map<Addr, int>) returns (outpool': map<int, map<Addr, int>>)
    requires forall k | k in outpool :: outpool[k] != map[] && forall a | a in outpool[k] :: a in out && out[a] == k
    ensures forall k :: k in outpool' <==> exists a :: a in out && out[a] == k
    ensures forall k | k in outpool' :: outpool'[k].Keys == (set a | a in out && out[a] == k) && outpool'[k] != map[]
    ensures forall k, a | k in outpool && a in outpool[k] ::
              k in outpool' && a in outpool'[k] && outpool'[k][a] == outpool[k][a]
    ensures forall k, a | k in outpool' && a in outpool'[k] && !(k in outpool && a in outpool[k]) :: outpool'[k][a] == 0
  {
    outpool' := outpool;
    var todo := out.Keys;
    assert Filled(outpool, outpool, out, todo);
    hide Filled;
    while todo != {}
      invariant todo <= out.Keys && Filled(outpool, outpool', out, todo)
      decreases |todo|
    {
      var addr :| addr in todo;
      FillStep(outpool, outpool', out, todo, addr);
      todo := todo - {addr};
      var k := out[addr];
      var list := if k in outpool' then outpool'[k] else map[];
      if addr !in list {
        outpool' := outpool'[k := list[addr := 0]];
      }
    }
    FillEnd(outpool, outpool', out);
  }

  // The messages hold accounts that leave, each for its shard, all but those still to do,
  // and what was there before.
  ghost predicate Filled(was: map<int, map<Addr, int>>, now: map<int, map<Addr, int>>, out: map<Addr, int>,
                         todo: set<Addr>)
  {
    && (forall k | k in now :: now[k] != map[] && forall a | a in now[k] :: a in out && out[a] == k)
    && (forall a | a in out && a !in todo :: out[a] in now && a in now[out[a]])
    && (forall k, a | k in was && a in was[k] :: k in now && a in now[k] && now[k][a] == was[k][a])
    && (forall k, a | k in now && a in now[k] && !(k in was && a in was[k]) :: now[k][a] == 0)
  }

  lemma FillStep(was: map<int, map<Addr, int>>, now: map<int, map<Addr, int>>, out: map<Addr, int>,
                 todo: set<Addr>, a: Addr)
    requires Filled(was, now, out, todo) && a in out
    ensures var k := out[a];
            var list := if k in now then now[k] else map[];
            Filled(was, if a in list then now else now[k := list[a := 0]], out, todo - {a})
  {
    var k := out[a];
    var list := if k in now then now[k] else map[];
    if a !in list {
      var next := now[k := list[a := 0]];
      assert a in next[k];
      assert forall i | i in next :: i == k || (i in now && next[i] == now[i]);
      assert forall i | i in now && i != k :: i in next && next[i] == now[i];
      assert forall x | x in list :: x in next[k] && next[k][x] == list[x];
    }
  }

  lemma FillEnd(was: map<int, map<Addr, int>>, now: map<int, map<Addr, int>>, out: map<Addr, int>)
    requires Filled(was, now, out, {})
    ensures forall k :: k in now <==> exists a :: a in out && out[a] == k
    ensures forall k | k in now :: now[k].Keys == (set a | a in out && out[a] == k) && now[k] != map[]
    ensures forall k, a | k in was && a in was[k] :: k in now && a in now[k] && now[k][a] == was[k][a]
    ensures forall k, a | k in now && a in now[k] && !(k in was && a in was[k]) :: now[k][a] == 0
  {
    forall k | k in now ensures exists a :: a in out && out[a] == k {
      var a :| a in now[k];
    }
  }

  // The events of shard r in one epoch, each with the shard it comes from: every source
  // sends one message at most, made of its own accounts as SendOut makes it.
  ghost predicate FromSources(es: seq<Event>, from: seq<int>, newShards: map<Addr, int>, own: seq<set<Addr>>, r: int) {
    && |from| == |es| && 0 <= r < |own|
    && (forall i | 0 <= i < |es| ::
          match es[i]
          case EpochChange(x) => x == Incoming(newShards, own[r], r)
          case Arrival(list) => from[i] != r && list != map[] && list.Keys == Outgoing(newShards, own, from[i], r))
    && (forall i, j | 0 <= i < j < |es| && es[i].EpochChange? :: !es[j].EpochChange?)
    && (forall i, j | 0 <= i < j < |es| && es[i].Arrival? && es[j].Arrival? :: from[i] != from[j])
  }

  ghost predicate Apart(own: seq<set<Addr>>) {
    forall i, j | 0 <= i < j < |own| :: own[i] !! own[j]
  }

  lemma OutgoingApart(newShards: map<Addr, int>, own: seq<set<Addr>>, s: int, t: int, r: int)
    requires Apart(own) && s != t && 0 <= r < |own|
    ensures Outgoing(newShards, own, s, r) !! Outgoing(newShards, own, t, r)
    ensures s != r ==> Outgoing(newShards, own, s, r) <= Incoming(newShards, own[r], r)
  {
  }

  // What has arrived is what the sources heard from so far send.
  lemma {:induction false} ArrivedFrom(es: seq<Event>, from: seq<int>, newShards: map<Addr, int>,
                                       own: seq<set<Addr>>, r: int,
                                       a: Addr)
    requires FromSources(es, from, newShards, own, r)
    ensures a in Arrived(es) <==> exists i :: 0 <= i < |es| && es[i].Arrival? && a in Outgoing(newShards, own, from[i], r)
  {
    if es != [] {
      var n := |es| - 1;
      var init, e := es[..n], es[n];
      assert FromSources(init, from[..n], newShards, own, r);
      ArrivedFrom(init, from[..n], newShards, own, r, a);
      assert e.Arrival? ==> e.list.Keys == Outgoing(newShards, own, from[n], r);
      if i :| 0 <= i < |es| && es[i].Arrival? && a in Outgoing(newShards, own, from[i], r) {
        if i < n {
          assert init[i] == es[i] && from[..n][i] == from[i];
        }
      }
      if i :| 0 <= i < |init| && init[i].Arrival? && a in Outgoing(newShards, own, from[..n][i], r) {
        assert init[i] == es[i] && from[..n][i] == from[i];
      }
    }
  }

  // Accounts that live in one shard each, and sources that send each its own: whatever the
  // order, this is an epoch as the barrier needs it.
  lemma {:induction false} SourcesMakeEpoch(es: seq<Event>, from: seq<int>, newShards: map<Addr, int>,
                                            own: seq<set<Addr>>, r: int)
    requires FromSources(es, from, newShards, own, r) && Apart(own)
    ensures OneEpoch(es, Incoming(newShards, own[r], r))
  {
    if es != [] {
      var n := |es| - 1;
      var init, e := es[..n], es[n];
      assert FromSources(init, from[..n], newShards, own, r);
      SourcesMakeEpoch(init, from[..n], newShards, own, r);
      match e
      case EpochChange(x) =>
        assert forall i | 0 <= i < n :: init[i] == es[i];
      case Arrival(list) =>
        OutgoingApart(newShards, own, from[n], r, r);
        forall a | a in list ensures a !in Arrived(init) {
          ArrivedFrom(init, from[..n], newShards, own, r, a);
          if i :| 0 <= i < |init| && init[i].Arrival? && a in Outgoing(newShards, own, from[..n][i], r) {
            assert init[i] == es[i] && from[..n][i] == from[i];
            OutgoingApart(newShards, own, from[i], from[n], r);
          }
        }
    }
  }

  // Every source with an account for r has been heard.
  ghost predicate AllHeard(es: seq<Event>, from: seq<int>, newShards: map<Addr, int>, own: seq<set<Addr>>, r: int)
    requires |from| == |es|
  {
    forall s | 0 <= s < |own| && s != r && Outgoing(newShards, own, s, r) != {} ::
      exists i :: 0 <= i < |es| && es[i].Arrival? && from[i] == s
  }

  ghost predicate Homed(newShards: map<Addr, int>, own: seq<set<Addr>>) {
    forall a | a in newShards :: exists s :: 0 <= s < |own| && a in own[s]
  }

  // A shard that expects accounts proposes them once, with the balances they came with, at
  // the moment when it has committed the change and heard every source that has one for it.
  lemma HeardAllProposes(es: seq<Event>, from: seq<int>, newShards: map<Addr, int>, own: seq<set<Addr>>, r: int)
    requires FromSources(es, from, newShards, own, r) && Apart(own) && Homed(newShards, own)
    ensures Run(es).proposals ==
            if Changed(es) && Incoming(newShards, own[r], r) != {} && AllHeard(es, from, newShards, own, r)
            then [Entries(Arrived(es))] else []
    ensures AllHeard(es, from, newShards, own, r) <==> Arrived(es).Keys == Incoming(newShards, own[r], r)
  {
    SourcesMakeEpoch(es, from, newShards, own, r);
    ProposedOnceComplete(es, Incoming(newShards, own[r], r));
    HeardIsArrived(es, from, newShards, own, r);
    hide Run, Arrived, Incoming, AllHeard, FromSources, OneEpoch;
  }

  lemma HeardIsArrived(es: seq<Event>, from: seq<int>, newShards: map<Addr, int>, own: seq<set<Addr>>, r: int)
    requires FromSources(es, from, newShards, own, r) && Apart(own) && Homed(newShards, own)
    requires Arrived(es).Keys <= Incoming(newShards, own[r], r)
    ensures AllHeard(es, from, newShards, own, r) <==> Arrived(es).Keys == Incoming(newShards, own[r], r)
  {
    if AllHeard(es, from, newShards, own, r) {
      forall a | a in Incoming(newShards, own[r], r) ensures a in Arrived(es) {
        var s :| 0 <= s < |own| && a in own[s];
        assert a in Outgoing(newShards, own, s, r);
        ArrivedFrom(es, from, newShards, own, r, a);
      }
    }
    if Arrived(es).Keys == Incoming(newShards, own[r], r) {
      forall s | 0 <= s < |own| && s != r && Outgoing(newShards, own, s, r) != {}
        ensures exists i :: 0 <= i < |es| && es[i].Arrival? && from[i] == s
      {
        var a :| a in Outgoing(newShards, own, s, r);
        OutgoingApart(newShards, own, s, r, r);
        ArrivedFrom(es, from, newShards, own, r, a);
        var i :| 0 <= i < |es| && es[i].Arrival? && a in Outgoing(newShards, own, from[i], r);
        if from[i] != s {
          OutgoingApart(newShards, own, s, from[i], r);
        }
      }
    }
  }
}
