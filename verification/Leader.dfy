// pbft/pbftsingle.go, pbft/handleanns.go and the address table of account/: what the
// leader of a shard keeps in memory beside the state tree, and what it does when a
// block commits.
module Leader {
  import opened Ledger
  import Addresses

  // table: where each account lives, for routing; own: the accounts of this shard;
  // before: the balances with which leaving accounts were handed on.
  datatype Node = Node(st: State, table: map<Addr, int>, own: set<Addr>, before: map<Addr, int>)

  datatype SentMig2 = SentMig2(to: int, mig: Mig2)
  datatype SentNS = SentNS(to: int, ns: NS)

  // What goes out when a block commits. gone: accounts handed over, and where to.
  datatype Out = Out(
    relays: seq<Tx>,
    committed: seq<Tx>,
    mig2s: seq<SentMig2>,
    anns: seq<Ann>,
    gone: map<Addr, int>,
    nss: seq<SentNS>,
    same: nat)

  // ----- payments: commit here, or relay -----

  ghost predicate Routed(table: map<Addr, int>, tx: Tx) {
    forall r | r in tx.recipients :: r in table
  }

  predicate Foreign(k: int, table: map<Addr, int>, tx: Tx, i: nat)
    requires i < |tx.recipients| && Routed(table, tx)
  {
    assert tx.recipients[i] in tx.recipients;
    table[tx.recipients[i]] != k
  }

  // The scan over the recipients stops at the first one that lives here, so a payment is
  // relayed only if the scan passes over a foreign recipient before that; a relayed
  // payment is not relayed again for its first recipient.
  predicate Relays(k: int, table: map<Addr, int>, tx: Tx)
    requires Routed(table, tx)
  {
    if tx.isRelay then |tx.recipients| > 1 && Foreign(k, table, tx, 0) && Foreign(k, table, tx, 1)
    else |tx.recipients| > 0 && Foreign(k, table, tx, 0)
  }

  ghost predicate Commits(k: int, table: map<Addr, int>, tx: Tx)
    requires Routed(table, tx)
  {
    exists i: nat | i < |tx.recipients| :: !Foreign(k, table, tx, i)
  }

  // How a transaction is marked when it commits here.
  predicate Marked(k: int, table: map<Addr, int>, tx: Tx)
    requires Routed(table, tx) && tx.recipients != []
  {
    tx.isRelay || Foreign(k, table, tx, 0)
  }

  // The table in which all recipients of a transaction have been looked up.
  ghost function Looked(table: map<Addr, int>, default: Addr -> int, tx: Tx): (r: map<Addr, int>)
    ensures Routed(r, tx)
    ensures Routed(table, tx) ==> r == table
  {
    var r := Addresses.AfterAsking(table, default, tx.recipients);
    LookedAll(table, default, tx.recipients);
    r
  }

  lemma LookedAll(table: map<Addr, int>, default: Addr -> int, asked: seq<Addr>)
    ensures forall a :: a in Addresses.AfterAsking(table, default, asked) <==> a in table || a in asked
    ensures forall a | a in Addresses.AfterAsking(table, default, asked) ::
              Addresses.AfterAsking(table, default, asked)[a] == Addresses.Answer(table, default, a)
  {
    forall a
      ensures a in Addresses.AfterAsking(table, default, asked) <==> a in table || a in asked
      ensures a in Addresses.AfterAsking(table, default, asked) ==>
                Addresses.AfterAsking(table, default, asked)[a] == Addresses.Answer(table, default, a)
    {
      Addresses.AnswersStay(table, default, asked, a);
    }
  }

  // The scan of the recipients, which may come across an account the table does not list.
  // It marks the transaction as relayed if it was, or when it puts it on the relay list.
  method Classify(accounts: Addresses.AddressTable, tx: Tx) returns (commits: bool, relays: bool, marked: bool)
    modifies accounts
    ensures var k, table := accounts.shardId, Looked(old(accounts.table), accounts.default, tx);
            && (commits <==> Commits(k, table, tx)) && (relays <==> Relays(k, table, tx))
            && (commits ==> marked == Marked(k, table, tx))
    ensures forall a :: accounts.Of(a) == old(accounts.Of(a))
    ensures Routed(old(accounts.table), tx) ==> accounts.table == old(accounts.table) && accounts.own == old(accounts.own)
  {
    var k := accounts.shardId;
    ghost var table := Looked(accounts.table, accounts.default, tx);
    LookedAll(accounts.table, accounts.default, tx.recipients);
    var needBreak, addRelay, addRelayCount, isRelay := false, false, false, tx.isRelay;
    commits := false;
    var i := 0;
    while i < |tx.recipients| && !needBreak
      invariant i <= |tx.recipients|
      invariant forall a :: accounts.Of(a) == old(accounts.Of(a))
      invariant Routed(old(accounts.table), tx) ==> accounts.table == old(accounts.table) && accounts.own == old(accounts.own)
      invariant needBreak ==> i > 0 && !Foreign(k, table, tx, i - 1)
      invariant forall j: nat | j < i && !(needBreak && j == i - 1) :: Foreign(k, table, tx, j)
      invariant commits == needBreak
      invariant addRelay <==>
                  if tx.isRelay then i > 1 && Foreign(k, table, tx, 1) else i > 0 && Foreign(k, table, tx, 0)
      invariant i > 0 ==> isRelay == (tx.isRelay || addRelay)
      invariant i > 0 && isRelay ==> addRelayCount
      invariant i == 0 ==> isRelay == tx.isRelay && !addRelayCount
      decreases |tx.recipients| - i
    {
      assert tx.recipients[i] in tx.recipients;
      var toid := accounts.Addr2Shard(tx.recipients[i]);
      assert (toid != k) == Foreign(k, table, tx, i);
      if toid == k {
        commits := true;
        needBreak := true;
      }
      if isRelay && !addRelayCount {
        addRelayCount := true;
      } else if toid != k {
        isRelay := true;
        addRelay := true;
        addRelayCount := true;
      }
      i := i + 1;
    }
    relays, marked := addRelay, isRelay;
  }

  ghost predicate AllRouted(table: map<Addr, int>, txs: seq<Tx>) {
    forall tx | tx in txs :: Routed(table, tx)
  }

  ghost function RelayList(k: int, table: map<Addr, int>, txs: seq<Tx>): seq<Tx>
    requires AllRouted(table, txs)
  {
    if txs == [] then []
    else
      var tx := txs[|txs| - 1];
      assert tx in txs;
      RelayList(k, table, txs[..|txs| - 1]) + if Relays(k, table, tx) then [tx.(isRelay := true)] else []
  }

  ghost function CommitList(k: int, table: map<Addr, int>, txs: seq<Tx>): seq<Tx>
    requires AllRouted(table, txs)
  {
    if txs == [] then []
    else
      var tx := txs[|txs| - 1];
      assert tx in txs;
      CommitList(k, table, txs[..|txs| - 1])
      + if Commits(k, table, tx) then [tx.(isRelay := Marked(k, table, tx))] else []
  }

  // ----- the address table -----

  function RouteIn(k: int, table: map<Addr, int>, ms: seq<Mig2>): map<Addr, int> {
    if ms == [] then table else RouteIn(k, table, ms[..|ms| - 1])[ms[|ms| - 1].addr := k]
  }

  function OwnIn(own: set<Addr>, ms: seq<Mig2>): set<Addr> {
    if ms == [] then own else OwnIn(own, ms[..|ms| - 1]) + {ms[|ms| - 1].addr}
  }

  // The state of the sweep over a block's announcements.
  datatype Sweep = Sweep(table: map<Addr, int>, own: set<Addr>, gone: map<Addr, int>)

  function HandleAnns(s: Sweep, anns: seq<Ann>): Sweep {
    if anns == [] then s
    else
      var r := HandleAnns(s, anns[..|anns| - 1]);
      var ann := anns[|anns| - 1];
      if ann.addr !in r.own then r.(table := r.table[ann.addr := ann.to])
      else Sweep(r.table[ann.addr := ann.to], r.own - {ann.addr}, r.gone[ann.addr := ann.to])
  }

  // ----- the balance an account gained at its old place -----

  datatype Gains = Gains(before: map<Addr, int>, nss: seq<SentNS>, same: nat)

  // Every account handed over has a recorded balance; the code fails on a missing one.
  ghost predicate Recorded(before: map<Addr, int>, gone: map<Addr, int>, anns: seq<Ann>) {
    && (forall ann | ann in anns && ann.addr in gone :: ann.addr in before)
    && (forall i, j | 0 <= i < j < |anns| && anns[i].addr in gone :: anns[i].addr != anns[j].addr)
  }

  function GainStep(st: State, g: Gains, gone: map<Addr, int>, ann: Ann): Gains
    requires ann.addr in gone ==> ann.addr in st && ann.addr in g.before
  {
    if ann.addr !in gone then g
    else
      var change := st[ann.addr].balance - g.before[ann.addr];
      var left := g.before - {ann.addr};
      if change == 0 then Gains(left, g.nss, g.same + 1)
      else Gains(left, g.nss + [SentNS(ann.to, NS(ann.addr, change))], g.same)
  }

  ghost function CollectGains(st: State, before: map<Addr, int>, gone: map<Addr, int>, anns: seq<Ann>): (r: Gains)
    requires Recorded(before, gone, anns) && gone.Keys <= st.Keys
    ensures forall a :: a in r.before <==> a in before && !(a in gone && exists ann :: ann in anns && ann.addr == a)
    ensures forall a | a in r.before :: r.before[a] == before[a]
  {
    if anns == [] then Gains(before, [], 0)
    else
      var ann := anns[|anns| - 1];
      RecordedStep(before, gone, anns);
      var r := CollectGains(st, before, gone, anns[..|anns| - 1]);
      assert forall x :: x in anns <==> x in anns[..|anns| - 1] || x == ann;
      GainStep(st, r, gone, ann)
  }

  lemma RecordedUpTo(before: map<Addr, int>, gone: map<Addr, int>, anns: seq<Ann>, n: nat)
    requires Recorded(before, gone, anns) && n <= |anns|
    ensures Recorded(before, gone, anns[..n])
  {
  }

  lemma RecordedStep(before: map<Addr, int>, gone: map<Addr, int>, anns: seq<Ann>)
    requires Recorded(before, gone, anns) && anns != []
    ensures Recorded(before, gone, anns[..|anns| - 1])
    ensures var ann := anns[|anns| - 1];
            ann.addr in gone ==> ann.addr in before && forall x | x in anns[..|anns| - 1] :: x.addr != ann.addr
  {
    assert anns[|anns| - 1] in anns;
  }

  // ----- a whole commit -----

  ghost predicate CommitReady(k: int, n: Node, b: Block) {
    && BlockKnown(n.st.Keys, b)
    && n.table.Keys == n.st.Keys && n.own <= n.st.Keys
    && Recorded(n.before + BlockOut(k, n.st, b), Swept(k, n, b).gone, b.anns)
    && Swept(k, n, b).gone.Keys <= n.st.Keys
  }

  function Swept(k: int, n: Node, b: Block): Sweep {
    HandleAnns(Sweep(RouteIn(k, n.table, b.mig2s), OwnIn(n.own, b.mig2s), map[]), b.anns)
  }

  lemma {:induction false} RouteInKeys(k: int, table: map<Addr, int>, ms: seq<Mig2>)
    requires forall m | m in ms :: m.addr in table
    ensures RouteIn(k, table, ms).Keys == table.Keys
  {
    if ms != [] {
      RouteInKeys(k, table, ms[..|ms| - 1]);
      assert ms[|ms| - 1] in ms;
    }
  }

  lemma KnownIsRouted(k: int, n: Node, b: Block)
    requires BlockKnown(n.st.Keys, b) && n.table.Keys == n.st.Keys
    ensures AllRouted(RouteIn(k, n.table, b.mig2s), b.txs)
  {
    RouteInKeys(k, n.table, b.mig2s);
    forall tx | tx in b.txs ensures Routed(RouteIn(k, n.table, b.mig2s), tx) {
      assert TxKnown(n.st.Keys, tx);
    }
  }

  // The messages that carry leaving accounts to their destination.
  function Departures(out: map<Addr, int>, ms: seq<Mig1>): seq<SentMig2>
    requires forall m | m in ms :: m.addr in out
  {
    seq(|ms|, i requires 0 <= i < |ms| => SentMig2(ms[i].to, Mig2(ms[i].addr, out[ms[i].addr])))
  }

  function Announcements(k: int, ms: seq<Mig2>): seq<Ann> {
    seq(|ms|, i requires 0 <= i < |ms| => Ann(ms[i].addr, k))
  }

  ghost function CommitNode(k: int, n: Node, b: Block): Node
    requires CommitReady(k, n, b)
  {
    var s := Swept(k, n, b);
    var st := ApplyBlock(k, n.st, b);
    Node(st, s.table, s.own, CollectGains(st, n.before + BlockOut(k, n.st, b), s.gone, b.anns).before)
  }

  ghost function CommitOut(k: int, n: Node, b: Block): Out
    requires CommitReady(k, n, b)
  {
    KnownIsRouted(k, n, b);
    var table := RouteIn(k, n.table, b.mig2s);
    var s := Swept(k, n, b);
    var out := BlockOut(k, n.st, b);
    var gains := CollectGains(ApplyBlock(k, n.st, b), n.before + out, s.gone, b.anns);
    Out(RelayList(k, table, b.txs), CommitList(k, table, b.txs), Departures(out, b.mig1s),
        Announcements(k, b.mig2s), s.gone, gains.nss, gains.same)
  }

  // ----- the commit as the code runs it -----

  class ShardLeader {
    const id: int
    const tree: StateTree
    const accounts: Addresses.AddressTable
    var before: map<Addr, int>

    ghost predicate Valid()
      reads this
    {
      tree.id == id == accounts.shardId
    }

    ghost function Now(): Node
      reads this, tree, accounts
    {
      Node(tree.st, accounts.table, accounts.own, before)
    }

    constructor (tree: StateTree, accounts: Addresses.AddressTable)
      requires tree.id == accounts.shardId
      ensures Valid() && this.tree == tree && this.accounts == accounts && id == tree.id
      ensures Now() == Node(tree.st, accounts.table, accounts.own, map[])
    {
      this.id, this.tree, this.accounts, this.before := tree.id, tree, accounts, map[];
    }

    // AddBlock routes incoming accounts here.
    method RouteArrivals(ms: seq<Mig2>)
      modifies accounts
      ensures accounts.table == RouteIn(id, old(accounts.table), ms) && accounts.own == OwnIn(old(accounts.own), ms)
    {
      for i := 0 to |ms|
        invariant accounts.table == RouteIn(id, old(accounts.table), ms[..i])
        invariant accounts.own == OwnIn(old(accounts.own), ms[..i])
      {
        LastStep(ms, i);
        accounts.table := accounts.table[ms[i].addr := id];
        accounts.own := accounts.own + {ms[i].addr};
      }
      assert ms[..|ms|] == ms;
    }

    // commit1 sorts the payments of the block.
    method SortPayments(txs: seq<Tx>) returns (committed: seq<Tx>, relays: seq<Tx>)
      requires Valid() && AllRouted(accounts.table, txs)
      modifies accounts
      ensures committed == CommitList(id, old(accounts.table), txs) && relays == RelayList(id, old(accounts.table), txs)
      ensures accounts.table == old(accounts.table) && accounts.own == old(accounts.own)
    {
      ghost var table := accounts.table;
      committed, relays := [], [];
      for i := 0 to |txs|
        invariant AllRouted(table, txs[..i]) && accounts.table == table && accounts.own == old(accounts.own)
        invariant committed == CommitList(id, table, txs[..i]) && relays == RelayList(id, table, txs[..i])
      {
        LastStep(txs, i);
        assert Routed(table, txs[i]);
        var commits, relayed, marked := Classify(accounts, txs[i]);
        if commits {
          committed := committed + [txs[i].(isRelay := marked)];
        }
        if relayed {
          relays := relays + [txs[i].(isRelay := true)];
        }
      }
      assert txs[..|txs|] == txs;
    }

    // handleAnns: accounts that live elsewhere now.
    method SweepAnns(anns: seq<Ann>) returns (gone: map<Addr, int>)
      modifies accounts
      ensures Sweep(accounts.table, accounts.own, gone) ==
              HandleAnns(Sweep(old(accounts.table), old(accounts.own), map[]), anns)
    {
      gone := map[];
      for i := 0 to |anns|
        invariant Sweep(accounts.table, accounts.own, gone) ==
                  HandleAnns(Sweep(old(accounts.table), old(accounts.own), map[]), anns[..i])
      {
        LastStep(anns, i);
        var a := anns[i].addr;
        if a !in accounts.own {
          accounts.table := accounts.table[a := anns[i].to];
          continue;
        }
        accounts.table := accounts.table[a := anns[i].to];
        accounts.own := accounts.own - {a};
        gone := gone[a := anns[i].to];
      }
      assert anns[..|anns|] == anns;
    }

    // mpAndSend: the balance changes to send after the accounts.
    method GatherGains(anns: seq<Ann>, gone: map<Addr, int>) returns (nss: seq<SentNS>, same: nat)
      requires Recorded(before, gone, anns) && gone.Keys <= tree.st.Keys
      modifies this
      ensures Gains(before, nss, same) == CollectGains(tree.st, old(before), gone, anns)
    {
      nss, same := [], 0;
      for i := 0 to |anns|
        invariant Recorded(old(before), gone, anns[..i])
        invariant Gains(before, nss, same) == CollectGains(tree.st, old(before), gone, anns[..i])
      {
        LastStep(anns, i);
        RecordedUpTo(old(before), gone, anns, i + 1);
        RecordedStep(old(before), gone, anns[..i + 1]);
        hide Recorded;
        nss, same := GatherOne(anns[i], gone, nss, same);
      }
      assert anns[..|anns|] == anns;
    }

    // One account of mpAndSend.
    method GatherOne(ann: Ann, gone: map<Addr, int>, nss: seq<SentNS>, same: nat)
      returns (nss': seq<SentNS>, same': nat)
      requires ann.addr in gone ==> ann.addr in tree.st && ann.addr in before
      modifies this
      ensures Gains(before, nss', same') == GainStep(tree.st, Gains(old(before), nss, same), gone, ann)
    {
      nss', same' := nss, same;
      if ann.addr !in gone {
        return;
      }
      var change := tree.st[ann.addr].balance - before[ann.addr];
      before := before - {ann.addr};
      if change == 0 {
        same' := same + 1;
      } else {
        nss' := nss + [SentNS(ann.to, NS(ann.addr, change))];
      }
    }

    method Commit(b: Block) returns (out: Out)
      requires Valid() && CommitReady(id, Now(), b)
      modifies this, tree, accounts
      ensures Valid() && Now() == CommitNode(id, old(Now()), b) && out == CommitOut(id, old(Now()), b)
    {
      KnownIsRouted(id, Now(), b);
      RouteArrivals(b.mig2s);
      var outbalance := tree.Update(b);
      before := before + outbalance;
      var committed, relays := SortPayments(b.txs);
      var gone := SweepAnns(b.anns);
      var nss, same := GatherGains(b.anns, gone);
      out := Out(relays, committed, Departures(outbalance, b.mig1s), Announcements(id, b.mig2s), gone, nss, same);
    }
  }
}
