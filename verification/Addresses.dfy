// account/account_state.go: the table that says in which shard an account lives. Asking
// for an account without an entry gives its default shard and records it.
module Addresses {
  type Addr = string

  // What Addr2Shard answers.
  function Answer(table: map<Addr, int>, default: Addr -> int, a: Addr): int {
    if a in table then table[a] else default(a)
  }

  function Answers(table: map<Addr, int>, default: Addr -> int): Addr -> int {
    a => Answer(table, default, a)
  }

  // The table after asking for some accounts.
  function AfterAsking(table: map<Addr, int>, default: Addr -> int, asked: seq<Addr>): map<Addr, int> {
    if asked == [] then table
    else
      var t := AfterAsking(table, default, asked[..|asked| - 1]);
      t[asked[|asked| - 1] := Answer(t, default, asked[|asked| - 1])]
  }

  // Asking never changes an answer, and leaves an entry for each account asked for.
  lemma {:induction false} AnswersStay(table: map<Addr, int>, default: Addr -> int, asked: seq<Addr>, a: Addr)
    ensures Answer(AfterAsking(table, default, asked), default, a) == Answer(table, default, a)
    ensures a in AfterAsking(table, default, asked) <==> a in table || a in asked
  {
    if asked != [] {
      var init, last := asked[..|asked| - 1], asked[|asked| - 1];
      AnswersStay(table, default, init, a);
      AnswersStay(table, default, init, last);
      assert a in asked <==> a in init || a == last;
    }
  }

  // default: the shard that the last digits of an address give. own: the accounts of this
  // shard, or of none in the table of the client.
  class AddressTable {
    const default: Addr -> int
    const shardId: int
    var table: map<Addr, int>
    var own: set<Addr>

    constructor (shardId: int, default: Addr -> int, table: map<Addr, int>, own: set<Addr>)
      ensures this.shardId == shardId && this.default == default && this.table == table && this.own == own
    {
      this.shardId, this.default, this.table, this.own := shardId, default, table, own;
    }

    ghost function Of(a: Addr): int
      reads this
    {
      Answer(table, default, a)
    }

    method Addr2Shard(a: Addr) returns (id: int)
      modifies this
      ensures id == if a in old(table) then old(table)[a] else default(a)
      ensures id == old(Of(a)) && table == AfterAsking(old(table), default, [a])
      ensures own == if a !in old(table) && id == shardId then old(own) + {a} else old(own)
      ensures table == old(table)[a := id] && forall x :: Of(x) == old(Of(x))
    {
      assert [a][..0] == [];
      if a in table {
        return table[a];
      }
      id := default(a);
      table := table[a := id];
      if id == shardId {
        own := own + {a};
      }
    }
  }
}
