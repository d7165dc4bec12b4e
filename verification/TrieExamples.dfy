// Concrete inputs: where the operations go wrong on keys that continue one another,
// and why equal contents need not mean equal slots.
module TrieExamples {
  import opened Wrappers
  import opened Nibbles
  import opened TrieSpec
  import TrieLaws
  import TrieDelete
  import opened TrieContents
  import TrieFunnel
  import opened TrieMap

  // A short key and two keys that continue it with the same nibble.
  ghost predicate Fork(short: Key, c: Nibble, a: Key, b: Key) {
    a != b && short + [c] <= a && short + [c] <= b && !(a < b) && !(b < a)
  }

  lemma ForkFacts(short: Key, c: Nibble, a: Key, b: Key)
    requires Fork(short, c, a, b)
    ensures short < a && short < b
  {
    assert short < short + [c];
  }

  lemma ForkIsFunnel(m: map<Key, Value>, short: Key, c: Nibble, a: Key, b: Key)
    requires Fork(short, c, a, b) && a in m && b in m && m.Keys <= {short, a, b}
    ensures TrieFunnel.Funnel(m, short)
  {
    assert TrieFunnel.AllBelow(m, short, c);
  }

  lemma PutWithoutLonger(r: Option<Tree>, key: Key, v: Value)
    requires CanonicalRoot(r) && forall z | z in Contents(r) :: !(key < z)
    ensures CanonicalRoot(PutRoot(r, key, v)) && PutRoot(r, key, v).Some?
    ensures Contents(PutRoot(r, key, v)) == Contents(r)[key := v]
  {
    PutUpdatesMap(r, key, v);
    if TrieFunnel.Funnel(Contents(r), key) {
      var z := TrieFunnel.FunnelLeads(Contents(r), key, key);
      assert false;
    }
  }

  // With two longer keys in the trie, putting the short one indexes past its end.
  lemma PutPanicsAtFork(short: Key, c: Nibble, a: Key, b: Key, v: Value) returns (r: Option<Tree>)
    requires Fork(short, c, a, b)
    ensures CanonicalRoot(r) && Contents(r) == map[a := v, b := v]
    ensures PutRoot(r, short, v).None?
  {
    ForkFacts(short, c, a, b);
    var r0: Option<Tree> := None;
    assert Contents(r0) == map[];
    hide Contents, PutRoot;
    PutWithoutLonger(r0, a, v);
    var r1 := PutRoot(r0, a, v);
    PutWithoutLonger(r1, b, v);
    r := PutRoot(r1, b, v);
    PutUpdatesMap(r, short, v);
    ForkIsFunnel(Contents(r), short, c, a, b);
  }

  lemma ForkWithShort(short: Key, c: Nibble, a: Key, b: Key, v: Value) returns (r: Option<Tree>)
    requires Fork(short, c, a, b)
    ensures CanonicalRoot(r) && Contents(r) == map[short := v, a := v, b := v]
  {
    ForkFacts(short, c, a, b);
    var r0: Option<Tree> := None;
    assert Contents(r0) == map[];
    hide Contents, PutRoot;
    PutWithoutLonger(r0, short, v);
    var r1 := PutRoot(r0, short, v);
    PutWithoutLonger(r1, a, v);
    var r2 := PutRoot(r1, a, v);
    PutWithoutLonger(r2, b, v);
    r := PutRoot(r2, b, v);
  }

  // With the short key put in first there is no panic, but deleting one of the longer
  // keys takes the other one with it.
  lemma DeleteLosesAtFork(short: Key, c: Nibble, a: Key, b: Key, v: Value) returns (r: Option<Tree>)
    requires Fork(short, c, a, b)
    ensures CanonicalRoot(r) && Contents(r) == map[short := v, a := v, b := v]
    ensures TrieDelete.FindRoot(r, a).Some? && CanonicalRoot(DeleteRoot(r, a))
    ensures b !in Contents(DeleteRoot(r, a))
  {
    ForkFacts(short, c, a, b);
    r := ForkWithShort(short, c, a, b, v);
    hide Contents, DeleteRoot, TrieDelete.FindRoot;
    DeleteRemoves(r, a);
    ForkIsFunnel(Contents(r), short, c, a, b);
    assert BadAbove(Contents(r), a, short);
    assert Deleted(Contents(r), a, b);
  }

  // Addresses 10 20 and 10 21 below the address 10, in hexadecimal.
  lemma ForkExists()
    ensures Fork(Expand([0x10]), 2, Expand([0x10, 0x20]), Expand([0x10, 0x21]))
  {
    ExpandTwo(0x10, 0x20);
    ExpandTwo(0x10, 0x21);
    assert Expand([0x10, 0x20])[3] != Expand([0x10, 0x21])[3];
  }

  lemma ExpandTwo(x: Byte, y: Byte)
    ensures Expand([x]) == [x / 16, x % 16]
    ensures Expand([x, y]) == [x / 16, x % 16, y / 16, y % 16]
  {
    assert [x][..0] == [] && [x, y][..1] == [x];
  }

  // ----- slot order -----

  // The key of a byte whose low half is 0.
  function ByteKey(a: Nibble): Key {
    Expand([16 * a])
  }

  lemma ByteKeyIs(a: Nibble)
    ensures ByteKey(a) == [a, 0]
  {
    assert [16 * a][..0] == [];
  }

  // Histories of one, two and three new keys.
  function Puts1(a: Nibble, v: Value): seq<Op> {
    [OpPut(ByteKey(a), v)]
  }

  function Puts2(a: Nibble, b: Nibble, v: Value): seq<Op> {
    Puts1(a, v) + [OpPut(ByteKey(b), v)]
  }

  function Puts3(a: Nibble, b: Nibble, c: Nibble, v: Value): seq<Op> {
    Puts2(a, b, v) + [OpPut(ByteKey(c), v)]
  }

  function OnMap3(a: Key, b: Key, c: Key, v: Value): map<Key, Value> {
    map[a := v][b := v][c := v]
  }

  lemma OnMapRotates(a: Key, b: Key, c: Key, v: Value)
    ensures OnMap3(a, b, c, v) == OnMap3(b, c, a, v)
  {
  }

  // Appending always takes the last slot; the split of a leaf sorts its two children.
  // So the order of insertion shows in the slots, and in the encoding of the nodes.
  lemma SlotsDependOnHistory(v: Value)
    ensures RunOnMap(Puts3(1, 2, 3, v)) == RunOnMap(Puts3(2, 3, 1, v))
    ensures Run(Puts3(1, 2, 3, v)) != Run(Puts3(2, 3, 1, v))
  {
    ThreePuts(1, 2, 3, v);
    ThreePuts(2, 3, 1, v);
    hide *;
    OnMapRotates(ByteKey(1), ByteKey(2), ByteKey(3), v);
    assert Run(Puts3(1, 2, 3, v)).value.index[3] == 2 && Run(Puts3(2, 3, 1, v)).value.index[3] < 2;
  }

  // The second key splits the leaf of the first one.
  lemma SecondPut(a: Nibble, b: Nibble, v: Value)
    requires a != b
    ensures var r := Put(Leaf([a, 0], v), [b, 0], v);
            && r.Some? && r.value.Branch? && Canonical(r.value)
            && |r.value.kids| == 2 && |r.value.index| == 16 && 0 <= r.value.index[a] < 2 && 0 <= r.value.index[b] < 2
            && forall d: Nibble | d != a && d != b :: r.value.index[d] == -1
  {
    var k, key := [a, 0], [b, 0];
    assert Matched(k, key) == 0;
    var none := NewBranch(None);
    var one := WithRest(none, k, 0, v);
    assert SplitLeaf(k, v, key, v) == WithRest(one, key, 0, v);
    assert Under(k[..0], SplitLeaf(k, v, key, v)) == SplitLeaf(k, v, key, v);
    assert |one.kids| == 1;
    TrieLaws.PutCanonical(Leaf(k, v), key, v);
  }

  // The third child is appended.
  lemma ThirdPut(t: Tree, c: Nibble, v: Value)
    requires Canonical(t) && t.Branch? && t.index[c] == -1
    ensures var r := Put(t, [c, 0], v);
            r.Some? && r.value.Branch? && r.value.index == t.index[c := |t.kids|]
  {
  }

  // Three keys of one byte: the last one takes the last slot.
  lemma ThreePuts(a: Nibble, b: Nibble, c: Nibble, v: Value)
    requires a != b && b != c && a != c
    ensures RunOnMap(Puts3(a, b, c, v)) == OnMap3(ByteKey(a), ByteKey(b), ByteKey(c), v)
    ensures var r := Run(Puts3(a, b, c, v));
            && r.Some? && r.value.Branch? && |r.value.index| == 16
            && r.value.index[c] == 2 && r.value.index[a] < 2 && r.value.index[b] < 2
  {
    ByteKeyIs(a);
    ByteKeyIs(b);
    ByteKeyIs(c);
    var t1 := Leaf([a, 0], v);
    SecondPut(a, b, v);
    assert Canonical(t1);
    NoRun();
    hide Run, RunOnMap, Put, Canonical, ByteKey, Expand;
    var t2 := Put(t1, [b, 0], v).value;
    ThirdPut(t2, c, v);
    FirstRun(a, v);
    PutRun(Puts1(a, v), Some(t1), [b, 0], v, t2);
    PutRun(Puts2(a, b, v), Some(t2), [c, 0], v, Put(t2, [c, 0], v).value);
  }

  lemma FirstRun(a: Nibble, v: Value)
    ensures Run(Puts1(a, v)) == Some(Leaf(ByteKey(a), v)) && RunOnMap(Puts1(a, v)) == map[ByteKey(a) := v]
  {
    hide ByteKey;
    NoRun();
    PutRun([], None, ByteKey(a), v, Leaf(ByteKey(a), v));
    assert [] + [OpPut(ByteKey(a), v)] == Puts1(a, v);
  }

  lemma NoRun()
    ensures Run([]) == None && RunOnMap([]) == map[]
  {
  }

  // One more Put in a history.
  lemma PutRun(ops: seq<Op>, r: Option<Tree>, key: Key, v: Value, t: Tree)
    requires Run(ops) == r && match r
             case None => t == Leaf(key, v)
             case Some(was) => Canonical(was) && Put(was, key, v) == Some(t)
    ensures Run(ops + [OpPut(key, v)]) == Some(t) && RunOnMap(ops + [OpPut(key, v)]) == RunOnMap(ops)[key := v]
  {
    hide Put, Canonical;
    assert (ops + [OpPut(key, v)])[..|ops|] == ops;
  }
}
