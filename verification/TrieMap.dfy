// The trie against a plain map: what Put and Delete do to the contents, exactly when
// they do it, and what a whole history of operations leaves.
module TrieMap {
  import opened Wrappers
  import opened Nibbles
  import opened TrieSpec
  import TrieLaws
  import opened TrieDelete
  import TrieShape
  import opened TrieContents
  import opened TrieFunnel

  // Put on the root; an empty trie has none.
  function PutRoot(r: Option<Tree>, key: Key, value: Value): Option<Tree>
    requires CanonicalRoot(r)
  {
    if r.None? then Some(Leaf(key, value)) else Put(r.value, key, value)
  }

  // Delete on the root, for a key that is there.
  function DeleteRoot(r: Option<Tree>, key: Key): Option<Tree>
    requires CanonicalRoot(r) && FindRoot(r, key).Some?
  {
    Delete(r.value, key)
  }

  // Put indexes past the end of its key exactly for a new key at a funnel;
  // otherwise it updates the map at that key.
  lemma PutUpdatesMap(r: Option<Tree>, key: Key, value: Value)
    requires CanonicalRoot(r)
    ensures var m := Contents(r);
            var r' := PutRoot(r, key, value);
            && (r'.None? <==> key !in m && Funnel(m, key))
            && (r'.Some? ==> CanonicalRoot(r') && Contents(r') == m[key := value])
  {
    var r' := PutRoot(r, key, value);
    PutFunnel(r, key, value);
    if r'.Some? {
      if r.Some? {
        TrieLaws.PutCanonical(r.value, key, value);
      }
      forall k ensures FindRoot(r', k) == if k in Contents(r)[key := value] then Some(Contents(r)[key := value][k]) else None {
        ContentsFound(r, k);
        if r.Some? {
          TrieLaws.PutFind(r.value, key, value, k);
        }
      }
      ContentsEqual(r', Contents(r)[key := value]);
    }
  }

  lemma PutFunnel(r: Option<Tree>, key: Key, value: Value)
    requires CanonicalRoot(r)
    ensures PutRoot(r, key, value).None? <==> key !in Contents(r) && Funnel(Contents(r), key)
  {
    ContentsFound(r, key);
    if r.Some? {
      var t := r.value;
      FunnelFound(t, key);
      PutFailsInExt(t, key, value);
      if EndsInExt(t, key) {
        var c, x, y := EndsAtFunnel(t, key);
      } else if Find(t, key).None? && exists c, x, y :: FunnelAt(t, key, c, x, y) {
        var c, x, y :| FunnelAt(t, key, c, x, y);
        FunnelEnds(t, key, c, x, y);
        assert false;
      }
    }
  }

  // A key above `key` that is a funnel: the place where Delete cuts too much.
  ghost predicate BadAbove(m: map<Key, Value>, key: Key, p: Key) {
    p < key && p in m && Funnel(m, p)
  }

  // The keys Delete takes out: the key itself and all keys below a bad place above it.
  ghost predicate Deleted(m: map<Key, Value>, key: Key, k: Key) {
    k == key || exists p | p < k :: BadAbove(m, key, p)
  }

  lemma CutIsBad(t: Tree, key: Key)
    requires Canonical(t) && Find(t, key).Some?
    ensures var m := Contents(Some(t));
            && (Cut(t, key).Some? ==> BadAbove(m, key, Cut(t, key).value))
            && forall p | BadAbove(m, key, p) :: Cut(t, key).Some? && Cut(t, key).value <= p
  {
    var m := Contents(Some(t));
    if Cut(t, key).Some? {
      var c, x, y := CutAtFunnel(t, key);
      FunnelFound(t, Cut(t, key).value);
      ContentsFound(Some(t), Cut(t, key).value);
    }
    forall p | BadAbove(m, key, p) ensures Cut(t, key).Some? && Cut(t, key).value <= p {
      ContentsFound(Some(t), p);
      FunnelFound(t, p);
      var c, x, y :| FunnelAt(t, p, c, x, y);
      FunnelIsCut(t, key, p, c, x, y);
    }
  }

  // What Delete of a present key leaves, for any trie whatever.
  lemma DeleteRemoves(r: Option<Tree>, key: Key)
    requires CanonicalRoot(r) && key in Contents(r)
    ensures FindRoot(r, key).Some? && CanonicalRoot(DeleteRoot(r, key))
    ensures var m := Contents(r);
            Contents(DeleteRoot(r, key)) == map k | k in m && !Deleted(m, key, k) :: m[k]
  {
    var m := Contents(r);
    ContentsFound(r, key);
    var t := r.value;
    CutIsBad(t, key);
    var r' := DeleteRoot(r, key);
    forall k ensures Gone(Cut(t, key), key, k) <==> Deleted(m, key, k) {
      DeletedIsGone(t, key, k);
    }
    var m' := map k | k in m && !Deleted(m, key, k) :: m[k];
    forall k ensures FindRoot(r', k) == if k in m' then Some(m'[k]) else None {
      ContentsFound(r, k);
      DeleteFind(t, key, k);
    }
    ContentsEqual(r', m');
  }

  lemma DeletedIsGone(t: Tree, key: Key, k: Key)
    requires Canonical(t) && Find(t, key).Some?
    ensures Gone(Cut(t, key), key, k) <==> Deleted(Contents(Some(t)), key, k)
  {
    CutIsBad(t, key);
    hide Contents, Find, Canonical, BadAbove, Cut;
    var m := Contents(Some(t));
    if Deleted(m, key, k) && k != key {
      var p :| p < k && BadAbove(m, key, p);
      assert Cut(t, key).value <= p < k;
    }
  }

  // Delete removes just the key exactly when no key above it is a funnel.
  lemma DeleteIsExact(r: Option<Tree>, key: Key)
    requires CanonicalRoot(r) && key in Contents(r)
    ensures FindRoot(r, key).Some? && CanonicalRoot(DeleteRoot(r, key))
    ensures var m := Contents(r);
            Contents(DeleteRoot(r, key)) == m - {key} <==> !exists p :: BadAbove(m, key, p)
  {
    hide Contents, DeleteRoot, Funnel;
    var m := Contents(r);
    DeleteRemoves(r, key);
    var m' := Contents(DeleteRoot(r, key));
    if p :| BadAbove(m, key, p) {
      var other := FunnelLeads(m, p, key);
      assert Deleted(m, key, other);
      assert other in m - {key} && other !in m';
    } else {
      assert forall k :: Deleted(m, key, k) <==> k == key;
      assert m' == m - {key};
    }
  }

  // ----- prefix-free keys, the addresses of the emulator among them -----

  ghost predicate PrefixFree(m: map<Key, Value>) {
    forall a, b | a in m && b in m :: !(a < b)
  }

  // On prefix-free keys neither operation can go wrong.
  lemma PrefixFreeIsSafe(r: Option<Tree>, key: Key, value: Value)
    requires CanonicalRoot(r) && PrefixFree(Contents(r)[key := value])
    ensures PutRoot(r, key, value).Some?
    ensures CanonicalRoot(PutRoot(r, key, value)) && Contents(PutRoot(r, key, value)) == Contents(r)[key := value]
    ensures key in Contents(r) ==>
              FindRoot(r, key).Some? && CanonicalRoot(DeleteRoot(r, key)) &&
              Contents(DeleteRoot(r, key)) == Contents(r) - {key}
  {
    var m := Contents(r);
    var m' := m[key := value];
    PutUpdatesMap(r, key, value);
    forall x | x in m ensures !(key < x) {
      assert x in m' && key in m';
    }
    if Funnel(m, key) {
      var x := FunnelLeads(m, key, key);
      assert false;
    }
    if key in m {
      DeleteIsExact(r, key);
      forall p ensures !BadAbove(m, key, p) {
        assert p in m && p < key ==> p in m' && key in m';
      }
    }
  }

  // ----- whole histories -----

  datatype Op = OpPut(key: Key, value: Value) | OpDelete(key: Key)

  // Put of a key that runs off its end panics and leaves the trie as it was; Delete of
  // an absent key reports an error.
  ghost function Step(r: Option<Tree>, op: Op): (r': Option<Tree>)
    requires CanonicalRoot(r)
    ensures CanonicalRoot(r')
  {
    match op
    case OpPut(key, value) =>
      PutUpdatesMap(r, key, value);
      if PutRoot(r, key, value).Some? then PutRoot(r, key, value) else r
    case OpDelete(key) =>
      if FindRoot(r, key).Some? then DeleteRoot(r, key) else r
  }

  ghost function Run(ops: seq<Op>): (r: Option<Tree>)
    ensures CanonicalRoot(r)
  {
    if ops == [] then None else Step(Run(ops[..|ops| - 1]), ops[|ops| - 1])
  }

  ghost function RunOnMap(ops: seq<Op>): map<Key, Value> {
    if ops == [] then map[]
    else
      var m := RunOnMap(ops[..|ops| - 1]);
      match ops[|ops| - 1]
      case OpPut(key, value) => m[key := value]
      case OpDelete(key) => m - {key}
  }

  // Keys none of which continues another, such as all keys of one length.
  ghost predicate PrefixFreeSet(dom: set<Key>) {
    forall a, b | a in dom && b in dom :: !(a < b)
  }

  lemma OneLengthIsPrefixFree(dom: set<Key>, n: nat)
    requires forall k | k in dom :: |k| == n
    ensures PrefixFreeSet(dom)
  {
  }

  ghost predicate Over(ops: seq<Op>, dom: set<Key>) {
    forall op | op in ops :: op.key in dom
  }

  // After any history over prefix-free keys, the trie stands for the map that the same
  // history leaves.
  lemma {:induction false} HistoryRefinesMap(ops: seq<Op>, dom: set<Key>)
    requires PrefixFreeSet(dom) && Over(ops, dom)
    ensures Contents(Run(ops)) == RunOnMap(ops) && RunOnMap(ops).Keys <= dom
  {
    if ops != [] {
      var before := ops[..|ops| - 1];
      var op := ops[|ops| - 1];
      HistoryRefinesMap(before, dom);
      StepRefinesMap(Run(before), op, dom);
    }
  }

  lemma StepRefinesMap(r: Option<Tree>, op: Op, dom: set<Key>)
    requires CanonicalRoot(r) && PrefixFreeSet(dom) && Contents(r).Keys <= dom && op.key in dom
    ensures Contents(Step(r, op)) ==
            match op case OpPut(key, value) => Contents(r)[key := value] case OpDelete(key) => Contents(r) - {key}
  {
    var m := Contents(r);
    var key := op.key;
    var value := if op.OpPut? then op.value else [];
    ContentsFound(r, key);
    PrefixFreeIsSafe(r, key, value);
  }

  // Two histories that leave the same map leave the same tree, up to slot order.
  lemma HistoriesAgree(ops: seq<Op>, ops': seq<Op>, dom: set<Key>)
    requires PrefixFreeSet(dom) && Over(ops, dom) && Over(ops', dom)
    requires RunOnMap(ops) == RunOnMap(ops')
    ensures Run(ops).Some? <==> Run(ops').Some?
    ensures Run(ops).Some? ==> TrieShape.SameShape(Run(ops).value, Run(ops').value)
  {
    hide Run, RunOnMap;
    HistoryRefinesMap(ops, dom);
    HistoryRefinesMap(ops', dom);
    ContentsDetermineShape(Run(ops), Run(ops'));
  }

  lemma ContentsDetermineShape(r: Option<Tree>, r': Option<Tree>)
    requires CanonicalRoot(r) && CanonicalRoot(r') && Contents(r) == Contents(r')
    ensures r.Some? <==> r'.Some?
    ensures r.Some? ==> TrieShape.SameShape(r.value, r'.value)
  {
    hide Contents, Find, Canonical, TrieShape.SameShape;
    forall k ensures FindRoot(r, k) == FindRoot(r', k) {
      ContentsFound(r, k);
      ContentsFound(r', k);
    }
    if r.Some? {
      var k := TrieShape.AnyKey(r.value);
      assert FindRoot(r, k) == FindRoot(r', k);
    }
    if r'.Some? {
      var k := TrieShape.AnyKey(r'.value);
      assert FindRoot(r, k) == FindRoot(r', k);
    }
    if r.Some? {
      forall k ensures Find(r.value, k) == Find(r'.value, k) {
        assert FindRoot(r, k) == FindRoot(r', k);
      }
      TrieShape.ShapeIsUnique(r.value, r'.value);
    }
  }
}
