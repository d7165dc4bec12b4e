// Which keys Delete takes out.
module TrieDelete {
  import opened Wrappers
  import opened Nibbles
  import opened SlotIndex
  import opened TrieSpec
  import opened TrieLaws

  ghost function FindRoot(r: Option<Tree>, k: Key): Option<Value>
    requires CanonicalRoot(r)
  {
    if r.None? then None else Find(r.value, k)
  }

  // Where Delete cuts too much: the first branch on the way to the key that holds
  // a value and leads on through a single child that is not a leaf.
  function Cut(t: Tree, key: Key): Option<Key>
    requires Canonical(t) && Find(t, key).Some?
  {
    match t
    case Leaf(_, _) => None
    case Ext(k, next) => Longer(k, Cut(next, key[|k|..]))
    case Branch(val, index, kids) =>
      if key == [] then None
      else if |kids| == 1 then (if kids[0].Leaf? then None else Some([]))
      else Longer([key[0]], Cut(kids[index[key[0]]], key[1..]))
  }

  function Longer(prefix: Key, p: Option<Key>): Option<Key> {
    if p.None? then None else Some(prefix + p.value)
  }

  // k is gone after Delete(key) cut at p.
  ghost predicate Gone(p: Option<Key>, key: Key, k: Key) {
    k == key || (p.Some? && p.value < k)
  }

  // Gone-ness below a prefix.
  lemma GoneBelow(prefix: Key, p: Option<Key>, key: Key, k: Key)
    requires prefix <= key
    ensures prefix <= k ==> (Gone(Longer(prefix, p), key, k) <==> Gone(p, key[|prefix|..], k[|prefix|..]))
    ensures !(prefix <= k) ==> !Gone(Longer(prefix, p), key, k)
  {
    assert key == prefix + key[|prefix|..];
    if p.Some? {
      assert prefix <= prefix + p.value;
    }
    if prefix <= k {
      assert k == prefix + k[|prefix|..];
      if p.Some? {
        assert prefix + p.value <= k <==> p.value <= k[|prefix|..];
      }
    }
  }

  // What a set of children answers, whether or not it makes a canonical branch.
  ghost function FindIn(val: Option<Value>, index: seq<int>, kids: seq<Tree>, k: Key): Option<Value>
    requires IndexOk(index, |kids|) && forall kid | kid in kids :: Canonical(kid)
  {
    if k == [] then val
    else if index[k[0]] == -1 then None
    else Find(kids[index[k[0]]], k[1..])
  }

  lemma OnlySlot(index: seq<int>, c: Nibble)
    requires IndexOk(index, 1)
    ensures index[c] == if c == FirstPresentOf(index) then 0 else -1
  {
  }

  ghost function FirstPresentOf(index: seq<int>): Nibble
    requires IndexOk(index, 1)
  {
    assert 0 in index;
    FirstPresent(index, 0)
  }

  lemma FindCollapse(c: Nibble, kid: Tree, k: Key)
    requires Canonical(kid)
    ensures Find(Collapse(c, kid), k) == if k != [] && k[0] == c then Find(kid, k[1..]) else None
  {
    hide IndexOk, Find;
    if k != [] {
      HeadTail(k);
    }
    match kid
    case Leaf(lk, lv) =>
      FindLeaf([c] + lk, lv, k);
      if k != [] {
        FindLeaf(lk, lv, k[1..]);
      }
    case Ext(ek, next) =>
      FindExt([c] + ek, next, k);
      if k != [] && k[0] == c {
        FindExt(ek, next, k[1..]);
        PastFirst([c] + ek, k);
      }
    case Branch(_, _, _) =>
      FindExt([c], kid, k);
  }

  // Shrinking a branch changes its shape, not its answers.
  lemma FindShrink(val: Option<Value>, index: seq<int>, kids: seq<Tree>, k: Key)
    requires IndexOk(index, |kids|) && kids != [] && forall kid | kid in kids :: Canonical(kid)
    ensures Find(Shrink(val, index, kids), k) == FindIn(val, index, kids, k)
  {
    if |kids| == 1 && val.None? {
      var c := FirstPresentOf(index);
      assert kids[0] in kids;
      FindCollapse(c, kids[0], k);
      if k != [] {
        OnlySlot(index, k[0]);
      }
    }
  }

  lemma FindPrepend(ek: Key, next: Tree, k: Key)
    requires ek != [] && Canonical(next)
    ensures Canonical(Prepend(ek, next))
    ensures Find(Prepend(ek, next), k) == if ek <= k then Find(next, k[|ek|..]) else None
  {
    hide IndexOk, Find;
    match next
    case Leaf(lk, lv) =>
      FindLeaf(ek + lk, lv, k);
      if ek <= k {
        FindLeaf(lk, lv, k[|ek|..]);
        assert k == ek + k[|ek|..];
      }
    case Ext(k2, n) =>
      FindExt(ek + k2, n, k);
      PrefixSplit(ek, ek + k2, k);
      if ek <= k {
        FindExt(k2, n, k[|ek|..]);
      }
    case Branch(_, _, _) => FindExt(ek, next, k);
  }

  // Exactly the deleted key is gone, and, where Delete cuts, every key below the cut.
  lemma {:induction false} DeleteFind(t: Tree, key: Key, k: Key)
    requires Canonical(t) && Find(t, key).Some?
    ensures FindRoot(Delete(t, key), k) == if Gone(Cut(t, key), key, k) then None else Find(t, k)
    decreases t, 1
  {
    match t
    case Leaf(lk, lv) =>
    case Ext(ek, next) => DeleteFindExt(t, key, k);
    case Branch(val, index, kids) =>
      if key == [] {
        FindShrink(None, index, kids, k);
      } else if |kids| == 1 {
        DeleteFindOnly(t, key, k);
      } else if kids[index[key[0]]].Leaf? {
        DeleteFindLeafKid(t, key, k);
      } else {
        DeleteFindKid(t, key, k);
      }
  }

  lemma {:induction false} DeleteFindExt(t: Tree, key: Key, k: Key)
    requires t.Ext? && Canonical(t) && Find(t, key).Some?
    ensures FindRoot(Delete(t, key), k) == if Gone(Cut(t, key), key, k) then None else Find(t, k)
    decreases t, 0
  {
    hide IndexOk, Gone, Longer;
    FindExt(t.key, t.next, key);
    FindExt(t.key, t.next, k);
    var rest := key[|t.key|..];
    GoneBelow(t.key, Cut(t.next, rest), key, k);
    if t.key <= k {
      DeleteFind(t.next, rest, k[|t.key|..]);
    }
    FindPrepend(t.key, Delete(t.next, rest).value, k);
  }

  lemma {:induction false} DeleteFindKid(t: Tree, key: Key, k: Key)
    requires t.Branch? && Canonical(t) && Find(t, key).Some? && key != [] && |t.kids| != 1
    requires !t.kids[t.index[key[0]]].Leaf?
    ensures FindRoot(Delete(t, key), k) == if Gone(Cut(t, key), key, k) then None else Find(t, k)
    decreases t, 0
  {
    var kid := KidAt(t, key[0]).value;
    FindBranch(t, k);
    hide IndexOk, Gone, Longer;
    ReplaceKid(t, key[0], Delete(kid, key[1..]).value, k);
    GoneBelow([key[0]], Cut(kid, key[1..]), key, k);
    if k != [] && k[0] == key[0] {
      DeleteFind(kid, key[1..], k[1..]);
    }
  }

  lemma DeleteFindOnly(t: Tree, key: Key, k: Key)
    requires t.Branch? && Canonical(t) && Find(t, key).Some? && key != [] && |t.kids| == 1
    ensures FindRoot(Delete(t, key), k) == if Gone(Cut(t, key), key, k) then None else Find(t, k)
  {
    OnlySlot(t.index, key[0]);
    FindLeaf([], t.val.value, k);
    if k != [] {
      OnlySlot(t.index, k[0]);
      HeadTail(k);
      HeadTail(key);
    }
  }

  lemma DeleteFindLeafKid(t: Tree, key: Key, k: Key)
    requires t.Branch? && Canonical(t) && Find(t, key).Some? && key != [] && |t.kids| != 1
    requires t.kids[t.index[key[0]]].Leaf?
    ensures FindRoot(Delete(t, key), k) == if Gone(Cut(t, key), key, k) then None else Find(t, k)
  {
    var i := t.index[key[0]];
    var left := t.kids[..i] + t.kids[i + 1..];
    assert forall kid | kid in left :: kid in t.kids;
    RemoveMoves(t.index, t.kids, key[0]);
    FindShrink(t.val, RemoveIndex(t.index, key[0]), left, k);
    HeadTail(key);
    if k != [] {
      HeadTail(k);
    }
  }
}
