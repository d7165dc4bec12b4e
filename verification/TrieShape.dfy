// A canonical trie is determined by its contents.
module TrieShape {
  import opened Wrappers
  import opened Nibbles
  import SlotIndex
  import opened TrieSpec
  import opened TrieLaws

  // Some key of a trie.
  lemma {:induction false} AnyKey(t: Tree) returns (k: Key)
    requires Canonical(t)
    ensures Find(t, k).Some?
  {
    match t
    case Leaf(lk, _) => k := lk;
    case Ext(ek, next) =>
      var rest := AnyKey(next);
      k := ek + rest;
      FindExt(ek, next, k);
    case Branch(val, index, kids) =>
      var c := SlotIndex.SlotHasNibble(index, |kids|, 0);
      var rest := AnyKey(kids[0]);
      k := [c] + rest;
      assert k[1..] == rest;
  }

  // A branch always holds a key that does not start with c.
  lemma Avoid(b: Tree, c: Nibble) returns (k: Key)
    requires b.Branch? && Canonical(b)
    ensures Find(b, k).Some? && !(k != [] && k[0] == c)
  {
    if b.val.Some? {
      k := [];
    } else {
      var d := SlotIndex.SlotHasNibble(b.index, |b.kids|, if b.index[c] == 0 then 1 else 0);
      var rest := AnyKey(KidAt(b, d).value);
      k := [d] + rest;
      assert k[1..] == rest;
    }
  }

  // Every extension and branch holds two keys.
  lemma TwoKeys(t: Tree) returns (x: Key, y: Key)
    requires Canonical(t) && !t.Leaf?
    ensures x != y && Find(t, x).Some? && Find(t, y).Some?
  {
    match t
    case Ext(ek, next) =>
      x, y := TwoKeysBranch(next);
      FindExt(ek, next, ek + x);
      FindExt(ek, next, ek + y);
      SplitKey(ek, ek + x, ek + y);
      x, y := ek + x, ek + y;
    case Branch(_, _, _) => x, y := TwoKeysBranch(t);
  }

  lemma TwoKeysBranch(b: Tree) returns (x: Key, y: Key)
    requires Canonical(b) && b.Branch?
    ensures x != y && Find(b, x).Some? && Find(b, y).Some?
  {
    var c := SlotIndex.SlotHasNibble(b.index, |b.kids|, 0);
    var rest := AnyKey(KidAt(b, c).value);
    x := [c] + rest;
    assert x[1..] == rest;
    y := Avoid(b, c);
  }

  ghost predicate SameContents(t: Tree, u: Tree)
    requires Canonical(t) && Canonical(u)
  {
    forall k :: Find(t, k) == Find(u, k)
  }

  // The same tree of nibbles, whatever slots the children sit in.
  ghost predicate SameShape(t: Tree, u: Tree)
    requires Canonical(t) && Canonical(u)
  {
    match t
    case Leaf(_, _) => t == u
    case Ext(k, next) => u.Ext? && u.key == k && SameShape(next, u.next)
    case Branch(val, index, kids) =>
      && u.Branch? && u.val == val
      && forall c: Nibble ::
           (index[c] == -1 <==> u.index[c] == -1) &&
           (index[c] != -1 ==> SameShape(kids[index[c]], u.kids[u.index[c]]))
  }

  lemma LeafShape(t: Tree, u: Tree)
    requires t.Leaf? && Canonical(t) && Canonical(u) && SameContents(t, u)
    ensures t == u
  {
    assert Find(u, t.key) == Find(t, t.key);
    if !u.Leaf? {
      var x, y := TwoKeys(u);
      assert false;
    }
  }

  // All keys of an extension start alike; those of a branch do not.
  lemma ExtIsNotBranch(t: Tree, u: Tree)
    requires t.Ext? && u.Branch? && Canonical(t) && Canonical(u)
    ensures !SameContents(t, u)
  {
    var k := Avoid(u, t.key[0]);
    FindExt(t.key, t.next, k);
    assert Find(t, k) != Find(u, k);
  }

  // Nor can two extensions of different length hold the same keys.
  lemma ExtNotShorter(t: Tree, u: Tree)
    requires t.Ext? && u.Ext? && Canonical(t) && Canonical(u) && SameContents(t, u)
    ensures u.key <= t.key
  {
    hide SlotIndex.IndexOk;
    var rest := AnyKey(t.next);
    var k := t.key + rest;
    FindExt(t.key, t.next, k);
    FindExt(u.key, u.next, k);
    if |t.key| < |u.key| {
      var other := Avoid(t.next, u.key[|t.key|]);
      var k2 := t.key + other;
      FindExt(t.key, t.next, k2);
      FindExt(u.key, u.next, k2);
      assert false;
    }
  }

  // Two tries with the same contents have the same shape.
  lemma {:induction false} ShapeIsUnique(t: Tree, u: Tree)
    requires Canonical(t) && Canonical(u) && SameContents(t, u)
    ensures SameShape(t, u)
    decreases t, 1
  {
    if t.Leaf? {
      LeafShape(t, u);
    } else if u.Leaf? {
      LeafShape(u, t);
    } else if t.Ext? && u.Ext? {
      ShapeIsUniqueExt(t, u);
    } else if t.Branch? && u.Branch? {
      ShapeIsUniqueBranch(t, u);
    } else if t.Ext? {
      ExtIsNotBranch(t, u);
    } else {
      ExtIsNotBranch(u, t);
    }
  }

  lemma {:induction false} ShapeIsUniqueExt(t: Tree, u: Tree)
    requires t.Ext? && u.Ext? && Canonical(t) && Canonical(u) && SameContents(t, u)
    ensures SameShape(t, u)
    decreases t, 0
  {
    ExtNotShorter(t, u);
    ExtNotShorter(u, t);
    forall k ensures Find(t.next, k) == Find(u.next, k) {
      FindExt(t.key, t.next, t.key + k);
      FindExt(u.key, u.next, t.key + k);
      assert Find(t, t.key + k) == Find(u, t.key + k);
    }
    ShapeIsUnique(t.next, u.next);
  }

  lemma {:induction false} ShapeIsUniqueBranch(t: Tree, u: Tree)
    requires t.Branch? && u.Branch? && Canonical(t) && Canonical(u) && SameContents(t, u)
    ensures SameShape(t, u)
    decreases t, 0
  {
    assert Find(t, []) == Find(u, []);
    forall c: Nibble
      ensures (t.index[c] == -1 <==> u.index[c] == -1) &&
              (t.index[c] != -1 ==> SameShape(t.kids[t.index[c]], u.kids[u.index[c]]))
    {
      SameKids(t, u, c);
      if t.index[c] != -1 {
        ShapeIsUnique(KidAt(t, c).value, KidAt(u, c).value);
      }
    }
  }

  lemma SameKids(t: Tree, u: Tree, c: Nibble)
    requires t.Branch? && u.Branch? && Canonical(t) && Canonical(u) && SameContents(t, u)
    ensures KidAt(t, c).Some? <==> KidAt(u, c).Some?
    ensures KidAt(t, c).Some? ==> SameContents(KidAt(t, c).value, KidAt(u, c).value)
  {
    if KidAt(t, c).Some? {
      var rest := AnyKey(KidAt(t, c).value);
      SameBelow(t, u, c, rest);
    }
    if KidAt(u, c).Some? {
      var rest := AnyKey(KidAt(u, c).value);
      SameBelow(t, u, c, rest);
    }
    if KidAt(t, c).Some? {
      forall k ensures Find(KidAt(t, c).value, k) == Find(KidAt(u, c).value, k) {
        SameBelow(t, u, c, k);
      }
    }
  }

  lemma SameBelow(t: Tree, u: Tree, c: Nibble, k: Key)
    requires t.Branch? && u.Branch? && Canonical(t) && Canonical(u) && SameContents(t, u)
    ensures (match KidAt(t, c) case None => None case Some(kid) => Find(kid, k)) ==
            (match KidAt(u, c) case None => None case Some(kid) => Find(kid, k))
  {
    var full := [c] + k;
    assert full[1..] == k;
    FindBranch(t, full);
    FindBranch(u, full);
    assert Find(t, full) == Find(u, full);
  }
}
