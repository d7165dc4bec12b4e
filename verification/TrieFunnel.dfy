// When the walk to a key goes wrong: Put running past the end of its key inside an
// extension, and Delete cutting a branch off that still holds other keys. Both
// happen at a funnel, a prefix below which all of two or more keys go on alike.
module TrieFunnel {
  import opened Wrappers
  import opened Nibbles
  import SlotIndex
  import opened TrieSpec
  import opened TrieLaws
  import opened TrieDelete
  import TrieShape
  import TrieContents

  // m holds at least two keys below p, and all keys below p go on with one nibble.
  ghost predicate Funnel(m: map<Key, Value>, p: Key) {
    exists c: Nibble, x: Key, y: Key ::
      x in m && y in m && x != y && p + [c] <= x && p + [c] <= y && AllBelow(m, p, c)
  }

  ghost predicate AllBelow(m: map<Key, Value>, p: Key, c: Nibble) {
    forall z | z in m && p < z :: p + [c] <= z
  }

  lemma FunnelLeads(m: map<Key, Value>, p: Key, avoid: Key) returns (other: Key)
    requires Funnel(m, p)
    ensures other in m && p < other && other != avoid
  {
    var c: Nibble, x: Key, y: Key :|
      x in m && y in m && x != y && p + [c] <= x && p + [c] <= y && AllBelow(m, p, c);
    other := if x == avoid then y else x;
    assert p < p + [c] <= other;
  }

  // The same on a tree, with its witnesses.
  ghost predicate FunnelAt(t: Tree, p: Key, c: Nibble, x: Key, y: Key)
    requires Canonical(t)
  {
    && Find(t, x).Some? && Find(t, y).Some? && x != y
    && p + [c] <= x && p + [c] <= y
    && forall z | Find(t, z).Some? && p < z :: p + [c] <= z
  }

  lemma FunnelFound(t: Tree, p: Key)
    requires Canonical(t)
    ensures Funnel(TrieContents.Contents(Some(t)), p) <==> exists c, x, y :: FunnelAt(t, p, c, x, y)
  {
    hide TrieContents.Contents, Find, Canonical;
    var m := TrieContents.Contents(Some(t));
    forall k ensures k in m <==> Find(t, k).Some? {
      TrieContents.ContentsFound(Some(t), k);
    }
    if Funnel(m, p) {
      var c: Nibble, x: Key, y: Key :|
        x in m && y in m && x != y && p + [c] <= x && p + [c] <= y && AllBelow(m, p, c);
      assert FunnelAt(t, p, c, x, y);
    }
    if exists c, x, y :: FunnelAt(t, p, c, x, y) {
      var c, x, y :| FunnelAt(t, p, c, x, y);
      assert AllBelow(m, p, c) && x in m && y in m;
    }
  }

  // kid answers below prefix what t answers.
  ghost predicate Sub(t: Tree, prefix: Key, kid: Tree)
    requires Canonical(t) && Canonical(kid)
  {
    forall k | prefix <= k :: Find(t, k) == Find(kid, k[|prefix|..])
  }

  lemma SubExt(t: Tree)
    requires t.Ext? && Canonical(t)
    ensures Sub(t, t.key, t.next)
  {
    forall k | t.key <= k ensures Find(t, k) == Find(t.next, k[|t.key|..]) {
      FindExt(t.key, t.next, k);
    }
  }

  lemma SubKid(t: Tree, c: Nibble)
    requires t.Branch? && Canonical(t) && KidAt(t, c).Some?
    ensures Sub(t, [c], KidAt(t, c).value)
  {
  }

  lemma Shift(prefix: Key, p: Key, c: Nibble, z: Key)
    requires prefix <= z
    ensures prefix + p < z <==> p < z[|prefix|..]
    ensures prefix + p + [c] <= z <==> p + [c] <= z[|prefix|..]
  {
    assert z == prefix + z[|prefix|..];
    assert prefix + p + [c] == prefix + (p + [c]);
  }

  lemma RaiseFunnel(t: Tree, prefix: Key, kid: Tree, p: Key, c: Nibble, x: Key, y: Key)
    requires Canonical(t) && Canonical(kid) && Sub(t, prefix, kid) && FunnelAt(kid, p, c, x, y)
    ensures FunnelAt(t, prefix + p, c, prefix + x, prefix + y)
  {
    hide Find, Canonical;
    assert (prefix + x)[|prefix|..] == x && (prefix + y)[|prefix|..] == y;
    Shift(prefix, p, c, prefix + x);
    Shift(prefix, p, c, prefix + y);
    forall z | Find(t, z).Some? && prefix + p < z ensures prefix + p + [c] <= z {
      assert prefix <= z by { assert z[..|prefix|] == (prefix + p)[..|prefix|]; }
      Shift(prefix, p, c, z);
    }
  }

  lemma LowerFunnel(t: Tree, prefix: Key, kid: Tree, p: Key, c: Nibble, x: Key, y: Key)
    requires Canonical(t) && Canonical(kid) && Sub(t, prefix, kid)
    requires prefix <= p && FunnelAt(t, p, c, x, y)
    ensures prefix <= x && prefix <= y
    ensures FunnelAt(kid, p[|prefix|..], c, x[|prefix|..], y[|prefix|..])
  {
    hide Find, Canonical;
    var q := p[|prefix|..];
    assert p == prefix + q;
    assert x[..|prefix|] == (p + [c])[..|prefix|] && y[..|prefix|] == (p + [c])[..|prefix|];
    Shift(prefix, q, c, x);
    Shift(prefix, q, c, y);
    SplitKey(prefix, x, y);
    forall z | Find(kid, z).Some? && q < z ensures q + [c] <= z {
      assert (prefix + z)[|prefix|..] == z;
      Shift(prefix, q, c, prefix + z);
    }
  }

  // ----- Put -----

  // The key ends half way through an extension.
  ghost predicate EndsInExt(t: Tree, key: Key)
    requires Canonical(t)
  {
    match t
    case Leaf(_, _) => false
    case Ext(ek, next) =>
      if ek <= key then EndsInExt(next, key[|ek|..]) else key <= ek
    case Branch(val, index, kids) =>
      key != [] && index[key[0]] != -1 && EndsInExt(kids[index[key[0]]], key[1..])
  }

  lemma {:induction false} PutFailsInExt(t: Tree, key: Key, value: Value)
    requires Canonical(t)
    ensures Put(t, key, value).None? <==> EndsInExt(t, key)
  {
    match t
    case Leaf(_, _) =>
    case Ext(ek, next) =>
      var m := Matched(ek, key);
      if m == |ek| {
        PutFailsInExt(next, key[|ek|..], value);
        assert ek == key[..|ek|];
      } else if m == |key| {
        assert key == ek[..m];
      }
    case Branch(val, index, kids) =>
      if key != [] && index[key[0]] != -1 {
        PutFailsInExt(kids[index[key[0]]], key[1..], value);
      }
  }

  lemma {:induction false} EndsAtFunnel(t: Tree, p: Key) returns (c: Nibble, x: Key, y: Key)
    requires Canonical(t) && EndsInExt(t, p)
    ensures Find(t, p).None? && FunnelAt(t, p, c, x, y)
  {
    match t
    case Ext(ek, next) =>
      if ek <= p {
        c, x, y := EndsAtFunnel(next, p[|ek|..]);
        SubExt(t);
        RaiseFunnel(t, ek, next, p[|ek|..], c, x, y);
        assert p == ek + p[|ek|..];
        x, y := ek + x, ek + y;
      } else {
        c, x, y := EndsHere(t, p);
      }
    case Branch(val, index, kids) =>
      var kid := KidAt(t, p[0]).value;
      c, x, y := EndsAtFunnel(kid, p[1..]);
      SubKid(t, p[0]);
      RaiseFunnel(t, [p[0]], kid, p[1..], c, x, y);
      HeadTail(p);
      x, y := [p[0]] + x, [p[0]] + y;
  }

  lemma EndsHere(t: Tree, p: Key) returns (c: Nibble, x: Key, y: Key)
    requires t.Ext? && Canonical(t) && p <= t.key && !(t.key <= p)
    ensures Find(t, p).None? && FunnelAt(t, p, c, x, y)
  {
    hide SlotIndex.IndexOk;
    c := t.key[|p|];
    var a, b := TrieShape.TwoKeysBranch(t.next);
    x, y := t.key + a, t.key + b;
    FindExt(t.key, t.next, p);
    FindExt(t.key, t.next, x);
    FindExt(t.key, t.next, y);
    SplitKey(t.key, x, y);
    assert p + [c] <= t.key;
    forall z | Find(t, z).Some? ensures p + [c] <= z {
      FindExt(t.key, t.next, z);
    }
  }

  lemma {:induction false} FunnelEnds(t: Tree, p: Key, c: Nibble, x: Key, y: Key)
    requires Canonical(t) && Find(t, p).None? && FunnelAt(t, p, c, x, y)
    ensures EndsInExt(t, p)
    decreases t, 1
  {
    match t
    case Leaf(_, _) =>
    case Ext(ek, next) =>
      FindExt(ek, next, x);
      if ek <= p {
        SubExt(t);
        LowerFunnel(t, ek, next, p, c, x, y);
        FunnelEnds(next, p[|ek|..], c, x[|ek|..], y[|ek|..]);
      } else {
        assert p == x[..|p|] && ek == x[..|ek|];
      }
    case Branch(val, index, kids) =>
      FunnelEndsBranch(t, p, c, x, y);
  }

  lemma {:induction false} FunnelEndsBranch(t: Tree, p: Key, c: Nibble, x: Key, y: Key)
    requires t.Branch? && Canonical(t) && Find(t, p).None? && FunnelAt(t, p, c, x, y)
    ensures EndsInExt(t, p)
    decreases t, 0
  {
    if p == [] {
      var k := TrieShape.Avoid(t, c);
      assert false;
    } else {
      FindBranch(t, x);
      assert x[0] == p[0];
      SubKid(t, p[0]);
      var kid := KidAt(t, p[0]).value;
      LowerFunnel(t, [p[0]], kid, p, c, x, y);
      FunnelEnds(kid, p[1..], c, x[1..], y[1..]);
    }
  }

  // ----- Delete -----

  // A cut is made at a funnel that is itself a key.
  lemma {:induction false} CutAtFunnel(t: Tree, key: Key) returns (c: Nibble, x: Key, y: Key)
    requires Canonical(t) && Find(t, key).Some? && Cut(t, key).Some?
    ensures var p := Cut(t, key).value; p < key && Find(t, p).Some? && FunnelAt(t, p, c, x, y)
  {
    match t
    case Ext(ek, next) =>
      FindExt(ek, next, key);
      var p := Cut(next, key[|ek|..]).value;
      c, x, y := CutAtFunnel(next, key[|ek|..]);
      SubExt(t);
      RaiseFunnel(t, ek, next, p, c, x, y);
      Shift(ek, p, 0, key);
      assert (ek + p)[|ek|..] == p;
      x, y := ek + x, ek + y;
    case Branch(val, index, kids) =>
      if |kids| == 1 {
        c, x, y := CutHere(t, key);
      } else {
        var kid := KidAt(t, key[0]).value;
        var p := Cut(kid, key[1..]).value;
        c, x, y := CutAtFunnel(kid, key[1..]);
        SubKid(t, key[0]);
        RaiseFunnel(t, [key[0]], kid, p, c, x, y);
        Shift([key[0]], p, 0, key);
        assert ([key[0]] + p)[1..] == p;
        x, y := [key[0]] + x, [key[0]] + y;
      }
  }

  lemma CutHere(t: Tree, key: Key) returns (c: Nibble, x: Key, y: Key)
    requires t.Branch? && Canonical(t) && Find(t, key).Some? && key != [] && |t.kids| == 1 && !t.kids[0].Leaf?
    ensures Find(t, []).Some? && FunnelAt(t, [], c, x, y)
  {
    c := key[0];
    OnlySlot(t.index, c);
    var a, b := TrieShape.TwoKeys(t.kids[0]);
    x, y := [c] + a, [c] + b;
    assert x[1..] == a && y[1..] == b;
    forall z | Find(t, z).Some? && [] < z ensures [] + [c] <= z {
      OnlySlot(t.index, z[0]);
    }
  }

  // Every key above the deleted one that is a funnel makes Delete cut there or above.
  lemma {:induction false} FunnelIsCut(t: Tree, key: Key, p: Key, c: Nibble, x: Key, y: Key)
    requires Canonical(t) && Find(t, key).Some? && p < key && Find(t, p).Some? && FunnelAt(t, p, c, x, y)
    ensures Cut(t, key).Some? && Cut(t, key).value <= p
    decreases t, 1
  {
    match t
    case Leaf(_, _) =>
    case Ext(ek, next) =>
      FindExt(ek, next, key);
      FindExt(ek, next, p);
      SubExt(t);
      LowerFunnel(t, ek, next, p, c, x, y);
      FunnelIsCut(next, key[|ek|..], p[|ek|..], c, x[|ek|..], y[|ek|..]);
      assert p == ek + p[|ek|..];
    case Branch(val, index, kids) =>
      FunnelIsCutBranch(t, key, p, c, x, y);
  }

  lemma {:induction false} FunnelIsCutBranch(t: Tree, key: Key, p: Key, c: Nibble, x: Key, y: Key)
    requires t.Branch? && Canonical(t) && Find(t, key).Some? && p < key && Find(t, p).Some? && FunnelAt(t, p, c, x, y)
    ensures Cut(t, key).Some? && Cut(t, key).value <= p
    decreases t, 0
  {
    if p == [] {
      FunnelHasOneKid(t, c, x, y);
    } else {
      assert p[0] == key[0] == x[0];
      SubKid(t, p[0]);
      var kid := KidAt(t, p[0]).value;
      LowerFunnel(t, [p[0]], kid, p, c, x, y);
      if |t.kids| != 1 {
        FunnelIsCut(kid, key[1..], p[1..], c, x[1..], y[1..]);
        HeadTail(p);
      } else {
        OnlySlot(t.index, p[0]);
      }
    }
  }

  lemma FunnelHasOneKid(t: Tree, c: Nibble, x: Key, y: Key)
    requires t.Branch? && Canonical(t) && FunnelAt(t, [], c, x, y)
    ensures |t.kids| == 1 && !t.kids[0].Leaf?
  {
    assert [] + [c] == [c];
    assert x[0] == c && y[0] == c;
    HeadTail(x);
    HeadTail(y);
    if |t.kids| > 1 {
      var d := SlotIndex.SlotHasNibble(t.index, |t.kids|, if t.index[c] == 0 then 1 else 0);
      var rest := TrieShape.AnyKey(KidAt(t, d).value);
      var k := [d] + rest;
      assert k[1..] == rest;
      FindBranch(t, k);
      assert false;
    }
    OnlySlot(t.index, c);
    FindBranch(t, x);
    FindBranch(t, y);
  }
}
