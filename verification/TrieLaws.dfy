// What the trie operations mean for the key-value map they work on.
module TrieLaws {
  import opened Wrappers
  import opened Nibbles
  import opened SlotIndex
  import opened TrieSpec

  // ----- Put, one key at a time -----

  // The child of a branch for a nibble.
  ghost function KidAt(b: Tree, c: Nibble): (r: Option<Tree>)
    requires b.Branch? && IndexOk(b.index, |b.kids|)
    ensures r.Some? ==> r.value in b.kids && r.value < b
  {
    if b.index[c] == -1 then None else Some(b.kids[b.index[c]])
  }

  lemma SetBranchKids(b: Tree, c: Nibble, kid: Tree, r: Tree)
    requires SortedBranch(b) && b.index[c] == -1 && r == SetBranch(b, c, kid)
    ensures IndexOk(b.index, |b.kids|) && IndexOk(r.index, |r.kids|)
    ensures forall d: Nibble :: KidAt(r, d) == if d == c then Some(kid) else KidAt(b, d)
  {
    FrontIsRank(b.index, |b.kids|, c);
    InsertMoves(b.index, b.kids, c, kid, r.index, r.kids);
  }

  // A branch whose children are canonical is canonical once it has enough of them.
  lemma KidsCanonical(b: Tree)
    requires b.Branch? && IndexOk(b.index, |b.kids|)
    requires |b.kids| >= if b.val.Some? then 1 else 2
    requires forall c: Nibble :: KidAt(b, c).Some? ==> Canonical(KidAt(b, c).value)
    ensures Canonical(b)
  {
    forall kid | kid in b.kids ensures Canonical(kid) {
      var i :| 0 <= i < |b.kids| && b.kids[i] == kid;
      var c := SlotHasNibble(b.index, |b.kids|, i);
      assert KidAt(b, c) == Some(kid);
    }
  }

  // The branch that SplitLeaf builds: the old leaf and the new one part ways in it.
  lemma SplitLeafKids(k: Key, v: Value, key: Key, value: Value)
    requires k != key
    ensures var m := Matched(k, key);
            var b := SplitLeaf(k, v, key, value);
            && Canonical(b)
            && b.val == (if m == |k| then Some(v) else if m == |key| then Some(value) else None)
            && forall c: Nibble :: KidAt(b, c) ==
                 if m < |k| && c == k[m] then Some(Leaf(k[m + 1..], v))
                 else if m < |key| && c == key[m] then Some(Leaf(key[m + 1..], value))
                 else None
  {
    hide IndexOk, Sorted, InsertIndex, SetBranch, NewBranch;
    var m := Matched(k, key);
    var b0 := NewBranch(ValueAt(k, v, key, value, m));
    SortedIsOk(b0.index, 0);
    var b1 := b0;
    if m < |k| {
      b1 := SetBranch(b0, k[m], Leaf(k[m + 1..], v));
      SetBranchKids(b0, k[m], Leaf(k[m + 1..], v), b1);
    }
    var b := SplitLeaf(k, v, key, value);
    if m < |key| {
      SetBranchKids(b1, key[m], Leaf(key[m + 1..], value), b);
    }
    KidsCanonical(b);
  }

  // The branch that SplitExt builds: the rest of the extension on one side, the new leaf on the other.
  lemma SplitExtKids(k: Key, next: Tree, key: Key, value: Value)
    requires Canonical(Ext(k, next)) && Matched(k, key) < |k| && Matched(k, key) < |key|
    ensures var m := Matched(k, key);
            var b := SplitExt(k, next, key, value);
            && Canonical(b) && b.val.None?
            && forall c: Nibble :: KidAt(b, c) ==
                 if c == k[m] then Some(if m + 1 == |k| then next else Ext(k[m + 1..], next))
                 else if c == key[m] then Some(Leaf(key[m + 1..], value))
                 else None
  {
    hide IndexOk, Sorted, InsertIndex, SetBranch, NewBranch;
    var m := Matched(k, key);
    var rest := if m + 1 == |k| then next else Ext(k[m + 1..], next);
    var b0 := NewBranch(None);
    SortedIsOk(b0.index, 0);
    var b1 := SetBranch(b0, k[m], rest);
    SetBranchKids(b0, k[m], rest, b1);
    var b := SplitExt(k, next, key, value);
    SetBranchKids(b1, key[m], Leaf(key[m + 1..], value), b);
    KidsCanonical(b);
  }

  lemma AppendCanonical(b: Tree, c: Nibble, kid: Tree)
    requires b.Branch? && Canonical(b) && b.index[c] == -1 && Canonical(kid)
    ensures Canonical(Branch(b.val, b.index[c := |b.kids|], b.kids + [kid]))
  {
    AppendMoves(b.index, b.kids, c, kid);
  }

  lemma ReplaceCanonical(b: Tree, i: nat, kid: Tree)
    requires b.Branch? && Canonical(b) && i < |b.kids| && Canonical(kid)
    ensures Canonical(Branch(b.val, b.index, b.kids[i := kid]))
  {
    forall x | x in b.kids[i := kid] ensures Canonical(x) {
    }
  }

  // Every Put keeps canonical form.
  lemma {:induction false} PutCanonical(t: Tree, key: Key, value: Value)
    requires Canonical(t) && Put(t, key, value).Some?
    ensures Canonical(Put(t, key, value).value)
    ensures t.Branch? ==> Put(t, key, value).value.Branch?
  {
    hide SplitLeaf, SplitExt;
    match t
    case Leaf(k, v) =>
      if k != key {
        SplitLeafKids(k, v, key, value);
      }
    case Ext(k, next) =>
      if Matched(k, key) == |k| {
        PutCanonical(next, key[|k|..], value);
      } else {
        SplitExtKids(k, next, key, value);
      }
    case Branch(val, index, kids) =>
      if key != [] {
        var i := index[key[0]];
        if i == -1 {
          AppendCanonical(t, key[0], Leaf(key[1..], value));
        } else {
          assert kids[i] in kids;
          PutCanonical(kids[i], key[1..], value);
          ReplaceCanonical(t, i, Put(kids[i], key[1..], value).value);
        }
      }
  }

  // How a key runs through the three kinds of node.
  lemma FindBranch(b: Tree, k: Key)
    requires b.Branch? && Canonical(b)
    ensures Find(b, k) ==
            if k == [] then b.val
            else match KidAt(b, k[0]) case None => None case Some(kid) => Find(kid, k[1..])
  {
  }

  lemma FindExt(ek: Key, next: Tree, k: Key)
    requires Canonical(Ext(ek, next))
    ensures Find(Ext(ek, next), k) == if ek <= k then Find(next, k[|ek|..]) else None
    ensures ek <= k ==> k == ek + k[|ek|..]
  {
    hide IndexOk;
    if Matched(ek, k) == |ek| {
      assert ek == k[..|ek|];
    }
  }

  lemma FindUnder(prefix: Key, b: Tree, k: Key)
    requires b.Branch? && Canonical(b)
    ensures Canonical(Under(prefix, b))
    ensures Find(Under(prefix, b), k) == if prefix <= k then Find(b, k[|prefix|..]) else None
    ensures prefix <= k ==> k == prefix + k[|prefix|..]
  {
    hide IndexOk, Find;
    if prefix == [] {
      assert k[0..] == k;
    } else {
      FindExt(prefix, b, k);
    }
  }

  // Below the common prefix, a key is one of two others exactly when the rest is.
  lemma SplitKey(prefix: Key, a: Key, k: Key)
    requires prefix <= a && prefix <= k
    ensures k == a <==> k[|prefix|..] == a[|prefix|..]
  {
    assert k == prefix + k[|prefix|..] && a == prefix + a[|prefix|..];
  }

  lemma HeadTail(k: Key)
    requires k != []
    ensures k == [k[0]] + k[1..]
  {
  }

  // Reading the branch that SplitLeaf builds.
  lemma FindSplitLeaf(lk: Key, lv: Value, key: Key, value: Value, rest: Key)
    requires lk != key
    ensures var m := Matched(lk, key);
            var b := SplitLeaf(lk, lv, key, value);
            Canonical(b) &&
            Find(b, rest) == if rest == key[m..] then Some(value) else if rest == lk[m..] then Some(lv) else None
  {
    hide SplitLeaf, IndexOk;
    SplitLeafKids(lk, lv, key, value);
    var m := Matched(lk, key);
    FindBranch(SplitLeaf(lk, lv, key, value), rest);
    if m < |lk| { HeadTail(lk[m..]); }
    if m < |key| { HeadTail(key[m..]); }
    if rest != [] { HeadTail(rest); }
    assert m == |lk| ==> m < |key|;
  }

  lemma PutFindLeaf(lk: Key, lv: Value, key: Key, value: Value, k: Key)
    requires lk != key
    ensures var r := Under(lk[..Matched(lk, key)], SplitLeaf(lk, lv, key, value));
            Canonical(r) && Find(r, k) == if k == key then Some(value) else if k == lk then Some(lv) else None
  {
    hide SplitLeaf, Find, Canonical, Under;
    var m := Matched(lk, key);
    var prefix := lk[..m];
    assert prefix == key[..m];
    var b := SplitLeaf(lk, lv, key, value);
    FindSplitLeaf(lk, lv, key, value, if prefix <= k then k[m..] else []);
    FindUnder(prefix, b, k);
    if prefix <= k {
      SplitKey(prefix, lk, k);
      SplitKey(prefix, key, k);
    }
  }

  // Reading the branch that SplitExt builds.
  lemma FindSplitExt(ek: Key, next: Tree, key: Key, value: Value, rest: Key)
    requires Canonical(Ext(ek, next)) && Matched(ek, key) < |ek| && Matched(ek, key) < |key|
    ensures var m := Matched(ek, key);
            var b := SplitExt(ek, next, key, value);
            Canonical(b) &&
            Find(b, rest) == if rest == key[m..] then Some(value)
                             else if ek[m..] <= rest then Find(next, rest[|ek| - m..]) else None
  {
    hide SplitExt, IndexOk, Find;
    SplitExtKids(ek, next, key, value);
    var m := Matched(ek, key);
    FindBranch(SplitExt(ek, next, key, value), rest);
    HeadTail(ek[m..]);
    HeadTail(key[m..]);
    if rest != [] {
      HeadTail(rest);
      if rest[0] == ek[m] {
        PastFirst(ek[m..], rest);
        if m + 1 < |ek| {
          FindExt(ek[m + 1..], next, rest[1..]);
        }
      } else {
        FindLeaf(key[m + 1..], value, rest[1..]);
      }
    }
  }

  lemma FindLeaf(lk: Key, lv: Value, k: Key)
    ensures Find(Leaf(lk, lv), k) == if lk == k then Some(lv) else None
  {
  }

  lemma PastFirst(a: Key, b: Key)
    requires a != [] && b != [] && a[0] == b[0]
    ensures a <= b <==> a[1..] <= b[1..]
    ensures a <= b ==> b[|a|..] == b[1..][|a| - 1..]
  {
    HeadTail(a);
    HeadTail(b);
  }

  lemma PrefixSplit(prefix: Key, a: Key, k: Key)
    requires prefix <= a
    ensures a <= k <==> prefix <= k && a[|prefix|..] <= k[|prefix|..]
    ensures a <= k ==> k[|a|..] == k[|prefix|..][|a| - |prefix|..]
  {
    assert a == prefix + a[|prefix|..];
    if prefix <= k {
      assert k == prefix + k[|prefix|..];
    }
  }

  lemma PutFindExt(ek: Key, next: Tree, key: Key, value: Value, k: Key)
    requires Canonical(Ext(ek, next)) && Matched(ek, key) < |ek| && Matched(ek, key) < |key|
    ensures var r := Under(ek[..Matched(ek, key)], SplitExt(ek, next, key, value));
            Canonical(r) && Find(r, k) == if k == key then Some(value) else Find(Ext(ek, next), k)
  {
    hide SplitExt, Find, Canonical, Under;
    var m := Matched(ek, key);
    var prefix := ek[..m];
    assert prefix == key[..m];
    var b := SplitExt(ek, next, key, value);
    FindSplitExt(ek, next, key, value, if prefix <= k then k[m..] else []);
    FindUnder(prefix, b, k);
    FindExt(ek, next, k);
    PrefixSplit(prefix, ek, k);
    if prefix <= k {
      SplitKey(prefix, key, k);
    }
  }

  // Reading a branch after one child was replaced.
  lemma ReplaceKid(b: Tree, c: Nibble, kid: Tree, k: Key)
    requires b.Branch? && Canonical(b) && KidAt(b, c).Some? && Canonical(kid)
    ensures var r := Branch(b.val, b.index, b.kids[b.index[c] := kid]);
            Canonical(r) && Find(r, k) == if k != [] && k[0] == c then Find(kid, k[1..]) else Find(b, k)
  {
  }

  // Reading a branch after a child was appended.
  lemma AppendKid(b: Tree, c: Nibble, kid: Tree, k: Key)
    requires b.Branch? && Canonical(b) && KidAt(b, c).None? && Canonical(kid)
    ensures var r := Branch(b.val, b.index[c := |b.kids|], b.kids + [kid]);
            Canonical(r) && Find(r, k) == if k != [] && k[0] == c then Find(kid, k[1..]) else Find(b, k)
  {
    AppendMoves(b.index, b.kids, c, kid);
  }

  // A key other than `key` reads after Put what it read before, and `key` reads the new value.
  lemma {:induction false} PutFind(t: Tree, key: Key, value: Value, k: Key)
    requires Canonical(t) && Put(t, key, value).Some?
    ensures Canonical(Put(t, key, value).value)
    ensures Find(Put(t, key, value).value, k) == if k == key then Some(value) else Find(t, k)
  {
    hide IndexOk, SplitLeaf, SplitExt, Under;
    PutCanonical(t, key, value);
    match t
    case Leaf(lk, lv) =>
      if lk != key {
        PutFindLeaf(lk, lv, key, value, k);
      }
    case Ext(ek, next) =>
      if Matched(ek, key) == |ek| {
        hide Find;
        assert ek == key[..|ek|];
        FindExt(ek, next, k);
        FindExt(ek, Put(next, key[|ek|..], value).value, k);
        if ek <= k {
          SplitKey(ek, key, k);
          PutFind(next, key[|ek|..], value, k[|ek|..]);
        }
      } else {
        PutFindExt(ek, next, key, value, k);
      }
    case Branch(val, index, kids) =>
      FindBranch(t, k);
      if key == [] {
        FindBranch(Branch(Some(value), index, kids), k);
      } else if KidAt(t, key[0]).None? {
        AppendKid(t, key[0], Leaf(key[1..], value), k);
        if k != [] && k[0] == key[0] {
          SplitKey([key[0]], key, k);
          FindLeaf(key[1..], value, k[1..]);
        }
      } else {
        var kid := KidAt(t, key[0]).value;
        PutCanonical(kid, key[1..], value);
        ReplaceKid(t, key[0], Put(kid, key[1..], value).value, k);
        if k != [] && k[0] == key[0] {
          SplitKey([key[0]], key, k);
          PutFind(kid, key[1..], value, k[1..]);
        }
      }
  }
}
