// The plain map a trie stands for.
module TrieContents {
  import opened Wrappers
  import Nibbles
  import opened TrieSpec
  import TrieLaws
  import TrieDelete

  // ----- contents -----

  ghost function Keys(t: Tree): set<Nibbles.Key>
    requires Canonical(t)
  {
    match t
    case Leaf(k, _) => {k}
    case Ext(ek, next) => set k | k in Keys(next) :: ek + k
    case Branch(val, index, kids) =>
      (if val.Some? then {[]} else {}) +
      set c: Nibbles.Nibble, k | 0 <= c < 16 && index[c] != -1 && k in Keys(kids[index[c]]) :: [c] + k
  }

  lemma {:induction false} KeysAreFound(t: Tree, k: Nibbles.Key)
    requires Canonical(t)
    ensures k in Keys(t) <==> Find(t, k).Some?
  {
    match t
    case Leaf(_, _) =>
    case Ext(ek, next) =>
      TrieLaws.FindExt(ek, next, k);
      if ek <= k {
        KeysAreFound(next, k[|ek|..]);
      }
      forall q | q in Keys(next) && ek + q == k ensures q == k[|ek|..] {
      }
    case Branch(val, index, kids) =>
      if k != [] {
        TrieLaws.HeadTail(k);
        if index[k[0]] != -1 {
          KeysAreFound(kids[index[k[0]]], k[1..]);
        }
      }
  }

  // The map a trie stands for; an empty trie has no root.
  ghost function Contents(r: Option<Tree>): map<Nibbles.Key, Value>
    requires CanonicalRoot(r)
  {
    if r.None? then map[]
    else map k | k in Keys(r.value) && Find(r.value, k).Some? :: Find(r.value, k).value
  }

  lemma ContentsFound(r: Option<Tree>, k: Nibbles.Key)
    requires CanonicalRoot(r)
    ensures TrieDelete.FindRoot(r, k) == if k in Contents(r) then Some(Contents(r)[k]) else None
  {
    if r.Some? {
      KeysAreFound(r.value, k);
    }
  }

  lemma ContentsEqual(r: Option<Tree>, m: map<Nibbles.Key, Value>)
    requires CanonicalRoot(r)
    requires forall k :: TrieDelete.FindRoot(r, k) == if k in m then Some(m[k]) else None
    ensures Contents(r) == m
  {
    forall k ensures k in Contents(r) <==> k in m
             ensures k in m ==> Contents(r)[k] == m[k]
    {
      ContentsFound(r, k);
    }
  }
}
