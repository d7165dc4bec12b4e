// The Patricia trie of trie/ as a value: what the in-place operations of module
// TrieOps compute, node by node and slot by slot.
module TrieSpec {
  import opened Wrappers
  import opened Nibbles
  import opened SlotIndex

  type Value = seq<Byte>

  datatype Tree =
    | Leaf(key: Key, value: Value)
    | Ext(key: Key, next: Tree)
    | Branch(val: Option<Value>, index: seq<int>, kids: seq<Tree>)

  // Canonical form: extensions are non-empty and lead to a branch, the index of
  // every branch is a bijection, and every branch tells at least two keys apart.
  ghost predicate Canonical(t: Tree) {
    match t
    case Leaf(_, _) => true
    case Ext(key, next) => key != [] && next.Branch? && Canonical(next)
    case Branch(val, index, kids) =>
      && IndexOk(index, |kids|)
      && |kids| >= (if val.Some? then 1 else 2)
      && forall kid | kid in kids :: Canonical(kid)
  }

  ghost predicate CanonicalRoot(r: Option<Tree>) {
    r.Some? ==> Canonical(r.value)
  }

  // ----- Get -----

  // The value found under a key.
  function Find(t: Tree, key: Key): Option<Value>
    requires Canonical(t)
  {
    match t
    case Leaf(k, value) => if k == key then Some(value) else None
    case Ext(k, next) => if Matched(k, key) < |k| then None else Find(next, key[|k|..])
    case Branch(val, index, kids) =>
      if key == [] then val
      else if index[key[0]] == -1 then None
      else Find(kids[index[key[0]]], key[1..])
  }

  // ----- Put -----

  ghost predicate SortedBranch(b: Tree) {
    b.Branch? && Sorted(b.index, |b.kids|)
  }

  function NewBranch(val: Option<Value>): (b: Tree)
    ensures SortedBranch(b) && b.val == val && b.kids == [] && forall d: Nibble :: b.index[d] == -1
  {
    NoIndexSorted();
    Branch(val, NoIndex(), [])
  }

  // SetBranch for a nibble that has no child yet.
  function SetBranch(b: Tree, c: Nibble, kid: Tree): (r: Tree)
    requires SortedBranch(b) && b.index[c] == -1
    ensures SortedBranch(r) && r.val == b.val && |r.kids| == |b.kids| + 1
    ensures forall d: Nibble :: r.index[d] == -1 <==> d != c && b.index[d] == -1
  {
    FrontIsRank(b.index, |b.kids|, c);
    InsertKeepsSorted(b.index, |b.kids|, c);
    var front := |b.kids| - Present(b.index, c + 1, 16);
    var r := Branch(b.val, InsertIndex(b.index, c, front), b.kids[..front] + [kid] + b.kids[front..]);
    InsertMoves(b.index, b.kids, c, kid, r.index, r.kids);
    r
  }

  // The rest of a key past position m as a leaf below a branch.
  function WithRest(b: Tree, key: Key, m: nat, value: Value): (r: Tree)
    requires SortedBranch(b) && m <= |key| && (m < |key| ==> b.index[key[m]] == -1)
    ensures SortedBranch(r) && r.val == b.val && (m == |key| ==> r == b)
    ensures m < |key| ==> forall d: Nibble :: r.index[d] == -1 <==> d != key[m] && b.index[d] == -1
  {
    if m < |key| then SetBranch(b, key[m], Leaf(key[m + 1..], value)) else b
  }

  // The value of the branch that replaces a leaf: that of the key which ends there.
  function ValueAt(k: Key, oldValue: Value, key: Key, value: Value, m: nat): Option<Value> {
    if m == |k| then Some(oldValue) else if m == |key| then Some(value) else None
  }

  // The branch that replaces a leaf when a second key arrives.
  function SplitLeaf(k: Key, oldValue: Value, key: Key, value: Value): (b: Tree)
    requires k != key
    ensures b.Branch?
  {
    var m := Matched(k, key);
    WithRest(WithRest(NewBranch(ValueAt(k, oldValue, key, value, m)), k, m, oldValue), key, m, value)
  }

  // The branch that replaces an extension when a key leaves it half way.
  function SplitExt(k: Key, next: Tree, key: Key, value: Value): (b: Tree)
    requires Matched(k, key) < |k| && Matched(k, key) < |key|
    ensures b.Branch?
  {
    var m := Matched(k, key);
    var rest := if m + 1 == |k| then next else Ext(k[m + 1..], next);
    SetBranch(SetBranch(NewBranch(None), k[m], rest), key[m], Leaf(key[m + 1..], value))
  }

  function Under(prefix: Key, b: Tree): Tree {
    if prefix == [] then b else Ext(prefix, b)
  }

  // Put below a node; None where the code indexes past the end of the key.
  function Put(t: Tree, key: Key, value: Value): Option<Tree>
    requires Canonical(t)
  {
    match t
    case Leaf(k, v) =>
      if k == key then Some(Leaf(k, value))
      else Some(Under(k[..Matched(k, key)], SplitLeaf(k, v, key, value)))
    case Ext(k, next) =>
      var m := Matched(k, key);
      if m == |k| then
        match Put(next, key[m..], value)
        case None => None
        case Some(n) => Some(Ext(k, n))
      else if m == |key| then None
      else Some(Under(k[..m], SplitExt(k, next, key, value)))
    case Branch(val, index, kids) =>
      if key == [] then Some(Branch(Some(value), index, kids))
      else
        var i := index[key[0]];
        if i == -1 then Some(Branch(val, index[key[0] := |kids|], kids + [Leaf(key[1..], value)]))
        else
          match Put(kids[i], key[1..], value)
          case None => None
          case Some(kid) => Some(Branch(val, index, kids[i := kid]))
  }

  // ----- Delete -----

  // What a branch without a value becomes when one child is left.
  function Collapse(c: Nibble, kid: Tree): (r: Tree)
    requires Canonical(kid)
    ensures Canonical(r)
  {
    match kid
    case Leaf(k, v) => Leaf([c] + k, v)
    case Ext(k, next) => Ext([c] + k, next)
    case Branch(_, _, _) => Ext([c], kid)
  }

  function Shrink(val: Option<Value>, index: seq<int>, kids: seq<Tree>): (r: Tree)
    requires IndexOk(index, |kids|) && kids != [] && forall kid | kid in kids :: Canonical(kid)
    ensures Canonical(r)
  {
    if |kids| == 1 && val.None? then
      assert 0 in index && kids[0] in kids;
      Collapse(FirstPresent(index, 0), kids[0])
    else Branch(val, index, kids)
  }

  // Delete below a node, for a key that is there; None when nothing is left.
  function Delete(t: Tree, key: Key): (r: Option<Tree>)
    requires Canonical(t) && Find(t, key).Some?
    ensures r.None? <==> t.Leaf?
    ensures r.Some? ==> Canonical(r.value)
  {
    match t
    case Leaf(_, _) => None
    case Ext(k, next) => Some(Prepend(k, Delete(next, key[|k|..]).value))
    case Branch(val, index, kids) =>
      if key == [] then Some(Shrink(None, index, kids))
      else if |kids| == 1 then Some(Leaf([], val.value))
      else
        var i := index[key[0]];
        if kids[i].Leaf? then
          RemoveMoves(index, kids, key[0]);
          var left := kids[..i] + kids[i + 1..];
          assert forall kid | kid in left :: kid in kids;
          Some(Shrink(val, RemoveIndex(index, key[0]), left))
        else Some(Branch(val, index, kids[i := Delete(kids[i], key[1..]).value]))
  }

  // An extension over what its branch became.
  function Prepend(k: Key, next: Tree): Tree {
    match next
    case Leaf(k2, v) => Leaf(k + k2, v)
    case Ext(k2, n) => Ext(k + k2, n)
    case Branch(_, _, _) => Ext(k, next)
  }
}
