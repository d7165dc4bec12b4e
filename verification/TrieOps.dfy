// trie/trie.go and trie/trie_node.go: Get, Put and Delete on nodes in place, each
// proved to compute its counterpart in TrieSpec.
module TrieOps {
  import opened Wrappers
  import opened Nibbles
  import opened SlotIndex
  import opened TrieSpec
  import opened TrieHeap
  import TrieLaws

  // ----- pieces of Put -----

  ghost function WithKid(b: Skel, c: Nibble, k: Skel): Skel
    requires b.SBranch? && Sorted(b.index, |b.kids|) && b.index[c] == -1
  {
    FrontIsRank(b.index, |b.kids|, c);
    var front := |b.kids| - Present(b.index, c + 1, 16);
    SBranch(b.node, b.val, InsertIndex(b.index, c, front), b.kids[..front] + [k] + b.kids[front..])
  }

  lemma WithKidFacts(b: Skel, c: Nibble, k: Skel)
    requires b.SBranch? && Sorted(b.index, |b.kids|) && b.index[c] == -1
    requires Distinct(b) && Distinct(k) && Nodes(b) !! Nodes(k)
    ensures var r := WithKid(b, c, k);
            && Distinct(r) && Nodes(r) == Nodes(b) + Nodes(k)
            && SortedBranch(Erase(b)) && Erase(r) == SetBranch(Erase(b), c, Erase(k))
  {
    FrontIsRank(b.index, |b.kids|, c);
    var r := WithKid(b, c, k);
    BranchParts(b);
    BranchParts(r);
    WithKidParts(b, c, k);
  }

  lemma WithKidParts(b: Skel, c: Nibble, k: Skel)
    requires b.SBranch? && Sorted(b.index, |b.kids|) && b.index[c] == -1
    requires DistinctAll(b.kids) && Distinct(k) && NodesAll(b.kids) !! Nodes(k)
    ensures Present(b.index, c + 1, 16) <= |b.kids|
    ensures var front := |b.kids| - Present(b.index, c + 1, 16);
            var kids := WithKid(b, c, k).kids;
            && DistinctAll(kids) && NodesAll(kids) == NodesAll(b.kids) + Nodes(k)
            && EraseAll(kids) == EraseAll(b.kids)[..front] + [Erase(k)] + EraseAll(b.kids)[front..]
  {
    FrontIsRank(b.index, |b.kids|, c);
    var front := |b.kids| - Present(b.index, c + 1, 16);
    var left, right := b.kids[..front], b.kids[front..];
    assert WithKid(b, c, k).kids == left + [k] + right;
    hide *;
    PartsAround(b.kids, front, k);
  }

  lemma PartsAround(all: seq<Skel>, front: nat, k: Skel)
    requires front <= |all| && DistinctAll(all) && Distinct(k) && NodesAll(all) !! Nodes(k)
    ensures var kids := all[..front] + [k] + all[front..];
            && DistinctAll(kids) && NodesAll(kids) == NodesAll(all) + Nodes(k)
            && EraseAll(kids) == EraseAll(all)[..front] + [Erase(k)] + EraseAll(all)[front..]
  {
    hide *;
    var left, right := all[..front], all[front..];
    assert left + right == all;
    SplitKids(left, k, right);
    KidsDistinct(left, k, right);
    EraseSlices(all, front);
  }

  lemma EraseSlices(kids: seq<Skel>, front: nat)
    requires front <= |kids|
    ensures EraseAll(kids[..front]) == EraseAll(kids)[..front]
    ensures EraseAll(kids[front..]) == EraseAll(kids)[front..]
  {
    hide Erase;
  }

  lemma RootsAround(left: seq<Skel>, k: Skel, right: seq<Skel>, kids: seq<Skel>, front: nat)
    requires front <= |kids| && left == kids[..front] && right == kids[front..]
    ensures Roots(left + [k] + right) == Roots(kids)[..front] + [k.node] + Roots(kids)[front..]
  {
    assert Roots(left) == Roots(kids)[..front] && Roots(right) == Roots(kids)[front..];
    assert Roots(left + [k] + right) == Roots(left) + [k.node] + Roots(right);
  }

  // The children around the new one.
  lemma Around(bs: Skel, c: Nibble, k: Skel) returns (left: seq<Skel>, right: seq<Skel>)
    requires bs.SBranch? && Sorted(bs.index, |bs.kids|) && bs.index[c] == -1
    ensures left + right == bs.kids
    ensures var front := |bs.kids| - Present(bs.index, c + 1, 16);
            && 0 <= front
            && WithKid(bs, c, k) == SBranch(bs.node, bs.val, InsertIndex(bs.index, c, front), left + [k] + right)
            && Roots(left + [k] + right) == Roots(bs.kids)[..front] + [k.node] + Roots(bs.kids)[front..]
  {
    FrontIsRank(bs.index, |bs.kids|, c);
    var front := |bs.kids| - Present(bs.index, c + 1, 16);
    left, right := bs.kids[..front], bs.kids[front..];
    hide Sorted, InsertIndex, Present, Roots;
    RootsAround(left, k, right, bs.kids, front);
  }

  // SetBranch on a branch node whose skeleton is known.
  method AddKid(b: Node, c: Nibble, kid: Node, ghost bs: Skel, ghost ks: Skel) returns (ghost bs': Skel)
    requires bs.SBranch? && bs.node == b && ks.node == kid && Rep(bs) && Rep(ks)
    requires Distinct(bs) && Nodes(bs) !! Nodes(ks)
    requires Sorted(bs.index, |bs.kids|) && bs.index[c] == -1
    modifies b
    ensures bs' == WithKid(bs, c, ks) && Rep(bs') && Rep(ks)
  {
    hide Present, Sorted, InsertIndex, Distinct, DistinctAll, Nodes, NodesAll, Roots, Rep, RepAll, WithKid;
    ghost var left, right := Around(bs, c, ks);
    BranchParts(bs);
    RepBranch(bs);
    OwnRoot(bs);
    assert b !in NodesAll(bs.kids) && b !in Nodes(ks);
    NodesExist(ks);
    AllNodesExist(bs.kids);
    bs' := WithKid(bs, c, ks);
    b.SetBranch(c, kid);
    KidsRep(left, ks, right);
    RepBranch(bs');
  }

  // A branch under construction: SetBranch is still possible on it.
  ghost predicate Open(bs: Skel) {
    bs.SBranch? && Distinct(bs) && Sorted(bs.index, |bs.kids|)
  }

  // A fresh leaf becomes the child for c.
  method AddLeaf(b: Node, c: Nibble, key: Key, value: Value, ghost bs: Skel) returns (ghost bs': Skel)
    requires Open(bs) && bs.node == b && Rep(bs) && bs.index[c] == -1
    modifies b
    ensures Open(bs') && bs'.node == b && Rep(bs')
    ensures forall n | n in Nodes(bs') :: n in Nodes(bs) || fresh(n)
    ensures SortedBranch(Erase(bs)) && Erase(bs').index == bs'.index
    ensures Erase(bs') == TrieSpec.SetBranch(Erase(bs), c, Leaf(key, value))
  {
    NodesExist(bs);
    var leaf := new Node.NewLeaf(key, value);
    ghost var ks := SLeaf(leaf, key, value);
    WithKidFacts(bs, c, ks);
    hide Sorted, WithKid, Present;
    bs' := AddKid(b, c, leaf, bs, ks);
  }

  // A copy of a branch's fields in another node has the same children.
  method TakeOver(node: Node, b: Node, ghost bs: Skel) returns (ghost s: Skel)
    requires bs.SBranch? && bs.node == b && Rep(bs) && Distinct(bs) && node !in Nodes(bs)
    modifies node
    ensures s.node == node && Rep(s) && Distinct(s) && Nodes(s) == Nodes(bs) - {b} + {node}
    ensures Erase(s) == Erase(bs)
  {
    BranchParts(bs);
    AllNodesExist(bs.kids);
    RepBranch(bs);
    s := SBranch(node, bs.val, bs.index, bs.kids);
    BranchParts(s);
    OwnRoot(bs);
    hide Nodes, NodesAll, Distinct, DistinctAll;
    node.Assign(b);
    RepBranch(s);
  }

  // The node becomes the branch, or an extension over it.
  method Become(node: Node, prefix: Key, b: Node, ghost bs: Skel) returns (ghost s: Skel)
    requires bs.SBranch? && bs.node == b && Rep(bs) && Distinct(bs) && node !in Nodes(bs)
    modifies node
    ensures s.node == node && Rep(s) && Distinct(s) && Nodes(s) <= Nodes(bs) + {node}
    ensures Erase(s) == Under(prefix, Erase(bs))
  {
    if prefix != [] {
      NodesExist(bs);
      var ext := new Node.NewExtension(prefix, b);
      node.Assign(ext);
      s := SExt(node, prefix, bs);
    } else {
      s := TakeOver(node, b, bs);
    }
  }

  // ----- Put at a leaf -----

  method PutLeaf(node: Node, nibbles: Key, value: Value, ghost s: Skel) returns (ghost s': Skel)
    requires s.SLeaf? && s.node == node && Rep(s)
    modifies node
    ensures s'.node == node && Rep(s') && Distinct(s') && forall n | n in Nodes(s') :: n == node || fresh(n)
    ensures Some(Erase(s')) == TrieSpec.Put(Erase(s), nibbles, value)
  {
    var matched := PrefixMatchedLen(node.keySlice, nibbles);
    if matched == |nibbles| && matched == |node.keySlice| {
      var leaf := new Node.NewLeaf(node.keySlice, value);
      node.Assign(leaf);
      s' := SLeaf(node, s.key, value);
      assert s.key == nibbles;
      return;
    }
    assert s.key != nibbles;
    var branch, bs := SplitAtLeaf(node, nibbles, value, matched, s);
    s' := Become(node, node.keySlice[..matched], branch, bs);
  }

  // A fresh branch without children.
  method StartBranch(val: Option<Value>) returns (branch: Node, ghost bs: Skel)
    ensures Open(bs) && bs.node == branch && Rep(bs) && (forall n | n in Nodes(bs) :: fresh(n)) && fresh(branch)
    ensures Erase(bs) == NewBranch(val) && Erase(bs).index == bs.index
  {
    branch := new Node.NewBranch();
    branch.value := val;
    bs := SBranch(branch, val, NoIndex(), []);
    NoIndexSorted();
    BranchParts(bs);
  }

  // The rest of a key, if any, becomes a leaf below the branch.
  method AddRest(b: Node, key: Key, m: nat, value: Value, ghost bs: Skel) returns (ghost bs': Skel)
    requires Open(bs) && bs.node == b && Rep(bs)
    requires m <= |key| && (m < |key| ==> bs.index[key[m]] == -1)
    modifies b
    ensures Open(bs') && bs'.node == b && Rep(bs')
    ensures forall n | n in Nodes(bs') :: n in Nodes(bs) || fresh(n)
    ensures SortedBranch(Erase(bs)) && Erase(bs).index == bs.index && Erase(bs').index == bs'.index
    ensures Erase(bs') == WithRest(Erase(bs), key, m, value)
  {
    BranchParts(bs);
    bs' := bs;
    if m < |key| {
      bs' := AddLeaf(b, key[m], key[m + 1..], value, bs);
    }
  }

  // The branch takes the value of the key that ends at the split, if one does.
  method SplitValue(keySlice: Key, oldValue: Value, nibbles: Key, value: Value, matched: nat)
    returns (val: Option<Value>)
    ensures val == ValueAt(keySlice, oldValue, nibbles, value, matched)
  {
    val := None;
    if matched == |keySlice| {
      val := Some(oldValue);
    } else if matched == |nibbles| {
      val := Some(value);
    }
  }

  lemma SplitLeafParts(k: Key, v: Value, key: Key, value: Value)
    requires k != key
    ensures var m := Matched(k, key);
            SplitLeaf(k, v, key, value) == WithRest(WithRest(NewBranch(ValueAt(k, v, key, value, m)), k, m, v), key, m, value)
  {
  }

  method SplitAtLeaf(node: Node, nibbles: Key, value: Value, matched: nat, ghost s: Skel)
    returns (branch: Node, ghost bs: Skel)
    requires s.SLeaf? && s.node == node && Rep(s) && s.key != nibbles && matched == Matched(s.key, nibbles)
    ensures bs.SBranch? && bs.node == branch && Rep(bs) && Distinct(bs) && forall n | n in Nodes(bs) :: fresh(n)
    ensures Erase(bs) == SplitLeaf(s.key, s.value, nibbles, value)
  {
    var keySlice, oldValue := node.keySlice, node.value.value;
    assert keySlice == s.key && oldValue == s.value;
    var val := SplitValue(keySlice, oldValue, nibbles, value, matched);
    branch, bs := StartBranch(val);
    SplitLeafParts(keySlice, oldValue, nibbles, value);
    hide Sorted, Distinct, Nodes, Rep, Erase, WithRest, NewBranch, ValueAt, SplitLeaf;
    bs := AddRests(branch, keySlice, oldValue, nibbles, value, matched, bs);
  }

  // The rests of two keys that part at position m.
  method AddRests(b: Node, k: Key, v: Value, key: Key, value: Value, m: nat, ghost bs: Skel) returns (ghost bs': Skel)
    requires Open(bs) && bs.node == b && Rep(bs) && forall d: Nibble :: bs.index[d] == -1
    requires k != key && m == Matched(k, key)
    modifies b
    ensures Open(bs') && bs'.node == b && Rep(bs')
    ensures forall n | n in Nodes(bs') :: n in Nodes(bs) || fresh(n)
    ensures SortedBranch(Erase(bs)) && Erase(bs).index == bs.index
    ensures Erase(bs') == WithRest(WithRest(Erase(bs), k, m, v), key, m, value)
  {
    hide Sorted, Distinct, Nodes, Rep, Erase, WithRest;
    ghost var bs1 := AddRest(b, k, m, v, bs);
    bs' := AddRest(b, key, m, value, bs1);
  }

  // ----- Put inside an extension -----

  // What is left of the extension below the split: its branch, or a shorter extension.
  method RestOfExt(node: Node, matched: nat, ghost s: Skel) returns (rest: Node, ghost rs: Skel)
    requires s.SExt? && s.node == node && Rep(s) && Distinct(s) && matched < |s.key|
    ensures rs.node == rest && Rep(rs) && Distinct(rs) && Rep(s)
    ensures forall n | n in Nodes(rs) :: n in Nodes(s.next) || fresh(n)
    ensures Erase(rs) == if matched + 1 == |s.key| then Erase(s.next) else Ext(s.key[matched + 1..], Erase(s.next))
  {
    var remaining := node.keySlice[matched + 1..];
    if |remaining| == 0 {
      rest, rs := node.next, s.next;
    } else {
      NodesExist(s);
      NodesExist(s.next);
      assert Rep(s.next) && node !in Nodes(s.next);
      rest := new Node.NewExtension(remaining, node.next);
      rs := SExt(rest, remaining, s.next);
    }
  }

  // A fresh branch over a subtree and a new leaf.
  method JoinTwo(c: Nibble, sub: Node, d: Nibble, key: Key, value: Value, ghost ks: Skel)
    returns (branch: Node, ghost bs: Skel)
    requires ks.node == sub && Rep(ks) && Distinct(ks) && c != d
    ensures bs.SBranch? && bs.node == branch && Rep(bs) && Distinct(bs)
    ensures forall n | n in Nodes(bs) :: n in Nodes(ks) || fresh(n)
    ensures Erase(bs) == SetBranch(SetBranch(NewBranch(None), c, Erase(ks)), d, Leaf(key, value))
  {
    NodesExist(ks);
    branch, bs := StartBranch(None);
    hide Sorted, Distinct, Rep, Erase, SetBranch, NewBranch, WithKid, Nodes;
    bs := AddSub(branch, c, sub, bs, ks);
    bs := AddLeaf(branch, d, key, value, bs);
  }

  method SplitAtExt(node: Node, nibbles: Key, value: Value, matched: nat, ghost s: Skel)
    returns (branch: Node, ghost bs: Skel)
    requires s.SExt? && s.node == node && Rep(s) && Distinct(s)
    requires matched == Matched(s.key, nibbles) && matched < |s.key| && matched < |nibbles|
    ensures bs.SBranch? && bs.node == branch && Rep(bs) && Distinct(bs)
    ensures forall n | n in Nodes(bs) :: n in Nodes(s.next) || fresh(n)
    ensures Erase(bs) == SplitExt(s.key, Erase(s.next), nibbles, value)
  {
    var c := node.keySlice[matched];
    assert c == s.key[matched] && c != nibbles[matched];
    var rest, rs := RestOfExt(node, matched, s);
    hide Distinct, Rep, Erase, SetBranch, NewBranch, Nodes;
    branch, bs := JoinTwo(c, rest, nibbles[matched], nibbles[matched + 1..], value, rs);
  }

  // AddKid, in terms of the tree.
  method AddSub(b: Node, c: Nibble, kid: Node, ghost bs: Skel, ghost ks: Skel) returns (ghost bs': Skel)
    requires Open(bs) && bs.node == b && ks.node == kid && Rep(bs) && Rep(ks)
    requires Distinct(ks) && Nodes(bs) !! Nodes(ks) && bs.index[c] == -1
    modifies b
    ensures Open(bs') && bs'.node == b && Rep(bs')
    ensures Nodes(bs') == Nodes(bs) + Nodes(ks)
    ensures SortedBranch(Erase(bs)) && Erase(bs').index == bs'.index
    ensures Erase(bs') == TrieSpec.SetBranch(Erase(bs), c, Erase(ks))
  {
    WithKidFacts(bs, c, ks);
    hide Sorted, WithKid, Present;
    bs' := AddKid(b, c, kid, bs, ks);
  }

  method PutExt(node: Node, nibbles: Key, value: Value, matched: nat, ghost s: Skel) returns (ghost s': Skel)
    requires s.SExt? && s.node == node && Rep(s) && Distinct(s) && Canonical(Erase(s))
    requires matched == Matched(s.key, nibbles) && matched < |s.key| && matched < |nibbles|
    modifies node
    ensures s'.node == node && Rep(s') && Distinct(s')
    ensures forall n | n in Nodes(s') :: n in Nodes(s) || fresh(n)
    ensures Some(Erase(s')) == TrieSpec.Put(Erase(s), nibbles, value)
  {
    NodesExist(s);
    var extNibbles := node.keySlice[..matched];
    var branch, bs := SplitAtExt(node, nibbles, value, matched, s);
    s' := Become(node, extNibbles, branch, bs);
  }

  // ----- Put at a branch -----

  // A nibble without a child: a new leaf in the next slot.
  method AppendLeaf(node: Node, c: Nibble, rest: Key, value: Value, ghost s: Skel) returns (ghost s': Skel)
    requires s.SBranch? && s.node == node && Rep(s) && Distinct(s)
    requires |s.index| == 16 && s.index[c] == -1
    modifies node
    ensures s'.node == node && Rep(s') && Distinct(s')
    ensures forall n | n in Nodes(s') :: n in Nodes(s) || fresh(n)
    ensures Erase(s') == Branch(s.val, s.index[c := |s.kids|], EraseAll(s.kids) + [Leaf(rest, value)])
  {
    BranchParts(s);
    RepBranch(s);
    AllNodesExist(s.kids);
    NodesExist(s);
    var leaf := new Node.NewLeaf(rest, value);
    ghost var ks := SLeaf(leaf, rest, value);
    AppendParts(s, c, ks);
    s' := SBranch(node, s.val, s.index[c := |s.kids|], s.kids + [ks]);
    hide Nodes, NodesAll, Distinct, DistinctAll;
    node.branches := node.branches + [leaf];
    node.index := node.index[c := |node.branches| - 1];
    assert RepAll(s.kids) && Rep(ks);
    KidsRep(s.kids, ks, []);
    RepBranch(s');
  }

  lemma AppendParts(s: Skel, c: Nibble, k: Skel)
    requires s.SBranch? && Distinct(s) && Distinct(k) && Nodes(k) !! Nodes(s) && |s.index| == 16
    ensures var r := SBranch(s.node, s.val, s.index[c := |s.kids|], s.kids + [k]);
            && s.kids + [] == s.kids && s.kids + [k] + [] == s.kids + [k]
            && Roots(s.kids + [k]) == Roots(s.kids) + [k.node]
            && Distinct(r) && Nodes(r) == Nodes(s) + Nodes(k)
            && Erase(r) == Branch(s.val, s.index[c := |s.kids|], EraseAll(s.kids) + [Erase(k)])
  {
    var r := SBranch(s.node, s.val, s.index[c := |s.kids|], s.kids + [k]);
    BranchParts(s);
    BranchParts(r);
    assert s.kids + [] == s.kids && s.kids + [k] + [] == s.kids + [k];
    hide Nodes, NodesAll, Distinct, DistinctAll, Erase;
    SplitKids(s.kids, k, []);
    KidsDistinct(s.kids, k, []);
  }
}
