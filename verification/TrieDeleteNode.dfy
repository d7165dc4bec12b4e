// Node.Delete of trie/trie_node.go on nodes in place.
module TrieDeleteNode {
  import opened Wrappers
  import opened Nibbles
  import opened SlotIndex
  import opened TrieSpec
  import opened TrieHeap
  import opened TrieWalk

  // ----- collapsing -----

  // The node takes over what its single child holds, behind one more nibble.
  method CollapseInto(node: Node, c: Nibble, kid: Node, ghost ks: Skel) returns (ghost s: Skel)
    requires ks.node == kid && Rep(ks) && Distinct(ks) && node !in Nodes(ks) && Canonical(Erase(ks))
    requires node.value == None
    modifies node
    ensures s.node == node && Rep(s) && Distinct(s) && Nodes(s) <= Nodes(ks) + {node}
    ensures Erase(s) == Collapse(c, Erase(ks))
  {
    OwnRoot(ks);
    if kid.flag == LeafFlag {
      node.flag := LeafFlag;
      node.index := seq(16, i => 0);
      node.keySlice := [c] + kid.keySlice;
      node.value := kid.value;
      node.branches := [];
      s := SLeaf(node, [c] + ks.key, ks.value);
    } else if kid.flag == ExtensionFlag {
      node.flag := ExtensionFlag;
      node.next := kid.next;
      node.index := seq(16, i => 0);
      node.keySlice := [c] + kid.keySlice;
      node.branches := [];
      s := SExt(node, [c] + ks.key, ks.next);
    } else {
      node.flag := ExtensionFlag;
      node.next := kid;
      node.index := seq(16, i => 0);
      node.keySlice := [c];
      node.branches := [];
      s := SExt(node, [c], ks);
    }
  }

  // A branch that may have one child and no value left.
  method ShrinkNode(node: Node, ghost s: Skel) returns (ghost s': Skel)
    requires s.SBranch? && s.node == node && Rep(s) && Distinct(s)
    requires IndexOk(s.index, |s.kids|) && s.kids != [] && forall kid | kid in s.kids :: Canonical(Erase(kid))
    modifies node
    ensures s'.node == node && Rep(s') && Distinct(s') && Nodes(s') <= Nodes(s)
    ensures (forall t | t in EraseAll(s.kids) :: Canonical(t)) && Erase(s') == Shrink(s.val, s.index, EraseAll(s.kids))
  {
    if |node.branches| != 1 || node.value.Some? {
      return s;
    }
    assert 0 in node.index;
    NodesExist(s.kids[0]);
    var c := node.FirstNibble();
    s' := CollapseInto(node, c, node.branches[0], s.kids[0]);
  }

  // The extension merges with what its branch became.
  method MergeInto(node: Node, next: Node, ghost key: Key, ghost ns: Skel) returns (ghost s: Skel)
    requires ns.node == next && Rep(ns) && Distinct(ns) && node !in Nodes(ns)
    requires node.flag == ExtensionFlag && node.keySlice == key
    modifies node
    ensures s.node == node && Rep(s) && Distinct(s) && Nodes(s) <= Nodes(ns) + {node}
    ensures Erase(s) == Prepend(key, Erase(ns))
  {
    OwnRoot(ns);
    if next.flag == LeafFlag {
      node.flag := LeafFlag;
      node.next := null;
      node.keySlice := node.keySlice + next.keySlice;
      node.value := next.value;
      s := SLeaf(node, key + ns.key, ns.value);
    } else if next.flag == ExtensionFlag {
      node.next := next.next;
      node.keySlice := node.keySlice + next.keySlice;
      s := SExt(node, key + ns.key, ns.next);
    } else {
      node.next := next;
      s := SExt(node, key, ns);
    }
  }

  // ----- cutting a leaf child out -----

  // The loop over the index: slots after the cut one move down.
  method ShiftDown(node: Node, c: Nibble)
    requires |node.index| == 16 && node.index[c] >= 0
    modifies node`index
    ensures node.index == RemoveIndex(old(node.index), c)
  {
    var cut := node.index[c];
    for k := 0 to 16
      invariant |node.index| == 16
      invariant node.index[c] == cut
      invariant forall d | 0 <= d < 16 :: (
        node.index[d] == if d < k && old(node.index)[d] > cut then old(node.index)[d] - 1 else old(node.index)[d])
    {
      if node.index[k] > node.index[c] {
        node.index := node.index[k := node.index[k] - 1];
      }
    }
    node.index := node.index[c := -1];
  }

  method CutKid(node: Node, c: Nibble, ghost s: Skel) returns (ghost s': Skel)
    requires s.SBranch? && s.node == node && Rep(s) && Distinct(s)
    requires IndexOk(s.index, |s.kids|) && s.index[c] != -1
    modifies node
    ensures s' == SBranch(node, s.val, RemoveIndex(s.index, c), s.kids[..s.index[c]] + s.kids[s.index[c] + 1..])
    ensures Rep(s') && Distinct(s') && Nodes(s') <= Nodes(s)
  {
    ghost var left, right := CutParts(s, c);
    s' := SBranch(node, s.val, RemoveIndex(s.index, c), left + right);
    AllNodesExist(left + right);
    hide Nodes, NodesAll, Distinct, DistinctAll, IndexOk;
    RepBranch(s);
    var slot := node.index[c];
    node.branches := node.branches[..slot] + node.branches[slot + 1..];
    ShiftDown(node, c);
    RepBranch(s');
  }

  lemma RootsCut(kids: seq<Skel>, i: nat)
    requires i < |kids|
    ensures Roots(kids[..i] + kids[i + 1..]) == Roots(kids)[..i] + Roots(kids)[i + 1..]
  {
  }

  // The children that stay when one slot is cut out.
  lemma CutParts(s: Skel, c: Nibble) returns (left: seq<Skel>, right: seq<Skel>)
    requires s.SBranch? && Rep(s) && Distinct(s) && IndexOk(s.index, |s.kids|) && s.index[c] != -1
    ensures left == s.kids[..s.index[c]] && right == s.kids[s.index[c] + 1..]
    ensures var r := SBranch(s.node, s.val, RemoveIndex(s.index, c), left + right);
            Distinct(r) && Nodes(r) <= Nodes(s)
    ensures RepAll(left + right) && s.node !in NodesAll(left + right)
    ensures Roots(left + right) == Roots(s.kids)[..s.index[c]] + Roots(s.kids)[s.index[c] + 1..]
  {
    var i := s.index[c];
    hide Nodes, NodesAll, Distinct, DistinctAll, Rep, RepAll, Roots, Erase, EraseAll, IndexOk, RemoveIndex;
    var kid := s.kids[i];
    left, right := s.kids[..i], s.kids[i + 1..];
    assert s.kids == left + [kid] + right;
    BranchParts(s);
    BranchParts(SBranch(s.node, s.val, RemoveIndex(s.index, c), left + right));
    RepBranch(s);
    RootsCut(s.kids, i);
    KidsDistinct(left, kid, right);
    KidsRep(left, kid, right);
    SplitKids(left, kid, right);
  }

  // ----- Delete -----

  // Node.Delete for a key that is there: null when nothing is left, else the node itself.
  method DeleteNode(node: Node, key: Key, ghost s: Skel) returns (r: Node?, ghost s': Skel)
    requires s.node == node && Rep(s) && Distinct(s) && Canonical(Erase(s)) && Find(Erase(s), key).Some?
    modifies Nodes(s)
    ensures r == null <==> TrieSpec.Delete(Erase(s), key).None?
    ensures r != null ==> r == node == s'.node && Rep(s') && Distinct(s') && Nodes(s') <= Nodes(s)
    ensures r != null ==> TrieSpec.Delete(Erase(s), key) == Some(Erase(s'))
    decreases s, 2
  {
    s' := s;
    OwnRoot(s);
    if node.flag == LeafFlag {
      return null, s;
    }
    if node.flag == ExtensionFlag {
      s' := DeleteBelowExt(node, key, s);
      return node, s';
    }
    if |key| == 0 {
      s' := DeleteValue(node, s);
      return node, s';
    }
    s' := DeleteBelowBranch(node, key, s);
    return node, s';
  }

  method DeleteBelowExt(node: Node, key: Key, ghost s: Skel) returns (ghost s': Skel)
    requires s.SExt? && s.node == node
    requires Rep(s) && Distinct(s) && Canonical(Erase(s)) && Find(Erase(s), key).Some?
    modifies Nodes(s)
    ensures s'.node == node && Rep(s') && Distinct(s') && Nodes(s') <= Nodes(s)
    ensures TrieSpec.Delete(Erase(s), key) == Some(Erase(s'))
    decreases s, 0
  {
    var length := |node.keySlice|;
    var next, ns := DeleteNode(node.next, key[length..], s.next);
    s' := MergeInto(node, next, s.key, ns);
  }

  method DeleteValue(node: Node, ghost s: Skel) returns (ghost s': Skel)
    requires s.SBranch? && s.node == node
    requires Rep(s) && Distinct(s) && Canonical(Erase(s)) && Find(Erase(s), []).Some?
    modifies Nodes(s)
    ensures s'.node == node && Rep(s') && Distinct(s') && Nodes(s') <= Nodes(s)
    ensures TrieSpec.Delete(Erase(s), []) == Some(Erase(s'))
  {
    BranchParts(s);
    RepBranch(s);
    ghost var n := SBranch(node, None, s.index, s.kids);
    BranchParts(n);
    KidsOfCanonical(s);
    hide Nodes, NodesAll, Distinct, DistinctAll;
    node.value := None;
    RepBranch(n);
    s' := ShrinkNode(node, n);
  }

  lemma KidsOfCanonical(s: Skel)
    requires s.SBranch? && Canonical(Erase(s))
    ensures forall kid | kid in s.kids :: Canonical(Erase(kid))
  {
    BranchParts(s);
    forall kid | kid in s.kids ensures Canonical(Erase(kid)) {
      var i :| 0 <= i < |s.kids| && s.kids[i] == kid;
      assert EraseAll(s.kids)[i] == Erase(kid);
    }
  }

  method DeleteBelowBranch(node: Node, key: Key, ghost s: Skel) returns (ghost s': Skel)
    requires s.SBranch? && s.node == node && key != []
    requires Rep(s) && Distinct(s) && Canonical(Erase(s)) && Find(Erase(s), key).Some?
    modifies Nodes(s)
    ensures s'.node == node && Rep(s') && Distinct(s') && Nodes(s') <= Nodes(s)
    ensures TrieSpec.Delete(Erase(s), key) == Some(Erase(s'))
    decreases s, 1
  {
    BranchParts(s);
    if |node.branches| == 1 {
      node.flag := LeafFlag;
      node.branches := [];
      node.index := seq(16, i => 0);
      s' := SLeaf(node, [], s.val.value);
      return;
    }
    var nibble := key[0];
    var slot := node.index[nibble];
    var branch := node.branches[slot];
    OwnRoot(s.kids[slot]);
    assert Rep(s.kids[slot]);
    if branch.flag == LeafFlag {
      s' := DeleteLeafKid(node, key, s);
    } else {
      s' := DeleteKid(node, branch, key, s);
    }
  }

  lemma EraseCut(kids: seq<Skel>, i: nat)
    requires i < |kids|
    ensures EraseAll(kids[..i] + kids[i + 1..]) == EraseAll(kids)[..i] + EraseAll(kids)[i + 1..]
  {
    hide Erase;
  }

  method DeleteLeafKid(node: Node, key: Key, ghost s: Skel) returns (ghost s': Skel)
    requires s.SBranch? && s.node == node && key != [] && |s.kids| != 1
    requires Rep(s) && Distinct(s) && Canonical(Erase(s)) && Find(Erase(s), key).Some?
    requires s.kids[s.index[key[0]]].SLeaf?
    modifies Nodes(s)
    ensures s'.node == node && Rep(s') && Distinct(s') && Nodes(s') <= Nodes(s)
    ensures TrieSpec.Delete(Erase(s), key) == Some(Erase(s'))
  {
    KidsOfCanonical(s);
    BranchParts(s);
    ghost var i := s.index[key[0]];
    RemoveMoves(s.index, s.kids, key[0]);
    EraseCut(s.kids, i);
    hide Nodes, NodesAll, Distinct, DistinctAll, Rep, EraseAll;
    ghost var n := CutKid(node, key[0], s);
    s' := ShrinkNode(node, n);
  }

  method DeleteKid(node: Node, branch: Node, key: Key, ghost s: Skel) returns (ghost s': Skel)
    requires s.SBranch? && s.node == node && key != [] && |s.kids| != 1
    requires Rep(s) && Distinct(s) && Canonical(Erase(s)) && Find(Erase(s), key).Some?
    requires !s.kids[s.index[key[0]]].SLeaf? && branch == s.kids[s.index[key[0]]].node
    modifies Nodes(s)
    ensures s'.node == node && Rep(s') && Distinct(s') && Nodes(s') <= Nodes(s)
    ensures TrieSpec.Delete(Erase(s), key) == Some(Erase(s'))
    decreases s, 0
  {
    var slot := node.index[key[0]];
    KidFound(s, key);
    Enter(s, slot);
    ghost var kid, ctx := s.kids[slot], Into(Top, s, slot);
    hide Nodes, NodesAll, Distinct, DistinctAll, Rep, CtxNodes, Canonical, Erase, CtxDistinct, Plug, Find, Into;
    var r, k' := DeleteNode(branch, key[1..], kid);
    assert CtxRep(ctx, branch);
    s' := PutBack(node, slot, r, s, k');
    ReplacedKid(s, key, k');
  }

  // Branches[slot] is assigned the node that Delete returned for the child.
  method PutBack(node: Node, slot: nat, r: Node, ghost s: Skel, ghost k': Skel) returns (ghost s': Skel)
    requires s.SBranch? && slot < |s.kids| && s.node == node && k'.node == r == s.kids[slot].node
    requires Rep(k') && Distinct(k') && CtxRep(Into(Top, s, slot), r) && CtxDistinct(Into(Top, s, slot))
    requires Nodes(k') !! CtxNodes(Into(Top, s, slot))
    modifies node
    ensures s'.node == node && Rep(s') && Distinct(s') && Nodes(s') == CtxNodes(Into(Top, s, slot)) + Nodes(k')
    ensures Erase(s') == PlugTree(Into(Top, s, slot), Erase(k'))
  {
    ghost var ctx := Into(Top, s, slot);
    NodesExist(k');
    CtxNodesExist(ctx);
    assert node.branches[slot] == r;
    assert node.branches[slot := r] == node.branches;
    node.branches := node.branches[slot := r];
    assert CtxRep(ctx, r);
    Settle(Plug(ctx, k'), ctx, k', k');
    s' := Plug(ctx, k');
  }

  // The rest of a branch around one child.
  lemma Enter(s: Skel, i: nat)
    requires s.SBranch? && i < |s.kids| && Rep(s) && Distinct(s) && Canonical(Erase(s))
    ensures var ctx, kid := Into(Top, s, i), s.kids[i];
            && Plug(ctx, kid) == s && Rep(kid) && Distinct(kid)
            && CtxRep(ctx, kid.node) && CtxDistinct(ctx) && Nodes(kid) !! CtxNodes(ctx)
            && Nodes(s) == CtxNodes(ctx) + Nodes(kid) && s.node in CtxNodes(ctx)
            && (forall n | n in CtxNodes(ctx) :: allocated(n))
            && s.node.branches == Roots(ctx.left) + [kid.node] + Roots(ctx.right)
  {
    Start(s);
    IntoBranch(s, Top, s, i);
    CtxNodesExist(Into(Top, s, i));
    PlugNodes(Into(Top, s, i), s.kids[i]);
  }

  lemma KidFound(s: Skel, key: Key)
    requires s.SBranch? && key != [] && Canonical(Erase(s)) && Find(Erase(s), key).Some?
    ensures 0 <= s.index[key[0]] < |s.kids|
    ensures var kid := Erase(s.kids[s.index[key[0]]]);
            Canonical(kid) && Find(kid, key[1..]).Some? &&
            (!s.kids[s.index[key[0]]].SLeaf? ==> TrieSpec.Delete(kid, key[1..]).Some?)
  {
    BranchParts(s);
  }

  lemma ReplacedKid(s: Skel, key: Key, k: Skel)
    requires s.SBranch? && key != [] && |s.kids| != 1 && Canonical(Erase(s)) && Find(Erase(s), key).Some?
    requires 0 <= s.index[key[0]] < |s.kids| && !s.kids[s.index[key[0]]].SLeaf?
    requires Canonical(Erase(s.kids[s.index[key[0]]])) && Find(Erase(s.kids[s.index[key[0]]]), key[1..]).Some?
    requires TrieSpec.Delete(Erase(s.kids[s.index[key[0]]]), key[1..]) == Some(Erase(k))
    ensures TrieSpec.Delete(Erase(s), key) == Some(PlugTree(Into(Top, s, s.index[key[0]]), Erase(k)))
  {
    BranchParts(s);
    hide Nodes, NodesAll, Distinct, DistinctAll, IndexOk, Canonical, Find;
    var i := s.index[key[0]];
    EraseReplaced(s.kids, i, Erase(k));
    hide EraseAll;
  }

  lemma EraseReplaced(kids: seq<Skel>, i: nat, t: Tree)
    requires i < |kids|
    ensures EraseAll(kids)[i] == Erase(kids[i])
    ensures EraseAll(kids)[i := t] == EraseAll(kids[..i]) + [t] + EraseAll(kids[i + 1..])
  {
    hide Erase;
  }
}
