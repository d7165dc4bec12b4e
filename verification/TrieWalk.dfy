// The walks of trie/trie.go and trie/trie_node.go over a trie's nodes.
module TrieWalk {
  import opened Wrappers
  import Nibbles
  import opened TrieSpec
  import opened TrieHeap
  import TrieOps

  // ----- one step down -----

  lemma CtxNodesExist(ctx: Ctx)
    ensures forall n | n in CtxNodes(ctx) :: allocated(n)
  {
    match ctx
    case Top =>
    case InExt(_, _, up) => CtxNodesExist(up);
    case InBranch(_, _, _, left, right, up) =>
      CtxNodesExist(up);
      AllNodesExist(left + right);
  }

  // cur is the part of the whole skeleton s that ctx leads to.
  ghost predicate At(s: Skel, ctx: Ctx, cur: Skel)
    reads Nodes(cur), CtxNodes(ctx)
  {
    && Plug(ctx, cur) == s
    && Rep(cur) && CtxRep(ctx, cur.node)
    && Distinct(cur) && CtxDistinct(ctx) && Nodes(cur) !! CtxNodes(ctx)
    && Canonical(Erase(cur))
  }

  lemma Start(s: Skel)
    requires Rep(s) && Distinct(s) && Canonical(Erase(s))
    ensures At(s, Top, s)
  {
  }

  lemma IntoExt(s: Skel, ctx: Ctx, cur: Skel)
    requires At(s, ctx, cur) && cur.SExt?
    ensures At(s, InExt(cur.node, cur.key, ctx), cur.next)
    ensures cur.node.next == cur.next.node
  {
  }

  ghost function Into(ctx: Ctx, cur: Skel, i: nat): Ctx
    requires cur.SBranch? && i < |cur.kids|
  {
    InBranch(cur.node, cur.val, cur.index, cur.kids[..i], cur.kids[i + 1..], ctx)
  }

  lemma IntoBranch(s: Skel, ctx: Ctx, cur: Skel, i: nat)
    requires At(s, ctx, cur) && cur.SBranch? && i < |cur.kids|
    ensures At(s, Into(ctx, cur, i), cur.kids[i])
    ensures |cur.node.branches| == |cur.kids| && cur.node.branches[i] == cur.kids[i].node
  {
    hide Nodes, NodesAll, Distinct, DistinctAll, Rep, RepAll;
    var left, kid, right := cur.kids[..i], cur.kids[i], cur.kids[i + 1..];
    assert cur.kids == left + [kid] + right;
    BranchParts(cur);
    RepBranch(cur);
    KidsDistinct(left, kid, right);
    KidsRep(left, kid, right);
    SplitKids(left, kid, right);
    assert Canonical(Erase(kid)) by {
      assert Erase(kid) in Erase(cur).kids;
    }
  }

  // A rewritten part sits where the old one was.
  lemma Settle(s: Skel, ctx: Ctx, cur: Skel, cur': Skel)
    requires Plug(ctx, cur) == s && CtxDistinct(ctx)
    requires Rep(cur') && Distinct(cur') && CtxRep(ctx, cur'.node) && Nodes(cur') !! CtxNodes(ctx)
    ensures var s' := Plug(ctx, cur');
            && Rep(s') && Distinct(s') && Nodes(s') == CtxNodes(ctx) + Nodes(cur')
            && Erase(s') == PlugTree(ctx, Erase(cur'))
  {
    PlugRep(ctx, cur');
    PlugDistinct(ctx, cur');
    PlugNodes(ctx, cur');
    PlugErases(ctx, cur');
  }

  lemma {:induction false} SameRoot(ctx: Ctx, s: Skel, s': Skel)
    requires s.node == s'.node
    ensures Plug(ctx, s).node == Plug(ctx, s').node
  {
    match ctx
    case Top =>
    case InExt(n, key, up) => SameRoot(up, SExt(n, key, s), SExt(n, key, s'));
    case InBranch(n, val, index, left, right, up) =>
      SameRoot(up, SBranch(n, val, index, left + [s] + right), SBranch(n, val, index, left + [s'] + right));
  }

  // ----- Put -----

  // What Put of the whole trie is, once Put of the part is known.
  ghost function Wrap(ctx: Ctx, r: Option<Tree>): Option<Tree> {
    if r.None? then None else Some(PlugTree(ctx, r.value))
  }

  lemma PutIntoExt(ctx: Ctx, cur: Skel, nibbles: Nibbles.Key, value: Value)
    requires cur.SExt? && Canonical(Erase(cur)) && Nibbles.Matched(cur.key, nibbles) == |cur.key|
    ensures Wrap(ctx, TrieSpec.Put(Erase(cur), nibbles, value)) ==
            Wrap(InExt(cur.node, cur.key, ctx), TrieSpec.Put(Erase(cur.next), nibbles[|cur.key|..], value))
  {
  }

  lemma PutIntoBranch(ctx: Ctx, cur: Skel, nibbles: Nibbles.Key, value: Value, i: nat)
    requires cur.SBranch? && Canonical(Erase(cur)) && nibbles != []
    requires i < |cur.kids| && cur.index[nibbles[0]] == i
    ensures Canonical(Erase(cur.kids[i]))
    ensures Wrap(ctx, TrieSpec.Put(Erase(cur), nibbles, value)) ==
            Wrap(Into(ctx, cur, i), TrieSpec.Put(Erase(cur.kids[i]), nibbles[1..], value))
  {
    var t, kid := Erase(cur), Erase(cur.kids[i]);
    BranchParts(cur);
    assert t.kids[i] == EraseAll(cur.kids)[i] == kid;
    assert kid in t.kids;
    var r := TrieSpec.Put(kid, nibbles[1..], value);
    if r.Some? {
      assert t.kids[i := r.value] == EraseAll(cur.kids[..i]) + [r.value] + EraseAll(cur.kids[i + 1..]);
    }
  }

  // The cases in which Put stops at a node and rewrites it, or runs off its key.
  ghost predicate Stops(cur: Skel, nibbles: Nibbles.Key) {
    match cur
    case SLeaf(_, _, _) => true
    case SExt(_, key, _) => Nibbles.Matched(key, nibbles) < |key|
    case SBranch(_, _, index, _) => nibbles == [] || (|index| == 16 && index[nibbles[0]] == -1)
  }

  method PutHere(node: Node, nibbles: Nibbles.Key, value: Value, ghost cur: Skel) returns (ok: bool, ghost cur': Skel)
    requires cur.node == node && Rep(cur) && Distinct(cur) && Canonical(Erase(cur)) && Stops(cur, nibbles)
    modifies node
    ensures ok <==> TrieSpec.Put(Erase(cur), nibbles, value).Some?
    ensures !ok ==> unchanged(node)
    ensures ok ==> cur'.node == node && Rep(cur') && Distinct(cur')
    ensures ok ==> Some(Erase(cur')) == TrieSpec.Put(Erase(cur), nibbles, value)
    ensures ok ==> forall n | n in Nodes(cur') :: n in Nodes(cur) || fresh(n)
  {
    cur' := cur;
    NodesExist(cur);
    if node.flag == LeafFlag {
      cur' := TrieOps.PutLeaf(node, nibbles, value, cur);
      return true, cur';
    }
    if node.flag == BranchFlag {
      cur' := PutAtBranch(node, nibbles, value, cur);
      return true, cur';
    }
    var matched := Nibbles.PrefixMatchedLen(node.keySlice, nibbles);
    if matched == |nibbles| {
      return false, cur;                // nibbles[matched] is out of range
    }
    cur' := TrieOps.PutExt(node, nibbles, value, matched, cur);
    return true, cur';
  }

  method PutAtBranch(node: Node, nibbles: Nibbles.Key, value: Value, ghost cur: Skel) returns (ghost cur': Skel)
    requires cur.SBranch? && cur.node == node && Rep(cur) && Distinct(cur) && Canonical(Erase(cur))
           && Stops(cur, nibbles)
    modifies node
    ensures cur'.node == node && Rep(cur') && Distinct(cur')
    ensures Some(Erase(cur')) == TrieSpec.Put(Erase(cur), nibbles, value)
    ensures forall n | n in Nodes(cur') :: n in Nodes(cur) || fresh(n)
  {
    BranchParts(cur);
    if |nibbles| == 0 {
      cur' := SetValue(node, value, cur);
    } else {
      cur' := TrieOps.AppendLeaf(node, nibbles[0], nibbles[1..], value, cur);
    }
  }

  method SetValue(node: Node, value: Value, ghost cur: Skel) returns (ghost cur': Skel)
    requires cur.SBranch? && cur.node == node && Rep(cur) && Distinct(cur)
    modifies node
    ensures cur'.node == node && Rep(cur') && Distinct(cur') && Nodes(cur') == Nodes(cur)
    ensures Erase(cur') == Branch(Some(value), cur.index, EraseAll(cur.kids))
  {
    BranchParts(cur);
    RepBranch(cur);
    cur' := SBranch(node, Some(value), cur.index, cur.kids);
    BranchParts(cur');
    hide Nodes, NodesAll, Distinct, DistinctAll;
    node.value := Some(value);
    RepBranch(cur');
  }
}
