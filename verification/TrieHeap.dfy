// The nodes of trie/trie_node.go as objects, and the tree of nodes a trie owns.
module TrieHeap {
  import opened Wrappers
  import Nibbles
  import opened SlotIndex
  import opened TrieSpec

  datatype Flag = LeafFlag | BranchFlag | ExtensionFlag

  class Node {
    var flag: Flag
    var next: Node?            // extension
    var keySlice: Nibbles.Key          // leaf, extension
    var value: Option<Value>   // leaf, branch; None is Go's nil
    var index: seq<int>        // branch: a [16]int, copied with its node
    var branches: seq<Node>    // branch

    constructor NewLeaf(nibbles: Nibbles.Key, v: Value)
      ensures flag == LeafFlag && keySlice == nibbles && value == Some(v)
    {
      flag, next, keySlice, value, index, branches := LeafFlag, null, nibbles, Some(v), seq(16, i => 0), [];
    }

    constructor NewExtension(nibbles: Nibbles.Key, n: Node)
      ensures flag == ExtensionFlag && keySlice == nibbles && next == n
    {
      flag, next, keySlice, value, index, branches := ExtensionFlag, n, nibbles, None, seq(16, i => 0), [];
    }

    constructor NewBranch()
      ensures flag == BranchFlag && keySlice == [] && value == None && index == NoIndex() && branches == []
    {
      var idx := seq(16, i => 0);
      for i := 0 to 16
        invariant |idx| == 16 && forall c | 0 <= c < i :: idx[c] == -1
      {
        idx := idx[i := -1];
      }
      flag, next, keySlice, value, index, branches := BranchFlag, null, [], None, idx, [];
    }

    // *node = *other
    method Assign(other: Node)
      modifies this
      ensures flag == other.flag && next == other.next && keySlice == other.keySlice
      ensures value == other.value && index == other.index && branches == other.branches
      ensures other != this ==> unchanged(other)
    {
      flag, next, keySlice, value, index, branches :=
        other.flag, other.next, other.keySlice, other.value, other.index, other.branches;
    }

    // The loop of SetBranch: slots of later nibbles move up by one.
    method ShiftAfter(c: Nibbles.Nibble) returns (count: nat)
      requires |index| == 16
      modifies `index
      ensures |index| == 16 && count == Present(old(index), c + 1, 16)
      ensures forall d | 0 <= d < 16 ::
        index[d] == if c < d && old(index)[d] != -1 then old(index)[d] + 1 else old(index)[d]
    {
      count := 0;
      for i := c + 1 to 16
        invariant |index| == 16
        invariant count == Present(old(index), c + 1, i)
        invariant forall d | 0 <= d < 16 ::
          index[d] == if c < d < i && old(index)[d] != -1 then old(index)[d] + 1 else old(index)[d]
      {
        if index[i] != -1 {
          index := index[i := index[i] + 1];
          count := count + 1;
        }
      }
    }

    // SetBranch, for a nibble that has no child yet.
    method SetBranch(c: Nibbles.Nibble, kid: Node)
      requires flag == BranchFlag && Sorted(index, |branches|) && index[c] == -1
      modifies `index, `branches
      ensures Present(old(index), c + 1, 16) <= |old(branches)|
      ensures var front := |old(branches)| - Present(old(index), c + 1, 16);
              index == InsertIndex(old(index), c, front) &&
              branches == old(branches)[..front] + [kid] + old(branches)[front..]
    {
      FrontIsRank(index, |branches|, c);
      var count := ShiftAfter(c);
      var front := |branches| - count;
      index := index[c := front];
      InsertIndexAt(old(index), c, front, index);
      branches := branches[..front] + [kid] + branches[front..];
    }

    // The first present nibble of a branch, by the scan of Delete.
    method FirstNibble() returns (c: Nibbles.Nibble)
      requires |index| == 16 && exists d | 0 <= d < 16 :: index[d] != -1
      ensures c == FirstPresent(index, 0)
    {
      c := 0;
      while index[c] == -1
        invariant exists d | c <= d < 16 :: index[d] != -1
        invariant FirstPresent(index, 0) == FirstPresent(index, c)
        decreases 16 - c
      {
        c := c + 1;
      }
    }
  }

  // ----- the nodes below a node -----

  // A tree of nodes together with what their fields hold.
  datatype Skel =
    | SLeaf(node: Node, key: Nibbles.Key, value: Value)
    | SExt(node: Node, key: Nibbles.Key, next: Skel)
    | SBranch(node: Node, val: Option<Value>, index: seq<int>, kids: seq<Skel>)

  ghost function Nodes(s: Skel): set<Node> {
    match s
    case SLeaf(n, _, _) => {n}
    case SExt(n, _, next) => {n} + Nodes(next)
    case SBranch(n, _, _, kids) => {n} + set kid, m | kid in kids && m in Nodes(kid) :: m
  }

  // No node occurs twice.
  ghost predicate Distinct(s: Skel) {
    match s
    case SLeaf(_, _, _) => true
    case SExt(n, _, next) => n !in Nodes(next) && Distinct(next)
    case SBranch(n, _, _, kids) =>
      && (forall kid | kid in kids :: n !in Nodes(kid) && Distinct(kid))
      && (forall i, j | 0 <= i < j < |kids| :: Nodes(kids[i]) !! Nodes(kids[j]))
  }

  // The fields in the heap are those of the skeleton.
  ghost predicate Rep(s: Skel)
    reads Nodes(s)
  {
    match s
    case SLeaf(n, key, value) => n.flag == LeafFlag && n.keySlice == key && n.value == Some(value)
    case SExt(n, key, next) => n.flag == ExtensionFlag && n.keySlice == key && n.next == next.node && Rep(next)
    case SBranch(n, val, index, kids) =>
      && n.flag == BranchFlag && n.keySlice == [] && n.value == val && n.index == index
      && n.branches == Roots(kids)
      && forall kid | kid in kids :: Rep(kid)
  }

  // The tree value a skeleton stands for.
  ghost function Erase(s: Skel): Tree {
    match s
    case SLeaf(_, key, value) => Leaf(key, value)
    case SExt(_, key, next) => Ext(key, Erase(next))
    case SBranch(_, val, index, kids) =>
      Branch(val, index, seq(|kids|, i requires 0 <= i < |kids| => Erase(kids[i])))
  }

  // ----- lists of children -----

  ghost function Roots(kids: seq<Skel>): (r: seq<Node>)
    ensures |r| == |kids| && forall i | 0 <= i < |kids| :: r[i] == kids[i].node
  {
    seq(|kids|, i requires 0 <= i < |kids| => kids[i].node)
  }

  ghost function EraseAll(kids: seq<Skel>): (r: seq<Tree>)
    ensures |r| == |kids| && forall i | 0 <= i < |kids| :: r[i] == Erase(kids[i])
  {
    seq(|kids|, i requires 0 <= i < |kids| => Erase(kids[i]))
  }

  ghost function NodesAll(kids: seq<Skel>): set<Node> {
    set kid, m | kid in kids && m in Nodes(kid) :: m
  }

  ghost predicate DistinctAll(kids: seq<Skel>) {
    && (forall kid | kid in kids :: Distinct(kid))
    && (forall i, j | 0 <= i < j < |kids| :: Nodes(kids[i]) !! Nodes(kids[j]))
  }

  ghost predicate RepAll(kids: seq<Skel>)
    reads NodesAll(kids)
  {
    forall kid | kid in kids :: Rep(kid)
  }

  lemma OwnRoot(s: Skel)
    ensures s.node in Nodes(s)
  {
  }

  // The nodes of a skeleton at hand exist, so allocating new ones leaves them alone.
  lemma NodesExist(s: Skel)
    ensures forall n | n in Nodes(s) :: allocated(n)
  {
  }

  lemma AllNodesExist(kids: seq<Skel>)
    ensures forall n | n in NodesAll(kids) :: allocated(n)
  {
    forall kid | kid in kids {
      NodesExist(kid);
    }
  }

  // A branch skeleton in terms of its list of children.
  lemma BranchParts(s: Skel)
    requires s.SBranch?
    ensures Nodes(s) == {s.node} + NodesAll(s.kids)
    ensures Erase(s) == Branch(s.val, s.index, EraseAll(s.kids))
    ensures Distinct(s) <==> s.node !in NodesAll(s.kids) && DistinctAll(s.kids)
  {
    assert Nodes(s) == {s.node} + NodesAll(s.kids);
  }

  lemma RepNext(s: Skel)
    requires s.SExt? && Rep(s)
    ensures s.node.next == s.next.node && Rep(s.next)
  {
  }

  lemma RepBranch(s: Skel)
    requires s.SBranch?
    ensures Rep(s) <==>
            && s.node.flag == BranchFlag && s.node.keySlice == [] && s.node.value == s.val
            && s.node.index == s.index && s.node.branches == Roots(s.kids) && RepAll(s.kids)
  {
  }

  lemma SplitNodes(left: seq<Skel>, k: Skel, right: seq<Skel>)
    ensures NodesAll(left + [k] + right) == NodesAll(left + right) + Nodes(k)
  {
    var all := left + [k] + right;
    assert forall kid :: kid in all <==> kid == k || kid in left + right;
  }

  lemma SplitKids(left: seq<Skel>, k: Skel, right: seq<Skel>)
    ensures NodesAll(left + [k] + right) == NodesAll(left + right) + Nodes(k)
    ensures Roots(left + [k] + right) == Roots(left) + [k.node] + Roots(right)
    ensures EraseAll(left + [k] + right) == EraseAll(left) + [Erase(k)] + EraseAll(right)
  {
    hide NodesAll, Nodes, Erase;
    SplitNodes(left, k, right);
  }

  lemma InsertDistinct(left: seq<Skel>, k: Skel, right: seq<Skel>)
    requires DistinctAll(left + right) && Distinct(k) && Nodes(k) !! NodesAll(left + right)
    ensures DistinctAll(left + [k] + right)
  {
    var rest := left + right;
    var all := left + [k] + right;
    forall i, j | 0 <= i < j < |all| ensures Nodes(all[i]) !! Nodes(all[j]) {
      if i != |left| {
        assert all[i] == rest[if i < |left| then i else i - 1];
      }
      if j != |left| {
        assert all[j] == rest[if j < |left| then j else j - 1];
      }
    }
  }

  lemma DropDistinct(left: seq<Skel>, k: Skel, right: seq<Skel>)
    requires DistinctAll(left + [k] + right)
    ensures DistinctAll(left + right) && Distinct(k) && Nodes(k) !! NodesAll(left + right)
  {
    var rest := left + right;
    var all := left + [k] + right;
    assert all[|left|] == k;
    forall i | 0 <= i < |rest| ensures rest[i] == all[if i < |left| then i else i + 1] {
    }
    forall kid | kid in rest ensures Distinct(kid) && Nodes(kid) !! Nodes(k) {
      var i :| 0 <= i < |rest| && rest[i] == kid;
      assert kid == all[if i < |left| then i else i + 1];
    }
  }

  lemma KidsRep(left: seq<Skel>, k: Skel, right: seq<Skel>)
    ensures RepAll(left + [k] + right) <==> RepAll(left + right) && Rep(k)
  {
    var all := left + [k] + right;
    assert forall kid :: kid in all <==> kid == k || kid in left + right;
  }

  // ----- the way from the root to a node -----

  datatype Ctx =
    | Top
    | InExt(node: Node, key: Nibbles.Key, up: Ctx)
    | InBranch(node: Node, val: Option<Value>, index: seq<int>, left: seq<Skel>, right: seq<Skel>, up: Ctx)

  ghost function Plug(ctx: Ctx, s: Skel): Skel {
    match ctx
    case Top => s
    case InExt(n, key, up) => Plug(up, SExt(n, key, s))
    case InBranch(n, val, index, left, right, up) => Plug(up, SBranch(n, val, index, left + [s] + right))
  }

  ghost function PlugTree(ctx: Ctx, t: Tree): Tree {
    match ctx
    case Top => t
    case InExt(_, key, up) => PlugTree(up, Ext(key, t))
    case InBranch(_, val, index, left, right, up) =>
      PlugTree(up, Branch(val, index, EraseAll(left) + [t] + EraseAll(right)))
  }

  ghost function CtxNodes(ctx: Ctx): set<Node> {
    match ctx
    case Top => {}
    case InExt(n, _, up) => {n} + CtxNodes(up)
    case InBranch(n, _, _, left, right, up) => {n} + NodesAll(left + right) + CtxNodes(up)
  }

  // The fields of the nodes above and beside `below` are those of the context.
  ghost predicate CtxRep(ctx: Ctx, below: Node)
    reads CtxNodes(ctx)
  {
    match ctx
    case Top => true
    case InExt(n, key, up) =>
      n.flag == ExtensionFlag && n.keySlice == key && n.next == below && CtxRep(up, n)
    case InBranch(n, val, index, left, right, up) =>
      && n.flag == BranchFlag && n.keySlice == [] && n.value == val && n.index == index
      && n.branches == Roots(left) + [below] + Roots(right)
      && RepAll(left + right) && CtxRep(up, n)
  }

  lemma {:induction false} PlugErases(ctx: Ctx, s: Skel)
    ensures Erase(Plug(ctx, s)) == PlugTree(ctx, Erase(s))
  {
    match ctx
    case Top =>
    case InExt(n, key, up) => PlugErases(up, SExt(n, key, s));
    case InBranch(n, val, index, left, right, up) =>
      var b := SBranch(n, val, index, left + [s] + right);
      PlugErases(up, b);
      BranchParts(b);
      SplitKids(left, s, right);
  }

  lemma {:induction false} PlugNodes(ctx: Ctx, s: Skel)
    ensures Nodes(Plug(ctx, s)) == CtxNodes(ctx) + Nodes(s)
  {
    match ctx
    case Top =>
    case InExt(n, key, up) => PlugNodes(up, SExt(n, key, s));
    case InBranch(n, val, index, left, right, up) =>
      var b := SBranch(n, val, index, left + [s] + right);
      PlugNodes(up, b);
      BranchParts(b);
      SplitKids(left, s, right);
  }

  lemma {:induction false} PlugRep(ctx: Ctx, s: Skel)
    ensures Rep(Plug(ctx, s)) <==> CtxRep(ctx, s.node) && Rep(s)
  {
    match ctx
    case Top =>
    case InExt(n, key, up) => PlugRep(up, SExt(n, key, s));
    case InBranch(n, val, index, left, right, up) =>
      var b := SBranch(n, val, index, left + [s] + right);
      PlugRep(up, b);
      SplitKids(left, s, right);
      KidsRep(left, s, right);
  }

  ghost predicate CtxDistinct(ctx: Ctx) {
    match ctx
    case Top => true
    case InExt(n, _, up) => n !in CtxNodes(up) && CtxDistinct(up)
    case InBranch(n, _, _, left, right, up) =>
      && n !in NodesAll(left + right) && DistinctAll(left + right)
      && {n} + NodesAll(left + right) !! CtxNodes(up)
      && CtxDistinct(up)
  }

  // A skeleton fits into a context when the two share no node.
  lemma {:induction false} PlugDistinct(ctx: Ctx, s: Skel)
    ensures Distinct(Plug(ctx, s)) <==> CtxDistinct(ctx) && Distinct(s) && Nodes(s) !! CtxNodes(ctx)
  {
    match ctx
    case Top =>
    case InExt(n, key, up) =>
      PlugDistinct(up, SExt(n, key, s));
    case InBranch(n, val, index, left, right, up) =>
      var b := SBranch(n, val, index, left + [s] + right);
      PlugDistinct(up, b);
      BranchParts(b);
      SplitKids(left, s, right);
      KidsDistinct(left, s, right);
  }

  lemma KidsDistinct(left: seq<Skel>, k: Skel, right: seq<Skel>)
    ensures DistinctAll(left + [k] + right) <==>
            DistinctAll(left + right) && Distinct(k) && Nodes(k) !! NodesAll(left + right)
  {
    if DistinctAll(left + [k] + right) {
      DropDistinct(left, k, right);
    }
    if DistinctAll(left + right) && Distinct(k) && Nodes(k) !! NodesAll(left + right) {
      InsertDistinct(left, k, right);
    }
  }
}
