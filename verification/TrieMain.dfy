// The trie of trie/trie.go: a root node and the map it stands for.
module TrieMain {
  import opened Wrappers
  import opened Nibbles
  import opened TrieSpec
  import TrieDelete
  import TrieContents
  import TrieFunnel
  import TrieMap
  import opened TrieHeap
  import opened TrieWalk
  import TrieDeleteNode

  // Get from a node downwards.
  method GetBelow(top: Node, key: Key, ghost s: Skel) returns (found: Option<Value>)
    requires s.node == top && Rep(s) && Canonical(Erase(s))
    ensures found == Find(Erase(s), key)
  {
    var node, nibbles := top, key;
    ghost var cur := s;
    while true
      invariant cur.node == node && Rep(cur) && Canonical(Erase(cur))
      invariant Find(Erase(s), key) == Find(Erase(cur), nibbles)
      decreases cur
    {
      NodesExist(cur);
      if node.flag == LeafFlag {
        var matched := PrefixMatchedLen(node.keySlice, nibbles);
        if matched != |node.keySlice| || matched != |nibbles| {
          return None;
        }
        assert node.keySlice == nibbles;
        return node.value;
      }
      if node.flag == BranchFlag {
        if |nibbles| == 0 {
          return node.value;
        }
        var b := nibbles[0];
        var slot := node.index[b];
        if slot == -1 {
          return None;
        }
        TrieDeleteNode.KidsOfCanonical(cur);
        BranchParts(cur);
        RepBranch(cur);
        ghost var kid := cur.kids[slot];
        assert kid in cur.kids && Rep(kid);
        hide Rep, Erase;
        nibbles := nibbles[1..];
        node := node.branches[slot];
        cur := cur.kids[slot];
        continue;
      }
      var matched := PrefixMatchedLen(node.keySlice, nibbles);
      if matched < |node.keySlice| {
        return None;
      }
      ghost var rest := cur.next;
      RepNext(cur);
      assert Rep(rest) && Erase(cur) == Ext(cur.key, Erase(rest)) && Canonical(Erase(rest));
      hide Rep, Erase;
      nibbles := nibbles[matched..];
      node := node.next;
      cur := cur.next;
    }
  }

  // One step down from a node at which the key goes on.
  method Descend(node: Node, nibbles: Key, ghost value: Value, ghost s: Skel, ghost ctx: Ctx, ghost cur: Skel)
    returns (node': Node, nibbles': Key, ghost ctx': Ctx, ghost cur': Skel)
    requires cur.node == node && At(s, ctx, cur) && !Stops(cur, nibbles)
    ensures cur'.node == node' && At(s, ctx', cur') && cur' < cur
    ensures Canonical(Erase(cur)) && Canonical(Erase(cur'))
    ensures Wrap(ctx, TrieSpec.Put(Erase(cur), nibbles, value)) == Wrap(ctx', TrieSpec.Put(Erase(cur'), nibbles', value))
  {
    BranchOk(cur);
    if node.flag == BranchFlag {
      var b := nibbles[0];
      var slot := node.index[b];
      IntoBranch(s, ctx, cur, slot);
      PutIntoBranch(ctx, cur, nibbles, value, slot);
      node' := node.branches[slot];
      nibbles' := nibbles[1..];
      ctx', cur' := Into(ctx, cur, slot), cur.kids[slot];
    } else {
      IntoExt(s, ctx, cur);
      PutIntoExt(ctx, cur, nibbles, value);
      node' := node.next;
      nibbles' := nibbles[|node.keySlice|..];
      ctx', cur' := InExt(cur.node, cur.key, ctx), cur.next;
    }
  }

  lemma BranchOk(cur: Skel)
    requires Canonical(Erase(cur))
    ensures cur.SBranch? ==> |cur.index| == 16 && forall c: Nibble :: -1 <= cur.index[c] < |cur.kids|
  {
  }

  // The walk ends: the node is rewritten, or the key has run off its end.
  method PutStop(node: Node, nibbles: Key, value: Value, ghost s: Skel, ghost ctx: Ctx, ghost cur: Skel)
    returns (ok: bool, ghost s': Skel)
    requires cur.node == node && At(s, ctx, cur) && Stops(cur, nibbles)
    modifies node
    ensures Canonical(Erase(cur)) && (ok <==> TrieSpec.Put(Erase(cur), nibbles, value).Some?)
    ensures !ok ==> s' == s
    ensures ok ==> Some(Erase(s')) == Wrap(ctx, TrieSpec.Put(Erase(cur), nibbles, value))
    ensures s'.node == s.node && Rep(s') && Distinct(s')
    ensures forall n | n in Nodes(s') :: n in Nodes(s) || fresh(n)
  {
    CtxNodesExist(ctx);
    NodesExist(s);
    OwnRoot(cur);
    PlugNodes(ctx, cur);
    PlugRep(ctx, cur);
    PlugDistinct(ctx, cur);
    ghost var cur';
    hide Nodes, Rep, Distinct, CtxNodes, Erase, Stops;
    ok, cur' := PutHere(node, nibbles, value, cur);
    s' := s;
    if ok {
      assert CtxRep(ctx, node);
      Settle(s, ctx, cur, cur');
      SameRoot(ctx, cur, cur');
      s' := Plug(ctx, cur');
    }
  }

  // Put from a node downwards.
  method PutBelow(top: Node, key: Key, value: Value, ghost s: Skel) returns (ok: bool, ghost s': Skel)
    requires s.node == top && Rep(s) && Distinct(s) && Canonical(Erase(s))
    modifies Nodes(s)
    ensures ok <==> TrieSpec.Put(Erase(s), key, value).Some?
    ensures !ok ==> s' == s
    ensures ok ==> TrieSpec.Put(Erase(s), key, value) == Some(Erase(s'))
    ensures s'.node == top && Rep(s') && Distinct(s')
    ensures forall n | n in Nodes(s') :: n in Nodes(s) || fresh(n)
  {
    var node, nibbles := top, key;
    ghost var ctx, cur := Top, s;
    Start(s);
    while true
      invariant cur.node == node && At(s, ctx, cur) && Canonical(Erase(cur)) && node in Nodes(s)
      invariant TrieSpec.Put(Erase(s), key, value) == Wrap(ctx, TrieSpec.Put(Erase(cur), nibbles, value))
      decreases cur
    {
      NodesExist(cur);
      CtxNodesExist(ctx);
      var down := GoesDown(node, nibbles, cur);
      if !down {
        ok, s' := PutStop(node, nibbles, value, s, ctx, cur);
        return;
      }
      node, nibbles, ctx, cur := Descend(node, nibbles, value, s, ctx, cur);
      PlugNodes(ctx, cur);
      OwnRoot(cur);
    }
  }

  // Whether the key goes on below a node.
  method GoesDown(node: Node, nibbles: Key, ghost cur: Skel) returns (down: bool)
    requires cur.node == node && Rep(cur) && Canonical(Erase(cur))
    ensures down <==> !Stops(cur, nibbles)
  {
    BranchOk(cur);
    NodesExist(cur);
    down := false;
    if node.flag == BranchFlag && |nibbles| != 0 {
      down := node.index[nibbles[0]] != -1;
    } else if node.flag == ExtensionFlag {
      var matched := PrefixMatchedLen(node.keySlice, nibbles);
      down := matched == |node.keySlice|;
    }
  }

  class Trie {
    var root: Node?
    ghost var skel: Option<Skel>

    ghost predicate Valid()
      reads this, if skel.Some? then Nodes(skel.value) else {}
    {
      && (root == null <==> skel.None?)
      && (skel.Some? ==> root == skel.value.node && Rep(skel.value) && Distinct(skel.value))
      && CanonicalRoot(Root())
    }

    // The tree below the root.
    ghost function Root(): Option<Tree>
      reads this
    {
      if skel.None? then None else Some(Erase(skel.value))
    }

    // The map from nibble keys to values that the trie stands for.
    ghost function Map(): map<Key, Value>
      reads this
      requires CanonicalRoot(Root())
    {
      TrieContents.Contents(Root())
    }

    constructor ()
      ensures Valid() && Root() == None && Map() == map[]
    {
      root, skel := null, None;
    }

    method Get(key: seq<Byte>) returns (found: Option<Value>)
      requires Valid()
      ensures found == if Expand(key) in Map() then Some(Map()[Expand(key)]) else None
    {
      TrieContents.ContentsFound(Root(), Expand(key));
      if skel.Some? {
        NodesExist(skel.value);
      }
      var nibbles := FromBytes(key);
      if root == null {
        return None;
      }
      found := GetBelow(root, nibbles, skel.value);
    }

    // Put either panics, for a new key at a funnel, and then has changed nothing, or
    // it updates the map at the key.
    method Put(key: seq<Byte>, value: Value) returns (ok: bool)
      requires Valid()
      modifies this, if skel.Some? then Nodes(skel.value) else {}
      ensures Valid()
      ensures skel.Some? ==> forall n | n in Nodes(skel.value) ::
                fresh(n) || (old(skel).Some? && n in Nodes(old(skel).value))
      ensures ok <==> Expand(key) in old(Map()) || !TrieFunnel.Funnel(old(Map()), Expand(key))
      ensures ok ==> Root() == TrieMap.PutRoot(old(Root()), Expand(key), value)
      ensures Map() == if ok then old(Map())[Expand(key) := value] else old(Map())
    {
      hide TrieSpec.Put, Expand, TrieContents.Contents, TrieFunnel.Funnel;
      TrieMap.PutUpdatesMap(Root(), Expand(key), value);
      if skel.Some? {
        NodesExist(skel.value);
      }
      var nibbles := FromBytes(key);
      if root == null {
        root := new Node.NewLeaf(nibbles, value);
        skel := Some(SLeaf(root, nibbles, value));
        return true;
      }
      ghost var s;
      ok, s := PutBelow(root, nibbles, value, skel.value);
      skel := Some(s);
    }

    // Delete reports an absent key, and otherwise takes out the key and whatever lies
    // below a funnel above it.
    method Delete(key: seq<Byte>) returns (ok: bool)
      requires Valid()
      modifies this, if skel.Some? then Nodes(skel.value) else {}
      ensures Valid()
      ensures skel.Some? ==> old(skel).Some? && Nodes(skel.value) <= Nodes(old(skel).value)
      ensures ok <==> Expand(key) in old(Map())
      ensures !ok ==> Root() == old(Root())
      ensures ok ==> TrieDelete.FindRoot(old(Root()), Expand(key)).Some? && Root() == TrieMap.DeleteRoot(old(Root()), Expand(key))
      ensures Map() == if ok then map k | k in old(Map())
             && !TrieMap.Deleted(old(Map()), Expand(key), k) :: old(Map())[k]
                       else old(Map())
    {
      hide Nodes, Rep, Distinct, Erase, Expand, TrieSpec.Delete, TrieSpec.Canonical, Find;
      hide TrieContents.Contents, TrieMap.Deleted;
      TrieContents.ContentsFound(Root(), Expand(key));
      if Expand(key) in Map() {
        TrieMap.DeleteRemoves(Root(), Expand(key));
      }
      if skel.Some? {
        NodesExist(skel.value);
      }
      var found := Get(key);
      if found.None? {
        return false;
      }
      var nibbles := FromBytes(key);
      ghost var s;
      root, s := TrieDeleteNode.DeleteNode(root, nibbles, skel.value);
      skel := if root == null then None else Some(s);
      return true;
    }
  }
}
