// The slot index of a branch node (trie/trie_branch.go): a branch keeps its
// children in a compact slot list, and index[c] is the slot of the child for
// nibble c, or -1.
module SlotIndex {
  import opened Nibbles

  // NewBranchNode: no nibble has a child.
  function NoIndex(): (r: seq<int>)
    ensures |r| == 16 && forall c | 0 <= c < 16 :: r[c] == -1
  {
    seq(16, i => -1)
  }

  // index is a bijection between its present nibbles and the slots 0..n.
  ghost predicate IndexOk(index: seq<int>, n: nat) {
    && |index| == 16
    && (forall c | 0 <= c < 16 :: -1 <= index[c] < n)
    && (forall c, d | 0 <= c < d < 16 && index[c] != -1 :: index[c] != index[d])
    && (forall i | 0 <= i < n :: i in index)
  }

  // The number of present nibbles in lo..hi.
  function Present(index: seq<int>, lo: nat, hi: nat): (n: nat)
    requires lo <= hi <= |index|
    ensures n <= hi - lo
  {
    if lo == hi then 0
    else (if index[hi - 1] == -1 then 0 else 1) + Present(index, lo, hi - 1)
  }

  // The slots follow the order of the nibbles.
  ghost predicate Sorted(index: seq<int>, n: nat) {
    && |index| == 16
    && Present(index, 0, 16) == n
    && (forall c | 0 <= c < 16 :: index[c] == -1 || index[c] == Present(index, 0, c))
  }

  // The slot numbers after a child for the absent nibble c goes into slot front:
  // the nibbles after c move up by one.
  function InsertIndex(index: seq<int>, c: Nibble, front: nat): (r: seq<int>)
    requires |index| == 16
    ensures |r| == 16
  {
    seq(16, d requires 0 <= d < 16 =>
      if d == c then front else if d > c && index[d] != -1 then index[d] + 1 else index[d])
  }

  lemma InsertIndexAt(index: seq<int>, c: Nibble, front: nat, r: seq<int>)
    requires |index| == 16 && |r| == 16
    requires forall d | 0 <= d < 16 ::
               r[d] == if d == c then front else if d > c && index[d] != -1 then index[d] + 1 else index[d]
    ensures r == InsertIndex(index, c, front)
  {
  }

  // The slot numbers after slot i is cut out and nibble c loses its child.
  function RemoveIndex(index: seq<int>, c: Nibble): (r: seq<int>)
    requires |index| == 16
    ensures |r| == 16
  {
    seq(16, d requires 0 <= d < 16 =>
      if d == c then -1 else if index[d] > index[c] then index[d] - 1 else index[d])
  }

  function FirstPresent(index: seq<int>, from: Nibble): (c: Nibble)
    requires |index| == 16 && exists d | from <= d < 16 :: index[d] != -1
    ensures from <= c && index[c] != -1 && forall d | from <= d < c :: index[d] == -1
    decreases 16 - from
  {
    if index[from] != -1 then from else FirstPresent(index, from + 1)
  }

  lemma {:induction false} NonePresent(index: seq<int>, hi: nat)
    requires hi <= |index| && forall c | 0 <= c < hi :: index[c] == -1
    ensures Present(index, 0, hi) == 0
  {
    if hi > 0 {
      NonePresent(index, hi - 1);
    }
  }

  lemma NoIndexSorted()
    ensures Sorted(NoIndex(), 0)
  {
    NonePresent(NoIndex(), 16);
  }

  lemma {:induction false} PresentSplit(index: seq<int>, lo: nat, mid: nat, hi: nat)
    requires lo <= mid <= hi <= |index|
    ensures Present(index, lo, mid) + Present(index, mid, hi) == Present(index, lo, hi)
  {
    if mid < hi {
      PresentSplit(index, lo, mid, hi - 1);
    }
  }

  lemma {:induction false} SlotTaken(index: seq<int>, hi: nat, i: nat) returns (c: nat)
    requires hi <= |index| && i < Present(index, 0, hi)
    ensures c < hi && index[c] != -1 && Present(index, 0, c) == i
  {
    if i == Present(index, 0, hi - 1) {
      c := hi - 1;
    } else {
      c := SlotTaken(index, hi - 1, i);
    }
  }

  lemma SortedIsOk(index: seq<int>, n: nat)
    requires Sorted(index, n)
    ensures IndexOk(index, n)
  {
    forall c | 0 <= c < 16 ensures -1 <= index[c] < n {
      PresentSplit(index, 0, c + 1, 16);
      assert Present(index, 0, c + 1) == (if index[c] == -1 then 0 else 1) + Present(index, 0, c);
    }
    forall c, d | 0 <= c < d < 16 && index[c] != -1 ensures index[c] != index[d] {
      PresentSplit(index, 0, c + 1, d);
      assert Present(index, 0, c + 1) == 1 + Present(index, 0, c);
    }
    forall i | 0 <= i < n ensures i in index {
      var c := SlotTaken(index, 16, i);
      assert index[c] == i;
    }
  }

  lemma {:induction false} PresentAfterInsert(index: seq<int>, c: Nibble, front: nat, hi: nat)
    requires |index| == 16 && index[c] == -1 && hi <= 16
    requires forall d | 0 <= d < 16 :: index[d] >= -1
    ensures Present(InsertIndex(index, c, front), 0, hi) == Present(index, 0, hi) + if c < hi then 1 else 0
  {
    if hi > 0 {
      PresentAfterInsert(index, c, front, hi - 1);
    }
  }

  lemma FrontIsRank(index: seq<int>, n: nat, c: Nibble)
    requires Sorted(index, n) && index[c] == -1
    ensures Present(index, c + 1, 16) <= n
    ensures n - Present(index, c + 1, 16) == Present(index, 0, c)
  {
    PresentSplit(index, 0, c + 1, 16);
    assert Present(index, 0, c + 1) == Present(index, 0, c);
  }

  lemma InsertKeepsSorted(index: seq<int>, n: nat, c: Nibble)
    requires Sorted(index, n) && index[c] == -1
    ensures Sorted(InsertIndex(index, c, Present(index, 0, c)), n + 1)
  {
    hide Present;
    var front := Present(index, 0, c);
    var r := InsertIndex(index, c, front);
    forall d | 0 <= d <= 16 ensures Present(r, 0, d) == Present(index, 0, d) + if c < d then 1 else 0 {
      PresentAfterInsert(index, c, front, d);
    }
  }

  // In a sorted index, slots below the rank of c are exactly those of nibbles before c.
  lemma RankOrder(index: seq<int>, n: nat, c: Nibble, d: Nibble)
    requires Sorted(index, n) && index[c] == -1 && index[d] != -1
    ensures d < c <==> index[d] < Present(index, 0, c)
  {
    if d < c {
      PresentSplit(index, 0, d + 1, c);
      assert Present(index, 0, d + 1) == 1 + Present(index, 0, d);
    } else {
      PresentSplit(index, 0, c, d);
    }
  }

  // Inserting kid at its slot adds the child for c and leaves every other child in place.
  lemma InsertMoves<T>(index: seq<int>, kids: seq<T>, c: Nibble, kid: T, r: seq<int>, grown: seq<T>)
    requires Sorted(index, |kids|) && index[c] == -1 && Present(index, 0, c) <= |kids|
    requires r == InsertIndex(index, c, Present(index, 0, c))
    requires grown == kids[..Present(index, 0, c)] + [kid] + kids[Present(index, 0, c)..]
    ensures IndexOk(index, |kids|) && IndexOk(r, |grown|)
    ensures forall d: Nibble :: r[d] == -1 <==> d != c && index[d] == -1
    ensures forall d: Nibble | r[d] != -1 :: grown[r[d]] == if d == c then kid else kids[index[d]]
  {
    hide Sorted, Present;
    SortedIsOk(index, |kids|);
    InsertKeepsSorted(index, |kids|, c);
    SortedIsOk(r, |kids| + 1);
    forall d: Nibble | r[d] != -1 ensures grown[r[d]] == if d == c then kid else kids[index[d]] {
      if d != c {
        RankOrder(index, |kids|, c, d);
      }
    }
  }

  // Cutting a slot out keeps the bijection and every other child.
  lemma RemoveMoves<T>(index: seq<int>, kids: seq<T>, c: Nibble)
    requires IndexOk(index, |kids|) && index[c] != -1
    ensures var r := RemoveIndex(index, c);
            var cut := kids[..index[c]] + kids[index[c] + 1..];
            IndexOk(r, |cut|) &&
            forall d: Nibble ::
              (r[d] == -1 <==> d == c || index[d] == -1) &&
              (r[d] != -1 ==> cut[r[d]] == kids[index[d]])
  {
    var r := RemoveIndex(index, c);
    forall i | 0 <= i < |kids| - 1 ensures i in r {
      var before := if i < index[c] then i else i + 1;
      assert before in index;
      var d :| 0 <= d < 16 && index[d] == before;
      assert r[d] == i;
    }
  }

  // Appending a child in a new last slot adds it for c and leaves every other child in place.
  lemma AppendMoves<T>(index: seq<int>, kids: seq<T>, c: Nibble, kid: T)
    requires IndexOk(index, |kids|) && index[c] == -1
    ensures var r, grown := index[c := |kids|], kids + [kid];
            IndexOk(r, |grown|) &&
            forall d: Nibble ::
              (r[d] == -1 <==> d != c && index[d] == -1) &&
              (r[d] != -1 ==> grown[r[d]] == if d == c then kid else kids[index[d]])
  {
    var r := index[c := |kids|];
    forall i | 0 <= i < |kids| + 1 ensures i in r {
      if i < |kids| {
        assert i in index;
        var d :| 0 <= d < 16 && index[d] == i;
        assert r[d] == i;
      } else {
        assert r[c] == i;
      }
    }
  }

  lemma SlotHasNibble(index: seq<int>, n: nat, i: nat) returns (c: Nibble)
    requires IndexOk(index, n) && i < n
    ensures index[c] == i
  {
    assert i in index;
    var d :| 0 <= d < 16 && index[d] == i;
    c := d;
  }
}
