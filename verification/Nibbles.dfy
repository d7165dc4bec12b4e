// trie/trie_nibbles.go: keys are byte strings, the trie walks them one
// four-bit nibble at a time.
module Nibbles {
  type Byte = b: int | 0 <= b < 256
  type Nibble = n: int | 0 <= n < 16
  type Key = seq<Nibble>

  // The nibble expansion of a byte string: high half first.
  function Expand(bs: seq<Byte>): (ns: Key)
    ensures |ns| == 2 * |bs|
  {
    if bs == [] then [] else Expand(bs[..|bs| - 1]) + [bs[|bs| - 1] / 16, bs[|bs| - 1] % 16]
  }

  function PackPair(high: Nibble, low: Nibble): Byte {
    16 * high + low
  }

  // The bytes read back from an even number of nibbles.
  function Pack(ns: Key): (bs: seq<Byte>)
    requires |ns| % 2 == 0
  {
    if ns == [] then [] else Pack(ns[..|ns| - 2]) + [PackPair(ns[|ns| - 2], ns[|ns| - 1])]
  }

  // Expanding and packing are inverse, so distinct addresses have distinct keys.
  lemma {:induction false} PackExpand(bs: seq<Byte>)
    ensures Pack(Expand(bs)) == bs
  {
    if bs != [] {
      var ns := Expand(bs);
      PackExpand(bs[..|bs| - 1]);
      assert ns[..|ns| - 2] == Expand(bs[..|bs| - 1]);
    }
  }

  // Two nibbles for each byte, the high one first.
  lemma {:induction false} ExpandAt(bs: seq<Byte>, i: nat)
    requires i < |bs|
    ensures 16 * (Expand(bs)[2 * i] as int) + Expand(bs)[2 * i + 1] as int == bs[i] as int
  {
    if i < |bs| - 1 {
      ExpandAt(bs[..|bs| - 1], i);
    }
  }

  lemma ExpandInjective(a: seq<Byte>, b: seq<Byte>)
    requires Expand(a) == Expand(b)
    ensures a == b
  {
    PackExpand(a);
    PackExpand(b);
  }

  method FromBytes(bs: seq<Byte>) returns (ns: Key)
    ensures ns == Expand(bs)
  {
    ns := [];
    for i := 0 to |bs|
      invariant ns == Expand(bs[..i])
    {
      assert bs[..i + 1][..i] == bs[..i];
      ns := ns + [bs[i] / 16, bs[i] % 16];
    }
    assert bs[..|bs|] == bs;
  }

  method ToBytes(ns: Key) returns (bs: seq<Byte>)
    requires |ns| % 2 == 0
    ensures bs == Pack(ns)
  {
    bs := [];
    var i := 0;
    while i < |ns|
      invariant 0 <= i <= |ns| && i % 2 == 0
      invariant bs == Pack(ns[..i])
    {
      assert ns[..i + 2][..i] == ns[..i];
      bs := bs + [PackPair(ns[i], ns[i + 1])];
      i := i + 2;
    }
    assert ns[..|ns|] == ns;
  }

  // n is the length of the longest common prefix of a and b.
  ghost predicate IsMatchedLen(a: Key, b: Key, n: nat) {
    n <= |a| && n <= |b| && (forall i | 0 <= i < n :: a[i] == b[i]) &&
    (n < |a| && n < |b| ==> a[n] != b[n])
  }

  function Matched(a: Key, b: Key): (n: nat)
    ensures IsMatchedLen(a, b, n)
  {
    if a != [] && b != [] && a[0] == b[0] then 1 + Matched(a[1..], b[1..]) else 0
  }

  method PrefixMatchedLen(a: Key, b: Key) returns (matched: nat)
    ensures matched == Matched(a, b)
  {
    matched := 0;
    while matched < |a| && matched < |b| && a[matched] == b[matched]
      invariant matched <= |a| && matched <= |b|
      invariant forall i | 0 <= i < matched :: a[i] == b[i]
    {
      matched := matched + 1;
    }
    assert matched == Matched(a, b);
  }
}
