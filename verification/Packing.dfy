/** Packed (min, max) pairs, and the sorted sets of them that the envelope verifier searches. */
module Packing {
  import opened Samples

  type uint32 = x: int | 0 <= x < 0x1_0000_0000

  /** static_cast<uint16_t> of a signed sample. */
  function Unsigned16(x: int16): (u: int)
    ensures 0 <= u < 0x1_0000
  {
    if x < 0 then x + 0x1_0000 else x
  }

  /** pack_pair: lo in the high half, hi in the low half. */
  function Pack(e: Extent): uint32
  {
    Unsigned16(e.lo) * 0x1_0000 + Unsigned16(e.hi)
  }

  lemma PackInjective(a: Extent, b: Extent)
    requires Pack(a) == Pack(b)
    ensures a == b
  {
    assert Unsigned16(a.lo) == Unsigned16(b.lo);
  }

  /** The halves of the word are the two samples, unsigned. */
  lemma PackHalves(e: Extent)
    ensures Pack(e) / 0x1_0000 == Unsigned16(e.lo) && Pack(e) % 0x1_0000 == Unsigned16(e.hi)
    ensures Unsigned16(e.lo) == e.lo || Unsigned16(e.lo) == e.lo + 0x1_0000
    ensures Unsigned16(e.hi) == e.hi || Unsigned16(e.hi) == e.hi + 0x1_0000
  {
  }

  ghost predicate Sorted(s: seq<uint32>)
  {
    forall i, j :: 0 <= i < j < |s| ==> s[i] <= s[j]
  }

  ghost predicate StrictlySorted(s: seq<uint32>)
  {
    forall i, j :: 0 <= i < j < |s| ==> s[i] < s[j]
  }

  /** Stands for std::sort: an ordered permutation of its argument. */
  method Sort(s: seq<uint32>) returns (t: seq<uint32>)
    ensures Sorted(t) && multiset(t) == multiset(s)
  {
    t := [];
    for i := 0 to |s|
      invariant Sorted(t) && multiset(t) == multiset(s[..i])
    {
      assert s[..i + 1] == s[..i] + [s[i]];
      t := Insert(t, s[i]);
    }
    assert s[..|s|] == s;
  }

  method Insert(s: seq<uint32>, x: uint32) returns (t: seq<uint32>)
    requires Sorted(s)
    ensures Sorted(t) && multiset(t) == multiset(s) + multiset{x}
  {
    var k := 0;
    while k < |s| && s[k] <= x
      invariant 0 <= k <= |s|
      invariant forall i :: 0 <= i < k ==> s[i] <= x
    {
      k := k + 1;
    }
    t := s[..k] + [x] + s[k..];
    InsertKeepsValues(s, k, x);
  }

  lemma InsertKeepsValues(s: seq<uint32>, k: nat, x: uint32)
    requires k <= |s|
    ensures multiset(s[..k] + [x] + s[k..]) == multiset(s) + multiset{x}
  {
    assert s == s[..k] + s[k..];
  }

  /** std::unique followed by erase, on an ordered vector. */
  method Unique(s: seq<uint32>) returns (t: seq<uint32>)
    requires Sorted(s)
    ensures StrictlySorted(t) && forall x :: x in t <==> x in s
  {
    t := [];
    for i := 0 to |s|
      invariant StrictlySorted(t)
      invariant forall x :: x in t <==> x in s[..i]
      invariant t != [] ==> i > 0 && t[|t| - 1] == s[i - 1]
      invariant t == [] ==> i == 0
    {
      assert s[..i + 1] == s[..i] + [s[i]];
      if t == [] || t[|t| - 1] != s[i] {
        t := t + [s[i]];
      }
    }
    assert s[..|s|] == s;
  }

  /** std::binary_search. */
  method BinarySearch(s: seq<uint32>, x: uint32) returns (found: bool)
    requires StrictlySorted(s)
    ensures found <==> x in s
  {
    var lo, hi := 0, |s|;
    while lo < hi
      invariant 0 <= lo <= hi <= |s|
      invariant forall i :: 0 <= i < lo ==> s[i] < x
      invariant forall i :: hi <= i < |s| ==> x <= s[i]
    {
      var mid := lo + (hi - lo) / 2;
      if s[mid] < x { lo := mid + 1; } else { hi := mid; }
    }
    found := lo < |s| && s[lo] == x;
  }
}
