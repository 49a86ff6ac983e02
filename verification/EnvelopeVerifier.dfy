/** EnvelopeVerifier: does each decimated (min, max) pair occur as a window of the period? */
module EnvelopeVerifier {
  import opened Samples
  import opened Packing
  import opened SlidingWindow
  import Arith

  /** vs is the ordered set of the packed extents of all cyclic windows of size w. */
  ghost predicate IsWindowSet(vs: seq<uint32>, period: seq<int16>, w: nat)
    requires period != [] && w > 0
  {
    && StrictlySorted(vs)
    && forall p :: p in vs <==> OccursAsWindow(p, period, w)
  }

  ghost predicate OccursAsWindow(p: uint32, period: seq<int16>, w: nat)
    requires period != [] && w > 0
  {
    exists s :: 0 <= s < |period| && p == Pack(WindowExtent(period, s, w))
  }

  method BuildWindowSet(period: seq<int16>, w: nat) returns (out: seq<uint32>)
    ensures w == 0 || period == [] ==> out == []
    ensures w > 0 && period != [] ==> IsWindowSet(out, period, w)
  {
    hide WindowExtent;
    if w == 0 || period == [] { return []; }
    if w >= |period| {
      var e := GlobalExtent(period);
      forall s | 0 <= s < |period|
        ensures WindowExtent(period, s, w) == e
      {
        FullWindow(period, s, w);
      }
      assert e == WindowExtent(period, 0, w);
      return [Pack(e)];
    }
    ghost var pops;
    var wmins: array<int16>, wmaxs: array<int16>;
    wmins, wmaxs, pops := SlideExtents(period, w);
    var packed: seq<uint32> := [];
    for s := 0 to |period|
      invariant |packed| == s
      invariant forall i :: 0 <= i < s ==> packed[i] == Pack(WindowExtent(period, i, w))
    {
      packed := packed + [Pack(Extent(wmins[s], wmaxs[s]))];
    }
    out := SortUnique(packed);
  }

  method SortUnique(packed: seq<uint32>) returns (out: seq<uint32>)
    ensures StrictlySorted(out) && forall x :: x in out <==> x in packed
  {
    var sorted := Sort(packed);
    out := Unique(sorted);
    assert forall x :: x in sorted <==> x in multiset(sorted);
    assert forall x :: x in packed <==> x in multiset(packed);
  }

  /** The loop for a window that covers the whole period. */
  method GlobalExtent(period: seq<int16>) returns (e: Extent)
    requires period != []
    ensures e == ExtentOf(period)
  {
    var gmin, gmax := period[0], period[0];
    for i := 1 to |period|
      invariant IsExtent(Extent(gmin, gmax), period[..i])
    {
      assert period[..i + 1] == period[..i] + [period[i]];
      if period[i] < gmin { gmin := period[i]; }
      if period[i] > gmax { gmax := period[i]; }
    }
    assert period[..|period|] == period;
    e := Extent(gmin, gmax);
    ExtentUnique(e, period);
  }

  /** Both ends agree up to one least significant bit. */
  predicate Near(e: Extent, f: Extent)
  {
    -1 <= e.lo - f.lo <= 1 && -1 <= e.hi - f.hi <= 1
  }

  /** Some cyclic window of size w has an extent within one bit of e. */
  ghost predicate NearWindow(e: Extent, period: seq<int16>, w: nat)
    requires period != [] && w > 0
  {
    exists s :: 0 <= s < |period| && Near(WindowExtent(period, s, w), e)
  }

  ghost predicate Legal(e: Extent, period: seq<int16>, base: nat)
    requires period != [] && base > 0
  {
    NearWindow(e, period, base) || NearWindow(e, period, base + 1)
  }

  ghost predicate NearMember(e: Extent, vs: seq<uint32>)
  {
    exists f :: Near(f, e) && Pack(f) in vs
  }

  /** Searching a window set for a packed neighbour decides nearness to a window exactly. */
  lemma NearMemberIsNearWindow(e: Extent, vs: seq<uint32>, period: seq<int16>, w: nat)
    requires period != [] && w > 0 && IsWindowSet(vs, period, w)
    ensures NearMember(e, vs) <==> NearWindow(e, period, w)
  {
    hide WindowExtent, Pack;
    if NearMember(e, vs) {
      var f :| Near(f, e) && Pack(f) in vs;
      var s :| 0 <= s < |period| && Pack(f) == Pack(WindowExtent(period, s, w));
      PackInjective(f, WindowExtent(period, s, w));
    }
    if NearWindow(e, period, w) {
      var s :| 0 <= s < |period| && Near(WindowExtent(period, s, w), e);
      assert OccursAsWindow(Pack(WindowExtent(period, s, w)), period, w);
    }
  }

  /** The nine-neighbour search; candidates outside the 16-bit range are skipped. */
  method SearchNeighbours(e: Extent, set1: seq<uint32>, set2: seq<uint32>) returns (matched: bool)
    requires StrictlySorted(set1) && StrictlySorted(set2)
    ensures matched <==> NearMember(e, set1) || NearMember(e, set2)
  {
    matched := false;
    var dl := -1;
    while dl <= 1 && !matched
      invariant -1 <= dl <= 2
      invariant matched ==> NearMember(e, set1) || NearMember(e, set2)
      invariant !matched ==> forall f: Extent :: Near(f, e) && f.lo < e.lo + dl ==> Pack(f) !in set1 && Pack(f) !in set2
    {
      var dh := -1;
      while dh <= 1 && !matched
        invariant -1 <= dh <= 2
        invariant matched ==> NearMember(e, set1) || NearMember(e, set2)
        invariant !matched ==> forall f: Extent ::
          Near(f, e) && (f.lo < e.lo + dl || (f.lo == e.lo + dl && f.hi < e.hi + dh)) ==>
            Pack(f) !in set1 && Pack(f) !in set2
      {
        var tlo, thi := e.lo + dl, e.hi + dh;
        if INT16_MIN <= tlo <= INT16_MAX && INT16_MIN <= thi <= INT16_MAX {
          var f := Extent(tlo, thi);
          var found := BinarySearch(set1, Pack(f));
          if !found {
            found := BinarySearch(set2, Pack(f));
          }
          assert Near(f, e);
          matched := found;
        }
        dh := dh + 1;
      }
      dl := dl + 1;
    }
  }

  /** The (lo, hi) pair of bucket b in interleaved decimated output. */
  function PairAt(decimated: seq<int16>, b: nat): Extent
    requires 2 * b + 1 < |decimated|
  {
    Extent(decimated[2 * b], decimated[2 * b + 1])
  }

  /** How many of the first m buckets are legal. */
  ghost function LegalCount(decimated: seq<int16>, period: seq<int16>, base: nat, m: nat): (c: nat)
    requires period != [] && base > 0 && 2 * m <= |decimated|
    ensures c <= m
    ensures c == m <==> forall b :: 0 <= b < m ==> Legal(PairAt(decimated, b), period, base)
  {
    if m == 0 then 0
    else LegalCount(decimated, period, base, m - 1) + if Legal(PairAt(decimated, m - 1), period, base) then 1 else 0
  }

  /**
   * A pair is legal when some cyclic window of one of the two sizes has its smallest and its largest
   * sample within one of the pair's.
   */
  ghost predicate IsLegalPair(lo: int, hi: int, period: seq<int16>, base: nat)
    requires period != [] && base > 0
  {
    exists s: nat, w: nat :: s < |period| && (w == base || w == base + 1) && WithinOne(lo, hi, period, s, w)
  }

  ghost predicate WithinOne(lo: int, hi: int, period: seq<int16>, s: nat, w: nat)
    requires period != [] && w > 0
  {
    var e := ExtentOf(Window(period, s, w));
    lo - 1 <= e.lo <= lo + 1 && hi - 1 <= e.hi <= hi + 1
  }

  lemma LegalIs(e: Extent, period: seq<int16>, base: nat)
    requires period != [] && base > 0
    ensures Legal(e, period, base) <==> IsLegalPair(e.lo, e.hi, period, base)
  {
    hide ExtentOf, Window;
    if Legal(e, period, base) {
      var w := if NearWindow(e, period, base) then base else base + 1;
      var s: nat :| s < |period| && Near(WindowExtent(period, s, w), e);
      assert WithinOne(e.lo, e.hi, period, s, w);
    }
    if IsLegalPair(e.lo, e.hi, period, base) {
      var s: nat, w: nat :| s < |period| && (w == base || w == base + 1) && WithinOne(e.lo, e.hi, period, s, w);
      assert Near(WindowExtent(period, s, w), e);
    }
  }

  /** The buckets whose pairs are legal. */
  ghost function LegalBuckets(decimated: seq<int16>, period: seq<int16>, base: nat, m: nat): set<nat>
    requires period != [] && base > 0 && 2 * m <= |decimated|
  {
    set b: nat | b < m && IsLegalPair(decimated[2 * b], decimated[2 * b + 1], period, base)
  }

  lemma {:induction false} CountIsCardinality(decimated: seq<int16>, period: seq<int16>, base: nat, m: nat)
    requires period != [] && base > 0 && 2 * m <= |decimated|
    ensures LegalCount(decimated, period, base, m) == |LegalBuckets(decimated, period, base, m)|
  {
    hide Legal;
    if m > 0 {
      CountIsCardinality(decimated, period, base, m - 1);
      LegalIs(PairAt(decimated, m - 1), period, base);
      hide IsLegalPair;
      OneMoreBucket(decimated, period, base, m);
      hide LegalBuckets;
    }
  }

  lemma OneMoreBucket(decimated: seq<int16>, period: seq<int16>, base: nat, m: nat)
    requires period != [] && base > 0 && 0 < m && 2 * m <= |decimated|
    ensures var before := LegalBuckets(decimated, period, base, m - 1);
            && m - 1 !in before
            && LegalBuckets(decimated, period, base, m) ==
               if IsLegalPair(decimated[2 * (m - 1)], decimated[2 * (m - 1) + 1], period, base)
               then before + {m - 1} else before
  {
    hide IsLegalPair;
  }

  /** Moving either end of a window's extent by at most one keeps the pair legal. */
  lemma ShiftedIsLegal(period: seq<int16>, base: nat, s: nat, w: nat, dl: int, dh: int)
    requires period != [] && base > 0 && s < |period| && (w == base || w == base + 1)
    requires -1 <= dl <= 1 && -1 <= dh <= 1
    ensures var e := ExtentOf(Window(period, s, w)); IsLegalPair(e.lo + dl, e.hi + dh, period, base)
  {
    hide ExtentOf, Window;
    var e := ExtentOf(Window(period, s, w));
    assert WithinOne(e.lo + dl, e.hi + dh, period, s, w);
  }

  /** A pair of which one end is two or more away from that of every window is not. */
  lemma FarIsIllegal(e: Extent, period: seq<int16>, base: nat)
    requires period != [] && base > 0
    requires forall s: nat, w: nat :: s < |period| && (w == base || w == base + 1) ==>
               var f := ExtentOf(Window(period, s, w)); !(-2 < e.lo - f.lo < 2 && -2 < e.hi - f.hi < 2)
    ensures !IsLegalPair(e.lo, e.hi, period, base)
  {
  }

  /** The bucket loop of verify. */
  method CountMatches(decimated: seq<int16>, numBuckets: nat, set1: seq<uint32>, set2: seq<uint32>,
                      ghost period: seq<int16>, ghost base: nat) returns (matched: nat)
    requires 2 * numBuckets <= |decimated| && period != [] && base > 0
    requires IsWindowSet(set1, period, base) && IsWindowSet(set2, period, base + 1)
    ensures matched == LegalCount(decimated, period, base, numBuckets)
  {
    hide WindowExtent, NearMember, NearWindow, OccursAsWindow;
    matched := 0;
    for b := 0 to numBuckets
      invariant matched == LegalCount(decimated, period, base, b)
    {
      var e := Extent(decimated[b * 2], decimated[b * 2 + 1]);
      var found := SearchNeighbours(e, set1, set2);
      NearMemberIsNearWindow(e, set1, period, base);
      NearMemberIsNearWindow(e, set2, period, base + 1);
      if found { matched := matched + 1; }
    }
  }

  /** The smaller of the two bucket sizes that verify looks up. */
  function BaseSize(chRaw: nat, numBuckets: nat): (base: nat)
    requires numBuckets > 0
    ensures base > 0
  {
    if chRaw / numBuckets <= 0 then 1 else chRaw / numBuckets
  }

  lemma BaseSizeIs(chRaw: nat, numBuckets: nat)
    requires numBuckets > 0
    ensures BaseSize(chRaw, numBuckets) == if chRaw < numBuckets then 1 else chRaw / numBuckets
  {
    Arith.DivModDef(chRaw, numBuckets);
  }

  datatype EnvelopeResult = EnvelopeResult(total: nat, matched: nat, matchRate: real)

  class EnvelopeVerifier {
    var periodBuf: array?<int16>
    var periodLen: nat
    var cache: map<nat, seq<uint32>>

    /** Every cached set is what a fresh build for the current period would give. */
    ghost predicate Valid()
      reads this, periodBuf
    {
      && (periodBuf != null ==> periodLen <= periodBuf.Length)
      && (cache.Keys != {} ==> IsReady())
      && forall w :: w in cache ==> w > 0 && IsWindowSet(cache[w], Period(), w)
    }

    predicate IsReady()
      reads this
    {
      periodBuf != null && periodLen > 0
    }

    ghost function Period(): seq<int16>
      requires periodBuf != null && periodLen <= periodBuf.Length
      reads this, periodBuf
    {
      periodBuf[..periodLen]
    }

    constructor ()
      ensures Valid() && !IsReady()
    {
      periodBuf, periodLen, cache := null, 0, map[];
    }

    method SetPeriod(buf: array?<int16>, len: nat)
      requires buf != null ==> len <= buf.Length
      modifies this
      ensures Valid() && periodBuf == buf && periodLen == len && cache == map[]
    {
      periodBuf, periodLen, cache := buf, len, map[];
    }

    method Clear()
      modifies this
      ensures Valid() && !IsReady() && cache == map[]
    {
      periodBuf, periodLen, cache := null, 0, map[];
    }

    method EnsureBucketSizes(bs1: nat, bs2: nat)
      requires Valid() && IsReady()
      modifies this`cache
      ensures Valid()
      ensures bs1 > 0 ==> bs1 in cache
      ensures bs2 > 0 ==> bs2 in cache
      ensures forall w :: w in old(cache) ==> w in cache && cache[w] == old(cache[w])
    {
      var sizes := [bs1, bs2];
      for i := 0 to 2
        invariant Valid()
        invariant forall k :: 0 <= k < i && sizes[k] > 0 ==> sizes[k] in cache
        invariant forall w :: w in old(cache) ==> w in cache && cache[w] == old(cache[w])
      {
        var bs := sizes[i];
        if bs > 0 && bs !in cache {
          var temp := BuildWindowSet(periodBuf[..periodLen], bs);
          cache := cache[bs := temp];
        }
      }
      assert sizes[0] == bs1 && sizes[1] == bs2;
    }

    /** The matched count is exactly the number of legal buckets; a call never changes a later verdict. */
    method Verify(decimated: seq<int16>, numBuckets: nat, chRaw: nat) returns (result: EnvelopeResult)
      requires Valid() && 2 * numBuckets <= |decimated|
      modifies this`cache
      ensures Valid()
      ensures result.total == numBuckets
      ensures !IsReady() || numBuckets == 0 || chRaw == 0 ==>
                result.matched == 0 && result.matchRate == -1.0 && cache == old(cache)
      ensures IsReady() && numBuckets > 0 && chRaw > 0 ==>
                && result.matched == LegalCount(decimated, Period(), BaseSize(chRaw, numBuckets), numBuckets)
                && (var base := if chRaw < numBuckets then 1 else chRaw / numBuckets;
                    base > 0 && result.matched == |LegalBuckets(decimated, Period(), base, numBuckets)|)
                && result.matchRate == result.matched as real / numBuckets as real
    {
      if !IsReady() || numBuckets == 0 || chRaw == 0 {
        return EnvelopeResult(numBuckets, 0, -1.0);
      }
      BaseSizeIs(chRaw, numBuckets);
      hide BaseSize, IsWindowSet, LegalCount, LegalBuckets;
      var base := BaseSize(chRaw, numBuckets);
      EnsureBucketSizes(base, base + 1);
      var set1, set2 := cache[base], cache[base + 1];
      var matched := CountMatches(decimated, numBuckets, set1, set2, Period(), base);
      CountIsCardinality(decimated, Period(), base, numBuckets);
      result := EnvelopeResult(numBuckets, matched, matched as real / numBuckets as real);
    }
  }
}
