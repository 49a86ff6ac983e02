/** Decimator::minmax and minmax_scalar: one (min, max) pair for each bucket of the input. */
module Decimator {
  import opened Samples
  import Arith

  /** Where bucket b of k starts in an input of n samples. */
  function Bound(b: nat, n: nat, k: nat): nat
    requires k > 0
  {
    b * n / k
  }

  lemma QuotientStep(y: nat, r: nat, k: nat)
    requires r < k
    ensures (y + r) / k == y / k + if y % k + r < k then 0 else 1
  {
    Arith.DivModDef(y, k);
    if y % k + r < k {
      Arith.DivModUnique(y + r, k, y / k, y % k + r);
    } else {
      Arith.MulAdd(y / k, 1, k);
      Arith.DivModUnique(y + r, k, y / k + 1, y % k + r - k);
    }
  }

  /** A boundary, written as b full quotients plus the carried remainders. */
  lemma BoundSplit(b: nat, n: nat, k: nat)
    requires 0 < k
    ensures Bound(b, n, k) == b * (n / k) + b * (n % k) / k
  {
    Arith.DivModDef(n, k);
    calc {
      b * n;
      b * ((n / k) * k + n % k);
      b * ((n / k) * k) + b * (n % k);
      (b * (n / k)) * k + b * (n % k);
    }
    Arith.DivModSum(b * (n / k), k, b * (n % k));
  }

  /** Bucket sizes are the quotient or one more, so k <= n leaves no bucket empty. */
  lemma BucketSize(b: nat, n: nat, k: nat)
    requires 0 < k
    ensures n / k <= Bound(b + 1, n, k) - Bound(b, n, k) <= n / k + 1
  {
    hide Bound;
    BoundSplit(b, n, k);
    BoundSplit(b + 1, n, k);
    Arith.MulAdd(b, 1, n / k);
    Arith.MulAdd(b, 1, n % k);
    QuotientStep(b * (n % k), n % k, k);
  }

  lemma QuotientPositive(n: nat, k: nat)
    requires 0 < k <= n
    ensures n / k > 0
  {
    Arith.DivModDef(n, k);
  }

  lemma {:induction false} BoundMonotone(b: nat, c: nat, n: nat, k: nat)
    requires 0 < k && b <= c
    ensures Bound(b, n, k) <= Bound(c, n, k)
    decreases c - b
  {
    hide Bound;
    if b < c {
      BucketSize(b, n, k);
      Arith.DivModDef(n, k);
      BoundMonotone(b + 1, c, n, k);
    }
  }

  lemma BoundEnds(n: nat, k: nat)
    requires 0 < k
    ensures Bound(0, n, k) == 0 && Bound(k, n, k) == n
  {
    Arith.DivModUnique(0, k, 0, 0);
    assert k * n == n * k + 0;
    Arith.DivModUnique(k * n, k, n, 0);
  }

  /** Bucket b lies inside the input and is not empty. */
  lemma BucketInside(b: nat, n: nat, k: nat)
    requires 0 < k <= n && b < k
    ensures 0 <= Bound(b, n, k) < Bound(b + 1, n, k) <= n
  {
    hide Bound;
    BucketSize(b, n, k);
    QuotientPositive(n, k);
    BoundMonotone(0, b, n, k);
    BoundMonotone(b + 1, k, n, k);
    BoundEnds(n, k);
  }

  /** The buckets tile the input: every index lies in exactly one of them. */
  lemma {:induction false} BucketsTile(i: nat, n: nat, k: nat) returns (b: nat)
    requires 0 < k <= n && i < n
    ensures b < k && Bound(b, n, k) <= i < Bound(b + 1, n, k)
    ensures forall c: nat :: c < k && Bound(c, n, k) <= i < Bound(c + 1, n, k) ==> c == b
  {
    hide Bound;
    BoundEnds(n, k);
    b := 0;
    while Bound(b + 1, n, k) <= i
      invariant b < k && Bound(b, n, k) <= i
      decreases k - b
    {
      b := b + 1;
    }
    forall c: nat | c < k && Bound(c, n, k) <= i < Bound(c + 1, n, k)
      ensures c == b
    {
      if c < b {
        BoundMonotone(c + 1, b, n, k);
      } else if b < c {
        BoundMonotone(b + 1, c, n, k);
      }
    }
  }

  function Bucket(input: seq<int16>, k: nat, b: nat): (s: seq<int16>)
    requires 0 < k <= |input| && b < k
    ensures s != []
    ensures forall x :: x in s ==> x in input
  {
    BucketInside(b, |input|, k);
    input[Bound(b, |input|, k)..Bound(b + 1, |input|, k)]
  }

  /** The extents of the first m buckets. */
  function Extents(input: seq<int16>, k: nat, m: nat): (es: seq<Extent>)
    requires 0 < k <= |input| && m <= k
    ensures |es| == m
    ensures forall b :: 0 <= b < m ==> es[b] == ExtentOf(Bucket(input, k, b))
  {
    if m == 0 then [] else Extents(input, k, m - 1) + [ExtentOf(Bucket(input, k, m - 1))]
  }

  /** Extents laid out as the output vector holds them: lo0, hi0, lo1, hi1, ... */
  function Flatten(es: seq<Extent>): (out: seq<int16>)
    ensures |out| == 2 * |es|
  {
    if es == [] then [] else Flatten(es[..|es| - 1]) + [es[|es| - 1].lo, es[|es| - 1].hi]
  }

  lemma {:induction false} FlattenAt(es: seq<Extent>, b: nat)
    requires b < |es|
    ensures Flatten(es)[2 * b] == es[b].lo && Flatten(es)[2 * b + 1] == es[b].hi
  {
    if b < |es| - 1 {
      FlattenAt(es[..|es| - 1], b);
    }
  }

  /** The value of MinMax decimation; both implementations are proved to return it. */
  function MinMax(input: seq<int16>, target: nat): (out: seq<int16>)
  {
    if target < 2 then []
    else if |input| <= target then input
    else Flatten(Extents(input, target / 2, target / 2))
  }

  /** What the pair at position b of a decimated run is. */
  lemma MinMaxPair(input: seq<int16>, target: nat, b: nat)
    requires 2 <= target < |input| && b < target / 2
    ensures |MinMax(input, target)| == 2 * (target / 2)
    ensures IsExtent(Extent(MinMax(input, target)[2 * b], MinMax(input, target)[2 * b + 1]),
                     Bucket(input, target / 2, b))
  {
    hide Bucket;
    FlattenAt(Extents(input, target / 2, target / 2), b);
  }

  /**
   * MinMax decimation said outright: nothing below two points, the input itself if it is no longer than
   * the target, and otherwise the smallest and the largest sample of each of target / 2 slices.
   */
  ghost predicate IsMinMax(input: seq<int16>, target: nat, out: seq<int16>)
  {
    if target < 2 then out == []
    else if |input| <= target then out == input
    else
      && |out| == 2 * (target / 2)
      && forall b :: 0 <= b < target / 2 ==> IsSliceExtent(input, target / 2, b, Extent(out[2 * b], out[2 * b + 1]))
  }

  ghost predicate IsSliceExtent(input: seq<int16>, k: nat, b: nat, e: Extent)
    requires k > 0
  {
    var lo, hi := b * |input| / k, (b + 1) * |input| / k;
    0 <= lo < hi <= |input| && IsExtent(e, input[lo..hi])
  }

  lemma MinMaxIs(input: seq<int16>, target: nat)
    ensures IsMinMax(input, target, MinMax(input, target))
  {
    hide Extents, Flatten, IsExtent;
    if 2 <= target < |input| {
      MinMaxLength(input, target);
      forall b | 0 <= b < target / 2
        ensures IsSliceExtent(input, target / 2, b,
                              Extent(MinMax(input, target)[2 * b], MinMax(input, target)[2 * b + 1]))
      {
        MinMaxPair(input, target, b);
        BucketInside(b, |input|, target / 2);
      }
    }
  }

  /** Nothing else is. */
  lemma MinMaxUnique(input: seq<int16>, target: nat, out: seq<int16>)
    requires IsMinMax(input, target, out)
    ensures out == MinMax(input, target)
  {
    MinMaxIs(input, target);
    var other := MinMax(input, target);
    hide MinMax, IsExtent;
    if 2 <= target < |input| {
      forall j | 0 <= j < |out|
        ensures out[j] == other[j]
      {
        var b := j / 2;
        assert j == 2 * b || j == 2 * b + 1;
        SliceUnique(input, target / 2, b, Extent(out[2 * b], out[2 * b + 1]), Extent(other[2 * b], other[2 * b + 1]));
      }
    }
  }

  lemma SliceUnique(input: seq<int16>, k: nat, b: nat, e: Extent, f: Extent)
    requires k > 0 && IsSliceExtent(input, k, b, e) && IsSliceExtent(input, k, b, f)
    ensures e == f
  {
    var lo, hi := b * |input| / k, (b + 1) * |input| / k;
    hide IsExtent;
    ExtentUnique(e, input[lo..hi]);
    ExtentUnique(f, input[lo..hi]);
  }

  /** The output length is decided by the input length and the target alone. */
  lemma MinMaxLength(input: seq<int16>, target: nat)
    ensures |MinMax(input, target)| ==
            if target < 2 then 0 else if |input| <= target then |input| else target - target % 2
  {
    hide Extents, Bucket;
  }

  /** Decimation to two or more points keeps both extremes of the input. */
  lemma MinMaxKeepsExtent(input: seq<int16>, target: nat)
    requires input != [] && target >= 2
    ensures MinMax(input, target) != []
    ensures ExtentOf(MinMax(input, target)) == ExtentOf(input)
  {
    hide Bucket, Extents, Flatten;
    if |input| > target {
      var out, e := MinMax(input, target), ExtentOf(input);
      MinMaxLength(input, target);
      forall j | 0 <= j < |out|
        ensures e.lo <= out[j] <= e.hi
      {
        MinMaxPair(input, target, j / 2);
        assert j == 2 * (j / 2) || j == 2 * (j / 2) + 1;
        assert out[j] in Bucket(input, target / 2, j / 2);
      }
      ExtremeSurvives(input, target, e.lo);
      ExtremeSurvives(input, target, e.hi);
      ExtentUnique(e, out);
    }
  }

  lemma ExtremeSurvives(input: seq<int16>, target: nat, x: int16)
    requires 2 <= target < |input| && x in input
    requires x == ExtentOf(input).lo || x == ExtentOf(input).hi
    ensures x in MinMax(input, target)
  {
    var k, out := target / 2, MinMax(input, target);
    var b := BucketHolding(input, k, x);
    hide *;
    MinMaxPair(input, target, b);
    var lo, hi := out[2 * b], out[2 * b + 1];
    var bucket := Bucket(input, k, b);
    assert x == lo || x == hi by {
      ExtentWithin(bucket, input, Extent(lo, hi), x);
    }
  }

  lemma SliceHolds(s: seq<int16>, lo: nat, hi: nat, i: nat)
    requires lo <= i < hi <= |s|
    ensures s[i] in s[lo..hi]
  {
    assert s[lo..hi][i - lo] == s[i];
  }

  lemma BucketIsSlice(input: seq<int16>, k: nat, b: nat)
    requires 0 < k <= |input| && b < k
    ensures 0 <= Bound(b, |input|, k) < Bound(b + 1, |input|, k) <= |input|
    ensures Bucket(input, k, b) == input[Bound(b, |input|, k)..Bound(b + 1, |input|, k)]
  {
    BucketInside(b, |input|, k);
  }

  lemma BucketHolding(input: seq<int16>, k: nat, x: int16) returns (b: nat)
    requires 0 < k <= |input| && x in input
    ensures b < k && x in Bucket(input, k, b)
  {
    hide *;
    var i :| 0 <= i < |input| && input[i] == x;
    b := BucketsTile(i, |input|, k);
    BucketIsSlice(input, k, b);
    SliceHolds(input, Bound(b, |input|, k), Bound(b + 1, |input|, k), i);
  }

  /** An extreme of the whole that occurs in a part is an extreme of that part. */
  lemma ExtentWithin(part: seq<int16>, whole: seq<int16>, e: Extent, x: int16)
    requires whole != [] && x in part && IsExtent(e, part)
    requires forall y :: y in part ==> y in whole
    requires x == ExtentOf(whole).lo || x == ExtentOf(whole).hi
    ensures x == e.lo || x == e.hi
  {
    assert e.lo in whole && e.hi in whole;
  }

  method MinMaxScalar(input: seq<int16>, target: nat) returns (output: seq<int16>)
    ensures output == MinMax(input, target)
  {
    if target < 2 { return []; }
    if |input| <= target { return input; }
    var numBuckets, n := target / 2, |input|;
    output := [];
    for b := 0 to numBuckets
      invariant output == Flatten(Extents(input, numBuckets, b))
    {
      hide Bound;
      var start, end := Bound(b, n, numBuckets), Bound(b + 1, n, numBuckets);
      BucketInside(b, n, numBuckets);
      var e := ScalarFold(input[start..end]);
      ExtendFlatten(input, numBuckets, b, e);
      output := output + [e.lo, e.hi];
    }
  }

  lemma ExtendFlatten(input: seq<int16>, k: nat, b: nat, e: Extent)
    requires 0 < k <= |input| && b < k && e == ExtentOf(Bucket(input, k, b))
    ensures Flatten(Extents(input, k, b + 1)) == Flatten(Extents(input, k, b)) + [e.lo, e.hi]
  {
    hide Bucket;
    assert Extents(input, k, b + 1)[..b] == Extents(input, k, b);
  }

  /** The inner loop of minmax_scalar, started from the sentinels. */
  method ScalarFold(bucket: seq<int16>) returns (e: Extent)
    requires bucket != []
    ensures e == ExtentOf(bucket)
  {
    var lo: int16, hi: int16 := INT16_MAX, INT16_MIN;
    for i := 0 to |bucket|
      invariant IsFold(lo, hi, bucket[..i])
    {
      var v := bucket[i];
      assert bucket[..i + 1] == bucket[..i] + [v];
      if v < lo { lo := v; }
      if v > hi { hi := v; }
    }
    assert bucket[..|bucket|] == bucket;
    FoldIsExtent(lo, hi, bucket);
    e := Extent(lo, hi);
  }

  /** The state of a scan that began from the sentinels and has seen exactly s. */
  ghost predicate IsFold(lo: int16, hi: int16, s: seq<int16>)
  {
    && (lo == INT16_MAX || lo in s)
    && (hi == INT16_MIN || hi in s)
    && forall j :: 0 <= j < |s| ==> lo <= s[j] <= hi
  }

  lemma FoldIsExtent(lo: int16, hi: int16, bucket: seq<int16>)
    requires bucket != [] && IsFold(lo, hi, bucket)
    ensures Extent(lo, hi) == ExtentOf(bucket)
  {
    assert lo <= bucket[0] <= hi;
    ExtentUnique(Extent(lo, hi), bucket);
  }
}
