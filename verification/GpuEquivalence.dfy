/** The shader's buckets against the CPU's: other boundaries, the same sizes and the same global extremes. */
module GpuEquivalence {
  import opened Samples
  import opened ChannelMajor
  import Arith
  import Decimator
  import Gpu = GpuMinMax
  import Peaks

  function Sum(s: seq<nat>): nat
  {
    if s == [] then 0 else Sum(s[..|s| - 1]) + s[|s| - 1]
  }

  /** CPU bucket sizes, by rounding down b * n / k. */
  function CpuSizes(n: nat, k: nat, m: nat): (s: seq<nat>)
    requires k > 0
    ensures |s| == m
  {
    if m == 0 then []
    else
      Decimator.BucketSize(m - 1, n, k);
      CpuSizes(n, k, m - 1) + [Decimator.Bound(m, n, k) - Decimator.Bound(m - 1, n, k)]
  }

  /** Shader bucket sizes, by distributing the remainder over the first buckets. */
  function GpuSizes(n: nat, k: nat, m: nat): (s: seq<nat>)
    requires k > 0
    ensures |s| == m
  {
    if m == 0 then [] else GpuSizes(n, k, m - 1) + [Gpu.Size(m - 1, n, k)]
  }

  ghost predicate TwoValued(s: seq<nat>, q: nat)
  {
    forall x :: x in s ==> x == q || x == q + 1
  }

  lemma {:induction false} CpuSizesAre(n: nat, k: nat, m: nat)
    requires k > 0
    ensures Sum(CpuSizes(n, k, m)) == Decimator.Bound(m, n, k) && TwoValued(CpuSizes(n, k, m), n / k)
  {
    hide Decimator.Bound;
    if m == 0 {
      Decimator.BoundEnds(n, k);
    } else {
      CpuSizesAre(n, k, m - 1);
      Decimator.BucketSize(m - 1, n, k);
    }
  }

  lemma {:induction false} GpuSizesAre(n: nat, k: nat, m: nat)
    requires k > 0
    ensures Sum(GpuSizes(n, k, m)) == Gpu.Start(m, n, k) && TwoValued(GpuSizes(n, k, m), n / k)
  {
    if m == 0 {
      Gpu.LastStart(n, k);
    } else {
      GpuSizesAre(n, k, m - 1);
      Gpu.BucketsMeet(m - 1, n, k);
      hide Gpu.Start;
    }
  }

  /** Where only q and q+1 occur, length and sum decide how often each does. */
  lemma {:induction false} CountsDecided(s: seq<nat>, q: nat)
    requires TwoValued(s, q)
    ensures |s| * q <= Sum(s)
    ensures multiset(s)[q + 1] == Sum(s) - |s| * q
    ensures multiset(s)[q] == |s| - (Sum(s) - |s| * q)
    ensures forall x :: x != q && x != q + 1 ==> multiset(s)[x] == 0
  {
    if s != [] {
      var m := |s| - 1;
      OneLess(s, q);
      Arith.MulAdd(m, 1, q);
      hide TwoValued;
      CountsDecided(s[..m], q);
    }
  }

  lemma OneLess(s: seq<nat>, q: nat)
    requires s != [] && TwoValued(s, q)
    ensures var m := |s| - 1;
            && TwoValued(s[..m], q) && (s[m] == q || s[m] == q + 1)
            && Sum(s) == Sum(s[..m]) + s[m] && multiset(s) == multiset(s[..m]) + multiset{s[m]}
  {
    var m := |s| - 1;
    assert s == s[..m] + [s[m]];
    assert s[m] in s && forall x :: x in s[..m] ==> x in s;
  }

  /** The two partitions have the same multiset of bucket sizes. */
  lemma SameSizes(n: nat, k: nat)
    requires k > 0
    ensures multiset(CpuSizes(n, k, k)) == multiset(GpuSizes(n, k, k))
  {
    CpuSizesAre(n, k, k);
    GpuSizesAre(n, k, k);
    Decimator.BoundEnds(n, k);
    Gpu.LastStart(n, k);
    hide Decimator.Bound, Gpu.Start, CpuSizes, GpuSizes;
    var cpu, gpu := CpuSizes(n, k, k), GpuSizes(n, k, k);
    SameCounts(cpu, gpu, n / k);
  }

  lemma SameCounts(s: seq<nat>, t: seq<nat>, q: nat)
    requires TwoValued(s, q) && TwoValued(t, q) && |s| == |t| && Sum(s) == Sum(t)
    ensures multiset(s) == multiset(t)
  {
    CountsDecided(s, q);
    CountsDecided(t, q);
    hide TwoValued, Sum;
    forall x: nat
      ensures multiset(s)[x] == multiset(t)[x]
    {
    }
  }

  // ---- The same global minimum and maximum ----

  lemma GpuBucketInside(samples: seq<int16>, id: nat, k: nat)
    requires 0 < k <= |samples| && id < k
    ensures Gpu.Start(id, |samples|, k) + Gpu.Size(id, |samples|, k) == Gpu.Start(id + 1, |samples|, k) <= |samples|
    ensures Gpu.Size(id, |samples|, k) > 0
  {
    Gpu.BucketsMeet(id, |samples|, k);
    Gpu.StartMonotone(id + 1, k, |samples|, k);
    Gpu.LastStart(|samples|, k);
    Decimator.QuotientPositive(|samples|, k);
    hide Gpu.Start;
  }

  /** The buckets of the shader, in order. */
  function GpuBuckets(samples: seq<int16>, k: nat, m: nat): (bs: seq<seq<int16>>)
    requires 0 < k <= |samples| && m <= k
    ensures |bs| == m && forall id :: 0 <= id < m ==> bs[id] != []
  {
    if m == 0 then []
    else
      GpuBucketInside(samples, m - 1, k);
      GpuBuckets(samples, k, m - 1) + [Gpu.BucketOf(samples, m - 1, k)]
  }

  lemma {:induction false} GpuBucketsTile(samples: seq<int16>, k: nat, m: nat)
    requires 0 < k <= |samples| && m <= k
    ensures Gpu.Start(m, |samples|, k) <= |samples|
    ensures Concat(GpuBuckets(samples, k, m)) == samples[..Gpu.Start(m, |samples|, k)]
  {
    if m == 0 {
      Gpu.LastStart(|samples|, k);
    } else {
      hide Gpu.Start, Gpu.Size;
      GpuBucketsTile(samples, k, m - 1);
      GpuBucketInside(samples, m - 1, k);
      assert GpuBuckets(samples, k, m)[..m - 1] == GpuBuckets(samples, k, m - 1);
    }
  }

  /** What the shader writes: a (min, max) pair per bucket. */
  function PairOf(s: seq<int16>): (p: seq<int16>)
    requires s != []
    ensures p != [] && ExtentOf(p) == ExtentOf(s)
  {
    var e := ExtentOf(s);
    ExtentUnique(e, [e.lo, e.hi]);
    [e.lo, e.hi]
  }

  function PairsOf(bs: seq<seq<int16>>): (ps: seq<seq<int16>>)
    requires forall id :: 0 <= id < |bs| ==> bs[id] != []
    ensures |ps| == |bs| && forall id :: 0 <= id < |bs| ==> ps[id] == PairOf(bs[id])
  {
    seq(|bs|, id requires 0 <= id < |bs| => PairOf(bs[id]))
  }

  /** Over all buckets, shader and CPU report the same smallest and largest sample: those of the input. */
  lemma SameGlobalExtent(samples: seq<int16>, k: nat)
    requires 0 < k <= |samples|
    ensures var gpu := Concat(PairsOf(GpuBuckets(samples, k, k))); var cpu := Decimator.MinMax(samples, 2 * k);
            && gpu != [] && cpu != []
            && ExtentOf(gpu) == ExtentOf(cpu) == ExtentOf(samples)
  {
    var bs := GpuBuckets(samples, k, k);
    Decimator.MinMaxKeepsExtent(samples, 2 * k);
    GpuBucketsTile(samples, k, k);
    Gpu.LastStart(|samples|, k);
    hide ExtentOf, Concat, GpuBuckets, Decimator.MinMax, Gpu.Start, PairOf;
    forall id | 0 <= id < k
      ensures PairsOf(bs)[id] != [] && ExtentOf(PairsOf(bs)[id]) == ExtentOf(bs[id])
    {
    }
    Peaks.JoinedExtents(PairsOf(bs), bs);
    assert samples[..|samples|] == samples;
  }

  lemma {:induction false} GpuBucketAt(samples: seq<int16>, k: nat, m: nat, id: nat)
    requires 0 < k <= |samples| && id < m <= k
    ensures Gpu.Start(id, |samples|, k) + Gpu.Size(id, |samples|, k) <= |samples|
    ensures GpuBuckets(samples, k, m)[id] == Gpu.BucketOf(samples, id, k)
  {
    hide Gpu.Start, Gpu.Size;
    GpuBucketInside(samples, id, k);
    if id < m - 1 {
      GpuBucketAt(samples, k, m - 1, id);
      assert GpuBuckets(samples, k, m)[id] == GpuBuckets(samples, k, m - 1)[id];
    }
  }

  /** The two output slots of bucket id hold the pair p. */
  ghost predicate Holds(result: seq<int16>, id: nat, p: seq<int16>)
  {
    2 * id + 1 < |result| && p == [result[2 * id], result[2 * id + 1]]
  }

  lemma BucketFits(samples: seq<int16>, id: nat, k: nat)
    requires id < k
    ensures Gpu.Start(id, |samples|, k) + Gpu.Size(id, |samples|, k) <= |samples|
  {
    Gpu.BucketsMeet(id, |samples|, k);
    Gpu.StartMonotone(id + 1, k, |samples|, k);
    Gpu.LastStart(|samples|, k);
    hide Gpu.Start, Gpu.Size;
  }

  /** What the shader writes for a bucket; with more buckets than samples some are empty. */
  function ShaderPair(bucket: seq<int16>): (p: seq<int16>)
    ensures |p| == 2
  {
    if bucket == [] then [Gpu.SENTINEL.lo, Gpu.SENTINEL.hi] else [ExtentOf(bucket).lo, ExtentOf(bucket).hi]
  }

  function ShaderPairAt(samples: seq<int16>, id: nat, k: nat): (p: seq<int16>)
    requires id < k
    ensures |p| == 2
  {
    BucketFits(samples, id, k);
    ShaderPair(Gpu.BucketOf(samples, id, k))
  }

  function ShaderPairs(samples: seq<int16>, k: nat): (ps: seq<seq<int16>>)
    ensures |ps| == k && forall id :: 0 <= id < k ==> ps[id] == ShaderPairAt(samples, id, k)
  {
    seq(k, id requires 0 <= id < k => ShaderPairAt(samples, id, k))
  }

  /** With at least as many samples as buckets these are the extents of the non-empty buckets. */
  lemma PairsOfBuckets(samples: seq<int16>, k: nat)
    requires 0 < k <= |samples|
    ensures ShaderPairs(samples, k) == PairsOf(GpuBuckets(samples, k, k))
  {
    hide ExtentOf, Gpu.Start, Gpu.Size;
    forall id | 0 <= id < k
      ensures ShaderPairs(samples, k)[id] == PairsOf(GpuBuckets(samples, k, k))[id]
    {
      GpuBucketAt(samples, k, k, id);
    }
  }

  /**
   * decimate() on the device: all work groups, finishing in an arbitrary order, leave the pairs of the
   * buckets in bucket order. Without samples or buckets nothing is dispatched.
   */
  method Dispatch(samples: seq<int16>, k: nat) returns (result: array<int16>)
    requires |samples| < Gpu.UINT32 && k < Gpu.UINT32
    ensures fresh(result)
    ensures result[..] == if samples == [] then [] else Concat(ShaderPairs(samples, k))
  {
    if samples == [] || k == 0 {
      result := new int16[0];
      assert ShaderPairs(samples, 0) == [] && Concat([]) == [];
      return;
    }
    result := new int16[2 * k](_ => 0);
    hide *;
    ghost var pairs := ShaderPairs(samples, k);
    var pending := Gpu.Ids(k);
    while pending != {}
      invariant forall id :: id in pending ==> id < k
      invariant forall id: nat :: id < k && id !in pending ==> Holds(result[..], id, pairs[id])
      decreases pending
    {
      var id :| id in pending;
      var lo, hi := Gpu.WorkGroup(samples, id, k);
      ghost var before := result[..];
      result[2 * id], result[2 * id + 1] := lo, hi;
      PairWritten(samples, k, id, lo, hi);
      WriteHolds(before, result[..], id, lo, hi);
      pending := pending - {id};
    }
    AllHold(result[..], pairs);
  }

  lemma PairWritten(samples: seq<int16>, k: nat, id: nat, lo: int16, hi: int16)
    requires id < k && Gpu.Start(id, |samples|, k) + Gpu.Size(id, |samples|, k) <= |samples|
    requires var bucket := Gpu.BucketOf(samples, id, k);
             Extent(lo, hi) == if bucket == [] then Gpu.SENTINEL else ExtentOf(bucket)
    ensures ShaderPairs(samples, k)[id] == [lo, hi]
  {
    hide Gpu.Start, Gpu.Size, ExtentOf;
  }

  lemma WriteHolds(before: seq<int16>, after: seq<int16>, id: nat, lo: int16, hi: int16)
    requires 2 * id + 1 < |before| == |after| && after[2 * id] == lo && after[2 * id + 1] == hi
    requires forall i :: 0 <= i < |before| && i != 2 * id && i != 2 * id + 1 ==> after[i] == before[i]
    ensures Holds(after, id, [lo, hi])
    ensures forall other: nat, p :: other != id && Holds(before, other, p) ==> Holds(after, other, p)
  {
  }

  lemma AllHold(result: seq<int16>, pairs: seq<seq<int16>>)
    requires |result| == 2 * |pairs| && forall id :: 0 <= id < |pairs| ==> Holds(result, id, pairs[id])
    ensures result == Concat(pairs)
  {
    assert forall id :: 0 <= id < |pairs| ==> Holds(result, id, pairs[id]) && |pairs[id]| == 2;
    hide *;
    ConcatLength(pairs, 2);
    forall j | 0 <= j < |result|
      ensures result[j] == Concat(pairs)[j]
    {
      HoldsAt(result, pairs, j);
    }
  }

  lemma HoldsAt(result: seq<int16>, pairs: seq<seq<int16>>, j: nat)
    requires j < |result| == 2 * |pairs| == |Concat(pairs)|
    requires forall id :: 0 <= id < |pairs| ==> |pairs[id]| == 2
    requires Holds(result, j / 2, pairs[j / 2])
    ensures result[j] == Concat(pairs)[j]
  {
    hide Concat;
    var id := j / 2;
    ChannelOfConcat(pairs, 2, id);
    assert Channel(Concat(pairs), 2, id)[j - 2 * id] == pairs[id][j - 2 * id];
  }
}
