/** The compute shader: one work group of 256 threads per bucket, a strided scan and a tree reduction. */
module GpuMinMax {
  import opened Samples
  import Arith

  const THREADS: nat := 256
  const UINT32: nat := 0x1_0000_0000

  // ---- Bucket partition by quotient and remainder ----

  function Start(id: nat, total: nat, buckets: nat): nat
    requires buckets > 0
  {
    id * (total / buckets) + if id <= total % buckets then id else total % buckets
  }

  function Size(id: nat, total: nat, buckets: nat): nat
    requires buckets > 0
  {
    total / buckets + if id < total % buckets then 1 else 0
  }

  /** The shader gets the remainder by multiplying back; no 32-bit operation overflows for a bucket that exists. */
  lemma ShaderArithmetic(id: nat, total: nat, buckets: nat)
    requires 0 < buckets < UINT32 && total < UINT32 && id < buckets
    ensures total - (total / buckets) * buckets == total % buckets
    ensures (total / buckets) * buckets < UINT32 && id * (total / buckets) < UINT32
    ensures Start(id, total, buckets) < UINT32 && Start(id, total, buckets) + Size(id, total, buckets) <= total
  {
    Arith.DivModDef(total, buckets);
    BucketsMeet(id, total, buckets);
    StartMonotone(id + 1, buckets, total, buckets);
    LastStart(total, buckets);
  }

  /** Each bucket starts where the one before it ends. */
  lemma BucketsMeet(id: nat, total: nat, buckets: nat)
    requires buckets > 0
    ensures Start(id + 1, total, buckets) == Start(id, total, buckets) + Size(id, total, buckets)
  {
    Arith.MulAdd(id, 1, total / buckets);
  }

  /** Sizes are the quotient or one more, and the larger buckets come first: this decides the partition. */
  lemma LargerFirst(id: nat, total: nat, buckets: nat)
    requires buckets > 0
    ensures total / buckets <= Size(id, total, buckets) <= total / buckets + 1
    ensures Size(id + 1, total, buckets) <= Size(id, total, buckets)
    ensures Size(id, total, buckets) == total / buckets + 1 <==> id < total % buckets
  {
  }

  /** The buckets begin at 0 and end at total: together with BucketsMeet, they tile the input. */
  lemma LastStart(total: nat, buckets: nat)
    requires buckets > 0
    ensures Start(0, total, buckets) == 0 && Start(buckets, total, buckets) == total
  {
    Arith.DivModDef(total, buckets);
  }

  lemma {:induction false} StartMonotone(id: nat, id': nat, total: nat, buckets: nat)
    requires buckets > 0 && id <= id'
    ensures Start(id, total, buckets) <= Start(id', total, buckets)
    decreases id' - id
  {
    hide Start;
    if id < id' {
      BucketsMeet(id, total, buckets);
      StartMonotone(id + 1, id', total, buckets);
    }
  }

  /** A thread's loop index after its last iteration: the first one past the bucket. */
  function FinalIndex(lid: nat, size: nat): (i: nat)
    ensures i >= size && i >= lid && i % THREADS == lid % THREADS
    decreases size - lid
  {
    if lid >= size then lid else FinalIndex(lid + THREADS, size)
  }

  lemma {:induction false} FinalIndexBound(lid: nat, size: nat, limit: nat)
    requires limit % THREADS == 0 && lid < limit && size <= limit - THREADS
    ensures FinalIndex(lid, size) < limit
    decreases size - lid
  {
    if lid < size {
      FinalIndexBound(lid + THREADS, size, limit);
    }
  }

  lemma FinalIndexPastEnd(size: nat)
    requires UINT32 - THREADS < size < UINT32
    ensures FinalIndex(0, size) >= UINT32
  {
    var i := FinalIndex(0, size);
    assert i % 256 == 0;
    hide FinalIndex;
    assert i == 256 * (i / 256);
  }

  /** The 32-bit loop index overflows in no thread exactly when the bucket has at most 2^32 - 256 samples. */
  lemma IndexFitsIff(size: nat)
    requires size < UINT32
    ensures (forall lid :: 0 <= lid < THREADS ==> FinalIndex(lid, size) < UINT32) <==> size <= UINT32 - THREADS
  {
    if size <= UINT32 - THREADS {
      forall lid | 0 <= lid < THREADS
        ensures FinalIndex(lid, size) < UINT32
      {
        FinalIndexBound(lid, size, UINT32);
      }
    } else {
      FinalIndexPastEnd(size);
      assert FinalIndex(0, size) >= UINT32;
    }
  }

  // ---- One work group ----

  const SENTINEL := Extent(INT16_MAX, INT16_MIN)

  /** e bounds all of es and each end is attained. */
  ghost predicate IsJoin(e: Extent, es: seq<Extent>)
  {
    && (forall i :: 0 <= i < |es| ==> e.lo <= es[i].lo && es[i].hi <= e.hi)
    && (exists i :: 0 <= i < |es| && es[i].lo == e.lo)
    && (exists i :: 0 <= i < |es| && es[i].hi == e.hi)
  }

  /** e is what a thread has after scanning the bucket's indices congruent to lid below upTo. */
  ghost predicate IsStridedFold(e: Extent, bucket: seq<int16>, lid: nat, upTo: nat)
    requires upTo <= |bucket|
  {
    && (e.lo == INT16_MAX || e.lo in bucket)
    && (e.hi == INT16_MIN || e.hi in bucket)
    && forall j :: 0 <= j < upTo && j % THREADS == lid ==> e.lo <= bucket[j] <= e.hi
  }

  /** The strided loop of one thread. */
  method ScanThread(bucket: seq<int16>, lid: nat) returns (e: Extent)
    requires lid < THREADS
    ensures IsStridedFold(e, bucket, lid, |bucket|)
  {
    e := SENTINEL;
    var i := lid;
    while i < |bucket|
      invariant i % THREADS == lid && i >= lid
      invariant e.lo == INT16_MAX || e.lo in bucket
      invariant e.hi == INT16_MIN || e.hi in bucket
      invariant forall j :: 0 <= j < |bucket| && j < i && j % THREADS == lid ==> e.lo <= bucket[j] <= e.hi
    {
      ghost var before := e;
      e := Join(e, Extent(bucket[i], bucket[i]));
      forall j | 0 <= j < |bucket| && j < i + 256 && j % THREADS == lid
        ensures e.lo <= bucket[j] <= e.hi
      {
        assert j <= i;
      }
      i := i + 256;
    }
  }

  /** The local ids of n threads. */
  function Ids(n: nat): (s: set<nat>)
    ensures forall lid: nat :: lid in s <==> lid < n
  {
    if n == 0 then {} else Ids(n - 1) + {n - 1}
  }

  /** Up to the first barrier: the threads write their slots in an arbitrary order. */
  method ScanAll(bucket: seq<int16>, shared: array<Extent>)
    requires shared.Length == THREADS
    modifies shared
    ensures forall lid :: 0 <= lid < THREADS ==> IsStridedFold(shared[lid], bucket, lid, |bucket|)
  {
    var pending := Ids(THREADS);
    while pending != {}
      invariant forall lid :: lid in pending ==> lid < THREADS
      invariant forall lid :: 0 <= lid < THREADS && lid !in pending ==>
        IsStridedFold(shared[lid], bucket, lid, |bucket|)
      decreases pending
    {
      var lid :| lid in pending;
      var e := ScanThread(bucket, lid);
      shared[lid] := e;
      pending := pending - {lid};
    }
  }

  /**
   * One halving step between two barriers. Threads below the stride read two slots and then write
   * one, interleaved arbitrarily; no thread reads a slot that another one writes.
   */
  method TreeStep(shared: array<Extent>, stride: nat)
    requires shared.Length == THREADS && 2 * stride <= THREADS
    modifies shared
    ensures forall lid :: 0 <= lid < stride ==> shared[lid] == Join(old(shared[lid]), old(shared[lid + stride]))
    ensures forall i :: stride <= i < THREADS ==> shared[i] == old(shared[i])
  {
    hide Join;
    var pending := Ids(stride);
    var loaded: set<nat> := {};
    var registers: map<nat, Extent> := map[];
    ghost var before := shared[..];
    while pending != {}
      invariant loaded <= pending && forall lid :: lid in pending ==> lid < stride
      invariant HalvedExcept(before, shared[..], stride, pending)
      invariant Loaded(before, stride, loaded, registers)
      decreases pending, pending - loaded
    {
      if {
        case pending - loaded != {} =>
          var lid :| lid in pending - loaded;
          SlotsOf(before, shared[..], stride, pending, lid);
          LoadOne(before, stride, loaded, registers, lid);
          registers := registers[lid := Join(shared[lid], shared[lid + stride])];
          loaded := loaded + {lid};
        case loaded != {} =>
          var lid :| lid in loaded;
          WriteOne(before, shared[..], stride, pending, loaded, registers, lid);
          ghost var now := shared[..];
          shared[lid] := registers[lid];
          assert shared[..] == now[lid := registers[lid]];
          pending, loaded := pending - {lid}, loaded - {lid};
      }
    }
    HalvingDone(before, shared[..], stride);
  }

  /** Slot i once every thread outside pending has written. */
  function SlotAfter(before: seq<Extent>, stride: nat, pending: set<nat>, i: nat): Extent
    requires |before| == THREADS && 2 * stride <= THREADS && i < THREADS
  {
    if i < stride && i !in pending then Join(before[i], before[i + stride]) else before[i]
  }

  ghost predicate HalvedExcept(before: seq<Extent>, now: seq<Extent>, stride: nat, pending: set<nat>)
  {
    && |before| == |now| == THREADS && 2 * stride <= THREADS
    && forall i: nat :: i < THREADS ==> now[i] == SlotAfter(before, stride, pending, i)
  }

  /** The threads that have read hold the join of two slots that are still untouched. */
  ghost predicate Loaded(before: seq<Extent>, stride: nat, loaded: set<nat>, registers: map<nat, Extent>)
    requires |before| == THREADS && 2 * stride <= THREADS
  {
    forall lid :: lid in loaded ==>
      lid < stride && lid in registers && registers[lid] == Join(before[lid], before[lid + stride])
  }

  lemma SlotsOf(before: seq<Extent>, now: seq<Extent>, stride: nat, pending: set<nat>, lid: nat)
    requires HalvedExcept(before, now, stride, pending) && lid in pending && lid < stride
    ensures now[lid] == before[lid] && now[lid + stride] == before[lid + stride]
  {
    assert now[lid + stride] == SlotAfter(before, stride, pending, lid + stride);
  }

  lemma LoadOne(before: seq<Extent>, stride: nat, loaded: set<nat>, registers: map<nat, Extent>, lid: nat)
    requires |before| == THREADS && 2 * stride <= THREADS && lid < stride
    requires Loaded(before, stride, loaded, registers)
    ensures Loaded(before, stride, loaded + {lid}, registers[lid := Join(before[lid], before[lid + stride])])
  {
  }

  lemma WriteOne(before: seq<Extent>, now: seq<Extent>, stride: nat, pending: set<nat>, loaded: set<nat>,
                 registers: map<nat, Extent>, lid: nat)
    requires HalvedExcept(before, now, stride, pending)
    requires Loaded(before, stride, loaded, registers) && lid in loaded && loaded <= pending
    ensures lid < |now| == THREADS && lid in registers
    ensures HalvedExcept(before, now[lid := registers[lid]], stride, pending - {lid})
    ensures Loaded(before, stride, loaded - {lid}, registers)
  {
    assert registers[lid] == SlotAfter(before, stride, pending - {lid}, lid);
  }

  lemma HalvingDone(before: seq<Extent>, now: seq<Extent>, stride: nat)
    requires HalvedExcept(before, now, stride, {})
    ensures forall lid :: 0 <= lid < stride ==> now[lid] == Join(before[lid], before[lid + stride])
    ensures forall i :: stride <= i < THREADS ==> now[i] == before[i]
  {
  }

  /** Halving keeps the join of the slots that still matter. */
  lemma HalvingKeepsJoin(e: Extent, before: seq<Extent>, after: seq<Extent>, stride: nat)
    requires |before| == 2 * stride && |after| == stride && IsJoin(e, before)
    requires forall i :: 0 <= i < stride ==> after[i] == Join(before[i], before[i + stride])
    ensures IsJoin(e, after)
  {
    var i :| 0 <= i < |before| && before[i].lo == e.lo;
    var j :| 0 <= j < |before| && before[j].hi == e.hi;
    forall k | 0 <= k < stride
      ensures e.lo <= after[k].lo && after[k].hi <= e.hi
    {
      assert after[k] == Join(before[k], before[k + stride]);
    }
    var i', j' := if i < stride then i else i - stride, if j < stride then j else j - stride;
    assert after[i'] == Join(before[i'], before[i' + stride]);
    assert after[j'] == Join(before[j'], before[j' + stride]);
    assert after[i'].lo == e.lo && after[j'].hi == e.hi;
  }

  /** The strided folds of all threads join to the extent of a non-empty bucket. */
  lemma FoldsJoin(es: seq<Extent>, bucket: seq<int16>)
    requires |es| == THREADS && bucket != []
    requires forall lid :: 0 <= lid < THREADS ==> IsStridedFold(es[lid], bucket, lid, |bucket|)
    ensures IsJoin(ExtentOf(bucket), es)
  {
    var e := ExtentOf(bucket);
    var i :| 0 <= i < |bucket| && bucket[i] == e.lo;
    var j :| 0 <= j < |bucket| && bucket[j] == e.hi;
    forall lid | 0 <= lid < THREADS
      ensures e.lo <= es[lid].lo && es[lid].hi <= e.hi
    {
      assert IsStridedFold(es[lid], bucket, lid, |bucket|);
    }
    assert IsStridedFold(es[i % THREADS], bucket, i % THREADS, |bucket|);
    assert IsStridedFold(es[j % THREADS], bucket, j % THREADS, |bucket|);
    assert es[i % THREADS].lo == e.lo && es[j % THREADS].hi == e.hi;
  }

  /** A whole work group writes the exact extent of its bucket, for every thread schedule. */
  method WorkGroup(samples: seq<int16>, id: nat, buckets: nat) returns (lo: int16, hi: int16)
    requires id < buckets && |samples| < UINT32 && buckets < UINT32
    ensures Start(id, |samples|, buckets) + Size(id, |samples|, buckets) <= |samples|
    ensures var bucket := BucketOf(samples, id, buckets);
            Extent(lo, hi) == if bucket == [] then SENTINEL else ExtentOf(bucket)
  {
    hide Start, Size, ExtentOf;
    ShaderArithmetic(id, |samples|, buckets);
    var bucket := BucketOf(samples, id, buckets);
    var shared := new Extent[THREADS](_ => SENTINEL);
    ScanAll(bucket, shared);
    ghost var e := if bucket == [] then SENTINEL else ExtentOf(bucket);
    InitialJoin(shared[..], bucket, e);
    ReduceTree(shared, e);
    lo, hi := shared[0].lo, shared[0].hi;
    OnlyJoin(e, shared[0]);
  }

  /** The halving loop: the first slot ends up as the join of all. */
  method ReduceTree(shared: array<Extent>, ghost e: Extent)
    requires shared.Length == THREADS && IsJoin(e, shared[..THREADS])
    modifies shared
    ensures IsJoin(e, [shared[0]])
  {
    hide IsJoin, IsStride, Join;
    var stride: nat := 128;
    StartStride();
    while stride > 0
      invariant IsStride(stride) && Live(stride) <= THREADS
      invariant IsJoin(e, shared[..Live(stride)])
    {
      StrideHalves(stride);
      ghost var before := shared[..2 * stride];
      TreeStep(shared, stride);
      HalvingKeepsJoin(e, before, shared[..stride], stride);
      stride := stride / 2;
    }
    assert shared[..1] == [shared[0]];
  }

  predicate IsStride(s: nat) { s in {128, 64, 32, 16, 8, 4, 2, 1, 0} }

  /** How many slots still matter before a step with this stride. */
  function Live(stride: nat): nat { if stride == 0 then 1 else 2 * stride }

  lemma StartStride()
    ensures IsStride(128)
  {
  }

  lemma StrideHalves(s: nat)
    requires IsStride(s) && s > 0
    ensures IsStride(s / 2) && Live(s / 2) == s && 2 * s <= THREADS
  {
  }

  lemma OnlyJoin(e: Extent, f: Extent)
    requires IsJoin(e, [f])
    ensures e == f
  {
  }

  lemma InitialJoin(es: seq<Extent>, bucket: seq<int16>, e: Extent)
    requires |es| == THREADS && forall lid :: 0 <= lid < THREADS ==> IsStridedFold(es[lid], bucket, lid, |bucket|)
    requires bucket == [] ==> e == SENTINEL
    requires bucket != [] ==> e == ExtentOf(bucket)
    ensures IsJoin(e, es[..256])
  {
    assert es[..256] == es;
    if bucket == [] {
      assert forall lid :: 0 <= lid < THREADS ==> IsStridedFold(es[lid], bucket, lid, |bucket|) && es[lid] == SENTINEL;
      assert es[0] == SENTINEL;
    } else {
      FoldsJoin(es, bucket);
    }
  }

  /** The samples of one bucket. */
  function BucketOf(samples: seq<int16>, id: nat, buckets: nat): (s: seq<int16>)
    requires buckets > 0 && Start(id, |samples|, buckets) + Size(id, |samples|, buckets) <= |samples|
    ensures |s| == Size(id, |samples|, buckets)
  {
    samples[Start(id, |samples|, buckets)..Start(id, |samples|, buckets) + Size(id, |samples|, buckets)]
  }
}
