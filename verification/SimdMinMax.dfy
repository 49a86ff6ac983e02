/** The SSE2 form of MinMax decimation: eight lanes at a time, then a shuffle-based reduction. */
module SimdMinMax {
  import opened Samples
  import opened Decimator

  type Lanes = v: seq<int16> | |v| == 8 witness [0, 0, 0, 0, 0, 0, 0, 0]

  type Pick = n: nat | n < 4

  function Set1(x: int16): Lanes { [x, x, x, x, x, x, x, x] }

  function Lesser(a: int16, b: int16): int16 { if a <= b then a else b }

  function Greater(a: int16, b: int16): int16 { if a >= b then a else b }

  function MinLanes(a: Lanes, b: Lanes): Lanes
  {
    [Lesser(a[0], b[0]), Lesser(a[1], b[1]), Lesser(a[2], b[2]), Lesser(a[3], b[3]),
     Lesser(a[4], b[4]), Lesser(a[5], b[5]), Lesser(a[6], b[6]), Lesser(a[7], b[7])]
  }

  function MaxLanes(a: Lanes, b: Lanes): Lanes
  {
    [Greater(a[0], b[0]), Greater(a[1], b[1]), Greater(a[2], b[2]), Greater(a[3], b[3]),
     Greater(a[4], b[4]), Greater(a[5], b[5]), Greater(a[6], b[6]), Greater(a[7], b[7])]
  }

  // The shuffle controls are given as in _MM_SHUFFLE(z, y, x, w): w selects for the lowest place.

  /** _mm_shuffle_epi32: permutes the four 32-bit pairs of lanes. */
  function Shuffle32(v: Lanes, z: Pick, y: Pick, x: Pick, w: Pick): Lanes
  {
    [v[2 * w], v[2 * w + 1], v[2 * x], v[2 * x + 1], v[2 * y], v[2 * y + 1], v[2 * z], v[2 * z + 1]]
  }

  /** _mm_shufflelo_epi16: permutes the four low lanes. */
  function ShuffleLo(v: Lanes, z: Pick, y: Pick, x: Pick, w: Pick): Lanes
  {
    [v[w], v[x], v[y], v[z], v[4], v[5], v[6], v[7]]
  }

  /** _mm_shufflehi_epi16: permutes the four high lanes. */
  function ShuffleHi(v: Lanes, z: Pick, y: Pick, x: Pick, w: Pick): Lanes
  {
    [v[0], v[1], v[2], v[3], v[4 + w], v[4 + x], v[4 + y], v[4 + z]]
  }

  // Each step compares a half with the other half: eight lanes to four, to two, to one.

  function MinFour(v: Lanes): Lanes { MinLanes(v, ShuffleHi(Shuffle32(v, 1, 0, 3, 2), 1, 0, 3, 2)) }

  function MinTwo(v: Lanes): Lanes { MinLanes(v, ShuffleLo(v, 1, 0, 3, 2)) }

  function MinOne(v: Lanes): Lanes { MinLanes(v, ShuffleLo(v, 0, 1, 0, 1)) }

  function MaxFour(v: Lanes): Lanes { MaxLanes(v, ShuffleHi(Shuffle32(v, 1, 0, 3, 2), 1, 0, 3, 2)) }

  function MaxTwo(v: Lanes): Lanes { MaxLanes(v, ShuffleLo(v, 1, 0, 3, 2)) }

  function MaxOne(v: Lanes): Lanes { MaxLanes(v, ShuffleLo(v, 0, 1, 0, 1)) }

  function HMin(v: Lanes): int16 { MinOne(MinTwo(MinFour(v)))[0] }

  function HMax(v: Lanes): int16 { MaxOne(MaxTwo(MaxFour(v)))[0] }

  lemma MinSteps(v: Lanes)
    ensures MinFour(v)[0] == Lesser(v[0], v[4]) && MinFour(v)[1] == Lesser(v[1], v[5])
    ensures MinFour(v)[2] == Lesser(v[2], v[6]) && MinFour(v)[3] == Lesser(v[3], v[7])
    ensures MinTwo(v)[0] == Lesser(v[0], v[2]) && MinTwo(v)[1] == Lesser(v[1], v[3])
    ensures MinOne(v)[0] == Lesser(v[0], v[1])
  {
    hide Lesser;
  }

  lemma MaxSteps(v: Lanes)
    ensures MaxFour(v)[0] == Greater(v[0], v[4]) && MaxFour(v)[1] == Greater(v[1], v[5])
    ensures MaxFour(v)[2] == Greater(v[2], v[6]) && MaxFour(v)[3] == Greater(v[3], v[7])
    ensures MaxTwo(v)[0] == Greater(v[0], v[2]) && MaxTwo(v)[1] == Greater(v[1], v[3])
    ensures MaxOne(v)[0] == Greater(v[0], v[1])
  {
    hide Greater;
  }

  /** hmin_epi16 returns the least of the eight lanes. */
  lemma HMinIsLeast(v: Lanes)
    ensures HMin(v) in v && forall l :: 0 <= l < 8 ==> HMin(v) <= v[l]
  {
    HMinUnfolds(v);
    hide HMin, Lesser;
    LeastOfFour(Lesser(v[0], v[4]), Lesser(v[2], v[6]), Lesser(v[1], v[5]), Lesser(v[3], v[7]));
    LeastOfTwo(v[0], v[4]);
    LeastOfTwo(v[2], v[6]);
    LeastOfTwo(v[1], v[5]);
    LeastOfTwo(v[3], v[7]);
    var l :| 0 <= l < 8 && HMin(v) == v[l];
  }

  lemma HMinUnfolds(v: Lanes)
    ensures HMin(v) ==
            Lesser(Lesser(Lesser(v[0], v[4]), Lesser(v[2], v[6])), Lesser(Lesser(v[1], v[5]), Lesser(v[3], v[7])))
  {
    hide Lesser, MinFour, MinTwo, MinOne;
    MinSteps(v);
    MinSteps(MinFour(v));
    MinSteps(MinTwo(MinFour(v)));
  }

  lemma LeastOfTwo(a: int16, b: int16)
    ensures Lesser(a, b) <= a && Lesser(a, b) <= b && (Lesser(a, b) == a || Lesser(a, b) == b)
  {
  }

  lemma LeastOfFour(a: int16, b: int16, c: int16, d: int16)
    ensures var m := Lesser(Lesser(a, b), Lesser(c, d));
            m <= a && m <= b && m <= c && m <= d && (m == a || m == b || m == c || m == d)
  {
  }

  /** hmax_epi16 returns the greatest of the eight lanes. */
  lemma HMaxIsGreatest(v: Lanes)
    ensures HMax(v) in v && forall l :: 0 <= l < 8 ==> v[l] <= HMax(v)
  {
    HMaxUnfolds(v);
    hide HMax, Greater;
    GreatestOfFour(Greater(v[0], v[4]), Greater(v[2], v[6]), Greater(v[1], v[5]), Greater(v[3], v[7]));
    GreatestOfTwo(v[0], v[4]);
    GreatestOfTwo(v[2], v[6]);
    GreatestOfTwo(v[1], v[5]);
    GreatestOfTwo(v[3], v[7]);
    var l :| 0 <= l < 8 && HMax(v) == v[l];
  }

  lemma HMaxUnfolds(v: Lanes)
    ensures HMax(v) ==
            Greater(Greater(Greater(v[0], v[4]), Greater(v[2], v[6])),
                    Greater(Greater(v[1], v[5]), Greater(v[3], v[7])))
  {
    hide Greater, MaxFour, MaxTwo, MaxOne;
    MaxSteps(v);
    MaxSteps(MaxFour(v));
    MaxSteps(MaxTwo(MaxFour(v)));
  }

  lemma GreatestOfTwo(a: int16, b: int16)
    ensures Greater(a, b) >= a && Greater(a, b) >= b && (Greater(a, b) == a || Greater(a, b) == b)
  {
  }

  lemma GreatestOfFour(a: int16, b: int16, c: int16, d: int16)
    ensures var m := Greater(Greater(a, b), Greater(c, d));
            m >= a && m >= b && m >= c && m >= d && (m == a || m == b || m == c || m == d)
  {
  }

  /** lo is what a minimum scan started from its sentinel holds after s; MaxFold is its counterpart. */
  ghost predicate MinFold(lo: int16, s: seq<int16>)
  {
    (lo == INT16_MAX || lo in s) && forall j :: 0 <= j < |s| ==> lo <= s[j]
  }

  ghost predicate MaxFold(hi: int16, s: seq<int16>)
  {
    (hi == INT16_MIN || hi in s) && forall j :: 0 <= j < |s| ==> s[j] <= hi
  }

  lemma StartFolds()
    ensures MinFold(HMin(Set1(INT16_MAX)), []) && MaxFold(HMax(Set1(INT16_MIN)), [])
  {
    hide HMin, HMax;
    HMinIsLeast(Set1(INT16_MAX));
    HMaxIsGreatest(Set1(INT16_MIN));
  }

  /** Absorbing one vector of samples into the accumulator keeps it a fold of what was seen. */
  lemma AbsorbMin(acc: Lanes, seen: seq<int16>, v: Lanes)
    requires MinFold(HMin(acc), seen)
    ensures MinFold(HMin(MinLanes(acc, v)), seen + v)
  {
    var lo := HMin(MinLanes(acc, v));
    LanesBelow(acc, v);
    hide HMin, MinLanes;
    forall j | 0 <= j < |seen + v|
      ensures lo <= (seen + v)[j]
    {
      if j >= |seen| {
        assert (seen + v)[j] == v[j - |seen|];
      }
    }
    InEither(seen, v, lo);
  }

  lemma AbsorbMax(acc: Lanes, seen: seq<int16>, v: Lanes)
    requires MaxFold(HMax(acc), seen)
    ensures MaxFold(HMax(MaxLanes(acc, v)), seen + v)
  {
    var hi := HMax(MaxLanes(acc, v));
    LanesAbove(acc, v);
    hide HMax, MaxLanes;
    forall j | 0 <= j < |seen + v|
      ensures (seen + v)[j] <= hi
    {
      if j >= |seen| {
        assert (seen + v)[j] == v[j - |seen|];
      }
    }
    InEither(seen, v, hi);
  }

  lemma LanesBelow(a: Lanes, v: Lanes)
    ensures HMin(MinLanes(a, v)) <= HMin(a)
    ensures HMin(MinLanes(a, v)) == HMin(a) || HMin(MinLanes(a, v)) in v
    ensures forall l :: 0 <= l < 8 ==> HMin(MinLanes(a, v)) <= v[l]
  {
    hide HMin;
    var m := MinLanes(a, v);
    HMinIsLeast(a);
    HMinIsLeast(m);
    assert forall l :: 0 <= l < 8 ==> m[l] <= v[l];
    var l :| 0 <= l < 8 && m[l] == HMin(m);
    var k :| 0 <= k < 8 && a[k] == HMin(a);
    assert m[k] <= a[k];
    assert m[l] == a[l] || m[l] == v[l];
  }

  lemma LanesAbove(a: Lanes, v: Lanes)
    ensures HMax(MaxLanes(a, v)) >= HMax(a)
    ensures HMax(MaxLanes(a, v)) == HMax(a) || HMax(MaxLanes(a, v)) in v
    ensures forall l :: 0 <= l < 8 ==> v[l] <= HMax(MaxLanes(a, v))
  {
    hide HMax;
    var m := MaxLanes(a, v);
    HMaxIsGreatest(a);
    HMaxIsGreatest(m);
    assert forall l :: 0 <= l < 8 ==> m[l] >= v[l];
    var l :| 0 <= l < 8 && m[l] == HMax(m);
    var k :| 0 <= k < 8 && a[k] == HMax(a);
    assert m[k] >= a[k];
    assert m[l] == a[l] || m[l] == v[l];
  }

  lemma InEither(s: seq<int16>, t: seq<int16>, x: int16)
    ensures x in s || x in t ==> x in s + t
  {
  }

  /** The vectors of a bucket from i on are absorbed: one vector more. */
  lemma AbsorbNext(vmin: Lanes, vmax: Lanes, bucket: seq<int16>, i: nat, v: Lanes)
    requires i + 8 <= |bucket| && v == bucket[i..i + 8]
    requires MinFold(HMin(vmin), bucket[..i]) && MaxFold(HMax(vmax), bucket[..i])
    ensures MinFold(HMin(MinLanes(vmin, v)), bucket[..i + 8]) && MaxFold(HMax(MaxLanes(vmax, v)), bucket[..i + 8])
  {
    assert bucket[..i] + v == bucket[..i + 8];
    hide *;
    AbsorbMin(vmin, bucket[..i], v);
    AbsorbMax(vmax, bucket[..i], v);
  }

  lemma TailStep(lo: int16, hi: int16, s: seq<int16>, x: int16)
    requires MinFold(lo, s) && MaxFold(hi, s)
    ensures MinFold(if x < lo then x else lo, s + [x]) && MaxFold(if x > hi then x else hi, s + [x])
  {
  }

  lemma BothFolds(lo: int16, hi: int16, s: seq<int16>)
    requires MinFold(lo, s) && MaxFold(hi, s)
    ensures IsFold(lo, hi, s)
  {
  }

  /** One bucket: the 16-wide loop, the 8-wide loop, the reduction and the scalar tail. */
  method ReduceBucket(bucket: seq<int16>) returns (e: Extent)
    requires bucket != []
    ensures e == ExtentOf(bucket)
  {
    hide *;
    var len := |bucket|;
    var vmin, vmax := Set1(INT16_MAX), Set1(INT16_MIN);
    var i := 0;
    StartFolds();
    assert bucket[..0] == [];
    while i + 15 < len
      invariant 0 <= i <= len
      invariant MinFold(HMin(vmin), bucket[..i]) && MaxFold(HMax(vmax), bucket[..i])
    {
      var v0, v1 := bucket[i..i + 8], bucket[i + 8..i + 16];
      AbsorbNext(vmin, vmax, bucket, i, v0);
      AbsorbNext(MinLanes(vmin, v0), MaxLanes(vmax, v0), bucket, i + 8, v1);
      vmin := MinLanes(vmin, v0);
      vmin := MinLanes(vmin, v1);
      vmax := MaxLanes(vmax, v0);
      vmax := MaxLanes(vmax, v1);
      i := i + 16;
    }
    while i + 7 < len
      invariant 0 <= i <= len
      invariant MinFold(HMin(vmin), bucket[..i]) && MaxFold(HMax(vmax), bucket[..i])
    {
      var v := bucket[i..i + 8];
      AbsorbNext(vmin, vmax, bucket, i, v);
      vmin, vmax := MinLanes(vmin, v), MaxLanes(vmax, v);
      i := i + 8;
    }
    var lo, hi := ScalarTail(bucket, i, HMin(vmin), HMax(vmax));
    BothFolds(lo, hi, bucket);
    FoldIsExtent(lo, hi, bucket);
    e := Extent(lo, hi);
  }

  method ScalarTail(bucket: seq<int16>, from: nat, least: int16, greatest: int16) returns (lo: int16, hi: int16)
    requires from <= |bucket| && MinFold(least, bucket[..from]) && MaxFold(greatest, bucket[..from])
    ensures MinFold(lo, bucket) && MaxFold(hi, bucket)
  {
    hide MinFold, MaxFold;
    lo, hi := least, greatest;
    var i := from;
    while i < |bucket|
      invariant from <= i <= |bucket|
      invariant MinFold(lo, bucket[..i]) && MaxFold(hi, bucket[..i])
    {
      var v := bucket[i];
      TailStep(lo, hi, bucket[..i], v);
      assert bucket[..i + 1] == bucket[..i] + [v];
      if v < lo { lo := v; }
      if v > hi { hi := v; }
      i := i + 1;
    }
    assert bucket[..i] == bucket;
  }

  /** The SIMD implementation returns exactly what the scalar one does, for every input and target. */
  method MinMaxSimd(input: seq<int16>, target: nat) returns (output: seq<int16>)
    ensures output == MinMax(input, target)
  {
    if target < 2 { return []; }
    if |input| <= target { return input; }
    var numBuckets, n := target / 2, |input|;
    output := [];
    for b := 0 to numBuckets
      invariant output == Flatten(Extents(input, numBuckets, b))
    {
      hide Bound;
      var start, end := Bound(b, n, numBuckets), Bound(b + 1, n, numBuckets);
      BucketInside(b, n, numBuckets);
      var e := ReduceBucket(input[start..end]);
      ExtendFlatten(input, numBuckets, b, e);
      output := output + [e.lo, e.hi];
    }
  }
}
