/** Decimator::lttb in exact arithmetic: largest-triangle-three-buckets index selection. */
module Lttb {
  import opened Samples
  import Arith
  import Decimator

  /** 1 + floor(b * bucket_size), the first index of bucket b. */
  function Edge(b: nat, n: nat, numBuckets: nat): int
    requires n > 2 && numBuckets > 0
  {
    1 + (b as real * ((n - 2) as real / numBuckets as real)).Floor
  }

  lemma FloorUnique(x: real, q: int)
    requires q as real <= x < q as real + 1.0
    ensures x.Floor == q
  {
  }

  lemma ScaledQuotient(b: real, m: real, k: real, q: real, r: real)
    requires k > 0.0 && b * m == q * k + r && 0.0 <= r < k
    ensures q <= b * (m / k) < q + 1.0
  {
    var d := m / k;
    assert d * k == m;
    ScaleReal(b, d, q, k, r);
  }

  lemma ScaleReal(b: real, d: real, q: real, k: real, r: real)
    requires k > 0.0 && b * (d * k) == q * k + r && 0.0 <= r < k
    ensures q <= b * d < q + 1.0
  {
    var x := b * d - q;
    assert x * k == r by {
      calc {
        x * k;
        (b * d) * k - q * k;
        b * (d * k) - q * k;
      }
    }
    BetweenZeroAndOne(x, k);
  }

  lemma BetweenZeroAndOne(x: real, k: real)
    requires k > 0.0 && 0.0 <= x * k < k
    ensures 0.0 <= x < 1.0
  {
    if x < 0.0 {
      NegativeProduct(x, k);
    } else if x >= 1.0 {
      LargeProduct(x, k);
    }
  }

  lemma NegativeProduct(x: real, k: real)
    requires x < 0.0 < k
    ensures x * k < 0.0
  {
  }

  lemma LargeProduct(x: real, k: real)
    requires k > 0.0 && x >= 1.0
    ensures x * k >= k
  {
  }

  /** The floating-point bucket boundaries, in exact arithmetic, are the integer ones of n-2 samples. */
  lemma EdgeIsBound(b: nat, n: nat, numBuckets: nat)
    requires n > 2 && numBuckets > 0
    ensures Edge(b, n, numBuckets) == 1 + Decimator.Bound(b, n - 2, numBuckets)
  {
    var q, r := b * (n - 2) / numBuckets, b * (n - 2) % numBuckets;
    Arith.DivModDef(b * (n - 2), numBuckets);
    RealProduct(b, n - 2);
    RealProduct(q, numBuckets);
    ScaledQuotient(b as real, (n - 2) as real, numBuckets as real, q as real, r as real);
    FloorUnique(b as real * ((n - 2) as real / numBuckets as real), q);
  }

  lemma RealProduct(a: int, b: int)
    ensures a as real * b as real == (a * b) as real
  {
  }

  /** The buckets tile indices 1 to n-2, and none of them is empty. */
  lemma EdgesTile(b: nat, n: nat, numBuckets: nat)
    requires 0 < numBuckets <= n - 2 && b < numBuckets
    ensures 1 <= Edge(b, n, numBuckets) < Edge(b + 1, n, numBuckets) <= n - 1
    ensures Edge(0, n, numBuckets) == 1 && Edge(numBuckets, n, numBuckets) == n - 1
  {
    EdgeIsBound(b, n, numBuckets);
    EdgeIsBound(b + 1, n, numBuckets);
    EdgeIsBound(0, n, numBuckets);
    EdgeIsBound(numBuckets, n, numBuckets);
    hide Edge, Decimator.Bound;
    Decimator.BucketInside(b, n - 2, numBuckets);
    Decimator.BoundEnds(n - 2, numBuckets);
  }

  datatype Point = Point(x: real, y: real)

  function Abs(r: real): real { if r < 0.0 then -r else r }

  /** The sum under the absolute value in the code. */
  function Shoelace(px: real, py: real, cx: real, cy: real, ax: real, ay: real): real
  {
    px * (cy - ay) + cx * (ay - py) + ax * (py - cy)
  }

  /** Twice the area of the triangle p, c, a, as the code computes it. */
  function Area(p: Point, c: Point, a: Point): (r: real)
    ensures r >= 0.0
  {
    Abs(Shoelace(p.x, p.y, c.x, c.y, a.x, a.y))
  }

  function CrossProduct(ux: real, uy: real, vx: real, vy: real): real
  {
    ux * vy - vx * uy
  }

  /** The code's sum is the cross product of two sides of the triangle. */
  lemma ShoelaceIsCross(px: real, py: real, cx: real, cy: real, ax: real, ay: real)
    ensures Shoelace(px, py, cx, cy, ax, ay) == CrossProduct(cx - px, cy - py, ax - px, ay - py)
  {
    assert (cx - px) * (ay - py) == cx * (ay - py) - px * ay + px * py;
    assert (ax - px) * (cy - py) == ax * (cy - py) - px * cy + px * py;
    assert px * (cy - ay) == px * cy - px * ay;
    assert ax * (py - cy) == -(ax * (cy - py));
  }

  /** So what is maximised is the triangle's area. */
  lemma AreaIsTriangle(p: Point, c: Point, a: Point)
    ensures Area(p, c, a) == Abs(CrossProduct(c.x - p.x, c.y - p.y, a.x - p.x, a.y - p.y))
  {
    hide Shoelace, CrossProduct;
    ShoelaceIsCross(p.x, p.y, c.x, c.y, a.x, a.y);
  }

  function At(data: seq<int16>, i: nat): Point
    requires i < |data|
  {
    Point(i as real, data[i] as real)
  }

  function SumX(lo: nat, hi: nat): real
    requires lo <= hi
  {
    if lo == hi then 0.0 else SumX(lo, hi - 1) + (hi - 1) as real
  }

  function SumY(data: seq<int16>, lo: nat, hi: nat): real
    requires lo <= hi <= |data|
  {
    if lo == hi then 0.0 else SumY(data, lo, hi - 1) + data[hi - 1] as real
  }

  /** The mean point of indices lo to hi - 1; for an empty range the code falls back on sample lo. */
  function Mean(data: seq<int16>, lo: nat, hi: nat): Point
    requires lo <= hi <= |data| && lo < |data|
  {
    if lo < hi then Point(SumX(lo, hi) / (hi - lo) as real, SumY(data, lo, hi) / (hi - lo) as real)
    else At(data, lo)
  }

  /** r is the first index in [lo, hi) whose triangle with p and a is largest. */
  ghost predicate FirstLargest(data: seq<int16>, lo: nat, hi: nat, p: Point, a: Point, r: nat)
  {
    && lo <= r < hi <= |data|
    && (forall i :: lo <= i < hi ==> Area(p, At(data, i), a) <= Area(p, At(data, r), a))
    && (forall i :: lo <= i < r ==> Area(p, At(data, i), a) < Area(p, At(data, r), a))
  }

  lemma FirstLargestUnique(data: seq<int16>, lo: nat, hi: nat, p: Point, a: Point, r: nat, r': nat)
    requires FirstLargest(data, lo, hi, p, a, r) && FirstLargest(data, lo, hi, p, a, r')
    ensures r == r'
  {
    hide Area;
    assert Area(p, At(data, r), a) == Area(p, At(data, r'), a);
  }

  /** The point the triangles of bucket b lean towards: the next bucket's mean, or the last sample. */
  function Target(data: seq<int16>, numBuckets: nat, b: nat): Point
    requires 0 < numBuckets <= |data| - 2 && b < numBuckets
  {
    if b + 1 < numBuckets then
      EdgesTile(b + 1, |data|, numBuckets);
      Mean(data, Edge(b + 1, |data|, numBuckets), Edge(b + 2, |data|, numBuckets))
    else At(data, |data| - 1)
  }

  /** pick is the choice for bucket b when prev was chosen before it. */
  ghost predicate IsPick(data: seq<int16>, numBuckets: nat, b: nat, prev: nat, pick: nat)
    requires 0 < numBuckets <= |data| - 2 && b < numBuckets
  {
    && prev < |data|
    && 0 <= Edge(b, |data|, numBuckets) && 0 <= Edge(b + 1, |data|, numBuckets)
    && FirstLargest(data, Edge(b, |data|, numBuckets), Edge(b + 1, |data|, numBuckets),
                    At(data, prev), Target(data, numBuckets, b), pick)
  }

  function Prev(picks: seq<nat>, b: nat): nat
    requires b <= |picks|
  {
    if b == 0 then 0 else picks[b - 1]
  }

  /** picks is the selection for the buckets it covers: one index each, chosen against its predecessor. */
  ghost predicate IsSelection(data: seq<int16>, numBuckets: nat, picks: seq<nat>)
    requires 0 < numBuckets <= |data| - 2 && |picks| <= numBuckets
  {
    forall b :: 0 <= b < |picks| ==> IsPick(data, numBuckets, b, Prev(picks, b), picks[b])
  }

  /** The rule leaves no choice: two selections of the same input agree. */
  lemma {:induction false} SelectionUnique(data: seq<int16>, numBuckets: nat, p: seq<nat>, q: seq<nat>)
    requires 0 < numBuckets <= |data| - 2 && |p| == |q| <= numBuckets
    requires IsSelection(data, numBuckets, p) && IsSelection(data, numBuckets, q)
    ensures p == q
  {
    hide *;
    if p != [] {
      var b := |p| - 1;
      SelectionPrefix(data, numBuckets, p, b);
      SelectionPrefix(data, numBuckets, q, b);
      SelectionUnique(data, numBuckets, p[..b], q[..b]);
      LastUnique(data, numBuckets, p, q);
    }
  }

  lemma LastUnique(data: seq<int16>, numBuckets: nat, p: seq<nat>, q: seq<nat>)
    requires 0 < numBuckets <= |data| - 2 && 0 < |p| == |q| <= numBuckets
    requires IsSelection(data, numBuckets, p) && IsSelection(data, numBuckets, q)
    requires p[..|p| - 1] == q[..|p| - 1]
    ensures p == q
  {
    hide *;
    var b := |p| - 1;
    LastIsPick(data, numBuckets, p);
    LastIsPick(data, numBuckets, q);
    PrevOfPrefix(p, q, b);
    PickUnique(data, numBuckets, b, Prev(p, b), p[b], q[b]);
    assert p == p[..b] + [p[b]] && q == q[..b] + [q[b]];
  }

  lemma LastIsPick(data: seq<int16>, numBuckets: nat, picks: seq<nat>)
    requires 0 < numBuckets <= |data| - 2 && 0 < |picks| <= numBuckets && IsSelection(data, numBuckets, picks)
    ensures IsPick(data, numBuckets, |picks| - 1, Prev(picks, |picks| - 1), picks[|picks| - 1])
  {
  }

  lemma PrevOfPrefix(p: seq<nat>, q: seq<nat>, b: nat)
    requires b <= |p| && b <= |q| && p[..b] == q[..b]
    ensures Prev(p, b) == Prev(q, b)
  {
    assert b > 0 ==> p[..b][b - 1] == q[..b][b - 1];
  }

  lemma PickUnique(data: seq<int16>, numBuckets: nat, b: nat, prev: nat, r: nat, r': nat)
    requires 0 < numBuckets <= |data| - 2 && b < numBuckets
    requires IsPick(data, numBuckets, b, prev, r) && IsPick(data, numBuckets, b, prev, r')
    ensures r == r'
  {
    hide Edge, Target, Area, FirstLargest;
    FirstLargestUnique(data, Edge(b, |data|, numBuckets), Edge(b + 1, |data|, numBuckets),
                       At(data, prev), Target(data, numBuckets, b), r, r');
  }

  lemma SelectionPrefix(data: seq<int16>, numBuckets: nat, picks: seq<nat>, m: nat)
    requires 0 < numBuckets <= |data| - 2 && m <= |picks| <= numBuckets && IsSelection(data, numBuckets, picks)
    ensures IsSelection(data, numBuckets, picks[..m])
  {
    hide IsPick;
    forall b | 0 <= b < m
      ensures IsPick(data, numBuckets, b, Prev(picks[..m], b), picks[..m][b])
    {
      assert Prev(picks[..m], b) == Prev(picks, b) && picks[..m][b] == picks[b];
    }
  }

  lemma PickInBucket(data: seq<int16>, numBuckets: nat, b: nat, prev: nat, pick: nat)
    requires 0 < numBuckets <= |data| - 2 && b < numBuckets && IsPick(data, numBuckets, b, prev, pick)
    ensures 0 < pick < |data| - 1 && Edge(b, |data|, numBuckets) <= pick < Edge(b + 1, |data|, numBuckets)
  {
    hide Edge, Target, Area;
    EdgesTile(b, |data|, numBuckets);
  }

  /** Selected indices lie strictly between the ends and strictly increase. */
  lemma SelectionIncreases(data: seq<int16>, numBuckets: nat, picks: seq<nat>, b: nat)
    requires 0 < numBuckets <= |data| - 2 && |picks| <= numBuckets && b < |picks|
    requires IsSelection(data, numBuckets, picks)
    ensures 0 < picks[b] < |data| - 1 && Edge(b, |data|, numBuckets) <= picks[b] < Edge(b + 1, |data|, numBuckets)
    ensures b > 0 ==> picks[b - 1] < picks[b]
  {
    hide Edge, IsPick;
    PickInBucket(data, numBuckets, b, Prev(picks, b), picks[b]);
    if b > 0 {
      PickInBucket(data, numBuckets, b - 1, Prev(picks, b - 1), picks[b - 1]);
    }
  }

  function Values(data: seq<int16>, picks: seq<nat>): (vs: seq<int16>)
    requires forall b :: 0 <= b < |picks| ==> picks[b] < |data|
    ensures |vs| == |picks| && forall b :: 0 <= b < |picks| ==> vs[b] == data[picks[b]]
  {
    seq(|picks|, b requires 0 <= b < |picks| => data[picks[b]])
  }

  /** out is the input itself, or its samples at 0, at a selection, and at the end. */
  ghost predicate IsLttb(data: seq<int16>, target: nat, out: seq<int16>)
  {
    if target < 3 then out == []
    else if |data| <= target then out == data
    else exists picks: seq<nat> :: IsLttbAt(data, target, out, picks)
  }

  ghost predicate IsLttbAt(data: seq<int16>, target: nat, out: seq<int16>, picks: seq<nat>)
    requires 3 <= target < |data|
  {
    && |picks| == target - 2
    && IsSelection(data, target - 2, picks)
    && (forall b :: 0 <= b < |picks| ==> picks[b] < |data|)
    && out == [data[0]] + Values(data, picks) + [data[|data| - 1]]
  }

  lemma LttbUnique(data: seq<int16>, target: nat, out: seq<int16>, out': seq<int16>)
    requires IsLttb(data, target, out) && IsLttb(data, target, out')
    ensures out == out'
  {
    hide IsSelection;
    if 3 <= target < |data| {
      var p :| IsLttbAt(data, target, out, p);
      var q :| IsLttbAt(data, target, out', q);
      SelectionUnique(data, target - 2, p, q);
    }
  }

  /** Exactly target samples, at strictly increasing indices that begin with the first and end with the last. */
  lemma LttbShape(data: seq<int16>, target: nat, out: seq<int16>) returns (indices: seq<nat>)
    requires 3 <= target < |data| && IsLttb(data, target, out)
    ensures |out| == |indices| == target
    ensures indices[0] == 0 && indices[target - 1] == |data| - 1
    ensures forall i :: 0 <= i < target - 1 ==> indices[i] < indices[i + 1]
    ensures forall i :: 0 <= i < target ==> indices[i] < |data| && out[i] == data[indices[i]]
  {
    hide IsSelection;
    var picks :| IsLttbAt(data, target, out, picks);
    indices := [0] + picks + [|data| - 1];
    forall i | 0 <= i < target - 1
      ensures indices[i] < indices[i + 1]
    {
      if i < target - 2 {
        SelectionIncreases(data, target - 2, picks, i);
      } else {
        SelectionIncreases(data, target - 2, picks, i - 1);
      }
    }
  }

  /** The averaging loop over the next bucket, with its fallback for an empty one. */
  method AverageBucket(data: seq<int16>, lo: nat, hi: nat) returns (a: Point)
    requires lo <= hi <= |data| && lo < |data|
    ensures a == Mean(data, lo, hi)
  {
    var sumX, sumY, count := 0.0, 0.0, 0.0;
    for i := lo to hi
      invariant sumX == SumX(lo, i) && sumY == SumY(data, lo, i) && count == (i - lo) as real
    {
      sumX := sumX + i as real;
      sumY := sumY + data[i] as real;
      count := count + 1.0;
    }
    a := Point(if count > 0.0 then sumX / count else lo as real,
               if count > 0.0 then sumY / count else data[lo] as real);
  }

  /** The triangle scan of one bucket. */
  method LargestInBucket(data: seq<int16>, lo: nat, hi: nat, p: Point, a: Point) returns (best: nat)
    requires lo < hi <= |data|
    ensures FirstLargest(data, lo, hi, p, a, best)
  {
    hide Area;
    var maxArea := -1.0;
    best := lo;
    for i := lo to hi
      invariant i == lo ==> maxArea == -1.0 && best == lo
      invariant i > lo ==> FirstLargest(data, lo, i, p, a, best) && maxArea == Area(p, At(data, best), a)
    {
      var area := Area(p, At(data, i), a);
      if area > maxArea {
        maxArea := area;
        best := i;
      }
    }
  }

  method Decimate(data: seq<int16>, target: nat) returns (output: seq<int16>)
    ensures IsLttb(data, target, output)
  {
    if target < 3 { return []; }
    if |data| <= target { return data; }
    hide IsSelection, Values;
    output := Select(data, target - 2);
    ghost var picks :| IsSelected(data, target - 2, output, picks);
    output := output + [data[|data| - 1]];
    assert IsLttbAt(data, target, output, picks);
  }

  /** out is the first sample and then the samples at these picks, one for each bucket. */
  ghost predicate IsSelected(data: seq<int16>, numBuckets: nat, out: seq<int16>, picks: seq<nat>)
    requires 0 < numBuckets <= |data| - 2
  {
    && |picks| == numBuckets && IsSelection(data, numBuckets, picks)
    && (forall b :: 0 <= b < |picks| ==> picks[b] < |data|)
    && out == [data[0]] + Values(data, picks)
  }

  /** The bucket loop. */
  method Select(data: seq<int16>, numBuckets: nat) returns (output: seq<int16>)
    requires 0 < numBuckets <= |data| - 2
    ensures exists picks :: IsSelected(data, numBuckets, output, picks)
  {
    hide IsSelection, Values, Prev;
    output := [data[0]];
    var prev: nat := 0;
    ghost var picks: seq<nat> := [];
    EmptySelection(data, numBuckets);
    for b := 0 to numBuckets
      invariant |picks| == b && prev == Prev(picks, b) && prev < |data|
      invariant forall c :: 0 <= c < b ==> picks[c] < |data|
      invariant IsSelection(data, numBuckets, picks)
      invariant output == [data[0]] + Values(data, picks)
    {
      var best := PickFromBucket(data, numBuckets, b, prev);
      ExtendSelection(data, numBuckets, picks, best);
      ValuesExtend(data, picks, best);
      output := output + [data[best]];
      picks := picks + [best];
      prev := best;
    }
    assert IsSelected(data, numBuckets, output, picks);
  }

  lemma EmptySelection(data: seq<int16>, numBuckets: nat)
    requires 0 < numBuckets <= |data| - 2
    ensures IsSelection(data, numBuckets, []) && Values(data, []) == [] && Prev([], 0) == 0
  {
  }

  lemma ValuesExtend(data: seq<int16>, picks: seq<nat>, best: nat)
    requires best < |data| && forall b :: 0 <= b < |picks| ==> picks[b] < |data|
    ensures forall b :: 0 <= b < |picks + [best]| ==> (picks + [best])[b] < |data|
    ensures Values(data, picks + [best]) == Values(data, picks) + [data[best]]
  {
  }

  /** One iteration of the bucket loop. */
  method PickFromBucket(data: seq<int16>, numBuckets: nat, b: nat, prev: nat) returns (best: nat)
    requires 0 < numBuckets <= |data| - 2 && b < numBuckets && prev < |data|
    ensures IsPick(data, numBuckets, b, prev, best) && best < |data|
  {
    hide Edge, Area, FirstLargest, Target;
    var a := ChooseTarget(data, numBuckets, b);
    ClampIsIdle(b, |data|, numBuckets);
    EdgesTile(b, |data|, numBuckets);
    var start, end := Edge(b, |data|, numBuckets), Clamp(Edge(b + 1, |data|, numBuckets), |data|);
    best := LargestInBucket(data, start, end, At(data, prev), a);
    PickBound(data, start, end, At(data, prev), a, best);
  }

  lemma PickBound(data: seq<int16>, lo: nat, hi: nat, p: Point, a: Point, r: nat)
    requires FirstLargest(data, lo, hi, p, a, r)
    ensures r < |data|
  {
  }

  /** A bucket's end, never past the last sample. */
  function Clamp(end: int, n: nat): int
  {
    if end > n - 1 then n - 1 else end
  }

  /** In exact arithmetic the clamp changes nothing, and no bucket that is averaged or searched is empty. */
  lemma ClampIsIdle(b: nat, n: nat, numBuckets: nat)
    requires 0 < numBuckets <= n - 2 && b < numBuckets
    ensures Clamp(Edge(b + 1, n, numBuckets), n) == Edge(b + 1, n, numBuckets)
    ensures 1 <= Edge(b, n, numBuckets) < Clamp(Edge(b + 1, n, numBuckets), n)
  {
    EdgesTile(b, n, numBuckets);
  }

  method ChooseTarget(data: seq<int16>, numBuckets: nat, b: nat) returns (a: Point)
    requires 0 < numBuckets <= |data| - 2 && b < numBuckets
    ensures a == Target(data, numBuckets, b)
  {
    hide Edge, Mean;
    if b + 1 < numBuckets {
      ClampIsIdle(b + 1, |data|, numBuckets);
      EdgesTile(b + 1, |data|, numBuckets);
      a := AverageBucket(data, Edge(b + 1, |data|, numBuckets), Clamp(Edge(b + 2, |data|, numBuckets), |data|));
    } else {
      a := At(data, |data| - 1);
    }
  }

  lemma ExtendSelection(data: seq<int16>, numBuckets: nat, picks: seq<nat>, best: nat)
    requires 0 < numBuckets <= |data| - 2 && |picks| < numBuckets && IsSelection(data, numBuckets, picks)
    requires IsPick(data, numBuckets, |picks|, Prev(picks, |picks|), best)
    ensures IsSelection(data, numBuckets, picks + [best]) && Prev(picks + [best], |picks| + 1) == best
  {
    hide IsPick;
    var next := picks + [best];
    forall b | 0 <= b < |next|
      ensures IsPick(data, numBuckets, b, Prev(next, b), next[b])
    {
      assert Prev(next, b) == Prev(picks, b);
    }
  }

  lemma {:induction false} FirstLargestExists(data: seq<int16>, lo: nat, hi: nat, p: Point, a: Point) returns (r: nat)
    requires lo < hi <= |data|
    ensures FirstLargest(data, lo, hi, p, a, r)
  {
    hide Area;
    r := lo;
    for i := lo + 1 to hi
      invariant FirstLargest(data, lo, i, p, a, r)
    {
      if Area(p, At(data, i), a) > Area(p, At(data, r), a) { r := i; }
    }
  }

  lemma {:induction false} SelectionExists(data: seq<int16>, numBuckets: nat, m: nat) returns (picks: seq<nat>)
    requires 0 < numBuckets <= |data| - 2 && m <= numBuckets
    ensures |picks| == m && IsSelection(data, numBuckets, picks) && Prev(picks, m) < |data|
    ensures forall b :: 0 <= b < |picks| ==> picks[b] < |data|
  {
    hide *;
    if m == 0 {
      picks := [];
      EmptySelection(data, numBuckets);
    } else {
      picks := SelectionExists(data, numBuckets, m - 1);
      var best := PickExists(data, numBuckets, m - 1, Prev(picks, m - 1));
      ExtendSelection(data, numBuckets, picks, best);
      picks := picks + [best];
    }
  }

  lemma PickExists(data: seq<int16>, numBuckets: nat, b: nat, prev: nat) returns (best: nat)
    requires 0 < numBuckets <= |data| - 2 && b < numBuckets && prev < |data|
    ensures IsPick(data, numBuckets, b, prev, best) && best < |data|
  {
    EdgesTile(b, |data|, numBuckets);
    hide Edge, Target, FirstLargest;
    best := FirstLargestExists(data, Edge(b, |data|, numBuckets), Edge(b + 1, |data|, numBuckets),
                               At(data, prev), Target(data, numBuckets, b));
    PickBound(data, Edge(b, |data|, numBuckets), Edge(b + 1, |data|, numBuckets),
              At(data, prev), Target(data, numBuckets, b), best);
  }

  lemma LttbExists(data: seq<int16>, target: nat) returns (out: seq<int16>)
    ensures IsLttb(data, target, out)
  {
    if target < 3 {
      out := [];
    } else if |data| <= target {
      out := data;
    } else {
      hide IsSelection, Values;
      var picks := SelectionExists(data, target - 2, target - 2);
      out := [data[0]] + Values(data, picks) + [data[|data| - 1]];
      assert IsLttbAt(data, target, out, picks);
    }
  }

  /** The value of LTTB decimation. */
  ghost function Value(data: seq<int16>, target: nat): (out: seq<int16>)
    ensures IsLttb(data, target, out)
  {
    assert exists out :: IsLttb(data, target, out) by {
      var w := LttbExists(data, target);
    }
    var out :| IsLttb(data, target, out);
    out
  }
}
