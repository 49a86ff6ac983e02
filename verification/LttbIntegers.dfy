/** LTTB in integers alone: what the selection is, without areas, means, or bucket edges in real numbers. */
module LttbIntegers {
  import opened Samples
  import opened Lttb

  // ---- The statement ----

  function SumOfIndices(lo: nat, hi: nat): int
    requires lo <= hi
  {
    if lo == hi then 0 else SumOfIndices(lo, hi - 1) + hi - 1
  }

  function SumOfSamples(data: seq<int16>, lo: nat, hi: nat): int
    requires lo <= hi <= |data|
  {
    if lo == hi then 0 else SumOfSamples(data, lo, hi - 1) + data[hi - 1]
  }

  /** The size of a cross product. */
  function CrossSize(ux: int, uy: int, vx: int, vy: int): int
  {
    var v := ux * vy - vx * uy;
    if v < 0 then -v else v
  }

  /**
   * 2 * count times the area of the triangle between samples p and i and the mean of count points with
   * the coordinate sums sx and sy.
   */
  function Spread(data: seq<int16>, p: nat, i: nat, count: nat, sx: int, sy: int): int
    requires p < |data| && i < |data|
  {
    CrossSize(i - p, data[i] as int - data[p] as int, sx - count * p, sy - count * data[p])
  }

  /** r is the first index of lo to hi - 1 with the largest triangle. */
  ghost predicate SpreadsMost(data: seq<int16>, lo: nat, hi: nat, p: nat, count: nat, sx: int, sy: int, r: nat)
  {
    && p < |data| && lo <= r < hi <= |data|
    && forall i :: lo <= i < hi ==>
         && Spread(data, p, i, count, sx, sy) <= Spread(data, p, r, count, sx, sy)
         && (i < r ==> Spread(data, p, i, count, sx, sy) < Spread(data, p, r, count, sx, sy))
  }

  /** Where bucket b of k starts: the first and the last sample belong to none. */
  function First(n: nat, k: nat, b: nat): nat
    requires n > 2 && k > 0
  {
    1 + b * (n - 2) / k
  }

  /**
   * The pick of bucket b after the pick p: the largest triangle with the mean of the next bucket, or
   * with the last sample for the last bucket.
   */
  ghost predicate IsChoice(data: seq<int16>, k: nat, b: nat, p: nat, r: nat)
    requires 0 < k <= |data| - 2 && b < k
  {
    var n := |data|;
    var lo, hi := First(n, k, b), First(n, k, b + 1);
    if b == k - 1 then SpreadsMost(data, lo, hi, p, 1, n - 1, data[n - 1], r)
    else
      var next := First(n, k, b + 2);
      && hi < next <= n
      && SpreadsMost(data, lo, hi, p, next - hi, SumOfIndices(hi, next), SumOfSamples(data, hi, next), r)
  }

  // ---- Areas in integers ----

  lemma {:induction false} SumsAgree(data: seq<int16>, lo: nat, hi: nat)
    requires lo <= hi <= |data|
    ensures SumX(lo, hi) == SumOfIndices(lo, hi) as real && SumY(data, lo, hi) == SumOfSamples(data, lo, hi) as real
  {
    if lo < hi {
      SumsAgree(data, lo, hi - 1);
    }
  }

  lemma CrossScale(ux: real, uy: real, vx: real, vy: real, c: real)
    ensures c * CrossProduct(ux, uy, vx, vy) == CrossProduct(ux, uy, c * vx, c * vy)
  {
    assert c * (ux * vy) == ux * (c * vy);
    assert c * (vx * uy) == c * vx * uy;
  }

  lemma AbsScale(c: real, x: real)
    requires c > 0.0
    ensures c * Abs(x) == Abs(c * x)
  {
    if x < 0.0 {
      assert c * x < 0.0;
    } else {
      assert c * x >= 0.0;
    }
  }

  lemma CrossOfIntegers(ux: int, uy: int, vx: int, vy: int)
    ensures CrossProduct(ux as real, uy as real, vx as real, vy as real) == (ux * vy - vx * uy) as real
  {
    RealProduct(ux, vy);
    RealProduct(vx, uy);
  }

  lemma Stretch(a: real, p: real, c: real, s: real)
    requires c * a == s
    ensures c * (a - p) == s - c * p
  {
  }

  lemma SideOf(a: real, p: int, count: nat, s: int)
    requires count as real * a == s as real
    ensures count as real * (a - p as real) == (s - count * p) as real
  {
    Stretch(a, p as real, count as real, s as real);
    RealProduct(count, p);
  }

  /** a is the mean of count points with these coordinate sums. */
  ghost predicate HasSums(a: Point, count: nat, sx: int, sy: int)
  {
    count as real * a.x == sx as real && count as real * a.y == sy as real
  }

  lemma AreaIsSpread(data: seq<int16>, p: nat, i: nat, a: Point, count: nat, sx: int, sy: int)
    requires p < |data| && i < |data| && count > 0 && HasSums(a, count, sx, sy)
    ensures count as real * Area(At(data, p), At(data, i), a) == Spread(data, p, i, count, sx, sy) as real
  {
    var P, C := At(data, p), At(data, i);
    AreaIsTriangle(P, C, a);
    hide Area, CrossProduct;
    var ux, uy: int := i - p, data[i] as int - data[p] as int;
    var vx, vy := sx - count * p, sy - count * data[p];
    SideOf(a.x, p, count, sx);
    SideOf(a.y, data[p], count, sy);
    hide *;
    ScaledCross(ux, uy, a.x - p as real, a.y - data[p] as real, count, vx, vy);
    SidesAt(data, p, i);
    SpreadIs(data, p, i, count, sx, sy);
  }

  lemma SidesAt(data: seq<int16>, p: nat, i: nat)
    requires p < |data| && i < |data|
    ensures At(data, i).x - At(data, p).x == (i - p) as real && At(data, p).x == p as real
    ensures At(data, i).y - At(data, p).y == (data[i] as int - data[p] as int) as real
    ensures At(data, p).y == data[p] as real
  {
  }

  lemma SpreadIs(data: seq<int16>, p: nat, i: nat, count: nat, sx: int, sy: int)
    requires p < |data| && i < |data|
    ensures Spread(data, p, i, count, sx, sy) ==
            CrossSize(i - p, data[i] as int - data[p] as int, sx - count * p, sy - count * data[p])
  {
    hide CrossSize;
  }

  lemma ScaledCross(ux: int, uy: int, x: real, y: real, count: nat, vx: int, vy: int)
    requires count > 0 && count as real * x == vx as real && count as real * y == vy as real
    ensures count as real * Abs(CrossProduct(ux as real, uy as real, x, y)) == CrossSize(ux, uy, vx, vy) as real
  {
    CrossScale(ux as real, uy as real, x, y, count as real);
    CrossOfIntegers(ux, uy, vx, vy);
    AbsScale(count as real, CrossProduct(ux as real, uy as real, x, y));
    hide CrossProduct;
  }

  lemma Compare(c: real, a: real, b: real, m: int, n: int)
    requires c > 0.0 && c * a == m as real && c * b == n as real
    ensures (a <= b <==> m <= n) && (a < b <==> m < n)
  {
    if a < b {
      assert c * a < c * b;
    } else if a > b {
      assert c * a > c * b;
    }
  }

  lemma LargestSpreadsMost(data: seq<int16>, lo: nat, hi: nat, p: nat, a: Point, count: nat, sx: int, sy: int, r: nat)
    requires p < |data| && count > 0 && FirstLargest(data, lo, hi, At(data, p), a, r) && HasSums(a, count, sx, sy)
    ensures SpreadsMost(data, lo, hi, p, count, sx, sy, r)
  {
    hide Area, Spread, At, HasSums;
    AreaIsSpread(data, p, r, a, count, sx, sy);
    forall i | lo <= i < hi
      ensures Spread(data, p, i, count, sx, sy) <= Spread(data, p, r, count, sx, sy)
      ensures i < r ==> Spread(data, p, i, count, sx, sy) < Spread(data, p, r, count, sx, sy)
    {
      AreaIsSpread(data, p, i, a, count, sx, sy);
      Compare(count as real, Area(At(data, p), At(data, i), a), Area(At(data, p), At(data, r), a),
              Spread(data, p, i, count, sx, sy), Spread(data, p, r, count, sx, sy));
    }
  }

  lemma MeanTimes(data: seq<int16>, lo: nat, hi: nat)
    requires lo < hi <= |data|
    ensures HasSums(Mean(data, lo, hi), hi - lo, SumOfIndices(lo, hi), SumOfSamples(data, lo, hi))
  {
    SumsAgree(data, lo, hi);
    hide SumX, SumY;
    Unquotient(SumX(lo, hi), (hi - lo) as real);
    Unquotient(SumY(data, lo, hi), (hi - lo) as real);
  }

  lemma Unquotient(s: real, c: real)
    requires c > 0.0
    ensures c * (s / c) == s
  {
  }

  // ---- The selection in integers ----

  lemma FirstIsEdge(n: nat, k: nat, b: nat)
    requires n > 2 && k > 0
    ensures Edge(b, n, k) == First(n, k, b)
  {
    EdgeIsBound(b, n, k);
  }

  lemma PickIsChoice(data: seq<int16>, k: nat, b: nat, p: nat, r: nat)
    requires 0 < k <= |data| - 2 && b < k && IsPick(data, k, b, p, r)
    ensures IsChoice(data, k, b, p, r)
  {
    hide *;
    if b == k - 1 {
      LastPick(data, k, p, r);
    } else {
      InnerPick(data, k, b, p, r);
    }
  }

  lemma LastPick(data: seq<int16>, k: nat, p: nat, r: nat)
    requires 0 < k <= |data| - 2 && IsPick(data, k, k - 1, p, r)
    ensures IsChoice(data, k, k - 1, p, r)
  {
    var n := |data|;
    FirstIsEdge(n, k, k - 1);
    FirstIsEdge(n, k, k);
    hide Edge, First, Area, Spread, Mean, SpreadsMost, FirstLargest;
    LargestSpreadsMost(data, First(n, k, k - 1), First(n, k, k), p, At(data, n - 1), 1, n - 1, data[n - 1], r);
  }

  lemma InnerPick(data: seq<int16>, k: nat, b: nat, p: nat, r: nat)
    requires 0 < k <= |data| - 2 && b + 1 < k && IsPick(data, k, b, p, r)
    ensures IsChoice(data, k, b, p, r)
  {
    var n := |data|;
    FirstIsEdge(n, k, b);
    FirstIsEdge(n, k, b + 1);
    FirstIsEdge(n, k, b + 2);
    EdgesTile(b + 1, n, k);
    hide Edge, First, Area, Spread, Mean, SpreadsMost, FirstLargest, SumOfIndices, SumOfSamples, At, HasSums;
    var hi, next := First(n, k, b + 1), First(n, k, b + 2);
    MeanTimes(data, hi, next);
    LargestSpreadsMost(data, First(n, k, b), hi, p, Mean(data, hi, next), next - hi, SumOfIndices(hi, next),
                       SumOfSamples(data, hi, next), r);
  }

  /**
   * The whole output in integers: the samples at `target` indices, the first and the last among them,
   * and each of the others the first largest triangle of its bucket.
   */
  lemma SelectionInIntegers(data: seq<int16>, target: nat, out: seq<int16>) returns (indices: seq<nat>)
    requires 3 <= target < |data| && IsLttb(data, target, out)
    ensures |out| == |indices| == target
    ensures indices[0] == 0 && indices[target - 1] == |data| - 1
    ensures forall i :: 0 <= i < target ==> indices[i] < |data| && out[i] == data[indices[i]]
    ensures forall b :: 0 <= b < target - 2 ==> IsChoice(data, target - 2, b, indices[b], indices[b + 1])
  {
    var picks: seq<nat> :| IsLttbAt(data, target, out, picks);
    hide IsChoice, IsPick, IsSelection, IsLttb;
    indices := [0] + picks + [|data| - 1];
    ChoicesOf(data, target - 2, picks, indices);
  }

  lemma ChoicesOf(data: seq<int16>, k: nat, picks: seq<nat>, indices: seq<nat>)
    requires 0 < k <= |data| - 2 && |picks| == k && IsSelection(data, k, picks)
    requires indices == [0] + picks + [|data| - 1]
    ensures forall b :: 0 <= b < k ==> IsChoice(data, k, b, indices[b], indices[b + 1])
  {
    hide IsChoice, IsPick;
    forall b | 0 <= b < k
      ensures IsChoice(data, k, b, indices[b], indices[b + 1])
    {
      assert Prev(picks, b) == indices[b] && picks[b] == indices[b + 1];
      PickIsChoice(data, k, b, Prev(picks, b), picks[b]);
    }
  }
}
