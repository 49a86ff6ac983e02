/** The cyclic sliding window of the envelope verifier: a specification and the two-deque loop. */
module SlidingWindow {
  import opened Samples
  import Arith

  /** The w samples from position s on, wrapping round the period as often as needed. */
  function Window(period: seq<int16>, s: nat, w: nat): (r: seq<int16>)
    requires period != []
    ensures |r| == w
  {
    seq(w, j requires 0 <= j => period[(s + j) % |period|])
  }

  function WindowExtent(period: seq<int16>, s: nat, w: nat): Extent
    requires period != [] && w > 0
  {
    ExtentOf(Window(period, s, w))
  }

  /** The offset at which a window from s first meets period index i. */
  lemma OffsetOf(s: nat, i: nat, n: nat) returns (j: nat)
    requires s < n && i < n
    ensures j < n && (s + j) % n == i
  {
    if i >= s {
      j := i - s;
      Arith.ModSmall(i, n);
    } else {
      j := i + n - s;
      Arith.DivModUnique(i + n, n, 1, i);
    }
  }

  lemma WindowAt(period: seq<int16>, s: nat, w: nat, j: nat)
    requires period != [] && j < w
    ensures Window(period, s, w)[j] == period[(s + j) % |period|]
    ensures Window(period, s, w)[j] in period
  {
  }

  lemma WindowExtentIs(period: seq<int16>, s: nat, w: nat)
    requires period != [] && w > 0
    ensures WindowExtent(period, s, w) == ExtentOf(Window(period, s, w))
  {
  }

  lemma WindowMeets(period: seq<int16>, s: nat, w: nat, i: nat)
    requires s < |period| <= w && i < |period|
    ensures period[i] in Window(period, s, w)
  {
    hide *;
    var j := OffsetOf(s, i, |period|);
    WindowAt(period, s, w, j);
  }

  /** Every window is a stretch of the period extended from its start. */
  lemma WindowOfExtended(period: seq<int16>, s: nat, w: nat, total: nat)
    requires period != [] && s + w <= total
    ensures Window(period, 0, total)[s..s + w] == Window(period, s, w)
  {
  }

  /** A window at least as long as the period sees every sample, wherever it starts. */
  lemma FullWindow(period: seq<int16>, s: nat, w: nat)
    requires period != [] && s < |period| <= w
    ensures WindowExtent(period, s, w) == ExtentOf(period)
  {
    hide *;
    var r := Window(period, s, w);
    forall x | x in period
      ensures x in r
    {
      var i :| 0 <= i < |period| && period[i] == x;
      WindowMeets(period, s, w, i);
    }
    forall x | x in r
      ensures x in period
    {
      var j :| 0 <= j < w && r[j] == x;
      WindowAt(period, s, w, j);
    }
    SameValuesSameExtent(r, period);
    WindowExtentIs(period, s, w);
  }

  /** A deque entry is better the smaller its key: the sample for minima, its negation for maxima. */
  function Key(x: int16, forMin: bool): int
  {
    if forMin then x else 0 - x
  }

  /** First index of the window that ends just before n. */
  function WindowStart(n: nat, w: nat): nat
  {
    if n > w then n - w else 0
  }

  /** Entry u of the deque beats every index after entry u-1, and the last entry is the newest index. */
  ghost predicate DequeInv(buf: seq<int16>, w: nat, n: nat, dq: seq<nat>, forMin: bool)
  {
    && n <= |buf|
    && (n > 0 ==> dq != [] && dq[|dq| - 1] == n - 1)
    && (n == 0 ==> dq == [])
    && Rising(dq, WindowStart(n, w), n)
    && Suffixes(buf, WindowStart(n, w), n, dq, forMin)
  }

  ghost predicate Rising(dq: seq<nat>, start: nat, n: nat)
  {
    && (forall u :: 0 <= u < |dq| ==> start <= dq[u] < n)
    && (forall u, v :: 0 <= u < v < |dq| ==> dq[u] < dq[v])
  }

  function From(dq: seq<nat>, u: nat, start: nat): nat
    requires u <= |dq|
  {
    if u == 0 then start else dq[u - 1] + 1
  }

  ghost predicate Suffixes(buf: seq<int16>, start: nat, n: nat, dq: seq<nat>, forMin: bool)
    requires n <= |buf| && forall u :: 0 <= u < |dq| ==> dq[u] < n
  {
    forall u, j :: 0 <= u < |dq| && From(dq, u, start) <= j < n ==>
      Key(buf[dq[u]], forMin) <= Key(buf[j], forMin)
  }

  /** One iteration for one deque: pop worse entries, push i, drop at most one stale front. */
  method Advance(buf: seq<int16>, w: nat, i: nat, before: seq<nat>, forMin: bool)
    returns (dq: seq<nat>, ghost popped: nat)
    requires w > 0 && i < |buf| && DequeInv(buf, w, i, before, forMin)
    ensures DequeInv(buf, w, i + 1, dq, forMin)
    ensures |dq| + popped == |before| + 1
  {
    hide *;
    ghost var start := WindowStart(i, w);
    dq, popped := before, 0;
    StartPopping(buf, w, i, dq, forMin);
    while dq != [] && Key(buf[dq[|dq| - 1]], forMin) >= Key(buf[i], forMin)
      invariant |dq| + popped == |before|
      invariant dq != [] ==> dq[|dq| - 1] < |buf|
      invariant Popping(buf, start, i, dq, forMin)
    {
      PopKeeps(buf, start, i, dq, forMin);
      dq, popped := dq[..|dq| - 1], popped + 1;
    }
    PushFinishes(buf, w, i, dq, forMin);
    dq := dq + [i];
    if dq[0] + w <= i {
      dq, popped := dq[1..], popped + 1;
    }
  }

  /** While worse entries are popped, what is left covers every older index of the window. */
  ghost predicate Popping(buf: seq<int16>, start: nat, i: nat, dq: seq<nat>, forMin: bool)
    requires i < |buf|
  {
    Rising(dq, start, i) && Suffixes(buf, start, i, dq, forMin) && BestOf(buf, From(dq, |dq|, start), i, forMin)
  }

  lemma StartPopping(buf: seq<int16>, w: nat, i: nat, dq: seq<nat>, forMin: bool)
    requires w > 0 && i < |buf| && DequeInv(buf, w, i, dq, forMin)
    ensures Popping(buf, WindowStart(i, w), i, dq, forMin)
    ensures dq != [] ==> dq[|dq| - 1] < |buf|
  {
    hide Suffixes;
  }

  lemma PushFinishes(buf: seq<int16>, w: nat, i: nat, dq: seq<nat>, forMin: bool)
    requires w > 0 && i < |buf| && Popping(buf, WindowStart(i, w), i, dq, forMin)
    requires dq != [] ==> dq[|dq| - 1] < |buf| && Key(buf[dq[|dq| - 1]], forMin) < Key(buf[i], forMin)
    ensures var next := dq + [i];
            DequeInv(buf, w, i + 1, if next[0] + w <= i then next[1..] else next, forMin)
  {
    var start, next := WindowStart(i, w), dq + [i];
    assert start <= i;
    hide *;
    PushKeeps(buf, start, i, dq, forMin);
    DropStale(buf, w, i, next, forMin);
  }

  /** The window moves on by one: at most the front entry falls out of it. */
  lemma DropStale(buf: seq<int16>, w: nat, i: nat, dq: seq<nat>, forMin: bool)
    requires w > 0 && i < |buf| && dq != [] && dq[|dq| - 1] == i
    requires Rising(dq, WindowStart(i, w), i + 1) && Suffixes(buf, WindowStart(i, w), i + 1, dq, forMin)
    ensures DequeInv(buf, w, i + 1, if dq[0] + w <= i then dq[1..] else dq, forMin)
  {
    hide Suffixes;
    if dq[0] + w <= i {
      assert dq[0] + 1 == WindowStart(i + 1, w);
      FrontPopKeeps(buf, WindowStart(i, w), i + 1, dq, forMin);
    } else {
      RaiseStart(buf, WindowStart(i, w), i + 1, dq, WindowStart(i + 1, w), forMin);
    }
  }

  lemma RaiseStart(buf: seq<int16>, start: nat, n: nat, dq: seq<nat>, start': nat, forMin: bool)
    requires n <= |buf| && dq != [] && start <= start' <= dq[0]
    requires Rising(dq, start, n) && Suffixes(buf, start, n, dq, forMin)
    ensures Rising(dq, start', n) && Suffixes(buf, start', n, dq, forMin)
  {
    assert forall u :: 0 <= u < |dq| ==> From(dq, u, start) <= From(dq, u, start');
  }

  /** Index n is at least as good as every index in [from, n). */
  ghost predicate BestOf(buf: seq<int16>, from: nat, n: nat, forMin: bool)
    requires n < |buf|
  {
    forall j :: from <= j < n ==> Key(buf[n], forMin) <= Key(buf[j], forMin)
  }

  lemma PopKeeps(buf: seq<int16>, start: nat, i: nat, dq: seq<nat>, forMin: bool)
    requires i < |buf| && dq != [] && Popping(buf, start, i, dq, forMin)
    requires dq[|dq| - 1] < |buf| && Key(buf[dq[|dq| - 1]], forMin) >= Key(buf[i], forMin)
    ensures Popping(buf, start, i, dq[..|dq| - 1], forMin)
    ensures |dq| > 1 ==> dq[|dq| - 2] < |buf|
  {
    var m := |dq| - 1;
    var rest := dq[..m];
    forall u | 0 <= u <= m
      ensures From(rest, u, start) == From(dq, u, start)
    {
    }
    forall u, j | 0 <= u < |rest| && From(rest, u, start) <= j < i
      ensures Key(buf[rest[u]], forMin) <= Key(buf[j], forMin)
    {
      assert rest[u] == dq[u] && From(rest, u, start) == From(dq, u, start);
    }
    assert From(rest, m, start) == From(dq, m, start);
  }

  lemma PushKeeps(buf: seq<int16>, start: nat, i: nat, dq: seq<nat>, forMin: bool)
    requires i < |buf| && start <= i && Popping(buf, start, i, dq, forMin)
    requires dq != [] ==> dq[|dq| - 1] < |buf| && Key(buf[dq[|dq| - 1]], forMin) < Key(buf[i], forMin)
    ensures Rising(dq + [i], start, i + 1) && Suffixes(buf, start, i + 1, dq + [i], forMin)
  {
    var next := dq + [i];
    forall u, j | 0 <= u < |next| && From(next, u, start) <= j < i + 1
      ensures Key(buf[next[u]], forMin) <= Key(buf[j], forMin)
    {
      assert From(next, u, start) == From(dq, u, start);
      if u < |dq| && j == i {
        var last := dq[|dq| - 1];
        assert From(dq, u, start) <= last;
        assert Key(buf[dq[u]], forMin) <= Key(buf[last], forMin);
      }
    }
  }

  lemma FrontPopKeeps(buf: seq<int16>, start: nat, n: nat, dq: seq<nat>, forMin: bool)
    requires n <= |buf| && dq != [] && Rising(dq, start, n) && Suffixes(buf, start, n, dq, forMin)
    ensures Rising(dq[1..], dq[0] + 1, n) && Suffixes(buf, dq[0] + 1, n, dq[1..], forMin)
  {
    var rest := dq[1..];
    forall u, j | 0 <= u < |rest| && From(rest, u, dq[0] + 1) <= j < n
      ensures Key(buf[rest[u]], forMin) <= Key(buf[j], forMin)
    {
      assert rest[u] == dq[u + 1] && From(dq, u + 1, start) == From(rest, u, dq[0] + 1);
    }
  }

  lemma EmptyDeque(buf: seq<int16>, w: nat)
    requires w > 0
    ensures DequeInv(buf, w, 0, [], true) && DequeInv(buf, w, 0, [], false)
  {
  }

  /** Reading both fronts gives the extent of the current window. */
  lemma FrontsAreExtent(buf: seq<int16>, w: nat, n: nat, dqMin: seq<nat>, dqMax: seq<nat>)
    requires 0 < w <= n
    requires DequeInv(buf, w, n, dqMin, true) && DequeInv(buf, w, n, dqMax, false)
    ensures dqMin != [] && dqMax != [] && dqMin[0] < n <= |buf| && dqMax[0] < n
    ensures Extent(buf[dqMin[0]], buf[dqMax[0]]) == ExtentOf(buf[n - w..n])
  {
    var r := buf[n - w..n];
    assert From(dqMin, 0, n - w) == From(dqMax, 0, n - w) == n - w;
    forall j | 0 <= j < w
      ensures buf[dqMin[0]] <= r[j] <= buf[dqMax[0]]
    {
      assert r[j] == buf[n - w + j];
    }
    assert r[dqMin[0] - (n - w)] == buf[dqMin[0]];
    assert r[dqMax[0] - (n - w)] == buf[dqMax[0]];
    ExtentUnique(Extent(buf[dqMin[0]], buf[dqMax[0]]), r);
  }

  lemma FrontsAreWindowExtent(period: seq<int16>, w: nat, total: nat, n: nat, dqMin: seq<nat>, dqMax: seq<nat>)
    requires period != [] && 0 < w <= n <= total
    requires DequeInv(Window(period, 0, total), w, n, dqMin, true)
    requires DequeInv(Window(period, 0, total), w, n, dqMax, false)
    ensures dqMin != [] && dqMax != [] && dqMin[0] < total && dqMax[0] < total
    ensures Extent(Window(period, 0, total)[dqMin[0]], Window(period, 0, total)[dqMax[0]]) ==
            WindowExtent(period, n - w, w)
  {
    hide *;
    FrontsAreExtent(Window(period, 0, total), w, n, dqMin, dqMax);
    WindowOfExtended(period, n - w, w, total);
    WindowExtentIs(period, n - w, w);
  }

  /**
   * The windowed part of build_window_set. Every cyclic window's extent is found, and the
   * deque pops of the whole run number at most one for each pushed index and each deque.
   */
  method SlideExtents(period: seq<int16>, w: nat)
    returns (wmins: array<int16>, wmaxs: array<int16>, ghost pops: nat)
    requires 0 < w < |period|
    ensures wmins.Length == wmaxs.Length == |period|
    ensures forall s :: 0 <= s < |period| ==> Extent(wmins[s], wmaxs[s]) == WindowExtent(period, s, w)
    ensures pops <= 2 * (|period| + w - 1)
  {
    hide *;
    var total := |period| + w - 1;
    var buf := Window(period, 0, total);
    wmins, wmaxs := new int16[|period|], new int16[|period|];
    var dqMin: seq<nat>, dqMax: seq<nat> := [], [];
    pops := 0;
    EmptyDeque(buf, w);
    for i := 0 to total
      invariant DequeInv(buf, w, i, dqMin, true) && DequeInv(buf, w, i, dqMax, false)
      invariant |dqMin| + |dqMax| + pops == 2 * i
      invariant forall s :: 0 <= s <= i - w ==> Extent(wmins[s], wmaxs[s]) == WindowExtent(period, s, w)
    {
      ghost var p, q;
      dqMin, p := Advance(buf, w, i, dqMin, true);
      dqMax, q := Advance(buf, w, i, dqMax, false);
      pops := pops + p + q;
      if i >= w - 1 {
        FrontsAreWindowExtent(period, w, total, i + 1, dqMin, dqMax);
        wmins[i - w + 1] := buf[dqMin[0]];
        wmaxs[i - w + 1] := buf[dqMax[0]];
      }
    }
  }
}
