/** Peaks survive being decimated twice: once by the pipeline, once for display. */
module Peaks {
  import opened Samples
  import opened ChannelMajor
  import opened Decimator
  import opened Visualization

  function DecimateRuns(raws: seq<seq<int16>>, target: nat): (ds: seq<seq<int16>>)
    ensures |ds| == |raws| && forall j :: 0 <= j < |raws| ==> ds[j] == MinMax(raws[j], target)
  {
    seq(|raws|, j requires 0 <= j < |raws| => MinMax(raws[j], target))
  }

  ghost predicate SameExtent(x: seq<int16>, y: seq<int16>)
  {
    x != [] && y != [] && ExtentOf(x) == ExtentOf(y)
  }

  /** Runs with equal extents, run by run, have equal extents when joined. */
  lemma {:induction false} JoinedExtents(xs: seq<seq<int16>>, ys: seq<seq<int16>>)
    requires xs != [] && |xs| == |ys|
    requires forall j :: 0 <= j < |xs| ==> SameExtent(xs[j], ys[j])
    ensures SameExtent(Concat(xs), Concat(ys))
  {
    hide *;
    var m := |xs| - 1;
    ConcatUnfold(xs);
    ConcatUnfold(ys);
    assert SameExtent(xs[m], ys[m]);
    if m == 0 {
      OneRun(xs);
      OneRun(ys);
    } else {
      JoinedExtents(xs[..m], ys[..m]);
      JoinStep(Concat(xs[..m]), Concat(ys[..m]), xs[m], ys[m]);
    }
  }

  lemma OneRun(xs: seq<seq<int16>>)
    requires |xs| == 1
    ensures Concat(xs) == xs[0]
  {
  }

  lemma JoinStep(a: seq<int16>, b: seq<int16>, x: seq<int16>, y: seq<int16>)
    requires SameExtent(a, b) && SameExtent(x, y)
    ensures SameExtent(a + x, b + y)
  {
    hide ExtentOf, Join;
    ExtentConcat(a, x);
    ExtentConcat(b, y);
  }

  lemma DisplayKeepsExtent(windowed: seq<int16>, target: nat)
    requires windowed != [] && target >= 2
    ensures Display(windowed, target) != [] && ExtentOf(Display(windowed, target)) == ExtentOf(windowed)
  {
    hide ExtentOf, MinMax;
    MinMaxKeepsExtent(windowed, target);
  }

  /** Where a channel's history is made of whole decimated frames, its newest frames are a suffix of it. */
  lemma {:induction false} ConcatSplit(xs: seq<seq<int16>>, m: nat)
    requires m <= |xs|
    ensures Concat(xs) == Concat(xs[..m]) + Concat(xs[m..])
  {
    if m == |xs| {
      assert xs[..m] == xs;
    } else {
      var last := |xs| - 1;
      ConcatSplit(xs[..last], m);
      assert xs[..last][..m] == xs[..m];
      assert xs[m..][..last - m] == xs[..last][m..];
      assert Concat(xs[m..]) == Concat(xs[m..][..last - m]) + xs[last];
    }
  }

  /**
   * A display window that begins on a frame boundary shows, after both decimations, exactly the
   * smallest and the largest raw sample of the frames it covers.
   */
  lemma PeaksSurvive(raws: seq<seq<int16>>, m: nat, target: nat, displayTarget: nat)
    requires m < |raws| && target >= 2 && displayTarget >= 2
    requires forall j :: 0 <= j < |raws| ==> raws[j] != []
    ensures Concat(raws[m..]) != []
    ensures var history := Concat(DecimateRuns(raws, target)); var take := |Concat(DecimateRuns(raws[m..], target))|;
            && take <= |history|
            && Display(LastN(history, take), displayTarget) != []
            && ExtentOf(Display(LastN(history, take), displayTarget)) == ExtentOf(Concat(raws[m..]))
  {
    RunsKeepExtent(raws[m..], target);
    assert SameExtent(Concat(DecimateRuns(raws[m..], target)), Concat(raws[m..]));
    NewestRuns(raws, m, target);
    SameExtentIs(Concat(DecimateRuns(raws[m..], target)), Concat(raws[m..]));
    hide *;
    DisplayKeepsExtent(Concat(DecimateRuns(raws[m..], target)), displayTarget);
  }

  lemma SameExtentIs(x: seq<int16>, y: seq<int16>)
    requires SameExtent(x, y)
    ensures x != [] && y != [] && ExtentOf(x) == ExtentOf(y)
  {
  }

  /** Decimating runs one by one keeps the extent of what they hold together. */
  lemma RunsKeepExtent(runs: seq<seq<int16>>, target: nat)
    requires runs != [] && target >= 2 && forall j :: 0 <= j < |runs| ==> runs[j] != []
    ensures SameExtent(Concat(DecimateRuns(runs, target)), Concat(runs))
  {
    hide MinMax, Concat, ExtentOf;
    forall j | 0 <= j < |runs|
      ensures SameExtent(DecimateRuns(runs, target)[j], runs[j])
    {
      MinMaxKeepsExtent(runs[j], target);
    }
    hide SameExtent;
    JoinedExtents(DecimateRuns(runs, target), runs);
  }

  /** The newest frames of a decimated history are the decimation of the newest raw frames. */
  lemma NewestRuns(raws: seq<seq<int16>>, m: nat, target: nat)
    requires m <= |raws|
    ensures var history, newest := Concat(DecimateRuns(raws, target)), Concat(DecimateRuns(raws[m..], target));
            |newest| <= |history| && LastN(history, |newest|) == newest
  {
    hide MinMax, Concat;
    assert DecimateRuns(raws[m..], target) == DecimateRuns(raws, target)[m..];
    ConcatSplit(DecimateRuns(raws, target), m);
  }
}
