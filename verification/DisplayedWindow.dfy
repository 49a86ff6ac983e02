/** What the display stage shows, said without its state: the newest window since the last rate change. */
module DisplayedWindow {
  import opened Samples
  import opened Frames
  import opened ChannelMajor
  import opened Visualization
  import Decimation
  import Decimator
  import Refinement = VisualizationRefinement
  import Stage = DecimationStage
  import Peaks

  ghost predicate AllWellFormed(frames: seq<Frame>)
  {
    forall i :: 0 <= i < |frames| ==> Stage.WellFormed(frames[i])
  }

  /** The frames of a run of calls, in order. */
  function Joined(batches: seq<seq<Frame>>): seq<Frame>
  {
    if batches == [] then [] else Joined(batches[..|batches| - 1]) + batches[|batches| - 1]
  }

  ghost predicate BatchesWellFormed(batches: seq<seq<Frame>>)
  {
    forall b, i :: 0 <= b < |batches| && 0 <= i < |batches[b]| ==> Stage.WellFormed(batches[b][i])
  }

  lemma {:induction false} JoinedWellFormed(batches: seq<seq<Frame>>)
    requires BatchesWellFormed(batches)
    ensures AllWellFormed(Joined(batches))
  {
    if batches != [] {
      JoinedWellFormed(batches[..|batches| - 1]);
    }
  }

  lemma {:induction false} AcceptAllConcat(h: History, xs: seq<Frame>, ys: seq<Frame>)
    requires Shaped(h) && AllWellFormed(xs) && AllWellFormed(ys)
    ensures AllWellFormed(xs + ys) && AcceptAll(h, xs + ys) == AcceptAll(AcceptAll(h, xs), ys)
  {
    hide Accept;
    if ys == [] {
      assert xs + ys == xs;
    } else {
      var y := |ys| - 1;
      AcceptAllConcat(h, xs, ys[..y]);
      assert (xs + ys)[..|xs + ys| - 1] == xs + ys[..y];
    }
  }

  /** The unbounded version's history is made of all frames, however they were batched. */
  lemma {:induction false} UnboundedKeepsAll(batches: seq<seq<Frame>>, span: real, target: nat)
    requires BatchesWellFormed(batches)
    ensures AllWellFormed(Joined(batches)) && Shaped(EMPTY)
    ensures Refinement.UnboundedRun(EMPTY, batches, span, target).0 == AcceptAll(EMPTY, Joined(batches))
  {
    JoinedWellFormed(batches);
    if batches != [] {
      var m := |batches| - 1;
      UnboundedKeepsAll(batches[..m], span, target);
      AcceptAllConcat(EMPTY, Joined(batches[..m]), batches[m]);
      hide Accept, AcceptAll, Show, WindowOf;
    }
  }

  // ---- The history since the last rate change ----

  /**
   * Frames since the last rate change: the first one has samples and sets a positive rate, and no later
   * frame with samples sets another one. Channel counts and frame lengths may change from frame to frame.
   */
  ghost predicate Segment(frames: seq<Frame>, rate: real)
  {
    && frames != [] && rate > 0.0 && AllWellFormed(frames)
    && !Stage.IsSkipped(frames[0]) && frames[0].sampleRate == rate
    && forall i :: 0 <= i < |frames| ==> KeepsRate(frames[i], rate)
  }

  predicate KeepsRate(f: Frame, rate: real)
  {
    Stage.IsSkipped(f) || f.sampleRate <= 0.0 || f.sampleRate == rate
  }

  /** The channel count of the newest frame with samples. */
  function CountOf(frames: seq<Frame>): nat
  {
    if frames == [] then 0
    else if Stage.IsSkipped(frames[|frames| - 1]) then CountOf(frames[..|frames| - 1])
    else frames[|frames| - 1].channelCount
  }

  /** The runs of channel ch, frame by frame, since the channel last was absent. */
  ghost function Held(frames: seq<Frame>, ch: nat): (runs: seq<seq<int16>>)
    requires AllWellFormed(frames)
    ensures forall j :: 0 <= j < |runs| ==> runs[j] != []
    ensures ch < CountOf(frames) ==> runs != []
  {
    if frames == [] then []
    else
      var m := |frames| - 1;
      var f := frames[m];
      if Stage.IsSkipped(f) then Held(frames[..m], ch)
      else if f.channelCount <= ch then []
      else Held(frames[..m], ch) + [Stage.Channels(f, f.channelCount)[ch]]
  }

  /** A first frame of this rate finds no sample in the history, or clears it. */
  ghost predicate Forgets(h: History, rate: real)
  {
    (h.rate > 0.0 && h.rate != rate) || forall ch :: 0 <= ch < |h.channels| ==> h.channels[ch] == []
  }

  /** The history r has exactly the samples held of these frames. */
  ghost predicate Holds(r: History, frames: seq<Frame>, rate: real)
    requires AllWellFormed(frames)
  {
    && r.rate == rate && r.channelCount == CountOf(frames) == |r.channels|
    && forall ch :: 0 <= ch < |r.channels| ==> r.channels[ch] == Concat(Held(frames, ch))
  }

  lemma FirstFrame(h: History, f: Frame, rate: real)
    requires Shaped(h) && Forgets(h, rate) && rate > 0.0
    requires Stage.WellFormed(f) && !Stage.IsSkipped(f) && f.sampleRate == rate
    ensures AllWellFormed([f]) && Holds(Accept(h, f), [f], rate)
  {
    var r := Accept(h, f);
    assert [f][..0] == [];
    hide Stage.Channels, Concat;
    assert r.channelCount == f.channelCount == CountOf([f]);
    forall ch | 0 <= ch < |r.channels|
      ensures r.channels[ch] == Concat(Held([f], ch))
    {
      assert Held([f], ch) == [Stage.Channels(f, f.channelCount)[ch]];
      ConcatSingle(Stage.Channels(f, f.channelCount)[ch]);
    }
  }

  lemma ConcatSingle(s: seq<int16>)
    ensures Concat([s]) == s
  {
    assert [s][..0] == [];
  }

  /** A frame that keeps the rate appends to the channels it has, and ends those it has not. */
  lemma NextFrame(h: History, frames: seq<Frame>, f: Frame, rate: real)
    requires AllWellFormed(frames) && Holds(h, frames, rate) && rate > 0.0 && Stage.WellFormed(f) && KeepsRate(f, rate)
    ensures AllWellFormed(frames + [f]) && Holds(Accept(h, f), frames + [f], rate)
  {
    var all, r := frames + [f], Accept(h, f);
    assert all[..|frames|] == frames && all[|frames|] == f;
    if !Stage.IsSkipped(f) {
      hide Stage.Channels, Concat, Held;
      assert MeetRate(h, f.sampleRate) == h;
      forall ch | 0 <= ch < |r.channels|
        ensures r.channels[ch] == Concat(Held(all, ch))
      {
        NextRun(frames, f, ch);
        AbsentChannel(frames, ch);
      }
    }
  }

  lemma NextRun(frames: seq<Frame>, f: Frame, ch: nat)
    requires AllWellFormed(frames) && Stage.WellFormed(f) && !Stage.IsSkipped(f) && ch < f.channelCount
    ensures AllWellFormed(frames + [f])
    ensures Concat(Held(frames + [f], ch)) == Concat(Held(frames, ch)) + Stage.Channels(f, f.channelCount)[ch]
  {
    var all := frames + [f];
    HeldStep(frames, f, ch);
    ConcatUnfold(Held(all, ch));
  }

  lemma {:induction false} AbsentChannel(frames: seq<Frame>, ch: nat)
    requires AllWellFormed(frames)
    ensures ch >= CountOf(frames) ==> Concat(Held(frames, ch)) == []
  {
    if frames != [] {
      AbsentChannel(frames[..|frames| - 1], ch);
    }
  }

  /** Since the last rate change, each channel's history is the concatenation of its runs. */
  lemma {:induction false} SinceReset(h: History, frames: seq<Frame>, rate: real)
    requires Shaped(h) && Forgets(h, rate) && Segment(frames, rate)
    ensures Holds(AcceptAll(h, frames), frames, rate)
  {
    var m := |frames| - 1;
    var f := frames[m];
    assert KeepsRate(f, rate);
    hide Accept, Concat, Forgets, Held, Holds, CountOf;
    if m == 0 {
      assert frames[..0] == [] && frames == [f];
      FirstFrame(h, f, rate);
    } else {
      assert frames[..m][0] == frames[0] && frames == frames[..m] + [f];
      SinceReset(h, frames[..m], rate);
      NextFrame(AcceptAll(h, frames[..m]), frames[..m], f, rate);
    }
  }

  // ---- What is shown ----

  /**
   * The outcome shows, of every channel, the newest `take` samples of its stream: as they are if there
   * are at most `target` of them, and otherwise as the extents of target / 2 buckets.
   */
  ghost predicate ShowsNewest(o: Outcome, streams: seq<seq<int16>>, take: nat, rate: real, target: nat)
  {
    var shown := if take <= target then take else if target < 2 then 0 else target - target % 2;
    && (forall ch :: 0 <= ch < |streams| ==> take <= |streams[ch]|)
    && if shown == 0 then o.result == Stage.NoData && o.out == None
       else
         && o.result == Stage.Ok && o.out.Some? && Stage.WellFormed(o.out.value)
         && o.out.value.channelCount == |streams| && o.out.value.sampleRate == rate
         && o.out.value.samplesPerChannel == shown
         && forall ch :: 0 <= ch < |streams| ==>
              var newest := LastN(streams[ch], take);
              ChannelIs(o.out.value, ch, if take <= target then newest else Decimator.MinMax(newest, target))
  }

  ghost predicate ChannelIs(f: Frame, ch: nat, samples: seq<int16>)
  {
    && 0 <= ch * f.samplesPerChannel <= ch * f.samplesPerChannel + f.samplesPerChannel <= |f.data|
    && Channel(f.data, f.samplesPerChannel, ch) == samples
  }

  lemma ShownWindow(h: History, window: nat, target: nat)
    requires Shaped(h) && h.channels != [] && window > 0 && Least(h.channels) > 0
    ensures ShowsNewest(Show(h, window, target), h.channels, Min(Least(h.channels), window), h.rate, target)
    ensures Show(h, window, target).coverage == Coverage(Least(h.channels), window)
  {
    assert h.channels[0] != [];
    Refinement.ShowIs(h, window, target);
    var take := Min(Least(h.channels), window);
    var parts := DisplayAll(h.channels, take, target);
    DisplayLengths(h.channels, take, target);
    assert forall ch :: 0 <= ch < |h.channels| ==> take <= |h.channels[ch]|;
    hide *;
    PartsShown(parts, DisplayLength(take, target), h.rate);
    ShowsParts(Show(h, window, target), h.channels, take, h.rate, target, parts);
  }

  lemma PartsShown(parts: seq<seq<int16>>, spc: nat, rate: real)
    requires forall ch :: 0 <= ch < |parts| ==> |parts[ch]| == spc
    ensures var f := Frame(0, |parts|, spc, rate, Concat(parts));
            Stage.WellFormed(f) && forall ch :: 0 <= ch < |parts| ==> ChannelIs(f, ch, parts[ch])
  {
    ConcatLength(parts, spc);
    hide Concat;
    forall ch | 0 <= ch < |parts|
      ensures ChannelIs(Frame(0, |parts|, spc, rate, Concat(parts)), ch, parts[ch])
    {
      ChannelOfConcat(parts, spc, ch);
    }
  }

  lemma ShowsParts(o: Outcome, channels: seq<seq<int16>>, take: nat, rate: real, target: nat, parts: seq<seq<int16>>)
    requires channels != [] && forall ch :: 0 <= ch < |channels| ==> take <= |channels[ch]|
    requires |parts| == |channels| && parts == DisplayAll(channels, take, target)
    requires forall ch :: 0 <= ch < |parts| ==> |parts[ch]| == DisplayLength(take, target)
    requires var f := Frame(0, |parts|, DisplayLength(take, target), rate, Concat(parts));
             && Stage.WellFormed(f) && (forall ch :: 0 <= ch < |parts| ==> ChannelIs(f, ch, parts[ch]))
             && o.result == (if parts[0] == [] then Stage.NoData else Stage.Ok)
             && o.out == if parts[0] == [] then None else Some(f)
    ensures ShowsNewest(o, channels, take, rate, target)
  {
    hide Decimator.MinMax, DisplayAll, ChannelIs, Concat, LastN, Stage.WellFormed;
    assert |parts[0]| == DisplayLength(take, target);
    forall ch | 0 <= ch < |channels| && parts[0] != []
      ensures ChannelIs(o.out.value, ch, Display(LastN(channels[ch], take), target))
    {
      assert parts[ch] == Display(LastN(channels[ch], take), target);
    }
  }

  /** All channels since the last rate change. */
  ghost function Streams(frames: seq<Frame>): (ss: seq<seq<int16>>)
    requires AllWellFormed(frames)
    ensures |ss| == CountOf(frames) && forall ch :: 0 <= ch < |ss| ==> ss[ch] == Concat(Held(frames, ch))
  {
    seq(CountOf(frames), ch requires 0 <= ch => Concat(Held(frames, ch)))
  }

  lemma NonEmptyRuns(runs: seq<seq<int16>>)
    requires runs != [] && forall j :: 0 <= j < |runs| ==> runs[j] != []
    ensures Concat(runs) != []
  {
    assert runs[|runs| - 1] != [];
  }

  lemma LastShown(batches: seq<seq<Frame>>, span: real, target: nat)
    requires batches != [] && BatchesWellFormed(batches) && Shaped(EMPTY)
    ensures var r := Refinement.UnboundedRun(EMPTY, batches, span, target); var w := WindowOf(r.0, span);
            && r.1 != [] && r.1[|r.1| - 1] == if w > 0 then Show(r.0, w, target) else NOTHING
  {
    hide Show, AcceptAll;
  }

  // ---- Both decimations of the pipeline ----

  lemma {:induction false} DecimatedBatchWellFormed(raw: seq<Frame>, target: nat, fallback: real)
    requires AllWellFormed(raw)
    ensures AllWellFormed(Stage.DecimatedBatch(raw, Decimation.MinMax, target, fallback))
  {
    if raw != [] {
      var m := |raw| - 1;
      DecimatedBatchWellFormed(raw[..m], target, fallback);
      Stage.DecimatedFrameWellFormed(raw[m], Decimation.MinMax, target, fallback);
      hide Stage.DecimatedFrame, Stage.WellFormed;
    }
  }

  /** The frames that the pipeline's MinMax stage makes of the raw frames. */
  ghost function DecimatedFrames(raw: seq<Frame>, target: nat, fallback: real): (ds: seq<Frame>)
    requires AllWellFormed(raw)
    ensures AllWellFormed(ds)
  {
    DecimatedBatchWellFormed(raw, target, fallback);
    Stage.DecimatedBatch(raw, Decimation.MinMax, target, fallback)
  }

  /** A channel's stream after the pipeline is its raw stream, decimated frame by frame. */
  lemma {:induction false} DecimatedRuns(raw: seq<Frame>, target: nat, fallback: real, ch: nat)
    requires AllWellFormed(raw) && target >= 2
    ensures var ds := DecimatedFrames(raw, target, fallback);
            CountOf(ds) == CountOf(raw) && Held(ds, ch) == Peaks.DecimateRuns(Held(raw, ch), target)
  {
    if raw != [] {
      var m := |raw| - 1;
      DecimatedRuns(raw[..m], target, fallback, ch);
      BatchUnfold(raw, target, fallback);
      assert raw == raw[..m] + [raw[m]];
      hide *;
      if Stage.IsSkipped(raw[m]) {
        SkippedRun(raw[..m], raw[m], ch);
      } else {
        StillHasSamples(raw[m], target, fallback);
        var d := Stage.DecimatedFrame(raw[m], Decimation.MinMax, target, fallback);
        HeldStep(raw[..m], raw[m], ch);
        HeldStep(DecimatedFrames(raw[..m], target, fallback), d, ch);
        if ch < raw[m].channelCount {
          OneDecimatedRun(raw[m], target, fallback, ch);
          DecimateRunsStep(Held(raw[..m], ch), Stage.Channels(raw[m], raw[m].channelCount)[ch], target);
        } else {
          NoRuns(target);
        }
      }
    } else {
      NoRuns(target);
    }
  }

  lemma NoRuns(target: nat)
    ensures Peaks.DecimateRuns([], target) == []
  {
  }

  lemma DecimateRunsStep(runs: seq<seq<int16>>, run: seq<int16>, target: nat)
    ensures Peaks.DecimateRuns(runs + [run], target) ==
            Peaks.DecimateRuns(runs, target) + [Decimator.MinMax(run, target)]
  {
    hide Decimator.MinMax;
  }

  lemma BatchUnfold(raw: seq<Frame>, target: nat, fallback: real)
    requires AllWellFormed(raw) && raw != []
    ensures var m := |raw| - 1; var ds := DecimatedFrames(raw[..m], target, fallback);
            && Stage.WellFormed(raw[m])
            && (Stage.IsSkipped(raw[m]) ==> DecimatedFrames(raw, target, fallback) == ds)
            && (!Stage.IsSkipped(raw[m]) ==>
                  DecimatedFrames(raw, target, fallback) ==
                  ds + [Stage.DecimatedFrame(raw[m], Decimation.MinMax, target, fallback)])
  {
    hide Stage.DecimatedFrame;
  }

  lemma SkippedRun(frames: seq<Frame>, f: Frame, ch: nat)
    requires AllWellFormed(frames) && Stage.WellFormed(f) && Stage.IsSkipped(f)
    ensures AllWellFormed(frames + [f])
    ensures Held(frames + [f], ch) == Held(frames, ch) && CountOf(frames + [f]) == CountOf(frames)
  {
    assert (frames + [f])[..|frames|] == frames;
  }

  lemma HeldStep(frames: seq<Frame>, f: Frame, ch: nat)
    requires AllWellFormed(frames) && Stage.WellFormed(f) && !Stage.IsSkipped(f)
    ensures AllWellFormed(frames + [f]) && CountOf(frames + [f]) == f.channelCount
    ensures Held(frames + [f], ch) ==
            if ch < f.channelCount then Held(frames, ch) + [Stage.Channels(f, f.channelCount)[ch]] else []
  {
    assert (frames + [f])[..|frames|] == frames;
  }

  lemma StillHasSamples(f: Frame, target: nat, fallback: real)
    requires Stage.WellFormed(f) && !Stage.IsSkipped(f) && target >= 2
    ensures var d := Stage.DecimatedFrame(f, Decimation.MinMax, target, fallback);
            Stage.WellFormed(d) && !Stage.IsSkipped(d) && d.channelCount == f.channelCount
  {
    Stage.DecimatedFrameWellFormed(f, Decimation.MinMax, target, fallback);
  }

  lemma OneDecimatedRun(f: Frame, target: nat, fallback: real, ch: nat)
    requires Stage.WellFormed(f) && ch < f.channelCount
    ensures var g := Stage.DecimatedFrame(f, Decimation.MinMax, target, fallback);
            && Stage.WellFormed(g) && g.channelCount == f.channelCount
            && Stage.Channels(g, g.channelCount)[ch] == Decimator.MinMax(Stage.Channels(f, f.channelCount)[ch], target)
  {
    var g := Stage.DecimatedFrame(f, Decimation.MinMax, target, fallback);
    Stage.DecimatedFrameWellFormed(f, Decimation.MinMax, target, fallback);
    Stage.ChannelsDecimateSeparately(f, Decimation.MinMax, target, fallback, ch);
    hide Concat, Decimator.MinMax, Stage.Channels;
    Stage.ChannelsAt(g, g.channelCount, ch);
  }

  /** The newest runs of a channel, decimated twice, keep the extremes of their raw samples. */
  lemma ChannelPeaks(held: seq<seq<int16>>, runs: seq<seq<int16>>, m: nat, target: nat, displayTarget: nat)
    requires m < |runs| && target >= 2 && displayTarget >= 2 && held == Peaks.DecimateRuns(runs, target)
    requires forall j :: 0 <= j < |runs| ==> runs[j] != []
    ensures |Concat(held[m..])| <= |Concat(held)|
    ensures Peaks.SameExtent(Display(LastN(Concat(held), |Concat(held[m..])|), displayTarget), Concat(runs[m..]))
  {
    assert held[m..] == Peaks.DecimateRuns(runs[m..], target);
    Peaks.PeaksSurvive(runs, m, target, displayTarget);
    hide Concat, ExtentOf, Display, Decimator.MinMax, LastN;
  }
}
