/** DecimationStage: each channel of each frame is sliced out, decimated and put back. */
module DecimationStage {
  import opened Samples
  import opened Frames
  import opened ChannelMajor
  import opened Decimation
  import Decimator
  import Lttb

  datatype StageResult = Ok | NoData

  /** The buffer holds exactly one run of samplesPerChannel samples for each channel. */
  predicate WellFormed(f: Frame)
  {
    |f.data| == f.channelCount * f.samplesPerChannel
  }

  /** The channels of a frame, one after another. */
  function Channels(f: Frame, m: nat): (cs: seq<seq<int16>>)
    requires WellFormed(f) && m <= f.channelCount
    ensures |cs| == m && forall ch :: 0 <= ch < m ==> |cs[ch]| == f.samplesPerChannel
  {
    if m == 0 then []
    else
      ChannelBounds(m - 1, f.channelCount, f.samplesPerChannel);
      Channels(f, m - 1) + [Channel(f.data, f.samplesPerChannel, m - 1)]
  }

  lemma {:induction false} ChannelsAt(f: Frame, m: nat, ch: nat)
    requires WellFormed(f) && ch < m <= f.channelCount
    ensures 0 <= ch * f.samplesPerChannel <= ch * f.samplesPerChannel + f.samplesPerChannel <= |f.data|
    ensures Channels(f, m)[ch] == Channel(f.data, f.samplesPerChannel, ch)
  {
    ChannelBounds(ch, f.channelCount, f.samplesPerChannel);
    if ch < m - 1 {
      ChannelsAt(f, m - 1, ch);
      assert Channels(f, m)[ch] == Channels(f, m - 1)[ch];
    }
  }

  ghost function DecimateEach(cs: seq<seq<int16>>, mode: Mode, target: nat): (ds: seq<seq<int16>>)
    ensures |ds| == |cs| && forall ch :: 0 <= ch < |cs| ==> ds[ch] == Decimated(cs[ch], mode, target)
  {
    seq(|cs|, ch requires 0 <= ch < |cs| => Decimated(cs[ch], mode, target))
  }

  /** The rate that keeps the frame's time span, in exact arithmetic. */
  function RescaledRate(rate: real, fallback: real, spc: nat, decimatedSpc: nat): real
  {
    var inputRate := if rate > 0.0 then rate else fallback;
    if spc > 0 && inputRate > 0.0 then inputRate * (decimatedSpc as real / spc as real) else inputRate
  }

  /** A decimated frame spans the same time as its input: samples over rate stay the same. */
  lemma RescaledRateKeepsTime(rate: real, fallback: real, spc: nat, decimatedSpc: nat)
    requires (rate > 0.0 || fallback > 0.0) && spc > 0 && decimatedSpc > 0
    ensures var inputRate := if rate > 0.0 then rate else fallback;
            var outputRate := RescaledRate(rate, fallback, spc, decimatedSpc);
            outputRate > 0.0 && decimatedSpc as real / outputRate == spc as real / inputRate
  {
    var r, n, d := if rate > 0.0 then rate else fallback, spc as real, decimatedSpc as real;
    var out := r * (d / n);
    RatioPositive(d, n, r);
    CrossMultiply(d, out, n, r);
  }

  lemma RatioPositive(d: real, n: real, r: real)
    requires d > 0.0 && n > 0.0 && r > 0.0
    ensures r * (d / n) > 0.0 && r * (d / n) * n == d * r
  {
    assert d / n > 0.0;
    assert d / n * n == d;
    assert r * (d / n) * n == r * (d / n * n);
  }

  lemma CrossMultiply(d: real, out: real, n: real, r: real)
    requires out > 0.0 && r > 0.0 && out * n == d * r
    ensures d / out == n / r
  {
    assert n / r * r == n;
    assert d * r == out * (n / r) * r;
    CancelFactor(d, out * (n / r), r);
    assert d / out == (n / r) * out / out;
  }

  lemma CancelFactor(a: real, b: real, r: real)
    requires r > 0.0 && a * r == b * r
    ensures a == b
  {
    assert (a - b) * r == 0.0;
  }

  ghost function DecimatedFrame(f: Frame, mode: Mode, target: nat, fallback: real): Frame
    requires WellFormed(f)
  {
    var spc := DecimatedLength(f.samplesPerChannel, mode, target);
    Frame(f.sequence, f.channelCount, spc, RescaledRate(f.sampleRate, fallback, f.samplesPerChannel, spc),
          Concat(DecimateEach(Channels(f, f.channelCount), mode, target)))
  }

  /** All channels decimate to the same length, so the output frame is well formed again. */
  lemma DecimatedFrameWellFormed(f: Frame, mode: Mode, target: nat, fallback: real)
    requires WellFormed(f)
    ensures WellFormed(DecimatedFrame(f, mode, target, fallback))
  {
    var parts := DecimateEach(Channels(f, f.channelCount), mode, target);
    EachHasLength(f, mode, target);
    hide Decimated, Concat, Channels;
    ConcatLength(parts, DecimatedLength(f.samplesPerChannel, mode, target));
  }

  lemma EachHasLength(f: Frame, mode: Mode, target: nat)
    requires WellFormed(f)
    ensures forall ch :: 0 <= ch < f.channelCount ==>
      |DecimateEach(Channels(f, f.channelCount), mode, target)[ch]| ==
      DecimatedLength(f.samplesPerChannel, mode, target)
  {
    hide Decimated, DecimatedLength, Channels;
    var cs := Channels(f, f.channelCount);
    forall ch | 0 <= ch < f.channelCount
      ensures |Decimated(cs[ch], mode, target)| == DecimatedLength(f.samplesPerChannel, mode, target)
    {
      LengthIsDecided(cs[ch], mode, target);
    }
  }

  /** Channel ch of the output frame is the decimation of channel ch of the input frame. */
  lemma ChannelsDecimateSeparately(f: Frame, mode: Mode, target: nat, fallback: real, ch: nat)
    requires WellFormed(f) && ch < f.channelCount
    ensures var g := DecimatedFrame(f, mode, target, fallback);
            && 0 <= ch * g.samplesPerChannel <= ch * g.samplesPerChannel + g.samplesPerChannel <= |g.data|
            && Channel(g.data, g.samplesPerChannel, ch) == Decimated(Channels(f, f.channelCount)[ch], mode, target)
  {
    hide Decimated, Concat, Channels, Channel;
    EachHasLength(f, mode, target);
    var parts := DecimateEach(Channels(f, f.channelCount), mode, target);
    ChannelOfConcat(parts, DecimatedLength(f.samplesPerChannel, mode, target), ch);
  }

  predicate IsSkipped(f: Frame)
  {
    f.channelCount == 0 || f.samplesPerChannel == 0
  }

  ghost function DecimatedBatch(batch: seq<Frame>, mode: Mode, target: nat, fallback: real): seq<Frame>
    requires forall i :: 0 <= i < |batch| ==> WellFormed(batch[i])
  {
    if batch == [] then []
    else
      var m := |batch| - 1;
      DecimatedBatch(batch[..m], mode, target, fallback) +
      if IsSkipped(batch[m]) then [] else [DecimatedFrame(batch[m], mode, target, fallback)]
  }

  // ---- The stage said outright ----

  /** The frames that carry samples, in order. */
  ghost function Carrying(batch: seq<Frame>): seq<Frame>
  {
    if batch == [] then []
    else
      var m := |batch| - 1;
      Carrying(batch[..m]) +
      if batch[m].channelCount > 0 && batch[m].samplesPerChannel > 0 then [batch[m]] else []
  }

  /**
   * One channel, by the mode that was set: LTTB below 100 million samples per second of the stage's
   * rate, MinMax for LTTB from there on, MinMax where it was asked for, and None as a copy.
   */
  ghost predicate RunsMode(input: seq<int16>, output: seq<int16>, mode: Mode, target: nat, stageRate: real)
  {
    match mode
    case None => output == input
    case MinMax => Decimator.IsMinMax(input, target, output)
    case LTTB =>
      if stageRate < 100000000.0 then Lttb.IsLttb(input, target, output) else Decimator.IsMinMax(input, target, output)
  }

  ghost predicate SameTime(src: Frame, dst: Frame, stageRate: real)
  {
    var inputRate := if src.sampleRate > 0.0 then src.sampleRate else stageRate;
    inputRate > 0.0 && src.samplesPerChannel > 0 && dst.samplesPerChannel > 0 ==>
      dst.sampleRate > 0.0 &&
      dst.samplesPerChannel as real / dst.sampleRate == src.samplesPerChannel as real / inputRate
  }

  /** dst is src, decimated channel by channel, at the rate that keeps its time span. */
  ghost predicate IsDecimatedFrame(src: Frame, dst: Frame, mode: Mode, target: nat, stageRate: real)
    requires WellFormed(src)
  {
    && WellFormed(dst) && dst.sequence == src.sequence && dst.channelCount == src.channelCount
    && SameTime(src, dst, stageRate)
    && forall ch :: 0 <= ch < src.channelCount ==>
         RunsMode(ChannelOf(src, ch), ChannelOf(dst, ch), mode, target, stageRate)
  }

  /** The samples of channel ch. */
  ghost function ChannelOf(f: Frame, ch: nat): seq<int16>
    requires WellFormed(f) && ch < f.channelCount
  {
    ChannelBounds(ch, f.channelCount, f.samplesPerChannel);
    f.data[ch * f.samplesPerChannel..ch * f.samplesPerChannel + f.samplesPerChannel]
  }

  lemma ModeRuns(input: seq<int16>, mode: Mode, target: nat, stageRate: real)
    ensures RunsMode(input, Decimated(input, EffectiveMode(mode, stageRate), target), mode, target, stageRate)
  {
    hide Decimator.MinMax, Decimator.IsMinMax, Lttb.IsLttb;
    Decimator.MinMaxIs(input, target);
  }

  lemma FrameIsDecimated(src: Frame, mode: Mode, target: nat, stageRate: real)
    requires WellFormed(src) && !IsSkipped(src)
    ensures IsDecimatedFrame(src, DecimatedFrame(src, EffectiveMode(mode, stageRate), target, stageRate), mode, target,
                             stageRate)
  {
    var dst := DecimatedFrame(src, EffectiveMode(mode, stageRate), target, stageRate);
    DecimatedFrameWellFormed(src, EffectiveMode(mode, stageRate), target, stageRate);
    KeepsTime(src, EffectiveMode(mode, stageRate), target, stageRate);
    hide RunsMode, Concat, Channels, DecimatedLength, RescaledRate, SameTime, DecimateEach, ChannelOf, WellFormed;
    forall ch | 0 <= ch < src.channelCount
      ensures RunsMode(ChannelOf(src, ch), ChannelOf(dst, ch), mode, target, stageRate)
    {
      ChannelRuns(src, mode, target, stageRate, ch);
    }
  }

  lemma ChannelRuns(src: Frame, mode: Mode, target: nat, stageRate: real, ch: nat)
    requires WellFormed(src) && ch < src.channelCount
    ensures var dst := DecimatedFrame(src, EffectiveMode(mode, stageRate), target, stageRate);
            && WellFormed(dst) && dst.channelCount == src.channelCount
            && RunsMode(ChannelOf(src, ch), ChannelOf(dst, ch), mode, target, stageRate)
  {
    hide RunsMode, Decimated, Concat, Channels, DecimatedLength, RescaledRate, ChannelOf, WellFormed, DecimateEach;
    var dst := DecimatedFrame(src, EffectiveMode(mode, stageRate), target, stageRate);
    DecimatedFrameWellFormed(src, EffectiveMode(mode, stageRate), target, stageRate);
    assert dst.channelCount == src.channelCount;
    hide DecimatedFrame, EffectiveMode;
    OutputChannel(src, dst, EffectiveMode(mode, stageRate), target, stageRate, ch);
    ModeRuns(ChannelOf(src, ch), mode, target, stageRate);
  }

  lemma OutputChannel(src: Frame, dst: Frame, mode: Mode, target: nat, stageRate: real, ch: nat)
    requires WellFormed(src) && WellFormed(dst) && ch < src.channelCount == dst.channelCount
    requires dst == DecimatedFrame(src, mode, target, stageRate)
    ensures ChannelOf(dst, ch) == Decimated(ChannelOf(src, ch), mode, target)
  {
    hide Decimated, DecimatedFrame, WellFormed, Channels;
    ChannelOfAt(src, ch);
    ChannelOfAt(dst, ch);
    ChannelsDecimateSeparately(src, mode, target, stageRate, ch);
    ChannelsAt(src, src.channelCount, ch);
    hide Channel, ChannelOf;
  }

  lemma ChannelOfAt(f: Frame, ch: nat)
    requires WellFormed(f) && ch < f.channelCount
    ensures 0 <= ch * f.samplesPerChannel <= ch * f.samplesPerChannel + f.samplesPerChannel <= |f.data|
    ensures ChannelOf(f, ch) == Channel(f.data, f.samplesPerChannel, ch)
  {
    ChannelBounds(ch, f.channelCount, f.samplesPerChannel);
  }

  lemma KeepsTime(src: Frame, mode: Mode, target: nat, stageRate: real)
    requires WellFormed(src)
    ensures SameTime(src, DecimatedFrame(src, mode, target, stageRate), stageRate)
  {
    var n, d := src.samplesPerChannel, DecimatedLength(src.samplesPerChannel, mode, target);
    hide DecimatedLength, RescaledRate, Channels;
    if (src.sampleRate > 0.0 || stageRate > 0.0) && n > 0 && d > 0 {
      RescaledRateKeepsTime(src.sampleRate, stageRate, n, d);
    }
  }

  /** Each frame that carries samples yields its decimated frame, and nothing else is put out. */
  ghost predicate IsDecimatedBatch(batch: seq<Frame>, out: seq<Frame>, mode: Mode, target: nat, stageRate: real)
    requires forall i :: 0 <= i < |batch| ==> WellFormed(batch[i])
  {
    CarryingWellFormed(batch);
    && |out| == |Carrying(batch)|
    && forall i :: 0 <= i < |out| ==> IsDecimatedFrame(Carrying(batch)[i], out[i], mode, target, stageRate)
  }

  lemma {:induction false} CarryingWellFormed(batch: seq<Frame>)
    requires forall i :: 0 <= i < |batch| ==> WellFormed(batch[i])
    ensures forall i :: 0 <= i < |Carrying(batch)| ==> WellFormed(Carrying(batch)[i])
  {
    if batch != [] {
      CarryingWellFormed(batch[..|batch| - 1]);
      hide WellFormed;
    }
  }

  lemma {:induction false} BatchIsDecimated(batch: seq<Frame>, mode: Mode, target: nat, stageRate: real)
    requires forall i :: 0 <= i < |batch| ==> WellFormed(batch[i])
    ensures IsDecimatedBatch(batch, DecimatedBatch(batch, EffectiveMode(mode, stageRate), target, stageRate), mode,
                             target, stageRate)
  {
    if batch != [] {
      var m := |batch| - 1;
      LastDecimated(batch, EffectiveMode(mode, stageRate), target, stageRate);
      hide DecimatedFrame, IsDecimatedFrame, IsDecimatedBatch, DecimatedBatch, WellFormed, EffectiveMode, Carrying;
      BatchIsDecimated(batch[..m], mode, target, stageRate);
      if IsSkipped(batch[m]) {
        SameDecimated(batch, DecimatedBatch(batch, EffectiveMode(mode, stageRate), target, stageRate), mode, target,
                      stageRate);
      } else {
        FrameIsDecimated(batch[m], mode, target, stageRate);
        OneMoreDecimated(batch, DecimatedBatch(batch[..m], EffectiveMode(mode, stageRate), target, stageRate),
                         DecimatedFrame(batch[m], EffectiveMode(mode, stageRate), target, stageRate), mode, target,
                         stageRate);
      }
    }
  }

  lemma LastDecimated(batch: seq<Frame>, mode: Mode, target: nat, fallback: real)
    requires batch != [] && forall i :: 0 <= i < |batch| ==> WellFormed(batch[i])
    ensures var m := |batch| - 1; var before := DecimatedBatch(batch[..m], mode, target, fallback);
            DecimatedBatch(batch, mode, target, fallback) ==
            if IsSkipped(batch[m]) then before else before + [DecimatedFrame(batch[m], mode, target, fallback)]
  {
    hide DecimatedFrame, WellFormed;
  }

  lemma SameDecimated(batch: seq<Frame>, out: seq<Frame>, mode: Mode, target: nat, stageRate: real)
    requires batch != [] && forall i :: 0 <= i < |batch| ==> WellFormed(batch[i])
    requires IsDecimatedBatch(batch[..|batch| - 1], out, mode, target, stageRate) && IsSkipped(batch[|batch| - 1])
    ensures IsDecimatedBatch(batch, out, mode, target, stageRate)
  {
    hide IsDecimatedFrame, WellFormed;
    assert Carrying(batch) == Carrying(batch[..|batch| - 1]);
  }

  lemma OneMoreDecimated(batch: seq<Frame>, out: seq<Frame>, dst: Frame, mode: Mode, target: nat, stageRate: real)
    requires batch != [] && forall i :: 0 <= i < |batch| ==> WellFormed(batch[i])
    requires IsDecimatedBatch(batch[..|batch| - 1], out, mode, target, stageRate) && !IsSkipped(batch[|batch| - 1])
    requires IsDecimatedFrame(batch[|batch| - 1], dst, mode, target, stageRate)
    ensures IsDecimatedBatch(batch, out + [dst], mode, target, stageRate)
  {
    CarryingWellFormed(batch);
    hide IsDecimatedFrame, WellFormed;
    assert Carrying(batch) == Carrying(batch[..|batch| - 1]) + [batch[|batch| - 1]];
  }

  class DecimationStage {
    var mode: Mode
    var targetPoints: nat
    var sampleRate: real

    constructor (mode: Mode, targetPoints: nat)
      ensures this.mode == mode && this.targetPoints == targetPoints && sampleRate == 0.0
    {
      this.mode, this.targetPoints, sampleRate := mode, targetPoints, 0.0;
    }

    function CurrentMode(): Mode
      reads this
    {
      EffectiveMode(mode, sampleRate)
    }

    method Process(batch: seq<Frame>) returns (result: StageResult, out: seq<Frame>)
      requires forall i :: 0 <= i < |batch| ==> WellFormed(batch[i])
      ensures batch == [] ==> result == NoData && out == []
      ensures batch != [] ==> result == Ok
      ensures out == DecimatedBatch(batch, CurrentMode(), targetPoints, sampleRate)
      ensures IsDecimatedBatch(batch, out, mode, targetPoints, sampleRate)
    {
      BatchIsDecimated(batch, mode, targetPoints, sampleRate);
      hide IsDecimatedBatch;
      if batch == [] { return NoData, []; }
      var curMode, curTarget := CurrentMode(), targetPoints;
      out := [];
      hide DecimatedFrame;
      for i := 0 to |batch|
        invariant out == DecimatedBatch(batch[..i], curMode, curTarget, sampleRate)
      {
        assert batch[..i + 1][..i] == batch[..i];
        if !IsSkipped(batch[i]) {
          var dst := ProcessFrame(batch[i], curMode, curTarget, sampleRate);
          out := out + [dst];
        }
      }
      assert batch[..|batch|] == batch;
      result := Ok;
    }
  }

  /** One iteration of the frame loop. */
  method ProcessFrame(src: Frame, mode: Mode, target: nat, fallback: real) returns (dst: Frame)
    requires WellFormed(src) && !IsSkipped(src)
    ensures dst == DecimatedFrame(src, mode, target, fallback)
  {
    hide Decimated, Concat, DecimatedLength;
    var results: seq<seq<int16>> := [];
    var decimatedSpc := 0;
    var cs := Channels(src, src.channelCount);
    for ch := 0 to src.channelCount
      invariant |results| == ch
      invariant forall c :: 0 <= c < ch ==> results[c] == Decimated(cs[c], mode, target)
      invariant ch > 0 ==> decimatedSpc == |results[0]|
    {
      var r := Decimate(cs[ch], mode, target);
      results := results + [r];
      if ch == 0 { decimatedSpc := |r|; }
    }
    assert results == DecimateEach(cs, mode, target);
    EachHasLength(src, mode, target);
    var data := Assemble(results, decimatedSpc);
    dst := Frame(src.sequence, src.channelCount, decimatedSpc,
                 RescaledRate(src.sampleRate, fallback, src.samplesPerChannel, decimatedSpc), data[..]);
  }
}
