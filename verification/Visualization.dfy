/**
 * VisualizationStage: a sliding display window over an accumulated history, in its two forms - the
 * bounded history that the code keeps, and the unbounded one it stands for.
 */
module Visualization {
  import opened Samples
  import opened Frames
  import opened ChannelMajor
  import Decimator
  import SimdMinMax
  import Stage = DecimationStage

  /** Per-channel history since the last rate change, and where each frame of channel 0 ended. */
  datatype History = History(channels: seq<seq<int16>>, rate: real, channelCount: nat, frameEnds: seq<nat>,
                             appended: nat)

  const EMPTY := History([], 0.0, 0, [], 0)

  predicate Shaped(h: History)
  {
    |h.channels| == h.channelCount
  }

  // ---- Step 1: accumulate ----

  function Emptied(channels: seq<seq<int16>>): (r: seq<seq<int16>>)
    ensures |r| == |channels| && forall ch :: 0 <= ch < |r| ==> r[ch] == []
  {
    seq(|channels|, _ => [])
  }

  /** A new positive rate forgets everything. */
  function MeetRate(h: History, rate: real): History
  {
    if rate > 0.0 then
      (if h.rate > 0.0 && rate != h.rate then h.(channels := Emptied(h.channels), frameEnds := [], appended := 0)
       else h)
        .(rate := rate)
    else h
  }

  function Resized(channels: seq<seq<int16>>, count: nat): (r: seq<seq<int16>>)
    ensures |r| == count
    ensures forall ch :: 0 <= ch < count ==> r[ch] == if ch < |channels| then channels[ch] else []
  {
    seq(count, ch requires 0 <= ch => if ch < |channels| then channels[ch] else [])
  }

  function Append(channels: seq<seq<int16>>, added: seq<seq<int16>>): (r: seq<seq<int16>>)
    requires |channels| == |added|
    ensures |r| == |channels| && forall ch :: 0 <= ch < |r| ==> r[ch] == channels[ch] + added[ch]
  {
    seq(|channels|, ch requires 0 <= ch < |channels| => channels[ch] + added[ch])
  }

  /** What one frame adds to the history. */
  function Accept(h: History, f: Frame): (r: History)
    requires Shaped(h) && Stage.WellFormed(f)
    ensures Shaped(r)
  {
    if Stage.IsSkipped(f) then h
    else
      var g := MeetRate(h, f.sampleRate);
      g.(channels := Append(Resized(g.channels, f.channelCount), Stage.Channels(f, f.channelCount)),
         channelCount := f.channelCount,
         appended := g.appended + f.samplesPerChannel,
         frameEnds := g.frameEnds + [g.appended + f.samplesPerChannel])
  }

  function AcceptAll(h: History, batch: seq<Frame>): (r: History)
    requires Shaped(h) && forall i :: 0 <= i < |batch| ==> Stage.WellFormed(batch[i])
    ensures Shaped(r)
  {
    if batch == [] then h
    else Accept(AcceptAll(h, batch[..|batch| - 1]), batch[|batch| - 1])
  }

  // ---- Step 2: trim ----

  function Capped(s: seq<int16>, most: nat): (r: seq<int16>)
    ensures |r| <= most
  {
    if |s| > most then LastN(s, most) else s
  }

  function CappedAll(channels: seq<seq<int16>>, most: nat): (r: seq<seq<int16>>)
    ensures |r| == |channels| && forall ch :: 0 <= ch < |r| ==> r[ch] == Capped(channels[ch], most)
  {
    seq(|channels|, ch requires 0 <= ch < |channels| => Capped(channels[ch], most))
  }

  /** Drop the frame ends that lie before the start of channel 0's history. */
  function Pruned(ends: seq<nat>, start: int): (r: seq<nat>)
    ensures |r| <= |ends| && r == ends[|ends| - |r|..]
    ensures forall i :: 0 <= i < |ends| - |r| ==> ends[i] <= start
    ensures r != [] ==> r[0] > start
  {
    if ends != [] && ends[0] <= start then Pruned(ends[1..], start) else ends
  }

  function Start(h: History): int
  {
    h.appended - if h.channels == [] then 0 else |h.channels[0]|
  }

  function Trim(h: History, window: nat): (r: History)
    requires Shaped(h)
    ensures Shaped(r)
  {
    var g := h.(channels := CappedAll(h.channels, 2 * window));
    g.(frameEnds := Pruned(g.frameEnds, Start(g)))
  }

  // ---- Step 3: window and decimate ----

  function Min(a: nat, b: nat): nat { if a <= b then a else b }

  function Least(channels: seq<seq<int16>>): (m: nat)
    requires channels != []
    ensures forall ch :: 0 <= ch < |channels| ==> m <= |channels[ch]|
    ensures exists ch :: 0 <= ch < |channels| && m == |channels[ch]|
  {
    var last := |channels| - 1;
    if last == 0 then |channels[0]| else
      assert forall ch :: 0 <= ch < last ==> channels[..last][ch] == channels[ch];
      Min(Least(channels[..last]), |channels[last]|)
  }

  function Display(windowed: seq<int16>, target: nat): (d: seq<int16>)
  {
    if |windowed| > target then Decimator.MinMax(windowed, target) else windowed
  }

  function DisplayLength(n: nat, target: nat): nat
  {
    if n > target then if target < 2 then 0 else target - target % 2 else n
  }

  function DisplayAll(channels: seq<seq<int16>>, take: nat, target: nat): (r: seq<seq<int16>>)
    requires forall ch :: 0 <= ch < |channels| ==> take <= |channels[ch]|
    ensures |r| == |channels|
    ensures forall ch :: 0 <= ch < |r| ==> r[ch] == Display(LastN(channels[ch], take), target)
  {
    seq(|channels|, ch requires 0 <= ch < |channels| => Display(LastN(channels[ch], take), target))
  }

  /** All windows have the same length, so all display runs do too. */
  lemma DisplayLengths(channels: seq<seq<int16>>, take: nat, target: nat)
    requires forall ch :: 0 <= ch < |channels| ==> take <= |channels[ch]|
    ensures forall ch :: 0 <= ch < |channels| ==>
      |DisplayAll(channels, take, target)[ch]| == DisplayLength(take, target)
  {
    hide Decimator.MinMax;
    forall ch | 0 <= ch < |channels|
      ensures |Display(LastN(channels[ch], take), target)| == DisplayLength(take, target)
    {
      Decimator.MinMaxLength(LastN(channels[ch], take), target);
    }
  }

  /** The result, the output frame and the coverage of one call. */
  datatype Outcome = Outcome(result: Stage.StageResult, out: Option<Frame>, coverage: real)

  const NOTHING := Outcome(Stage.NoData, None, 0.0)

  function Coverage(available: nat, window: nat): real
    requires window > 0
  {
    if available >= window then 1.0 else available as real / window as real
  }

  function Show(h: History, window: nat, target: nat): Outcome
    requires Shaped(h) && window > 0
  {
    if forall ch :: 0 <= ch < |h.channels| ==> h.channels[ch] == [] then NOTHING
    else
      var available := Least(h.channels);
      var take := Min(available, window);
      var parts := DisplayAll(h.channels, take, target);
      if parts[0] == [] then Outcome(Stage.NoData, None, Coverage(available, window))
      else Outcome(Stage.Ok, Some(Frame(0, h.channelCount, |parts[0]|, h.rate, Concat(parts))),
                   Coverage(available, window))
  }

  /** How many samples a time span holds at a rate. */
  function SamplesIn(rate: real, span: real): nat
    requires rate > 0.0 && span > 0.0
  {
    assert rate * span >= 0.0;
    (rate * span).Floor
  }

  /** It is the whole number of samples that fit. */
  lemma SamplesFit(rate: real, span: real)
    requires rate > 0.0 && span > 0.0
    ensures SamplesIn(rate, span) as real <= rate * span < SamplesIn(rate, span) as real + 1.0
  {
  }

  /** The window in samples, or 0 when the call produces nothing. */
  function WindowOf(h: History, span: real): nat
  {
    if h.rate <= 0.0 || h.channelCount == 0 || span <= 0.0 then 0 else SamplesIn(h.rate, span)
  }

  /** One call with the bounded history. */
  function Step(h: History, batch: seq<Frame>, span: real, target: nat): (History, Outcome)
    requires Shaped(h) && forall i :: 0 <= i < |batch| ==> Stage.WellFormed(batch[i])
  {
    var g := AcceptAll(h, batch);
    var w := WindowOf(g, span);
    if w == 0 then (g, NOTHING) else (Trim(g, w), Show(Trim(g, w), w, target))
  }

  /** One call of the version that never forgets a sample within one rate. */
  function UnboundedStep(u: History, batch: seq<Frame>, span: real, target: nat): (History, Outcome)
    requires Shaped(u) && forall i :: 0 <= i < |batch| ==> Stage.WellFormed(batch[i])
  {
    var g := AcceptAll(u, batch);
    var w := WindowOf(g, span);
    if w == 0 then (g, NOTHING) else (g, Show(g, w, target))
  }

  class VisualizationStage {
    var displayTarget: nat
    var channelHistory: seq<seq<int16>>
    var lastRate: real
    var lastChannelCount: nat
    var lastCoverage: real
    var ch0FrameEnds: seq<nat>
    var ch0Appended: nat

    function Past(): History
      reads this
    {
      History(channelHistory, lastRate, lastChannelCount, ch0FrameEnds, ch0Appended)
    }

    predicate Valid()
      reads this
    {
      Shaped(Past())
    }

    constructor (displayTarget: nat)
      ensures Valid() && Past() == EMPTY && this.displayTarget == displayTarget
    {
      this.displayTarget := displayTarget;
      channelHistory, lastRate, lastChannelCount, lastCoverage := [], 0.0, 0, 0.0;
      ch0FrameEnds, ch0Appended := [], 0;
    }

    method AcceptFrame(frame: Frame)
      requires Valid() && Stage.WellFormed(frame)
      modifies this
      ensures Valid() && Past() == Accept(old(Past()), frame)
      ensures displayTarget == old(displayTarget)
    {
      var count, spc := frame.channelCount, frame.samplesPerChannel;
      if count == 0 || spc == 0 { return; }
      hide Stage.Channels;
      if frame.sampleRate > 0.0 {
        if lastRate > 0.0 && frame.sampleRate != lastRate {
          channelHistory := Emptied(channelHistory);
          ch0FrameEnds := [];
          ch0Appended := 0;
        }
        lastRate := frame.sampleRate;
      }
      if count != lastChannelCount {
        channelHistory := Resized(channelHistory, count);
        lastChannelCount := count;
      } else {
        assert Resized(channelHistory, count) == channelHistory;
      }
      channelHistory := Append(channelHistory, Stage.Channels(frame, count));
      ch0Appended := ch0Appended + spc;
      ch0FrameEnds := ch0FrameEnds + [ch0Appended];
    }

    method TrimHistory(window: nat)
      requires Valid()
      modifies this`channelHistory, this`ch0FrameEnds
      ensures Valid() && Past() == Trim(old(Past()), window)
    {
      hide CappedAll, Pruned, Trim;
      ghost var past := Past();
      channelHistory := TrimChannels(channelHistory, 2 * window);
      var start := ch0Appended - if channelHistory == [] then 0 else |channelHistory[0]|;
      ch0FrameEnds := PruneEnds(ch0FrameEnds, start);
      TrimIs(past, window, channelHistory);
    }

    /** Steps 3 and 4: the window of each channel, decimated and concatenated. */
    method BuildOutput(window: nat) returns (result: Stage.StageResult, out: Option<Frame>)
      requires Valid() && window > 0
      modifies this`lastCoverage
      ensures Outcome(result, out, lastCoverage) == Show(Past(), window, displayTarget)
    {
      hide Least, DisplayAll, Concat, Decimator.MinMax;
      if forall ch :: 0 <= ch < |channelHistory| ==> channelHistory[ch] == [] {
        lastCoverage := 0.0;
        return Stage.NoData, None;
      }
      var available := LeastLength(channelHistory);
      lastCoverage := Coverage(available, window);
      var parts := DisplayChannels(channelHistory, Min(available, window), displayTarget);
      DisplayLengths(channelHistory, Min(available, window), displayTarget);
      if |parts[0]| == 0 { return Stage.NoData, None; }
      var data := Assemble(parts, |parts[0]|);
      return Stage.Ok, Some(Frame(0, lastChannelCount, |parts[0]|, lastRate, data[..]));
    }

    /** process(), with the visible time span it reads. */
    method Process(batch: seq<Frame>, span: real) returns (result: Stage.StageResult, out: Option<Frame>)
      requires Valid() && forall i :: 0 <= i < |batch| ==> Stage.WellFormed(batch[i])
      modifies this
      ensures Valid() && displayTarget == old(displayTarget)
      ensures (Past(), Outcome(result, out, lastCoverage)) == Step(old(Past()), batch, span, displayTarget)
    {
      hide Accept, Trim, Show;
      for i := 0 to |batch|
        invariant Valid() && displayTarget == old(displayTarget)
        invariant Past() == AcceptAll(old(Past()), batch[..i])
      {
        assert batch[..i + 1][..i] == batch[..i];
        AcceptFrame(batch[i]);
      }
      assert batch[..|batch|] == batch;
      var window := WindowOf(Past(), span);
      if window == 0 {
        lastCoverage := 0.0;
        return Stage.NoData, None;
      }
      TrimHistory(window);
      result, out := BuildOutput(window);
    }
  }

  lemma TrimIs(h: History, window: nat, channels: seq<seq<int16>>)
    requires Shaped(h) && channels == CappedAll(h.channels, 2 * window)
    ensures Trim(h, window) ==
            h.(channels := channels,
               frameEnds := Pruned(h.frameEnds, h.appended - if channels == [] then 0 else |channels[0]|))
    ensures |channels| == h.channelCount
  {
    hide CappedAll, Pruned;
  }

  /** Trim every channel to its newest `most` samples. */
  method TrimChannels(channels: seq<seq<int16>>, most: nat) returns (trimmed: seq<seq<int16>>)
    ensures trimmed == CappedAll(channels, most)
  {
    trimmed := [];
    for ch := 0 to |channels|
      invariant |trimmed| == ch && forall c :: 0 <= c < ch ==> trimmed[c] == Capped(channels[c], most)
    {
      var hist := channels[ch];
      if |hist| > most { hist := hist[|hist| - most..]; }
      trimmed := trimmed + [hist];
    }
  }

  method PruneEnds(ends: seq<nat>, start: int) returns (kept: seq<nat>)
    ensures kept == Pruned(ends, start)
  {
    kept := ends;
    while kept != [] && kept[0] <= start
      invariant Pruned(kept, start) == Pruned(ends, start)
    {
      kept := kept[1..];
    }
  }

  method LeastLength(channels: seq<seq<int16>>) returns (least: nat)
    requires channels != []
    ensures least == Least(channels)
  {
    least := |channels[0]|;
    for ch := 1 to |channels|
      invariant least == Least(channels[..ch])
    {
      assert channels[..ch + 1][..ch] == channels[..ch];
      least := Min(least, |channels[ch]|);
    }
    assert channels[..|channels|] == channels;
  }

  method DisplayChannels(channels: seq<seq<int16>>, take: nat, target: nat) returns (parts: seq<seq<int16>>)
    requires forall ch :: 0 <= ch < |channels| ==> take <= |channels[ch]|
    ensures parts == DisplayAll(channels, take, target)
  {
    hide Decimator.MinMax;
    parts := [];
    for ch := 0 to |channels|
      invariant |parts| == ch
      invariant forall c :: 0 <= c < ch ==> parts[c] == Display(LastN(channels[c], take), target)
    {
      var windowed := LastN(channels[ch], take);
      if |windowed| > target {
        windowed := SimdMinMax.MinMaxSimd(windowed, target);
      }
      parts := parts + [windowed];
    }
  }
}
