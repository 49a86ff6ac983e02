/** The envelope law at the far end of the runtime: every frame that is polled verifies. */
module RuntimeEnvelope {
  import opened Samples
  import opened Frames
  import opened ChannelMajor
  import opened Subsequence
  import opened LinearRuntime
  import Decimation
  import Decimator
  import EnvelopeChain
  import Order = RuntimeOrder
  import SlidingWindow
  import Source = SyntheticSource
  import Stage = DecimationStage
  import Verifier = EnvelopeVerifier

  /** A pipeline of a source and a MinMax decimation stage; which queues join them does not matter. */
  ghost function Pipeline(wiring: seq<StageEntry>, target: nat, fallback: real): Config
  {
    Config(wiring, (i, xs) => if xs == [] then [] else Decimated(xs[|xs| - 1], target, fallback))
  }

  /** What the decimation stage makes of one frame. */
  ghost function Decimated(f: Frame, target: nat, fallback: real): seq<Frame>
  {
    if Stage.WellFormed(f) && !Stage.IsSkipped(f)
    then [Stage.DecimatedFrame(f, Decimation.MinMax, target, fallback)] else []
  }

  /** A frame of n samples per channel, each channel a stretch of its tiled period. */
  ghost predicate Tiled(f: Frame, periods: seq<seq<int16>>, n: nat)
  {
    && Stage.WellFormed(f) && f.channelCount == |periods| && f.samplesPerChannel == n
    && forall ch :: 0 <= ch < |periods| ==> TiledChannel(Stage.Channels(f, f.channelCount)[ch], periods[ch], n)
  }

  ghost predicate TiledChannel(samples: seq<int16>, period: seq<int16>, n: nat)
  {
    period != [] && exists pos: nat :: samples == SlidingWindow.Window(period, pos, n)
  }

  /** The frames that a ready source reads are tiled. */
  lemma SourceFramesAreTiled(channels: seq<Source.ChannelState>, n: nat, sequence: nat, rate: real)
    requires forall ch :: 0 <= ch < |channels| ==> channels[ch].Ready()
    ensures var periods := seq(|channels|, ch requires 0 <= ch < |channels| => channels[ch].periodBuf);
            Tiled(Frame(sequence, |channels|, n, rate, Concat(Source.Tiles(channels, n))), periods, n)
  {
    var parts := Source.Tiles(channels, n);
    var f := Frame(sequence, |channels|, n, rate, Concat(parts));
    ConcatLength(parts, n);
    hide Concat, SlidingWindow.Window;
    forall ch | 0 <= ch < |channels|
      ensures TiledChannel(Stage.Channels(f, f.channelCount)[ch], channels[ch].periodBuf, n)
    {
      Stage.ChannelsAt(f, f.channelCount, ch);
      ChannelOfConcat(parts, n, ch);
      assert parts[ch] == SlidingWindow.Window(channels[ch].periodBuf, channels[ch].periodPos, n);
    }
  }

  /** Channel ch of a decimated frame passes the envelope check against the period, every pair of it. */
  ghost predicate ChannelVerifies(f: Frame, ch: nat, period: seq<int16>, n: nat)
  {
    && period != []
    && 0 <= ch * f.samplesPerChannel <= ch * f.samplesPerChannel + f.samplesPerChannel <= |f.data|
    && OutputVerifies(Channel(f.data, f.samplesPerChannel, ch), period, n)
  }

  ghost predicate OutputVerifies(output: seq<int16>, period: seq<int16>, n: nat)
    requires period != []
  {
    var k := |output| / 2;
    k > 0 && Verifier.LegalCount(output, period, Verifier.BaseSize(n, k), k) == k
  }

  ghost predicate FrameVerifies(f: Frame, periods: seq<seq<int16>>, n: nat)
  {
    f.channelCount == |periods| && forall ch :: 0 <= ch < |periods| ==> ChannelVerifies(f, ch, periods[ch], n)
  }

  lemma DecimatedVerifies(f: Frame, periods: seq<seq<int16>>, n: nat, target: nat, fallback: real)
    requires Tiled(f, periods, n) && 2 <= target < n
    ensures FrameVerifies(Stage.DecimatedFrame(f, Decimation.MinMax, target, fallback), periods, n)
  {
    var g := Stage.DecimatedFrame(f, Decimation.MinMax, target, fallback);
    hide ChannelVerifies, Stage.Channels, TiledChannel, Concat;
    forall ch | 0 <= ch < |periods|
      ensures ChannelVerifies(g, ch, periods[ch], n)
    {
      ChannelPasses(f, periods[ch], n, target, fallback, ch);
    }
  }

  lemma ChannelPasses(f: Frame, period: seq<int16>, n: nat, target: nat, fallback: real, ch: nat)
    requires Stage.WellFormed(f) && ch < f.channelCount && 2 <= target < n
    requires TiledChannel(Stage.Channels(f, f.channelCount)[ch], period, n)
    ensures ChannelVerifies(Stage.DecimatedFrame(f, Decimation.MinMax, target, fallback), ch, period, n)
  {
    var pos: nat :| Stage.Channels(f, f.channelCount)[ch] == SlidingWindow.Window(period, pos, n);
    Stage.ChannelsDecimateSeparately(f, Decimation.MinMax, target, fallback, ch);
    hide Stage.Channels, SlidingWindow.Window, Decimator.MinMax, Stage.DecimatedFrame, Verifier.LegalCount;
    EnvelopeChain.DecimatedVerifies(period, pos, n, target);
  }

  lemma {:induction false} EmittedComesFrom(cfg: Config, target: nat, fallback: real, xs: seq<Frame>, g: Frame)
    requires cfg == Pipeline(cfg.wiring, target, fallback) && g in Emitted(cfg, 1, xs)
    ensures exists f :: f in xs && g in Decimated(f, target, fallback)
  {
    var m := |xs| - 1;
    hide Decimated;
    if g in Decimated(xs[m], target, fallback) {
      assert xs[m] in xs;
    } else {
      EmittedComesFrom(cfg, target, fallback, xs[..m], g);
      var f :| f in xs[..m] && g in Decimated(f, target, fallback);
      assert f in xs;
    }
  }

  lemma {:induction false} SubseqHolds(xs: seq<Frame>, ys: seq<Frame>, x: Frame)
    requires Subseq(xs, ys) && x in xs
    ensures x in ys
  {
    var k, y := |xs| - 1, |ys| - 1;
    if xs[k] == ys[y] && Subseq(xs[..k], ys[..y]) {
      if x != xs[k] {
        SubseqHolds(xs[..k], ys[..y], x);
      }
    } else {
      SubseqHolds(xs, ys[..y], x);
    }
  }

  lemma PipelineIsMemoryless(wiring: seq<StageEntry>, target: nat, fallback: real)
    ensures Memoryless(Pipeline(wiring, target, fallback))
  {
    hide Decimated;
  }

  lemma ComposedIsEmitted(cfg: Config, ys: seq<Frame>)
    ensures Composed(cfg, 1, ys) == Emitted(cfg, 1, ys)
  {
  }

  /** A polled frame is the decimated form of some frame that the source produced. */
  lemma PolledComesFrom(wiring: seq<StageEntry>, es: seq<Event>, target: nat, fallback: real, g: Frame)
    returns (f: Frame)
    requires |wiring| == 2 && Sensible(Pipeline(wiring, target, fallback))
    requires Exec(Pipeline(wiring, target, fallback), es).Some?
    requires g in Polled(Exec(Pipeline(wiring, target, fallback), es).value)
    ensures f in Exec(Pipeline(wiring, target, fallback), es).value.sourced && g in Decimated(f, target, fallback)
  {
    PipelineIsMemoryless(wiring, target, fallback);
    var cfg := Pipeline(wiring, target, fallback);
    assert cfg == Pipeline(cfg.wiring, target, fallback) && |cfg.wiring| == 2;
    hide Exec, Pipeline, Memoryless, Order.StagesMonotone, Subseq, Emitted, Composed, Decimated;
    var s := Exec(cfg, es).value;
    Order.MemorylessIsMonotone(cfg);
    Order.PolledInSourceOrder(cfg, es);
    ComposedIsEmitted(cfg, s.sourced);
    SubseqHolds(Polled(s), Emitted(cfg, 1, s.sourced), g);
    EmittedComesFrom(cfg, target, fallback, s.sourced, g);
    f :| f in s.sourced && g in Decimated(f, target, fallback);
  }

  /**
   * Whatever the queues, the policies and the interleaving of source, decimation stage, poller and
   * stop: if the source produced tiled frames longer than the target, every polled frame verifies on
   * every channel.
   */
  lemma PolledFramesVerify(wiring: seq<StageEntry>, es: seq<Event>, periods: seq<seq<int16>>, n: nat,
                           target: nat, fallback: real)
    requires |wiring| == 2 && Sensible(Pipeline(wiring, target, fallback)) && 2 <= target < n
    requires Exec(Pipeline(wiring, target, fallback), es).Some?
    requires forall f :: f in Exec(Pipeline(wiring, target, fallback), es).value.sourced ==> Tiled(f, periods, n)
    ensures forall g :: g in Polled(Exec(Pipeline(wiring, target, fallback), es).value) ==> FrameVerifies(g, periods, n)
  {
    hide Exec, Stage.DecimatedFrame, Tiled, FrameVerifies;
    var s := Exec(Pipeline(wiring, target, fallback), es).value;
    forall g | g in Polled(s)
      ensures FrameVerifies(g, periods, n)
    {
      var f := PolledComesFrom(wiring, es, target, fallback, g);
      DecimatedVerifies(f, periods, n, target, fallback);
    }
  }
}
