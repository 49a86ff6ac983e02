/** SyntheticSource: frames are tiled from one period buffer per channel. */
module SyntheticSource {
  import opened Samples
  import opened ChannelMajor
  import opened SlidingWindow
  import Arith

  datatype ChannelState = ChannelState(periodBuf: seq<int16>, periodPos: nat) {
    predicate Ready() { periodPos < |periodBuf| }
  }

  /** The state after one more frame of the given length has been read. */
  function Advanced(cs: ChannelState, batch: nat): ChannelState
    requires cs.Ready()
  {
    cs.(periodPos := (cs.periodPos + batch) % |cs.periodBuf|)
  }

  /** The next n samples that a channel in this state produces. */
  function Tile(cs: ChannelState, n: nat): (t: seq<int16>)
    requires cs.Ready()
    ensures |t| == n
  {
    Window(cs.periodBuf, cs.periodPos, n)
  }

  datatype ReadResult = Ok | NoData | EndOfStream

  /** Two successive windows of the tiling join into one. */
  lemma WindowSplit(period: seq<int16>, s: nat, m: nat, n: nat)
    requires period != []
    ensures Window(period, s, m) + Window(period, (s + m) % |period|, n) == Window(period, s, m + n)
  {
    hide Window;
    var k := |period|;
    var left, right := Window(period, s, m), Window(period, (s + m) % k, n);
    var whole := Window(period, s, m + n);
    forall j | 0 <= j < m + n
      ensures (left + right)[j] == whole[j]
    {
      WindowAt(period, s, m + n, j);
      if j < m {
        WindowAt(period, s, m, j);
      } else {
        WindowFrom(period, s, m, n, j);
      }
    }
  }

  lemma WindowFrom(period: seq<int16>, s: nat, m: nat, n: nat, j: nat)
    requires period != [] && m <= j < m + n
    ensures Window(period, (s + m) % |period|, n)[j - m] == period[(s + j) % |period|]
  {
    hide Window;
    WindowAt(period, (s + m) % |period|, n, j - m);
    Arith.ModAdd(s + m, j - m, |period|);
    assert s + m + (j - m) == s + j;
  }

  /** Before the end of the period, the tiling is a plain copy. */
  lemma WindowIsCopy(period: seq<int16>, s: nat, n: nat)
    requires s + n <= |period| && period != []
    ensures Window(period, s, n) == period[s..s + n]
  {
    forall j | 0 <= j < n
      ensures Window(period, s, n)[j] == period[s..s + n][j]
    {
      WindowAt(period, s, n, j);
      Arith.ModSmall(s + j, |period|);
    }
  }

  lemma ResidueStep(start: nat, done: nat, pos: nat, chunk: nat, k: nat)
    requires 0 < k && pos == (start + done) % k && pos + chunk <= k
    ensures (start + done + chunk) % k == if pos + chunk >= k then 0 else pos + chunk
  {
    Arith.ModAdd(start + done, chunk, k);
    if pos + chunk < k {
      Arith.ModSmall(pos + chunk, k);
    } else {
      Arith.DivModUnique(k, k, 1, 0);
    }
  }

  /** The copy loop for one channel: whole runs up to the end of the period, then from its start. */
  method TileChannel(cs: ChannelState, batch: nat) returns (tiled: seq<int16>, next: ChannelState)
    requires cs.Ready()
    ensures tiled == Tile(cs, batch)
    ensures next == Advanced(cs, batch)
    ensures next.Ready()
  {
    hide Window;
    var period, start := cs.periodBuf, cs.periodPos;
    var remaining, pos := batch, start;
    tiled := [];
    Arith.ModSmall(start, |period|);
    while remaining > 0
      invariant 0 <= remaining <= batch && pos < |period|
      invariant pos == (start + (batch - remaining)) % |period|
      invariant tiled == Window(period, start, batch - remaining)
    {
      ghost var done := batch - remaining;
      var chunk := if remaining <= |period| - pos then remaining else |period| - pos;
      WindowIsCopy(period, pos, chunk);
      WindowSplit(period, start, done, chunk);
      ResidueStep(start, done, pos, chunk, |period|);
      tiled := tiled + period[pos..pos + chunk];
      remaining := remaining - chunk;
      pos := pos + chunk;
      if pos >= |period| { pos := 0; }
    }
    next := cs.(periodPos := pos);
  }

  /** Position in a rebuilt period, in exact arithmetic: the phase fraction is kept. */
  function RescaledPos(oldPos: nat, oldLen: nat, newLen: nat): (p: nat)
    requires newLen > 0
    ensures p < newLen
  {
    if oldLen > 0 then Phase(oldPos, oldLen, newLen).Floor % newLen else 0
  }

  /** The old phase, measured in samples of the new period. */
  function Phase(oldPos: nat, oldLen: nat, newLen: nat): (p: real)
    requires oldLen > 0 && newLen > 0
    ensures p >= 0.0
  {
    Scaled(oldPos as real, oldLen as real, newLen as real)
  }

  function Scaled(a: real, b: real, c: real): (r: real)
    requires a >= 0.0 && b > 0.0 && c > 0.0
    ensures r >= 0.0
  {
    NonNegative(a, b, c);
    a / b * c
  }

  lemma NonNegative(a: real, b: real, c: real)
    requires a >= 0.0 && b > 0.0 && c > 0.0
    ensures a / b * c >= 0.0
  {
    assert a / b >= 0.0;
  }

  /** The rescaled position has the old phase, rounded down to a whole sample: the remainder never acts. */
  lemma PhaseIsKept(oldPos: nat, oldLen: nat, newLen: nat)
    requires oldPos < oldLen && newLen > 0
    ensures var p := RescaledPos(oldPos, oldLen, newLen);
            p * oldLen <= oldPos * newLen < (p + 1) * oldLen
    ensures newLen == oldLen ==> RescaledPos(oldPos, oldLen, newLen) == oldPos
  {
    PhaseInside(oldPos, oldLen, newLen);
    PhaseTimes(oldPos, oldLen, newLen);
    hide Phase;
    FloorBelow(Phase(oldPos, oldLen, newLen), newLen);
    ScaleBounds(RescaledPos(oldPos, oldLen, newLen), Phase(oldPos, oldLen, newLen), oldLen, oldPos * newLen);
  }

  lemma PhaseTimes(oldPos: nat, oldLen: nat, newLen: nat)
    requires oldLen > 0 && newLen > 0
    ensures Phase(oldPos, oldLen, newLen) * oldLen as real == (oldPos * newLen) as real
  {
    ScaledTimes(oldPos as real, oldLen as real, newLen as real);
    hide Scaled;
  }

  lemma ScaledTimes(a: real, b: real, c: real)
    requires a >= 0.0 && b > 0.0 && c > 0.0
    ensures Scaled(a, b, c) * b == a * c
  {
    var q := a / b;
    assert q * b == a;
    Reorder(q, b, c);
  }

  lemma Reorder(q: real, b: real, c: real)
    ensures q * c * b == q * b * c
  {
    assert q * c * b == q * (c * b);
    assert q * b * c == q * (b * c);
  }

  lemma ScaleBounds(p: nat, x: real, k: nat, n: nat)
    requires p as real <= x < p as real + 1.0 && k > 0 && x * k as real == n as real
    ensures p * k <= n < (p + 1) * k
  {
    var above := p + 1;
    RealProduct(p, k);
    RealProduct(above, k);
    ScaleOrder(p as real, x, above as real, k as real, n as real);
    RealOrder(p * k, n, above * k);
  }

  lemma RealOrder(a: nat, n: nat, b: nat)
    requires a as real <= n as real < b as real
    ensures a <= n < b
  {
  }

  lemma ScaleOrder(a: real, x: real, b: real, r: real, y: real)
    requires a <= x < b && r > 0.0 && x * r == y
    ensures a * r <= y < b * r
  {
  }

  lemma RealProduct(a: nat, b: nat)
    ensures (a * b) as real == a as real * b as real
  {
  }

  lemma PhaseInside(oldPos: nat, oldLen: nat, newLen: nat)
    requires oldPos < oldLen && newLen > 0
    ensures 0.0 <= Phase(oldPos, oldLen, newLen) < newLen as real
    ensures newLen == oldLen ==> Phase(oldPos, oldLen, newLen) == oldPos as real
  {
    ScaledInside(oldPos as real, oldLen as real, newLen as real);
    hide Scaled;
  }

  lemma ScaledInside(a: real, b: real, c: real)
    requires 0.0 <= a < b && c > 0.0
    ensures 0.0 <= Scaled(a, b, c) < c && (c == b ==> Scaled(a, b, c) == a)
  {
    FractionBelowOne(a, b);
    NonNegative(a, b, c);
    Shrinks(a / b, c);
  }

  lemma FloorBelow(x: real, n: nat)
    requires 0.0 <= x < n as real
    ensures 0 <= x.Floor < n && x.Floor % n == x.Floor
    ensures x.Floor as real <= x < x.Floor as real + 1.0
  {
    Arith.ModSmall(x.Floor, n);
  }

  lemma FractionBelowOne(a: real, b: real)
    requires 0.0 <= a < b
    ensures a / b < 1.0 && a / b * b == a
  {
  }

  lemma Shrinks(x: real, y: real)
    requires x < 1.0 && y > 0.0
    ensures x * y < y
  {
  }

  ghost function Tiles(channels: seq<ChannelState>, batch: nat): (parts: seq<seq<int16>>)
    requires forall ch :: 0 <= ch < |channels| ==> channels[ch].Ready()
    ensures |parts| == |channels|
    ensures forall ch :: 0 <= ch < |channels| ==> parts[ch] == Tile(channels[ch], batch)
  {
    if channels == [] then []
    else
      var m := |channels| - 1;
      var rest := channels[..m];
      assert forall ch :: 0 <= ch < m ==> rest[ch] == channels[ch];
      Tiles(rest, batch) + [Tile(channels[m], batch)]
  }

  lemma TilesExtend(channels: seq<ChannelState>, batch: nat, m: nat)
    requires m < |channels| && forall ch :: 0 <= ch < |channels| ==> channels[ch].Ready()
    ensures Concat(Tiles(channels[..m + 1], batch)) ==
            Concat(Tiles(channels[..m], batch)) + Tile(channels[m], batch)
  {
    var upTo := channels[..m + 1];
    assert upTo[..m] == channels[..m];
    var t := Tiles(upTo, batch);
    assert t[..m] == Tiles(channels[..m], batch);
    hide Window;
  }

  /** The channel loop of read_frame. */
  method TileAll(channels: seq<ChannelState>, batch: nat) returns (data: seq<int16>, next: seq<ChannelState>)
    requires forall ch :: 0 <= ch < |channels| ==> channels[ch].Ready()
    ensures data == Concat(Tiles(channels, batch))
    ensures |next| == |channels|
    ensures forall ch :: 0 <= ch < |next| ==> next[ch] == Advanced(channels[ch], batch) && next[ch].Ready()
  {
    hide Tile, Tiles, Concat;
    data, next := [], channels;
    NoTiles(channels, batch);
    for ch := 0 to |channels|
      invariant |next| == |channels|
      invariant forall c :: 0 <= c < ch ==> next[c] == Advanced(channels[c], batch) && next[c].Ready()
      invariant forall c :: ch <= c < |channels| ==> next[c] == channels[c]
      invariant data == Concat(Tiles(channels[..ch], batch))
    {
      var tiled, advanced := TileChannel(next[ch], batch);
      TilesExtend(channels, batch, ch);
      data := data + tiled;
      next := next[ch := advanced];
    }
    assert channels[..|channels|] == channels;
  }

  const MAX_CHANNELS: nat := 8
  const BATCH_LOW: nat := 4096
  const BATCH_HIGH: nat := 65536
  const HIGH_RATE: real := 100000000.0

  datatype Waveform = Sine | Square | Sawtooth | WhiteNoise | Chirp

  /** What the periods depend on: rate, frequency, and the waveform of each channel in use. */
  datatype Settings = Settings(rate: real, frequency: real, types: seq<Waveform>)

  /** The samples of one channel's period. How they are computed is not modelled. */
  type Synthesis = (Settings, nat) -> seq<int16>

  ghost predicate NeverEmpty(synthesis: Synthesis)
  {
    forall settings, ch :: synthesis(settings, ch) != []
  }

  function BatchSize(rate: real): nat
  {
    if rate >= HIGH_RATE then BATCH_HIGH else BATCH_LOW
  }

  lemma BatchSizes(rate: real)
    ensures BatchSize(rate) == if rate < 100000000.0 then 4096 else 65536
  {
  }

  /** A rebuilt channel has the period of the new settings and keeps the phase of the channel before it. */
  ghost predicate IsRebuilt(before: seq<ChannelState>, after: seq<ChannelState>, s: Settings, n: nat,
                            synthesis: Synthesis)
  {
    && |after| == n
    && forall ch :: 0 <= ch < n ==>
         && after[ch].periodBuf == synthesis(s, ch) != []
         && after[ch].periodPos ==
              if ch < |before| then RescaledPos(before[ch].periodPos, |before[ch].periodBuf|, |after[ch].periodBuf|)
              else 0
  }

  /** The channels a frame is read from: the ones there were, or rebuilt ones if any setting has changed. */
  ghost predicate IsBase(cached: Settings, before: seq<ChannelState>, base: seq<ChannelState>, target: Settings, n: nat,
                         synthesis: Synthesis)
  {
    if cached == target then base == before else IsRebuilt(before, base, target, n, synthesis)
  }

  class SyntheticSource {
    const numChannels: nat
    const synthesis: Synthesis
    var started: bool
    var paused: bool
    var rate: real
    var frequency: real
    var types: seq<Waveform>
    var cached: Settings
    var channels: seq<ChannelState>
    var nextSequence: nat

    predicate Ready()
      reads this
    {
      forall ch :: 0 <= ch < |channels| ==> channels[ch].Ready()
    }

    /** The channels, if any were built yet, hold the periods of the cached settings. */
    ghost predicate Valid()
      reads this
    {
      && Ready()
      && |cached.types| == numChannels <= MAX_CHANNELS == |types|
      && NeverEmpty(synthesis)
      && 1.0 <= frequency
      && (cached.frequency < 1.0 ==> channels == [])
      && (cached.frequency >= 1.0 ==> |channels| == numChannels)
      && forall ch :: 0 <= ch < |channels| ==> channels[ch].periodBuf == synthesis(cached, ch)
    }

    /** The settings in force, for the channels in use. */
    ghost function Target(): Settings
      reads this
      requires Valid()
    {
      Settings(rate, frequency, types[..numChannels])
    }

    constructor (numChannels: nat, rate: real, waveform: Waveform, synthesis: Synthesis)
      requires numChannels <= MAX_CHANNELS && NeverEmpty(synthesis)
      ensures Valid() && !started && !paused && channels == [] && nextSequence == 0
      ensures this.numChannels == numChannels && this.synthesis == synthesis && this.rate == rate
      ensures frequency == 1000.0 && types == seq(MAX_CHANNELS, _ => waveform)
    {
      this.numChannels, this.synthesis := numChannels, synthesis;
      started, paused, channels, nextSequence := false, false, [], 0;
      this.rate, frequency, types := rate, 1000.0, seq(MAX_CHANNELS, _ => waveform);
      cached := Settings(0.0, 0.0, seq(numChannels, _ => waveform));
    }

    method SetFrequency(hz: real)
      requires Valid()
      modifies this`frequency
      ensures Valid() && frequency == if hz >= 1.0 then hz else 1.0
    {
      frequency := if hz >= 1.0 then hz else 1.0;
    }

    method SetChannelWaveform(ch: nat, waveform: Waveform)
      requires Valid()
      modifies this`types
      ensures Valid() && types == if ch < MAX_CHANNELS then old(types)[ch := waveform] else old(types)
    {
      if ch < MAX_CHANNELS { types := types[ch := waveform]; }
    }

    /** rebuild_period_buffer: one period per channel for the given settings, keeping each phase. */
    method Rebuild(target: Settings)
      requires Valid() && target.frequency >= 1.0 && |target.types| == numChannels
      modifies this`channels, this`cached
      ensures Valid() && cached == target
      ensures IsRebuilt(old(channels), channels, target, numChannels, synthesis)
    {
      var rebuilt: seq<ChannelState> := [];
      for ch := 0 to numChannels
        invariant |rebuilt| == ch && forall c :: 0 <= c < ch ==> rebuilt[c].Ready()
        invariant IsRebuilt(channels, rebuilt, target, ch, synthesis)
      {
        var period := synthesis(target, ch);
        var pos := if ch < |channels|
                   then RescaledPos(channels[ch].periodPos, |channels[ch].periodBuf|, |period|) else 0;
        rebuilt := rebuilt + [ChannelState(period, pos)];
      }
      channels, cached := rebuilt, target;
    }

    method AnyChirp() returns (any: bool)
      requires Valid()
      ensures any <==> Chirp in types[..numChannels]
    {
      any := false;
      for ch := 0 to numChannels
        invariant !any && Chirp !in types[..ch]
      {
        if types[ch] == Chirp { return true; }
      }
    }

    /** Whether rate, frequency or the waveform of a channel in use differs from what the periods were built for. */
    method NeedsRebuild() returns (need: bool)
      requires Valid()
      ensures need <==> cached != Target()
    {
      need := rate != cached.rate || frequency != cached.frequency;
      if !need {
        for ch := 0 to numChannels
          invariant !need && types[..ch] == cached.types[..ch]
        {
          if types[ch] != cached.types[ch] { return true; }
        }
      }
    }

    /** The tiling branch: the data of all channels, and every position advanced by one batch. */
    method ReadTiled(batch: nat) returns (sequence: nat, data: seq<int16>)
      requires Ready()
      modifies this`channels, this`nextSequence
      ensures Ready() && sequence == old(nextSequence) && nextSequence == sequence + 1
      ensures data == Concat(Tiles(old(channels), batch))
      ensures |channels| == |old(channels)|
      ensures forall ch :: 0 <= ch < |channels| ==> channels[ch] == Advanced(old(channels)[ch], batch)
    {
      sequence := nextSequence;
      nextSequence := nextSequence + 1;
      data, channels := TileAll(channels, batch);
    }

    /** The settings in force are read, and the periods rebuilt if they belong to others. */
    method Refresh()
      requires Valid()
      modifies this`channels, this`cached
      ensures Valid() && cached == Settings(rate, frequency, types[..numChannels])
      ensures IsBase(old(cached), old(channels), channels, Target(), numChannels, synthesis)
    {
      var hz := if frequency < 1.0 then 1.0 else frequency;
      var need := NeedsRebuild();
      if need { Rebuild(Settings(rate, hz, types[..numChannels])); }
    }

    /** One frame from the channels as they are, generated or tiled. */
    method Emit(batch: nat, generated: seq<int16>) returns (sequence: nat, data: seq<int16>)
      requires Valid() && |channels| == numChannels && |generated| == numChannels * batch
      modifies this`channels, this`nextSequence
      ensures Valid() && sequence == old(nextSequence) && nextSequence == sequence + 1
      ensures |data| == numChannels * batch
      ensures HasRead(old(channels), channels, data, batch, generated, Chirp in Target().types)
    {
      hide Tile, Tiles, Concat;
      var chirp := AnyChirp();
      if chirp {
        sequence, nextSequence, data := nextSequence, nextSequence + 1, generated;
      } else {
        ghost var parts := Tiles(channels, batch);
        sequence, data := ReadTiled(batch);
        ConcatLength(parts, batch);
      }
    }

    /**
     * read_frame: periods are rebuilt exactly when a setting differs from the one they were built for;
     * with a chirp the data are generated (and passed in here), otherwise they are tiled.
     */
    method ReadFrame(generated: seq<int16>) returns (result: ReadResult, sequence: nat, data: seq<int16>)
      requires Valid() && |generated| == numChannels * (if rate < 100000000.0 then 4096 else 65536)
      modifies this`channels, this`cached, this`nextSequence
      ensures Valid()
      ensures result == if !started then EndOfStream else if paused then NoData else Ok
      ensures result != Ok ==>
                channels == old(channels) && cached == old(cached) && nextSequence == old(nextSequence) && data == []
      ensures result == Ok ==> sequence == old(nextSequence) && nextSequence == sequence + 1
      ensures result == Ok ==> cached == Settings(rate, frequency, types[..numChannels])
      ensures result == Ok ==> |data| == numChannels * (if rate < 100000000.0 then 4096 else 65536)
      ensures result == Ok ==> FrameRead(old(cached), old(channels), channels, Target(), synthesis, generated, data)
    {
      BatchSizes(rate);
      hide IsBase, IsRebuilt, HasRead, FrameRead, BatchSize, NeverEmpty;
      sequence, data := nextSequence, [];
      if !started { return EndOfStream, sequence, data; }
      if paused { return NoData, sequence, data; }
      Refresh();
      ghost var base := channels;
      sequence, data := Emit(BatchSize(rate), generated);
      ReadThrough(old(cached), old(channels), base, channels, Target(), synthesis, generated, data);
      result := Ok;
    }
  }

  /** From rebuilt channels: generated data leave the phases alone, tiled data advance every one of them. */
  ghost predicate HasRead(base: seq<ChannelState>, after: seq<ChannelState>, data: seq<int16>, batch: nat,
                          generated: seq<int16>, chirp: bool)
  {
    if chirp then data == generated && after == base
    else
      && (forall ch :: 0 <= ch < |base| ==> base[ch].Ready())
      && data == Concat(Tiles(base, batch))
      && |after| == |base|
      && forall ch :: 0 <= ch < |base| ==> after[ch] == Advanced(base[ch], batch)
  }

  /** One frame read: from the channels there were, or from rebuilt ones if a setting has changed. */
  ghost predicate FrameRead(cached: Settings, before: seq<ChannelState>, after: seq<ChannelState>, target: Settings,
                            synthesis: Synthesis, generated: seq<int16>, data: seq<int16>)
  {
    exists base: seq<ChannelState> ::
      && IsBase(cached, before, base, target, |target.types|, synthesis)
      && HasRead(base, after, data, BatchSize(target.rate), generated, Chirp in target.types)
  }

  lemma ReadThrough(cached: Settings, before: seq<ChannelState>, base: seq<ChannelState>, after: seq<ChannelState>,
                    target: Settings, synthesis: Synthesis, generated: seq<int16>, data: seq<int16>)
    requires IsBase(cached, before, base, target, |target.types|, synthesis)
    requires HasRead(base, after, data, BatchSize(target.rate), generated, Chirp in target.types)
    ensures FrameRead(cached, before, after, target, synthesis, generated, data)
  {
  }

  lemma NoTiles(channels: seq<ChannelState>, batch: nat)
    ensures Concat(Tiles(channels[..0], batch)) == []
  {
  }

  /** Lengths of a run of frames, added up. */
  function Total(batches: seq<nat>): nat
  {
    if batches == [] then 0 else Total(batches[..|batches| - 1]) + batches[|batches| - 1]
  }

  /** The samples of one channel over a run of frames of the given lengths. */
  function StreamOf(cs: ChannelState, batches: seq<nat>): (stream: seq<int16>)
    requires cs.Ready()
  {
    if batches == [] then []
    else
      var m := |batches| - 1;
      StreamOf(cs, batches[..m]) + Tile(Advanced(cs, Total(batches[..m])), batches[m])
  }

  /** However it is cut into frames, the stream is one unbroken tiling of the period. */
  lemma {:induction false} FramesAreOneTiling(cs: ChannelState, batches: seq<nat>)
    requires cs.Ready()
    ensures StreamOf(cs, batches) == Tile(cs, Total(batches))
  {
    hide Window;
    if batches == [] {
      assert Window(cs.periodBuf, cs.periodPos, 0) == [];
    } else {
      var m := |batches| - 1;
      FramesAreOneTiling(cs, batches[..m]);
      WindowSplit(cs.periodBuf, cs.periodPos, Total(batches[..m]), batches[m]);
    }
  }
}
