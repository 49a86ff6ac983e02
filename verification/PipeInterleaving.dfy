/**
 * Producer and consumer of a pipe at the same time: partial writes and partial reads interleave in any
 * way, and the consumer rebuilds the frames one by one.
 */
module PipeInterleaving {
  import opened Samples
  import opened Frames
  import opened WireFormat

  /** How much was written so far, the bytes in the pipe, what the consumer read of the next frame, and its frames. */
  datatype State = State(sent: nat, inFlight: seq<byte>, buffer: seq<byte>, received: seq<WireFrame>)

  datatype Event =
    | Write(n: nat)   // writev accepted n bytes
    | Read(n: nat)    // read delivered n bytes
    | Complete        // receive_frame returns

  const INIT := State(0, [], [], [])

  /** Bytes that the frame under construction still lacks, as far as the consumer can tell. */
  function Wanted(buffer: seq<byte>): nat
  {
    if |buffer| < HEADER_SIZE then HEADER_SIZE - |buffer|
    else
      var whole := HEADER_SIZE + DecodeHeader(buffer[..HEADER_SIZE]).payloadBytes;
      if |buffer| < whole then whole - |buffer| else 0
  }

  predicate Enabled(stream: seq<byte>, s: State, e: Event)
  {
    match e
    case Write(n) => 0 < n && s.sent + n <= |stream|
    case Read(n) => 0 < n <= |s.inFlight| && n <= Wanted(s.buffer)
    case Complete => Wanted(s.buffer) == 0 && ParseFrame(s.buffer).Got?
  }

  function Next(stream: seq<byte>, s: State, e: Event): State
    requires Enabled(stream, s, e)
  {
    match e
    case Write(n) => s.(sent := s.sent + n, inFlight := s.inFlight + stream[s.sent..s.sent + n])
    case Read(n) => s.(inFlight := s.inFlight[n..], buffer := s.buffer + s.inFlight[..n])
    case Complete => s.(buffer := [], received := s.received + [ParseFrame(s.buffer).frame])
  }

  function Exec(stream: seq<byte>, es: seq<Event>): Option<State>
  {
    if es == [] then Some(INIT)
    else
      match Exec(stream, es[..|es| - 1])
      case None => None
      case Some(s) =>
        if Enabled(stream, s, es[|es| - 1]) then Some(Next(stream, s, es[|es| - 1])) else None
  }

  ghost predicate AllValid(fs: seq<WireFrame>)
  {
    forall i :: 0 <= i < |fs| ==> ValidFrame(fs[i])
  }

  /** The bytes that are neither in a received frame nor lost: read, in the pipe, or still to be written. */
  function Remaining(stream: seq<byte>, s: State): seq<byte>
    requires s.sent <= |stream|
  {
    s.buffer + (s.inFlight + stream[s.sent..])
  }

  /** The frames received are the first ones sent, and the bytes under way encode exactly the others. */
  ghost predicate Inv(fs: seq<WireFrame>, s: State)
  {
    && s.sent <= |EncodeAll(fs)| && s.received <= fs
    && Remaining(EncodeAll(fs), s) == EncodeAll(fs[|s.received|..])
    && (|s.received| == |fs| ==> s.buffer == [])
    && (|s.received| < |fs| ==> |s.buffer| <= |EncodeFrame(fs[|s.received|])|)
  }

  // ---- The consumer's view of the frame it is reading ----

  lemma EncodeFirst(fs: seq<WireFrame>)
    requires fs != [] && ValidFrame(fs[0])
    ensures EncodeAll(fs) == EncodeFrame(fs[0]) + EncodeAll(fs[1..])
    ensures |EncodeFrame(fs[0])| == HEADER_SIZE + fs[0].header.payloadBytes
  {
    SamplesRoundTrip(fs[0].payload);
    hide EncodeHeader, EncodeSamples, Fits;
  }

  lemma HeaderRead(f: WireFrame, buffer: seq<byte>, rest: seq<byte>, tail: seq<byte>)
    requires ValidFrame(f) && buffer + rest == EncodeFrame(f) + tail && |buffer| >= HEADER_SIZE
    ensures DecodeHeader(buffer[..HEADER_SIZE]) == f.header
  {
    HeaderRoundTrip(f.header);
    FrameBytes(f, tail);
    hide *;
    SamePrefix(buffer, rest, EncodeHeader(f.header), EncodeSamples(f.payload) + tail);
  }

  lemma FrameBytes(f: WireFrame, tail: seq<byte>)
    ensures EncodeFrame(f) + tail == EncodeHeader(f.header) + (EncodeSamples(f.payload) + tail)
  {
    hide EncodeHeader, EncodeSamples;
  }

  /** Whatever part of a frame has been read, the consumer wants exactly the rest. */
  lemma WantsTheRest(f: WireFrame, buffer: seq<byte>, rest: seq<byte>, tail: seq<byte>)
    requires ValidFrame(f) && buffer + rest == EncodeFrame(f) + tail && |buffer| <= |EncodeFrame(f)|
    requires |EncodeFrame(f)| == HEADER_SIZE + f.header.payloadBytes
    ensures |buffer| < HEADER_SIZE ==> 0 < Wanted(buffer) <= |EncodeFrame(f)| - |buffer|
    ensures |buffer| >= HEADER_SIZE ==> Wanted(buffer) == |EncodeFrame(f)| - |buffer|
  {
    if |buffer| >= HEADER_SIZE {
      HeaderRead(f, buffer, rest, tail);
    }
    hide DecodeHeader, EncodeFrame, ValidFrame;
  }

  lemma SamePrefix(a: seq<byte>, b: seq<byte>, c: seq<byte>, d: seq<byte>)
    requires |c| <= |a|
    ensures a + b == c + d ==> a[..|c|] == c
  {
    if a + b == c + d {
      assert (a + b)[..|c|] == a[..|c|] && (c + d)[..|c|] == c;
    }
  }

  lemma WholeFrame(f: WireFrame, buffer: seq<byte>, rest: seq<byte>, tail: seq<byte>)
    requires ValidFrame(f) && buffer + rest == EncodeFrame(f) + tail && |buffer| == |EncodeFrame(f)|
    ensures ParseFrame(buffer) == Got(f, []) && rest == tail
  {
    hide *;
    SamePrefix(buffer, rest, EncodeFrame(f), tail);
    assert buffer[..|buffer|] == buffer;
    assert (buffer + rest)[|buffer|..] == rest && (EncodeFrame(f) + tail)[|buffer|..] == tail;
    ParseOfEncoded(f, []);
    assert EncodeFrame(f) + [] == EncodeFrame(f);
  }

  // ---- Every step keeps the invariant ----

  lemma WriteKeeps(stream: seq<byte>, s: State, n: nat)
    requires Enabled(stream, s, Write(n))
    ensures Remaining(stream, Next(stream, s, Write(n))) == Remaining(stream, s)
  {
    assert stream[s.sent..] == stream[s.sent..s.sent + n] + stream[s.sent + n..];
  }

  lemma ReadKeeps(stream: seq<byte>, s: State, n: nat)
    requires Enabled(stream, s, Read(n)) && s.sent <= |stream|
    ensures Remaining(stream, Next(stream, s, Read(n))) == Remaining(stream, s)
  {
    assert s.inFlight == s.inFlight[..n] + s.inFlight[n..];
    hide Wanted;
  }

  /** The frame the consumer is reading, and what follows it. */
  lemma NextFrame(fs: seq<WireFrame>, s: State)
    requires AllValid(fs) && Inv(fs, s) && |s.received| < |fs|
    ensures var f, rest := fs[|s.received|], s.inFlight + EncodeAll(fs)[s.sent..];
            var tail := EncodeAll(fs[|s.received| + 1..]);
            && ValidFrame(f) && |EncodeFrame(f)| == HEADER_SIZE + f.header.payloadBytes
            && s.buffer + rest == EncodeFrame(f) + tail && |s.buffer| <= |EncodeFrame(f)|
  {
    var k := |s.received|;
    assert fs[k..][0] == fs[k] && fs[k..][1..] == fs[k + 1..];
    EncodeFirst(fs[k..]);
    hide EncodeAll, EncodeFrame, ValidFrame;
  }

  lemma WriteStep(fs: seq<WireFrame>, s: State, n: nat)
    requires Inv(fs, s) && Enabled(EncodeAll(fs), s, Write(n))
    ensures Inv(fs, Next(EncodeAll(fs), s, Write(n)))
  {
    WriteKeeps(EncodeAll(fs), s, n);
    hide EncodeAll, EncodeFrame, Wanted, ParseFrame, Remaining;
  }

  lemma ReadStep(fs: seq<WireFrame>, s: State, n: nat)
    requires AllValid(fs) && Inv(fs, s) && Enabled(EncodeAll(fs), s, Read(n))
    ensures Inv(fs, Next(EncodeAll(fs), s, Read(n)))
  {
    ReadKeeps(EncodeAll(fs), s, n);
    if |s.received| < |fs| {
      NextFrame(fs, s);
      WantsTheRest(fs[|s.received|], s.buffer, s.inFlight + EncodeAll(fs)[s.sent..], EncodeAll(fs[|s.received| + 1..]));
    } else {
      NothingUnderWay(fs, s);
    }
    hide EncodeAll, EncodeFrame, Wanted, ParseFrame, Remaining, AllValid;
  }

  lemma CompleteStep(fs: seq<WireFrame>, s: State)
    requires AllValid(fs) && Inv(fs, s) && Enabled(EncodeAll(fs), s, Complete)
    ensures Inv(fs, Next(EncodeAll(fs), s, Complete))
  {
    var k, rest := |s.received|, s.inFlight + EncodeAll(fs)[s.sent..];
    if k < |fs| {
      NextFrame(fs, s);
      WantsTheRest(fs[k], s.buffer, rest, EncodeAll(fs[k + 1..]));
      WholeFrame(fs[k], s.buffer, rest, EncodeAll(fs[k + 1..]));
      hide EncodeAll, EncodeFrame, Wanted, ParseFrame, AllValid, Inv;
      FrameHandedOver(fs, s, Next(EncodeAll(fs), s, Complete));
    } else {
      NothingUnderWay(fs, s);
    }
  }

  lemma FrameHandedOver(fs: seq<WireFrame>, s: State, t: State)
    requires Inv(fs, s) && |s.received| < |fs| && t.received == s.received + [fs[|s.received|]]
    requires t.buffer == [] && t.inFlight == s.inFlight && t.sent == s.sent
    requires s.inFlight + EncodeAll(fs)[s.sent..] == EncodeAll(fs[|s.received| + 1..])
    ensures Inv(fs, t)
  {
    hide EncodeAll, EncodeFrame;
    assert [] + (s.inFlight + EncodeAll(fs)[s.sent..]) == s.inFlight + EncodeAll(fs)[s.sent..];
    assert t.received <= fs;
  }

  lemma StepKeeps(fs: seq<WireFrame>, s: State, e: Event)
    requires AllValid(fs) && Inv(fs, s) && Enabled(EncodeAll(fs), s, e)
    ensures Inv(fs, Next(EncodeAll(fs), s, e))
  {
    hide *;
    match e
    case Write(n) => WriteStep(fs, s, n);
    case Read(n) => ReadStep(fs, s, n);
    case Complete => CompleteStep(fs, s);
  }

  /** When everything was received, the pipe is empty and nothing is left to write. */
  lemma NothingUnderWay(fs: seq<WireFrame>, s: State)
    requires Inv(fs, s) && |s.received| == |fs|
    ensures s.buffer == [] && s.inFlight == [] && s.sent == |EncodeAll(fs)|
    ensures Wanted(s.buffer) > 0
  {
    assert fs[|fs|..] == [];
    assert |Remaining(EncodeAll(fs), s)| == |s.buffer| + |s.inFlight| + |EncodeAll(fs)| - s.sent;
    hide DecodeHeader;
  }

  lemma {:induction false} AlwaysInv(fs: seq<WireFrame>, es: seq<Event>)
    requires AllValid(fs) && Exec(EncodeAll(fs), es).Some?
    ensures Inv(fs, Exec(EncodeAll(fs), es).value)
    decreases |es|
  {
    if es == [] {
      Begin(fs);
    } else {
      AlwaysInv(fs, es[..|es| - 1]);
      hide Inv, Enabled, Next, EncodeAll, AllValid;
      StepKeeps(fs, Exec(EncodeAll(fs), es[..|es| - 1]).value, es[|es| - 1]);
    }
  }

  lemma Begin(fs: seq<WireFrame>)
    ensures Inv(fs, INIT)
  {
    hide EncodeAll, EncodeFrame;
    assert fs[0..] == fs && EncodeAll(fs)[0..] == EncodeAll(fs);
    assert [] + ([] + EncodeAll(fs)) == EncodeAll(fs);
  }

  // ---- The results ----

  /** At every moment of every interleaving the frames received are a prefix of the frames sent. */
  lemma ReceivedIsPrefix(fs: seq<WireFrame>, es: seq<Event>)
    requires AllValid(fs) && Exec(EncodeAll(fs), es).Some?
    ensures Exec(EncodeAll(fs), es).value.received <= fs
  {
    AlwaysInv(fs, es);
  }

  /** Until everything has arrived some step is possible: neither side waits for the other for ever. */
  lemma SomeStep(fs: seq<WireFrame>, s: State) returns (e: Event)
    requires AllValid(fs) && Inv(fs, s) && s.received != fs
    ensures Enabled(EncodeAll(fs), s, e)
  {
    var stream, k := EncodeAll(fs), |s.received|;
    assert k < |fs|;
    NextFrame(fs, s);
    var rest := s.inFlight + stream[s.sent..];
    WantsTheRest(fs[k], s.buffer, rest, EncodeAll(fs[k + 1..]));
    assert |s.buffer| + |rest| >= |EncodeFrame(fs[k])|;
    if s.sent < |stream| {
      e := Write(1);
    } else if Wanted(s.buffer) > 0 {
      assert stream[s.sent..] == [];
      e := Read(1);
    } else {
      WholeFrame(fs[k], s.buffer, rest, EncodeAll(fs[k + 1..]));
      e := Complete;
    }
    hide EncodeAll, EncodeFrame, Wanted, ParseFrame, AllValid;
  }

  /** Every byte is written, read and handed over once: a bound on the steps of any interleaving. */
  function Work(total: nat, s: State): nat
  {
    3 * (if s.sent < total then total - s.sent else 0) + 2 * |s.inFlight| + |s.buffer|
  }

  lemma SentIsBounded(fs: seq<WireFrame>, s: State)
    requires Inv(fs, s)
    ensures s.sent <= |EncodeAll(fs)|
  {
  }

  lemma StepLowersWork(stream: seq<byte>, s: State, e: Event)
    requires s.sent <= |stream| && Enabled(stream, s, e)
    ensures Work(|stream|, Next(stream, s, e)) < Work(|stream|, s)
  {
    assert Wanted([]) > 0;
    assert e.Complete? ==> |s.buffer| > 0;
    hide ParseFrame, DecodeHeader, Wanted;
  }

  /** A run takes at most three steps for every byte that is sent. */
  lemma {:induction false} RunsAreBounded(fs: seq<WireFrame>, es: seq<Event>)
    requires AllValid(fs) && Exec(EncodeAll(fs), es).Some?
    ensures |es| + Work(|EncodeAll(fs)|, Exec(EncodeAll(fs), es).value) <= 3 * |EncodeAll(fs)|
    decreases |es|
  {
    hide Inv, Enabled, Next, EncodeAll, AllValid;
    if es != [] {
      var m := |es| - 1;
      RunsAreBounded(fs, es[..m]);
      AlwaysInv(fs, es[..m]);
      SentIsBounded(fs, Exec(EncodeAll(fs), es[..m]).value);
      StepLowersWork(EncodeAll(fs), Exec(EncodeAll(fs), es[..m]).value, es[m]);
      hide Work;
    }
  }

  /** A run that cannot go on has delivered every frame. */
  lemma RunsDeliver(fs: seq<WireFrame>, es: seq<Event>)
    requires AllValid(fs) && Exec(EncodeAll(fs), es).Some?
    requires forall e :: !Enabled(EncodeAll(fs), Exec(EncodeAll(fs), es).value, e)
    ensures Exec(EncodeAll(fs), es).value.received == fs
  {
    AlwaysInv(fs, es);
    hide *;
    var s := Exec(EncodeAll(fs), es).value;
    if s.received != fs {
      var e := SomeStep(fs, s);
      assert false;
    }
  }
}
