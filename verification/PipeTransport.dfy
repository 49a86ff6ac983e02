/** PipeProducer and PipeConsumer: framing over a pipe whose writes and reads may be partial. */
module PipeTransport {
  import opened Samples
  import opened Frames
  import opened WireFormat

  /** The bytes in flight between the two processes. A reliable pipe always moves at least one byte. */
  class Pipe {
    var stream: seq<byte>
    const reliable: bool

    constructor (reliable: bool)
      ensures stream == [] && this.reliable == reliable
    {
      stream := [];
      this.reliable := reliable;
    }

    /** writev: accepts some prefix of the data, or fails with a result of 0 or -1. */
    method Write(data: seq<byte>) returns (n: int)
      modifies this
      ensures n <= |data| && stream == old(stream) + if n > 0 then data[..n] else []
      ensures reliable && data != [] ==> n > 0
    {
      assert -1 <= |data| <= |data| && (reliable && data != [] ==> |data| > 0);
      n :| -1 <= n <= |data| && (reliable && data != [] ==> n > 0);
      if n > 0 { stream := stream + data[..n]; }
    }

    /** read: delivers some of the bytes at hand, or fails; at the end of the stream it must fail. */
    method Read(most: nat) returns (n: int, bs: seq<byte>)
      modifies this
      ensures n <= most && n <= |old(stream)|
      ensures n > 0 ==> bs == old(stream)[..n] && stream == old(stream)[n..]
      ensures n <= 0 ==> bs == [] && stream == old(stream)
      ensures reliable && most > 0 && old(stream) != [] ==> n > 0
    {
      var limit := if most <= |stream| then most else |stream|;
      assert -1 <= limit <= limit && (reliable && limit > 0 ==> limit > 0);
      n :| -1 <= n <= limit && (reliable && limit > 0 ==> n > 0);
      bs := [];
      if n > 0 {
        bs := stream[..n];
        stream := stream[n..];
      }
    }
  }

  /** The bytes that the first count entries of an iovec denote. */
  function Denoted(iov: seq<seq<byte>>, count: nat): seq<byte>
    requires |iov| == 2 && count <= 2
  {
    if count == 0 then [] else if count == 1 then iov[0] else iov[0] + iov[1]
  }

  /** send_frame's message: the payload is left out when there is none or the header announces none. */
  function Message(header: Header, payload: Option<seq<byte>>): seq<byte>
  {
    EncodeHeader(header) + if header.payloadBytes > 0 && payload.Some? then payload.value else []
  }

  /** Advance the iovecs past adv written bytes: what remains denotes the unsent suffix. */
  method AdvanceIov(iov: seq<seq<byte>>, count: nat, n: nat) returns (iov': seq<seq<byte>>, count': nat)
    requires |iov| == 2 && count <= 2 && n <= |Denoted(iov, count)|
    ensures |iov'| == 2 && count' <= 2
    ensures Denoted(iov', count') == Denoted(iov, count)[n..]
  {
    var adv: nat := n;
    iov', count' := iov, count;
    while count' > 0 && adv >= |iov'[0]|
      invariant |iov'| == 2 && count' <= 2
      invariant adv <= |Denoted(iov', count')|
      invariant Denoted(iov', count')[adv..] == Denoted(iov, count)[n..]
    {
      SkipFirst(iov', count', adv);
      adv := adv - |iov'[0]|;
      iov' := [iov'[1], iov'[1]];
      count' := count' - 1;
    }
    if count' > 0 && adv > 0 {
      TrimFirst(iov', count', adv);
      iov' := [iov'[0][adv..], iov'[1]];
    }
  }

  /** Shifting the second entry down drops the first one's bytes. */
  lemma SkipFirst(iov: seq<seq<byte>>, count: nat, adv: nat)
    requires |iov| == 2 && 0 < count <= 2 && |iov[0]| <= adv <= |Denoted(iov, count)|
    ensures adv - |iov[0]| <= |Denoted([iov[1], iov[1]], count - 1)|
    ensures Denoted([iov[1], iov[1]], count - 1)[adv - |iov[0]|..] == Denoted(iov, count)[adv..]
  {
    if count == 2 {
      DropPastFirst(iov[0], iov[1], adv);
    }
  }

  lemma DropPastFirst(a: seq<byte>, b: seq<byte>, adv: nat)
    requires |a| <= adv <= |a| + |b|
    ensures (a + b)[adv..] == b[adv - |a|..]
  {
  }

  /** Moving the first entry's base drops its first bytes. */
  lemma TrimFirst(iov: seq<seq<byte>>, count: nat, adv: nat)
    requires |iov| == 2 && 0 < count <= 2 && adv < |iov[0]|
    ensures Denoted([iov[0][adv..], iov[1]], count) == Denoted(iov, count)[adv..]
  {
  }

  /** On success exactly the message was written; on failure a proper prefix of it was. */
  method SendFrame(pipe: Pipe, header: Header, payload: Option<seq<byte>>) returns (ok: bool)
    requires payload.Some? ==> |payload.value| == header.payloadBytes
    modifies pipe
    ensures ok ==> pipe.stream == old(pipe.stream) + Message(header, payload)
    ensures !ok ==> exists k :: 0 <= k < |Message(header, payload)| &&
                                pipe.stream == old(pipe.stream) + Message(header, payload)[..k]
    ensures pipe.reliable ==> ok
  {
    hide EncodeHeader;
    var message := Message(header, payload);
    var iov, count, total := [EncodeHeader(header), []], 1, HEADER_SIZE;
    if header.payloadBytes > 0 && payload.Some? {
      iov, count, total := [EncodeHeader(header), payload.value], 2, HEADER_SIZE + header.payloadBytes;
    }
    assert Denoted(iov, count) == message && |message| == total;
    var written := WriteOut(pipe, iov, count, total);
    assert message[..total] == message;
    ok := written == total;
  }

  /** The write loop: it stops at the first failed write, with a prefix of the message in the pipe. */
  method WriteOut(pipe: Pipe, iovec: seq<seq<byte>>, entries: nat, total: nat) returns (written: nat)
    requires |iovec| == 2 && entries <= 2 && |Denoted(iovec, entries)| == total
    modifies pipe
    ensures written <= total && pipe.stream == old(pipe.stream) + Denoted(iovec, entries)[..written]
    ensures pipe.reliable ==> written == total
  {
    hide *;
    ghost var before, message := pipe.stream, Denoted(iovec, entries);
    var iov, count := iovec, entries;
    written := 0;
    NothingTaken(before, message);
    while written < total
      invariant |iov| == 2 && count <= 2 && written <= total == |message|
      invariant pipe.stream == before + message[..written]
      invariant Denoted(iov, count) == message[written..]
    {
      var n := pipe.Write(Denoted(iov, count));
      if n <= 0 { return; }
      TakeMore(before, message, written, n);
      written := written + n;
      iov, count := AdvanceIov(iov, count, n);
    }
  }

  lemma NothingTaken(before: seq<byte>, s: seq<byte>)
    ensures before == before + s[..0] && s == s[0..]
  {
  }

  lemma TakeMore(before: seq<byte>, s: seq<byte>, m: nat, n: nat)
    requires m + n <= |s|
    ensures before + s[..m + n] == before + s[..m] + s[m..][..n]
    ensures s[m..][n..] == s[m + n..]
  {
    assert s[..m + n] == s[..m] + s[m..][..n];
  }

  /** read_all: exactly len bytes, or failure. */
  method ReadAll(pipe: Pipe, len: nat) returns (ok: bool, buf: seq<byte>)
    modifies pipe
    ensures ok ==> len <= |old(pipe.stream)| && buf == old(pipe.stream)[..len] && pipe.stream == old(pipe.stream)[len..]
    ensures len > |old(pipe.stream)| ==> !ok
    ensures pipe.reliable ==> (ok <==> len <= |old(pipe.stream)|)
  {
    buf := [];
    ghost var before := pipe.stream;
    var left := len;
    while left > 0
      invariant 0 <= left <= len && len - left <= |before|
      invariant buf == before[..len - left] && pipe.stream == before[len - left..]
    {
      var n, bs := pipe.Read(left);
      if n <= 0 { return false, buf; }
      assert before[..len - left + n] == before[..len - left] + before[len - left..][..n];
      buf := buf + bs;
      left := left - n;
    }
    ok := true;
  }

  /**
   * How receive_frame ends. Overrun: the header announces an odd number of payload bytes, so the vector
   * of half as many samples is one byte short of what is read into it.
   */
  datatype Receipt = Received(frame: WireFrame) | Failed | Overrun

  /** receive_frame: the frame at the front of the stream, whatever the sizes of the single reads. */
  method ReceiveFrame(pipe: Pipe) returns (r: Receipt)
    modifies pipe
    ensures r.Received? ==> ParseFrame(old(pipe.stream)) == Got(r.frame, pipe.stream)
    ensures r.Overrun? ==> ParseFrame(old(pipe.stream)).OddPayload?
    ensures pipe.reliable ==> (r.Received? <==> ParseFrame(old(pipe.stream)).Got?)
    ensures pipe.reliable ==> (r.Overrun? <==> ParseFrame(old(pipe.stream)).OddPayload?)
  {
    hide DecodeHeader, DecodeSamples;
    var gotHeader, hb := ReadAll(pipe, HEADER_SIZE);
    if !gotHeader { return Failed; }
    var header := DecodeHeader(hb);
    if header.magic != FRAME_HEADER_MAGIC { return Failed; }
    if header.payloadBytes > 0 {
      var room := 2 * (header.payloadBytes / 2);
      if header.payloadBytes > room { return Overrun; }
      var gotPayload, pb := ReadAll(pipe, header.payloadBytes);
      if !gotPayload { return Failed; }
      return Received(WireFrame(header, DecodeSamples(pb)));
    } else {
      NoSamples();
      assert pipe.stream[..0] == [] && pipe.stream[0..] == pipe.stream;
      return Received(WireFrame(header, []));
    }
  }

  lemma NoSamples()
    ensures DecodeSamples([]) == []
  {
  }

  /** Send every frame of a list. */
  method SendAll(pipe: Pipe, frames: seq<WireFrame>) returns (ok: bool)
    requires forall i :: 0 <= i < |frames| ==> ValidFrame(frames[i])
    modifies pipe
    ensures ok ==> pipe.stream == old(pipe.stream) + EncodeAll(frames)
    ensures pipe.reliable ==> ok
  {
    hide EncodeHeader, EncodeSamples, ValidFrame;
    for i := 0 to |frames|
      invariant pipe.stream + EncodeAll(frames[i..]) == old(pipe.stream) + EncodeAll(frames)
    {
      assert frames[i..][1..] == frames[i + 1..];
      MessageIsFrame(frames[i]);
      var sent := SendFrame(pipe, frames[i].header, Some(EncodeSamples(frames[i].payload)));
      if !sent { return false; }
    }
    assert frames[|frames|..] == [];
    ok := true;
  }

  lemma MessageIsFrame(f: WireFrame)
    requires ValidFrame(f)
    ensures |EncodeSamples(f.payload)| == f.header.payloadBytes
    ensures Message(f.header, Some(EncodeSamples(f.payload))) == EncodeFrame(f)
  {
    hide EncodeHeader;
  }

  /** Receiving from an encoded list gives the list back, frame by frame, whatever the read sizes. */
  method ReceiveAll(pipe: Pipe, ghost frames: seq<WireFrame>, count: nat) returns (ok: bool, received: seq<WireFrame>)
    requires count == |frames| && forall i :: 0 <= i < |frames| ==> ValidFrame(frames[i])
    requires pipe.stream == EncodeAll(frames)
    modifies pipe
    ensures ok ==> received == frames && pipe.stream == []
    ensures pipe.reliable ==> ok
  {
    hide ParseFrame, EncodeFrame, ValidFrame;
    received := [];
    for i := 0 to count
      invariant received == frames[..i]
      invariant pipe.stream == EncodeAll(frames[i..])
    {
      assert frames[i..][1..] == frames[i + 1..];
      ParseOfEncoded(frames[i], EncodeAll(frames[i + 1..]));
      var r := ReceiveFrame(pipe);
      if !r.Received? { return false, received; }
      received := received + [r.frame];
    }
    ok := true;
  }

  /** The whole trip: what comes out of the pipe is the list of frames that went in. */
  method Transfer(frames: seq<WireFrame>, reliable: bool) returns (ok: bool, received: seq<WireFrame>)
    requires forall i :: 0 <= i < |frames| ==> ValidFrame(frames[i])
    ensures ok ==> received == frames
    ensures reliable ==> ok
  {
    hide ValidFrame;
    var pipe := new Pipe(reliable);
    ok := SendAll(pipe, frames);
    if !ok { return false, []; }
    assert [] + EncodeAll(frames) == EncodeAll(frames);
    ok, received := ReceiveAll(pipe, frames, |frames|);
  }
}
