/** The pipe's byte format: a 64-byte little-endian header followed by 16-bit samples. */
module WireFormat {
  import opened Samples
  import opened Frames

  type byte = x: int | 0 <= x < 256

  const FRAME_HEADER_MAGIC: nat := 0x32484647

  function Pow256(n: nat): (p: nat)
    ensures p > 0
  {
    if n == 0 then 1 else 256 * Pow256(n - 1)
  }

  /** n bytes, least significant first. */
  function ToBytes(v: nat, n: nat): (bs: seq<byte>)
    ensures |bs| == n
  {
    if n == 0 then [] else [v % 256] + ToBytes(v / 256, n - 1)
  }

  function FromBytes(bs: seq<byte>): nat
  {
    if bs == [] then 0 else bs[0] + 256 * FromBytes(bs[1..])
  }

  lemma {:induction false} BytesRoundTrip(v: nat, n: nat)
    requires v < Pow256(n)
    ensures FromBytes(ToBytes(v, n)) == v
  {
    if n > 0 {
      assert v / 256 < Pow256(n - 1);
      BytesRoundTrip(v / 256, n - 1);
      assert ToBytes(v, n)[1..] == ToBytes(v / 256, n - 1);
    }
  }

  // ---- Records of fixed-width fields ----

  function TotalWidth(widths: seq<nat>): nat
  {
    if widths == [] then 0 else widths[0] + TotalWidth(widths[1..])
  }

  ghost predicate Fits(widths: seq<nat>, values: seq<nat>)
  {
    |widths| == |values| && forall i :: 0 <= i < |widths| ==> values[i] < Pow256(widths[i])
  }

  function EncodeFields(widths: seq<nat>, values: seq<nat>): (bs: seq<byte>)
    requires |widths| == |values|
    ensures |bs| == TotalWidth(widths)
  {
    if widths == [] then [] else ToBytes(values[0], widths[0]) + EncodeFields(widths[1..], values[1..])
  }

  function DecodeFields(widths: seq<nat>, bs: seq<byte>): (values: seq<nat>)
    requires |bs| == TotalWidth(widths)
    ensures |values| == |widths|
  {
    if widths == [] then [] else [FromBytes(bs[..widths[0]])] + DecodeFields(widths[1..], bs[widths[0]..])
  }

  lemma {:induction false} FieldsRoundTrip(widths: seq<nat>, values: seq<nat>)
    requires Fits(widths, values)
    ensures DecodeFields(widths, EncodeFields(widths, values)) == values
  {
    if widths != [] {
      BytesRoundTrip(values[0], widths[0]);
      FieldsRoundTrip(widths[1..], values[1..]);
      var head, tail := ToBytes(values[0], widths[0]), EncodeFields(widths[1..], values[1..]);
      assert (head + tail)[..widths[0]] == head && (head + tail)[widths[0]..] == tail;
    }
  }

  /** FrameHeaderV2; the sample rate is carried as the bits of its double. */
  datatype Header = Header(
    magic: nat, headerBytes: nat, sequence: nat, producerTs: nat, channelCount: nat, blockLength: nat,
    payloadBytes: nat, crc: nat, sampleRateBits: nat, dropsTotal: nat, firstSample: nat)

  const WIDTHS: seq<nat> := [4, 4, 8, 8, 4, 4, 4, 4, 8, 8, 8]

  const HEADER_SIZE: nat := 64

  function Fields(h: Header): (v: seq<nat>)
    ensures |v| == |WIDTHS|
  {
    [h.magic, h.headerBytes, h.sequence, h.producerTs, h.channelCount, h.blockLength,
     h.payloadBytes, h.crc, h.sampleRateBits, h.dropsTotal, h.firstSample]
  }

  function FromFields(v: seq<nat>): Header
    requires |v| == |WIDTHS|
  {
    Header(v[0], v[1], v[2], v[3], v[4], v[5], v[6], v[7], v[8], v[9], v[10])
  }

  lemma WidthsAddUp()
    ensures TotalWidth(WIDTHS) == HEADER_SIZE
  {
    assert TotalWidth([8]) == 8;
    assert TotalWidth([8, 8]) == 16;
    assert TotalWidth([8, 8, 8]) == 24;
    assert TotalWidth([4, 8, 8, 8]) == 28;
    assert TotalWidth([4, 4, 8, 8, 8]) == 32;
    assert TotalWidth([4, 4, 4, 8, 8, 8]) == 36;
    assert TotalWidth([4, 4, 4, 4, 8, 8, 8]) == 40;
    assert TotalWidth([8, 4, 4, 4, 4, 8, 8, 8]) == 48;
    assert TotalWidth([8, 8, 4, 4, 4, 4, 8, 8, 8]) == 56;
    assert TotalWidth([4, 8, 8, 4, 4, 4, 4, 8, 8, 8]) == 60;
    assert WIDTHS[1..] == [4, 8, 8, 4, 4, 4, 4, 8, 8, 8];
  }

  function EncodeHeader(h: Header): (bs: seq<byte>)
    ensures |bs| == HEADER_SIZE
  {
    WidthsAddUp();
    EncodeFields(WIDTHS, Fields(h))
  }

  function DecodeHeader(bs: seq<byte>): Header
    requires |bs| == HEADER_SIZE
  {
    WidthsAddUp();
    FromFields(DecodeFields(WIDTHS, bs))
  }

  lemma HeaderRoundTrip(h: Header)
    requires Fits(WIDTHS, Fields(h))
    ensures DecodeHeader(EncodeHeader(h)) == h
  {
    hide EncodeFields, DecodeFields, TotalWidth, Fits;
    WidthsAddUp();
    FieldsRoundTrip(WIDTHS, Fields(h));
  }

  // ---- Samples ----

  function EncodeSamples(s: seq<int16>): (bs: seq<byte>)
    ensures |bs| == 2 * |s|
  {
    if s == [] then []
    else
      var u: int := if s[0] < 0 then s[0] as int + 0x1_0000 else s[0] as int;
      [u % 256, u / 256] + EncodeSamples(s[1..])
  }

  function DecodeSamples(bs: seq<byte>): (s: seq<int16>)
    requires |bs| % 2 == 0
    ensures |s| == |bs| / 2
  {
    if bs == [] then []
    else
      var u: int := bs[0] as int + 256 * bs[1] as int;
      [if u >= 0x8000 then u - 0x1_0000 else u] + DecodeSamples(bs[2..])
  }

  lemma {:induction false} SamplesRoundTrip(s: seq<int16>)
    ensures DecodeSamples(EncodeSamples(s)) == s
  {
    if s != [] {
      SamplesRoundTrip(s[1..]);
      assert EncodeSamples(s)[2..] == EncodeSamples(s[1..]);
    }
  }

  // ---- Frames and streams of frames ----

  datatype WireFrame = WireFrame(header: Header, payload: seq<int16>)

  ghost predicate ValidFrame(f: WireFrame)
  {
    && Fits(WIDTHS, Fields(f.header))
    && f.header.magic == FRAME_HEADER_MAGIC
    && f.header.payloadBytes == 2 * |f.payload|
  }

  function EncodeFrame(f: WireFrame): seq<byte>
  {
    EncodeHeader(f.header) + EncodeSamples(f.payload)
  }

  function EncodeAll(fs: seq<WireFrame>): seq<byte>
  {
    if fs == [] then [] else EncodeFrame(fs[0]) + EncodeAll(fs[1..])
  }

  /** How receiving one frame can end. */
  datatype Received = Truncated | BadMagic | OddPayload | Got(frame: WireFrame, rest: seq<byte>)

  /** Read one frame from the front of a byte stream. */
  function ParseFrame(stream: seq<byte>): Received
  {
    if |stream| < HEADER_SIZE then Truncated
    else
      var h := DecodeHeader(stream[..HEADER_SIZE]);
      var rest := stream[HEADER_SIZE..];
      if h.magic != FRAME_HEADER_MAGIC then BadMagic
      else if h.payloadBytes % 2 != 0 then OddPayload
      else if |rest| < h.payloadBytes then Truncated
      else Got(WireFrame(h, DecodeSamples(rest[..h.payloadBytes])), rest[h.payloadBytes..])
  }

  lemma ParseOfEncoded(f: WireFrame, tail: seq<byte>)
    requires ValidFrame(f)
    ensures ParseFrame(EncodeFrame(f) + tail) == Got(f, tail)
  {
    var head, body := EncodeHeader(f.header), EncodeSamples(f.payload);
    var stream := EncodeFrame(f) + tail;
    HeaderRoundTrip(f.header);
    SamplesRoundTrip(f.payload);
    assert f.header.magic == FRAME_HEADER_MAGIC && f.header.payloadBytes == |body|;
    assert stream == (head + body) + tail;
    CutThree(head, body, tail);
    EvenPayload(f);
    hide *;
    ParseIs(stream, f.header, body, tail);
  }

  lemma EvenPayload(f: WireFrame)
    requires ValidFrame(f)
    ensures f.header.payloadBytes % 2 == 0
  {
  }

  lemma ParseIs(stream: seq<byte>, h: Header, body: seq<byte>, tail: seq<byte>)
    requires |stream| >= HEADER_SIZE && DecodeHeader(stream[..HEADER_SIZE]) == h
    requires h.magic == FRAME_HEADER_MAGIC && h.payloadBytes == |body| && |body| % 2 == 0
    requires |body| <= |stream[HEADER_SIZE..]|
    requires stream[HEADER_SIZE..][..|body|] == body && stream[HEADER_SIZE..][|body|..] == tail
    ensures ParseFrame(stream) == Got(WireFrame(h, DecodeSamples(body)), tail)
  {
    hide DecodeHeader, DecodeSamples;
  }

  lemma CutThree(head: seq<byte>, body: seq<byte>, tail: seq<byte>)
    ensures var s := (head + body) + tail;
            && s[..|head|] == head
            && s[|head|..][..|body|] == body
            && s[|head|..][|body|..] == tail
  {
    assert ((head + body) + tail)[|head|..] == body + tail;
  }
}
