/**
 * The byte format seen from its bytes: which byte of which field stands where, and that a stream parses
 * exactly when it starts with an encoded frame.
 */
module WireLayout {
  import opened Samples
  import opened WireFormat
  import Arith

  const POWERS: seq<nat> := [0x1, 0x100, 0x1_0000, 0x100_0000, 0x1_0000_0000, 0x100_0000_0000, 0x1_0000_0000_0000,
                             0x100_0000_0000_0000]

  /** From the given offset on, n bytes hold v with its least significant byte first. */
  ghost predicate LittleEndianAt(bs: seq<byte>, offset: nat, n: nat, v: nat)
    requires n <= |POWERS|
  {
    offset + n <= |bs| && forall k :: 0 <= k < n ==> bs[offset + k] == v / POWERS[k] % 256
  }

  lemma PowersOf(k: nat)
    requires k < |POWERS|
    ensures POWERS[k] > 0 && (k > 0 ==> POWERS[k] == 256 * POWERS[k - 1])
  {
  }

  lemma {:induction false} ByteAt(v: nat, n: nat, k: nat)
    requires k < n <= |POWERS|
    ensures ToBytes(v, n)[k] == v / POWERS[k] % 256
  {
    PowersOf(k);
    if k > 0 {
      ByteAt(v / 256, n - 1, k - 1);
      Arith.DivDiv(v, 256, POWERS[k - 1]);
    }
  }

  function Offset(widths: seq<nat>, i: nat): nat
    requires i <= |widths|
  {
    if i == 0 then 0 else Offset(widths, i - 1) + widths[i - 1]
  }

  lemma {:induction false} OffsetAfterFirst(widths: seq<nat>, i: nat)
    requires 0 < i <= |widths|
    ensures Offset(widths, i) == widths[0] + Offset(widths[1..], i - 1)
  {
    if i > 1 {
      OffsetAfterFirst(widths, i - 1);
    }
  }

  lemma {:induction false} FieldAt(widths: seq<nat>, values: seq<nat>, i: nat)
    requires |widths| == |values| && i < |widths|
    ensures Offset(widths, i) + widths[i] <= |EncodeFields(widths, values)|
    ensures EncodeFields(widths, values)[Offset(widths, i)..Offset(widths, i) + widths[i]] ==
            ToBytes(values[i], widths[i])
  {
    var head, tail := ToBytes(values[0], widths[0]), EncodeFields(widths[1..], values[1..]);
    hide ToBytes;
    if i > 0 {
      OffsetAfterFirst(widths, i);
      FieldAt(widths[1..], values[1..], i - 1);
      var from := Offset(widths[1..], i - 1);
      assert (head + tail)[widths[0] + from..widths[0] + from + widths[i]] == tail[from..from + widths[i]];
    }
  }

  /** The field numbered i starts at the offset, has n bytes and holds v. */
  ghost predicate Slot(widths: seq<nat>, values: seq<nat>, i: nat, offset: nat, n: nat, v: nat)
    requires |widths| == |values|
  {
    i < |widths| && Offset(widths, i) == offset && widths[i] == n && values[i] == v
  }

  lemma FieldBytes(widths: seq<nat>, values: seq<nat>, i: nat, offset: nat, n: nat, v: nat)
    requires |widths| == |values| && n <= |POWERS| && Slot(widths, values, i, offset, n, v)
    ensures LittleEndianAt(EncodeFields(widths, values), offset, n, v)
  {
    FieldAt(widths, values, i);
    var bs := EncodeFields(widths, values);
    hide EncodeFields, ToBytes, Offset;
    forall k | 0 <= k < n
      ensures bs[offset + k] == v / POWERS[k] % 256
    {
      ByteAt(v, n, k);
      assert bs[offset..offset + n][k] == bs[offset + k];
    }
  }

  lemma HeaderOffsets()
    ensures Offset(WIDTHS, 0) == 0 && Offset(WIDTHS, 1) == 4 && Offset(WIDTHS, 2) == 8 && Offset(WIDTHS, 3) == 16
    ensures Offset(WIDTHS, 4) == 24 && Offset(WIDTHS, 5) == 28 && Offset(WIDTHS, 6) == 32 && Offset(WIDTHS, 7) == 36
    ensures Offset(WIDTHS, 8) == 40 && Offset(WIDTHS, 9) == 48 && Offset(WIDTHS, 10) == 56
  {
  }

  lemma HeaderSlots(h: Header, values: seq<nat>)
    requires values == Fields(h)
    ensures Slot(WIDTHS, values, 0, 0, 4, h.magic)
    ensures Slot(WIDTHS, values, 1, 4, 4, h.headerBytes)
    ensures Slot(WIDTHS, values, 2, 8, 8, h.sequence)
    ensures Slot(WIDTHS, values, 3, 16, 8, h.producerTs)
    ensures Slot(WIDTHS, values, 4, 24, 4, h.channelCount)
    ensures Slot(WIDTHS, values, 5, 28, 4, h.blockLength)
    ensures Slot(WIDTHS, values, 6, 32, 4, h.payloadBytes)
    ensures Slot(WIDTHS, values, 7, 36, 4, h.crc)
    ensures Slot(WIDTHS, values, 8, 40, 8, h.sampleRateBits)
    ensures Slot(WIDTHS, values, 9, 48, 8, h.dropsTotal)
    ensures Slot(WIDTHS, values, 10, 56, 8, h.firstSample)
  {
    HeaderOffsets();
    hide Offset;
  }

  lemma SlotBytes(h: Header, widths: seq<nat>, values: seq<nat>)
    requires |widths| == |values|
    requires Slot(widths, values, 0, 0, 4, h.magic)
    requires Slot(widths, values, 1, 4, 4, h.headerBytes)
    requires Slot(widths, values, 2, 8, 8, h.sequence)
    requires Slot(widths, values, 3, 16, 8, h.producerTs)
    requires Slot(widths, values, 4, 24, 4, h.channelCount)
    requires Slot(widths, values, 5, 28, 4, h.blockLength)
    requires Slot(widths, values, 6, 32, 4, h.payloadBytes)
    requires Slot(widths, values, 7, 36, 4, h.crc)
    requires Slot(widths, values, 8, 40, 8, h.sampleRateBits)
    requires Slot(widths, values, 9, 48, 8, h.dropsTotal)
    requires Slot(widths, values, 10, 56, 8, h.firstSample)
    ensures LittleEndianAt(EncodeFields(widths, values), 0, 4, h.magic)
    ensures LittleEndianAt(EncodeFields(widths, values), 4, 4, h.headerBytes)
    ensures LittleEndianAt(EncodeFields(widths, values), 8, 8, h.sequence)
    ensures LittleEndianAt(EncodeFields(widths, values), 16, 8, h.producerTs)
    ensures LittleEndianAt(EncodeFields(widths, values), 24, 4, h.channelCount)
    ensures LittleEndianAt(EncodeFields(widths, values), 28, 4, h.blockLength)
    ensures LittleEndianAt(EncodeFields(widths, values), 32, 4, h.payloadBytes)
    ensures LittleEndianAt(EncodeFields(widths, values), 36, 4, h.crc)
    ensures LittleEndianAt(EncodeFields(widths, values), 40, 8, h.sampleRateBits)
    ensures LittleEndianAt(EncodeFields(widths, values), 48, 8, h.dropsTotal)
    ensures LittleEndianAt(EncodeFields(widths, values), 56, 8, h.firstSample)
  {
    hide Slot, LittleEndianAt, EncodeFields, Offset;
    FieldBytes(widths, values, 0, 0, 4, h.magic);
    FieldBytes(widths, values, 1, 4, 4, h.headerBytes);
    FieldBytes(widths, values, 2, 8, 8, h.sequence);
    FieldBytes(widths, values, 3, 16, 8, h.producerTs);
    FieldBytes(widths, values, 4, 24, 4, h.channelCount);
    FieldBytes(widths, values, 5, 28, 4, h.blockLength);
    FieldBytes(widths, values, 6, 32, 4, h.payloadBytes);
    FieldBytes(widths, values, 7, 36, 4, h.crc);
    FieldBytes(widths, values, 8, 40, 8, h.sampleRateBits);
    FieldBytes(widths, values, 9, 48, 8, h.dropsTotal);
    FieldBytes(widths, values, 10, 56, 8, h.firstSample);
  }

  lemma EncodedAs(h: Header, values: seq<nat>)
    requires values == Fields(h)
    ensures EncodeHeader(h) == EncodeFields(WIDTHS, values)
  {
    hide EncodeFields, Fields;
  }

  /** Every field of the header has its place among the 64 bytes. */
  lemma HeaderLayout(h: Header)
    ensures |EncodeHeader(h)| == 64
    ensures LittleEndianAt(EncodeHeader(h), 0, 4, h.magic)
    ensures LittleEndianAt(EncodeHeader(h), 4, 4, h.headerBytes)
    ensures LittleEndianAt(EncodeHeader(h), 8, 8, h.sequence)
    ensures LittleEndianAt(EncodeHeader(h), 16, 8, h.producerTs)
    ensures LittleEndianAt(EncodeHeader(h), 24, 4, h.channelCount)
    ensures LittleEndianAt(EncodeHeader(h), 28, 4, h.blockLength)
    ensures LittleEndianAt(EncodeHeader(h), 32, 4, h.payloadBytes)
    ensures LittleEndianAt(EncodeHeader(h), 36, 4, h.crc)
    ensures LittleEndianAt(EncodeHeader(h), 40, 8, h.sampleRateBits)
    ensures LittleEndianAt(EncodeHeader(h), 48, 8, h.dropsTotal)
    ensures LittleEndianAt(EncodeHeader(h), 56, 8, h.firstSample)
  {
    var values := Fields(h);
    HeaderSlots(h, values);
    EncodedAs(h, values);
    hide EncodeFields, EncodeHeader, LittleEndianAt, Slot, Fields;
    SlotBytes(h, WIDTHS, values);
  }

  /** A valid frame starts with the letters G, F, H and 2. */
  lemma StartsWithMagic(f: WireFrame)
    requires ValidFrame(f)
    ensures EncodeFrame(f)[..4] == [0x47, 0x46, 0x48, 0x32]
  {
    var bs := EncodeHeader(f.header);
    HeaderLayout(f.header);
    hide EncodeHeader, EncodeSamples;
    MagicBytes(bs);
    hide LittleEndianAt;
    assert EncodeFrame(f)[..4] == [bs[0], bs[1], bs[2], bs[3]];
  }

  lemma MagicBytes(bs: seq<byte>)
    requires LittleEndianAt(bs, 0, 4, FRAME_HEADER_MAGIC)
    ensures |bs| >= 4 && bs[0] == 0x47 && bs[1] == 0x46 && bs[2] == 0x48 && bs[3] == 0x32
  {
    assert bs[0] == bs[0 + 0] == FRAME_HEADER_MAGIC / POWERS[0] % 256;
    assert bs[1] == bs[0 + 1] == FRAME_HEADER_MAGIC / POWERS[1] % 256;
    assert bs[2] == bs[0 + 2] == FRAME_HEADER_MAGIC / POWERS[2] % 256;
    assert bs[3] == bs[0 + 3] == FRAME_HEADER_MAGIC / POWERS[3] % 256;
  }

  /** Two's complement in two bytes. */
  ghost predicate IsSample(x: int16, low: byte, high: byte)
  {
    x as int == low as int + 256 * high as int - if high < 128 then 0 else 0x1_0000
  }

  /** Samples are in order, the low byte first. */
  lemma {:induction false} SampleLayout(s: seq<int16>, i: nat)
    requires i < |s|
    ensures IsSample(s[i], EncodeSamples(s)[2 * i], EncodeSamples(s)[2 * i + 1])
  {
    FirstSample(s);
    hide EncodeSamples, IsSample;
    if i > 0 {
      SampleLayout(s[1..], i - 1);
      Later(EncodeSamples(s), EncodeSamples(s[1..]), 2 * (i - 1));
    }
  }

  lemma Later(bs: seq<byte>, tail: seq<byte>, k: nat)
    requires |bs| >= 2 && bs[2..] == tail && k + 1 < |tail|
    ensures bs[k + 2] == tail[k] && bs[k + 3] == tail[k + 1]
  {
  }

  lemma FirstSample(s: seq<int16>)
    requires s != []
    ensures var bs := EncodeSamples(s); IsSample(s[0], bs[0], bs[1]) && bs[2..] == EncodeSamples(s[1..])
  {
    var u: int := if s[0] < 0 then s[0] as int + 0x1_0000 else s[0] as int;
    Arith.DivModDef(u, 256);
  }

  // ---- Decoding, then encoding ----

  lemma {:induction false} BytesBack(bs: seq<byte>)
    ensures ToBytes(FromBytes(bs), |bs|) == bs && FromBytes(bs) < Pow256(|bs|)
  {
    if bs != [] {
      var v := FromBytes(bs[1..]);
      BytesBack(bs[1..]);
      Arith.DivModUnique(bs[0] as int + 256 * v, 256, v, bs[0] as int);
    }
  }

  lemma {:induction false} FieldsBack(widths: seq<nat>, bs: seq<byte>)
    requires |bs| == TotalWidth(widths)
    ensures EncodeFields(widths, DecodeFields(widths, bs)) == bs && Fits(widths, DecodeFields(widths, bs))
  {
    if widths != [] {
      var head, tail := bs[..widths[0]], bs[widths[0]..];
      BytesBack(head);
      FieldsBack(widths[1..], tail);
      var values := DecodeFields(widths, bs);
      hide ToBytes, FromBytes, Pow256;
      assert values[1..] == DecodeFields(widths[1..], tail) && values[0] == FromBytes(head);
      assert head + tail == bs;
    }
  }

  lemma HeaderBack(bs: seq<byte>)
    requires |bs| == HEADER_SIZE
    ensures EncodeHeader(DecodeHeader(bs)) == bs && Fits(WIDTHS, Fields(DecodeHeader(bs)))
  {
    WidthsAddUp();
    FieldsBack(WIDTHS, bs);
    hide EncodeFields, DecodeFields, TotalWidth, Fits;
    assert Fields(DecodeHeader(bs)) == DecodeFields(WIDTHS, bs);
  }

  lemma {:induction false} SamplesBack(bs: seq<byte>)
    requires |bs| % 2 == 0
    ensures EncodeSamples(DecodeSamples(bs)) == bs
  {
    if bs != [] {
      SamplesBack(bs[2..]);
      assert DecodeSamples(bs)[1..] == DecodeSamples(bs[2..]);
      assert bs == [bs[0], bs[1]] + bs[2..];
      Arith.DivModUnique(bs[0] as int + 256 * bs[1] as int, 256, bs[1] as int, bs[0] as int);
    }
  }

  /** What was parsed, encoded again, is what was read. */
  lemma ParsedIsEncoded(stream: seq<byte>)
    requires ParseFrame(stream).Got?
    ensures var r := ParseFrame(stream); ValidFrame(r.frame) && EncodeFrame(r.frame) + r.rest == stream
  {
    var head, body := ParsedParts(stream);
    var r := ParseFrame(stream);
    HeaderBack(head);
    SamplesBack(body);
    hide DecodeHeader, EncodeHeader, DecodeSamples, EncodeSamples, Fits, ParseFrame, Fields;
  }

  lemma ParsedParts(stream: seq<byte>) returns (head: seq<byte>, body: seq<byte>)
    requires ParseFrame(stream).Got?
    ensures |head| == HEADER_SIZE && |body| % 2 == 0 && head + body + ParseFrame(stream).rest == stream
    ensures ParseFrame(stream).frame == WireFrame(DecodeHeader(head), DecodeSamples(body))
    ensures DecodeHeader(head).magic == FRAME_HEADER_MAGIC && DecodeHeader(head).payloadBytes == |body|
  {
    hide DecodeHeader, DecodeSamples;
    head := stream[..HEADER_SIZE];
    body := stream[HEADER_SIZE..][..DecodeHeader(head).payloadBytes];
  }

  /** A stream yields a frame if and only if it starts with the encoding of a valid one. */
  lemma ParsesIff(stream: seq<byte>)
    ensures ParseFrame(stream).Got? <==> exists f, rest :: ValidFrame(f) && stream == EncodeFrame(f) + rest
  {
    if ParseFrame(stream).Got? {
      ParsedIsEncoded(stream);
    }
    hide ParseFrame, EncodeFrame, ValidFrame;
    forall f, rest | ValidFrame(f) && stream == EncodeFrame(f) + rest
      ensures ParseFrame(stream).Got?
    {
      ParseOfEncoded(f, rest);
    }
  }
}
