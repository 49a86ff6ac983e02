/** Channel-major sample layout: all samples of channel 0, then channel 1, and so on. */
module ChannelMajor {
  import opened Samples
  import Arith

  function Concat(parts: seq<seq<int16>>): seq<int16>
  {
    if parts == [] then [] else Concat(parts[..|parts| - 1]) + parts[|parts| - 1]
  }

  /** The samples of channel ch when every channel has spc of them. */
  function Channel(data: seq<int16>, spc: nat, ch: nat): (s: seq<int16>)
    requires 0 <= ch * spc <= ch * spc + spc <= |data|
    ensures |s| == spc
  {
    data[ch * spc..ch * spc + spc]
  }

  lemma {:induction false} ConcatLength(parts: seq<seq<int16>>, spc: nat)
    requires forall ch :: 0 <= ch < |parts| ==> |parts[ch]| == spc
    ensures |Concat(parts)| == |parts| * spc
  {
    if parts != [] {
      ConcatLength(parts[..|parts| - 1], spc);
      Arith.MulAdd(|parts| - 1, 1, spc);
    }
  }

  lemma ChannelBounds(ch: nat, count: nat, spc: nat)
    requires ch < count
    ensures 0 <= ch * spc <= ch * spc + spc <= count * spc
  {
    Arith.MulAdd(ch, 1, spc);
    Arith.MulSub(count, ch + 1, spc);
    if count > ch + 1 {
      Arith.MulAtLeast(count - (ch + 1), spc);
    }
  }

  /** Slicing a concatenation of equal-length channels gives each channel back. */
  lemma {:induction false} ChannelOfConcat(parts: seq<seq<int16>>, spc: nat, ch: nat)
    requires forall c :: 0 <= c < |parts| ==> |parts[c]| == spc
    requires ch < |parts|
    ensures 0 <= ch * spc <= ch * spc + spc <= |Concat(parts)|
    ensures Channel(Concat(parts), spc, ch) == parts[ch]
  {
    var m := |parts| - 1;
    var rest := parts[..m];
    ConcatLength(parts, spc);
    ConcatLength(rest, spc);
    ChannelBounds(ch, |parts|, spc);
    hide Concat;
    assert Concat(parts) == Concat(rest) + parts[m] by { ConcatUnfold(parts); }
    if ch < m {
      ChannelOfConcat(rest, spc, ch);
      ChannelBounds(ch, m, spc);
      SlicePrefix(Concat(rest), parts[m], ch * spc, ch * spc + spc);
    } else {
      SliceSuffix(Concat(rest), parts[m]);
    }
  }

  lemma ConcatUnfold(parts: seq<seq<int16>>)
    requires parts != []
    ensures Concat(parts) == Concat(parts[..|parts| - 1]) + parts[|parts| - 1]
  {
  }

  lemma SlicePrefix(s: seq<int16>, t: seq<int16>, lo: nat, hi: nat)
    requires lo <= hi <= |s|
    ensures (s + t)[lo..hi] == s[lo..hi]
  {
  }

  lemma SliceSuffix(s: seq<int16>, t: seq<int16>)
    ensures (s + t)[|s|..|s| + |t|] == t
  {
  }

  /** Build a frame's buffer by copying each channel to its place; every copy stays inside the buffer. */
  method Assemble(parts: seq<seq<int16>>, spc: nat) returns (data: array<int16>)
    requires forall ch :: 0 <= ch < |parts| ==> |parts[ch]| == spc
    ensures fresh(data) && data[..] == Concat(parts) && data.Length == |parts| * spc
  {
    data := new int16[|parts| * spc](_ => 0);
    assert parts[..0] == [] && Concat(parts[..0]) == [];
    hide Concat;
    ghost var end := 0;
    for ch := 0 to |parts|
      invariant end == ch * spc && end <= data.Length
      invariant data[..end] == Concat(parts[..ch])
    {
      NextChannel(ch, |parts|, spc);
      CopyChannel(data, ch * spc, parts[ch]);
      ConcatNext(parts, ch);
      end := end + spc;
    }
    assert parts[..|parts|] == parts;
    assert data[..data.Length] == data[..];
  }

  lemma NextChannel(ch: nat, count: nat, spc: nat)
    requires ch < count
    ensures 0 <= ch * spc <= ch * spc + spc == (ch + 1) * spc <= count * spc
  {
    ChannelBounds(ch, count, spc);
    Arith.MulAdd(ch, 1, spc);
  }

  lemma ConcatNext(parts: seq<seq<int16>>, ch: nat)
    requires ch < |parts|
    ensures Concat(parts[..ch + 1]) == Concat(parts[..ch]) + parts[ch]
  {
    assert parts[..ch + 1][..ch] == parts[..ch];
  }

  /** memcpy of one channel to the given offset. */
  method CopyChannel(data: array<int16>, offset: nat, part: seq<int16>)
    requires offset + |part| <= data.Length
    modifies data
    ensures data[..offset + |part|] == old(data[..offset]) + part
  {
    forall k | 0 <= k < |part| {
      data[offset + k] := part[k];
    }
  }

  function LastN(s: seq<int16>, n: nat): (r: seq<int16>)
    requires n <= |s|
    ensures |r| == n
  {
    s[|s| - n..]
  }
}
