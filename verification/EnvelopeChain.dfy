/** The end-to-end law: a MinMax-decimated frame of a tiled signal is a complete legal envelope. */
module EnvelopeChain {
  import opened Samples
  import opened SlidingWindow
  import opened Decimator
  import opened SimdMinMax
  import opened ChannelMajor
  import Source = SyntheticSource
  import Verifier = EnvelopeVerifier
  import Arith

  /** A stretch of a tiled frame is a cyclic window of the period, starting inside it. */
  lemma StretchIsWindow(period: seq<int16>, pos: nat, n: nat, lo: nat, hi: nat) returns (s: nat)
    requires period != [] && lo < hi <= n
    ensures s < |period|
    ensures Window(period, pos, n)[lo..hi] == Window(period, s, hi - lo)
  {
    hide Window;
    var k := |period|;
    s := (pos + lo) % k;
    forall j | 0 <= j < hi - lo
      ensures Window(period, pos, n)[lo..hi][j] == Window(period, s, hi - lo)[j]
    {
      StretchAt(period, pos, n, lo, hi, j);
    }
  }

  lemma StretchAt(period: seq<int16>, pos: nat, n: nat, lo: nat, hi: nat, j: nat)
    requires period != [] && lo + j < hi <= n
    ensures Window(period, pos, n)[lo + j] == Window(period, (pos + lo) % |period|, hi - lo)[j]
  {
    hide Window;
    Arith.ModShift(pos, lo, j, |period|);
    SamePlace(period, pos, n, lo + j, (pos + lo) % |period|, hi - lo, j);
  }

  lemma SamePlace(period: seq<int16>, s: nat, n: nat, j: nat, s': nat, n': nat, j': nat)
    requires period != [] && j < n && j' < n' && (s + j) % |period| == (s' + j') % |period|
    ensures Window(period, s, n)[j] == Window(period, s', n')[j']
  {
    hide Window;
    WindowAt(period, s, n, j);
    WindowAt(period, s', n', j');
  }

  /** Each bucket's pair is the extent of a window of one of the two sizes the verifier looks up. */
  lemma BucketIsLegal(period: seq<int16>, pos: nat, n: nat, target: nat, b: nat)
    requires period != [] && 2 <= target < n && b < target / 2
    ensures 2 * b + 1 < |MinMax(Window(period, pos, n), target)|
    ensures Verifier.Legal(Verifier.PairAt(MinMax(Window(period, pos, n), target), b),
                           period, Verifier.BaseSize(n, target / 2))
  {
    hide *;
    var frame, k := Window(period, pos, n), target / 2;
    MinMaxPair(frame, target, b);
    var s := BucketIsWindow(period, pos, n, k, b);
    var base := SizeIsLookedUp(n, k, b);
    var e, w := Verifier.PairAt(MinMax(frame, target), b), Bound(b + 1, n, k) - Bound(b, n, k);
    PairIs(frame, target, b);
    ExtentUnique(e, Bucket(frame, k, b));
    WindowExtentIs(period, s, w);
    LegalWitness(e, period, base, s, w);
  }

  lemma BucketIsWindow(period: seq<int16>, pos: nat, n: nat, k: nat, b: nat) returns (s: nat)
    requires period != [] && 0 < k <= n && b < k
    ensures s < |period| && Bound(b, n, k) < Bound(b + 1, n, k)
    ensures Bucket(Window(period, pos, n), k, b) == Window(period, s, Bound(b + 1, n, k) - Bound(b, n, k))
    ensures Bucket(Window(period, pos, n), k, b) != []
  {
    hide *;
    BucketIsSlice(Window(period, pos, n), k, b);
    s := StretchIsWindow(period, pos, n, Bound(b, n, k), Bound(b + 1, n, k));
  }

  lemma PairIs(frame: seq<int16>, target: nat, b: nat)
    requires 2 <= target < |frame| && b < target / 2 && 2 * b + 1 < |MinMax(frame, target)|
    ensures IsExtent(Verifier.PairAt(MinMax(frame, target), b), Bucket(frame, target / 2, b))
  {
    hide MinMax, Bucket, IsExtent;
    MinMaxPair(frame, target, b);
  }

  lemma SizeIsLookedUp(n: nat, k: nat, b: nat) returns (base: nat)
    requires 0 < k <= n && b < k
    ensures base == Verifier.BaseSize(n, k)
    ensures Bound(b + 1, n, k) - Bound(b, n, k) == base || Bound(b + 1, n, k) - Bound(b, n, k) == base + 1
  {
    hide Bound;
    BucketSize(b, n, k);
    QuotientPositive(n, k);
    base := n / k;
  }

  lemma LegalWitness(e: Extent, period: seq<int16>, base: nat, s: nat, w: nat)
    requires period != [] && base > 0 && (w == base || w == base + 1) && s < |period|
    requires e == WindowExtent(period, s, w)
    ensures Verifier.Legal(e, period, base)
  {
    hide WindowExtent;
    assert Verifier.Near(WindowExtent(period, s, w), e);
    assert Verifier.NearWindow(e, period, w);
  }

  /**
   * For every period, phase, frame length and target below it, every bucket of the decimated
   * frame is matched.
   */
  lemma EnvelopeIsComplete(period: seq<int16>, pos: nat, n: nat, target: nat)
    requires period != [] && 2 <= target < n
    ensures |MinMax(Window(period, pos, n), target)| == 2 * (target / 2)
    ensures Verifier.LegalCount(MinMax(Window(period, pos, n), target), period,
                                Verifier.BaseSize(n, target / 2), target / 2) == target / 2
  {
    hide *;
    MinMaxLength(Window(period, pos, n), target);
    var k := target / 2;
    forall b | 0 <= b < k
      ensures Verifier.Legal(Verifier.PairAt(MinMax(Window(period, pos, n), target), b),
                             period, Verifier.BaseSize(n, k))
    {
      BucketIsLegal(period, pos, n, target, b);
    }
  }

  /** One frame of n samples, checked as the profiler does: every pair of the output is matched. */
  ghost predicate Verifies(period: seq<int16>, pos: nat, n: nat, target: nat)
    requires period != []
  {
    var output := MinMax(Window(period, pos, n), target);
    var k := |output| / 2;
    k > 0 && Verifier.LegalCount(output, period, Verifier.BaseSize(n, k), k) == k
  }

  ghost predicate AlwaysVerifies(n: nat, target: nat)
  {
    forall period: seq<int16>, pos: nat :: period != [] ==> Verifies(period, pos, n, target)
  }

  /**
   * Every signal verifies exactly when the frames are longer than the target. A shorter frame is
   * passed through undecimated, and its samples need not be pairs of a minimum and a maximum.
   */
  lemma VerifiesIffDecimated(n: nat, target: nat)
    requires n >= 2 && target >= 2
    ensures AlwaysVerifies(n, target) <==> n > target
  {
    hide Verifies;
    if n > target {
      forall period: seq<int16>, pos: nat | period != []
        ensures Verifies(period, pos, n, target)
      {
        DecimatedVerifies(period, pos, n, target);
      }
    } else {
      PassthroughFails(n, target);
    }
  }

  lemma DecimatedVerifies(period: seq<int16>, pos: nat, n: nat, target: nat)
    requires period != [] && 2 <= target < n
    ensures Verifies(period, pos, n, target)
  {
    hide MinMax, Window, Verifier.LegalCount, Verifier.BaseSize;
    EnvelopeIsComplete(period, pos, n, target);
  }

  /** A falling pair of samples, passed through, is no envelope of the period it comes from. */
  lemma PassthroughFails(n: nat, target: nat)
    requires 2 <= n <= target
    ensures !Verifies([10, 0], 0, n, target)
  {
    var period: seq<int16> := [10, 0];
    var output := MinMax(Window(period, 0, n), target);
    var k := |output| / 2;
    assert output == Window(period, 0, n) && |output| == n;
    WindowAt(period, 0, n, 0);
    WindowAt(period, 0, n, 1);
    hide MinMax, Window, WindowExtent, Verifier.LegalCount;
    PairsNeedTwo(n);
    var e := Verifier.PairAt(output, 0);
    assert e == Extent(10, 0);
    FallingIsNotNear(Verifier.BaseSize(n, k));
    FallingIsNotNear(Verifier.BaseSize(n, k) + 1);
    assert !Verifier.Legal(e, period, Verifier.BaseSize(n, k));
  }

  lemma PairsNeedTwo(n: nat)
    requires n >= 2
    ensures n / 2 > 0 && Verifier.BaseSize(n, n / 2) >= 2
  {
    Arith.DivModDef(n, n / 2);
  }

  lemma FallingIsNotNear(w: nat)
    requires w >= 2
    ensures !Verifier.NearWindow(Extent(10, 0), [10, 0], w)
  {
    var period: seq<int16> := [10, 0];
    hide WindowExtent;
    forall s | 0 <= s < 2
      ensures WindowExtent(period, s, w) == Extent(0, 10)
    {
      FullWindow(period, s, w);
      ExtentUnique(Extent(0, 10), period);
    }
  }

  predicate Complete(r: Verifier.EnvelopeResult, target: nat)
  {
    r.matched == r.total == target / 2 && r.matchRate == 1.0
  }

  /** Read a frame and slice one channel out of it. */
  method ReadChannel(source: Source.SyntheticSource, ch: nat, n: nat) returns (raw: seq<int16>)
    requires source.Ready() && ch < |source.channels|
    modifies source`channels, source`nextSequence
    ensures source.Ready() && |source.channels| == old(|source.channels|)
    ensures source.channels[ch].periodBuf == old(source.channels[ch].periodBuf)
    ensures raw == Source.Tile(old(source.channels[ch]), n)
  {
    hide Concat, Source.Tiles, Source.Tile;
    ghost var parts := Source.Tiles(source.channels, n);
    var sequence, data := source.ReadTiled(n);
    ChannelOfConcat(parts, n, ch);
    raw := data[ch * n..ch * n + n];
  }

  /**
   * The three components run together on one channel: any number of successive frames are read
   * from the source, decimated by the SIMD code and checked, and every one matches completely.
   */
  method CheckFrames(source: Source.SyntheticSource, verifier: Verifier.EnvelopeVerifier, ch: nat,
                     n: nat, target: nat, frames: nat) returns (results: seq<Verifier.EnvelopeResult>)
    requires source.Ready() && ch < |source.channels|
    requires verifier.Valid() && verifier.IsReady()
    requires verifier.Period() == source.channels[ch].periodBuf
    requires 2 <= target < n
    modifies source`channels, source`nextSequence, verifier`cache
    ensures |results| == frames
    ensures forall i :: 0 <= i < frames ==> Complete(results[i], target)
  {
    hide Window, MinMax, Verifier.LegalCount, Verifier.BaseSize, Verifier.IsWindowSet;
    results := [];
    ghost var period := verifier.Period();
    for i := 0 to frames
      invariant source.Ready() && ch < |source.channels| && source.channels[ch].periodBuf == period
      invariant verifier.Valid() && verifier.IsReady() && verifier.Period() == period
      invariant |results| == i
      invariant forall j :: 0 <= j < i ==> Complete(results[j], target)
    {
      ghost var cs := source.channels[ch];
      var raw := ReadChannel(source, ch, n);
      var decimated := MinMaxSimd(raw, target);
      EnvelopeIsComplete(period, cs.periodPos, n, target);
      var r := verifier.Verify(decimated, |decimated| / 2, n);
      assert r.matched == target / 2;
      Whole(target / 2);
      assert Complete(r, target);
      results := results + [r];
    }
  }

  lemma Whole(k: nat)
    requires k > 0
    ensures k as real / k as real == 1.0
  {
  }
}
