/** Round-robin assignment of channels to workers, and gathering their results in channel order. */
module ChannelAssignment {
  import opened Samples
  import opened ChannelMajor
  import opened Decimation
  import Arith

  /** Entry i of worker w is channel i * workers + w: quotient i, remainder w. */
  ghost predicate IsRoundRobin(owned: seq<seq<nat>>, workers: nat, channels: nat)
  {
    && |owned| == workers > 0
    && (forall w, i :: 0 <= w < workers && 0 <= i < |owned[w]| ==>
          owned[w][i] < channels && owned[w][i] % workers == w && owned[w][i] / workers == i)
    && (forall w :: 0 <= w < workers ==> |owned[w]| == channels / workers + if w < channels % workers then 1 else 0)
  }

  lemma CountStep(ch: nat, workers: nat, w: nat)
    requires workers > 0 && w < workers
    ensures (ch + 1) / workers + (if w < (ch + 1) % workers then 1 else 0) ==
            ch / workers + (if w < ch % workers then 1 else 0) + if w == ch % workers then 1 else 0
  {
    Arith.DivModDef(ch, workers);
    if ch % workers + 1 < workers {
      Arith.DivModUnique(ch + 1, workers, ch / workers, ch % workers + 1);
    } else {
      Arith.MulAdd(ch / workers, 1, workers);
      Arith.DivModUnique(ch + 1, workers, ch / workers + 1, 0);
    }
  }

  /** The assignment loop of start(). */
  method Assign(channels: nat, workers: nat) returns (owned: seq<seq<nat>>)
    requires workers > 0
    ensures IsRoundRobin(owned, workers, channels)
  {
    owned := seq(workers, _ => []);
    NoChannels(owned, workers);
    for ch := 0 to channels
      invariant IsRoundRobin(owned, workers, ch)
    {
      AssignOne(owned, workers, ch);
      owned := owned[ch % workers := owned[ch % workers] + [ch]];
    }
  }

  lemma NoChannels(owned: seq<seq<nat>>, workers: nat)
    requires |owned| == workers > 0 && forall w :: 0 <= w < workers ==> owned[w] == []
    ensures IsRoundRobin(owned, workers, 0)
  {
    Arith.ModSmall(0, workers);
  }

  lemma AssignOne(owned: seq<seq<nat>>, workers: nat, ch: nat)
    requires IsRoundRobin(owned, workers, ch)
    ensures ch % workers < workers
    ensures IsRoundRobin(owned[ch % workers := owned[ch % workers] + [ch]], workers, ch + 1)
  {
    Arith.DivModDef(ch, workers);
    var v := ch % workers;
    var next := owned[v := owned[v] + [ch]];
    forall w | 0 <= w < workers
      ensures |next[w]| == (ch + 1) / workers + if w < (ch + 1) % workers then 1 else 0
    {
      CountStep(ch, workers, w);
    }
  }

  /** The slot search of the gather loop; it finds the quotient. */
  method FindSlot(owned: seq<nat>, ch: nat) returns (slot: nat)
    ensures ch in owned ==> slot < |owned| && owned[slot] == ch && ch !in owned[..slot]
    ensures ch !in owned ==> slot == 0
  {
    slot := 0;
    for i := 0 to |owned|
      invariant ch !in owned[..i] && slot == 0
    {
      if owned[i] == ch {
        slot := i;
        return;
      }
    }
    assert owned[..|owned|] == owned;
  }

  /** Every channel has exactly one place among the workers' slots. */
  lemma PlaceOf(owned: seq<seq<nat>>, workers: nat, channels: nat, ch: nat)
    requires IsRoundRobin(owned, workers, channels) && ch < channels
    ensures ch % workers < workers && ch / workers < |owned[ch % workers]|
    ensures owned[ch % workers][ch / workers] == ch
    ensures forall w, i :: 0 <= w < workers && 0 <= i < |owned[w]| && owned[w][i] == ch ==>
      w == ch % workers && i == ch / workers
  {
    var w, i := ch % workers, ch / workers;
    Arith.DivModDef(ch, workers);
    QuotientBelow(ch, channels, workers);
    var c := owned[w][i];
    Arith.DivModDef(c, workers);
    assert c == i * workers + w == ch;
  }

  lemma QuotientBelow(ch: nat, channels: nat, workers: nat)
    requires workers > 0 && ch < channels
    ensures ch / workers < channels / workers + if ch % workers < channels % workers then 1 else 0
  {
    Arith.DivModDef(ch, workers);
    Arith.DivModDef(channels, workers);
    var a, b := ch / workers, channels / workers;
    if a > b {
      Arith.MulSub(a, b, workers);
      Arith.MulAtLeast(a - b, workers);
    }
  }

  function Zeros(n: nat): (z: seq<int16>)
    ensures |z| == n && forall i :: 0 <= i < n ==> z[i] == 0
  {
    seq(n, _ => 0)
  }

  /** What a worker leaves in a result slot. */
  ghost function WorkerResult(hist: seq<int16>, mode: Mode, target: nat): seq<int16>
  {
    if hist != [] then Decimated(hist, mode, target) else []
  }

  /** What the gather loop makes of a result slot: empty results become zeros. */
  function GatherPart(dec: seq<int16>, target: nat): seq<int16>
  {
    if dec == [] then Zeros(target) else dec
  }

  /** What the single-threaded path appends for a channel: only an empty history becomes zeros. */
  ghost function SinglePart(hist: seq<int16>, mode: Mode, target: nat): seq<int16>
  {
    if hist == [] then Zeros(target) else Decimated(hist, mode, target)
  }

  /** The buffer gathered from the workers, for the histories they hold. */
  ghost function Gathered(hists: seq<seq<int16>>, mode: Mode, target: nat): seq<int16>
  {
    if hists == [] then []
    else
      var m := |hists| - 1;
      Gathered(hists[..m], mode, target) + GatherPart(WorkerResult(hists[m], mode, target), target)
  }

  /** The buffer of the single-threaded path. */
  ghost function SinglePass(hists: seq<seq<int16>>, mode: Mode, target: nat): seq<int16>
  {
    if hists == [] then []
    else SinglePass(hists[..|hists| - 1], mode, target) + SinglePart(hists[|hists| - 1], mode, target)
  }

  /** The concatenation loop of thread_func_single. */
  method SingleThreaded(hists: seq<seq<int16>>, mode: Mode, target: nat)
    returns (concatenated: seq<int16>, perChannel: nat)
    ensures concatenated == SinglePass(hists, mode, target)
    ensures perChannel == if hists == [] then 0 else |SinglePart(hists[|hists| - 1], mode, target)|
  {
    hide Decimated;
    concatenated, perChannel := [], 0;
    for ch := 0 to |hists|
      invariant concatenated == SinglePass(hists[..ch], mode, target)
      invariant perChannel == if ch == 0 then 0 else |SinglePart(hists[ch - 1], mode, target)|
    {
      assert hists[..ch + 1][..ch] == hists[..ch];
      if hists[ch] == [] {
        concatenated := concatenated + Zeros(target);
        perChannel := target;
      } else {
        var dec := Decimate(hists[ch], mode, target);
        concatenated := concatenated + dec;
        perChannel := |dec|;
      }
    }
    assert hists[..|hists|] == hists;
  }

  /** results[w][i] is what worker w holds for the history of its i-th channel. */
  ghost predicate ResultsFor(results: seq<seq<seq<int16>>>, owned: seq<seq<nat>>, hists: seq<seq<int16>>,
                             mode: Mode, target: nat)
  {
    && |results| == |owned|
    && (forall w :: 0 <= w < |owned| ==> |results[w]| == |owned[w]|)
    && forall w, i :: 0 <= w < |owned| && 0 <= i < |owned[w]| ==>
         owned[w][i] < |hists| && results[w][i] == WorkerResult(hists[owned[w][i]], mode, target)
  }

  /** The result of a channel, found through its worker and slot. */
  method FindResult(results: seq<seq<seq<int16>>>, owned: seq<seq<nat>>, workers: nat, target: nat, ch: nat,
                    ghost hists: seq<seq<int16>>, ghost mode: Mode) returns (dec: seq<int16>)
    requires IsRoundRobin(owned, workers, |hists|) && ResultsFor(results, owned, hists, mode, target)
    requires ch < |hists|
    ensures dec == WorkerResult(hists[ch], mode, target)
  {
    hide Decimated, IsRoundRobin, WorkerResult;
    PlaceOf(owned, workers, |hists|, ch);
    RoundRobinShape(owned, workers, |hists|);
    var w := ch % workers;
    var slot := FindSlot(owned[w], ch);
    dec := results[w][slot];
  }

  /** The gather loop of thread_func_multi. */
  method Gather(results: seq<seq<seq<int16>>>, owned: seq<seq<nat>>, workers: nat, channels: nat, target: nat,
                ghost hists: seq<seq<int16>>, ghost mode: Mode) returns (concatenated: seq<int16>)
    requires IsRoundRobin(owned, workers, |hists|) && ResultsFor(results, owned, hists, mode, target)
    requires |hists| == channels
    ensures concatenated == Gathered(hists, mode, target)
  {
    hide Decimated, IsRoundRobin, ResultsFor, WorkerResult;
    concatenated := [];
    for ch := 0 to channels
      invariant concatenated == Gathered(hists[..ch], mode, target)
    {
      var dec := FindResult(results, owned, workers, target, ch, hists, mode);
      assert hists[..ch + 1][..ch] == hists[..ch];
      concatenated := concatenated + if dec == [] then Zeros(target) else dec;
    }
    assert hists[..|hists|] == hists;
  }

  lemma RoundRobinShape(owned: seq<seq<nat>>, workers: nat, channels: nat)
    requires IsRoundRobin(owned, workers, channels)
    ensures |owned| == workers > 0
  {
  }

  /** The single-threaded path and the gather agree on a channel exactly when neither had to improvise. */
  lemma PartsAgree(hist: seq<int16>, mode: Mode, target: nat)
    ensures |GatherPart(WorkerResult(hist, mode, target), target)| >= |SinglePart(hist, mode, target)|
    ensures GatherPart(WorkerResult(hist, mode, target), target) == SinglePart(hist, mode, target) <==>
            hist == [] || target >= LeastTarget(mode) || target == 0
    ensures GatherPart(WorkerResult(hist, mode, target), target) != SinglePart(hist, mode, target) ==>
            |GatherPart(WorkerResult(hist, mode, target), target)| > |SinglePart(hist, mode, target)|
  {
    hide Decimated;
    DecimatedEmptyIff(hist, mode, target);
  }

  lemma {:induction false} GatherNotShorter(hists: seq<seq<int16>>, mode: Mode, target: nat)
    ensures |Gathered(hists, mode, target)| >= |SinglePass(hists, mode, target)|
    ensures |Gathered(hists, mode, target)| == |SinglePass(hists, mode, target)| ==>
      forall ch :: 0 <= ch < |hists| ==> hists[ch] == [] || target >= LeastTarget(mode) || target == 0
  {
    if hists != [] {
      var m := |hists| - 1;
      hide GatherPart, SinglePart, WorkerResult;
      GatherNotShorter(hists[..m], mode, target);
      PartsAgree(hists[m], mode, target);
      assert forall ch :: 0 <= ch < m ==> hists[..m][ch] == hists[ch];
    }
  }

  /**
   * The gathered buffer equals the single-threaded one exactly when the target is zero, or large
   * enough for the mode, or no channel has any history.
   */
  lemma {:induction false} GatherEqualsSinglePass(hists: seq<seq<int16>>, mode: Mode, target: nat)
    ensures Gathered(hists, mode, target) == SinglePass(hists, mode, target) <==>
            target == 0 || target >= LeastTarget(mode) || forall ch :: 0 <= ch < |hists| ==> hists[ch] == []
  {
    GatherNotShorter(hists, mode, target);
    if target == 0 || target >= LeastTarget(mode) || forall ch :: 0 <= ch < |hists| ==> hists[ch] == [] {
      EqualWhenAgreeing(hists, mode, target);
    }
  }

  lemma {:induction false} EqualWhenAgreeing(hists: seq<seq<int16>>, mode: Mode, target: nat)
    requires target == 0 || target >= LeastTarget(mode) || forall ch :: 0 <= ch < |hists| ==> hists[ch] == []
    ensures Gathered(hists, mode, target) == SinglePass(hists, mode, target)
  {
    if hists != [] {
      hide GatherPart, SinglePart, WorkerResult;
      EqualWhenAgreeing(hists[..|hists| - 1], mode, target);
      PartsAgree(hists[|hists| - 1], mode, target);
    }
  }

  // ---- The buffers by channel ----

  /** What one channel contributes: `target` zeros, or its decimated history. */
  ghost predicate IsPart(part: seq<int16>, hist: seq<int16>, mode: Mode, target: nat, zeros: bool)
  {
    if zeros then |part| == target && forall i :: 0 <= i < target ==> part[i] == 0
    else part == Decimated(hist, mode, target)
  }

  lemma SinglePartIs(hist: seq<int16>, mode: Mode, target: nat)
    ensures IsPart(SinglePart(hist, mode, target), hist, mode, target, hist == [])
  {
    hide Decimated;
  }

  lemma GatherPartIs(hist: seq<int16>, mode: Mode, target: nat)
    ensures IsPart(GatherPart(WorkerResult(hist, mode, target), target), hist, mode, target,
                   hist == [] || target < LeastTarget(mode))
  {
    DecimatedEmptyIff(hist, mode, target);
    hide Decimated;
  }

  /** The single-threaded buffer: each channel's decimated history, and zeros for one that has none. */
  lemma {:induction false} SinglePassByChannel(hists: seq<seq<int16>>, mode: Mode, target: nat)
    returns (parts: seq<seq<int16>>)
    ensures |parts| == |hists| && SinglePass(hists, mode, target) == Concat(parts)
    ensures forall ch :: 0 <= ch < |hists| ==> IsPart(parts[ch], hists[ch], mode, target, hists[ch] == [])
  {
    parts := [];
    hide IsPart, Concat;
    if hists != [] {
      var m := |hists| - 1;
      var last := SinglePart(hists[m], mode, target);
      SinglePartIs(hists[m], mode, target);
      hide SinglePart;
      var before := SinglePassByChannel(hists[..m], mode, target);
      parts := before + [last];
      ConcatAppend(before, last);
    } else {
      NoParts();
    }
  }

  lemma ConcatAppend(parts: seq<seq<int16>>, last: seq<int16>)
    ensures Concat(parts + [last]) == Concat(parts) + last
  {
    assert (parts + [last])[..|parts|] == parts;
  }

  /** The gathered buffer: the same, but zeros also where a target too small for the mode kept nothing. */
  lemma {:induction false} GatheredByChannel(hists: seq<seq<int16>>, mode: Mode, target: nat)
    returns (parts: seq<seq<int16>>)
    ensures |parts| == |hists| && Gathered(hists, mode, target) == Concat(parts)
    ensures forall ch :: 0 <= ch < |hists| ==>
      IsPart(parts[ch], hists[ch], mode, target, hists[ch] == [] || target < LeastTarget(mode))
  {
    parts := [];
    hide IsPart, LeastTarget, Concat;
    if hists != [] {
      var m := |hists| - 1;
      var last := GatherPart(WorkerResult(hists[m], mode, target), target);
      GatherPartIs(hists[m], mode, target);
      hide GatherPart, WorkerResult;
      var before := GatheredByChannel(hists[..m], mode, target);
      parts := before + [last];
      ConcatAppend(before, last);
    } else {
      NoParts();
    }
  }

  lemma NoParts()
    ensures Concat([]) == []
  {
  }
}
