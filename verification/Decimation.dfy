/** Decimator::decimate: the three modes, and what they have in common. */
module Decimation {
  import opened Samples
  import Decimator
  import SimdMinMax
  import Lttb

  datatype Mode = None | MinMax | LTTB

  /** The value of decimation in each mode. */
  ghost function Decimated(input: seq<int16>, mode: Mode, target: nat): seq<int16>
  {
    match mode
    case MinMax => Decimator.MinMax(input, target)
    case LTTB => Lttb.Value(input, target)
    case None => input
  }

  method Decimate(input: seq<int16>, mode: Mode, target: nat) returns (output: seq<int16>)
    ensures output == Decimated(input, mode, target)
  {
    match mode
    case MinMax => output := SimdMinMax.MinMaxSimd(input, target);
    case LTTB =>
      hide Lttb.IsLttb;
      output := Lttb.Decimate(input, target);
      Lttb.LttbUnique(input, target, output, Lttb.Value(input, target));
    case None => output := input;
  }

  /** The least target for which a mode keeps anything of a non-empty input. */
  function LeastTarget(mode: Mode): nat
  {
    match mode
    case None => 0
    case MinMax => 2
    case LTTB => 3
  }

  lemma DecimatedEmptyIff(input: seq<int16>, mode: Mode, target: nat)
    ensures Decimated(input, mode, target) == [] <==> input == [] || target < LeastTarget(mode)
  {
    match mode
    case None =>
    case MinMax =>
      hide Decimator.MinMax;
      Decimator.MinMaxLength(input, target);
    case LTTB => LttbEmptyIff(input, target);
  }

  lemma LttbEmptyIff(input: seq<int16>, target: nat)
    ensures Lttb.Value(input, target) == [] <==> input == [] || target < 3
  {
    if 3 <= target < |input| {
      var out := Lttb.Value(input, target);
      hide Lttb.IsLttb;
      var indices := Lttb.LttbShape(input, target, out);
    }
  }

  /** The output length depends on the input length, the mode and the target, not on the samples. */
  function DecimatedLength(n: nat, mode: Mode, target: nat): nat
  {
    match mode
    case None => n
    case MinMax => if target < 2 then 0 else if n <= target then n else target - target % 2
    case LTTB => if target < 3 then 0 else if n <= target then n else target
  }

  lemma LengthIsDecided(input: seq<int16>, mode: Mode, target: nat)
    ensures |Decimated(input, mode, target)| == DecimatedLength(|input|, mode, target)
  {
    match mode
    case None =>
    case MinMax =>
      hide Decimator.MinMax;
      Decimator.MinMaxLength(input, target);
    case LTTB =>
      if 3 <= target < |input| {
        hide Lttb.IsLttb;
        var indices := Lttb.LttbShape(input, target, Lttb.Value(input, target));
      }
  }

  /** The guard that replaces LTTB by MinMax from 100 million samples per second on. */
  function EffectiveMode(mode: Mode, sampleRate: real): Mode
  {
    if mode == LTTB && sampleRate >= 100000000.0 then MinMax else mode
  }
}
