/** The subsequence order on runs of frames. */
module Subsequence {
  import opened Frames

  /** xs can be got from ys by leaving frames out. */
  predicate Subseq(xs: seq<Frame>, ys: seq<Frame>)
  {
    if xs == [] then true
    else if ys == [] then false
    else
      var x, y := |xs| - 1, |ys| - 1;
      (xs[x] == ys[y] && Subseq(xs[..x], ys[..y])) || Subseq(xs, ys[..y])
  }

  lemma {:induction false} Skip(xs: seq<Frame>, ys: seq<Frame>, y: Frame)
    requires Subseq(xs, ys)
    ensures Subseq(xs, ys + [y])
  {
    assert (ys + [y])[..|ys|] == ys;
  }

  lemma {:induction false} Both(xs: seq<Frame>, ys: seq<Frame>, z: Frame)
    requires Subseq(xs, ys)
    ensures Subseq(xs + [z], ys + [z])
  {
    assert (ys + [z])[..|ys|] == ys;
    assert (xs + [z])[..|xs|] == xs;
  }

  lemma {:induction false} DropLast(xs: seq<Frame>, ys: seq<Frame>)
    requires xs != [] && Subseq(xs, ys)
    ensures Subseq(xs[..|xs| - 1], ys)
  {
    var y := |ys| - 1;
    assert ys == ys[..y] + [ys[y]];
    if xs[|xs| - 1] == ys[y] && Subseq(xs[..|xs| - 1], ys[..y]) {
      Skip(xs[..|xs| - 1], ys[..y], ys[y]);
    } else {
      DropLast(xs, ys[..y]);
      Skip(xs[..|xs| - 1], ys[..y], ys[y]);
    }
  }

  lemma {:induction false} Refl(xs: seq<Frame>)
    ensures Subseq(xs, xs)
  {
    if xs != [] {
      Refl(xs[..|xs| - 1]);
    }
  }

  lemma {:induction false} Trans(xs: seq<Frame>, ys: seq<Frame>, zs: seq<Frame>)
    requires Subseq(xs, ys) && Subseq(ys, zs)
    ensures Subseq(xs, zs)
    decreases |zs|
  {
    if xs != [] {
      var x, y, z := |xs| - 1, |ys| - 1, |zs| - 1;
      if Subseq(ys, zs[..z]) {
        Trans(xs, ys, zs[..z]);
      } else if Subseq(xs, ys[..y]) {
        Trans(xs, ys[..y], zs[..z]);
      } else {
        Trans(xs[..x], ys[..y], zs[..z]);
      }
    }
  }

  lemma {:induction false} AppendBoth(xs: seq<Frame>, ys: seq<Frame>, us: seq<Frame>)
    requires Subseq(xs, ys)
    ensures Subseq(xs + us, ys + us)
  {
    hide Subseq;
    if us == [] {
      assert xs + us == xs && ys + us == ys;
    } else {
      var u := |us| - 1;
      AppendBoth(xs, ys, us[..u]);
      Both(xs + us[..u], ys + us[..u], us[u]);
      assert xs + us == (xs + us[..u]) + [us[u]] && ys + us == (ys + us[..u]) + [us[u]];
    }
  }

  lemma {:induction false} Prefix(xs: seq<Frame>, us: seq<Frame>)
    ensures Subseq(xs, xs + us)
  {
    if us == [] {
      Refl(xs);
      assert xs + us == xs;
    } else {
      var u := |us| - 1;
      Prefix(xs, us[..u]);
      Skip(xs, xs + us[..u], us[u]);
      assert xs + us == (xs + us[..u]) + [us[u]];
    }
  }

  /** Leaving one frame out of the middle. */
  lemma RemoveOne(a: seq<Frame>, x: Frame, b: seq<Frame>)
    ensures Subseq(a + b, a + [x] + b)
  {
    Refl(a);
    Skip(a, a, x);
    AppendBoth(a, a + [x], b);
  }

  /** The places in ys, in rising order, where the frames of xs stand. */
  ghost predicate StandsAt(xs: seq<Frame>, ys: seq<Frame>, at: seq<nat>)
  {
    && |at| == |xs|
    && (forall k :: 0 <= k < |at| ==> at[k] < |ys| && ys[at[k]] == xs[k])
    && forall j, k :: 0 <= j < k < |at| ==> at[j] < at[k]
  }

  lemma {:induction false} PlacesOf(xs: seq<Frame>, ys: seq<Frame>) returns (at: seq<nat>)
    requires Subseq(xs, ys)
    ensures StandsAt(xs, ys, at)
  {
    at := [];
    if xs != [] {
      var x, y := |xs| - 1, |ys| - 1;
      if xs[x] == ys[y] && Subseq(xs[..x], ys[..y]) {
        var before := PlacesOf(xs[..x], ys[..y]);
        at := before + [y];
      } else {
        at := PlacesOf(xs, ys[..y]);
      }
    }
  }

  lemma {:induction false} FromPlaces(xs: seq<Frame>, ys: seq<Frame>, at: seq<nat>)
    requires StandsAt(xs, ys, at)
    ensures Subseq(xs, ys)
    decreases |ys|
  {
    if xs != [] {
      var x, y := |xs| - 1, |ys| - 1;
      if at[x] == y {
        FromPlaces(xs[..x], ys[..y], at[..x]);
      } else {
        assert forall k :: 0 <= k < |at| ==> at[k] <= at[x];
        FromPlaces(xs, ys[..y], at);
      }
    }
  }

  /** The order is the usual one: a subsequence stands in ys at rising places. */
  lemma SubseqIff(xs: seq<Frame>, ys: seq<Frame>)
    ensures Subseq(xs, ys) <==> exists at :: StandsAt(xs, ys, at)
  {
    hide Subseq, StandsAt;
    if Subseq(xs, ys) {
      var at := PlacesOf(xs, ys);
    }
    forall at | StandsAt(xs, ys, at)
      ensures Subseq(xs, ys)
    {
      FromPlaces(xs, ys, at);
    }
  }
}
