/** 16-bit samples, and the smallest and largest value in a run of them. */
module Samples {

  const INT16_MIN := -32768
  const INT16_MAX := 32767

  type int16 = x: int | INT16_MIN <= x <= INT16_MAX

  datatype Extent = Extent(lo: int16, hi: int16)

  ghost predicate IsExtent(e: Extent, s: seq<int16>)
  {
    e.lo in s && e.hi in s && forall i :: 0 <= i < |s| ==> e.lo <= s[i] <= e.hi
  }

  function Join(a: Extent, b: Extent): Extent
  {
    Extent(if a.lo <= b.lo then a.lo else b.lo, if a.hi >= b.hi then a.hi else b.hi)
  }

  function ExtentOf(s: seq<int16>): (e: Extent)
    requires s != []
    ensures IsExtent(e, s)
  {
    var last := s[|s| - 1];
    if |s| == 1 then Extent(last, last)
    else
      var rest := s[..|s| - 1];
      assert forall i :: 0 <= i < |rest| ==> rest[i] == s[i];
      Join(ExtentOf(rest), Extent(last, last))
  }

  lemma ExtentUnique(e: Extent, s: seq<int16>)
    requires s != [] && IsExtent(e, s)
    ensures e == ExtentOf(s)
  {
    var f := ExtentOf(s);
    var i :| 0 <= i < |s| && s[i] == e.lo;
    var j :| 0 <= j < |s| && s[j] == e.hi;
    var i' :| 0 <= i' < |s| && s[i'] == f.lo;
    var j' :| 0 <= j' < |s| && s[j'] == f.hi;
  }

  /** Two runs holding the same values have the same extent. */
  lemma SameValuesSameExtent(s: seq<int16>, t: seq<int16>)
    requires s != [] && t != []
    requires forall x :: x in s <==> x in t
    ensures ExtentOf(s) == ExtentOf(t)
  {
    assert forall i :: 0 <= i < |t| ==> t[i] in s;
    ExtentUnique(ExtentOf(s), t);
  }

  lemma ExtentConcat(s: seq<int16>, t: seq<int16>)
    requires s != [] && t != []
    ensures ExtentOf(s + t) == Join(ExtentOf(s), ExtentOf(t))
  {
    var e := Join(ExtentOf(s), ExtentOf(t));
    assert forall x :: x in s || x in t ==> x in s + t;
    ExtentUnique(e, s + t);
  }
}
