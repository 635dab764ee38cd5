/** The zodiac mapper: a longitude, reduced modulo 360, is looked up in the
    table of twelve 30-degree bands. */
module Zodiac {

  import opened Wrappers
  import opened Config
  import opened Angles

  /** The table scan of the source from entry `i` on: the first entry whose
      band start exceeds the longitude names the sign before it, and a scan
      that finds none returns the last sign. A missing longitude (NaN in the
      source) compares below no start, so its scan runs to the end. */
  function ScanFrom(d: Option<real>, i: nat): Sign
    requires i <= |Signs|
    decreases |Signs| - i
  {
    if i == |Signs| then Signs[|Signs| - 1]
    else if d.Some? && d.value < BandStart(i) then (if i > 0 then Signs[i - 1] else Signs[0])
    else ScanFrom(d, i + 1)
  }

  /** The sign label of a longitude sample. */
  function GetZodiac(degree: Option<real>): Sign
  {
    var d := match degree case None => None case Some(x) => Some(Mod360(x));
    ScanFrom(d, 0)
  }

  /** Index of the band that contains `x` once reduced modulo 360. */
  function BandIndex(x: real): (k: nat)
    ensures k < |Signs|
    ensures BandStart(k) <= Mod360(x) < BandStart(k) + 30.0
  {
    Mod360Range(x);
    (Mod360(x) / 30.0).Floor
  }

  lemma {:induction false} ScanBand(d: real, i: nat)
    requires 0.0 <= d < 360.0 && i <= |Signs|
    requires i == 0 || BandStart(i - 1) <= d
    ensures ScanFrom(Some(d), i) == Signs[(d / 30.0).Floor]
    decreases |Signs| - i
  {
    if i == |Signs| {
      assert (d / 30.0).Floor == 11;
    } else if d < BandStart(i) {
      assert i > 0;
      assert (d / 30.0).Floor == i - 1;
    } else {
      ScanBand(d, i + 1);
    }
  }

  /** The table scan picks the sign at index floor((x mod 360) / 30): each
      band start belongs to the upper sign and [330, 360) reaches the last
      sign through the fall-through. */
  lemma GetZodiacIsBand(x: real)
    ensures GetZodiac(Some(x)) == Signs[BandIndex(x)]
  {
    Mod360Range(x);
    ScanBand(Mod360(x), 0);
  }

  /** A missing sample is labelled with the last sign, "Fische". */
  lemma MissingSampleIsPisces()
    ensures GetZodiac(None) == Pisces
  {
    assert ScanFrom(None, 0) == ScanFrom(None, 12);
  }

  /** The sign of a longitude repeats every full turn. */
  lemma GetZodiacPeriodic(x: real, k: int)
    ensures GetZodiac(Some(x + 360.0 * k as real)) == GetZodiac(Some(x))
  {
    Mod360Turns(x, k);
  }

  /** The start of each band is labelled with the upper sign. */
  lemma BandStartBelongsUp(i: nat)
    requires i < |Signs|
    ensures GetZodiac(Some(BandStart(i))) == Signs[i]
  {
    var x := BandStart(i);
    assert (x / 360.0).Floor == 0;
    assert Mod360(x) == x;
    assert (x / 30.0).Floor == i;
    GetZodiacIsBand(x);
  }

  /** Sample values: 0 and 29.9 are "Widder", 30 is "Stier", 359.99 and
      -0.01 are "Fische". */
  lemma SampleLabels()
    ensures GetZodiac(Some(0.0)) == Aries
    ensures GetZodiac(Some(29.9)) == Aries
    ensures GetZodiac(Some(30.0)) == Taurus
    ensures GetZodiac(Some(359.99)) == Pisces
    ensures GetZodiac(Some(-0.01)) == Pisces
  {
    GetZodiacIsBand(0.0);
    GetZodiacIsBand(29.9);
    GetZodiacIsBand(30.0);
    GetZodiacIsBand(359.99);
    GetZodiacIsBand(-0.01);
  }
}
