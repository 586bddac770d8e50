/** The conversion engine: the scalar base-60 decomposition and the six
    conversions among decimal degrees (DD), degrees/minutes/seconds (DMS) and
    degrees/decimal minutes (DDM), over exact reals. */
module Conversions {
  import opened Numerals
  import opened Positions

  /** The angle that whole degrees, whole minutes and decimal seconds denote. */
  function DmsMagnitude(d: int32, m: int32, s: real): real {
    d as real + m as real / 60.0 + s / 3600.0
  }

  /** The angle that whole degrees and decimal minutes denote. */
  function DdmMagnitude(d: int32, m: real): real {
    d as real + m / 60.0
  }

  /** Degrees non-negative, minutes in [0, 60), seconds in [0, 60). */
  predicate IsDmsTriple(d: int32, m: int32, s: real) {
    0 <= d && 0 <= m < 60 && 0.0 <= s < 60.0
  }

  /** Degrees non-negative, decimal minutes in [0, 60). */
  predicate IsDdmPair(d: int32, m: real) {
    0 <= d && 0.0 <= m < 60.0
  }

  /** The hemisphere rule shared by `dms_to_dd` and `ddm_to_dd`: the magnitude
      is negated exactly when the letter is the negative one. */
  function Signed(magnitude: real, dir: char, negative: char): (r: real)
    ensures dir == negative ==> r == -magnitude
    ensures dir != negative ==> r == magnitude
  {
    if dir == negative then -magnitude else magnitude
  }

  // ------------------------------------------------------------ scalars

  /** `detail::dd_to_dms(double)`: the integral part of `|dd|` is the degree;
      its fractional part times 60 is a decimal minute whose integral part is the
      minute and whose fractional part times 60 is the second. */
  function ScalarDdToDms(dd: real): (r: (int32, int32, real))
    requires CastsToInt32(Abs(dd))
    ensures IsDmsTriple(r.0, r.1, r.2)
    ensures DmsMagnitude(r.0, r.1, r.2) == Abs(dd)
  {
    var a := Abs(dd);
    var d := Trunc(a) as real;
    var dm := (a - d) * 60.0;
    var m := Trunc(dm) as real;
    var s := (dm - m) * 60.0;
    (CastToInt32(d), CastToInt32(m), s)
  }

  /** `detail::dd_to_ddm(double)`: the degree of `dd_to_dms` and the decimal
      minute `m + s / 60`, which is the fraction of `|dd|` times 60. */
  function ScalarDdToDdm(dd: real): (r: (int32, real))
    requires CastsToInt32(Abs(dd))
    ensures r.0 == ScalarDdToDms(dd).0
    ensures IsDdmPair(r.0, r.1)
    ensures r.1 == (Abs(dd) - r.0 as real) * 60.0
  {
    var (d, m, s) := ScalarDdToDms(dd);
    (d, m as real + s / 60.0)
  }

  /** The decomposition is the only triple within the bounds that denotes `|dd|`. */
  lemma ScalarDmsUnique(dd: real, d: int32, m: int32, s: real)
    requires CastsToInt32(Abs(dd))
    requires IsDmsTriple(d, m, s) && DmsMagnitude(d, m, s) == Abs(dd)
    ensures ScalarDdToDms(dd) == (d, m, s)
  {
    var r := ScalarDdToDms(dd);
    var a := Abs(dd);
    // both whole-degree values are the integral part of a
    assert m as real / 60.0 + s / 3600.0 < 1.0;
    assert r.1 as real / 60.0 + r.2 / 3600.0 < 1.0;
    assert d as real <= a < d as real + 1.0;
    assert r.0 as real <= a < r.0 as real + 1.0;
    assert r.0 == d;
    // then both minute values are the integral part of the remaining fraction times 60
    assert m as real + s / 60.0 == (a - d as real) * 60.0;
    assert r.1 as real + r.2 / 60.0 == (a - d as real) * 60.0;
    assert r.1 == m;
  }

  // ------------------------------------------------- to DMS / DDM from DD

  /** `detail::dd_to_dms(position_dd)`. */
  function DdToDms(p: Dd): (r: Dms)
    requires CastsToInt32(Abs(p.lat)) && CastsToInt32(Abs(p.lon))
    ensures (r.latDir == 'N' <==> p.lat > 0.0) && (r.latDir == 'N' || r.latDir == 'S')
    ensures (r.lonDir == 'E' <==> p.lon > 0.0) && (r.lonDir == 'E' || r.lonDir == 'W')
    ensures IsDmsTriple(r.latD, r.latM, r.latS) && DmsMagnitude(r.latD, r.latM, r.latS) == Abs(p.lat)
    ensures IsDmsTriple(r.lonD, r.lonM, r.lonS) && DmsMagnitude(r.lonD, r.lonM, r.lonS) == Abs(p.lon)
  {
    var (latD, latM, latS) := ScalarDdToDms(p.lat);
    var (lonD, lonM, lonS) := ScalarDdToDms(p.lon);
    Dms(if p.lat > 0.0 then 'N' else 'S', latD, latM, latS,
        if p.lon > 0.0 then 'E' else 'W', lonD, lonM, lonS)
  }

  /** `detail::dd_to_ddm(position_dd)`. */
  function DdToDdm(p: Dd): (r: Ddm)
    requires CastsToInt32(Abs(p.lat)) && CastsToInt32(Abs(p.lon))
    ensures (r.latDir == 'N' <==> p.lat > 0.0) && (r.latDir == 'N' || r.latDir == 'S')
    ensures (r.lonDir == 'E' <==> p.lon > 0.0) && (r.lonDir == 'E' || r.lonDir == 'W')
    ensures IsDdmPair(r.latD, r.latM) && DdmMagnitude(r.latD, r.latM) == Abs(p.lat)
    ensures IsDdmPair(r.lonD, r.lonM) && DdmMagnitude(r.lonD, r.lonM) == Abs(p.lon)
  {
    var (latD, latM) := ScalarDdToDdm(p.lat);
    var (lonD, lonM) := ScalarDdToDdm(p.lon);
    Ddm(if p.lat > 0.0 then 'N' else 'S', latD, latM,
        if p.lon > 0.0 then 'E' else 'W', lonD, lonM)
  }

  // ----------------------------------------------------------- to DD

  /** `detail::dms_to_dd`: no letter but 'S' (latitude) or 'W' (longitude),
      the unset letter '\0' included, makes the value negative. */
  function DmsToDd(p: Dms): (r: Dd)
    ensures p.latDir == 'S' ==> r.lat == -DmsMagnitude(p.latD, p.latM, p.latS)
    ensures p.latDir != 'S' ==> r.lat == DmsMagnitude(p.latD, p.latM, p.latS)
    ensures p.lonDir == 'W' ==> r.lon == -DmsMagnitude(p.lonD, p.lonM, p.lonS)
    ensures p.lonDir != 'W' ==> r.lon == DmsMagnitude(p.lonD, p.lonM, p.lonS)
  {
    Dd(Signed(DmsMagnitude(p.latD, p.latM, p.latS), p.latDir, 'S'),
       Signed(DmsMagnitude(p.lonD, p.lonM, p.lonS), p.lonDir, 'W'))
  }

  /** `detail::ddm_to_dd`, with the same hemisphere rule. */
  function DdmToDd(p: Ddm): (r: Dd)
    ensures p.latDir == 'S' ==> r.lat == -DdmMagnitude(p.latD, p.latM)
    ensures p.latDir != 'S' ==> r.lat == DdmMagnitude(p.latD, p.latM)
    ensures p.lonDir == 'W' ==> r.lon == -DdmMagnitude(p.lonD, p.lonM)
    ensures p.lonDir != 'W' ==> r.lon == DdmMagnitude(p.lonD, p.lonM)
  {
    Dd(Signed(DdmMagnitude(p.latD, p.latM), p.latDir, 'S'),
       Signed(DdmMagnitude(p.lonD, p.lonM), p.lonDir, 'W'))
  }

  // ------------------------------------------------- between DMS and DDM

  /** `detail::dms_to_ddm`: letters and degrees pass through; minute and second
      merge into one decimal minute denoting the same angle. */
  function DmsToDdm(p: Dms): (r: Ddm)
    ensures r.latDir == p.latDir && r.latD == p.latD && r.lonDir == p.lonDir && r.lonD == p.lonD
    ensures DdmMagnitude(r.latD, r.latM) == DmsMagnitude(p.latD, p.latM, p.latS)
    ensures DdmMagnitude(r.lonD, r.lonM) == DmsMagnitude(p.lonD, p.lonM, p.lonS)
    ensures IsDmsTriple(p.latD, p.latM, p.latS) ==> IsDdmPair(r.latD, r.latM)
    ensures IsDmsTriple(p.lonD, p.lonM, p.lonS) ==> IsDdmPair(r.lonD, r.lonM)
  {
    Ddm(p.latDir, p.latD, p.latM as real + p.latS / 60.0,
        p.lonDir, p.lonD, p.lonM as real + p.lonS / 60.0)
  }

  /** `detail::ddm_to_dms`: letters and degrees pass through; the minute is the
      decimal minute truncated toward zero and the second is the remainder times
      60, so a negative decimal minute gives a non-positive second. */
  function DdmToDms(p: Ddm): (r: Dms)
    requires CastsToInt32(p.latM) && CastsToInt32(p.lonM)
    ensures r.latDir == p.latDir && r.latD == p.latD && r.lonDir == p.lonDir && r.lonD == p.lonD
    ensures DmsMagnitude(r.latD, r.latM, r.latS) == DdmMagnitude(p.latD, p.latM)
    ensures DmsMagnitude(r.lonD, r.lonM, r.lonS) == DdmMagnitude(p.lonD, p.lonM)
    ensures 0.0 <= p.latM ==> 0 <= r.latM && 0.0 <= r.latS < 60.0
    ensures p.latM < 0.0 ==> r.latM <= 0 && -60.0 < r.latS <= 0.0
    ensures 0.0 <= p.lonM ==> 0 <= r.lonM && 0.0 <= r.lonS < 60.0
    ensures p.lonM < 0.0 ==> r.lonM <= 0 && -60.0 < r.lonS <= 0.0
  {
    var latM := CastToInt32(p.latM);
    var lonM := CastToInt32(p.lonM);
    Dms(p.latDir, p.latD, latM, (p.latM - latM as real) * 60.0,
        p.lonDir, p.lonD, lonM, (p.lonM - lonM as real) * 60.0)
  }

  // ------------------------------------------------------------ round trips

  /** 0.0 is classified into the southern and western hemispheres. */
  lemma ZeroIsSouthWest()
    ensures DdToDms(Dd(0.0, 0.0)) == Dms('S', 0, 0, 0.0, 'W', 0, 0, 0.0)
    ensures DdToDdm(Dd(0.0, 0.0)) == Ddm('S', 0, 0.0, 'W', 0, 0.0)
  {
    ScalarDmsUnique(0.0, 0, 0, 0.0);
  }

  /** DD -> DMS -> DD is the identity over exact reals, zero included. */
  lemma DdDmsRoundTrip(p: Dd)
    requires CastsToInt32(Abs(p.lat)) && CastsToInt32(Abs(p.lon))
    ensures DmsToDd(DdToDms(p)) == p
  {
  }

  /** DD -> DDM -> DD is the identity over exact reals, zero included. */
  lemma DdDdmRoundTrip(p: Dd)
    requires CastsToInt32(Abs(p.lat)) && CastsToInt32(Abs(p.lon))
    ensures DdmToDd(DdToDdm(p)) == p
  {
  }

  /** DMS -> DDM -> DMS gives back a value whose minutes and seconds are within
      their bounds. */
  lemma DmsDdmRoundTrip(x: Dms)
    requires 0 <= x.latM && 0.0 <= x.latS < 60.0
    requires 0 <= x.lonM && 0.0 <= x.lonS < 60.0
    ensures CastsToInt32(DmsToDdm(x).latM) && CastsToInt32(DmsToDdm(x).lonM)
    ensures DdmToDms(DmsToDdm(x)) == x
  {
    var y := DmsToDdm(x);
    assert Trunc(y.latM) == x.latM as int;
    assert Trunc(y.lonM) == x.lonM as int;
  }

  /** A negative minute with a positive second does not come back: the decimal
      minute -1.5 truncates to -1 and leaves a second of -30, the same angle in
      other fields. */
  lemma NegativeMinuteChangesFields()
    ensures var x := Dms('N', 1, -2, 30.0, 'E', 0, 0, 0.0);
      CastsToInt32(DmsToDdm(x).latM) && CastsToInt32(DmsToDdm(x).lonM) &&
      DdmToDms(DmsToDdm(x)) == Dms('N', 1, -1, -30.0, 'E', 0, 0, 0.0) != x
  {
    assert DmsToDdm(Dms('N', 1, -2, 30.0, 'E', 0, 0, 0.0)).latM == -1.5;
  }

  /** DDM -> DMS -> DDM is the identity for every decimal minute `(int)` can
      truncate. */
  lemma DdmDmsRoundTrip(y: Ddm)
    requires CastsToInt32(y.latM) && CastsToInt32(y.lonM)
    ensures DmsToDdm(DdmToDms(y)) == y
  {
  }

  /** Over exact reals the triangle of conversions commutes: going through the
      third representation agrees with the direct edge. */
  lemma ConversionsCommute(p: Dd)
    requires CastsToInt32(Abs(p.lat)) && CastsToInt32(Abs(p.lon))
    ensures DmsToDdm(DdToDms(p)) == DdToDdm(p)
    ensures CastsToInt32(DdToDdm(p).latM) && CastsToInt32(DdToDdm(p).lonM)
    ensures DdmToDms(DdToDdm(p)) == DdToDms(p)
  {
    var x := DdToDms(p);
    DmsDdmRoundTrip(x);
  }

  lemma DdFromDmsAgrees(x: Dms)
    ensures DdmToDd(DmsToDdm(x)) == DmsToDd(x)
  {
  }

  /** The DMS values that `dd_to_dms` produces: letters N/S and E/W, fields
      within bounds, and a zero magnitude only with S or W. */
  predicate IsCanonicalDms(x: Dms) {
    (x.latDir == 'N' || x.latDir == 'S') && (x.lonDir == 'E' || x.lonDir == 'W') &&
    IsDmsTriple(x.latD, x.latM, x.latS) && IsDmsTriple(x.lonD, x.lonM, x.lonS) &&
    (x.latDir == 'N' ==> DmsMagnitude(x.latD, x.latM, x.latS) > 0.0) &&
    (x.lonDir == 'E' ==> DmsMagnitude(x.lonD, x.lonM, x.lonS) > 0.0)
  }

  /** The DDM values that `dd_to_ddm` produces. */
  predicate IsCanonicalDdm(y: Ddm) {
    (y.latDir == 'N' || y.latDir == 'S') && (y.lonDir == 'E' || y.lonDir == 'W') &&
    IsDdmPair(y.latD, y.latM) && IsDdmPair(y.lonD, y.lonM) &&
    (y.latDir == 'N' ==> DdmMagnitude(y.latD, y.latM) > 0.0) &&
    (y.lonDir == 'E' ==> DdmMagnitude(y.lonD, y.lonM) > 0.0)
  }

  lemma DdToDmsIsCanonical(p: Dd)
    requires CastsToInt32(Abs(p.lat)) && CastsToInt32(Abs(p.lon))
    ensures IsCanonicalDms(DdToDms(p))
  {
  }

  lemma DdToDdmIsCanonical(p: Dd)
    requires CastsToInt32(Abs(p.lat)) && CastsToInt32(Abs(p.lon))
    ensures IsCanonicalDdm(DdToDdm(p))
  {
  }

  lemma CastsMagnitude(d: int32, rest: real)
    requires 0 <= d && 0.0 <= rest < 1.0
    ensures CastsToInt32(d as real + rest) && Abs(d as real + rest) == d as real + rest
  {
    assert Trunc(d as real + rest) == d as int;
  }

  /** Every canonical DMS value is what `dd_to_dms` makes of its own DD reading:
      with DdToDmsIsCanonical, the canonical values are exactly the image of
      `dd_to_dms`. */
  lemma CanonicalDmsRoundTrip(x: Dms)
    requires IsCanonicalDms(x)
    ensures CastsToInt32(Abs(DmsToDd(x).lat)) && CastsToInt32(Abs(DmsToDd(x).lon))
    ensures DdToDms(DmsToDd(x)) == x
  {
    var p := DmsToDd(x);
    CastsMagnitude(x.latD, x.latM as real / 60.0 + x.latS / 3600.0);
    CastsMagnitude(x.lonD, x.lonM as real / 60.0 + x.lonS / 3600.0);
    assert Abs(p.lat) == DmsMagnitude(x.latD, x.latM, x.latS);
    assert Abs(p.lon) == DmsMagnitude(x.lonD, x.lonM, x.lonS);
    ScalarDmsUnique(p.lat, x.latD, x.latM, x.latS);
    ScalarDmsUnique(p.lon, x.lonD, x.lonM, x.lonS);
  }

  /** Every canonical DDM value is what `dd_to_ddm` makes of its own DD reading. */
  lemma CanonicalDdmRoundTrip(y: Ddm)
    requires IsCanonicalDdm(y)
    ensures CastsToInt32(Abs(DdmToDd(y).lat)) && CastsToInt32(Abs(DdmToDd(y).lon))
    ensures DdToDdm(DdmToDd(y)) == y
  {
    var p := DdmToDd(y);
    CastsMagnitude(y.latD, y.latM / 60.0);
    CastsMagnitude(y.lonD, y.lonM / 60.0);
    assert Abs(p.lat) == DdmMagnitude(y.latD, y.latM);
    assert Abs(p.lon) == DdmMagnitude(y.lonD, y.lonM);
    var r := DdToDdm(p);
    assert r.latD as real <= Abs(p.lat) < r.latD as real + 1.0;
    assert r.latD == y.latD;
    assert r.lonD as real <= Abs(p.lon) < r.lonD as real + 1.0;
    assert r.lonD == y.lonD;
  }
}
