/** The string renderer `format`: a pair of display strings for a coordinate in
    any of the three representations under a `position_format`. */
module Render {
  import opened Numerals
  import opened Positions
  import opened NumberFormat

  /** The trailing spacer and hemisphere letter, present only when the
      configuration displays the direction. */
  function DirectionSuffix(f: PositionFormat, dir: char): string {
    if f.dirIndicator then f.dirIndicatorSpacer + [dir] else ""
  }

  /** The precisions 0 fields need a value that `(int)` can truncate. */
  predicate Renderable(p: Position, f: PositionFormat) {
    match p
    case DD(dd) =>
      (f.latPrecision == 0 ==> CastsToInt32(dd.lat)) && (f.lonPrecision == 0 ==> CastsToInt32(dd.lon))
    case DDM(x) => f.minPrecision == 0 ==> CastsToInt32(x.latM) && CastsToInt32(x.lonM)
    case DMS(x) => f.secPrecision == 0 ==> CastsToInt32(x.latS) && CastsToInt32(x.lonS)
  }

  /** One DD axis: the number at its precision, then the degree symbol. */
  function DdText(value: real, precision: int32, f: PositionFormat): string
    requires precision == 0 ==> CastsToInt32(value)
  {
    FormatNumberToString(value, precision) + f.degSymbol
  }

  /** The part of a DDM or DMS axis before the minute: the whole degrees as
      plain integer text, the degree symbol and the degree/minute separator. */
  function DegreeText(d: int32, f: PositionFormat): string {
    IntToString(d as int) + f.degSymbol + f.dmSeparator
  }

  /** The layout of a DDM axis from its parts: degree text, minute text, the
      minute symbol, then the direction suffix. */
  function DdmLayout(degree: string, minute: string, dir: char, f: PositionFormat): string {
    degree + minute + f.minSymbol + DirectionSuffix(f, dir)
  }

  /** The layout of a DMS axis from its parts: degree text, minute text, the
      minute symbol, second text, the second symbol, then the direction suffix. */
  function DmsLayout(degree: string, minute: string, second: string, dir: char, f: PositionFormat): string {
    degree + minute + f.minSymbol + second + f.secSymbol + DirectionSuffix(f, dir)
  }

  /** One DDM axis: the minute goes through the number formatter. */
  function DdmAxis(d: int32, m: real, dir: char, f: PositionFormat): string
    requires f.minPrecision == 0 ==> CastsToInt32(m)
  {
    DdmLayout(DegreeText(d, f), FormatNumberToString(m, f.minPrecision), dir, f)
  }

  /** One DMS axis: the minute is plain integer text and only the second goes
      through the number formatter. */
  function DmsAxis(d: int32, m: int32, s: real, dir: char, f: PositionFormat): string
    requires f.secPrecision == 0 ==> CastsToInt32(s)
  {
    DmsLayout(DegreeText(d, f), IntToString(m as int), FormatNumberToString(s, f.secPrecision), dir, f)
  }

  function LatDir(p: Position): char
    requires !p.DD?
  {
    if p.DDM? then p.ddm.latDir else p.dms.latDir
  }

  function LonDir(p: Position): char
    requires !p.DD?
  {
    if p.DDM? then p.ddm.lonDir else p.dms.lonDir
  }

  function LatDegree(p: Position): int32
    requires !p.DD?
  {
    if p.DDM? then p.ddm.latD else p.dms.latD
  }

  function LonDegree(p: Position): int32
    requires !p.DD?
  {
    if p.DDM? then p.ddm.lonD else p.dms.lonD
  }

  /** `format(p, format)`: each axis rendered on its own. */
  function Format(p: Position, f: PositionFormat): (ps: DisplayString)
    requires Renderable(p, f)
  {
    match p
    case DD(dd) =>
      DisplayString(DdText(dd.lat, f.latPrecision, f), DdText(dd.lon, f.lonPrecision, f))
    case DDM(x) =>
      DisplayString(DdmAxis(x.latD, x.latM, x.latDir, f), DdmAxis(x.lonD, x.lonM, x.lonDir, f))
    case DMS(x) =>
      DisplayString(DmsAxis(x.latD, x.latM, x.latS, x.latDir, f), DmsAxis(x.lonD, x.lonM, x.lonS, x.lonDir, f))
  }

  // ------------------------------------------------------------ strings

  predicate StartsWith(t: string, a: string) {
    |t| >= |a| && t[..|a|] == a
  }

  predicate EndsWith(t: string, a: string) {
    |t| >= |a| && t[|t| - |a|..] == a
  }

  /** `piece` appears in `t` at index `k`. */
  predicate HasAt(t: string, k: nat, piece: string) {
    |t| >= k + |piece| && t[k..k + |piece|] == piece
  }

  lemma PrefixOfConcat(a: string, b: string)
    ensures StartsWith(a + b, a)
  {
    assert (a + b)[..|a|] == a;
  }

  lemma SuffixOfConcat(a: string, b: string)
    ensures EndsWith(a + b, b)
  {
    assert (a + b)[|a + b| - |b|..] == b;
  }

  lemma PrefixTransitive(t: string, u: string, v: string)
    requires StartsWith(t, u) && StartsWith(u, v)
    ensures StartsWith(t, v)
  {
    assert t[..|v|] == t[..|u|][..|v|];
  }

  /** What follows a prefix `a` in a text starting with `a + b` is `b`. */
  lemma SliceAfterPrefix(t: string, a: string, b: string)
    requires StartsWith(t, a + b)
    ensures t[|a|..|a| + |b|] == b
  {
    assert t[|a|..|a| + |b|] == t[..|a + b|][|a|..];
    assert (a + b)[|a|..] == b;
  }

  lemma LastOfSuffix(t: string, spacer: string, c: char)
    requires EndsWith(t, spacer + [c])
    ensures |t| >= 1 && t[|t| - 1] == c
  {
    assert t[|t| - 1] == t[|t| - |spacer + [c]|..][|spacer|];
  }

  // ------------------------------------------------------------ layouts

  /** The degree text and the minute text lead a DMS layout; the degree text
      leads a DDM layout. */
  lemma LayoutStarts(degree: string, minute: string, second: string, dir: char, f: PositionFormat)
    ensures StartsWith(DmsLayout(degree, minute, second, dir, f), degree + minute)
    ensures StartsWith(DmsLayout(degree, minute, second, dir, f), degree)
    ensures StartsWith(DdmLayout(degree, minute, dir, f), degree)
  {
    var t := DmsLayout(degree, minute, second, dir, f);
    var p2 := degree + minute;
    var p3 := p2 + f.minSymbol;
    var p4 := p3 + second;
    var p5 := p4 + f.secSymbol;
    PrefixOfConcat(p5, DirectionSuffix(f, dir));
    PrefixOfConcat(p4, f.secSymbol);
    PrefixOfConcat(p3, second);
    PrefixOfConcat(p2, f.minSymbol);
    PrefixTransitive(t, p5, p4);
    PrefixTransitive(t, p4, p3);
    PrefixTransitive(t, p3, p2);
    PrefixOfConcat(degree, minute);
    PrefixTransitive(t, p2, degree);
    var u := DdmLayout(degree, minute, dir, f);
    PrefixOfConcat(p3, DirectionSuffix(f, dir));
    PrefixTransitive(u, p3, p2);
    PrefixTransitive(u, p2, degree);
  }

  /** With display off, a layout ends with its last unit symbol. */
  lemma LayoutUnitEnds(degree: string, minute: string, second: string, dir: char, f: PositionFormat)
    requires !f.dirIndicator
    ensures EndsWith(DdmLayout(degree, minute, dir, f), f.minSymbol)
    ensures EndsWith(DmsLayout(degree, minute, second, dir, f), f.secSymbol)
  {
    var ddmHead := degree + minute + f.minSymbol;
    assert DdmLayout(degree, minute, dir, f) == ddmHead;
    SuffixOfConcat(degree + minute, f.minSymbol);
    var dmsHead := degree + minute + f.minSymbol + second + f.secSymbol;
    assert DmsLayout(degree, minute, second, dir, f) == dmsHead;
    SuffixOfConcat(degree + minute + f.minSymbol + second, f.secSymbol);
  }

  /** With display on, a layout ends with the spacer and the letter. */
  lemma LayoutLetterEnds(degree: string, minute: string, second: string, dir: char, f: PositionFormat)
    requires f.dirIndicator
    ensures |DdmLayout(degree, minute, dir, f)| >= 1 && DdmLayout(degree, minute, dir, f)[|DdmLayout(degree, minute, dir, f)| - 1] == dir
    ensures |DmsLayout(degree, minute, second, dir, f)| >= 1 && DmsLayout(degree, minute, second, dir, f)[|DmsLayout(degree, minute, second, dir, f)| - 1] == dir
  {
    var suffix := f.dirIndicatorSpacer + [dir];
    SuffixOfConcat(degree + minute + f.minSymbol, suffix);
    LastOfSuffix(DdmLayout(degree, minute, dir, f), f.dirIndicatorSpacer, dir);
    SuffixOfConcat(degree + minute + f.minSymbol + second + f.secSymbol, suffix);
    LastOfSuffix(DmsLayout(degree, minute, second, dir, f), f.dirIndicatorSpacer, dir);
  }

  /** Display on = display off, then the spacer and the letter. */
  lemma LayoutDirection(degree: string, minute: string, second: string, dir: char, f: PositionFormat)
    requires f.dirIndicator
    ensures var g := f.(dirIndicator := false);
      DdmLayout(degree, minute, dir, f) == DdmLayout(degree, minute, dir, g) + f.dirIndicatorSpacer + [dir] &&
      DmsLayout(degree, minute, second, dir, f) == DmsLayout(degree, minute, second, dir, g) + f.dirIndicatorSpacer + [dir]
  {
  }

  // ------------------------------------------------------------ axes

  /** A DD axis holds only numeral characters and those of the degree symbol. */
  lemma DdTextChars(value: real, precision: int32, f: PositionFormat)
    requires precision == 0 ==> CastsToInt32(value)
    ensures var t := DdText(value, precision, f);
      forall i :: 0 <= i < |t| ==> IsNumeralChar(t[i]) || t[i] in f.degSymbol
  {
    var n := FormatNumberToString(value, precision);
    FormatNumberChars(value, precision);
    var t := DdText(value, precision, f);
    forall i | 0 <= i < |t|
      ensures IsNumeralChar(t[i]) || t[i] in f.degSymbol
    {
      if i < |n| {
        assert t[i] == n[i];
      } else {
        assert t[i] == f.degSymbol[i - |n|];
      }
    }
  }

  lemma DdmAxisDirection(d: int32, m: real, dir: char, f: PositionFormat)
    requires f.minPrecision == 0 ==> CastsToInt32(m)
    requires f.dirIndicator
    ensures DdmAxis(d, m, dir, f) == DdmAxis(d, m, dir, f.(dirIndicator := false)) + f.dirIndicatorSpacer + [dir]
  {
    var g := f.(dirIndicator := false);
    assert DegreeText(d, g) == DegreeText(d, f);
    LayoutDirection(DegreeText(d, f), FormatNumberToString(m, f.minPrecision), "", dir, f);
  }

  lemma DmsAxisDirection(d: int32, m: int32, s: real, dir: char, f: PositionFormat)
    requires f.secPrecision == 0 ==> CastsToInt32(s)
    requires f.dirIndicator
    ensures DmsAxis(d, m, s, dir, f) == DmsAxis(d, m, s, dir, f.(dirIndicator := false)) + f.dirIndicatorSpacer + [dir]
  {
    var g := f.(dirIndicator := false);
    assert DegreeText(d, g) == DegreeText(d, f);
    LayoutDirection(DegreeText(d, f), IntToString(m as int), FormatNumberToString(s, f.secPrecision), dir, f);
  }

  lemma DdmAxisUnitEnds(d: int32, m: real, dir: char, f: PositionFormat)
    requires f.minPrecision == 0 ==> CastsToInt32(m)
    requires !f.dirIndicator
    ensures EndsWith(DdmAxis(d, m, dir, f), f.minSymbol)
  {
    LayoutUnitEnds(DegreeText(d, f), FormatNumberToString(m, f.minPrecision), "", dir, f);
  }

  lemma DmsAxisUnitEnds(d: int32, m: int32, s: real, dir: char, f: PositionFormat)
    requires f.secPrecision == 0 ==> CastsToInt32(s)
    requires !f.dirIndicator
    ensures EndsWith(DmsAxis(d, m, s, dir, f), f.secSymbol)
  {
    LayoutUnitEnds(DegreeText(d, f), IntToString(m as int), FormatNumberToString(s, f.secPrecision), dir, f);
  }

  lemma DdmAxisLetterEnds(d: int32, m: real, dir: char, f: PositionFormat)
    requires f.minPrecision == 0 ==> CastsToInt32(m)
    requires f.dirIndicator
    ensures var t := DdmAxis(d, m, dir, f); |t| >= 1 && t[|t| - 1] == dir
  {
    LayoutLetterEnds(DegreeText(d, f), FormatNumberToString(m, f.minPrecision), "", dir, f);
  }

  lemma DmsAxisLetterEnds(d: int32, m: int32, s: real, dir: char, f: PositionFormat)
    requires f.secPrecision == 0 ==> CastsToInt32(s)
    requires f.dirIndicator
    ensures var t := DmsAxis(d, m, s, dir, f); |t| >= 1 && t[|t| - 1] == dir
  {
    LayoutLetterEnds(DegreeText(d, f), IntToString(m as int), FormatNumberToString(s, f.secPrecision), dir, f);
  }

  lemma DmsAxisMinute(d: int32, m: int32, s: real, dir: char, f: PositionFormat)
    requires f.secPrecision == 0 ==> CastsToInt32(s)
    ensures HasAt(DmsAxis(d, m, s, dir, f), |DegreeText(d, f)|, IntToString(m as int))
  {
    var t := DmsAxis(d, m, s, dir, f);
    LayoutStarts(DegreeText(d, f), IntToString(m as int), FormatNumberToString(s, f.secPrecision), dir, f);
    SliceAfterPrefix(t, DegreeText(d, f), IntToString(m as int));
  }

  /** The degree text leads an axis and reads back as the degree. */
  lemma DegreePrefix(d: int32, f: PositionFormat, t: string)
    requires StartsWith(t, DegreeText(d, f))
    ensures var n := |IntToString(d as int)|;
      n <= |t| && DecimalValue(t[..n]) == Some(d as real)
  {
    var i := IntToString(d as int);
    assert DegreeText(d, f) == i + (f.degSymbol + f.dmSeparator);
    PrefixOfConcat(i, f.degSymbol + f.dmSeparator);
    PrefixTransitive(t, DegreeText(d, f), i);
    IntToStringValue(d as int);
  }

  lemma DdmAxisDegree(d: int32, m: real, dir: char, f: PositionFormat)
    requires f.minPrecision == 0 ==> CastsToInt32(m)
    ensures StartsWith(DdmAxis(d, m, dir, f), DegreeText(d, f))
  {
    LayoutStarts(DegreeText(d, f), FormatNumberToString(m, f.minPrecision), "", dir, f);
  }

  lemma DmsAxisDegree(d: int32, m: int32, s: real, dir: char, f: PositionFormat)
    requires f.secPrecision == 0 ==> CastsToInt32(s)
    ensures StartsWith(DmsAxis(d, m, s, dir, f), DegreeText(d, f))
  {
    LayoutStarts(DegreeText(d, f), IntToString(m as int), FormatNumberToString(s, f.secPrecision), dir, f);
  }

  // ------------------------------------------------------------- properties

  /** The last character of a DDM or DMS axis is its hemisphere letter when the
      direction is displayed. */
  lemma LetterEndsAxis(p: Position, f: PositionFormat)
    requires !p.DD? && Renderable(p, f) && f.dirIndicator
    ensures var ps := Format(p, f);
      |ps.lat| >= 1 && ps.lat[|ps.lat| - 1] == LatDir(p) && |ps.lon| >= 1 && ps.lon[|ps.lon| - 1] == LonDir(p)
  {
    if p.DDM? {
      var x := p.ddm;
      DdmAxisLetterEnds(x.latD, x.latM, x.latDir, f);
      DdmAxisLetterEnds(x.lonD, x.lonM, x.lonDir, f);
    } else {
      var x := p.dms;
      DmsAxisLetterEnds(x.latD, x.latM, x.latS, x.latDir, f);
      DmsAxisLetterEnds(x.lonD, x.lonM, x.lonS, x.lonDir, f);
    }
  }

  /** A DD rendering holds only the characters of a number and of the degree
      symbol, so no hemisphere letter appears unless the degree symbol has one,
      and the direction settings do not change it. */
  lemma DdCarriesNoDirection(dd: Dd, f: PositionFormat, show: bool, spacer: string)
    requires Renderable(DD(dd), f)
    ensures var ps := Format(DD(dd), f);
      forall i :: 0 <= i < |ps.lat| ==> IsNumeralChar(ps.lat[i]) || ps.lat[i] in f.degSymbol
    ensures var ps := Format(DD(dd), f);
      forall i :: 0 <= i < |ps.lon| ==> IsNumeralChar(ps.lon[i]) || ps.lon[i] in f.degSymbol
    ensures forall c :: c in "NSEW" && c !in f.degSymbol ==> c !in Format(DD(dd), f).lat && c !in Format(DD(dd), f).lon
    ensures Format(DD(dd), f) == Format(DD(dd), f.(dirIndicator := show, dirIndicatorSpacer := spacer))
  {
    DdTextChars(dd.lat, f.latPrecision, f);
    DdTextChars(dd.lon, f.lonPrecision, f);
  }

  /** With direction display on, a DDM or DMS rendering is the rendering with it
      off followed by the spacer and the hemisphere letter. */
  lemma DirectionIsAppended(p: Position, f: PositionFormat)
    requires !p.DD? && Renderable(p, f) && f.dirIndicator
    ensures Format(p, f).lat == Format(p, f.(dirIndicator := false)).lat + f.dirIndicatorSpacer + [LatDir(p)]
    ensures Format(p, f).lon == Format(p, f.(dirIndicator := false)).lon + f.dirIndicatorSpacer + [LonDir(p)]
  {
    if p.DDM? {
      var x := p.ddm;
      DdmAxisDirection(x.latD, x.latM, x.latDir, f);
      DdmAxisDirection(x.lonD, x.lonM, x.lonDir, f);
    } else {
      var x := p.dms;
      DmsAxisDirection(x.latD, x.latM, x.latS, x.latDir, f);
      DmsAxisDirection(x.lonD, x.lonM, x.lonS, x.lonDir, f);
    }
  }

  /** With direction display off, a DDM rendering ends with the minute symbol and
      a DMS rendering with the second symbol. */
  lemma UnitSymbolEndsWithoutDirection(p: Position, f: PositionFormat)
    requires !p.DD? && Renderable(p, f) && !f.dirIndicator
    ensures p.DDM? ==> EndsWith(Format(p, f).lat, f.minSymbol) && EndsWith(Format(p, f).lon, f.minSymbol)
    ensures p.DMS? ==> EndsWith(Format(p, f).lat, f.secSymbol) && EndsWith(Format(p, f).lon, f.secSymbol)
  {
    if p.DDM? {
      var x := p.ddm;
      DdmAxisUnitEnds(x.latD, x.latM, x.latDir, f);
      DdmAxisUnitEnds(x.lonD, x.lonM, x.lonDir, f);
    } else {
      var x := p.dms;
      DmsAxisUnitEnds(x.latD, x.latM, x.latS, x.latDir, f);
      DmsAxisUnitEnds(x.lonD, x.lonM, x.lonS, x.lonDir, f);
    }
  }

  /** The DMS minute does not go through the number formatter: it is the plain
      integer text right after the degree part. */
  lemma DmsMinuteIsPlainInteger(x: Dms, f: PositionFormat)
    requires Renderable(DMS(x), f)
    ensures HasAt(Format(DMS(x), f).lat, |DegreeText(x.latD, f)|, IntToString(x.latM as int))
    ensures HasAt(Format(DMS(x), f).lon, |DegreeText(x.lonD, f)|, IntToString(x.lonM as int))
  {
    DmsAxisMinute(x.latD, x.latM, x.latS, x.latDir, f);
    DmsAxisMinute(x.lonD, x.lonM, x.lonS, x.lonDir, f);
  }

  /** A DMS rendering does not depend on the DD precisions or the minute
      precision. */
  lemma DmsIgnoresOtherPrecisions(x: Dms, f: PositionFormat, precision: int32)
    requires Renderable(DMS(x), f)
    ensures Format(DMS(x), f) == Format(DMS(x), f.(minPrecision := precision, latPrecision := precision, lonPrecision := precision))
  {
    var g := f.(minPrecision := precision, latPrecision := precision, lonPrecision := precision);
    assert DegreeText(x.latD, g) == DegreeText(x.latD, f);
    assert DegreeText(x.lonD, g) == DegreeText(x.lonD, f);
  }

  /** The minute/second separator of the configuration is never used. */
  lemma MsSeparatorIsUnused(p: Position, f: PositionFormat, separator: string)
    requires Renderable(p, f)
    ensures Format(p, f) == Format(p, f.(msSeparator := separator))
  {
  }

  /** A DDM or DMS axis begins with its degree text, and the integer text at its
      head reads back as the degree field. */
  lemma DegreeReadsBack(p: Position, f: PositionFormat)
    requires !p.DD? && Renderable(p, f)
    ensures var lat := Format(p, f).lat;
      var n := |IntToString(LatDegree(p) as int)|;
      StartsWith(lat, DegreeText(LatDegree(p), f)) && n <= |lat| && DecimalValue(lat[..n]) == Some(LatDegree(p) as real)
    ensures var lon := Format(p, f).lon;
      var n := |IntToString(LonDegree(p) as int)|;
      StartsWith(lon, DegreeText(LonDegree(p), f)) && n <= |lon| && DecimalValue(lon[..n]) == Some(LonDegree(p) as real)
  {
    var ps := Format(p, f);
    if p.DDM? {
      var x := p.ddm;
      DdmAxisDegree(x.latD, x.latM, x.latDir, f);
      DdmAxisDegree(x.lonD, x.lonM, x.lonDir, f);
    } else {
      var x := p.dms;
      DmsAxisDegree(x.latD, x.latM, x.latS, x.latDir, f);
      DmsAxisDegree(x.lonD, x.lonM, x.lonS, x.lonDir, f);
    }
    DegreePrefix(LatDegree(p), f, ps.lat);
    DegreePrefix(LonDegree(p), f, ps.lon);
  }
}
