/** The display strings the library's tests expect for three landmarks, derived
    from the model of the conversions and of `format` with the preset
    configurations, and the outputs the number formatting test expects. Values
    are exact reals, so each conversion result below is the exact one. */
module Fixtures {
  import opened Numerals
  import opened Positions
  import opened Conversions
  import opened NumberFormat
  import opened Render

  /** Fixed-point text of a unit count from the texts of its whole units and
      the rest. */
  lemma UnitsTextFrom(negative: bool, q: nat, p: nat, whole: nat, fraction: nat, wholeText: string, fractionText: string)
    requires WholeUnits(q, p) == whole && FractionUnits(q, p) == fraction
    requires NatDigits(whole) == wholeText && PadDigits(fraction, p) == fractionText
    ensures UnitsText(negative, q, p) == (if negative then "-" else "") + wholeText + "." + fractionText
  {
  }

  /** A DDM axis from the text of its minute and the layout of its parts. */
  lemma DdmAxisFrom(d: int32, m: real, dir: char, f: PositionFormat, minute: string, full: string)
    requires f.minPrecision == 0 ==> CastsToInt32(m)
    requires FormatNumberToString(m, f.minPrecision) == minute
    requires DdmLayout(DegreeText(d, f), minute, dir, f) == full
    ensures DdmAxis(d, m, dir, f) == full
  {
  }

  /** A DMS axis from the text of its second and the layout of its parts. */
  lemma DmsAxisFrom(d: int32, m: int32, s: real, dir: char, f: PositionFormat, second: string, full: string)
    requires f.secPrecision == 0 ==> CastsToInt32(s)
    requires FormatNumberToString(s, f.secPrecision) == second
    requires DmsLayout(DegreeText(d, f), IntToString(m as int), second, dir, f) == full
    ensures DmsAxis(d, m, s, dir, f) == full
  {
  }

  // --------------------------------------------------- format_number_to_string

  /** Precision 0 truncates toward zero, also for negative values. */
  lemma TruncatingExamples()
    ensures FormatNumberToString(12.3456789, 0) == "12"
    ensures FormatNumberToString(-12.9, 0) == "-12"
    ensures FormatNumberToString(-0.5, 0) == "0"
  {
    assert NatDigits(12) == "12";
  }

  lemma Rounding12At1()
    ensures FormatNumberToString(12.3456789, 1) == "12.3"
  {
    assert Up(12.3456789, 1) == 123.456789;
    assert RoundedUnits(12.3456789, 1) == 123;
    Rounding12At1Units();
  }

  lemma Rounding12At2()
    ensures FormatNumberToString(12.3456789, 2) == "12.35"
  {
    assert Up(12.3456789, 2) == 1234.56789;
    assert RoundedUnits(12.3456789, 2) == 1235;
    Rounding12At2Units();
  }

  lemma Rounding12At3()
    ensures FormatNumberToString(12.3456789, 3) == "12.346"
  {
    assert Up(12.3456789, 3) == 12345.6789;
    assert RoundedUnits(12.3456789, 3) == 12346;
    Rounding12At3Units();
  }

  lemma Rounding12At4()
    ensures FormatNumberToString(12.3456789, 4) == "12.3457"
  {
    assert Up(12.3456789, 4) == 123456.789;
    assert RoundedUnits(12.3456789, 4) == 123457;
    Rounding12At4Units();
  }

  lemma Rounding12At5()
    ensures FormatNumberToString(12.3456789, 5) == "12.34568"
  {
    assert Up(12.3456789, 5) == 1234567.89;
    assert RoundedUnits(12.3456789, 5) == 1234568;
    Rounding12At5Units();
  }

  lemma Rounding12At6()
    ensures FormatNumberToString(12.3456789, 6) == "12.345679"
  {
    assert Up(12.3456789, 6) == 12345678.9;
    assert RoundedUnits(12.3456789, 6) == 12345679;
    Rounding12At6Units();
  }

  lemma Rounding12At7()
    ensures FormatNumberToString(12.3456789, 7) == "12.3456789"
  {
    assert Up(12.3456789, 7) == 123456789.0;
    assert RoundedUnits(12.3456789, 7) == 123456789;
    Rounding12At7Units();
  }

  lemma Rounding12At10()
    ensures FormatNumberToString(12.3456789, 10) == "12.3456789000"
  {
    assert Up(12.3456789, 10) == 123456789000.0;
    assert RoundedUnits(12.3456789, 10) == 123456789000;
    Rounding12At10Units();
  }

  /** Without a precision argument the formatter uses 2 digits, so the value
      reads back to the nearest hundredth. */
  lemma DefaultPrecision()
    ensures FormatNumberToString(12.3456789) == "12.35"
    ensures FormatNumber(12.3456789) == 12.35
  {
    Rounding12At2();
  }

  // ----------------------------------------------------------- SpaceNeedle

  const SpaceNeedle := Dd(47.6205, -122.3493)

  /** Decimal degrees and minutes of SpaceNeedle: the exact conversion result. */
  lemma SpaceNeedleDdm()
    ensures DdToDdm(SpaceNeedle) == Ddm('N', 47, 37.23, 'W', 122, 20.958)
  {
    assert ScalarDdToDms(47.6205).0 == 47;
    assert ScalarDdToDms(-122.3493).0 == 122;
  }

  /** Degrees, minutes and seconds of SpaceNeedle: the exact conversion result. */
  lemma SpaceNeedleDms()
    ensures DdToDms(SpaceNeedle) == Dms('N', 47, 37, 13.8, 'W', 122, 20, 57.48)
  {
    assert Trunc(47.6205) == 47;
    assert Trunc(37.23) == 37;
    assert Trunc(122.3493) == 122;
    assert Trunc(20.958) == 20;
  }

  lemma SpaceNeedleLatDd()
    ensures FormatNumberToString(47.6205, 6) == "47.620500"
  {
    assert Up(47.6205, 6) == 47620500.0;
    assert RoundedUnits(47.6205, 6) == 47620500;
    SpaceNeedleLatDdUnits();
  }

  lemma SpaceNeedleLonDd()
    ensures FormatNumberToString(-122.3493, 6) == "-122.349300"
  {
    assert Up(122.3493, 6) == 122349300.0;
    assert RoundedUnits(-122.3493, 6) == 122349300;
    SpaceNeedleLonDdUnits();
  }

  /** `format(dd, position_dd_format)` for SpaceNeedle. */
  lemma SpaceNeedleDdFormat()
    ensures Format(DD(SpaceNeedle), DdFormat) == DisplayString("47.620500", "-122.349300")
  {
    SpaceNeedleLatDd();
    SpaceNeedleLonDd();
  }

  lemma SpaceNeedleLatDdmMinute()
    ensures FormatNumberToString(37.23, 3) == "37.230"
  {
    assert Up(37.23, 3) == 37230.0;
    assert RoundedUnits(37.23, 3) == 37230;
    SpaceNeedleLatDdmMinuteUnits();
  }

  lemma SpaceNeedleLatDdmAxis()
    ensures DdmAxis(47, 37.23, 'N', DdmFormat) == "47°37.230'N"
  {
    SpaceNeedleLatDdmMinute();
    SpaceNeedleLatDdmLayout();
    DdmAxisFrom(47, 37.23, 'N', DdmFormat, "37.230", "47°37.230'N");
  }

  lemma SpaceNeedleLatDdmLayout()
    ensures DdmLayout(DegreeText(47, DdmFormat), "37.230", 'N', DdmFormat) == "47°37.230'N"
  {
    assert DegreeText(47, DdmFormat) == "47°";
  }

  lemma SpaceNeedleLonDdmMinute()
    ensures FormatNumberToString(20.958, 3) == "20.958"
  {
    assert Up(20.958, 3) == 20958.0;
    assert RoundedUnits(20.958, 3) == 20958;
    SpaceNeedleLonDdmMinuteUnits();
  }

  lemma SpaceNeedleLonDdmAxis()
    ensures DdmAxis(122, 20.958, 'W', DdmFormat) == "122°20.958'W"
  {
    SpaceNeedleLonDdmMinute();
    SpaceNeedleLonDdmLayout();
    DdmAxisFrom(122, 20.958, 'W', DdmFormat, "20.958", "122°20.958'W");
  }

  lemma SpaceNeedleLonDdmLayout()
    ensures DdmLayout(DegreeText(122, DdmFormat), "20.958", 'W', DdmFormat) == "122°20.958'W"
  {
    assert DegreeText(122, DdmFormat) == "122°";
  }

  /** `format(ddm, position_ddm_format)` for SpaceNeedle converted to DDM. */
  lemma SpaceNeedleDdmFormat()
    ensures Format(DDM(DdToDdm(SpaceNeedle)), DdmFormat) == DisplayString("47°37.230'N", "122°20.958'W")
  {
    SpaceNeedleDdm();
    SpaceNeedleLatDdmAxis();
    SpaceNeedleLonDdmAxis();
  }

  lemma SpaceNeedleLatDmsSecond()
    ensures FormatNumberToString(13.8, 2) == "13.80"
  {
    assert Up(13.8, 2) == 1380.0;
    assert RoundedUnits(13.8, 2) == 1380;
    SpaceNeedleLatDmsSecondUnits();
  }

  lemma SpaceNeedleLatDmsAxis()
    ensures DmsAxis(47, 37, 13.8, 'N', DmsFormat) == "47°37'13.80\"N"
  {
    SpaceNeedleLatDmsSecond();
    SpaceNeedleLatDmsLayout();
    DmsAxisFrom(47, 37, 13.8, 'N', DmsFormat, "13.80", "47°37'13.80\"N");
  }

  lemma SpaceNeedleLatDmsLayout()
    ensures DmsLayout(DegreeText(47, DmsFormat), IntToString(37), "13.80", 'N', DmsFormat) == "47°37'13.80\"N"
  {
    assert DegreeText(47, DmsFormat) == "47°";
    assert IntToString(37) == "37";
  }

  lemma SpaceNeedleLonDmsSecond()
    ensures FormatNumberToString(57.48, 2) == "57.48"
  {
    assert Up(57.48, 2) == 5748.0;
    assert RoundedUnits(57.48, 2) == 5748;
    SpaceNeedleLonDmsSecondUnits();
  }

  lemma SpaceNeedleLonDmsAxis()
    ensures DmsAxis(122, 20, 57.48, 'W', DmsFormat) == "122°20'57.48\"W"
  {
    SpaceNeedleLonDmsSecond();
    SpaceNeedleLonDmsLayout();
    DmsAxisFrom(122, 20, 57.48, 'W', DmsFormat, "57.48", "122°20'57.48\"W");
  }

  lemma SpaceNeedleLonDmsLayout()
    ensures DmsLayout(DegreeText(122, DmsFormat), IntToString(20), "57.48", 'W', DmsFormat) == "122°20'57.48\"W"
  {
    assert DegreeText(122, DmsFormat) == "122°";
    assert IntToString(20) == "20";
  }

  /** `format(dms, position_dms_format)` for SpaceNeedle converted to DMS. */
  lemma SpaceNeedleDmsFormat()
    ensures Format(DMS(DdToDms(SpaceNeedle)), DmsFormat) == DisplayString("47°37'13.80\"N", "122°20'57.48\"W")
  {
    SpaceNeedleDms();
    SpaceNeedleLatDmsAxis();
    SpaceNeedleLonDmsAxis();
  }

  // -------------------------------------------------------- MuseumOfFlight

  const MuseumOfFlight := Dd(47.51863818403278, -122.29686387310251)

  /** Decimal degrees and minutes of MuseumOfFlight: the exact conversion result. */
  lemma MuseumOfFlightDdm()
    ensures DdToDdm(MuseumOfFlight) == Ddm('N', 47, 31.1182910419668, 'W', 122, 17.8118323861506)
  {
    assert ScalarDdToDms(47.51863818403278).0 == 47;
    assert ScalarDdToDms(-122.29686387310251).0 == 122;
  }

  /** Degrees, minutes and seconds of MuseumOfFlight: the exact conversion result. */
  lemma MuseumOfFlightDms()
    ensures DdToDms(MuseumOfFlight) == Dms('N', 47, 31, 7.097462518008, 'W', 122, 17, 48.709943169036)
  {
    assert Trunc(47.51863818403278) == 47;
    assert Trunc(31.1182910419668) == 31;
    assert Trunc(122.29686387310251) == 122;
    assert Trunc(17.8118323861506) == 17;
  }

  lemma MuseumOfFlightLatDd()
    ensures FormatNumberToString(47.51863818403278, 6) == "47.518638"
  {
    assert Up(47.51863818403278, 6) == 47518638.18403278;
    assert RoundedUnits(47.51863818403278, 6) == 47518638;
    MuseumOfFlightLatDdUnits();
  }

  lemma MuseumOfFlightLonDd()
    ensures FormatNumberToString(-122.29686387310251, 6) == "-122.296864"
  {
    assert Up(122.29686387310251, 6) == 122296863.87310251;
    assert RoundedUnits(-122.29686387310251, 6) == 122296864;
    MuseumOfFlightLonDdUnits();
  }

  /** `format(dd, position_dd_format)` for MuseumOfFlight. */
  lemma MuseumOfFlightDdFormat()
    ensures Format(DD(MuseumOfFlight), DdFormat) == DisplayString("47.518638", "-122.296864")
  {
    MuseumOfFlightLatDd();
    MuseumOfFlightLonDd();
  }

  lemma MuseumOfFlightLatDdmMinute()
    ensures FormatNumberToString(31.1182910419668, 3) == "31.118"
  {
    assert Up(31.1182910419668, 3) == 31118.2910419668;
    assert RoundedUnits(31.1182910419668, 3) == 31118;
    MuseumOfFlightLatDdmMinuteUnits();
  }

  lemma MuseumOfFlightLatDdmAxis()
    ensures DdmAxis(47, 31.1182910419668, 'N', DdmFormat) == "47°31.118'N"
  {
    MuseumOfFlightLatDdmMinute();
    MuseumOfFlightLatDdmLayout();
    DdmAxisFrom(47, 31.1182910419668, 'N', DdmFormat, "31.118", "47°31.118'N");
  }

  lemma MuseumOfFlightLatDdmLayout()
    ensures DdmLayout(DegreeText(47, DdmFormat), "31.118", 'N', DdmFormat) == "47°31.118'N"
  {
    assert DegreeText(47, DdmFormat) == "47°";
  }

  lemma MuseumOfFlightLonDdmMinute()
    ensures FormatNumberToString(17.8118323861506, 3) == "17.812"
  {
    assert Up(17.8118323861506, 3) == 17811.8323861506;
    assert RoundedUnits(17.8118323861506, 3) == 17812;
    MuseumOfFlightLonDdmMinuteUnits();
  }

  lemma MuseumOfFlightLonDdmAxis()
    ensures DdmAxis(122, 17.8118323861506, 'W', DdmFormat) == "122°17.812'W"
  {
    MuseumOfFlightLonDdmMinute();
    MuseumOfFlightLonDdmLayout();
    DdmAxisFrom(122, 17.8118323861506, 'W', DdmFormat, "17.812", "122°17.812'W");
  }

  lemma MuseumOfFlightLonDdmLayout()
    ensures DdmLayout(DegreeText(122, DdmFormat), "17.812", 'W', DdmFormat) == "122°17.812'W"
  {
    assert DegreeText(122, DdmFormat) == "122°";
  }

  /** `format(ddm, position_ddm_format)` for MuseumOfFlight converted to DDM. */
  lemma MuseumOfFlightDdmFormat()
    ensures Format(DDM(DdToDdm(MuseumOfFlight)), DdmFormat) == DisplayString("47°31.118'N", "122°17.812'W")
  {
    MuseumOfFlightDdm();
    MuseumOfFlightLatDdmAxis();
    MuseumOfFlightLonDdmAxis();
  }

  lemma MuseumOfFlightLatDmsSecond()
    ensures FormatNumberToString(7.097462518008, 2) == "7.10"
  {
    assert Up(7.097462518008, 2) == 709.7462518008;
    assert RoundedUnits(7.097462518008, 2) == 710;
    MuseumOfFlightLatDmsSecondUnits();
  }

  lemma MuseumOfFlightLatDmsAxis()
    ensures DmsAxis(47, 31, 7.097462518008, 'N', DmsFormat) == "47°31'7.10\"N"
  {
    MuseumOfFlightLatDmsSecond();
    MuseumOfFlightLatDmsLayout();
    DmsAxisFrom(47, 31, 7.097462518008, 'N', DmsFormat, "7.10", "47°31'7.10\"N");
  }

  lemma MuseumOfFlightLatDmsLayout()
    ensures DmsLayout(DegreeText(47, DmsFormat), IntToString(31), "7.10", 'N', DmsFormat) == "47°31'7.10\"N"
  {
    assert DegreeText(47, DmsFormat) == "47°";
    assert IntToString(31) == "31";
  }

  lemma MuseumOfFlightLonDmsSecond()
    ensures FormatNumberToString(48.709943169036, 2) == "48.71"
  {
    assert Up(48.709943169036, 2) == 4870.9943169036;
    assert RoundedUnits(48.709943169036, 2) == 4871;
    MuseumOfFlightLonDmsSecondUnits();
  }

  lemma MuseumOfFlightLonDmsAxis()
    ensures DmsAxis(122, 17, 48.709943169036, 'W', DmsFormat) == "122°17'48.71\"W"
  {
    MuseumOfFlightLonDmsSecond();
    MuseumOfFlightLonDmsLayout();
    DmsAxisFrom(122, 17, 48.709943169036, 'W', DmsFormat, "48.71", "122°17'48.71\"W");
  }

  lemma MuseumOfFlightLonDmsLayout()
    ensures DmsLayout(DegreeText(122, DmsFormat), IntToString(17), "48.71", 'W', DmsFormat) == "122°17'48.71\"W"
  {
    assert DegreeText(122, DmsFormat) == "122°";
    assert IntToString(17) == "17";
  }

  /** `format(dms, position_dms_format)` for MuseumOfFlight converted to DMS. */
  lemma MuseumOfFlightDmsFormat()
    ensures Format(DMS(DdToDms(MuseumOfFlight)), DmsFormat) == DisplayString("47°31'7.10\"N", "122°17'48.71\"W")
  {
    MuseumOfFlightDms();
    MuseumOfFlightLatDmsAxis();
    MuseumOfFlightLonDmsAxis();
  }

  // ----------------------------------------------------------- EiffelTower

  const EiffelTower := Dd(48.858553598330445, 2.2944812975469286)

  /** Decimal degrees and minutes of EiffelTower: the exact conversion result. */
  lemma EiffelTowerDdm()
    ensures DdToDdm(EiffelTower) == Ddm('N', 48, 51.5132158998267, 'E', 2, 17.668877852815716)
  {
    assert ScalarDdToDms(48.858553598330445).0 == 48;
    assert ScalarDdToDms(2.2944812975469286).0 == 2;
  }

  /** Degrees, minutes and seconds of EiffelTower: the exact conversion result. */
  lemma EiffelTowerDms()
    ensures DdToDms(EiffelTower) == Dms('N', 48, 51, 30.792953989602, 'E', 2, 17, 40.13267116894296)
  {
    assert Trunc(48.858553598330445) == 48;
    assert Trunc(51.5132158998267) == 51;
    assert Trunc(2.2944812975469286) == 2;
    assert Trunc(17.668877852815716) == 17;
  }

  lemma EiffelTowerLatDd()
    ensures FormatNumberToString(48.858553598330445, 6) == "48.858554"
  {
    assert Up(48.858553598330445, 6) == 48858553.598330445;
    assert RoundedUnits(48.858553598330445, 6) == 48858554;
    EiffelTowerLatDdUnits();
  }

  lemma EiffelTowerLonDd()
    ensures FormatNumberToString(2.2944812975469286, 6) == "2.294481"
  {
    assert Up(2.2944812975469286, 6) == 2294481.2975469286;
    assert RoundedUnits(2.2944812975469286, 6) == 2294481;
    EiffelTowerLonDdUnits();
  }

  /** `format(dd, position_dd_format)` for EiffelTower. */
  lemma EiffelTowerDdFormat()
    ensures Format(DD(EiffelTower), DdFormat) == DisplayString("48.858554", "2.294481")
  {
    EiffelTowerLatDd();
    EiffelTowerLonDd();
  }

  lemma EiffelTowerLatDdmMinute()
    ensures FormatNumberToString(51.5132158998267, 3) == "51.513"
  {
    assert Up(51.5132158998267, 3) == 51513.2158998267;
    assert RoundedUnits(51.5132158998267, 3) == 51513;
    EiffelTowerLatDdmMinuteUnits();
  }

  lemma EiffelTowerLatDdmAxis()
    ensures DdmAxis(48, 51.5132158998267, 'N', DdmFormat) == "48°51.513'N"
  {
    EiffelTowerLatDdmMinute();
    EiffelTowerLatDdmLayout();
    DdmAxisFrom(48, 51.5132158998267, 'N', DdmFormat, "51.513", "48°51.513'N");
  }

  lemma EiffelTowerLatDdmLayout()
    ensures DdmLayout(DegreeText(48, DdmFormat), "51.513", 'N', DdmFormat) == "48°51.513'N"
  {
    assert DegreeText(48, DdmFormat) == "48°";
  }

  lemma EiffelTowerLonDdmMinute()
    ensures FormatNumberToString(17.668877852815716, 3) == "17.669"
  {
    assert Up(17.668877852815716, 3) == 17668.877852815716;
    assert RoundedUnits(17.668877852815716, 3) == 17669;
    EiffelTowerLonDdmMinuteUnits();
  }

  lemma EiffelTowerLonDdmAxis()
    ensures DdmAxis(2, 17.668877852815716, 'E', DdmFormat) == "2°17.669'E"
  {
    EiffelTowerLonDdmMinute();
    EiffelTowerLonDdmLayout();
    DdmAxisFrom(2, 17.668877852815716, 'E', DdmFormat, "17.669", "2°17.669'E");
  }

  lemma EiffelTowerLonDdmLayout()
    ensures DdmLayout(DegreeText(2, DdmFormat), "17.669", 'E', DdmFormat) == "2°17.669'E"
  {
    assert DegreeText(2, DdmFormat) == "2°";
  }

  /** `format(ddm, position_ddm_format)` for EiffelTower converted to DDM. */
  lemma EiffelTowerDdmFormat()
    ensures Format(DDM(DdToDdm(EiffelTower)), DdmFormat) == DisplayString("48°51.513'N", "2°17.669'E")
  {
    EiffelTowerDdm();
    EiffelTowerLatDdmAxis();
    EiffelTowerLonDdmAxis();
  }

  lemma EiffelTowerLatDmsSecond()
    ensures FormatNumberToString(30.792953989602, 2) == "30.79"
  {
    assert Up(30.792953989602, 2) == 3079.2953989602;
    assert RoundedUnits(30.792953989602, 2) == 3079;
    EiffelTowerLatDmsSecondUnits();
  }

  lemma EiffelTowerLatDmsAxis()
    ensures DmsAxis(48, 51, 30.792953989602, 'N', DmsFormat) == "48°51'30.79\"N"
  {
    EiffelTowerLatDmsSecond();
    EiffelTowerLatDmsLayout();
    DmsAxisFrom(48, 51, 30.792953989602, 'N', DmsFormat, "30.79", "48°51'30.79\"N");
  }

  lemma EiffelTowerLatDmsLayout()
    ensures DmsLayout(DegreeText(48, DmsFormat), IntToString(51), "30.79", 'N', DmsFormat) == "48°51'30.79\"N"
  {
    assert DegreeText(48, DmsFormat) == "48°";
    assert IntToString(51) == "51";
  }

  lemma EiffelTowerLonDmsSecond()
    ensures FormatNumberToString(40.13267116894296, 2) == "40.13"
  {
    assert Up(40.13267116894296, 2) == 4013.267116894296;
    assert RoundedUnits(40.13267116894296, 2) == 4013;
    EiffelTowerLonDmsSecondUnits();
  }

  lemma EiffelTowerLonDmsAxis()
    ensures DmsAxis(2, 17, 40.13267116894296, 'E', DmsFormat) == "2°17'40.13\"E"
  {
    EiffelTowerLonDmsSecond();
    EiffelTowerLonDmsLayout();
    DmsAxisFrom(2, 17, 40.13267116894296, 'E', DmsFormat, "40.13", "2°17'40.13\"E");
  }

  lemma EiffelTowerLonDmsLayout()
    ensures DmsLayout(DegreeText(2, DmsFormat), IntToString(17), "40.13", 'E', DmsFormat) == "2°17'40.13\"E"
  {
    assert DegreeText(2, DmsFormat) == "2°";
    assert IntToString(17) == "17";
  }

  /** `format(dms, position_dms_format)` for EiffelTower converted to DMS. */
  lemma EiffelTowerDmsFormat()
    ensures Format(DMS(DdToDms(EiffelTower)), DmsFormat) == DisplayString("48°51'30.79\"N", "2°17'40.13\"E")
  {
    EiffelTowerDms();
    EiffelTowerLatDmsAxis();
    EiffelTowerLonDmsAxis();
  }

  // -------------------------------------------------------------- unit texts

  lemma Digits47()
    ensures NatDigits(47) == "47"
  {
  }

  lemma SpaceNeedleLatDdUnits()
    ensures UnitsText(false, 47620500, 6) == "47.620500"
  {
    SpaceNeedleLatDdSplit();
    Digits47();
    SpaceNeedleLatDdPad();
    UnitsTextFrom(false, 47620500, 6, 47, 620500, "47", "620500");
  }

  lemma SpaceNeedleLatDdSplit()
    ensures WholeUnits(47620500, 6) == 47 && FractionUnits(47620500, 6) == 620500
  {
  }

  lemma SpaceNeedleLatDdPad()
    ensures PadDigits(620500, 6) == "620500"
  {
  }

  lemma Digits122()
    ensures NatDigits(122) == "122"
  {
  }

  lemma SpaceNeedleLonDdUnits()
    ensures UnitsText(true, 122349300, 6) == "-122.349300"
  {
    SpaceNeedleLonDdSplit();
    Digits122();
    SpaceNeedleLonDdPad();
    UnitsTextFrom(true, 122349300, 6, 122, 349300, "122", "349300");
  }

  lemma SpaceNeedleLonDdSplit()
    ensures WholeUnits(122349300, 6) == 122 && FractionUnits(122349300, 6) == 349300
  {
  }

  lemma SpaceNeedleLonDdPad()
    ensures PadDigits(349300, 6) == "349300"
  {
  }

  lemma Digits37()
    ensures NatDigits(37) == "37"
  {
  }

  lemma SpaceNeedleLatDdmMinuteUnits()
    ensures UnitsText(false, 37230, 3) == "37.230"
  {
    SpaceNeedleLatDdmMinuteSplit();
    Digits37();
    SpaceNeedleLatDdmMinutePad();
    UnitsTextFrom(false, 37230, 3, 37, 230, "37", "230");
  }

  lemma SpaceNeedleLatDdmMinuteSplit()
    ensures WholeUnits(37230, 3) == 37 && FractionUnits(37230, 3) == 230
  {
  }

  lemma SpaceNeedleLatDdmMinutePad()
    ensures PadDigits(230, 3) == "230"
  {
  }

  lemma Digits20()
    ensures NatDigits(20) == "20"
  {
  }

  lemma SpaceNeedleLonDdmMinuteUnits()
    ensures UnitsText(false, 20958, 3) == "20.958"
  {
    SpaceNeedleLonDdmMinuteSplit();
    Digits20();
    SpaceNeedleLonDdmMinutePad();
    UnitsTextFrom(false, 20958, 3, 20, 958, "20", "958");
  }

  lemma SpaceNeedleLonDdmMinuteSplit()
    ensures WholeUnits(20958, 3) == 20 && FractionUnits(20958, 3) == 958
  {
  }

  lemma SpaceNeedleLonDdmMinutePad()
    ensures PadDigits(958, 3) == "958"
  {
  }

  lemma Digits13()
    ensures NatDigits(13) == "13"
  {
  }

  lemma SpaceNeedleLatDmsSecondUnits()
    ensures UnitsText(false, 1380, 2) == "13.80"
  {
    SpaceNeedleLatDmsSecondSplit();
    Digits13();
    SpaceNeedleLatDmsSecondPad();
    UnitsTextFrom(false, 1380, 2, 13, 80, "13", "80");
  }

  lemma SpaceNeedleLatDmsSecondSplit()
    ensures WholeUnits(1380, 2) == 13 && FractionUnits(1380, 2) == 80
  {
  }

  lemma SpaceNeedleLatDmsSecondPad()
    ensures PadDigits(80, 2) == "80"
  {
  }

  lemma Digits57()
    ensures NatDigits(57) == "57"
  {
  }

  lemma SpaceNeedleLonDmsSecondUnits()
    ensures UnitsText(false, 5748, 2) == "57.48"
  {
    SpaceNeedleLonDmsSecondSplit();
    Digits57();
    SpaceNeedleLonDmsSecondPad();
    UnitsTextFrom(false, 5748, 2, 57, 48, "57", "48");
  }

  lemma SpaceNeedleLonDmsSecondSplit()
    ensures WholeUnits(5748, 2) == 57 && FractionUnits(5748, 2) == 48
  {
  }

  lemma SpaceNeedleLonDmsSecondPad()
    ensures PadDigits(48, 2) == "48"
  {
  }

  lemma MuseumOfFlightLatDdUnits()
    ensures UnitsText(false, 47518638, 6) == "47.518638"
  {
    MuseumOfFlightLatDdSplit();
    Digits47();
    MuseumOfFlightLatDdPad();
    UnitsTextFrom(false, 47518638, 6, 47, 518638, "47", "518638");
  }

  lemma MuseumOfFlightLatDdSplit()
    ensures WholeUnits(47518638, 6) == 47 && FractionUnits(47518638, 6) == 518638
  {
  }

  lemma MuseumOfFlightLatDdPad()
    ensures PadDigits(518638, 6) == "518638"
  {
  }

  lemma MuseumOfFlightLonDdUnits()
    ensures UnitsText(true, 122296864, 6) == "-122.296864"
  {
    MuseumOfFlightLonDdSplit();
    Digits122();
    MuseumOfFlightLonDdPad();
    UnitsTextFrom(true, 122296864, 6, 122, 296864, "122", "296864");
  }

  lemma MuseumOfFlightLonDdSplit()
    ensures WholeUnits(122296864, 6) == 122 && FractionUnits(122296864, 6) == 296864
  {
  }

  lemma MuseumOfFlightLonDdPad()
    ensures PadDigits(296864, 6) == "296864"
  {
  }

  lemma Digits31()
    ensures NatDigits(31) == "31"
  {
  }

  lemma MuseumOfFlightLatDdmMinuteUnits()
    ensures UnitsText(false, 31118, 3) == "31.118"
  {
    MuseumOfFlightLatDdmMinuteSplit();
    Digits31();
    MuseumOfFlightLatDdmMinutePad();
    UnitsTextFrom(false, 31118, 3, 31, 118, "31", "118");
  }

  lemma MuseumOfFlightLatDdmMinuteSplit()
    ensures WholeUnits(31118, 3) == 31 && FractionUnits(31118, 3) == 118
  {
  }

  lemma MuseumOfFlightLatDdmMinutePad()
    ensures PadDigits(118, 3) == "118"
  {
  }

  lemma Digits17()
    ensures NatDigits(17) == "17"
  {
  }

  lemma MuseumOfFlightLonDdmMinuteUnits()
    ensures UnitsText(false, 17812, 3) == "17.812"
  {
    MuseumOfFlightLonDdmMinuteSplit();
    Digits17();
    MuseumOfFlightLonDdmMinutePad();
    UnitsTextFrom(false, 17812, 3, 17, 812, "17", "812");
  }

  lemma MuseumOfFlightLonDdmMinuteSplit()
    ensures WholeUnits(17812, 3) == 17 && FractionUnits(17812, 3) == 812
  {
  }

  lemma MuseumOfFlightLonDdmMinutePad()
    ensures PadDigits(812, 3) == "812"
  {
  }

  lemma Digits7()
    ensures NatDigits(7) == "7"
  {
  }

  lemma MuseumOfFlightLatDmsSecondUnits()
    ensures UnitsText(false, 710, 2) == "7.10"
  {
    MuseumOfFlightLatDmsSecondSplit();
    Digits7();
    MuseumOfFlightLatDmsSecondPad();
    UnitsTextFrom(false, 710, 2, 7, 10, "7", "10");
  }

  lemma MuseumOfFlightLatDmsSecondSplit()
    ensures WholeUnits(710, 2) == 7 && FractionUnits(710, 2) == 10
  {
  }

  lemma MuseumOfFlightLatDmsSecondPad()
    ensures PadDigits(10, 2) == "10"
  {
  }

  lemma Digits48()
    ensures NatDigits(48) == "48"
  {
  }

  lemma MuseumOfFlightLonDmsSecondUnits()
    ensures UnitsText(false, 4871, 2) == "48.71"
  {
    MuseumOfFlightLonDmsSecondSplit();
    Digits48();
    MuseumOfFlightLonDmsSecondPad();
    UnitsTextFrom(false, 4871, 2, 48, 71, "48", "71");
  }

  lemma MuseumOfFlightLonDmsSecondSplit()
    ensures WholeUnits(4871, 2) == 48 && FractionUnits(4871, 2) == 71
  {
  }

  lemma MuseumOfFlightLonDmsSecondPad()
    ensures PadDigits(71, 2) == "71"
  {
  }

  lemma EiffelTowerLatDdUnits()
    ensures UnitsText(false, 48858554, 6) == "48.858554"
  {
    EiffelTowerLatDdSplit();
    Digits48();
    EiffelTowerLatDdPad();
    UnitsTextFrom(false, 48858554, 6, 48, 858554, "48", "858554");
  }

  lemma EiffelTowerLatDdSplit()
    ensures WholeUnits(48858554, 6) == 48 && FractionUnits(48858554, 6) == 858554
  {
  }

  lemma EiffelTowerLatDdPad()
    ensures PadDigits(858554, 6) == "858554"
  {
  }

  lemma Digits2()
    ensures NatDigits(2) == "2"
  {
  }

  lemma EiffelTowerLonDdUnits()
    ensures UnitsText(false, 2294481, 6) == "2.294481"
  {
    EiffelTowerLonDdSplit();
    Digits2();
    EiffelTowerLonDdPad();
    UnitsTextFrom(false, 2294481, 6, 2, 294481, "2", "294481");
  }

  lemma EiffelTowerLonDdSplit()
    ensures WholeUnits(2294481, 6) == 2 && FractionUnits(2294481, 6) == 294481
  {
  }

  lemma EiffelTowerLonDdPad()
    ensures PadDigits(294481, 6) == "294481"
  {
  }

  lemma Digits51()
    ensures NatDigits(51) == "51"
  {
  }

  lemma EiffelTowerLatDdmMinuteUnits()
    ensures UnitsText(false, 51513, 3) == "51.513"
  {
    EiffelTowerLatDdmMinuteSplit();
    Digits51();
    EiffelTowerLatDdmMinutePad();
    UnitsTextFrom(false, 51513, 3, 51, 513, "51", "513");
  }

  lemma EiffelTowerLatDdmMinuteSplit()
    ensures WholeUnits(51513, 3) == 51 && FractionUnits(51513, 3) == 513
  {
  }

  lemma EiffelTowerLatDdmMinutePad()
    ensures PadDigits(513, 3) == "513"
  {
  }

  lemma EiffelTowerLonDdmMinuteUnits()
    ensures UnitsText(false, 17669, 3) == "17.669"
  {
    EiffelTowerLonDdmMinuteSplit();
    Digits17();
    EiffelTowerLonDdmMinutePad();
    UnitsTextFrom(false, 17669, 3, 17, 669, "17", "669");
  }

  lemma EiffelTowerLonDdmMinuteSplit()
    ensures WholeUnits(17669, 3) == 17 && FractionUnits(17669, 3) == 669
  {
  }

  lemma EiffelTowerLonDdmMinutePad()
    ensures PadDigits(669, 3) == "669"
  {
  }

  lemma Digits30()
    ensures NatDigits(30) == "30"
  {
  }

  lemma EiffelTowerLatDmsSecondUnits()
    ensures UnitsText(false, 3079, 2) == "30.79"
  {
    EiffelTowerLatDmsSecondSplit();
    Digits30();
    EiffelTowerLatDmsSecondPad();
    UnitsTextFrom(false, 3079, 2, 30, 79, "30", "79");
  }

  lemma EiffelTowerLatDmsSecondSplit()
    ensures WholeUnits(3079, 2) == 30 && FractionUnits(3079, 2) == 79
  {
  }

  lemma EiffelTowerLatDmsSecondPad()
    ensures PadDigits(79, 2) == "79"
  {
  }

  lemma Digits40()
    ensures NatDigits(40) == "40"
  {
  }

  lemma EiffelTowerLonDmsSecondUnits()
    ensures UnitsText(false, 4013, 2) == "40.13"
  {
    EiffelTowerLonDmsSecondSplit();
    Digits40();
    EiffelTowerLonDmsSecondPad();
    UnitsTextFrom(false, 4013, 2, 40, 13, "40", "13");
  }

  lemma EiffelTowerLonDmsSecondSplit()
    ensures WholeUnits(4013, 2) == 40 && FractionUnits(4013, 2) == 13
  {
  }

  lemma EiffelTowerLonDmsSecondPad()
    ensures PadDigits(13, 2) == "13"
  {
  }

  lemma Digits12()
    ensures NatDigits(12) == "12"
  {
  }

  lemma Rounding12At1Units()
    ensures UnitsText(false, 123, 1) == "12.3"
  {
    Rounding12At1Split();
    Digits12();
    Rounding12At1Pad();
    UnitsTextFrom(false, 123, 1, 12, 3, "12", "3");
  }

  lemma Rounding12At1Split()
    ensures WholeUnits(123, 1) == 12 && FractionUnits(123, 1) == 3
  {
  }

  lemma Rounding12At1Pad()
    ensures PadDigits(3, 1) == "3"
  {
  }

  lemma Rounding12At2Units()
    ensures UnitsText(false, 1235, 2) == "12.35"
  {
    Rounding12At2Split();
    Digits12();
    Rounding12At2Pad();
    UnitsTextFrom(false, 1235, 2, 12, 35, "12", "35");
  }

  lemma Rounding12At2Split()
    ensures WholeUnits(1235, 2) == 12 && FractionUnits(1235, 2) == 35
  {
  }

  lemma Rounding12At2Pad()
    ensures PadDigits(35, 2) == "35"
  {
  }

  lemma Rounding12At3Units()
    ensures UnitsText(false, 12346, 3) == "12.346"
  {
    Rounding12At3Split();
    Digits12();
    Rounding12At3Pad();
    UnitsTextFrom(false, 12346, 3, 12, 346, "12", "346");
  }

  lemma Rounding12At3Split()
    ensures WholeUnits(12346, 3) == 12 && FractionUnits(12346, 3) == 346
  {
  }

  lemma Rounding12At3Pad()
    ensures PadDigits(346, 3) == "346"
  {
  }

  lemma Rounding12At4Units()
    ensures UnitsText(false, 123457, 4) == "12.3457"
  {
    Rounding12At4Split();
    Digits12();
    Rounding12At4Pad();
    UnitsTextFrom(false, 123457, 4, 12, 3457, "12", "3457");
  }

  lemma Rounding12At4Split()
    ensures WholeUnits(123457, 4) == 12 && FractionUnits(123457, 4) == 3457
  {
  }

  lemma Rounding12At4Pad()
    ensures PadDigits(3457, 4) == "3457"
  {
  }

  lemma Rounding12At5Units()
    ensures UnitsText(false, 1234568, 5) == "12.34568"
  {
    Rounding12At5Split();
    Digits12();
    Rounding12At5Pad();
    UnitsTextFrom(false, 1234568, 5, 12, 34568, "12", "34568");
  }

  lemma Rounding12At5Split()
    ensures WholeUnits(1234568, 5) == 12 && FractionUnits(1234568, 5) == 34568
  {
  }

  lemma Rounding12At5Pad()
    ensures PadDigits(34568, 5) == "34568"
  {
  }

  lemma Rounding12At6Units()
    ensures UnitsText(false, 12345679, 6) == "12.345679"
  {
    Rounding12At6Split();
    Digits12();
    Rounding12At6Pad();
    UnitsTextFrom(false, 12345679, 6, 12, 345679, "12", "345679");
  }

  lemma Rounding12At6Split()
    ensures WholeUnits(12345679, 6) == 12 && FractionUnits(12345679, 6) == 345679
  {
  }

  lemma Rounding12At6Pad()
    ensures PadDigits(345679, 6) == "345679"
  {
  }

  lemma Rounding12At7Units()
    ensures UnitsText(false, 123456789, 7) == "12.3456789"
  {
    Rounding12At7Split();
    Digits12();
    Rounding12At7Pad();
    UnitsTextFrom(false, 123456789, 7, 12, 3456789, "12", "3456789");
  }

  lemma Rounding12At7Split()
    ensures WholeUnits(123456789, 7) == 12 && FractionUnits(123456789, 7) == 3456789
  {
  }

  lemma Rounding12At7Pad()
    ensures PadDigits(3456789, 7) == "3456789"
  {
  }

  lemma Rounding12At10Units()
    ensures UnitsText(false, 123456789000, 10) == "12.3456789000"
  {
    Rounding12At10Split();
    Digits12();
    Rounding12At10Pad();
    UnitsTextFrom(false, 123456789000, 10, 12, 3456789000, "12", "3456789000");
  }

  lemma Rounding12At10Split()
    ensures WholeUnits(123456789000, 10) == 12 && FractionUnits(123456789000, 10) == 3456789000
  {
  }

  lemma Rounding12At10Pad()
    ensures PadDigits(3456789000, 10) == "3456789000"
  {
  }
}
