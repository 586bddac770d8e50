# position-lib in Dafny

A model of the position library in `position.hpp`. The library holds a geographic
position in three notations:

- decimal degrees (`position_dd`), signed;
- degrees, minutes and seconds (`position_dms`), as a magnitude plus a hemisphere letter;
- degrees and decimal minutes (`position_ddm`), with the same sign rule as DMS.

The library converts among the three, and renders any of them as a pair of display
strings under a `position_format` configuration.

The model has these modules:

- `Numerals` (numerals.dfy): the integer and decimal text machinery the library gets
  from the C++ standard library. It covers:
  - `modf` and `(int)` truncation toward zero, with `int` as a 32-bit `newtype`;
  - `std::to_string` for integers;
  - a reader for plain decimal text, standing in for `std::stod`.
- `Positions` (positions.dfy): the three structs, `position_format` with its default
  member values, the three presets, `position_display_string`, and a three-variant
  `Position` datatype for the types `format<T>` accepts.
- `Conversions` (conversions.dfy): the scalar `dd_to_dms(double)` and `dd_to_ddm(double)`,
  and the six `detail::` conversions, as functions over exact reals.
- `NumberFormat` (number_format.dfy): `format_number_to_string` and `format_number`.
  - Precision 0 gives the integer text of the value truncated toward zero.
  - Any other precision gives `std::fixed` text. It is the exact value rounded half to
    even at `p` fraction digits (6 when the precision is negative), printed with a minus
    sign exactly when the value is negative.
- `Render` (render.dfy): `format<T>` as a function from a position and a format to a
  display string, with the structural properties of its output.
- `Assignment` (assignment.dfy): the structs as classes whose fields the converting
  constructors and `operator=` overloads rewrite in place.
- `Fixtures` (fixtures.dfy): the exact outputs the library's tests expect. It covers the
  number formatting example and the three landmark renderings, derived from the model.
- `Scenarios` (scenarios.dfy): the conversion tests replayed on the class objects.

This model follows the code at two points worth knowing:

- `position_format::ms_separator` is declared but no branch of `format` reads it.
  `Render.MsSeparatorIsUnused` states that.
- The DMS minute goes through `std::to_string`, not through the number formatter.
  `min_precision` therefore has no effect on DMS output.

Reading the DDM decimal minute back with `ddm_to_dms` recovers a DMS value when its
minutes are non-negative and its seconds lie in [0, 60) (`Conversions.DmsDdmRoundTrip`).
That condition is sufficient, not necessary. Without some condition the round trip can
fail: `Conversions.NegativeMinuteChangesFields` gives a value that does not come back.
Minute -2 with second 30 returns as minute -1 with second -30, the same angle in other
fields.

## Model

| member | source | states |
|---|---|---|
| Numerals.Trunc | position.hpp:384-386 | The integral part `modf` stores truncates toward zero: it lies within 1 of the value, on the side of zero. |
| Numerals.CastToInt32 | position.hpp:386 | `(int)` of a double in range keeps the magnitude's integral part and the sign, unless the result is 0. |
| Numerals.NatDigitsMeaning | position.hpp:386 | The decimal digits of a natural number are all digits, have no leading zero, and denote that number. |
| Numerals.PadDigitsMeaning | position.hpp:391 | Zero-padded digits of a number below `10^width` are all digits and denote that number. |
| Numerals.IntToString | position.hpp:386 | `std::to_string(int)`, also used for the degrees at position.hpp:215, 225, 238 and 250 and for the DMS minutes at position.hpp:241 and 253: the text is never empty and starts with '-' exactly when the integer is negative. What it denotes is stated by `IntToStringValue` and `IntToStringInjective`. |
| Numerals.IntToStringShape | position.hpp:386 | `std::to_string(int)` is an optional minus sign followed by digits with no leading zero, with no "-0" and no point. |
| Numerals.IntToStringValue | position.hpp:386 | Reading the text of `std::to_string(i)` back gives `i`. |
| Numerals.IntToStringInjective | position.hpp:386 | Distinct integers have distinct texts. |
| Numerals.DecimalValue | position.hpp:400 | `std::stod` on the text the formatter produces: an optional '-', digits, and and an optional point followed by zero or more digits, read as an exact real; any other text is `None`. It is specified only through what it returns for the formatter's output (`IntToStringValue`, `UnitsTextValue`); its limits are listed under "Left out". |
| Numerals.UnitsSplit | position.hpp:391 | A count of units of `10^-k` splits into whole units and a remainder below `10^k`. |
| Conversions.Signed | position.hpp:444-445 | The magnitude is negated exactly when the letter is the negative hemisphere's. |
| Conversions.ScalarDdToDms | position.hpp:488-508 | For every `dd` whose degree fits an `int`: degree >= 0, minute in [0,60), second in [0,60), and `d + m/60 + s/3600 == abs(dd)`. |
| Conversions.ScalarDmsUnique | position.hpp:488-508 | The decomposition is the only triple within those bounds that denotes `abs(dd)`. |
| Conversions.ScalarDdToDdm | position.hpp:469-476 | The same degree as the DMS decomposition, and a decimal minute in [0,60) equal to the fraction of `abs(dd)` times 60. |
| Conversions.DdToDms | position.hpp:478-486 | The latitude letter is 'N' iff `lat > 0`, else 'S'. The longitude letter is 'E' iff `lon > 0`, else 'W'. Each axis's fields are within bounds and denote the absolute coordinate. |
| Conversions.DdToDdm | position.hpp:459-467 | The same letter rule; degree and decimal minute within bounds, denoting the absolute coordinate. |
| Conversions.DmsToDd | position.hpp:449-457 | The magnitude is `d + m/60 + s/3600`. Latitude is negated exactly for 'S' and longitude exactly for 'W'. Any other letter, including '\0', gives the positive value. |
| Conversions.DdmToDd | position.hpp:439-447 | The magnitude is `d + m/60`, with the same sign rule. |
| Conversions.DmsToDdm | position.hpp:413-423 | Letters and degrees are copied. The decimal minute denotes the same angle, and stays in [0,60) when minute and second are within bounds. |
| Conversions.DdmToDms | position.hpp:425-437 | Letters and degrees are copied, and the angle is kept. A non-negative decimal minute gives minute >= 0 and second in [0,60). A negative one gives minute <= 0 and second in (-60,0]. |
| Conversions.ZeroIsSouthWest | position.hpp:464-465 | 0.0 maps to 'S' and 'W' with all-zero fields, in both DMS and DDM. |
| Conversions.DdDmsRoundTrip | position.hpp:449-457 | `dms_to_dd(dd_to_dms(p)) == p` for every `p`, including 0. |
| Conversions.DdDdmRoundTrip | position.hpp:439-447 | `ddm_to_dd(dd_to_ddm(p)) == p` for every `p`, including 0. |
| Conversions.DmsDdmRoundTrip | position.hpp:413-437 | `ddm_to_dms(dms_to_ddm(x)) == x` whenever both minutes are non-negative and both seconds lie in [0,60). |
| Conversions.NegativeMinuteChangesFields | position.hpp:425-437 | The round trip changes a DMS value whose minute is negative and whose second is positive. |
| Conversions.DdmDmsRoundTrip | position.hpp:413-437 | `dms_to_ddm(ddm_to_dms(y)) == y` for every DDM value whose minutes `(int)` can truncate. |
| Conversions.ConversionsCommute | position.hpp:413-486 | Converting DD to DMS and then to DDM gives the direct DD to DDM result, and the same holds the other way round. |
| Conversions.DdFromDmsAgrees | position.hpp:413-457 | DMS to DD directly and via DDM agree. |
| Conversions.DdToDmsIsCanonical | position.hpp:478-486 | `dd_to_dms` gives letters N/S and E/W, fields within bounds, and a zero magnitude only with 'S' or 'W'. |
| Conversions.DdToDdmIsCanonical | position.hpp:459-467 | `dd_to_ddm` gives letters N/S and E/W, fields within bounds, and a zero magnitude only with 'S' or 'W'. |
| Conversions.CanonicalDmsRoundTrip | position.hpp:449-486 | Every value of that canonical form comes back through `dms_to_dd` then `dd_to_dms`. |
| Conversions.CanonicalDdmRoundTrip | position.hpp:439-467 | Every value of that canonical form comes back through `ddm_to_dd` then `dd_to_ddm`. |
| NumberFormat.FixedText | position.hpp:390-392 | The `std::fixed` text of a number at `p >= 1` digits: the sign, then the rounded unit count as whole digits, a point and `p` fraction digits. Its properties are the `UnitsText*` and `RoundedIsNearest` lemmas below. |
| NumberFormat.FixedDigits | position.hpp:391 | A positive precision is the digit count; a negative one means 6. |
| NumberFormat.RoundHalfEven | position.hpp:391 | The result is within 1/2 of the value, and even on a tie. |
| NumberFormat.UnitsTextShape | position.hpp:391 | Fixed text has exactly `p` digits after its point and starts with '-' exactly when negative. |
| NumberFormat.UnitsTextWhole | position.hpp:391 | Between the sign and the point, fixed text has one or more digits with no leading zero. |
| NumberFormat.UnitsTextValue | position.hpp:391 | Reading fixed text back gives the value of its units. |
| NumberFormat.RoundedIsNearest | position.hpp:391 | The printed value is a multiple of `10^-p` within half a unit of the number. |
| NumberFormat.RoundedTieIsEven | position.hpp:391 | When the printed value lies exactly half a unit from the number, the last printed digit is even. |
| NumberFormat.FormatNumberToString | position.hpp:379-395 | `format_number_to_string`, with the precision defaulting to 2 as declared at position.hpp:191. Precision 0 goes through `modf`, the `(int)` cast and `to_string`; any other precision goes through `FixedText`. Its meaning is stated by `FormatNumberToStringMeaning`. |
| NumberFormat.FormatNumberToStringMeaning | position.hpp:379-395 | Precision 0 gives integer text denoting the value truncated toward zero. Any other precision gives a minus sign exactly for negative numbers, a whole part with no leading zero, the precision's count of fraction digits, and a value nearest the number at that many places, whose last digit is even when the number lies exactly midway between two such values. Away from a tie these fix the text; at a tie the even last digit picks the neighbour. |
| NumberFormat.FormatNumberChars | position.hpp:379-395 | The output holds only digits, '-' and '.'. |
| NumberFormat.FormatNumber | position.hpp:397-401 | `stod` of the text is the truncated value at precision 0, and otherwise a nearest multiple of `10^-p`. The precision defaults to 2, as declared at position.hpp:190. |
| Render.Format | position.hpp:201-265 | `format<T>`: DD axes are the formatted number and `deg_symbol`; DDM and DMS axes are built by `DdmAxis` and `DmsAxis`. Its properties are the `Render` lemmas below. |
| Render.DdText | position.hpp:208-211 | One DD axis: `format_number_to_string` of the value at its axis precision, then `deg_symbol`. |
| Render.DdmAxis | position.hpp:215-234 | One DDM axis: `to_string(deg)`, `deg_symbol`, `dm_separator`, the minute at `min_precision`, `min_symbol`, and the spacer and letter when `dir_indicator` is set. |
| Render.DmsAxis | position.hpp:238-261 | One DMS axis: `to_string(deg)`, `deg_symbol`, `dm_separator`, `to_string(min)`, `min_symbol`, the second at `sec_precision`, `sec_symbol`, and the spacer and letter when `dir_indicator` is set. |
| Render.DdTextChars | position.hpp:208-211 | A DD axis holds only numeral characters and characters of `deg_symbol`. |
| Render.DdCarriesNoDirection | position.hpp:206-212 | DD output holds only numeral and `deg_symbol` characters, so no hemisphere letter unless `deg_symbol` holds one. It is the same whatever `dir_indicator` and `dir_indicator_spacer` are. |
| Render.LetterEndsAxis | position.hpp:213-262 | With `dir_indicator` set, each DDM/DMS axis ends with its hemisphere letter. |
| Render.DirectionIsAppended | position.hpp:213-262 | With `dir_indicator` set, each DDM/DMS axis is its rendering with the indicator off, followed by the spacer and the letter. |
| Render.UnitSymbolEndsWithoutDirection | position.hpp:213-262 | With `dir_indicator` unset, a DDM axis ends with `min_symbol` and a DMS axis with `sec_symbol`. |
| Render.DegreeReadsBack | position.hpp:213-262 | Each DDM/DMS axis starts with `to_string(deg) ++ deg_symbol ++ dm_separator`, and its leading integer text reads back as the degree. |
| Render.DmsMinuteIsPlainInteger | position.hpp:238-241 | In DMS, the text right after the degree part is `to_string(minute)`. |
| Render.DmsIgnoresOtherPrecisions | position.hpp:236-262 | DMS output does not depend on `min_precision`, `lat_precision` or `lon_precision`. |
| Render.MsSeparatorIsUnused | position.hpp:201-265 | No output depends on `ms_separator`. |
| Assignment.PositionDd.constructor | position.hpp:82-87 | A default `position_dd` is (0.0, 0.0). |
| Assignment.PositionDd.FromDegrees | position.hpp:269-273 | The object holds the two given values. |
| Assignment.PositionDd.FromDms | position.hpp:275-278 | The object holds `dms_to_dd(p)`. |
| Assignment.PositionDd.FromDdm | position.hpp:288-291 | The object holds `ddm_to_dd(p)`. |
| Assignment.PositionDd.AssignDms | position.hpp:280-286 | After the assignment the object holds `dms_to_dd(p)`, and converting it back gives a canonical `p` again. |
| Assignment.PositionDd.AssignDdm | position.hpp:293-299 | After the assignment the object holds `ddm_to_dd(p)`, and converting it back gives a canonical `p` again. |
| Assignment.PositionDms.constructor | position.hpp:95-106 | A default `position_dms` has '\0' letters and zero numbers. |
| Assignment.PositionDms.FromDd | position.hpp:301-304 | The object holds `dd_to_dms(p)`. |
| Assignment.PositionDms.FromDdm | position.hpp:320-323 | The object holds `ddm_to_dms(p)`. |
| Assignment.PositionDms.AssignDd | position.hpp:306-318 | Every field is rewritten to `dd_to_dms(p)`, and `dms_to_dd` of the object is `p`. |
| Assignment.PositionDms.AssignDdm | position.hpp:325-337 | Every field is rewritten to `ddm_to_dms(p)`, and `dms_to_ddm` of the object is `p`. |
| Assignment.PositionDdm.constructor | position.hpp:113-122 | A default `position_ddm` has '\0' letters and zero numbers. |
| Assignment.PositionDdm.FromDd | position.hpp:339-342 | The object holds `dd_to_ddm(p)`. |
| Assignment.PositionDdm.FromDms | position.hpp:356-359 | The object holds `dms_to_ddm(p)`. |
| Assignment.PositionDdm.AssignDd | position.hpp:344-354 | Every field is rewritten to `dd_to_ddm(p)`, and `ddm_to_dd` of the object is `p`. |
| Assignment.PositionDdm.AssignDms | position.hpp:361-371 | Every field is rewritten to `dms_to_ddm(p)`. With non-negative minutes and seconds in [0,60), `ddm_to_dms` of the object is `p`. |
| Scenarios.DdmPositionConversions | tests/position_tests.cpp:12-19 | DD to DDM and back gives the original DD, and DDM to DMS gives the exact DMS of the Space Needle. |
| Scenarios.DmsPositionConversions | tests/position_tests.cpp:21-28 | DD to DMS and back gives the original DD, and DMS to DDM gives the exact DDM of the Space Needle. |
| Scenarios.DdPositionConversions | tests/position_tests.cpp:30-51 | The letters, degrees and whole minutes the test expects; decimal minutes and seconds within its bounds. |
| Fixtures.TruncatingExamples | tests/position_tests.cpp:56 | Precision 0 gives "12" for 12.3456789, truncating toward zero: -12.9 gives "-12" and -0.5 gives "0". |
| Fixtures.DefaultPrecision | position.hpp:190-191 | Without a precision argument, 12.3456789 formats as "12.35" and `format_number` gives 12.35. |
| Fixtures.Rounding12At1 | tests/position_tests.cpp:57 | 12.3456789 at precision 1 is "12.3". |
| Fixtures.Rounding12At2 | tests/position_tests.cpp:58 | 12.3456789 at precision 2 is "12.35". |
| Fixtures.Rounding12At3 | tests/position_tests.cpp:59 | 12.3456789 at precision 3 is "12.346". |
| Fixtures.Rounding12At4 | tests/position_tests.cpp:60 | 12.3456789 at precision 4 is "12.3457". |
| Fixtures.Rounding12At5 | tests/position_tests.cpp:61 | 12.3456789 at precision 5 is "12.34568". |
| Fixtures.Rounding12At6 | tests/position_tests.cpp:62 | 12.3456789 at precision 6 is "12.345679". |
| Fixtures.Rounding12At7 | tests/position_tests.cpp:63 | 12.3456789 at precision 7 is "12.3456789". |
| Fixtures.Rounding12At10 | tests/position_tests.cpp:64 | 12.3456789 at precision 10 is "12.3456789000". |
| Fixtures.SpaceNeedleDdm | tests/position_tests.cpp:33-40 | The DDM of (47.6205, -122.3493) is N 47 37.23, W 122 20.958. |
| Fixtures.SpaceNeedleDms | tests/position_tests.cpp:42-50 | The DMS of (47.6205, -122.3493) is N 47 37 13.8, W 122 20 57.48. |
| Fixtures.SpaceNeedleDdFormat | tests/position_tests.cpp:73-75 | `format(dd, position_dd_format)` gives "47.620500" and "-122.349300". |
| Fixtures.SpaceNeedleDdmFormat | tests/position_tests.cpp:77-79 | `format(ddm, position_ddm_format)` gives "47°37.230'N" and "122°20.958'W". |
| Fixtures.SpaceNeedleDmsFormat | tests/position_tests.cpp:81-83 | `format(dms, position_dms_format)` gives "47°37'13.80\"N" and "122°20'57.48\"W". |
| Fixtures.MuseumOfFlightDdm | tests/position_tests.cpp:88-89 | The exact DDM of the Museum of Flight coordinates. |
| Fixtures.MuseumOfFlightDms | tests/position_tests.cpp:88-90 | The exact DMS of the Museum of Flight coordinates. |
| Fixtures.MuseumOfFlightDdFormat | tests/position_tests.cpp:92-94 | DD rendering "47.518638" and "-122.296864". |
| Fixtures.MuseumOfFlightDdmFormat | tests/position_tests.cpp:96-98 | DDM rendering "47°31.118'N" and "122°17.812'W". |
| Fixtures.MuseumOfFlightDmsFormat | tests/position_tests.cpp:100-102 | DMS rendering "47°31'7.10\"N" and "122°17'48.71\"W". |
| Fixtures.EiffelTowerDdm | tests/position_tests.cpp:107-108 | The exact DDM of the Eiffel Tower coordinates. |
| Fixtures.EiffelTowerDms | tests/position_tests.cpp:107-109 | The exact DMS of the Eiffel Tower coordinates. |
| Fixtures.EiffelTowerDdFormat | tests/position_tests.cpp:111-113 | DD rendering "48.858554" and "2.294481". |
| Fixtures.EiffelTowerDdmFormat | tests/position_tests.cpp:115-117 | DDM rendering "48°51.513'N" and "2°17.669'E". |
| Fixtures.EiffelTowerDmsFormat | tests/position_tests.cpp:123-125 | DMS rendering "48°51'30.79\"N" and "2°17'40.13\"E". |

## Left out

- Doubles are exact reals. The model has no NaN, no infinity, no negative zero and no binary rounding in the conversions. The 1e-6 tolerance that floating point forces on round trips is not needed, and the model does not state it.
- The `(int)` casts are undefined in C++ when the value does not fit. Every function that casts requires that the truncated value fits a 32-bit `int`.
- `std::fixed << std::setprecision(p)` prints the exact binary value of a double, rounded as the C library's `printf` rounds it; glibc rounds that exact value in the current rounding mode, to nearest with ties to even by default. The model rounds the exact real half to even, so it agrees with glibc wherever the double is exactly the written decimal; another C library may break ties differently.
- `std::stod` is modelled only for the text the formatter produces: an optional '-', digits, and an optional point with digits. Exponents, leading spaces and hexadecimal input are not modelled.
- The `stringstream` and the successive `append` calls are stated as concatenation; `format` is a function, not a string-building loop.
- `Render.Format` requires that every precision-0 field it formats fits an `int`, since the C++ cast is undefined otherwise.
- The degree symbol "°" is one character in the model. In the C++ source it is a multi-byte UTF-8 sequence; no stated property depends on its length.
- `position_ddm_short_format` is used in tests/position_tests.cpp:119-121 but not defined in position.hpp, so the model has no such preset and no fixture for it.
- Scenarios.DdPositionConversions: the test's strict bounds `lat_m < 37.23` and `lon_m < 20.958` (tests/position_tests.cpp:37, 40) come from double rounding. Over exact reals the minutes equal those bounds, so the model states `<=`.
- `operator=` returns `*this` by reference. The methods return the object itself.
- C++ scaffolding is not modelled: the namespace and inline macros, the `IsAnyOf` concept (replaced by the `Position` datatype), the forward declarations and the test runner's `main`.
