/** The coordinate value types and the format configuration with its presets. */
module Positions {
  import opened Numerals

  /** `position_dd`: signed decimal degrees; the sign carries the hemisphere. */
  datatype Dd = Dd(lat: real, lon: real)

  /** `position_dms`: a hemisphere letter (`lat`/`lon` in the C++ struct), whole
      degrees, whole minutes and decimal seconds per axis. */
  datatype Dms = Dms(
    latDir: char, latD: int32, latM: int32, latS: real,
    lonDir: char, lonD: int32, lonM: int32, lonS: real)

  /** `position_ddm`: a hemisphere letter, whole degrees and decimal minutes per axis. */
  datatype Ddm = Ddm(
    latDir: char, latD: int32, latM: real,
    lonDir: char, lonD: int32, lonM: real)

  /** The field values of a default-initialised struct: every letter `'\0'`,
      every number zero. */
  const DefaultDd := Dd(0.0, 0.0)
  const DefaultDms := Dms('\0', 0, 0, 0.0, '\0', 0, 0, 0.0)
  const DefaultDdm := Ddm('\0', 0, 0.0, '\0', 0, 0.0)

  /** `position_format`: symbols, separators, direction-letter display and the
      four precisions. */
  datatype PositionFormat = PositionFormat(
    degSymbol: string,
    minSymbol: string,
    secSymbol: string,
    dirIndicator: bool,
    dirIndicatorSpacer: string,
    dmSeparator: string,
    msSeparator: string,
    latPrecision: int32,
    lonPrecision: int32,
    minPrecision: int32,
    secPrecision: int32)

  /** A `position_format` with its default member initialisers. */
  const DefaultFormat := PositionFormat("°", "'", "\"", true, " ", " ", " ", 6, 6, 4, 2)

  /** The presets `position_dd_format`, `position_ddm_format`, `position_dms_format`. */
  const DdFormat := DefaultFormat.(degSymbol := "", dirIndicator := false)
  const DdmFormat := DefaultFormat.(dirIndicatorSpacer := "", dmSeparator := "", minPrecision := 3)
  const DmsFormat := DefaultFormat.(dirIndicatorSpacer := "", dmSeparator := "", secPrecision := 2)

  /** `position_display_string`. */
  datatype DisplayString = DisplayString(lat: string, lon: string)

  /** The three representations `format` accepts. */
  datatype Position = DD(dd: Dd) | DDM(ddm: Ddm) | DMS(dms: Dms)
}
