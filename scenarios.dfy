/** The conversion tests replayed on the struct objects: each converting
    initialisation `position_x x = y;` runs the matching constructor. */
module Scenarios {
  import opened Numerals
  import opened Positions
  import opened Conversions
  import opened Assignment
  import opened Fixtures

  /** DD to DDM, then the DDM to DD and to DMS: the DD comes back unchanged
      and the DMS is the direct conversion of the DD. */
  method DdmPositionConversions() returns (dd: Dd, dms: Dms)
    ensures dd == SpaceNeedle
    ensures dms == Dms('N', 47, 37, 13.8, 'W', 122, 20, 57.48)
  {
    var original := new PositionDd.FromDegrees(47.6205, -122.3493);
    var ddm := new PositionDdm.FromDd(original.Value());
    ConversionsCommute(SpaceNeedle);
    var back := new PositionDd.FromDdm(ddm.Value());
    var viaDdm := new PositionDms.FromDdm(ddm.Value());
    DdDdmRoundTrip(SpaceNeedle);
    SpaceNeedleDms();
    dd, dms := back.Value(), viaDdm.Value();
  }

  /** DD to DMS, then the DMS to DD and to DDM: the DD comes back unchanged
      and the DDM is the direct conversion of the DD. */
  method DmsPositionConversions() returns (dd: Dd, ddm: Ddm)
    ensures dd == SpaceNeedle
    ensures ddm == Ddm('N', 47, 37.23, 'W', 122, 20.958)
  {
    var original := new PositionDd.FromDegrees(47.6205, -122.3493);
    var dms := new PositionDms.FromDd(original.Value());
    var back := new PositionDd.FromDms(dms.Value());
    var viaDms := new PositionDdm.FromDms(dms.Value());
    DdDmsRoundTrip(SpaceNeedle);
    ConversionsCommute(SpaceNeedle);
    SpaceNeedleDdm();
    dd, ddm := back.Value(), viaDms.Value();
  }

  /** DD to DDM and to DMS: the letters, degrees and minutes the test expects,
      and minutes and seconds within its lower bounds and at its upper ones. */
  method DdPositionConversions() returns (ddm: Ddm, dms: Dms)
    ensures ddm.latDir == 'N' && ddm.latD == 47 && 37.2299999 <= ddm.latM <= 37.23
    ensures ddm.lonDir == 'W' && ddm.lonD == 122 && 20.957999 <= ddm.lonM <= 20.958
    ensures dms.latDir == 'N' && dms.latD == 47 && dms.latM == 37 && 13.7999999 <= dms.latS <= 13.8
    ensures dms.lonDir == 'W' && dms.lonD == 122 && dms.lonM == 20 && 57.4799999 <= dms.lonS <= 57.48
  {
    var dd := new PositionDd.FromDegrees(47.6205, -122.3493);
    var x := new PositionDdm.FromDd(dd.Value());
    var y := new PositionDms.FromDd(dd.Value());
    SpaceNeedleDdm();
    SpaceNeedleDms();
    ddm, dms := x.Value(), y.Value();
  }
}
