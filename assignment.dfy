/** The three coordinate structs as objects: their converting constructors and
    `operator=` overloads, which run a conversion and copy every field of the
    result into `*this`. */
module Assignment {
  import opened Numerals
  import opened Positions
  import opened Conversions

  /** `position_dd`. */
  class PositionDd {
    var lat: real
    var lon: real

    /** The struct's field values. */
    function Value(): Dd
      reads this
    {
      Dd(lat, lon)
    }

    /** `position_dd() = default`: both members take their initialisers. */
    constructor ()
      ensures Value() == DefaultDd
    {
      lat, lon := 0.0, 0.0;
    }

    /** `position_dd(double, double)`. */
    constructor FromDegrees(lat: real, lon: real)
      ensures Value() == Dd(lat, lon)
    {
      this.lat, this.lon := lat, lon;
    }

    /** `position_dd(const position_dms&)`: delegates to the assignment. */
    constructor FromDms(p: Dms)
      ensures Value() == DmsToDd(p)
    {
      new;
      var _ := AssignDms(p);
    }

    /** `position_dd(const position_ddm&)`: delegates to the assignment. */
    constructor FromDdm(p: Ddm)
      ensures Value() == DdmToDd(p)
    {
      new;
      var _ := AssignDdm(p);
    }

    /** `operator=(const position_dms&)`: the object now holds the signed
        degrees of `p`; a canonical `p` is recovered by converting back. */
    method AssignDms(p: Dms) returns (self: PositionDd)
      modifies this
      ensures self == this
      ensures Value() == DmsToDd(p)
      ensures IsCanonicalDms(p) ==>
        CastsToInt32(Abs(lat)) && CastsToInt32(Abs(lon)) && DdToDms(Value()) == p
    {
      var q := DmsToDd(p);
      lat := q.lat;
      lon := q.lon;
      if IsCanonicalDms(p) {
        CanonicalDmsRoundTrip(p);
      }
      self := this;
    }

    /** `operator=(const position_ddm&)`: the object now holds the signed
        degrees of `p`; a canonical `p` is recovered by converting back. */
    method AssignDdm(p: Ddm) returns (self: PositionDd)
      modifies this
      ensures self == this
      ensures Value() == DdmToDd(p)
      ensures IsCanonicalDdm(p) ==>
        CastsToInt32(Abs(lat)) && CastsToInt32(Abs(lon)) && DdToDdm(Value()) == p
    {
      var q := DdmToDd(p);
      lat := q.lat;
      lon := q.lon;
      if IsCanonicalDdm(p) {
        CanonicalDdmRoundTrip(p);
      }
      self := this;
    }
  }

  /** `position_dms`; `latDir`/`lonDir` are the C++ members `lat`/`lon`. */
  class PositionDms {
    var latDir: char
    var latD: int32
    var latM: int32
    var latS: real
    var lonDir: char
    var lonD: int32
    var lonM: int32
    var lonS: real

    /** The struct's field values. */
    function Value(): Dms
      reads this
    {
      Dms(latDir, latD, latM, latS, lonDir, lonD, lonM, lonS)
    }

    /** `position_dms() = default`. */
    constructor ()
      ensures Value() == DefaultDms
    {
      latDir, latD, latM, latS := '\0', 0, 0, 0.0;
      lonDir, lonD, lonM, lonS := '\0', 0, 0, 0.0;
    }

    /** `position_dms(const position_dd&)`: delegates to the assignment. */
    constructor FromDd(p: Dd)
      requires CastsToInt32(Abs(p.lat)) && CastsToInt32(Abs(p.lon))
      ensures Value() == DdToDms(p)
    {
      new;
      var _ := AssignDd(p);
    }

    /** `position_dms(const position_ddm&)`: delegates to the assignment. */
    constructor FromDdm(p: Ddm)
      requires CastsToInt32(p.latM) && CastsToInt32(p.lonM)
      ensures Value() == DdmToDms(p)
    {
      new;
      var _ := AssignDdm(p);
    }

    /** `operator=(const position_dd&)`: every field is rewritten from the
        conversion, and converting the object back gives `p` again. */
    method AssignDd(p: Dd) returns (self: PositionDms)
      requires CastsToInt32(Abs(p.lat)) && CastsToInt32(Abs(p.lon))
      modifies this
      ensures self == this
      ensures Value() == DdToDms(p)
      ensures DmsToDd(Value()) == p
    {
      var q := DdToDms(p);
      latDir := q.latDir;
      latD := q.latD;
      latM := q.latM;
      latS := q.latS;
      lonDir := q.lonDir;
      lonD := q.lonD;
      lonM := q.lonM;
      lonS := q.lonS;
      DdDmsRoundTrip(p);
      self := this;
    }

    /** `operator=(const position_ddm&)`: every field is rewritten from the
        conversion, and converting the object back gives `p` again. */
    method AssignDdm(p: Ddm) returns (self: PositionDms)
      requires CastsToInt32(p.latM) && CastsToInt32(p.lonM)
      modifies this
      ensures self == this
      ensures Value() == DdmToDms(p)
      ensures DmsToDdm(Value()) == p
    {
      var q := DdmToDms(p);
      latDir := q.latDir;
      latD := q.latD;
      latM := q.latM;
      latS := q.latS;
      lonDir := q.lonDir;
      lonD := q.lonD;
      lonM := q.lonM;
      lonS := q.lonS;
      DdmDmsRoundTrip(p);
      self := this;
    }
  }

  /** `position_ddm`; `latDir`/`lonDir` are the C++ members `lat`/`lon`. */
  class PositionDdm {
    var latDir: char
    var latD: int32
    var latM: real
    var lonDir: char
    var lonD: int32
    var lonM: real

    /** The struct's field values. */
    function Value(): Ddm
      reads this
    {
      Ddm(latDir, latD, latM, lonDir, lonD, lonM)
    }

    /** `position_ddm() = default`. */
    constructor ()
      ensures Value() == DefaultDdm
    {
      latDir, latD, latM := '\0', 0, 0.0;
      lonDir, lonD, lonM := '\0', 0, 0.0;
    }

    /** `position_ddm(const position_dd&)`: delegates to the assignment. */
    constructor FromDd(p: Dd)
      requires CastsToInt32(Abs(p.lat)) && CastsToInt32(Abs(p.lon))
      ensures Value() == DdToDdm(p)
    {
      new;
      var _ := AssignDd(p);
    }

    /** `position_ddm(const position_dms&)`: delegates to the assignment. */
    constructor FromDms(p: Dms)
      ensures Value() == DmsToDdm(p)
    {
      new;
      var _ := AssignDms(p);
    }

    /** `operator=(const position_dd&)`: every field is rewritten from the
        conversion, and converting the object back gives `p` again. */
    method AssignDd(p: Dd) returns (self: PositionDdm)
      requires CastsToInt32(Abs(p.lat)) && CastsToInt32(Abs(p.lon))
      modifies this
      ensures self == this
      ensures Value() == DdToDdm(p)
      ensures DdmToDd(Value()) == p
    {
      var q := DdToDdm(p);
      latDir := q.latDir;
      latD := q.latD;
      latM := q.latM;
      lonDir := q.lonDir;
      lonD := q.lonD;
      lonM := q.lonM;
      DdDdmRoundTrip(p);
      self := this;
    }

    /** `operator=(const position_dms&)`: every field is rewritten from the
        conversion; a `p` whose minutes are non-negative and whose seconds lie
        in `[0, 60)` is recovered by converting back. */
    method AssignDms(p: Dms) returns (self: PositionDdm)
      modifies this
      ensures self == this
      ensures Value() == DmsToDdm(p)
      ensures 0 <= p.latM && 0.0 <= p.latS < 60.0 && 0 <= p.lonM && 0.0 <= p.lonS < 60.0 ==>
        CastsToInt32(latM) && CastsToInt32(lonM) && DdmToDms(Value()) == p
    {
      var q := DmsToDdm(p);
      latDir := q.latDir;
      latD := q.latD;
      latM := q.latM;
      lonDir := q.lonDir;
      lonD := q.lonD;
      lonM := q.lonM;
      if 0 <= p.latM && 0.0 <= p.latS < 60.0 && 0 <= p.lonM && 0.0 <= p.lonS < 60.0 {
        DmsDdmRoundTrip(p);
      }
      self := this;
    }
  }
}
