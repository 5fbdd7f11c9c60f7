/** The `GPS` class, of which gps.py, sattrack.py and sat-track.py hold
    identical copies: it keeps the last observer fix read from the receiver.
    The serial port, its address and baud rate, and the Skyfield time scale
    the constructor opens are outside the model. */
module Gps {
  import opened Common
  import opened Nmea

  class Gps {
    /** `self.position`: the empty dictionary `{}` is None. */
    var position: Option<Fix>

    /** `get_pos`: the stored position, read without changing anything. */
    function GetPos(): Option<Fix>
      reads this
    {
      position
    }

    /** `calc_diff`: the look angle from the stored position (see LookFrom). */
    function CalcDiff(observe: Observe, sat: Tle, now: Time): Result<LookAngle>
      reads this
    {
      LookFrom(position, observe, sat, now)
    }

    /** A new tracker has no position yet. */
    constructor ()
      ensures GetPos() == None
    {
      position := None;
    }

    /** `update_pos`: forget the stored position, then read until the first
        GGA sentence and store its fix. The outcome says how the call ended
        (Python returns nothing); when it ends other than with a fix, the
        position stays empty, so a refresh never keeps an older fix. */
    method UpdatePos(stream: seq<Read>) returns (outcome: ScanResult)
      modifies this
      ensures outcome == Scan(stream)
      ensures GetPos() == if outcome.Found? then Some(outcome.fix) else None
    {
      position := None;
      outcome := AwaitFix(stream);
      if outcome.Found? {
        position := Some(outcome.fix);
      }
    }
  }
}
