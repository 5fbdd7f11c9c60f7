/** Selecting the observer fix from the receiver's NMEA 0183 stream: the
    reading loop shared, line for line, by `GPS.update_pos` and
    `PiSat.update_pos`. The serial port and the pynmea2 parser are outside
    the model; what they deliver is a sequence of reads, one per
    `_read_line()` call. */
module Nmea {
  import opened Common
  import opened Builtins

  /** A sentence as pynmea2 presents it. `lat` and `lon` are the raw
      `ddmm.mmmm` fields as numbers, or None when `float()` rejects the field
      (a GGA sentence sent before the receiver has a fix has empty fields). */
  datatype Sentence = Sentence(
    identifier: string,
    lat: Option<real>, latDir: string,
    lon: Option<real>, lonDir: string,
    altitude: real)

  /** One `_read_line()` call: the parsed sentence, or None when the call
      caught a SerialException or a ParseError and so returned nothing. */
  type Read = Option<Sentence>

  /** The test `identifier()[2:5] == 'GGA'` (global positioning system fix data). */
  predicate IsGga(identifier: string) { Slice(identifier, 2, 5) == "GGA" }

  /** Identifiers shorter than five characters are never GGA: the slice of a
      short string is short, not an error. */
  lemma IsGgaExactly(identifier: string)
    ensures IsGga(identifier) <==> |identifier| >= 5 && identifier[2..5] == "GGA"
  {
    if |identifier| >= 5 {
      assert Slice(identifier, 2, 5) == identifier[2..5];
    } else {
      assert |Slice(identifier, 2, 5)| < 3;
    }
  }

  /** A raw coordinate divided by 100 and negated in the negative hemisphere
      (`'S'` for latitude, `'W'` for longitude). This is the code's rule; it
      is not a conversion of degrees and minutes to degrees. */
  function Hemisphere(raw: real, dir: string, negative: string): (v: real)
    ensures (if dir == negative then -v else v) * 100.0 == raw
  {
    var v := raw / 100.0;
    if dir == negative then -v else v
  }

  /** The fix a GGA sentence yields, or the ValueError of `float()` on an
      unusable latitude or longitude field (the latitude is converted first). */
  function Decode(s: Sentence): (r: Result<Fix>)
    ensures r.Ok? <==> s.lat.Some? && s.lon.Some?
    ensures r.Err? ==> r.fault == BadNumber
    ensures r.Ok? ==> r.value.alt == s.altitude
    ensures r.Ok? ==> (if s.latDir == "S" then -r.value.lat else r.value.lat) * 100.0 == s.lat.value
    ensures r.Ok? ==> (if s.lonDir == "W" then -r.value.lon else r.value.lon) * 100.0 == s.lon.value
  {
    if s.lat.None? || s.lon.None? then Err(BadNumber)
    else Ok(Fix(Hemisphere(s.lat.value, s.latDir, "S"), Hemisphere(s.lon.value, s.lonDir, "W"), s.altitude))
  }

  /** How one `update_pos` call ends: with the fix taken from read `at`, with
      an exception raised while handling read `at`, or still reading because
      every read delivered so far was skipped (the source goes on reading
      lines beyond those given). */
  datatype ScanResult = Found(fix: Fix, at: nat) | Crashed(fault: Fault, at: nat) | Pending

  /** A read the loop passes over: a sentence that is not GGA. A failed read
      (None) is not skipped. */
  predicate Skipped(read: Read) { read.Some? && !IsGga(read.value.identifier) }

  /** How the loop ends on a read it does not skip. */
  function Settle(read: Read, at: nat): ScanResult
    requires !Skipped(read)
  {
    match read
    case None => Crashed(NoRecord, at)
    case Some(s) =>
      match Decode(s)
      case Ok(fix) => Found(fix, at)
      case Err(e) => Crashed(e, at)
  }

  /** The reference definition of the loop, from read `i` on. */
  function ScanFrom(stream: seq<Read>, i: nat): ScanResult
    requires i <= |stream|
    decreases |stream| - i
  {
    if i == |stream| then Pending
    else if Skipped(stream[i]) then ScanFrom(stream, i + 1)
    else Settle(stream[i], i)
  }

  function Scan(stream: seq<Read>): ScanResult { ScanFrom(stream, 0) }

  /** The index of the first read from `i` on that the loop does not skip,
      or `|stream|` when it skips them all. */
  function FirstStop(stream: seq<Read>, i: nat): (k: nat)
    requires i <= |stream|
    ensures i <= k <= |stream|
    ensures forall j :: i <= j < k ==> Skipped(stream[j])
    ensures k < |stream| ==> !Skipped(stream[k])
    decreases |stream| - i
  {
    if i == |stream| || !Skipped(stream[i]) then i else FirstStop(stream, i + 1)
  }

  /** The loop ends on the first read that is not a skipped sentence, and
      keeps reading exactly when there is none. */
  lemma {:induction false} ScanFromStops(stream: seq<Read>, i: nat)
    requires i <= |stream|
    ensures var k := FirstStop(stream, i);
            ScanFrom(stream, i) == if k == |stream| then Pending else Settle(stream[k], k)
    decreases |stream| - i
  {
    if i < |stream| && Skipped(stream[i]) {
      ScanFromStops(stream, i + 1);
    }
  }

  /** Summary of `update_pos` over the reads seen: it keeps reading exactly
      when every read is a non-GGA sentence; otherwise the first read that is
      not one decides: a GGA sentence gives its fix or, with an unusable
      coordinate, raises ValueError; a failed read raises AttributeError. */
  lemma ScanSpec(stream: seq<Read>)
    ensures Scan(stream) == Pending <==> forall j :: 0 <= j < |stream| ==> Skipped(stream[j])
    ensures Scan(stream).Found? ==>
              var k := Scan(stream).at;
              k < |stream| && stream[k].Some? && IsGga(stream[k].value.identifier)
              && Decode(stream[k].value) == Ok(Scan(stream).fix)
              && forall j :: 0 <= j < k ==> Skipped(stream[j])
    ensures forall k :: 0 <= k < |stream| && stream[k] == None && (forall j :: 0 <= j < k ==> Skipped(stream[j]))
              ==> Scan(stream) == Crashed(NoRecord, k)
    ensures forall k :: 0 <= k < |stream| && stream[k].Some? && IsGga(stream[k].value.identifier)
                        && (forall j :: 0 <= j < k ==> Skipped(stream[j]))
              ==> Scan(stream) == if Decode(stream[k].value).Ok? then Found(Decode(stream[k].value).value, k)
                                  else Crashed(BadNumber, k)
  {
    ScanFromStops(stream, 0);
  }

  /** Reads after the one the loop stopped at are never consulted. */
  lemma {:induction false} ScanFromIgnoresLaterReads(stream: seq<Read>, more: seq<Read>, i: nat)
    requires i <= |stream|
    requires ScanFrom(stream, i) != Pending
    ensures ScanFrom(stream + more, i) == ScanFrom(stream, i)
    decreases |stream| - i
  {
    assert (stream + more)[i] == stream[i];
    if Skipped(stream[i]) {
      ScanFromIgnoresLaterReads(stream, more, i + 1);
    }
  }

  /** The loop of `update_pos`: read until a GGA sentence yields a position. */
  method AwaitFix(stream: seq<Read>) returns (r: ScanResult)
    ensures r == Scan(stream)
  {
    var position: Option<Fix> := None;
    var i := 0;
    r := Pending;
    while position.None?
      invariant i <= |stream|
      invariant position.None? ==> r == Pending && ScanFrom(stream, i) == Scan(stream)
      invariant position.Some? ==> i >= 1 && r == Scan(stream) && r == Found(position.value, i - 1)
      decreases |stream| - i, if position.None? then 1 else 0
    {
      if i == |stream| {
        // every read so far was skipped; the source goes on reading
        return Pending;
      }
      var nmea := stream[i];
      if nmea.None? {
        return Crashed(NoRecord, i);
      }
      if IsGga(nmea.value.identifier) {
        match Decode(nmea.value)
        case Err(e) =>
          return Crashed(e, i);
        case Ok(fix) =>
          position := Some(fix);
          r := Found(fix, i);
      }
      i := i + 1;
    }
  }

  /** `calc_diff`, shared by `GPS` and `PiSat`: the look angle of `sat` at
      `now` (the clock reading) from the stored position. Subtracting the
      empty position `{}` raises an exception inside Skyfield. */
  function LookFrom(position: Option<Fix>, observe: Observe, sat: Tle, now: Time): (r: Result<LookAngle>)
    ensures r.Ok? <==> position.Some?
    ensures r.Ok? ==> r.value == observe(position.value, sat, now)
    ensures r.Err? ==> r.fault == NoObserver
  {
    if position.None? then Err(NoObserver) else Ok(observe(position.value, sat, now))
  }
}
