/** The `PiSat` class of pisat.py: the observer fix, the satellite catalog,
    the event windows of the user satellites and the visibility path scan.
    The serial port, the Skyfield time scale and Skyfield's geometry are
    outside the model: reads arrive as a sequence, clock readings and the
    look-angle and event computations are parameters. */
module PiSat {
  import opened Common
  import opened Nmea
  import opened Catalog

  /** One path sample as `calc_path` stores it: (azimuth, altitude) in degrees. */
  type PathSample = (real, real)

  /** How `calc_path` ends: with the samples of the pass; after `fuel`
      samples all above the horizon (the source would go on sampling); or
      with an exception. */
  datatype PathResult = Done(samples: seq<PathSample>) | OutOfFuel(samples: seq<PathSample>) | Failed(fault: Fault)

  /** Seconds between two samples of `calc_path`. */
  const PathStep: real := 2.0

  /** Sample `k` of the path scan: taken `k` steps after the scan's start. */
  function SampleAt(observe: Observe, fix: Fix, sat: Tle, start: Time, k: nat): PathSample
  {
    var angle := observe(fix, sat, start + PathStep * k as real);
    (angle.az, angle.alt)
  }

  /** `samples` is a complete pass as `calc_path` returns it: sample `k`
      is taken `k` steps after `start`; there is none when the satellite is
      below the horizon at `check`; otherwise every sample but the last is at
      or above the horizon and the last one is below it. */
  ghost predicate IsPath(observe: Observe, fix: Fix, sat: Tle, start: Time, check: Time, samples: seq<PathSample>)
  {
    && (forall k :: 0 <= k < |samples| ==> samples[k] == SampleAt(observe, fix, sat, start, k))
    && (samples == [] <==> observe(fix, sat, check).alt < 0.0)
    && (forall k :: 0 <= k < |samples| - 1 ==> samples[k].1 >= 0.0)
    && (samples != [] ==> samples[|samples| - 1].1 < 0.0)
  }

  /** The pass is determined by the look angles alone: two sequences that
      both satisfy IsPath are the same. */
  lemma PathUnique(observe: Observe, fix: Fix, sat: Tle, start: Time, check: Time,
                   s1: seq<PathSample>, s2: seq<PathSample>)
    requires IsPath(observe, fix, sat, start, check, s1)
    requires IsPath(observe, fix, sat, start, check, s2)
    ensures s1 == s2
  {
  }

  class PiSat {
    /** `self.TLEs`: None until `load_tles`. */
    var tles: Option<map<int, Tle>>
    /** `self.expiry`: days of the event window. */
    var expiry: real
    /** `self.events`: event lists by catalog number. */
    var events: map<int, EventList>
    /** The keys of `self.user_sats`, in iteration order. */
    var userSats: seq<SatId>
    /** `self.position`: the empty dictionary `{}` is None. */
    var position: Option<Fix>

    /** A loaded catalog files every element set under its own number. */
    ghost predicate Valid()
      reads this
    {
      tles.Some? ==> Catalogued(tles.value)
    }

    constructor (userSats: seq<SatId>, expiry: real)
      ensures Valid()
      ensures this.userSats == userSats && this.expiry == expiry
      ensures tles == None && events == map[] && position == None
    {
      this.tles := None;
      this.expiry := expiry;
      this.events := map[];
      this.userSats := userSats;
      this.position := None;
    }

    /** `load_tles`: replace the whole catalog by the one built from the
        loaded element sets, and return it. */
    method LoadTles(raw: seq<Tle>) returns (catalog: map<int, Tle>)
      requires Valid()
      modifies this
      ensures Valid()
      ensures catalog == BuildCatalog(raw) && tles == Some(catalog)
      ensures expiry == old(expiry) && events == old(events)
      ensures userSats == old(userSats) && position == old(position)
    {
      tles := Some(BuildCatalog(raw));
      catalog := tles.value;
    }

    /** `get_tle`: the catalog entry for `int(id)`; a plain read. */
    function GetTle(id: SatId): Result<Tle>
      reads this
    {
      Lookup(tles, id)
    }

    /** `get_pos`: the stored position; a plain read. */
    function GetPos(): Option<Fix>
      reads this
    {
      position
    }

    /** `update_pos`: forget the stored position, read until the first GGA
        sentence and store its fix; the fix is returned when the call ends
        normally. The outcome says how the call ended. */
    method UpdatePos(stream: seq<Read>) returns (outcome: ScanResult, fix: Option<Fix>)
      requires Valid()
      modifies this
      ensures Valid()
      ensures outcome == Scan(stream)
      ensures GetPos() == (if outcome.Found? then Some(outcome.fix) else None)
      ensures fix == GetPos()
      ensures tles == old(tles) && expiry == old(expiry) && events == old(events) && userSats == old(userSats)
    {
      position := None;
      outcome := AwaitFix(stream);
      if outcome.Found? {
        position := Some(outcome.fix);
      }
      fix := position;
    }

    /** `calc_diff`: the look angle from the stored position (see LookFrom). */
    function CalcDiff(observe: Observe, sat: Tle, now: Time): Result<LookAngle>
      reads this
    {
      LookFrom(position, observe, sat, now)
    }

    /** `calc_path`: sample (azimuth, altitude) every two seconds from
        `start` (the clock reading taken first) for as long as the previous
        altitude is not negative; the first test uses the look angle at
        `check` (the clock reading taken inside `calc_diff`). The last sample
        is the first one below the horizon. At most `fuel` samples are taken. */
    method CalcPath(observe: Observe, sat: Tle, start: Time, check: Time, fuel: nat) returns (r: PathResult)
      ensures position.None? ==> r == Failed(NoObserver)
      ensures position.Some? ==> !r.Failed?
      ensures !r.Failed? ==> forall k :: 0 <= k < |r.samples| ==>
                r.samples[k] == SampleAt(observe, position.value, sat, start, k)
      ensures r.Done? ==> IsPath(observe, position.value, sat, start, check, r.samples)
      ensures r.OutOfFuel? ==>
                |r.samples| == fuel && observe(position.value, sat, check).alt >= 0.0
                && forall k :: 0 <= k < |r.samples| ==> r.samples[k].1 >= 0.0
    {
      if position.None? {
        return Failed(NoObserver);
      }
      var fix := position.value;
      var t := start;
      var samples: seq<PathSample> := [];
      var alt := observe(fix, sat, check).alt;
      while alt >= 0.0
        invariant |samples| <= fuel
        invariant t == start + PathStep * |samples| as real
        invariant forall k :: 0 <= k < |samples| ==> samples[k] == SampleAt(observe, fix, sat, start, k)
        invariant forall k :: 0 <= k < |samples| - 1 ==> samples[k].1 >= 0.0
        invariant samples == [] ==> alt == observe(fix, sat, check).alt
        invariant samples != [] ==> alt == samples[|samples| - 1].1 && observe(fix, sat, check).alt >= 0.0
        decreases fuel - |samples|
      {
        if |samples| == fuel {
          return OutOfFuel(samples);
        }
        var angle := observe(fix, sat, t);
        alt := angle.alt;
        samples := samples + [(angle.az, angle.alt)];
        t := t + PathStep;
      }
      return Done(samples);
    }

    /** `calc_events`: discard the old events, then store, for each user
        satellite in turn, its events over `expiry` days from its epoch. */
    method CalcEvents(find: FindEvents) returns (r: Result<map<int, EventList>>)
      requires Valid()
      modifies this
      ensures Valid()
      ensures (events, if r.Ok? then None else Some(r.fault))
              == Collect(tles, userSats, position, expiry, find)
      ensures r.Ok? ==> r.value == events
      ensures tles == old(tles) && expiry == old(expiry) && userSats == old(userSats) && position == old(position)
    {
      events := map[];
      var collected, fault := CollectEvents(tles, userSats, position, expiry, find);
      events := collected;
      r := if fault.None? then Ok(events) else Err(fault.value);
    }
  }
}
