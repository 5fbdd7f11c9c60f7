/** The satellite catalog shared by `PiSat` (pisat.py) and `SAT` (sat.py):
    the dictionary of element sets keyed by catalog number, its lookup by
    `int(id)`, and the loop that stores one event list per user satellite.
    Downloading the element sets (`load.tle_file`) and `find_events` are
    Skyfield's and enter as parameters. */
module Catalog {
  import opened Common
  import opened Builtins

  /** `{sat.model.satnum: sat for sat in raw_tles}`: the comprehension
      inserts from left to right, so a later element set with the same
      catalog number replaces an earlier one. */
  function BuildCatalog(raw: seq<Tle>): (m: map<int, Tle>)
    ensures m.Keys == set i | 0 <= i < |raw| :: raw[i].satnum
    ensures Catalogued(m)
  {
    if raw == [] then map[]
    else
      var last := raw[|raw| - 1];
      var m := BuildCatalog(raw[..|raw| - 1])[last.satnum := last];
      assert forall i :: 0 <= i < |raw| - 1 ==> raw[..|raw| - 1][i] == raw[i];
      m
  }

  /** Every entry is filed under its own catalog number. */
  ghost predicate Catalogued(m: map<int, Tle>) { forall k :: k in m ==> m[k].satnum == k }

  /** The entry for a catalog number is the last loaded element set carrying it. */
  lemma {:induction false} LastWins(raw: seq<Tle>, i: nat)
    requires i < |raw|
    requires forall j :: i < j < |raw| ==> raw[j].satnum != raw[i].satnum
    ensures raw[i].satnum in BuildCatalog(raw) && BuildCatalog(raw)[raw[i].satnum] == raw[i]
  {
    if i < |raw| - 1 {
      var front := raw[..|raw| - 1];
      LastWins(front, i);
    }
  }

  /** The key `get_tle` is called with: the string keys of the user list, or
      an integer. */
  datatype SatId = Text(text: string) | Number(n: int)

  /** `int(id)`. */
  function IntOf(id: SatId): Result<int>
  {
    match id
    case Text(s) => ParseInt(s)
    case Number(n) => Ok(n)
  }

  /** `self.TLEs[int(id)]`. Python evaluates `int(id)` before subscripting,
      so a non-numeric id raises ValueError even before any catalog is
      loaded; subscripting None raises TypeError; an absent key KeyError. */
  function Lookup(tles: Option<map<int, Tle>>, id: SatId): (r: Result<Tle>)
    ensures IntOf(id).Err? ==> r == Err(BadNumber)
    ensures IntOf(id).Ok? && tles.None? ==> r == Err(NotLoaded)
    ensures IntOf(id).Ok? && tles.Some? ==>
              (r.Ok? <==> IntOf(id).value in tles.value)
              && (r.Ok? ==> r.value == tles.value[IntOf(id).value])
              && (r.Err? ==> r.fault == MissingKey)
  {
    match IntOf(id)
    case Err(e) => Err(e)
    case Ok(k) =>
      if tles.None? then Err(NotLoaded)
      else if k in tles.value then Ok(tles.value[k])
      else Err(MissingKey)
  }

  /** The string `"25544"` and the integer `25544` find the same entry, or
      fail in the same way. */
  lemma TextAndNumberAgree(tles: Option<map<int, Tle>>, n: int)
    ensures Lookup(tles, Text(IntToString(n))) == Lookup(tles, Number(n))
  {
    IntRoundTrip(n);
  }

  /** After loading, a numeric id is found exactly when some loaded element
      set carries it, and the entry found carries that number. */
  lemma LookupAfterLoad(raw: seq<Tle>, n: int)
    ensures Lookup(Some(BuildCatalog(raw)), Number(n)).Ok? <==> exists i :: 0 <= i < |raw| && raw[i].satnum == n
    ensures Lookup(Some(BuildCatalog(raw)), Number(n)).Ok? ==>
              Lookup(Some(BuildCatalog(raw)), Number(n)).value.satnum == n
  {
  }

  /** The event window of `calc_events`: from the element set's epoch to
      `days` days after it. */
  function WindowEnd(sat: Tle, days: real): (t1: Time)
    ensures t1 - sat.epoch == days * SecondsPerDay
  {
    sat.epoch + days * SecondsPerDay
  }

  /** The events stored for a catalogued satellite. */
  function EventsOf(m: map<int, Tle>, k: int, observer: Fix, days: real, find: FindEvents): EventList
    requires k in m
  {
    find(observer, m[k], m[k].epoch, WindowEnd(m[k], days))
  }

  /** The reference definition of the `calc_events` loop from user entry `i`
      on, with the events stored so far: the final events and the exception
      that stopped the loop, if any. */
  function CollectFrom(tles: Option<map<int, Tle>>, ids: seq<SatId>, i: nat, observer: Option<Fix>,
                       days: real, find: FindEvents, acc: map<int, EventList>): (map<int, EventList>, Option<Fault>)
    requires i <= |ids|
    decreases |ids| - i
  {
    if i == |ids| then (acc, None)
    else
      match Lookup(tles, ids[i])
      case Err(e) => (acc, Some(e))
      case Ok(sat) =>
        if observer.None? then (acc, Some(NoObserver))
        else CollectFrom(tles, ids, i + 1, observer, days, find,
                         acc[sat.satnum := find(observer.value, sat, sat.epoch, WindowEnd(sat, days))])
  }

  function Collect(tles: Option<map<int, Tle>>, ids: seq<SatId>, observer: Option<Fix>,
                   days: real, find: FindEvents): (map<int, EventList>, Option<Fault>)
  {
    CollectFrom(tles, ids, 0, observer, days, find, map[])
  }

  /** Events held for catalogued satellites, each for its own window. */
  ghost predicate EventsFor(m: map<int, Tle>, events: map<int, EventList>, observer: Fix, days: real, find: FindEvents)
  {
    forall k :: k in events ==> k in m && events[k] == EventsOf(m, k, observer, days, find)
  }

  /** The loop stops at entry `j` from `i` on with `fault`: every entry
      before `j` is found; entry `j` is not (and `fault` is its lookup
      error), or it is found but there is no observer. Without an observer
      the loop stops at the first entry either way. */
  ghost predicate FirstFailureAt(m: map<int, Tle>, ids: seq<SatId>, i: nat, j: nat, observer: Option<Fix>, fault: Fault)
  {
    && i <= j < |ids|
    && (forall l :: i <= l < j ==> Lookup(Some(m), ids[l]).Ok?)
    && (observer.None? ==> j == i)
    && (if Lookup(Some(m), ids[j]).Err? then fault == Lookup(Some(m), ids[j]).fault
        else observer.None? && fault == NoObserver)
  }

  ghost predicate FirstFailure(m: map<int, Tle>, ids: seq<SatId>, i: nat, observer: Option<Fix>, fault: Fault)
  {
    exists j :: FirstFailureAt(m, ids, i, j, observer, fault)
  }

  lemma {:induction false} CollectFromSpec(m: map<int, Tle>, ids: seq<SatId>, i: nat, observer: Option<Fix>,
                                           days: real, find: FindEvents, acc: map<int, EventList>)
    requires i <= |ids| && Catalogued(m)
    requires observer.Some? ==> EventsFor(m, acc, observer.value, days, find)
    ensures var (events, fault) := CollectFrom(Some(m), ids, i, observer, days, find, acc);
            && (fault.None? <==> (forall j :: i <= j < |ids| ==> Lookup(Some(m), ids[j]).Ok?)
                                 && (i < |ids| ==> observer.Some?))
            && (fault.None? ==>
                  && events.Keys == acc.Keys + (set j | i <= j < |ids| && IntOf(ids[j]).Ok? :: IntOf(ids[j]).value)
                  && (observer.Some? ==> EventsFor(m, events, observer.value, days, find)))
            && (fault.Some? ==> FirstFailure(m, ids, i, observer, fault.value))
    decreases |ids| - i
  {
    if i < |ids| && (Lookup(Some(m), ids[i]).Err? || observer.None?) {
      assert FirstFailureAt(m, ids, i, i, observer, CollectFrom(Some(m), ids, i, observer, days, find, acc).1.value);
    } else if i < |ids| {
      var sat := Lookup(Some(m), ids[i]).value;
      var acc' := acc[sat.satnum := find(observer.value, sat, sat.epoch, WindowEnd(sat, days))];
      CollectFromSpec(m, ids, i + 1, observer, days, find, acc');
      var later := set j | i + 1 <= j < |ids| && IntOf(ids[j]).Ok? :: IntOf(ids[j]).value;
      var all := set j | i <= j < |ids| && IntOf(ids[j]).Ok? :: IntOf(ids[j]).value;
      assert all == {sat.satnum} + later by {
        forall x | x in all ensures x in {sat.satnum} + later {
          var j :| i <= j < |ids| && IntOf(ids[j]).Ok? && x == IntOf(ids[j]).value;
          if j > i { assert x in later; }
        }
      }
      var fault := CollectFrom(Some(m), ids, i, observer, days, find, acc).1;
      if fault.Some? {
        var j :| FirstFailureAt(m, ids, i + 1, j, observer, fault.value);
        assert FirstFailureAt(m, ids, i, j, observer, fault.value);
      }
    }
  }

  /** `calc_events` on a loaded catalog: it succeeds exactly when every user
      entry is in the catalog and, unless the list is empty, there is an
      observer; it then holds one event list per user satellite, filed
      under its catalog number and computed for the window from its epoch.
      Otherwise it raises the exception of the first entry that fails. */
  lemma CollectSpec(m: map<int, Tle>, ids: seq<SatId>, observer: Option<Fix>, days: real, find: FindEvents)
    requires Catalogued(m)
    ensures var (events, fault) := Collect(Some(m), ids, observer, days, find);
            && (fault.None? <==> (forall j :: 0 <= j < |ids| ==> Lookup(Some(m), ids[j]).Ok?)
                                 && (|ids| > 0 ==> observer.Some?))
            && (fault.None? ==>
                  && events.Keys == (set j | 0 <= j < |ids| && IntOf(ids[j]).Ok? :: IntOf(ids[j]).value)
                  && (observer.Some? ==> EventsFor(m, events, observer.value, days, find)))
            && (fault.Some? ==> FirstFailure(m, ids, 0, observer, fault.value))
  {
    CollectFromSpec(m, ids, 0, observer, days, find, map[]);
  }

  /** The loop of `calc_events`, starting from emptied events. When it stops
      with an exception, the events of the entries before the failing one
      remain stored. */
  method CollectEvents(tles: Option<map<int, Tle>>, ids: seq<SatId>, observer: Option<Fix>,
                       days: real, find: FindEvents)
    returns (events: map<int, EventList>, fault: Option<Fault>)
    ensures (events, fault) == Collect(tles, ids, observer, days, find)
  {
    events := map[];
    var i := 0;
    while i < |ids|
      invariant i <= |ids|
      invariant CollectFrom(tles, ids, i, observer, days, find, events) == Collect(tles, ids, observer, days, find)
    {
      var found := Lookup(tles, ids[i]);
      if found.Err? {
        return events, Some(found.fault);
      }
      var sat := found.value;
      var t0 := sat.epoch;
      var t1 := WindowEnd(sat, days);
      if observer.None? {
        return events, Some(NoObserver);
      }
      events := events[sat.satnum := find(observer.value, sat, t0, t1)];
      i := i + 1;
    }
    fault := None;
  }
}
