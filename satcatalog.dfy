/** The `SAT` class of sat.py: the amateur-radio catalog fetched from
    CelesTrak, looked up by catalog number, and event lists over a fixed
    five-day window. Fetching the catalog file and `find_events` are
    parameters. */
module SatCatalog {
  import opened Common
  import opened Catalog
  import SatTrack

  const CatalogUrl: string := "https://celestrak.com/NORAD/elements/gp.php?GROUP=amateur&FORMAT=tle"
  const CatalogFile: string := "amateur.txt"

  /** The fixed event window of `calc_events`, in days. */
  const EventDays: real := 5.0

  class Sat {
    const celestrakUrl: string
    const filename: string
    const userSats: seq<SatId>
    /** `self.TLEs`: None until `load_tles`. */
    var tles: Option<map<int, Tle>>
    /** `self.events`: event lists by catalog number. */
    var events: map<int, EventList>
    /** `self.ephemeris`: ephemerides by satellite; nothing in sat.py fills it. */
    var ephemeris: map<int, seq<SatTrack.EphemEntry>>

    ghost predicate Valid()
      reads this
    {
      tles.Some? ==> Catalogued(tles.value)
    }

    /** `get_tle`: the catalog entry for `int(id)`. Before `load_tles` a
        numeric id raises TypeError, because None has no subscript. */
    function GetTle(id: SatId): Result<Tle>
      reads this
    {
      Lookup(tles, id)
    }

    /** `get_ephemeris(s)`: `self.ephemeris[s]`, KeyError when absent. */
    function GetEphemeris(s: int): (r: Result<seq<SatTrack.EphemEntry>>)
      reads this
      ensures r.Ok? <==> s in ephemeris
      ensures r.Ok? ==> r.value == ephemeris[s]
      ensures r.Err? ==> r.fault == MissingKey
    {
      if s in ephemeris then Ok(ephemeris[s]) else Err(MissingKey)
    }

    constructor (userSats: seq<SatId>)
      ensures Valid()
      ensures celestrakUrl == CatalogUrl && filename == CatalogFile && this.userSats == userSats
      ensures tles == None && events == map[]
      ensures forall id :: IntOf(id).Ok? ==> GetTle(id) == Err(NotLoaded)
      ensures forall s :: GetEphemeris(s) == Err(MissingKey)
    {
      celestrakUrl := CatalogUrl;
      filename := CatalogFile;
      this.userSats := userSats;
      tles := None;
      events := map[];
      ephemeris := map[];
    }

    /** `load_tles`: replace the whole catalog by the one built from the
        loaded element sets, and return it. */
    method LoadTles(raw: seq<Tle>) returns (catalog: map<int, Tle>)
      requires Valid()
      modifies this
      ensures Valid()
      ensures catalog == BuildCatalog(raw) && tles == Some(catalog)
      ensures events == old(events) && ephemeris == old(ephemeris)
    {
      tles := Some(BuildCatalog(raw));
      catalog := tles.value;
    }

    /** `calc_events(observer_pos)`: discard the old events, then store, for
        each user satellite in turn, its events over the five days from its
        epoch, seen from the given position. */
    method CalcEvents(observer: Option<Fix>, find: FindEvents) returns (r: Result<map<int, EventList>>)
      requires Valid()
      modifies this
      ensures Valid()
      ensures (events, if r.Ok? then None else Some(r.fault)) == Collect(tles, userSats, observer, EventDays, find)
      ensures r.Ok? ==> r.value == events
      ensures tles == old(tles) && ephemeris == old(ephemeris)
    {
      events := map[];
      var collected, fault := CollectEvents(tles, userSats, observer, EventDays, find);
      events := collected;
      r := if fault.None? then Ok(events) else Err(fault.value);
    }
  }
}
