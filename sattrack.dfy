/** The `SAT` class of which sattrack.py and sat-track.py hold identical
    copies: one satellite, its element set fetched by catalog number, and an
    ephemeris sampled at a fixed interval. Fetching the element-set file and
    Skyfield's propagation and frame conversions are parameters. */
module SatTrack {
  import opened Common
  import opened Builtins

  const UrlPrefix: string := "https://celestrak.com/satcat/tle.php?CATNR="
  const FilePrefix: string := "tle-CATNR-"
  const FileSuffix: string := ".txt"

  /** `'https://celestrak.com/satcat/tle.php?CATNR={}'.format(catnr)` */
  function Url(catnr: int): string { UrlPrefix + IntToString(catnr) }

  /** `'tle-CATNR-{}.txt'.format(catnr)` */
  function FileName(catnr: int): string { FilePrefix + IntToString(catnr) + FileSuffix }

  /** The request URL ends with the catalog number it was built from, so
      different satellites are requested under different URLs. */
  lemma UrlNamesSatellite(catnr: int)
    ensures Url(catnr)[..|UrlPrefix|] == UrlPrefix
    ensures ParseInt(Url(catnr)[|UrlPrefix|..]) == Ok(catnr)
  {
    assert Url(catnr)[|UrlPrefix|..] == IntToString(catnr);
    IntRoundTrip(catnr);
  }

  /** The cache file name holds the catalog number between its fixed prefix
      and suffix, so different satellites use different cache files. */
  lemma FileNameNamesSatellite(catnr: int)
    ensures var f := FileName(catnr);
            |f| >= |FilePrefix| + |FileSuffix|
            && f[..|FilePrefix|] == FilePrefix && f[|f| - |FileSuffix|..] == FileSuffix
            && ParseInt(f[|FilePrefix|..|f| - |FileSuffix|]) == Ok(catnr)
  {
    var f := FileName(catnr);
    assert f[|FilePrefix|..|f| - |FileSuffix|] == IntToString(catnr);
    IntRoundTrip(catnr);
  }

  lemma FileNamesDistinct(a: int, b: int)
    requires a != b
    ensures FileName(a) != FileName(b) && Url(a) != Url(b)
  {
    FileNameNamesSatellite(a);
    FileNameNamesSatellite(b);
    UrlNamesSatellite(a);
    UrlNamesSatellite(b);
  }

  /** One ephemeris entry: a `[lat, lon, height]` list (degrees, degrees,
      metres) or the geocentric position it was derived from. */
  datatype EphemEntry = Coord(lat: real, lon: real, height: real) | Position(geocentric: Geocentric)

  /** Skyfield's `satellite.at(t)`. */
  type Propagate = (Tle, Time) -> Geocentric
  /** Skyfield's `wgs84.latlon_of` (degrees) and `wgs84.height_of` (metres). */
  type LatLonOf = Geocentric -> (real, real)
  type HeightOf = Geocentric -> real

  const DefaultDuration: int := 3600
  const DefaultInterval: int := 60

  /** `len(range(duration // interval))`. */
  function Steps(duration: int, interval: int): nat
    requires interval != 0
  {
    var q := FloorDiv(duration, interval);
    if q < 0 then 0 else q
  }

  /** With the default arguments the ephemeris has 120 entries. */
  lemma DefaultEphemerisLength()
    ensures 2 * Steps(DefaultDuration, DefaultInterval) == 120
  {
  }

  /** Fewer seconds than one positive interval (a negative duration
      included) give no step at all. */
  lemma ShortDurationNoSteps(duration: int, interval: int)
    requires 0 < interval && duration < interval
    ensures Steps(duration, interval) == 0
  {
  }

  /** Entry `k` of the ephemeris: step `k / 2`, taken `k / 2` intervals after
      `start`; the list comes first, the geocentric position second. */
  function EntryAt(sat: Tle, start: Time, interval: int, propagate: Propagate,
                   latLonOf: LatLonOf, heightOf: HeightOf, k: nat): EphemEntry
  {
    var geocentric := propagate(sat, start + ((k / 2) * interval) as real);
    if k % 2 == 0 then
      var (lat, lon) := latLonOf(geocentric);
      Coord(lat, lon, heightOf(geocentric))
    else Position(geocentric)
  }

  class Sat {
    const catnr: int
    const celestrakUrl: string
    const filename: string
    /** `self.satellite`: None until `get_tle`. */
    var satellite: Option<Tle>
    /** `self.ephemeris`: None until `gen_ephem_now`. */
    var ephemeris: Option<seq<EphemEntry>>

    /** `get_ephem`: the stored ephemeris; a plain read. */
    function GetEphem(): Option<seq<EphemEntry>>
      reads this
    {
      ephemeris
    }

    constructor (catnr: int)
      ensures this.catnr == catnr
      ensures celestrakUrl == Url(catnr) && filename == FileName(catnr)
      ensures satellite == None && GetEphem() == None
    {
      this.catnr := catnr;
      this.celestrakUrl := Url(catnr);
      this.filename := FileName(catnr);
      this.satellite := None;
      this.ephemeris := None;
    }

    /** `get_tle`: store and return the first element set of the file
        fetched from `celestrak_url`; an empty file raises IndexError and
        stores nothing. */
    method GetTle(loaded: seq<Tle>) returns (r: Result<Tle>)
      modifies this
      ensures |loaded| == 0 ==> r == Err(EmptyFile) && satellite == old(satellite)
      ensures |loaded| > 0 ==> r == Ok(loaded[0]) && satellite == Some(loaded[0])
      ensures ephemeris == old(ephemeris)
    {
      if |loaded| == 0 {
        return Err(EmptyFile);
      }
      satellite := Some(loaded[0]);
      r := Ok(satellite.value);
    }

    /** `gen_ephem_now`: discard the old ephemeris, then for each of the
        `duration // interval` steps append the `[lat, lon, height]` list and
        the geocentric position at that instant, advancing by `interval`
        seconds from `start` (the clock reading). A zero interval raises
        ZeroDivisionError; a step without an element set raises
        AttributeError; both leave the ephemeris empty. */
    method GenEphemNow(start: Time, duration: int, interval: int, propagate: Propagate,
                       latLonOf: LatLonOf, heightOf: HeightOf) returns (r: Result<seq<EphemEntry>>)
      modifies this
      ensures satellite == old(satellite) && ephemeris.Some?
      ensures interval == 0 ==> r == Err(DivisionByZero) && ephemeris == Some([])
      ensures interval != 0 && Steps(duration, interval) > 0 && satellite.None? ==>
                r == Err(NoSatellite) && ephemeris == Some([])
      ensures r.Ok? <==> interval != 0 && (Steps(duration, interval) == 0 || satellite.Some?)
      ensures r.Ok? ==> ephemeris == Some(r.value) && |r.value| == 2 * Steps(duration, interval)
      ensures r.Ok? && satellite.Some? ==> forall k :: 0 <= k < |r.value| ==>
                r.value[k] == EntryAt(satellite.value, start, interval, propagate, latLonOf, heightOf, k)
    {
      ephemeris := Some([]);
      if interval == 0 {
        return Err(DivisionByZero);
      }
      var iterations := FloorDiv(duration, interval);
      var t := start;
      var n := 0;
      while n < iterations
        invariant iterations > 0 ==> 0 <= n <= iterations
        invariant iterations <= 0 ==> n == 0
        invariant t == start + (n * interval) as real
        invariant satellite == old(satellite) && ephemeris.Some? && |ephemeris.value| == 2 * n
        invariant n > 0 ==> satellite.Some?
        invariant satellite.Some? ==> forall k :: 0 <= k < |ephemeris.value| ==>
                    ephemeris.value[k] == EntryAt(satellite.value, start, interval, propagate, latLonOf, heightOf, k)
      {
        if satellite.None? {
          return Err(NoSatellite);
        }
        var geocentric := propagate(satellite.value, t);
        var (lat, lon) := latLonOf(geocentric);
        var height := heightOf(geocentric);
        ephemeris := Some(ephemeris.value + [Coord(lat, lon, height)]);
        ephemeris := Some(ephemeris.value + [Position(geocentric)]);
        t := t + interval as real;
        n := n + 1;
      }
      r := Ok(ephemeris.value);
    }
  }
}
