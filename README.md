# PiSat core in Dafny

PiSat is a Raspberry Pi satellite tracker. It reads the observer's fix from a
u-blox GNSS receiver (NMEA 0183 GGA sentences over a serial line). It loads
two-line element sets of the amateur-radio satellites from CelesTrak. Then it
shows, once per refresh, a table of each user satellite's altitude and azimuth,
and a polar skyplot that draws the path of every satellite above the horizon.
The distance is written into the table too, but its column is hidden.

This project models the parts of that program that decide what is stored,
what is looked up and what is drawn:

- `Nmea`: the loop that reads receiver lines until the first GGA sentence and
  turns it into a fix. Both `GPS.update_pos` and `PiSat.update_pos` contain
  this loop. It also holds `calc_diff`, which both classes share.
- `Gps`: the `GPS` class.
- `Catalog`: the element-set dictionary keyed by catalog number, the
  `get_tle` lookup with Python's order of exceptions, and the `calc_events`
  loop. `PiSat` and sat.py's `SAT` share all three.
- `PiSat`: the `PiSat` class, including the `calc_path` visibility scan.
- `SatTrack`: the single-satellite `SAT` class of sattrack.py and
  sat-track.py, with its request URL, cache file name and ephemeris
  generation.
- `SatCatalog`: the catalog `SAT` class of sat.py.
- `Skyplot`: the skyplot geometry of main.py: where `plot_polar` puts a
  satellite, the altitude circles and the twelve azimuth spokes.
- `Session`: main.py's table (`sat_data`) and its per-row path cache
  (`sat_paths`). The cache is `None` while the satellite is below the
  horizon. While it is up, the cache holds the ids of the line figures
  of its pass.
- `Builtins`: the Python behaviour the rest depends on: slicing, `int()` on
  strings and floats, `str()` on integers and floor division.
- `Common`: the shared values.

`Common.Fault` names each exception the source can raise.

Outside effects become inputs:

- The serial receiver is a sequence of reads, one per `_read_line()`
  call. A read is `None` when that call swallowed an exception.
- Each clock reading (`ts.now()`) is a parameter.
- Skyfield's look angles, event search and propagation are function
  parameters. So is Python's `round`.
- The element sets that `load.tle_file` would download are a parameter.

Errors are `Result` values rather than preconditions. A reading loop that
finds no GGA sentence in its reads ends `Pending`: the source would go on
reading lines beyond those given.

Where the code and its design notes disagree, the model follows the code:

- `calc_path` keeps the first sample below the horizon as the last element
  of the path. `PiSat.IsPath` states this. The loop has no bound on its
  iterations. The model's `fuel` bound only makes a pass that never sets
  visible as `OutOfFuel`.
- `update_pos` empties the stored position before it reads. A refresh that
  crashes, or is still reading, therefore leaves no position, not the
  previous fix.
- Latitude and longitude are the raw `ddmm.mmmm` fields divided by 100, with
  the sign from the hemisphere letter. This is not a conversion to degrees.
  The model keeps the division as written.
- main.py lets every exception end the program. No row is isolated from
  another row's failure.

The getters `get_pos`, `get_tle` and `get_ephem` read without side effects.
They are modelled as functions without a contract of their own: `GetPos`,
`GetTle`, `GetEphem`. `get_pos` and `get_ephem` return a field. `get_tle`
calls `int()` and then subscripts, so it can raise ValueError, TypeError or
KeyError. `GetTle` is `Catalog.Lookup` on the class's catalog, and
`Lookup`'s contract covers it.

## Model

| member | source | states |
|---|---|---|
| Builtins.Slice | pisat.py:74 | a Python slice `s[lo:hi]` clamps both ends to the string, so it is never an error; the result is the characters from `lo` on, at most `hi - lo` of them |
| Builtins.IntRoundTrip | pisat.py:62 | `int(str(n)) == n` for every integer, negative ones included |
| Builtins.IntToStringInjective | sattrack.py:83-84 | different integers format to different strings |
| Builtins.FloorDiv | sattrack.py:106 | `a // b` rounds toward minus infinity for both signs of the divisor: `b*q <= a < b*q + b` when `b > 0`, mirrored when `b < 0` |
| Builtins.Trunc | main.py:66 | `int(x)` of a float truncates toward zero |
| Nmea.IsGgaExactly | pisat.py:74 | `identifier()[2:5] == 'GGA'` holds exactly when the identifier has at least five characters and characters 2 to 4 are `GGA`; shorter identifiers are skipped, not errors |
| Nmea.Hemisphere | pisat.py:75-80 | the coordinate is the raw field divided by 100, negated exactly when the hemisphere letter is `S` (or `W`) |
| Nmea.Decode | pisat.py:75-81 | a GGA sentence gives a fix exactly when both raw coordinates are numbers; otherwise `float()` raises ValueError; the altitude is copied unchanged |
| Nmea.ScanSpec | pisat.py:70-83 | the reading loop is still reading exactly when every read is a non-GGA sentence; it stops at the first read that is not skipped: with the fix of the first GGA sentence, with ValueError when that sentence has an empty coordinate, or with AttributeError on a failed read |
| Nmea.ScanFromIgnoresLaterReads | pisat.py:71-72 | once a read ends the loop, no later line affects the outcome |
| Nmea.AwaitFix | pisat.py:70-83 | the `while not self.position` loop ends exactly as ScanSpec describes |
| Nmea.LookFrom | pisat.py:91-98 | `calc_diff` gives the look angle from the stored fix at the clock reading, and fails (inside Skyfield) when no fix is stored |
| Gps.Gps.constructor | gps.py:13-19 | a new tracker holds no position |
| Gps.Gps.UpdatePos | gps.py:37-55 | the position is emptied first; afterwards it is the fix of the first GGA sentence when the loop found one, and empty when the call crashed or is still reading |
| Catalog.BuildCatalog | pisat.py:55 | the keys are exactly the catalog numbers of the loaded element sets, and each entry is filed under its own number |
| Catalog.LastWins | pisat.py:55 | of several element sets with one catalog number, the last loaded is the one kept |
| Catalog.Lookup | pisat.py:58-62 | `self.TLEs[int(id)]`: ValueError for a non-numeric id, checked before anything else; TypeError before loading; KeyError for an absent number; otherwise the entry for `int(id)` |
| Catalog.TextAndNumberAgree | pisat.py:62 | looking up the string form of a number and the number itself gives the same result, error included |
| Catalog.LookupAfterLoad | pisat.py:55-62 | after loading, a number is found exactly when some loaded element set carries it, and the entry found carries that number |
| Catalog.WindowEnd | pisat.py:124-125 | the event window ends `expiry` days (of 86400 s) after the element set's epoch |
| Catalog.CollectSpec | pisat.py:121-129 | `calc_events` completes exactly when every user id is found and a position is stored (a position is needed only when the list is non-empty); the events are then keyed by exactly the user satellites' numbers, and each holds the events of its own window; otherwise it stops at the first entry that fails, with that entry's lookup exception, or at the first entry when there is no position |
| Catalog.CollectEvents | pisat.py:121-129 | the loop over the user satellites computes what CollectSpec describes |
| PiSat.PathUnique | pisat.py:104-114 | a complete pass is determined by the look angles: two sequences meeting IsPath are equal |
| PiSat.PiSat.constructor | pisat.py:14-29 | no catalog, no events and no position; the user list and expiry are kept |
| PiSat.PiSat.LoadTles | pisat.py:47-56 | replaces the whole catalog by the one BuildCatalog describes and returns it; nothing else changes |
| PiSat.PiSat.UpdatePos | pisat.py:64-85 | as `GPS.update_pos`, and the stored fix is also returned |
| PiSat.PiSat.CalcPath | pisat.py:100-114 | without a position it fails (inside Skyfield); otherwise sample `k` is the (azimuth, altitude) seen `2k` seconds after the first clock reading; the path is empty exactly when the satellite is below the horizon at the second reading; every sample but the last is at or above the horizon and the last is below it |
| PiSat.PiSat.CalcEvents | pisat.py:116-129 | events are cleared, then filled as CollectSpec describes over `expiry` days; the catalog and position are unchanged |
| SatTrack.UrlNamesSatellite | sattrack.py:83 | the request URL is the fixed CelesTrak prefix followed by the catalog number, which parses back |
| SatTrack.FileNameNamesSatellite | sattrack.py:84 | the cache file name is `tle-CATNR-`, the catalog number, then `.txt`, and the number parses back |
| SatTrack.FileNamesDistinct | sattrack.py:83-84 | different satellites get different URLs and different cache files |
| SatTrack.DefaultEphemerisLength | sattrack.py:96-116 | with the default duration and interval, the ephemeris has 120 entries |
| SatTrack.ShortDurationNoSteps | sattrack.py:106-107 | a duration shorter than one positive interval, negative durations included, gives no step |
| SatTrack.Sat.constructor | sattrack.py:81-86 | the URL and file name are built from the catalog number; no element set and no ephemeris yet |
| SatTrack.Sat.GetTle | sattrack.py:88-94 | the first element set of the file is stored and returned; an empty file raises IndexError and stores nothing |
| SatTrack.Sat.GenEphemNow | sattrack.py:96-121 | the ephemeris is reset; `duration // interval` steps (none when negative) each add the `[lat, lon, height]` list and then the geocentric position, `interval` seconds apart from the clock reading; a zero interval raises ZeroDivisionError and a step without an element set raises AttributeError |
| SatCatalog.Sat.constructor | sat.py:10-16 | the amateur catalog URL and file; nothing loaded, so every numeric lookup raises TypeError; no events and no ephemeris |
| SatCatalog.Sat.GetEphemeris | sat.py:81-85 | the stored ephemeris of a satellite, and KeyError when there is none |
| SatCatalog.Sat.LoadTles | sat.py:18-27 | replaces the whole catalog by the one BuildCatalog describes and returns it |
| SatCatalog.Sat.CalcEvents | sat.py:35-48 | events are cleared, then filled as CollectSpec describes over a fixed five-day window from the given observer position |
| Skyplot.PlotPolar | main.py:28-35 | the radius is `C_LEN_OFF / 2` at altitude 0 and 0 at altitude 90, linear in between, so the altitude can be read back from the radius; the azimuth is kept |
| Skyplot.PlotPolarMonotone | main.py:34-35 | higher satellites are drawn nearer the centre |
| Skyplot.DrawAltitudeCircles | main.py:55-68 | `divs == 0` raises ZeroDivisionError; otherwise `max(divs, 0)` circles, circle `k` of radius `(k+1)` steps, labelled with the truncated altitude it stands for, thick only for the last |
| Skyplot.CircleMatchesPlot | main.py:57-67 | every altitude circle lies where `plot_polar` draws a satellite at that circle's altitude |
| Skyplot.OuterCircleIsHorizon | main.py:55-68 | the last circle is the horizon circle, labelled 0, with the major line width |
| Skyplot.DrawAzimuthLines | main.py:43-53 | whatever `divs` is passed, twelve spokes every 30 degrees, labelled 0 to 330 |
| Session.BuildRow | main.py:93-103 | a new row holds, in heading order, the catalog number, the name, three zeros, the uplink and the downlink |
| Session.BuildTable | main.py:88-103 | the table is built exactly when every user id is found; row `i` is the one BuildRow describes for the `i`-th user satellite; otherwise every entry before the failing one was found, and the failing entry's lookup exception ends the program |
| Session.TickRow | main.py:158-160 | a tick writes the rounded altitude, azimuth and distance into cells 2, 3 and 4 and leaves the other cells alone |
| Session.Session.constructor | main.py:137-144 | every row starts with an empty (`None`) path cache; each row's element set is what `get_tle` finds for its user entry, as BuildTable gives it |
| Session.Session.DrawPath | main.py:170-178 | one line per pair of consecutive path samples, between their `plot_polar` points, drawn in order; the row's cache holds exactly the ids of those lines |
| Session.Session.ErasePath | main.py:180-185 | every cached line is deleted once, in cache order, and the cache becomes `None` |
| Session.Session.Step | main.py:153-185 | the row's satellite is looked up again with `get_tle`; the row's cells 2 to 4 are refreshed; `calc_path` is called exactly when the satellite is up and the row has no cache, and its pass is drawn; a cached row that goes down is erased; otherwise the skyplot is untouched; afterwards the row has a cache exactly when the satellite is at or above the horizon |
| Session.Session.Tick | main.py:153-185 | after one pass over the rows, every row shows this tick's measurements and has a path cache exactly when its satellite is at or above the horizon; a row that was cached and is still up keeps its cache unchanged, so `calc_path` runs once per visible stretch; the canvas log only grows, and every line drawn during the tick gets an id at least the first unused id before the tick and below the first unused id after it |

## Copies

gps.py, sattrack.py and sat-track.py each define the same `GPS` class.
sattrack.py and sat-track.py also define the same single-satellite `SAT`
class. Each class is modelled once, and the copies match it line for line:

- `GPS.__init__`: gps.py:13-19, sattrack.py:17-23, sat-track.py:55-61.
- `GPS.update_pos`: gps.py:37-55, sattrack.py:41-59, sat-track.py:79-97.
  The same loop is in pisat.py:64-85.
- `GPS.calc_diff`: gps.py:61-68, sattrack.py:65-72, sat-track.py:103-110.
  The same code is in pisat.py:91-98.
- `SAT`: sattrack.py:75-127 and sat-track.py:113-165.
- The `get_tle`, `load_tles` and `calc_events` of sat.py (sat.py:18-48)
  match pisat.py:47-62 and 116-129, with three differences.
  sat.py's `load_tles` takes no URL: it downloads its fixed
  `celestrak_url` into the cache file `amateur.txt`. pisat.py's
  takes the URL as a parameter and passes no `filename`, so Skyfield
  names the cache file after the URL. sat.py's
  `calc_events` uses a fixed five-day window, and it takes the observer
  as an argument. Both downloads are the loaded element sets `raw` in the
  model.

## Left out

- The serial port, `_read_line`'s messages and pynmea2's parsing: a sequence of parsed reads stands for them.
- Skyfield: the time scale, `satellite - position`, `altaz`, `find_events`, `at`, `latlon_of` and `height_of` are function parameters, and the model proves nothing about their values.
- Floating point: all quantities are exact reals; `round(x, 2)` is a parameter, and `float()` of a coordinate field is either a number or a ValueError.
- Builtins.ParseInt: `int()` of a string with surrounding whitespace or digit-group underscores is rejected here, though Python accepts it; the user list uses plain numerals.
- The trigonometry of `plot_polar`, `draw_azimuth_lines` and `draw_altitude_circles`: points are kept in polar form around the canvas centre.
- The GUI: the window, the tabs, the table widget update, the centre dot, and the moving of each satellite's dot and name label on every tick.
- Reading `user_sats.json` and the network download of element sets: both are inputs.
- Session.UserSat: every user entry is taken to hold `up` and `down` texts, as main.py:99-101 reads them; the shape `{ID: [UP, DOWN]}` named in the comment at main.py:73 would make `USER_SATS[entry]['up']` raise TypeError, and that case is not modelled.
- Nmea.Sentence: the GGA altitude is always a number; pynmea2 gives None for an empty altitude field, and the model does not carry that case into the fix.
- PiSat.PiSat.CalcPath: the source loops for as long as the satellite stays up; the model stops after `fuel` samples and reports `OutOfFuel`, and a Session step that meets it reports `hung` and stops.
- `calc_ephem` (pisat.py:131-168) and `calc_ephemeris` (sat.py:52-79): both refer to names that do not exist (`duration`, `self.satellite`, a list method on a dict) and fail on every call.
- skyview.py, the `IMU` class of sat-track.py, calibrateIMU.py and demo_sats.py are not part of this model.
- The `__main__` demonstration loops of sattrack.py and sat-track.py, and main.py's exit handling.
