/** Values shared by every part of the ground-station model: the library
    results that the model treats as given (element sets, fixes, look
    angles, event lists, geocentric vectors) and the exceptions the Python
    code can raise, each named after the situation that raises it. */
module Common {

  datatype Option<+T> = None | Some(value: T)

  datatype Result<+T> = Ok(value: T) | Err(fault: Fault)

  /** The exceptions of the modelled code. */
  datatype Fault =
    | NoRecord        // AttributeError: `None.identifier()` after `_read_line` swallowed a read or parse error
    | BadNumber       // ValueError: `float()` or `int()` of text that is not a number
    | NotLoaded       // TypeError: subscripting `TLEs` while it is still None
    | MissingKey      // KeyError: a dictionary lookup of an absent key
    | EmptyFile       // IndexError: element 0 of an empty list of element sets
    | NoSatellite     // AttributeError: `None.at(t)` before any element set was stored
    | NoObserver      // the exception Skyfield raises for `satellite - {}` before any fix was stored
    | DivisionByZero  // ZeroDivisionError

  /** Time instants, in seconds on the library's time scale. */
  type Time = real

  const SecondsPerDay: real := 86400.0

  /** An element set as loaded by Skyfield: the catalog number (`model.satnum`),
      the name, the epoch and the element lines themselves, which only the
      propagator interprets. */
  datatype Tle = Tle(satnum: int, name: string, epoch: Time, elements: string)

  /** An observer position as built by `wgs84.latlon(lat, lon, alt)`. */
  datatype Fix = Fix(lat: real, lon: real, alt: real)

  /** The result of `altaz()`: altitude and azimuth in degrees, distance in km. */
  datatype LookAngle = LookAngle(alt: real, az: real, distance: real)

  /** A geocentric (GCRS) position vector, as returned by `satellite.at(t)`. */
  datatype Geocentric = Geocentric(x: real, y: real, z: real)

  /** The pair `(t, events)` returned by `find_events`: event instants and
      event codes (0 rise, 1 culminate, 2 set). */
  datatype EventList = EventList(times: seq<Time>, kinds: seq<int>)

  /** The geometry of the Skyfield library, taken as given: the look angle of
      a satellite from an observer at an instant, and the events of a window. */
  type Observe = (Fix, Tle, Time) -> LookAngle
  type FindEvents = (Fix, Tle, Time, Time) -> EventList
}
