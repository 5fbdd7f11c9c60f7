/** The tracking loop of main.py: the table of user satellites (`sat_data`),
    refreshed on every tick, and the per-row skyplot path cache
    (`sat_paths`), which is `None` while a satellite is below the horizon
    and holds the line segments of its pass while it is above. The GUI is
    outside the model, except for the line figures of the paths: the
    canvas is the log of the line segments drawn and deleted. */
module Session {
  import opened Common
  import opened Catalog
  import opened PiSat
  import opened Skyplot

  const Headings: seq<string> := ["ID", "NAME", "ALT (deg)", "AZ (deg)", "DIST (km)", "UPLINK", "DOWNLINK"]

  /** One entry of `user_sats.json`, `{ID: {'up': UP, 'down': DOWN}}`. */
  datatype UserSat = UserSat(id: string, up: string, down: string)

  /** A table cell: an integer, a text, or a (rounded) measurement. */
  datatype Cell = Integer(n: int) | Str(s: string) | Measure(x: real)

  type Row = seq<Cell>

  /** The cell the table-building loop puts under heading `col`. */
  function CellFor(col: string, sat: Tle, entry: UserSat): Cell
  {
    if col == "ID" then Integer(sat.satnum)
    else if col == "NAME" then Str(sat.name)
    else if col == "UPLINK" then Str(entry.up)
    else if col == "DOWNLINK" then Str(entry.down)
    else Integer(0)
  }

  /** The inner loop of the table initialisation: one cell per heading. The
      row holds, in heading order, the catalog number, the name, three
      zeros for the measurements, and the uplink and downlink texts. */
  method BuildRow(sat: Tle, entry: UserSat) returns (row: Row)
    ensures row == [Integer(sat.satnum), Str(sat.name), Integer(0), Integer(0), Integer(0), Str(entry.up), Str(entry.down)]
  {
    row := [];
    var j := 0;
    while j < |Headings|
      invariant j <= |Headings| && |row| == j
      invariant forall c :: 0 <= c < j ==> row[c] == CellFor(Headings[c], sat, entry)
    {
      row := row + [CellFor(Headings[j], sat, entry)];
      j := j + 1;
    }
  }

  /** The table initialisation of main.py: for each user satellite in turn,
      look up its element set with `get_tle` (an exception ends the
      program) and build its row. Along with the rows come the element sets
      the later loops use for each row. */
  method BuildTable(ps: PiSat, userSats: seq<UserSat>) returns (rows: seq<Row>, sats: seq<Tle>, fault: Option<Fault>)
    ensures fault.None? <==> forall i :: 0 <= i < |userSats| ==> ps.GetTle(Text(userSats[i].id)).Ok?
    ensures fault.None? ==> |rows| == |sats| == |userSats|
    ensures fault.None? ==> forall i :: 0 <= i < |userSats| ==>
              ps.GetTle(Text(userSats[i].id)) == Ok(sats[i])
              && rows[i] == [Integer(sats[i].satnum), Str(sats[i].name), Integer(0), Integer(0), Integer(0),
                             Str(userSats[i].up), Str(userSats[i].down)]
    ensures fault.Some? ==>
              && |sats| < |userSats|
              && (forall i :: 0 <= i < |sats| ==> ps.GetTle(Text(userSats[i].id)) == Ok(sats[i]))
              && ps.GetTle(Text(userSats[|sats|].id)) == Err(fault.value)
  {
    rows, sats := [], [];
    var i := 0;
    while i < |userSats|
      invariant i <= |userSats| && |rows| == |sats| == i
      invariant forall k :: 0 <= k < i ==> ps.GetTle(Text(userSats[k].id)) == Ok(sats[k])
      invariant forall k :: 0 <= k < i ==>
                  rows[k] == [Integer(sats[k].satnum), Str(sats[k].name), Integer(0), Integer(0), Integer(0),
                              Str(userSats[k].up), Str(userSats[k].down)]
    {
      var found := ps.GetTle(Text(userSats[i].id));
      if found.Err? {
        return rows, sats, Some(found.fault);
      }
      var row := BuildRow(found.value, userSats[i]);
      rows, sats := rows + [row], sats + [found.value];
      i := i + 1;
    }
    fault := None;
  }

  /** A row after a tick: cells 2, 3 and 4 hold the rounded altitude,
      azimuth and distance; the other cells keep what they held. */
  function TickRow(row: Row, angle: LookAngle, round: real -> real): (r: Row)
    requires |row| == |Headings|
    ensures |r| == |row|
    ensures r[2] == Measure(round(angle.alt)) && r[3] == Measure(round(angle.az)) && r[4] == Measure(round(angle.distance))
    ensures forall c :: 0 <= c < |r| && c != 2 && c != 3 && c != 4 ==> r[c] == row[c]
  {
    row[2 := Measure(round(angle.alt))][3 := Measure(round(angle.az))][4 := Measure(round(angle.distance))]
  }

  /** A line figure on the skyplot, between two plotted path samples. */
  datatype Segment = Segment(from: Polar, to: Polar)

  /** The id PySimpleGUI returns for a drawn figure. */
  type Handle = nat

  /** The canvas operations on path figures, in the order they happen. */
  datatype CanvasOp = Draw(handle: Handle, segment: Segment) | Delete(handle: Handle)

  /** The segments of a path: segment `i` joins sample `i` to sample `i + 1`,
      so a path of `n` samples has `max(0, n - 1)` of them. */
  function Segments(samples: seq<PathSample>): (segs: seq<Segment>)
    ensures |segs| == if |samples| == 0 then 0 else |samples| - 1
    ensures forall i :: 0 <= i < |segs| ==>
              segs[i] == Segment(PlotPolar(samples[i].0, samples[i].1), PlotPolar(samples[i + 1].0, samples[i + 1].1))
  {
    if |samples| <= 1 then []
    else
      seq(|samples| - 1, i requires 0 <= i < |samples| - 1 =>
        Segment(PlotPolar(samples[i].0, samples[i].1), PlotPolar(samples[i + 1].0, samples[i + 1].1)))
  }

  /** `n` consecutive figure ids from `first` on. */
  function Handles(first: Handle, n: nat): (hs: seq<Handle>)
    ensures |hs| == n && forall i :: 0 <= i < n ==> hs[i] == first + i
  {
    seq(n, i => first + i)
  }

  /** Drawing the segments in order, under consecutive ids from `first` on. */
  function DrawOps(first: Handle, segs: seq<Segment>): (ops: seq<CanvasOp>)
    ensures |ops| == |segs| && forall i :: 0 <= i < |segs| ==> ops[i] == Draw(first + i, segs[i])
  {
    seq(|segs|, i requires 0 <= i < |segs| => Draw(first + i, segs[i]))
  }

  /** Deleting each figure of a cache once, in order. */
  function DeleteOps(cache: seq<Handle>): (ops: seq<CanvasOp>)
    ensures |ops| == |cache| && forall i :: 0 <= i < |cache| ==> ops[i] == Delete(cache[i])
  {
    seq(|cache|, i requires 0 <= i < |cache| => Delete(cache[i]))
  }

  class Session {
    const ps: PiSat
    const userSats: seq<UserSat>
    /** The element set of each row, as `get_tle` returned it. */
    const sats: seq<Tle>
    /** `sat_data`. */
    var table: seq<Row>
    /** `sat_paths`: the figure ids of each row's path, or None. */
    var paths: seq<Option<seq<Handle>>>
    /** Every path figure drawn or deleted so far. */
    var canvas: seq<CanvasOp>
    /** The id the next drawn figure receives. */
    var nextHandle: Handle

    /** One row, one element set and one cache per user satellite; each
        element set is what `get_tle` finds for its user entry; every cached
        id was handed out before. */
    ghost predicate Valid()
      reads this, ps
    {
      && |table| == |sats| == |paths| == |userSats|
      && (forall r :: 0 <= r < |sats| ==> ps.GetTle(Text(userSats[r].id)) == Ok(sats[r]))
      && (forall r :: 0 <= r < |table| ==> |table[r]| == |Headings|)
      && (forall r, k :: 0 <= r < |paths| && paths[r].Some? && 0 <= k < |paths[r].value| ==>
            paths[r].value[k] < nextHandle)
    }

    /** The session at the start of the main loop: the initial table, and
        no path cached for any row. */
    constructor (ps: PiSat, userSats: seq<UserSat>, sats: seq<Tle>, rows: seq<Row>)
      requires |rows| == |sats| == |userSats|
      requires forall r :: 0 <= r < |rows| ==> |rows[r]| == |Headings|
      requires forall r :: 0 <= r < |sats| ==> ps.GetTle(Text(userSats[r].id)) == Ok(sats[r])
      ensures Valid()
      ensures this.ps == ps && this.userSats == userSats && this.sats == sats && table == rows
      ensures |paths| == |sats| && forall r :: 0 <= r < |paths| ==> paths[r] == None
      ensures canvas == []
    {
      this.ps := ps;
      this.userSats := userSats;
      this.sats := sats;
      table := rows;
      paths := seq(|sats|, _ => None);
      canvas := [];
      nextHandle := 0;
    }

    /** The loop drawing a new path: one line per pair of consecutive
        samples, each new figure id appended to the row's (empty) cache. */
    method DrawPath(row: nat, samples: seq<PathSample>)
      requires Valid() && row < |paths| && paths[row] == Some([])
      modifies this
      ensures Valid()
      ensures var segs := Segments(samples);
              && paths == old(paths)[row := Some(Handles(old(nextHandle), |segs|))]
              && canvas == old(canvas) + DrawOps(old(nextHandle), segs)
              && nextHandle == old(nextHandle) + |segs|
      ensures table == old(table)
    {
      ghost var segs := Segments(samples);
      var first := nextHandle;
      var cache: seq<Handle> := [];
      var drawn: seq<CanvasOp> := [];
      var i := 0;
      while i < |samples| - 1
        invariant 0 <= i <= |segs|
        invariant cache == Handles(first, i)
        invariant drawn == DrawOps(first, segs[..i])
      {
        var pointFrom := PlotPolar(samples[i].0, samples[i].1);
        var pointTo := PlotPolar(samples[i + 1].0, samples[i + 1].1);
        assert Segment(pointFrom, pointTo) == segs[i];
        assert DrawOps(first, segs[..i + 1]) == DrawOps(first, segs[..i]) + [Draw(first + i, segs[i])];
        drawn := drawn + [Draw(first + i, Segment(pointFrom, pointTo))];
        cache := cache + [first + i];
        i := i + 1;
      }
      assert segs[..i] == segs;
      canvas := canvas + drawn;
      paths := paths[row := Some(cache)];
      nextHandle := first + i;
    }

    /** The loop erasing a row's path: delete each cached figure once, in
        order, then drop the cache. */
    method ErasePath(row: nat)
      requires Valid() && row < |paths| && paths[row].Some?
      modifies this
      ensures Valid()
      ensures paths == old(paths)[row := None]
      ensures canvas == old(canvas) + DeleteOps(old(paths[row].value))
      ensures nextHandle == old(nextHandle) && table == old(table)
    {
      var cache := paths[row].value;
      var i := 0;
      while i < |cache|
        invariant i <= |cache|
        invariant canvas == old(canvas) + DeleteOps(cache[..i])
        invariant paths == old(paths) && nextHandle == old(nextHandle) && table == old(table)
      {
        assert DeleteOps(cache[..i + 1]) == DeleteOps(cache[..i]) + [Delete(cache[i])];
        canvas := canvas + [Delete(cache[i])];
        i := i + 1;
      }
      assert cache[..i] == cache;
      paths := paths[row := None];
    }

    /** The body of the main loop for one row. `now` is the clock reading of
        the tick's `calc_diff`; `start` and `check` are the two readings
        `calc_path` takes when it is called. The table cells of the row are
        refreshed. If the satellite is up and has no cache, its path is
        computed (the only call of `calc_path`) and drawn; if it is down and
        has a cache, the path is erased; otherwise the skyplot is left alone.
        `hung` says that `calc_path` was still sampling after `fuel` samples. */
    method Step(row: nat, observe: Observe, round: real -> real, now: Time, start: Time, check: Time, fuel: nat)
      returns (hung: bool, path: Option<seq<PathSample>>)
      requires Valid() && row < |sats| && ps.position.Some?
      modifies this
      ensures Valid()
      ensures var angle := observe(ps.position.value, sats[row], now);
              && table == old(table)[row := TickRow(old(table)[row], angle, round)]
              && ((hung || path.Some?) <==> old(paths[row]).None? && angle.alt >= 0.0)
              && (!hung ==> (paths[row].Some? <==> angle.alt >= 0.0))
              && (old(paths[row]).Some? && angle.alt < 0.0 ==>
                    paths == old(paths)[row := None]
                    && canvas == old(canvas) + DeleteOps(old(paths[row].value))
                    && nextHandle == old(nextHandle))
              && (old(paths[row]).Some? && angle.alt >= 0.0 ==>
                    paths == old(paths) && canvas == old(canvas) && nextHandle == old(nextHandle))
              && (old(paths[row]).None? && angle.alt < 0.0 ==>
                    paths == old(paths) && canvas == old(canvas) && nextHandle == old(nextHandle))
      ensures !(hung && path.Some?)
      ensures hung ==> paths == old(paths)[row := Some([])] && canvas == old(canvas) && nextHandle == old(nextHandle)
      ensures path.Some? ==>
                IsPath(observe, ps.position.value, sats[row], start, check, path.value)
                && var segs := Segments(path.value);
                && paths == old(paths)[row := Some(Handles(old(nextHandle), |segs|))]
                && canvas == old(canvas) + DrawOps(old(nextHandle), segs)
                && nextHandle == old(nextHandle) + |segs|
    {
      var found := ps.GetTle(Text(userSats[row].id));
      var sat := found.value;
      var diff := ps.CalcDiff(observe, sat, now);
      var angle := diff.value;
      table := table[row := TickRow(table[row], angle, round)];
      hung, path := false, None;
      if angle.alt >= 0.0 && paths[row].None? {
        paths := paths[row := Some([])];
        var scan := ps.CalcPath(observe, sat, start, check, fuel);
        if !scan.Done? {
          return true, None;
        }
        DrawPath(row, scan.samples);
        path := Some(scan.samples);
      } else if angle.alt < 0.0 && paths[row].Some? {
        ErasePath(row);
      }
    }

    /** One pass of the main loop over all rows, in order. Unless some
        `calc_path` was still sampling, afterwards every row shows the
        tick's measurements and holds a path cache exactly when its
        satellite is at or above the horizon; a row that was cached and is
        still up keeps its cache, so its path is not computed again.
        Figures are only ever added to or deleted from the canvas log, and
        every line drawn during the tick gets a new id: at least the first
        unused id before the tick, below the first unused id after it. `times[r]` are the clock readings of
        row `r` (see Step). */
    method Tick(observe: Observe, round: real -> real, times: seq<(Time, Time, Time)>, fuel: nat)
      returns (hung: bool)
      requires Valid() && |times| == |sats| && ps.position.Some?
      modifies this
      ensures Valid()
      ensures old(canvas) <= canvas && old(nextHandle) <= nextHandle
      ensures forall i :: |old(canvas)| <= i < |canvas| && canvas[i].Draw? ==>
                old(nextHandle) <= canvas[i].handle < nextHandle
      ensures !hung ==> forall r :: 0 <= r < |sats| ==>
                var angle := observe(ps.position.value, sats[r], times[r].0);
                && table[r] == TickRow(old(table)[r], angle, round)
                && (paths[r].Some? <==> angle.alt >= 0.0)
                && (old(paths[r]).Some? && angle.alt >= 0.0 ==> paths[r] == old(paths[r]))
    {
      var row := 0;
      while row < |sats|
        invariant row <= |sats| && Valid()
        invariant old(canvas) <= canvas && old(nextHandle) <= nextHandle
        invariant forall i :: |old(canvas)| <= i < |canvas| && canvas[i].Draw? ==>
                    old(nextHandle) <= canvas[i].handle < nextHandle
        invariant forall r :: row <= r < |sats| ==> table[r] == old(table)[r] && paths[r] == old(paths[r])
        invariant forall r :: 0 <= r < row ==>
                    var angle := observe(ps.position.value, sats[r], times[r].0);
                    && table[r] == TickRow(old(table)[r], angle, round)
                    && (paths[r].Some? <==> angle.alt >= 0.0)
                    && (old(paths[r]).Some? && angle.alt >= 0.0 ==> paths[r] == old(paths[r]))
      {
        var (now, start, check) := times[row];
        var path;
        hung, path := Step(row, observe, round, now, start, check, fuel);
        if hung {
          return;
        }
        row := row + 1;
      }
      hung := false;
    }
  }
}
