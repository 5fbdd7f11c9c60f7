/** The polar skyplot layout of main.py: where a satellite at a given
    altitude and azimuth is drawn, the altitude circles and the azimuth
    spokes. Points are kept in polar form (azimuth, radius in pixels from
    the canvas centre); the sine and cosine that turn them into canvas
    coordinates are outside the model. */
module Skyplot {
  import opened Common
  import opened Builtins

  const CanvasSize: real := 400.0           // C_LEN
  const Margin: real := 10.0                // C_OFFSET
  const Span: real := CanvasSize - Margin   // C_LEN_OFF
  /** The radius of the horizon circle. */
  const PlotRadius: real := Span / 2.0
  const AltMinor: int := 1
  const AltMajor: int := 2

  /** A canvas point in polar form around C_CENTER. */
  datatype Polar = Polar(az: real, radius: real)

  /** `plot_polar(az, alt)`: the radius shrinks linearly from the horizon
      circle at altitude 0 to the centre at altitude 90. Negative altitudes
      are not filtered out and land outside the horizon circle. */
  function PlotPolar(az: real, alt: real): (p: Polar)
    ensures p.az == az
    ensures alt == 90.0 ==> p.radius == 0.0
    ensures alt == 0.0 ==> p.radius == PlotRadius
    ensures 90.0 - 90.0 * p.radius / PlotRadius == alt
  {
    var magnitude := (90.0 - alt) / 90.0;
    Polar(az, Span / 2.0 * magnitude)
  }

  /** Higher altitudes are drawn nearer the centre. */
  lemma PlotPolarMonotone(az1: real, alt1: real, az2: real, alt2: real)
    requires alt1 < alt2
    ensures PlotPolar(az1, alt1).radius > PlotPolar(az2, alt2).radius
  {
  }

  /** An altitude circle as drawn: radius, the `int()` of its label, line width. */
  datatype Circle = Circle(radius: real, caption: int, width: int)

  /** The altitude that circle `k` of `divs` stands for. */
  function CircleAltitude(divs: int, k: nat): real
    requires divs != 0
  {
    90.0 - (k + 1) as real * (90.0 / divs as real)
  }

  /** Circle `k` of `divs`: the `k+1`-th step outwards, labelled with its
      altitude; only the last one uses the major line width. */
  function CircleAt(divs: int, k: nat): Circle
    requires divs != 0
  {
    Circle((k + 1) as real * (PlotRadius / divs as real), Trunc(CircleAltitude(divs, k)),
           if k == divs - 1 then AltMajor else AltMinor)
  }

  /** Each altitude circle lies exactly where `plot_polar` draws a
      satellite at the circle's altitude. */
  lemma CircleMatchesPlot(divs: int, k: nat, az: real)
    requires divs != 0
    ensures CircleAt(divs, k).radius == PlotPolar(az, CircleAltitude(divs, k)).radius
  {
  }

  /** The outermost circle is the horizon, labelled 0 and drawn thick. */
  lemma OuterCircleIsHorizon(divs: int)
    requires divs > 0
    ensures CircleAt(divs, divs - 1) == Circle(PlotRadius, 0, AltMajor)
  {
  }

  /** `draw_altitude_circles(divs)`: the circles drawn, innermost first.
      `C_LEN_OFF / 2 / divs` raises ZeroDivisionError for `divs == 0`; a
      negative `divs` draws nothing. */
  method DrawAltitudeCircles(divs: int) returns (r: Result<seq<Circle>>)
    ensures r.Ok? <==> divs != 0
    ensures r.Err? ==> r.fault == DivisionByZero
    ensures r.Ok? ==> |r.value| == (if divs < 0 then 0 else divs)
                      && forall k :: 0 <= k < |r.value| ==> r.value[k] == CircleAt(divs, k)
  {
    if divs == 0 {
      return Err(DivisionByZero);
    }
    var circleOffset := PlotRadius / divs as real;
    var angleOffset := 90.0 / divs as real;
    var radius := circleOffset;
    var angleLabel := 90.0 - angleOffset;
    var lineWidth := AltMinor;
    var circles: seq<Circle> := [];
    var i := 0;
    while i < divs
      invariant divs > 0 ==> 0 <= i <= divs
      invariant divs < 0 ==> i == 0
      invariant |circles| == i
      invariant radius == (i + 1) as real * circleOffset
      invariant angleLabel == 90.0 - (i + 1) as real * angleOffset
      invariant i < divs ==> lineWidth == AltMinor
      invariant forall k :: 0 <= k < i ==> circles[k] == CircleAt(divs, k)
    {
      if i == divs - 1 {
        lineWidth := AltMajor;
      }
      circles := circles + [Circle(radius, Trunc(angleLabel), lineWidth)];
      radius := radius + circleOffset;
      angleLabel := angleLabel - angleOffset;
      i := i + 1;
    }
    return Ok(circles);
  }

  /** An azimuth spoke, from the centre to the horizon circle, and its label. */
  datatype Spoke = Spoke(az: real, caption: int)

  /** `draw_azimuth_lines(graph, divs)`: the body overrides `divs` with 12,
      so whatever is passed, twelve spokes are drawn every 30 degrees and
      labelled 0, 30, ..., 330. */
  method DrawAzimuthLines(divs: int) returns (spokes: seq<Spoke>)
    ensures |spokes| == 12
    ensures forall k :: 0 <= k < 12 ==> spokes[k] == Spoke(30.0 * k as real, 30 * k)
  {
    var count := 12;
    spokes := [];
    var i := 0;
    while i < count
      invariant 0 <= i <= count && |spokes| == i
      invariant forall k :: 0 <= k < i ==> spokes[k] == Spoke(30.0 * k as real, 30 * k)
    {
      var az := (i * 360) as real / count as real;
      assert az == 30.0 * i as real;
      spokes := spokes + [Spoke(az, Trunc(az))];
      i := i + 1;
    }
  }
}
