/** `compute_distance` and `velocity_column`: per-point distance, velocity
    and acceleration of a track under a uniform time step. The geodesic
    distance of geopy (WGS-84) is the parameter `geodesic`; all arithmetic
    is on exact reals. */
module Kinematics {
  import opened Options
  import opened KmlCoordinates

  /** A shapely `Point`: `x` is the longitude, `y` the latitude. */
  datatype Point = Point(x: real, y: real)

  /** A (latitude, longitude) pair, the argument order geopy expects. */
  datatype LatLon = LatLon(lat: real, lon: real)

  /** The geometry `coords_to_geodataframe` gives a sample: `Point(lon, lat)`. */
  function PointOf(s: Sample): Point {
    Point(s.lon, s.lat)
  }

  /** The geometry column of a frame built from `rows`. */
  function Geometry(rows: seq<Sample>): (g: seq<Point>)
    ensures |g| == |rows| && forall i :: 0 <= i < |rows| ==> g[i] == PointOf(rows[i])
  {
    seq(|rows|, i requires 0 <= i < |rows| => PointOf(rows[i]))
  }

  /** `compute_distance(p1, p2)`: geodesic distance, called as `((y, x), (y, x))`. */
  function ComputeDistance(p1: Point, p2: Point, geodesic: (LatLon, LatLon) -> real): real {
    geodesic(LatLon(p1.y, p1.x), LatLon(p2.y, p2.x))
  }

  /** The two coordinate swaps compose correctly: the distance between two
      samples is the geodesic between their (lat, lon) pairs. */
  lemma DistanceOfSamples(s: Sample, t: Sample, geodesic: (LatLon, LatLon) -> real)
    ensures ComputeDistance(PointOf(s), PointOf(t), geodesic) ==
            geodesic(LatLon(s.lat, s.lon), LatLon(t.lat, t.lon))
  {
  }

  /** The `distances` list: 0 first, then the distance of each point from
      the one before it. */
  function StepDistances(pts: seq<Point>, geodesic: (LatLon, LatLon) -> real): (d: seq<real>)
    ensures |d| == if |pts| == 0 then 1 else |pts|
    ensures d[0] == 0.0
    ensures forall i :: 1 <= i < |pts| ==> d[i] == ComputeDistance(pts[i - 1], pts[i], geodesic)
  {
    if |pts| <= 1 then [0.0]
    else
      var n := |pts|;
      StepDistances(pts[..n - 1], geodesic) + [ComputeDistance(pts[n - 2], pts[n - 1], geodesic)]
  }

  /** The loop at the start of `velocity_column` that builds `distances`. */
  method DistanceList(pts: seq<Point>, geodesic: (LatLon, LatLon) -> real) returns (distances: seq<real>)
    ensures distances == StepDistances(pts, geodesic)
  {
    distances := [0.0];
    var i := 1;
    while i < |pts|
      invariant 1 <= i <= if |pts| == 0 then 1 else |pts|
      invariant distances == StepDistances(pts[..if |pts| == 0 then 0 else i], geodesic)
    {
      assert pts[..i + 1][..i] == pts[..i];
      var d := ComputeDistance(pts[i - 1], pts[i], geodesic);
      distances := distances + [d];
      i := i + 1;
    }
    if |pts| > 0 {
      assert pts[..i] == pts;
    } else {
      assert StepDistances(pts, geodesic) == [0.0];
    }
  }

  /** The uniform time step: `total_time / (num_points - 1)`; for an empty
      frame that is `-total_time`. */
  function TimeStep(total: real, n: nat): (dt: real)
    requires n != 1
    ensures dt * (n - 1) as real == total
    ensures total != 0.0 ==> dt != 0.0
  {
    total / (n - 1) as real
  }

  /** `df['distance_m'] / dt`, element-wise. */
  function Velocity(d: seq<real>, dt: real): (v: seq<real>)
    requires dt != 0.0
  {
    seq(|d|, i requires 0 <= i < |d| => d[i] / dt)
  }

  /** `df['velocity_mps'] * 3.6`, element-wise. */
  function Kph(v: seq<real>): (k: seq<real>) {
    seq(|v|, i requires 0 <= i < |v| => v[i] * 3.6)
  }

  /** pandas `Series.diff()`: no value first, then successive differences. */
  function Diff(v: seq<real>): (r: seq<Option<real>>) {
    seq(|v|, i requires 0 <= i < |v| => if i == 0 then None else Some(v[i] - v[i - 1]))
  }

  /** A nullable column divided by `dt`; a missing value stays missing. */
  function DivideColumn(col: seq<Option<real>>, dt: real): (r: seq<Option<real>>)
    requires dt != 0.0
  {
    seq(|col|, i requires 0 <= i < |col| => if col[i].Some? then Some(col[i].value / dt) else None)
  }

  /** `df['velocity_mps'].diff() / dt`. */
  function Acceleration(v: seq<real>, dt: real): seq<Option<real>>
    requires dt != 0.0
  {
    DivideColumn(Diff(v), dt)
  }

  /** The four columns `velocity_column` adds to the frame. */
  datatype Columns = Columns(distanceM: seq<real>, velocityMps: seq<real>,
                             velocityKph: seq<real>, accelerationMps2: seq<Option<real>>)

  /** The exceptions of the track script: division by zero at the time
      step of `velocity_column` (one point), and geopandas refusing to
      build a frame from no coordinates (no `geometry` column to set). */
  datatype KinematicsError = ZeroDivision | UnknownGeometryColumn

  /** What `velocity_column` computes for a track, or the exception it raises.
      On an empty frame pandas takes the index of the one-entry `distances`
      list, so the columns get one row. A zero total yields inf/NaN in
      pandas; that case is excluded. */
  function VelocityColumns(pts: seq<Point>, total: real, geodesic: (LatLon, LatLon) -> real)
    : (r: Result<Columns, KinematicsError>)
    requires |pts| == 1 || total != 0.0
    ensures r.Err? <==> |pts| == 1
    ensures r.Err? ==> r.error == ZeroDivision
    ensures r.Ok? ==> ColumnsOf(pts, TimeStep(total, |pts|), geodesic, r.value)
    ensures |pts| == 0 ==> r == Ok(Columns([0.0], [0.0], [0.0], [None]))
  {
    var n := |pts|;
    if n == 1 then Err(ZeroDivision)
    else
      var dt := TimeStep(total, n);
      BuildColumnsMeetsSpec(pts, dt, geodesic);
      if n == 0 then
        EmptyFrameColumns(dt, geodesic);
        Ok(BuildColumns(pts, dt, geodesic))
      else
        Ok(BuildColumns(pts, dt, geodesic))
  }

  /** The one row an empty frame gets: no distance, no speed, no acceleration. */
  lemma EmptyFrameColumns(dt: real, geodesic: (LatLon, LatLon) -> real)
    requires dt != 0.0
    ensures BuildColumns([], dt, geodesic) == Columns([0.0], [0.0], [0.0], [None])
  {
    var c := BuildColumns([], dt, geodesic);
    assert c.distanceM == [0.0];
    assert c.velocityMps[0] == 0.0;
    assert c.velocityMps == [0.0];
    assert c.velocityKph == [0.0];
    assert c.accelerationMps2 == [None];
  }

  /** Apart from one point, the columns are those of `BuildColumns`. */
  lemma VelocityColumnsOk(pts: seq<Point>, total: real, geodesic: (LatLon, LatLon) -> real)
    requires |pts| != 1 && total != 0.0
    ensures VelocityColumns(pts, total, geodesic) == Ok(BuildColumns(pts, TimeStep(total, |pts|), geodesic))
  {
  }

  /** The four columns of a track, column by column, for time step `dt`. */
  function BuildColumns(pts: seq<Point>, dt: real, geodesic: (LatLon, LatLon) -> real): Columns
    requires dt != 0.0
  {
    var d := StepDistances(pts, geodesic);
    var v := Velocity(d, dt);
    Columns(d, v, Kph(v), Acceleration(v, dt))
  }

  /** The four columns of a track, entry by entry, for time step `dt`. */
  ghost predicate ColumnsOf(pts: seq<Point>, dt: real, geodesic: (LatLon, LatLon) -> real, c: Columns)
    requires dt != 0.0
  {
    DistancesOf(pts, geodesic, c.distanceM) &&
    SpeedsOf(c.distanceM, dt, c.velocityMps, c.velocityKph) &&
    AccelerationsOf(c.velocityMps, dt, c.accelerationMps2)
  }

  /** One distance per point (a single 0 for no point): 0 for the first,
      then from the point before. */
  ghost predicate DistancesOf(pts: seq<Point>, geodesic: (LatLon, LatLon) -> real, d: seq<real>) {
    |d| == (if |pts| == 0 then 1 else |pts|) && d[0] == 0.0 &&
    forall i :: 1 <= i < |pts| ==> d[i] == ComputeDistance(pts[i - 1], pts[i], geodesic)
  }

  /** Speed in m/s is distance over `dt`; km/h is m/s times 3.6. */
  ghost predicate SpeedsOf(d: seq<real>, dt: real, mps: seq<real>, kph: seq<real>)
    requires dt != 0.0
  {
    |mps| == |d| && |kph| == |d| &&
    (forall i :: 0 <= i < |d| ==> mps[i] == d[i] / dt) &&
    (forall i :: 0 <= i < |d| ==> kph[i] == mps[i] * 3.6)
  }

  /** No acceleration for the first point; then the change of speed over `dt`. */
  ghost predicate AccelerationsOf(v: seq<real>, dt: real, a: seq<Option<real>>)
    requires dt != 0.0
  {
    |a| == |v| && (|v| > 0 ==> a[0] == None) &&
    forall i :: 1 <= i < |v| ==> a[i] == Some((v[i] - v[i - 1]) / dt)
  }

  lemma BuildColumnsMeetsSpec(pts: seq<Point>, dt: real, geodesic: (LatLon, LatLon) -> real)
    requires dt != 0.0
    ensures ColumnsOf(pts, dt, geodesic, BuildColumns(pts, dt, geodesic))
  {
    var d := StepDistances(pts, geodesic);
    var v := Velocity(d, dt);
    assert DistancesOf(pts, geodesic, d);
    assert SpeedsOf(d, dt, v, Kph(v));
    AccelerationColumn(v, dt);
  }

  /** The acceleration column, entry by entry. */
  lemma AccelerationColumn(v: seq<real>, dt: real)
    requires dt != 0.0
    ensures AccelerationsOf(v, dt, Acceleration(v, dt))
  {
    var a := Acceleration(v, dt);
    forall i | 0 <= i < |v|
      ensures a[i] == if i == 0 then None else Some((v[i] - v[i - 1]) / dt)
    {
      assert Diff(v)[i] == if i == 0 then None else Some(v[i] - v[i - 1]);
    }
  }

  /** Sum of a column. */
  function Sum(s: seq<real>): real {
    if s == [] then 0.0 else Sum(s[..|s| - 1]) + s[|s| - 1]
  }

  /** Sum of the values a nullable column holds (pandas `sum()` skips NaN). */
  function SumPresent(s: seq<Option<real>>): real {
    if s == [] then 0.0
    else SumPresent(s[..|s| - 1]) + s[|s| - 1].GetOr(0.0)
  }

  /** Length of the polyline through the points, in geodesic distance. */
  function PathLength(pts: seq<Point>, geodesic: (LatLon, LatLon) -> real): real {
    if |pts| <= 1 then 0.0
    else
      var n := |pts|;
      PathLength(pts[..n - 1], geodesic) + ComputeDistance(pts[n - 2], pts[n - 1], geodesic)
  }

  /** The distance column adds up to the length of the track. */
  lemma {:induction false} DistancesSumToPathLength(pts: seq<Point>, geodesic: (LatLon, LatLon) -> real,
                                                    d: seq<real>)
    requires DistancesOf(pts, geodesic, d)
    ensures Sum(d) == PathLength(pts, geodesic)
    decreases |pts|
  {
    var n := |pts|;
    if n <= 1 {
      assert d[..0] == [];
    } else {
      var d', pts' := d[..n - 1], pts[..n - 1];
      assert DistancesOf(pts', geodesic, d');
      DistancesSumToPathLength(pts', geodesic, d');
    }
  }

  /** Dividing every entry by `dt` divides the sum by `dt`. */
  lemma {:induction false} SumOfQuotients(d: seq<real>, dt: real, v: seq<real>)
    requires dt != 0.0 && |v| == |d|
    requires forall i :: 0 <= i < |d| ==> v[i] == d[i] / dt
    ensures Sum(v) * dt == Sum(d)
    decreases |d|
  {
    if d != [] {
      var n := |d|;
      SumOfQuotients(d[..n - 1], dt, v[..n - 1]);
      assert v[n - 1] * dt == d[n - 1];
    }
  }

  /** The speeds integrate back to the track: the speed column times the
      time step adds up to the length of the track, for the columns of any
      track and step (in particular those `VelocityColumns` returns). */
  lemma SpeedsIntegrateToPathLength(pts: seq<Point>, geodesic: (LatLon, LatLon) -> real, dt: real, c: Columns)
    requires dt != 0.0 && ColumnsOf(pts, dt, geodesic, c)
    ensures Sum(c.velocityMps) * dt == PathLength(pts, geodesic)
  {
    SpeedsSumToPathLength(pts, geodesic, dt, c.distanceM, c.velocityMps, c.velocityKph);
  }

  /** The speeds, times the step, add up to the length of the track. */
  lemma SpeedsSumToPathLength(pts: seq<Point>, geodesic: (LatLon, LatLon) -> real, dt: real,
                              d: seq<real>, mps: seq<real>, kph: seq<real>)
    requires dt != 0.0
    requires DistancesOf(pts, geodesic, d) && SpeedsOf(d, dt, mps, kph)
    ensures Sum(mps) * dt == PathLength(pts, geodesic)
  {
    DistancesSumToPathLength(pts, geodesic, d);
    SumOfQuotients(d, dt, mps);
  }

  /** The successive differences of a column add up to its last value
      minus its first. */
  lemma {:induction false} DiffTelescopes(v: seq<real>)
    requires |v| >= 1
    ensures SumPresent(Diff(v)) == v[|v| - 1] - v[0]
    decreases |v|
  {
    var n := |v|;
    if n == 1 {
      assert Diff(v)[..0] == [];
    } else {
      var v' := v[..n - 1];
      assert Diff(v)[..n - 1] == Diff(v');
      DiffTelescopes(v');
    }
  }

  /** Dividing a nullable column by `dt` divides its sum by `dt`. */
  lemma {:induction false} SumOfDivided(col: seq<Option<real>>, dt: real)
    requires dt != 0.0
    ensures SumPresent(DivideColumn(col, dt)) * dt == SumPresent(col)
    decreases |col|
  {
    if col != [] {
      var n := |col|;
      var col' := col[..n - 1];
      assert DivideColumn(col, dt)[..n - 1] == DivideColumn(col', dt);
      SumOfDivided(col', dt);
      assert DivideColumn(col, dt)[n - 1].GetOr(0.0) * dt == col[n - 1].GetOr(0.0);
    }
  }

  /** The accelerations add up, over `dt`, to the change of speed from the
      first point to the last. */
  lemma AccelerationsTelescope(v: seq<real>, dt: real, a: seq<Option<real>>)
    requires dt != 0.0 && |v| >= 1
    requires AccelerationsOf(v, dt, a)
    ensures SumPresent(a) * dt == v[|v| - 1] - v[0]
  {
    AccelerationsAreDefined(v, dt, a);
    AccelerationColumnTelescopes(v, dt, a);
  }

  /** `AccelerationsTelescope` for the computed column. */
  lemma AccelerationColumnTelescopes(v: seq<real>, dt: real, a: seq<Option<real>>)
    requires dt != 0.0 && |v| >= 1
    requires a == Acceleration(v, dt)
    ensures SumPresent(a) * dt == v[|v| - 1] - v[0]
  {
    DividedDiffTelescopes(v, dt);
  }

  /** The differences of a column, divided by `dt`, add up to its change over `dt`. */
  lemma DividedDiffTelescopes(v: seq<real>, dt: real)
    requires dt != 0.0 && |v| >= 1
    ensures SumPresent(DivideColumn(Diff(v), dt)) * dt == v[|v| - 1] - v[0]
  {
    SumOfDivided(Diff(v), dt);
    DiffTelescopes(v);
  }

  /** A column meeting `AccelerationsOf` is the computed acceleration column. */
  lemma AccelerationsAreDefined(v: seq<real>, dt: real, a: seq<Option<real>>)
    requires dt != 0.0
    requires AccelerationsOf(v, dt, a)
    ensures a == Acceleration(v, dt)
  {
    var b := Acceleration(v, dt);
    forall i | 0 <= i < |a|
      ensures a[i] == b[i]
    {
      if i > 0 {
        assert Diff(v)[i] == Some(v[i] - v[i - 1]);
      }
    }
  }

  /** Unit conversion: m/s times 3.6 is kilometres per hour. */
  lemma KphConversion(d: real, dt: real)
    requires dt != 0.0
    ensures d / dt * 3.6 == (d / 1000.0) / (dt / 3600.0)
  {
  }

  /** Quotients by `dt` can be subtracted under it. */
  lemma DifferenceOfQuotients(d1: real, d0: real, dt: real)
    requires dt != 0.0
    ensures d1 / dt - d0 / dt == (d1 - d0) / dt
  {
  }

  /** The columns restated in the track's own terms: speed starts at 0 and
      acceleration is the second difference of distance over dt squared;
      the km/h column is kilometres per hour of the same motion. */
  lemma ColumnsInTermsOfDistance(pts: seq<Point>, dt: real, geodesic: (LatLon, LatLon) -> real, c: Columns, i: nat)
    requires dt != 0.0 && ColumnsOf(pts, dt, geodesic, c) && i < |pts|
    ensures c.velocityMps[0] == 0.0
    ensures c.velocityKph[i] == (c.distanceM[i] / 1000.0) / (dt / 3600.0)
    ensures i >= 1 ==> c.accelerationMps2[i] == Some((c.distanceM[i] - c.distanceM[i - 1]) / dt / dt)
  {
    ColumnsOfInTermsOfDistance(dt, c.distanceM, c.velocityMps, c.velocityKph, c.accelerationMps2, i);
  }

  /** `ColumnsInTermsOfDistance` for any columns that meet their definitions. */
  lemma ColumnsOfInTermsOfDistance(dt: real, d: seq<real>, mps: seq<real>, kph: seq<real>,
                                   a: seq<Option<real>>, i: nat)
    requires dt != 0.0 && i < |d| && d[0] == 0.0
    requires SpeedsOf(d, dt, mps, kph) && AccelerationsOf(mps, dt, a)
    ensures mps[0] == 0.0 && kph[i] == (d[i] / 1000.0) / (dt / 3600.0)
    ensures i >= 1 ==> a[i] == Some((d[i] - d[i - 1]) / dt / dt)
  {
    KphConversion(d[i], dt);
    if i >= 1 {
      DifferenceOfQuotients(d[i], d[i - 1], dt);
    }
  }

  /** The frame `velocity_column` works on: the rows of
      `coords_to_geodataframe`, their geometry, and the columns it adds in
      place (empty until it has run). */
  class TrackFrame {
    var rows: seq<Sample>
    var geometry: seq<Point>
    var distanceM: seq<real>
    var velocityMps: seq<real>
    var velocityKph: seq<real>
    var accelerationMps2: seq<Option<real>>

    /** The geometry column is `Point(lon, lat)` of each row. */
    ghost predicate Valid()
      reads this
    {
      geometry == Geometry(rows)
    }

    constructor (rows: seq<Sample>)
      ensures Valid() && this.rows == rows
      ensures distanceM == [] && velocityMps == [] && velocityKph == [] && accelerationMps2 == []
    {
      this.rows := rows;
      geometry := Geometry(rows);
      distanceM, velocityMps, velocityKph, accelerationMps2 := [], [], [], [];
    }

    /** `velocity_column(df, total_time)`: adds the four columns, or raises
        (and then leaves the frame as it was). */
    method VelocityColumn(total: real, geodesic: (LatLon, LatLon) -> real)
      returns (raised: Option<KinematicsError>)
      requires Valid()
      requires |rows| == 1 || total != 0.0
      modifies this
      ensures Valid() && rows == old(rows) && geometry == old(geometry)
      ensures match VelocityColumns(geometry, total, geodesic)
        case Err(e) =>
          raised == Some(e) && distanceM == old(distanceM) && velocityMps == old(velocityMps) &&
          velocityKph == old(velocityKph) && accelerationMps2 == old(accelerationMps2)
        case Ok(c) =>
          raised == None && distanceM == c.distanceM && velocityMps == c.velocityMps &&
          velocityKph == c.velocityKph && accelerationMps2 == c.accelerationMps2
    {
      var n := |geometry|;
      if n == 1 {
        return Some(ZeroDivision);
      }
      var dt := total / (n - 1) as real;
      var distances := DistanceList(geometry, geodesic);
      assert dt == TimeStep(total, n);
      VelocityColumnsOk(geometry, total, geodesic);
      distanceM := distances;
      velocityMps := Velocity(distanceM, dt);
      velocityKph := Kph(velocityMps);
      accelerationMps2 := Acceleration(velocityMps, dt);
      raised := None;
    }
  }

  /** `TOTAL_TIME_SEC`: 5 minutes 49 seconds. */
  const TotalTimeSec: real := 5.0 * 60.0 + 49.0

  /** `main` of the track script, without its printing: extract the
      coordinates, build the frame, add the kinematic columns. */
  method AnalyseTrack(texts: seq<Option<string>>, parse: string -> Option<real>,
                      geodesic: (LatLon, LatLon) -> real)
    returns (frame: TrackFrame, raised: Option<KinematicsError>)
    ensures fresh(frame) && frame.Valid() && frame.rows == ExtractAll(texts, parse)
    ensures raised == Some(UnknownGeometryColumn) <==> |frame.rows| == 0
    ensures raised == Some(ZeroDivision) <==> |frame.rows| == 1
    ensures raised == None ==>
      var c := VelocityColumns(frame.geometry, TotalTimeSec, geodesic).value;
      frame.distanceM == c.distanceM && frame.velocityMps == c.velocityMps &&
      frame.velocityKph == c.velocityKph && frame.accelerationMps2 == c.accelerationMps2
  {
    var coords := ExtractKmlCoordinates(texts, parse);
    frame := new TrackFrame(coords);
    if |coords| == 0 {
      return frame, Some(UnknownGeometryColumn);
    }
    raised := frame.VelocityColumn(TotalTimeSec, geodesic);
  }
}
