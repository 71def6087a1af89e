/** The markers a track draws: a point visualisation anchored at one time, or
    a duration visualisation spanning a start and an end time. Positions are
    in the track's time-scaled coordinate space, whose width is the track's
    child width (see `Tracks.ChildSize`). */
module Visualisations {
  import opened Reals

  /** What a point visualisation stands for: a timing control point, another
      control point, or a bookmark. The colour each kind is drawn in is not
      modelled. */
  datatype PointKind<CP> =
    | TimingPoint(controlPoint: CP)
    | NonTimingPoint(controlPoint: CP)
    | Bookmark

  /** `x` is the position along the time axis and `width` the extent. A point
      is one unit wide in absolute units; a duration's width is in time units. */
  datatype Visualisation<CP> =
    | Point(kind: PointKind<CP>, startTime: real, x: real, width: real)
    | Duration(startTime: real, endTime: real, x: real, width: real)

  /** A break in the beatmap: its start and end times. */
  datatype BreakPeriod = BreakPeriod(startTime: real, endTime: real)

  /** A visualisation sits where its times say: its position is its start
      time; a point is one unit wide; a duration reaches exactly its end time. */
  predicate Anchored<CP>(v: Visualisation<CP>) {
    v.x == v.startTime &&
    match v
    case Point(_, _, _, w) => w == 1.0
    case Duration(_, e, x, w) => x + w == e
  }

  /** The `PointVisualisation` constructor: it records its start time and
      places itself there. */
  function PointVisualisation<CP>(kind: PointKind<CP>, startTime: real): (v: Visualisation<CP>)
    ensures v.Point? && v.kind == kind && v.startTime == startTime
    ensures Anchored(v)
  {
    Point(kind, startTime, startTime, 1.0)
  }

  /** The `DurationVisualisation` constructor: it records both times and spans
      them. The times are not checked, so an end before the start gives a
      negative width. */
  function DurationVisualisation<CP>(startTime: real, endTime: real): (v: Visualisation<CP>)
    ensures v.Duration? && v.startTime == startTime && v.endTime == endTime
    ensures Anchored(v)
    ensures v.width < 0.0 <==> endTime < startTime
  {
    Duration(startTime, endTime, startTime, endTime - startTime)
  }

  /** Where a coordinate of a time-scaled space lands as a fraction of the
      drawn width: the framework divides by the container's child width. */
  function RelativePosition(x: real, childWidth: real): (f: real)
    requires childWidth > 0.0
    ensures 0.0 <= x <= childWidth ==> 0.0 <= f <= 1.0
    ensures f * childWidth == x
  {
    assert 0.0 <= x <= childWidth ==> 0.0 <= x / childWidth <= 1.0 by {
      if 0.0 <= x <= childWidth { FractionOf(x, childWidth); }
    }
    x / childWidth
  }
}
