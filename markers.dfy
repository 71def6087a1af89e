/** What each track of the timing timeline shows for a beatmap: the
    `LoadBeatmap` population step of the control-point, bookmark and break
    tracks, as functions from beatmap data to the sequence of markers added. */
module Markers {
  import opened Sequences
  import opened Visualisations

  /** A beatmap's control points. `CP` is the control-point type; its `==` is
      control-point equality, the one `Distinct` uses. `time` reads a point's
      time and `timingPointAt` is the lookup of the timing point in effect at
      a time; both belong to the beatmap library and are supplied here. */
  datatype ControlPointInfo<!CP> = ControlPointInfo(
    timingPoints: seq<CP>,
    soundPoints: seq<CP>,
    effectPoints: seq<CP>,
    difficultyPoints: seq<CP>,
    time: CP -> real,
    timingPointAt: real -> CP)

  /** The parts of a beatmap the tracks read. Bookmarks are whole numbers of
      milliseconds. */
  datatype BeatmapData<!CP> = BeatmapData(
    controlPointInfo: ControlPointInfo<CP>,
    bookmarks: seq<int>,
    breaks: seq<BreakPeriod>)

  /** The three concrete tracks. */
  datatype TrackKind = ControlPoints | Bookmarks | Breaks

  /** A control point's marker starts at the point's time and remembers the
      point; `timing` picks the timing or the non-timing kind. */
  function ControlPointVisualisation<CP>(cp: CP, timing: bool, time: CP -> real): (v: Visualisation<CP>)
    ensures v.Point? && v.startTime == time(cp) && Anchored(v)
    ensures v.kind.TimingPoint? == timing && v.kind.NonTimingPoint? == !timing
    ensures v.kind.controlPoint == cp
  {
    PointVisualisation(if timing then TimingPoint(cp) else NonTimingPoint(cp), time(cp))
  }

  /** One control-point marker per point, in order. */
  function PointMarkers<CP>(points: seq<CP>, timing: bool, time: CP -> real): (r: seq<Visualisation<CP>>)
    ensures |r| == |points|
    ensures forall k :: 0 <= k < |points| ==> r[k] == ControlPointVisualisation(points[k], timing, time)
  {
    if |points| == 0 then []
    else PointMarkers(points[..|points| - 1], timing, time) + [ControlPointVisualisation(points[|points| - 1], timing, time)]
  }

  /** The sound, effect and difficulty points, treated as one kind. */
  function AllNonTimingPoints<CP>(cpi: ControlPointInfo<CP>): seq<CP> {
    cpi.soundPoints + cpi.effectPoints + cpi.difficultyPoints
  }

  /** A non-timing point is shown only where no timing point is: the timing
      point in effect at its time must not start at that same time. */
  predicate Survives<CP>(cpi: ControlPointInfo<CP>, c: CP) {
    cpi.time(cpi.timingPointAt(cpi.time(c))) != cpi.time(c)
  }

  /** The non-timing points the control-point track shows: the distinct ones
      that survive the coincidence filter. */
  function NonTimingPoints<CP(==)>(cpi: ControlPointInfo<CP>): seq<CP> {
    Filter(c => Survives(cpi, c), Distinct(AllNonTimingPoints(cpi)))
  }

  /** `ControlPointTimeline.LoadBeatmap`: a timing marker per timing point, then
      a non-timing marker per selected non-timing point. */
  function ControlPointMarkers<CP(==)>(cpi: ControlPointInfo<CP>): seq<Visualisation<CP>> {
    PointMarkers(cpi.timingPoints, true, cpi.time) + PointMarkers(NonTimingPoints(cpi), false, cpi.time)
  }

  /** A bookmark's marker: a point at the bookmark's time. */
  function BookmarkVisualisation<CP>(bookmark: int): (v: Visualisation<CP>)
    ensures v.Point? && v.kind == Bookmark && v.startTime == bookmark as real && Anchored(v)
  {
    PointVisualisation(Bookmark, bookmark as real)
  }

  /** `BookmarkTimeline.LoadBeatmap`: one bookmark marker per bookmark, in order. */
  function BookmarkMarkers<CP>(bookmarks: seq<int>): (r: seq<Visualisation<CP>>)
    ensures |r| == |bookmarks|
    ensures forall k :: 0 <= k < |bookmarks| ==>
      r[k].Point? && r[k].kind == Bookmark && r[k].startTime == r[k].x == bookmarks[k] as real && Anchored(r[k])
  {
    if |bookmarks| == 0 then []
    else BookmarkMarkers(bookmarks[..|bookmarks| - 1]) + [BookmarkVisualisation(bookmarks[|bookmarks| - 1])]
  }

  /** A break's marker: a duration over the break. */
  function BreakVisualisation<CP>(b: BreakPeriod): (v: Visualisation<CP>)
    ensures v.Duration? && v.startTime == b.startTime && v.endTime == b.endTime && Anchored(v)
    ensures v.width == b.endTime - b.startTime
  {
    DurationVisualisation(b.startTime, b.endTime)
  }

  /** `BreakTimeline.LoadBeatmap`: one duration marker per break, in order,
      from the break's start to its end, whatever their order. */
  function BreakMarkers<CP>(breaks: seq<BreakPeriod>): (r: seq<Visualisation<CP>>)
    ensures |r| == |breaks|
    ensures forall k :: 0 <= k < |breaks| ==>
      r[k].Duration? && r[k].startTime == r[k].x == breaks[k].startTime &&
      r[k].endTime == breaks[k].endTime && r[k].width == breaks[k].endTime - breaks[k].startTime
  {
    if |breaks| == 0 then []
    else BreakMarkers(breaks[..|breaks| - 1]) + [BreakVisualisation(breaks[|breaks| - 1])]
  }

  /** The markers a track of kind `kind` adds for a beatmap. */
  function TrackMarkers<CP(==)>(kind: TrackKind, data: BeatmapData<CP>): seq<Visualisation<CP>> {
    match kind
    case ControlPoints => ControlPointMarkers(data.controlPointInfo)
    case Bookmarks => BookmarkMarkers(data.bookmarks)
    case Breaks => BreakMarkers(data.breaks)
  }

  /** The non-timing selection: exactly the input points that survive the
      coincidence filter, none twice, in the order of their first occurrence
      among the sound, effect and difficulty points. */
  lemma NonTimingSelection<CP>(cpi: ControlPointInfo<CP>)
    ensures var r, all := NonTimingPoints(cpi), AllNonTimingPoints(cpi);
      && (forall k :: 0 <= k < |r| ==> r[k] in all && Survives(cpi, r[k]))
      && (forall k :: 0 <= k < |all| && Survives(cpi, all[k]) ==> all[k] in r)
      && NoDuplicates(r)
      && OrderedBy(r, all)
  {
    var all := AllNonTimingPoints(cpi);
    var d := Distinct(all);
    var p := c => Survives(cpi, c);
    DistinctNoDuplicates(all);
    FilterNoDuplicates(p, d);
    DistinctOrderedBy(all);
    FilterOrderedBy(p, d, all);
    var r := NonTimingPoints(cpi);
    forall k | 0 <= k < |r| ensures r[k] in all && Survives(cpi, r[k]) {
      FilterElements(p, d, r[k]);
      DistinctElements(all, r[k]);
    }
    forall k | 0 <= k < |all| && Survives(cpi, all[k]) ensures all[k] in r {
      DistinctElements(all, all[k]);
      FilterElements(p, d, all[k]);
    }
  }

  /** The control-point track: the timing markers first, one per timing point
      in order, each at its point's time; then one non-timing marker per
      selected non-timing point, in order. */
  lemma ControlPointMarkersLayout<CP>(cpi: ControlPointInfo<CP>)
    ensures var r, tp, nt := ControlPointMarkers(cpi), cpi.timingPoints, NonTimingPoints(cpi);
      && |r| == |tp| + |nt|
      && (forall k :: 0 <= k < |tp| ==>
            r[k].Point? && r[k].kind == TimingPoint(tp[k]) && r[k].startTime == cpi.time(tp[k]))
      && (forall k :: 0 <= k < |nt| ==>
            r[|tp| + k].Point? && r[|tp| + k].kind == NonTimingPoint(nt[k]) && r[|tp| + k].startTime == cpi.time(nt[k]))
  {
    var tp, nt := cpi.timingPoints, NonTimingPoints(cpi);
    var a, b := PointMarkers(tp, true, cpi.time), PointMarkers(nt, false, cpi.time);
    forall k | 0 <= k < |nt|
      ensures (a + b)[|tp| + k] == ControlPointVisualisation(nt[k], false, cpi.time)
    {
      assert (a + b)[|a| + k] == b[k];
    }
  }

  /** Where a non-timing marker sits in the control-point track: after the
      timing markers, at the position of its point among the selected ones. */
  lemma NonTimingMarkerAt<CP>(cpi: ControlPointInfo<CP>, k: nat)
    requires k < |ControlPointMarkers(cpi)|
    ensures var r, tp, nt := ControlPointMarkers(cpi), cpi.timingPoints, NonTimingPoints(cpi);
      (r[k].kind.NonTimingPoint? <==> |tp| <= k) &&
      (|tp| <= k ==> r[k] == ControlPointVisualisation(nt[k - |tp|], false, cpi.time))
  {
    var tp, nt := cpi.timingPoints, NonTimingPoints(cpi);
    var a, b := PointMarkers(tp, true, cpi.time), PointMarkers(nt, false, cpi.time);
    if k < |tp| {
      assert (a + b)[k] == a[k];
    } else {
      assert (a + b)[k] == b[k - |tp|];
    }
  }

  /** Every non-timing marker's point survives the coincidence filter and is
      one of the beatmap's non-timing points. */
  lemma NonTimingMarkersSurvive<CP>(cpi: ControlPointInfo<CP>)
    ensures var r, all := ControlPointMarkers(cpi), AllNonTimingPoints(cpi);
      forall k :: 0 <= k < |r| && r[k].kind.NonTimingPoint? ==>
        Survives(cpi, r[k].kind.controlPoint) && r[k].kind.controlPoint in all
  {
    var r := ControlPointMarkers(cpi);
    NonTimingSelection(cpi);
    forall k | 0 <= k < |r| && r[k].kind.NonTimingPoint?
      ensures Survives(cpi, r[k].kind.controlPoint) && r[k].kind.controlPoint in AllNonTimingPoints(cpi)
    {
      NonTimingMarkerAt(cpi, k);
    }
  }

  /** No two non-timing markers are the same. */
  lemma NonTimingMarkersDistinct<CP>(cpi: ControlPointInfo<CP>)
    ensures var r := ControlPointMarkers(cpi);
      forall i, j :: 0 <= i < j < |r| && r[i].kind.NonTimingPoint? ==> r[i] != r[j]
  {
    var r, nt := ControlPointMarkers(cpi), NonTimingPoints(cpi);
    NonTimingSelection(cpi);
    forall i, j | 0 <= i < j < |r| && r[i].kind.NonTimingPoint?
      ensures r[i] != r[j]
    {
      NonTimingMarkerAt(cpi, i);
      NonTimingMarkerAt(cpi, j);
    }
  }

  /** Every non-timing point of the beatmap that survives the coincidence
      filter has its marker on the control-point track. */
  lemma SurvivingPointsShown<CP>(cpi: ControlPointInfo<CP>)
    ensures var r, all := ControlPointMarkers(cpi), AllNonTimingPoints(cpi);
      forall k :: 0 <= k < |all| && Survives(cpi, all[k]) ==>
        ControlPointVisualisation(all[k], false, cpi.time) in r
  {
    var tp, nt, all := cpi.timingPoints, NonTimingPoints(cpi), AllNonTimingPoints(cpi);
    var r := ControlPointMarkers(cpi);
    NonTimingSelection(cpi);
    forall k | 0 <= k < |all| && Survives(cpi, all[k])
      ensures ControlPointVisualisation(all[k], false, cpi.time) in r
    {
      var m :| 0 <= m < |nt| && nt[m] == all[k];
      NonTimingMarkerAt(cpi, |tp| + m);
    }
  }
}
