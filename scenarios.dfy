/** Worked cases of the timeline's behaviour, stated on concrete beatmaps:
    a control-point track that drops a point hidden behind a timing point, a
    repeated point shown once, bookmarks and a break placed along the track,
    and a widget driven through a click, a drag and a frame past the end. */
module Scenarios {
  import opened Sequences
  import opened Visualisations
  import opened Markers
  import opened Tracks
  import opened Timelines

  /** Control points of the worked case: a kind tag and a time. Equality is on
      both, so two identical entries are one point. */
  type SamplePoint = (string, real)

  function SampleTime(p: SamplePoint): real { p.1 }

  /** The timing points of the worked case are at 0 and 1000. */
  function SampleTimingPointAt(t: real): SamplePoint {
    if t >= 1000.0 then ("timing", 1000.0) else ("timing", 0.0)
  }

  function SampleInfo(sound: seq<SamplePoint>, effect: seq<SamplePoint>): ControlPointInfo<SamplePoint> {
    ControlPointInfo([("timing", 0.0), ("timing", 1000.0)], sound, effect, [], SampleTime, SampleTimingPointAt)
  }

  /** Timing points at 0 and 1000, a sound point at 0 and an effect point at
      500: the sound point coincides with the first timing point and is
      dropped, so the track shows the two timing markers and one non-timing
      marker at 500. */
  lemma CoincidentPointDropped()
    ensures ControlPointMarkers(SampleInfo([("sound", 0.0)], [("effect", 500.0)])) ==
      [ PointVisualisation(TimingPoint(("timing", 0.0)), 0.0),
        PointVisualisation(TimingPoint(("timing", 1000.0)), 1000.0),
        PointVisualisation(NonTimingPoint(("effect", 500.0)), 500.0) ]
  {
    var cpi := SampleInfo([("sound", 0.0)], [("effect", 500.0)]);
    CoincidentSelection();
    var a := PointMarkers(cpi.timingPoints, true, SampleTime);
    var b := PointMarkers([("effect", 500.0)], false, SampleTime);
    assert a == [a[0], a[1]];
    assert b == [b[0]];
  }

  /** The selection step of the case above: of the sound point at 0 and the
      effect point at 500, only the effect point is kept. */
  lemma CoincidentSelection()
    ensures NonTimingPoints(SampleInfo([("sound", 0.0)], [("effect", 500.0)])) == [("effect", 500.0)]
  {
    var cpi := SampleInfo([("sound", 0.0)], [("effect", 500.0)]);
    var all := AllNonTimingPoints(cpi);
    assert all == [("sound", 0.0), ("effect", 500.0)];
    assert all[..1] == [("sound", 0.0)];
    assert Distinct(all) == all;
    assert !Survives(cpi, ("sound", 0.0));
    assert Survives(cpi, ("effect", 500.0));
  }

  /** An effect point given twice is shown once. */
  lemma RepeatedPointShownOnce()
    ensures NonTimingPoints(SampleInfo([], [("effect", 500.0), ("effect", 500.0)])) == [("effect", 500.0)]
  {
    var cpi := SampleInfo([], [("effect", 500.0), ("effect", 500.0)]);
    var all := AllNonTimingPoints(cpi);
    assert all == [("effect", 500.0), ("effect", 500.0)];
    assert all[..1] == [("effect", 500.0)];
    assert Distinct(all) == [("effect", 500.0)];
    assert Survives(cpi, ("effect", 500.0));
  }

  /** Bookmarks at 100, 500 and 2000 on a track 4000 long sit at a fortieth,
      an eighth and a half of the track's width. */
  lemma BookmarksAlongTrack()
    ensures var r := BookmarkMarkers<SamplePoint>([100, 500, 2000]);
      && |r| == 3
      && RelativePosition(r[0].x, ChildSize(4000.0)) == 0.025
      && RelativePosition(r[1].x, ChildSize(4000.0)) == 0.125
      && RelativePosition(r[2].x, ChildSize(4000.0)) == 0.5
  {
  }

  /** A break from 1000 to 1500 on a track 4000 long starts at a quarter of
      the width and covers an eighth of it. */
  lemma BreakAlongTrack()
    ensures var r := BreakMarkers<SamplePoint>([BreakPeriod(1000.0, 1500.0)]);
      && |r| == 1
      && RelativePosition(r[0].x, ChildSize(4000.0)) == 0.25
      && RelativePosition(r[0].width, ChildSize(4000.0)) == 0.125
  {
  }

  /** A silent beatmap: the coordinate spaces are still one unit wide, and a
      click anywhere seeks to 0. */
  lemma EmptyTrackFloored(localX: real, drawWidth: real)
    requires drawWidth > 0.0
    ensures ChildSize(0.0) == 1.0
    ensures SeekTarget(localX, drawWidth, 0.0) == 0.0
  {
  }

  /** On a widget 470 wide and a track 4000 long, a pointer at 117.5 is a
      quarter of the way along and seeks to 1000; a pointer at 600, past the
      right edge, seeks to the end. */
  lemma SampleSeekTargets()
    ensures SeekTarget(117.5, 470.0, 4000.0) == 1000.0
    ensures SeekTarget(600.0, 470.0, 4000.0) == 4000.0
  {
    assert 117.5 / 470.0 == 0.25;
  }

  /** Drives a widget 470 wide on a track 4000 long: a click at 117.5 seeks to
      1000, a drag past the right edge seeks to the end, and the drag's start
      and end seek nowhere. */
  method PointerSession(data: BeatmapData<SamplePoint>)
  {
    var audio := new AudioTrack(4000.0, 4200.0);
    var timeline := new TimingTimeline(470.0, WorkingBeatmap(data, audio));
    assert timeline.beatmap.track == audio;
    SampleSeekTargets();
    var handled := timeline.OnMouseDown(117.5);
    assert handled && audio.seekTargets == [1000.0];
    handled := timeline.OnDragStart();
    handled := timeline.OnDrag(600.0);
    handled := timeline.OnDragEnd();
    assert audio.seekTargets == [1000.0, 4000.0];
  }

  /** A frame with the clock past the end of the track: the playback marker
      follows the clock, unclamped. */
  method FrameSession(data: BeatmapData<SamplePoint>)
  {
    var audio := new AudioTrack(4000.0, 4200.0);
    var timeline := new TimingTimeline(470.0, WorkingBeatmap(data, audio));
    timeline.Update();
    assert timeline.markerX == 4200.0;
  }

  /** Changes a widget's beatmap to one with a silent track: every coordinate
      space drops to one unit, the tracks show the new beatmap, and clicks
      seek the new track, to 0. */
  method ChangeSession(data: BeatmapData<SamplePoint>, next: BeatmapData<SamplePoint>)
  {
    var audio := new AudioTrack(4000.0, 0.0);
    var timeline := new TimingTimeline(470.0, WorkingBeatmap(data, audio));
    var other := new AudioTrack(0.0, 0.0);
    timeline.BeatmapChanged(WorkingBeatmap(next, other));
    assert timeline.markerChildWidth == 1.0 && timeline.breakTrack.childWidth == 1.0;
    assert timeline.controlPointTrack.markers == ControlPointMarkers(next.controlPointInfo);
    assert timeline.beatmap.track == other;
    var handled := timeline.OnMouseDown(200.0);
    assert other.seekTargets == [0.0] && audio.seekTargets == [];
  }
}
