/** The timing timeline widget: the marker container with the playback
    marker, the three tracks, and the pointer-to-seek pipeline. */
module Timelines {
  import opened Visualisations
  import opened Markers
  import opened Tracks
  import opened Reals

  /** The graphics library's clamp: the smaller of `value` and `max`, but no
      less than `min`. */
  function Clamp(value: real, min: real, max: real): (r: real)
    requires min <= max
    ensures min <= r <= max
    ensures min <= value <= max ==> r == value
    ensures value < min ==> r == min
    ensures value > max ==> r == max
  {
    var upper := if value < max then value else max;
    if upper > min then upper else min
  }

  /** The time a pointer at `localX` in the marker container seeks to: the
      position is clamped to the container and taken as the same fraction of
      the track's raw length. */
  function SeekTarget(localX: real, drawWidth: real, length: real): (time: real)
    requires drawWidth > 0.0
    ensures 0.0 <= length ==> 0.0 <= time <= length
    ensures 0.0 <= localX <= drawWidth ==> time == localX / drawWidth * length
    ensures localX <= 0.0 ==> time == 0.0
    ensures localX >= drawWidth ==> time == length
  {
    var markerPos := Clamp(localX, 0.0, drawWidth);
    var fraction := markerPos / drawWidth;
    FractionOf(markerPos, drawWidth);
    assert 0.0 <= length ==> 0.0 <= fraction * length <= length by {
      if 0.0 <= length { ScaleAtMost(fraction, length); }
    }
    assert drawWidth / drawWidth == 1.0;
    fraction * length
  }

  /** Dragging right never seeks earlier. */
  lemma SeekTargetMonotonic(x1: real, x2: real, drawWidth: real, length: real)
    requires drawWidth > 0.0 && 0.0 <= length && x1 <= x2
    ensures SeekTarget(x1, drawWidth, length) <= SeekTarget(x2, drawWidth, length)
  {
    var c1, c2 := Clamp(x1, 0.0, drawWidth), Clamp(x2, 0.0, drawWidth);
    assert c1 <= c2;
    var t1, t2 := SeekTarget(x1, drawWidth, length), SeekTarget(x2, drawWidth, length);
    assert t1 == c1 / drawWidth * length;
    assert t2 == c2 / drawWidth * length;
    ScaledQuotientsOrdered(t1, t2, c1, c2, drawWidth, length);
  }

  /** Pressing the pointer where a marker of time `t` is drawn seeks to `t`:
      the seek mapping inverts the container's time-to-space layout, as long
      as the track is at least one time unit long (below that the layout is
      floored to one unit and the seek is not). */
  lemma SeekInvertsLayout(t: real, drawWidth: real, length: real)
    requires drawWidth > 0.0 && length >= 1.0 && 0.0 <= t <= length
    ensures SeekTarget(RelativePosition(t, ChildSize(length)) * drawWidth, drawWidth, length) == t
  {
    assert ChildSize(length) == length;
    var f := RelativePosition(t, length);
    ScaleAtMost(f, drawWidth);
    ScaleThenDivide(f, drawWidth);
  }

  /** The widget. `drawWidth` is the marker container's laid-out width, which
      the layout engine supplies. */
  class TimingTimeline<CP(==)> {
    const drawWidth: real
    var beatmap: WorkingBeatmap<CP>
    var markerChildWidth: real
    var markerX: real
    const controlPointTrack: Track<CP>
    const bookmarkTrack: Track<CP>
    const breakTrack: Track<CP>

    /** Every coordinate space is the current track's length floored to one,
        and every track shows what the current beatmap implies. */
    ghost predicate Valid()
      reads this, beatmap.track, controlPointTrack, bookmarkTrack, breakTrack
    {
      && drawWidth > 0.0
      && controlPointTrack.kind == ControlPoints
      && bookmarkTrack.kind == Bookmarks
      && breakTrack.kind == Breaks
      && markerChildWidth == ChildSize(beatmap.track.length)
      && controlPointTrack.childWidth == markerChildWidth
      && bookmarkTrack.childWidth == markerChildWidth
      && breakTrack.childWidth == markerChildWidth
      && controlPointTrack.markers == TrackMarkers(ControlPoints, beatmap.data)
      && bookmarkTrack.markers == TrackMarkers(Bookmarks, beatmap.data)
      && breakTrack.markers == TrackMarkers(Breaks, beatmap.data)
    }

    /** Builds the widget and loads the current beatmap into the marker
        container and every track. */
    constructor (drawWidth: real, b: WorkingBeatmap<CP>)
      requires drawWidth > 0.0
      ensures Valid() && this.drawWidth == drawWidth && beatmap == b && markerX == 0.0
      ensures fresh(controlPointTrack) && fresh(bookmarkTrack) && fresh(breakTrack)
    {
      this.drawWidth := drawWidth;
      var cp := new Track(ControlPoints);
      var bm := new Track(Bookmarks);
      var br := new Track(Breaks);
      controlPointTrack, bookmarkTrack, breakTrack := cp, bm, br;
      beatmap := b;
      markerX := 0.0;
      markerChildWidth := ChildSize(b.track.length);
      new;
      cp.Load(b);
      bm.Load(b);
      br.Load(b);
    }

    method OnDragStart() returns (handled: bool)
      ensures handled
    {
      handled := true;
    }

    method OnDragEnd() returns (handled: bool)
      ensures handled
    {
      handled := true;
    }

    method OnDrag(localX: real) returns (handled: bool)
      requires Valid()
      modifies beatmap.track`seekTargets
      ensures Valid() && handled
      ensures beatmap.track.seekTargets == old(beatmap.track.seekTargets) + [SeekTarget(localX, drawWidth, beatmap.track.length)]
    {
      SeekToPosition(localX);
      handled := true;
    }

    method OnMouseDown(localX: real) returns (handled: bool)
      requires Valid()
      modifies beatmap.track`seekTargets
      ensures Valid() && handled
      ensures beatmap.track.seekTargets == old(beatmap.track.seekTargets) + [SeekTarget(localX, drawWidth, beatmap.track.length)]
    {
      SeekToPosition(localX);
      handled := true;
    }

    /** Seeks to the time under a pointer at `localX` in the marker container. */
    method SeekToPosition(localX: real)
      requires Valid()
      modifies beatmap.track`seekTargets
      ensures Valid()
      ensures beatmap.track.seekTargets == old(beatmap.track.seekTargets) + [SeekTarget(localX, drawWidth, beatmap.track.length)]
    {
      var markerPos := Clamp(localX, 0.0, drawWidth);
      assert markerPos / drawWidth * beatmap.track.length == SeekTarget(localX, drawWidth, beatmap.track.length);
      SeekTo(markerPos / drawWidth * beatmap.track.length);
    }

    method SeekTo(time: real)
      modifies beatmap.track`seekTargets
      ensures beatmap.track.seekTargets == old(beatmap.track.seekTargets) + [time]
    {
      beatmap.track.Seek(time);
    }

    /** The per-frame update: the playback marker goes to the current time,
        unclamped. */
    method Update()
      requires Valid()
      modifies this`markerX
      ensures Valid()
      ensures markerX == beatmap.track.currentTime
    {
      markerX := beatmap.track.currentTime;
    }

    /** The beatmap-change notification, as the marker container and each
        track receive it. */
    method BeatmapChanged(b: WorkingBeatmap<CP>)
      requires Valid()
      modifies this, controlPointTrack, bookmarkTrack, breakTrack
      ensures Valid() && beatmap == b && markerX == old(markerX)
    {
      beatmap := b;
      markerChildWidth := ChildSize(b.track.length);
      controlPointTrack.BeatmapChanged(b);
      bookmarkTrack.BeatmapChanged(b);
      breakTrack.BeatmapChanged(b);
    }
  }
}
