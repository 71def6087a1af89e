/** The audio track a beatmap plays on, and the timeline tracks: each owns a
    marker collection and a time-scaled coordinate space, and rebuilds both
    whenever the beatmap changes. */
module Tracks {
  import opened Visualisations
  import opened Markers

  /** The beatmap's audio track, as far as the timeline uses it: its length,
      the time it reports as current, and the seeks it has been asked for.
      What a seek does to playback belongs to the audio library. */
  class AudioTrack {
    var length: real
    var currentTime: real
    var seekTargets: seq<real>

    constructor (length: real, currentTime: real)
      ensures this.length == length && this.currentTime == currentTime
      ensures seekTargets == []
    {
      this.length := length;
      this.currentTime := currentTime;
      seekTargets := [];
    }

    /** Asks the track to seek to `time`; the request is recorded. */
    method Seek(time: real)
      modifies this`seekTargets
      ensures seekTargets == old(seekTargets) + [time]
    {
      seekTargets := seekTargets + [time];
    }
  }

  /** A loaded beatmap: its data and its audio track. */
  datatype WorkingBeatmap<!CP> = WorkingBeatmap(data: BeatmapData<CP>, track: AudioTrack)

  /** The width of a time-scaled coordinate space for a track of the given
      length: the length, but never less than one. */
  function ChildSize(length: real): (w: real)
    ensures w >= 1.0 && w >= length
    ensures w == length || w == 1.0
  {
    if length > 1.0 then length else 1.0
  }

  /** One lane of the timeline. `kind` stands for the concrete subclass and
      selects its population step. */
  class Track<CP(==)> {
    const kind: TrackKind
    var markers: seq<Visualisation<CP>>
    var childWidth: real

    /** A fresh track holds an empty container of the framework's default
        child size. */
    constructor (kind: TrackKind)
      ensures this.kind == kind && markers == [] && childWidth == 1.0
    {
      this.kind := kind;
      markers := [];
      childWidth := 1.0;
    }

    method Add(v: Visualisation<CP>)
      modifies this`markers
      ensures markers == old(markers) + [v]
    {
      markers := markers + [v];
    }

    method Clear()
      modifies this`markers
      ensures markers == []
    {
      markers := [];
    }

    /** The first load: scale the coordinate space to the beatmap's track,
        then populate. */
    method Load(b: WorkingBeatmap<CP>)
      modifies this
      ensures childWidth == ChildSize(b.track.length)
      ensures markers == old(markers) + TrackMarkers(kind, b.data)
    {
      childWidth := ChildSize(b.track.length);
      LoadBeatmap(b.data);
    }

    /** The beatmap-change handler: clear, rescale, repopulate. Nothing of the
        previous beatmap is left. */
    method BeatmapChanged(b: WorkingBeatmap<CP>)
      modifies this
      ensures childWidth == ChildSize(b.track.length)
      ensures markers == TrackMarkers(kind, b.data)
    {
      Clear();
      childWidth := ChildSize(b.track.length);
      LoadBeatmap(b.data);
    }

    /** The population step of the concrete track. It leaves the coordinate
        space alone. */
    method LoadBeatmap(data: BeatmapData<CP>)
      modifies this`markers
      ensures markers == old(markers) + TrackMarkers(kind, data)
    {
      match kind
      case ControlPoints => LoadControlPoints(data.controlPointInfo);
      case Bookmarks => LoadBookmarks(data.bookmarks);
      case Breaks => LoadBreaks(data.breaks);
    }

    /** Adds a marker per timing point, then one per selected non-timing point. */
    method LoadControlPoints(cpi: ControlPointInfo<CP>)
      modifies this`markers
      ensures markers == old(markers) + ControlPointMarkers(cpi)
    {
      ghost var before := markers;
      AddPoints(cpi.timingPoints, true, cpi.time);
      AddPoints(NonTimingPoints(cpi), false, cpi.time);
      assert (before + PointMarkers(cpi.timingPoints, true, cpi.time)) + PointMarkers(NonTimingPoints(cpi), false, cpi.time)
          == before + ControlPointMarkers(cpi);
    }

    /** `ForEach(addTimingPoint)` or `ForEach(addNonTimingPoint)`. */
    method AddPoints(points: seq<CP>, timing: bool, time: CP -> real)
      modifies this`markers
      ensures markers == old(markers) + PointMarkers(points, timing, time)
    {
      for i := 0 to |points|
        invariant markers == old(markers) + PointMarkers(points[..i], timing, time)
      {
        assert points[..i + 1][..i] == points[..i];
        Add(ControlPointVisualisation(points[i], timing, time));
      }
      assert points[..|points|] == points;
    }

    method LoadBookmarks(bookmarks: seq<int>)
      modifies this`markers
      ensures markers == old(markers) + BookmarkMarkers(bookmarks)
    {
      for i := 0 to |bookmarks|
        invariant markers == old(markers) + BookmarkMarkers(bookmarks[..i])
      {
        assert bookmarks[..i + 1][..i] == bookmarks[..i];
        Add(BookmarkVisualisation(bookmarks[i]));
      }
      assert bookmarks[..|bookmarks|] == bookmarks;
    }

    method LoadBreaks(breaks: seq<BreakPeriod>)
      modifies this`markers
      ensures markers == old(markers) + BreakMarkers(breaks)
    {
      for i := 0 to |breaks|
        invariant markers == old(markers) + BreakMarkers(breaks[..i])
      {
        assert breaks[..i + 1][..i] == breaks[..i];
        Add(BreakVisualisation(breaks[i]));
      }
      assert breaks[..|breaks|] == breaks;
    }
  }
}
