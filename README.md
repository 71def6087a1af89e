# Timing timeline widget of the osu! editor

This project models the logic layer of `TimingTimeline`, the editor widget that
lays a beatmap out along its audio track. The widget has:

- a marker container that holds the playback marker;
- three tracks: control points, bookmarks and breaks.

Each track owns a collection of visualisations placed in a time-scaled
coordinate space one audio-track length wide. The floor on that width is one
time unit. When the beatmap changes, each track clears that collection, rescales
the space and repopulates it. Pressing or dragging the pointer over the widget
seeks the audio track to the time under the pointer. Each frame moves the
playback marker to the track's current time.

## Modules

- `Sequences` (`sequences.dfy`) defines the two query operators the
  control-point track uses. `Distinct` keeps the first occurrence of each
  element, in order. `Filter` is LINQ `Where`. The module proves what these
  operators keep, that their output has no repeats, and that their output is
  in first-occurrence order. It also proves that those three properties
  characterise `Distinct`.
- `Reals` (`reals.dfy`) holds small facts about multiplying and dividing by a
  positive real.
- `Visualisations` (`visualisations.dfy`) defines the point and duration
  visualisations and where they sit in the track's coordinate space.
- `Markers` (`markers.dfy`) defines the beatmap data, and what each track's
  `LoadBeatmap` adds, as functions from beatmap data to marker sequences.
- `Tracks` (`tracks.dfy`) holds two classes and a function:
  - the audio track, a clock that records the seeks it is asked for;
  - `Track`, the abstract `Timeline`, whose `kind` stands for its three
    subclasses;
  - `ChildSize`, which gives the coordinate-space width.
- `Timelines` (`timeline.dfy`) holds the widget class and the seek mapping.
  The widget's `Valid` invariant says two things. Every coordinate space is
  `max(1, Length)` of the current audio track. Every track shows exactly what
  the current beatmap gives it.
- `Scenarios` (`scenarios.dfy`) works through concrete cases of the above:
  - `CoincidentPointDropped`: a point that coincides with a timing point is dropped;
  - `RepeatedPointShownOnce`: a repeated point is shown once;
  - `BookmarksAlongTrack` and `BreakAlongTrack`: bookmarks and a break are placed along a 4000-long track;
  - `FrameSession`: the playback marker follows a clock that is past the end of the track;
  - `PointerSession`: a widget is driven by a click and a drag;
  - `ChangeSession`: the widget switches to a silent beatmap.

These abstractions are parameters of the model:

- `CP`, the control-point type. Its `==` is the control-point equality that
  `Distinct` uses.
- `ControlPointInfo.time`, a point's time. Like `timingPointAt` below, it
  belongs to the beatmap library and the caller supplies it.
- `ControlPointInfo.timingPointAt`, the lookup of the timing point in effect
  at a time.
- The marker container's laid-out width, `drawWidth`. The caller supplies it
  when the widget is built.

## Model

| member | source | states |
|---|---|---|
| Sequences.Distinct | osu.Game/Tests/Visual/TestCaseEditorTimingTimeline.cs:210 | LINQ `Distinct`, defined by keeping each element at its first occurrence; never longer than its input; its properties are in `DistinctElements`, `DistinctNoDuplicates`, `DistinctOrderedBy` and `DistinctCharacterised` |
| Sequences.DistinctElements | osu.Game/Tests/Visual/TestCaseEditorTimingTimeline.cs:210 | `Distinct` keeps an element exactly when it occurs in the input |
| Sequences.DistinctNoDuplicates | osu.Game/Tests/Visual/TestCaseEditorTimingTimeline.cs:210 | no element occurs twice in the output of `Distinct` |
| Sequences.DistinctOrderedBy | osu.Game/Tests/Visual/TestCaseEditorTimingTimeline.cs:210 | `Distinct` lists its elements in the order of their first occurrences in the input |
| Sequences.DistinctCharacterised | osu.Game/Tests/Visual/TestCaseEditorTimingTimeline.cs:210 | a sequence is `Distinct(s)` if and only if it lists every element of `s`, each once, in first-occurrence order |
| Sequences.DistinctUnique | osu.Game/Tests/Visual/TestCaseEditorTimingTimeline.cs:210 | any sequence with those three properties equals `Distinct(s)` |
| Sequences.Filter | osu.Game/Tests/Visual/TestCaseEditorTimingTimeline.cs:212 | LINQ `Where`, defined by keeping the elements that satisfy the predicate, in order; never longer than its input; its properties are in `FilterElements`, `FilterOrderedBy` and `FilterNoDuplicates` |
| Sequences.FilterElements | osu.Game/Tests/Visual/TestCaseEditorTimingTimeline.cs:212 | `Where` keeps an element exactly when it occurs in the input and satisfies the predicate |
| Sequences.FilterOrderedBy | osu.Game/Tests/Visual/TestCaseEditorTimingTimeline.cs:212 | `Where` preserves first-occurrence order with respect to any reference sequence |
| Sequences.FilterNoDuplicates | osu.Game/Tests/Visual/TestCaseEditorTimingTimeline.cs:212 | `Where` applied to a repeat-free sequence gives a repeat-free sequence |
| Visualisations.PointVisualisation | osu.Game/Tests/Visual/TestCaseEditorTimingTimeline.cs:326-337 | a point marker records its start time, sits at `X = startTime` and is one unit wide |
| Visualisations.DurationVisualisation | osu.Game/Tests/Visual/TestCaseEditorTimingTimeline.cs:346-357 | a duration marker records both times, sits at `X = startTime` and reaches exactly its end time; its width is negative exactly when the end comes before the start, since nothing is validated |
| Visualisations.RelativePosition | osu.Game/Tests/Visual/TestCaseEditorTimingTimeline.cs:336-337 | a coordinate of the time-scaled space is a fraction of the child width; inside the space the fraction lies in [0, 1] |
| Markers.ControlPointVisualisation | osu.Game/Tests/Visual/TestCaseEditorTimingTimeline.cs:241-249 | a control-point marker is a point marker at the point's time; it keeps the point and is tagged timing or non-timing |
| Markers.AllNonTimingPoints | osu.Game/Tests/Visual/TestCaseEditorTimingTimeline.cs:207-209 | defined as the sound points, then the effect points, then the difficulty points |
| Markers.Survives | osu.Game/Tests/Visual/TestCaseEditorTimingTimeline.cs:212 | defined as: the timing point in effect at the point's time does not start at that time; used by `NonTimingMarkersSurvive` |
| Markers.NonTimingPoints | osu.Game/Tests/Visual/TestCaseEditorTimingTimeline.cs:207-212 | defined as `Filter(Survives, Distinct(AllNonTimingPoints))`; its properties are in `NonTimingSelection` |
| Markers.ControlPointMarkers | osu.Game/Tests/Visual/TestCaseEditorTimingTimeline.cs:200-214 | defined as the timing points' markers followed by the selected non-timing points' markers; its properties are in `ControlPointMarkersLayout`, `NonTimingMarkerAt`, `NonTimingMarkersSurvive`, `NonTimingMarkersDistinct` and `SurvivingPointsShown` |
| Markers.TrackMarkers | osu.Game/Tests/Visual/TestCaseEditorTimingTimeline.cs:319 | defined as the markers of the concrete track's `LoadBeatmap`, by kind; `Track.LoadBeatmap` is proved to append exactly these |
| Markers.PointMarkers | osu.Game/Tests/Visual/TestCaseEditorTimingTimeline.cs:204 | `ForEach(add…)` gives one marker per point, in order, and the k-th marker is the k-th point's |
| Markers.BookmarkVisualisation | osu.Game/Tests/Visual/TestCaseEditorTimingTimeline.cs:261-266 | a bookmark marker is a bookmark-kind point marker whose start time is the bookmark, placed at that time and one unit wide |
| Markers.BookmarkMarkers | osu.Game/Tests/Visual/TestCaseEditorTimingTimeline.cs:255-259 | one bookmark marker per bookmark, in order, with `StartTime = X = bookmark` and width 1 |
| Markers.BreakVisualisation | osu.Game/Tests/Visual/TestCaseEditorTimingTimeline.cs:281-286 | a break marker is a duration marker with the break's start and end times, placed at the start, with width `end - start` |
| Markers.BreakMarkers | osu.Game/Tests/Visual/TestCaseEditorTimingTimeline.cs:275-279 | one duration marker per break, in order, with `StartTime = X = start`, the break's end time, and `Width = end - start` |
| Markers.NonTimingSelection | osu.Game/Tests/Visual/TestCaseEditorTimingTimeline.cs:207-213 | the selected non-timing points are exactly the sound, effect and difficulty points that survive the coincidence filter; none appears twice, and they come in first-occurrence order |
| Markers.ControlPointMarkersLayout | osu.Game/Tests/Visual/TestCaseEditorTimingTimeline.cs:200-214 | the track shows one timing marker per timing point, in order, each at its point's time; then one non-timing marker per selected point, in order |
| Markers.NonTimingMarkerAt | osu.Game/Tests/Visual/TestCaseEditorTimingTimeline.cs:204-213 | a marker is non-timing if and only if it comes after all the timing markers; it is then the marker of the matching selected point |
| Markers.NonTimingMarkersSurvive | osu.Game/Tests/Visual/TestCaseEditorTimingTimeline.cs:212 | every non-timing marker's point is one of the beatmap's non-timing points, and its time differs from the time of the timing point in effect there |
| Markers.NonTimingMarkersDistinct | osu.Game/Tests/Visual/TestCaseEditorTimingTimeline.cs:210 | no non-timing marker appears twice on the track |
| Markers.SurvivingPointsShown | osu.Game/Tests/Visual/TestCaseEditorTimingTimeline.cs:207-213 | every non-timing point that survives the filter has its marker on the track |
| Tracks.AudioTrack.constructor | osu.Game/Tests/Visual/TestCaseEditorTimingTimeline.cs:186 | a track of the given length and current time, with no seeks yet |
| Tracks.AudioTrack.Seek | osu.Game/Tests/Visual/TestCaseEditorTimingTimeline.cs:189 | a seek is recorded as the latest target, and nothing else changes |
| Tracks.ChildSize | osu.Game/Tests/Visual/TestCaseEditorTimingTimeline.cs:308 | the width of a coordinate space is the track's length floored to one: at least 1, at least the length, and equal to one of them |
| Tracks.Track.constructor | osu.Game/Tests/Visual/TestCaseEditorTimingTimeline.cs:297-300 | a new track has an empty container with the framework's default child size of 1 |
| Tracks.Track.Add | osu.Game/Tests/Visual/TestCaseEditorTimingTimeline.cs:316-317 | the visualisation is appended to the container |
| Tracks.Track.Clear | osu.Game/Tests/Visual/TestCaseEditorTimingTimeline.cs:307 | the container becomes empty |
| Tracks.Track.Load | osu.Game/Tests/Visual/TestCaseEditorTimingTimeline.cs:312-313 | the first load sets the width to `max(1, Length)` and appends exactly the markers the beatmap gives this kind of track |
| Tracks.Track.BeatmapChanged | osu.Game/Tests/Visual/TestCaseEditorTimingTimeline.cs:305-310 | after a reload the width is `max(1, Length)` of the new track, and the container holds exactly the new beatmap's markers, with nothing of the old one left |
| Tracks.Track.LoadBeatmap | osu.Game/Tests/Visual/TestCaseEditorTimingTimeline.cs:319 | dispatches to the subclass's population step, which appends exactly that kind's markers and leaves the width alone |
| Tracks.Track.LoadControlPoints | osu.Game/Tests/Visual/TestCaseEditorTimingTimeline.cs:200-214 | appends the timing markers, then the selected non-timing markers |
| Tracks.Track.AddPoints | osu.Game/Tests/Visual/TestCaseEditorTimingTimeline.cs:216-217 | the loop appends one control-point marker per point, in order |
| Tracks.Track.LoadBookmarks | osu.Game/Tests/Visual/TestCaseEditorTimingTimeline.cs:257-258 | the `foreach` loop appends exactly the bookmark markers |
| Tracks.Track.LoadBreaks | osu.Game/Tests/Visual/TestCaseEditorTimingTimeline.cs:277-278 | the `foreach` loop appends exactly the break markers |
| Timelines.Clamp | osu.Game/Tests/Visual/TestCaseEditorTimingTimeline.cs:185 | the result lies in [min, max]; it is the value when that is inside, else the nearer bound |
| Timelines.SeekTarget | osu.Game/Tests/Visual/TestCaseEditorTimingTimeline.cs:183-187 | the seek time lies in [0, Length] when `Length >= 0`; inside the container it is exactly `X / DrawWidth * Length`, using the raw length; left of the container it is 0 and right of it `Length` |
| Timelines.SeekTargetMonotonic | osu.Game/Tests/Visual/TestCaseEditorTimingTimeline.cs:185-186 | a pointer further right never seeks earlier |
| Timelines.SeekInvertsLayout | osu.Game/Tests/Visual/TestCaseEditorTimingTimeline.cs:185-186 | when the track is at least 1 long, pressing where a time `t` is laid out seeks to exactly `t` |
| Timelines.TimingTimeline.constructor | osu.Game/Tests/Visual/TestCaseEditorTimingTimeline.cs:161-163 | the widget binds the beatmap, gives the marker container and every track the width `max(1, Length)`, and loads every track: the invariant holds |
| Timelines.TimingTimeline.OnDragStart | osu.Game/Tests/Visual/TestCaseEditorTimingTimeline.cs:167 | the drag is accepted, and nothing changes (no seek) |
| Timelines.TimingTimeline.OnDragEnd | osu.Game/Tests/Visual/TestCaseEditorTimingTimeline.cs:175 | the drag end is accepted, and nothing changes (no seek) |
| Timelines.TimingTimeline.OnDrag | osu.Game/Tests/Visual/TestCaseEditorTimingTimeline.cs:169-173 | exactly one seek, to the `SeekTarget` of the pointer; the event is handled and the invariant kept |
| Timelines.TimingTimeline.OnMouseDown | osu.Game/Tests/Visual/TestCaseEditorTimingTimeline.cs:177-181 | exactly one seek, to the `SeekTarget` of the pointer; the event is handled and the invariant kept |
| Timelines.TimingTimeline.SeekToPosition | osu.Game/Tests/Visual/TestCaseEditorTimingTimeline.cs:183-187 | clamps the pointer and seeks the current track to the `SeekTarget` time, and to nothing else |
| Timelines.TimingTimeline.SeekTo | osu.Game/Tests/Visual/TestCaseEditorTimingTimeline.cs:189 | commands the current beatmap's track to seek to the time |
| Timelines.TimingTimeline.Update | osu.Game/Tests/Visual/TestCaseEditorTimingTimeline.cs:191-196 | the playback marker's X becomes the current time, unclamped; the invariant is kept |
| Timelines.TimingTimeline.BeatmapChanged | osu.Game/Tests/Visual/TestCaseEditorTimingTimeline.cs:164 | after a change the invariant holds for the new beatmap: every width is `max(1, Length)` of the new track, and every track shows exactly the new beatmap's markers |
| Scenarios.CoincidentPointDropped | osu.Game/Tests/Visual/TestCaseEditorTimingTimeline.cs:204-213 | with timing points at 0 and 1000, a sound point at 0 and an effect point at 500, the track shows the two timing markers and then one non-timing marker, at 500 |
| Scenarios.CoincidentSelection | osu.Game/Tests/Visual/TestCaseEditorTimingTimeline.cs:207-212 | of the sound point at 0 and the effect point at 500, only the effect point is selected |
| Scenarios.RepeatedPointShownOnce | osu.Game/Tests/Visual/TestCaseEditorTimingTimeline.cs:210 | an effect point given twice is selected once |
| Scenarios.BookmarksAlongTrack | osu.Game/Tests/Visual/TestCaseEditorTimingTimeline.cs:257-258 | bookmarks at 100, 500 and 2000 on a 4000 track sit at a fortieth, an eighth and a half of the width |
| Scenarios.BreakAlongTrack | osu.Game/Tests/Visual/TestCaseEditorTimingTimeline.cs:277-278 | a break from 1000 to 1500 on a 4000 track starts at a quarter of the width and covers an eighth of it |
| Scenarios.EmptyTrackFloored | osu.Game/Tests/Visual/TestCaseEditorTimingTimeline.cs:163 | on a silent track the coordinate space is one unit wide and every click seeks to 0 |
| Scenarios.SampleSeekTargets | osu.Game/Tests/Visual/TestCaseEditorTimingTimeline.cs:185-186 | on a widget 470 wide over a 4000 track, a pointer at 117.5 seeks to 1000 and a pointer at 600 seeks to 4000 |

## Left out

- Drawing and styling are not modelled: shapes, anchors, padding, corner radius, masking and edge smoothness. They are layout only.
- Colours and the dependency-injected loaders that set them are not modelled. They are theming.
- The `Bindable` binding and the `ValueChanged` subscriptions are not modelled as an observer. A beatmap change is the explicit call `TimingTimeline.BeatmapChanged`, which updates the marker container and then calls each track's `BeatmapChanged`. The framework's order of running these handlers is not modelled.
- The screen-to-local transform (`ToLocalSpace`) belongs to the framework and is not modelled. The seek operations take the pointer's local X as input.
- Single-precision rounding from the `(float)` casts on widths, positions and times is not modelled. Times are exact reals.
- `TimingPointAt`, `ControlPoint.Time` and `ControlPoint.Equals` are not shown in the source. They are parameters here, as described above.
- A zero `DrawWidth` gives a NaN division in the source. The model excludes it by the `drawWidth > 0.0` precondition.
- The test-scene constructor that adds the widget to a scene is not modelled.
- osu.Game/Input/Bindings/DatabasedKeyBinding.cs is not part of this model. It is a persistence entity with nothing to state.
- `Tracks.AudioTrack.Seek` records a seek's target. What a seek does to playback and to `CurrentTime` belongs to the audio library and is not modelled.
- Drag start performs no seek: `OnDragStart` returns true and does nothing else (source line 167). The model follows the code.
- `Timelines.SeekInvertsLayout` is stated only for tracks at least one time unit long. Below that, the layout uses the floored width of 1 but the seek uses the raw length. A click on a marker then does not seek to that marker's time.
- The playback marker is a child of the marker container. The model keeps its X and the container's child width as fields of the widget, not as a separate drawable.
