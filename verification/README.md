# Laurus editor core, modelled in Dafny

Laurus is a browser editor. Images and SVGs are dropped onto a canvas, and
scale effects are animated along a timeline. Its logic lives in a few numeric
and collection routines inside React components. This project models those
routines:

- **Slider mappers.** The two mappers turn a pixel cursor on a track into a
  value and back:
  - the uniform one, `useTrackpadState`;
  - the non-uniform zoom mapper, `useComplexTrackpadState`. Its pivot pixel
    reads 1, its left sector reads [0, 1), and right of the pivot a fine band
    compressed tenfold is followed by a coarse band up to the maximum.
- **Drop gesture** on the canvas:
  - the radius of the drawn circle;
  - the rectangle inscribed in the circle with the media's aspect ratio;
  - the anchor/commit rule on release;
  - the copy-then-insert of the dropped item into the project's maps.
- **Status bar clipper.** It truncates a message body to a character budget.
- **Workspace reducer**:
  - its initial state;
  - the media browser's page-index rules.
- **Scale effect editor**:
  - the percentage ↔ timeline time conversions;
  - the guards on typed input;
  - the keyframe ("equation") updates;
  - the two pending delayed saves.
- **Effect row**:
  - `setTime`;
  - the cursor ↔ time pair;
  - the rule that pushes one handle along when the other passes it;
  - the typed and dropped handle updates.
- **Timeline area**:
  - the ruler;
  - unit cycling;
  - the per-effect unit conversion;
  - the defaults of a new scale effect.

Module layout, one module per source file:

| module | file | source |
|---|---|---|
| `JsMath` | jsmath.dfy | shared helpers: `Math.max`/`min`/`floor`/`ceil`/`round`, `Option`, real-arithmetic lemmas |
| `LinearTrackpad` | linear_trackpad.dfy | app/hooks/useTrackpadState.tsx |
| `BandMath` | band_math.dfy | the band arithmetic of app/hooks/useComplexTrackpadState.tsx, stated on scalars |
| `ComplexTrackpad` | complex_trackpad.dfy | app/hooks/useComplexTrackpadState.tsx |
| `Canvas` | canvas.dfy | app/workspace/canvas.tsx |
| `Statusbar` | statusbar.dfy | app/statusbar.tsx |
| `Workspace` | workspace.dfy | app/workspace/workspace.client.tsx |
| `ScaleUnit` | scale_unit.dfy | app/workspace/scale-unit.tsx |
| `EffectUnit` | effect_unit.dfy | app/workspace/effect-unit.tsx |
| `TimelineArea` | timeline_area.dfy | app/workspace/timeline-area.tsx |

How the source's form carries over:

- **Pure code becomes functions.** This covers the mappers, the geometry,
  the reducer, the conversions and the ruler.
- **Code that changes state becomes methods.** Each is proved against a
  function that specifies it:
  - `Statusbar.Clip` runs the clipper's loop and equals `Statusbar.Clipped`;
  - `ComplexTrackpad.GetContext` runs the scan for `rightReBase` with its
    early exit and equals `ComplexTrackpad.ContextOf`, whose `rightReBase`
    is a closed form (`BandMath.LastFine`).
- **Component state becomes classes:**
  - the drop anchor: `Canvas.DropGesture`;
  - the page indices: `Workspace.MediaBrowserPages`;
  - the scale editor's cursors, staged keyframes and pending saves:
    `ScaleUnit.ScaleEditor`;
  - the effect row's handles and boxes: `EffectUnit.EffectSliders`.

Numbers are `real`. `Math.round` is `floor(x + 0.5)`. Track lengths in
pixels are `int`. `Math.sqrt` is a parameter `sqrt`, constrained to give the
non-negative square root of every non-negative number (`Canvas.IsSquareRoot`).

## Behaviour the model keeps as the code has it

- **The non-uniform mapper has no full round trip.** A slider handle is
  meant to stay on the pixel that stands for its value, so every pixel
  should survive a trip through its value. That holds for the uniform mapper
  (`LinearTrackpad.TrackRoundTrip`). For the non-uniform one, the code
  decides fine versus coarse differently in each direction:
  - the forward mapping tests the cursor's share times the maximum against 1
    (app/hooks/useComplexTrackpadState.tsx:41);
  - the inverse tests the value against `1 + maxRebasedScale` (line 60).
- **What the model proves instead:**
  - the round trip left of the pivot, in the fine band, and in the coarse
    band above the fine band's top (`RoundTripLeft`, `RoundTripFine`,
    `RoundTripCoarse`);
  - a concrete pixel on whose value the round trip breaks
    (`SeamBreaksRoundTrip`: on a 200-pixel track with maximum 200/21, pixel
    111 comes back as 105);
  - the forward mapping can decrease across the seam (`SeamCanDecrease`).
- **The inverse is monotone across the seam** (`CursorMonotone`), even
  though the forward mapping is not.
- **Two wirings in the scale editor are modelled as written:**
  - After a pause, the delayed save converts a pending scale with the
    *speed* slider's mapping and the scale track's height
    (app/workspace/scale-unit.tsx:125). `ScaleEditor.OnDebounce` states
    exactly that.
  - A scale typed into the scale box is parked in the *time* slot
    (app/workspace/scale-unit.tsx:278). `ScaleEditor.OnScaleTyped` states
    exactly that.

## Model

| member | source | states |
|---|---|---|
| JsMath.Ceil | app/hooks/useComplexTrackpadState.tsx:12 | `Math.ceil`: the least integer not below x |
| JsMath.Round | app/hooks/useTrackpadState.tsx:29 | `Math.round`: the integer nearest x, halves rounded up |
| LinearTrackpad.MaxCursor | app/hooks/useTrackpadState.tsx:10-13 | usable length is `trackSize - offset`, or 0 when that is negative |
| LinearTrackpad.ClampCursor | app/hooks/useTrackpadState.tsx:18 | the clamped cursor lies in [0, maxCursor] and is the cursor itself inside it |
| LinearTrackpad.TrackValue | app/hooks/useTrackpadState.tsx:16-22 | `getTrackValue` on a track with room to move: a value in [0, maxValue] for a non-negative maximum |
| LinearTrackpad.TrackCursor | app/hooks/useTrackpadState.tsx:24-30 | `getTrackCursor`: always a whole pixel in [0, maxCursor] |
| LinearTrackpad.ProportionMonotone | app/hooks/useTrackpadState.tsx:19-20 | the linear share grows with the part |
| LinearTrackpad.ProportionInverse | app/hooks/useTrackpadState.tsx:19-28 | the value's share of the maximum undoes the cursor's share of the track |
| LinearTrackpad.TrackValueClamps | app/hooks/useTrackpadState.tsx:18 | cursors outside the track read as the nearest end |
| LinearTrackpad.TrackValueEnds | app/hooks/useTrackpadState.tsx:18-21 | cursor 0 reads 0 and cursor maxCursor reads maxValue |
| LinearTrackpad.TrackValueMonotone | app/hooks/useTrackpadState.tsx:18-21 | the value never decreases as the cursor moves right |
| LinearTrackpad.TrackCursorSaturates | app/hooks/useTrackpadState.tsx:26-29 | a value ≤ 0 gives cursor 0; a value ≥ maxValue gives maxCursor |
| LinearTrackpad.TrackCursorMonotone | app/hooks/useTrackpadState.tsx:26-29 | the cursor never moves left as the value grows |
| LinearTrackpad.TrackRoundTrip | app/hooks/useTrackpadState.tsx:16-30 | every whole pixel of a non-empty track comes back from its value |
| BandMath.LastFine | app/hooks/useComplexTrackpadState.tsx:16-23 | the closed form of the scan's result lies in the right sector |
| BandMath.FineIff | app/hooks/useComplexTrackpadState.tsx:18 | inside the sector a coordinate passes the fine test exactly when it is at most `LastFine` |
| BandMath.RightReBaseIsLastFineCoordinate | app/hooks/useComplexTrackpadState.tsx:16-23 | `0 <= LastFine < rightSector`; every coordinate up to it passes; it is the last coordinate or the next fails |
| BandMath.RebasedScaleBounds | app/hooks/useComplexTrackpadState.tsx:26 | `maxRebasedScale` lies in [0, 1/10], and is positive when the band and maximum are |
| BandMath.FineWithinReach | app/hooks/useComplexTrackpadState.tsx:16-23 | a passing coordinate is no further than `rightSector / maxValue`, where the coarse inverse begins |
| BandMath.Reading | app/hooks/useComplexTrackpadState.tsx:36-49 | the reading of a clamped cursor is never below 0 |
| BandMath.ReadingLeft | app/hooks/useComplexTrackpadState.tsx:47 | left of the pivot the reading is `x / leftSector`, in [0, 1) |
| BandMath.ReadingRight | app/hooks/useComplexTrackpadState.tsx:39-45 | right of the pivot both bands read at least 1 |
| BandMath.ReadingLeftMonotone | app/hooks/useComplexTrackpadState.tsx:47 | up to the pivot the reading never decreases |
| BandMath.FineReading | app/hooks/useComplexTrackpadState.tsx:41-42 | in the fine band the reading is 1 plus the cursor's share of the band times the scale |
| BandMath.ReadingFineMonotone | app/hooks/useComplexTrackpadState.tsx:41-42 | within the fine band the reading never decreases |
| BandMath.ReadingCoarseMonotone | app/hooks/useComplexTrackpadState.tsx:43-44 | within the coarse band the reading never decreases |
| BandMath.InverseRightOfPivot | app/hooks/useComplexTrackpadState.tsx:57-64 | values ≥ 1 map at or right of the pivot |
| BandMath.FineInverseWithin | app/hooks/useComplexTrackpadState.tsx:60-61 | the fine inverse stays within `rightReBase` pixels of the pivot |
| BandMath.CoarseInverseBeyond | app/hooks/useComplexTrackpadState.tsx:62-63 | the coarse inverse lies at least `rightSector / maxValue` right of the pivot |
| BandMath.InverseMonotone | app/hooks/useComplexTrackpadState.tsx:54-66 | the unrounded inverse never decreases as the value grows |
| BandMath.Inverse | app/hooks/useComplexTrackpadState.tsx:57-66 | the value 1 goes to the pivot and the value 0 to the left end of the track |
| BandMath.InverseLeftMonotone | app/hooks/useComplexTrackpadState.tsx:65-66 | below 1 the inverse grows with the value and stays at or left of the pivot |
| BandMath.InverseFineMonotone | app/hooks/useComplexTrackpadState.tsx:60-61 | within the fine band the inverse grows with the value |
| BandMath.InverseCoarseMonotone | app/hooks/useComplexTrackpadState.tsx:62-63 | beyond the fine band the inverse grows with the value |
| BandMath.LeftRoundTrip | app/hooks/useComplexTrackpadState.tsx:46-66 | left of the pivot the inverse undoes the reading |
| BandMath.FineRoundTrip | app/hooks/useComplexTrackpadState.tsx:41-61 | in the fine band the inverse undoes the reading |
| BandMath.CoarseRoundTrip | app/hooks/useComplexTrackpadState.tsx:43-63 | in the coarse band above the fine band's top the inverse undoes the reading |
| ComplexTrackpad.ValidContextUnique | app/hooks/useComplexTrackpadState.tsx:10-29 | the track length and the maximum fix the context completely |
| ComplexTrackpad.ContextOf | app/hooks/useComplexTrackpadState.tsx:10-29 | `maxCursor = max(0, width - offset)`, `medianCursor <= maxCursor`, sectors ≥ 1, and the scan's outcome as properties of `rightReBase` |
| ComplexTrackpad.MaxRebasedScaleBounds | app/hooks/useComplexTrackpadState.tsx:25-26 | `safeReBase >= 1`, both sectors ≥ 1, `0 <= maxRebasedScale <= 1/10` for a non-negative maximum |
| ComplexTrackpad.GetContext | app/hooks/useComplexTrackpadState.tsx:10-29 | the pixel-by-pixel scan with early exit returns exactly `ContextOf` |
| ComplexTrackpad.ValueAt | app/hooks/useComplexTrackpadState.tsx:33-50 | `getComplexTrackValue` after the context: never below 0 |
| ComplexTrackpad.ComplexTrackValue | app/hooks/useComplexTrackpadState.tsx:32-50 | `getComplexTrackValue`: never below 0 |
| ComplexTrackpad.CursorAt | app/hooks/useComplexTrackpadState.tsx:53-68 | `getComplexTrackCursor` after the context: a whole pixel in [0, maxCursor] |
| ComplexTrackpad.RawCursor | app/hooks/useComplexTrackpadState.tsx:57-66 | under a context, the value 1 goes to the median cursor and the value 0 to the left end |
| ComplexTrackpad.ComplexTrackCursor | app/hooks/useComplexTrackpadState.tsx:52-69 | `getComplexTrackCursor`: a whole pixel in [0, maxCursor] |
| ComplexTrackpad.ZoomSliderContext | app/workspace/scale-unit.tsx:53-71 | the zoom slider's context on a 430-pixel track, in numbers |
| ComplexTrackpad.ZoomSliderReadings | app/workspace/scale-unit.tsx:53-71 | on the zoom slider the left end reads 0, the pivot 1 and the right end 30 |
| ComplexTrackpad.ValueInsideTrack | app/hooks/useComplexTrackpadState.tsx:34 | inside the track the clamp changes nothing |
| ComplexTrackpad.PivotIsOne | app/hooks/useComplexTrackpadState.tsx:36 | the pivot pixel reads exactly 1 |
| ComplexTrackpad.EmptyTrackIsPivot | app/hooks/useComplexTrackpadState.tsx:34-36 | on a track with no room every cursor reads 1 |
| ComplexTrackpad.ValueClamps | app/hooks/useComplexTrackpadState.tsx:34 | cursors below 0 or beyond maxCursor read as cursor 0 or maxCursor |
| ComplexTrackpad.LeftOfPivot | app/hooks/useComplexTrackpadState.tsx:46-47 | left of the pivot the value is `cursor / leftSector`, below 1 |
| ComplexTrackpad.RightOfPivot | app/hooks/useComplexTrackpadState.tsx:39-45 | right of the pivot, with a non-negative maximum, the value is at least 1 |
| ComplexTrackpad.ValueEnds | app/hooks/useComplexTrackpadState.tsx:34-49 | the left end reads 0; the right end reads the maximum when it exceeds 1 |
| ComplexTrackpad.ValueMonotoneThroughPivot | app/hooks/useComplexTrackpadState.tsx:36-49 | up to the pivot the value never decreases, and nothing left of it reads more than anything right of it |
| ComplexTrackpad.ValueMonotoneInFineBand | app/hooks/useComplexTrackpadState.tsx:41-42 | within the fine band the value never decreases |
| ComplexTrackpad.ValueMonotoneInCoarseBand | app/hooks/useComplexTrackpadState.tsx:43-44 | within the coarse band the value never decreases |
| ComplexTrackpad.SeamContext | app/hooks/useComplexTrackpadState.tsx:10-29 | the context of the 200-pixel example track |
| ComplexTrackpad.SeamCanDecrease | app/hooks/useComplexTrackpadState.tsx:41-44 | pixel 110 reads 23/21 and pixel 111 reads 22/21: the value drops across the seam |
| ComplexTrackpad.CursorOnPixel | app/hooks/useComplexTrackpadState.tsx:68 | an unrounded cursor on a whole pixel of the track is returned as that pixel |
| ComplexTrackpad.CursorAtOne | app/hooks/useComplexTrackpadState.tsx:57-58 | value 1 gives the pivot, whatever the maximum |
| ComplexTrackpad.NegativeValueIsZero | app/hooks/useComplexTrackpadState.tsx:54-68 | a negative value gives cursor 0 |
| ComplexTrackpad.ZeroMaximumSaturates | app/hooks/useComplexTrackpadState.tsx:62-68 | with maximum 0 every value above 1 gives the end of the track |
| ComplexTrackpad.CursorMonotone | app/hooks/useComplexTrackpadState.tsx:52-69 | the cursor never moves left as the value grows |
| ComplexTrackpad.RoundTripLeft | app/hooks/useComplexTrackpadState.tsx:32-69 | left of the pivot every pixel comes back from its value |
| ComplexTrackpad.RoundTripFine | app/hooks/useComplexTrackpadState.tsx:32-69 | in the fine band every pixel comes back from its value |
| ComplexTrackpad.RoundTripCoarse | app/hooks/useComplexTrackpadState.tsx:32-69 | in the coarse band, a pixel whose value clears the fine band's top comes back |
| ComplexTrackpad.SeamBreaksRoundTrip | app/hooks/useComplexTrackpadState.tsx:41-60 | pixel 111 of the example track comes back as pixel 105 |
| Canvas.SquaredDistance | app/workspace/canvas.tsx:28 | the squared distance under the root is never negative |
| Canvas.Radius | app/workspace/canvas.tsx:18-35 | `caclRadius`: never below `lineWidth*2 + 2` nor below the distance, and either the floor or a number whose square is the squared distance |
| Canvas.RadiusAtAnchor | app/workspace/canvas.tsx:27-32 | a pointer on the anchor gives exactly the floor |
| Canvas.RadiusIsDistance | app/workspace/canvas.tsx:28-32 | a pointer at least the floor away gives the Euclidean distance |
| Canvas.RadiusBelowFloor | app/workspace/canvas.tsx:30-32 | a pointer closer than the floor gives the floor |
| Canvas.RadiusOfThreeFourFive | app/workspace/canvas.tsx:18-35 | anchor (0,0), pointer (30,40), stroke 1: radius 50 |
| Canvas.RadiusOfShortDrag | app/workspace/canvas.tsx:18-35 | anchor (0,0), pointer (1,1), stroke 1: radius 4 |
| Canvas.RootAtLeastOne | app/workspace/canvas.tsx:53 | the root of `aspect² + 1` is at least 1, so the division is safe |
| Canvas.CenteredRectInCircle | app/workspace/canvas.tsx:37-61 | the rectangle is centred on the circle's centre |
| Canvas.CenteredRectKeepsAspect | app/workspace/canvas.tsx:49-54 | the new width is the new height times the media's aspect ratio |
| Canvas.CenteredRectDiagonal | app/workspace/canvas.tsx:52-54 | the rectangle's diagonal equals the circle's diameter |
| Canvas.CenteredRectNonNegative | app/workspace/canvas.tsx:53-54 | media of positive size in a circle of non-negative radius gets non-negative dimensions |
| Canvas.DropSvg | app/workspace/canvas.tsx:125-147 | the copied SVG map gains exactly the fresh key, holding the media placed in the centred rectangle of the drop circle, not pending; every other entry and project field is unchanged |
| Canvas.DropImg | app/workspace/canvas.tsx:164-182 | the same for the image map, with the image placed in the centred rectangle of the drop circle |
| Canvas.DroppedSvgFillsCircle | app/workspace/canvas.tsx:125-144 | the placed SVG is centred on the drop centre, its diagonal is the circle's diameter, it keeps the media's aspect, path and styling, and it is not pending |
| Canvas.DroppedImgFillsCircle | app/workspace/canvas.tsx:164-179 | the placed image is centred on the drop centre, its diagonal is the diameter, it keeps the media's aspect and path, and it is not pending |
| Canvas.PublishedProject | app/workspace/canvas.tsx:148-161 | a project with an id is published as is; a new one takes the created id; only the id can change |
| Canvas.ReleaseOutcome | app/workspace/canvas.tsx:199-236 | a release publishes only with an anchor, the drop tool holding media and a radius of at least 10; what it publishes differs from the current project only in its maps and its id, and keeps an existing id |
| Canvas.ReleaseCommitsOnlyLargeDrops | app/workspace/canvas.tsx:199-239 | what a release publishes keeps every placement of the current project and adds exactly one under the fresh key |
| Canvas.DropGesture.constructor | app/workspace/canvas.tsx:72 | no anchor at first |
| Canvas.DropGesture.Click | app/workspace/canvas.tsx:93-104 | with the drop tool the anchor becomes the pointer; otherwise nothing changes |
| Canvas.DropGesture.Release | app/workspace/canvas.tsx:199-239 | publishes `ReleaseOutcome`; clears the anchor unless there was none or no tool |
| Statusbar.Joined | app/statusbar.tsx:11-22 | the joined text has as many characters as the lines together |
| Statusbar.Clipped | app/statusbar.tsx:4-25 | the clipping rule; never more lines than the input, and no lines at all for a negative budget |
| Statusbar.TotalLengthAppend | app/statusbar.tsx:13-19 | lengths add up across pushes, which is the running count's invariant |
| Statusbar.Clip | app/statusbar.tsx:4-25 | the loop returns exactly `Clipped`, keeping the running count equal to the length pushed so far |
| Statusbar.ClippedLength | app/statusbar.tsx:11-22 | with a non-negative budget the result holds `min(budget, total)` characters |
| Statusbar.ClippedWithinBudget | app/statusbar.tsx:12-20 | with a non-negative budget the result never exceeds it |
| Statusbar.ClippedIsPrefix | app/statusbar.tsx:11-22 | the joined result is a prefix of the joined input |
| Statusbar.ClippedShape | app/statusbar.tsx:12-18 | every line but the last is the input's line; the last is a prefix of it |
| Statusbar.ClippedFits | app/statusbar.tsx:11-14 | when everything fits the result is the input |
| Statusbar.StatusBodyWithinBudget | app/statusbar.tsx:77 | the status bar shows at most 200 characters of the body, from its start |
| Workspace.FindIndex | app/workspace/workspace.client.tsx:118 | `findIndex`: -1 exactly when nothing matches, else the first match |
| Workspace.Reduce | app/workspace/workspace.client.tsx:109-189 | `SetWorkspace` replaces the state; every other action changes only the part it names (project fields, image map, SVG map, each download list, tool, each pending map), never clears a chosen tool, and never shortens a download list |
| Workspace.AddDownloadedImgEffect | app/workspace/workspace.client.tsx:117-125 | appends only an image whose media path is new, else the state is unchanged; keeps paths unique |
| Workspace.AddDownloadedSvgEffect | app/workspace/workspace.client.tsx:126-134 | the same for SVGs |
| Workspace.ReducePreservesUniqueDownloads | app/workspace/workspace.client.tsx:109-189 | every action keeps downloaded media paths unique |
| Workspace.SetToolEffect | app/workspace/workspace.client.tsx:135-142 | no tool leaves the state unchanged; a tool replaces only `tool` |
| Workspace.SetProjectImgEffect | app/workspace/workspace.client.tsx:143-148 | maps the key to the image; other keys, project fields and state fields unchanged |
| Workspace.SetProjectSvgEffect | app/workspace/workspace.client.tsx:149-154 | the same for SVGs |
| Workspace.DeleteProjectImgEffect | app/workspace/workspace.client.tsx:155-160 | removes the key; everything else unchanged |
| Workspace.DeleteProjectSvgEffect | app/workspace/workspace.client.tsx:161-166 | the same for SVGs |
| Workspace.PendingEffects | app/workspace/workspace.client.tsx:168-187 | the pending actions set or remove one key and touch nothing but their pending map |
| Workspace.SetThenDeleteProjectImg | app/workspace/workspace.client.tsx:143-160 | setting a fresh image and deleting it restores the state |
| Workspace.MostRecent | app/workspace/workspace.client.tsx:213-215 | the first project with the greatest `last_active` |
| Workspace.InitWorkspace | app/workspace/workspace.client.tsx:207-231 | the most recent project, or the default one for no list or an empty list; no downloads (so the download invariant holds), the drop tool, empty pending maps |
| Workspace.PrevPageIndex | app/workspace/workspace.client.tsx:521-524 | acts exactly when the index is non-zero, never going below 0 |
| Workspace.NextPageIndex | app/workspace/workspace.client.tsx:541-545 | moves on by one exactly when the server returned the page |
| Workspace.MediaBrowserPages.constructor | app/workspace/workspace.client.tsx:518-555 | both indices start at 0 |
| Workspace.MediaBrowserPages.OnPrevPage | app/workspace/workspace.client.tsx:518-537 | the filter's index follows `PrevPageIndex`; the other is unchanged |
| Workspace.MediaBrowserPages.OnNextPage | app/workspace/workspace.client.tsx:538-555 | the filter's index follows `NextPageIndex`; the other is unchanged |
| ScaleUnit.ServerClientRoundTrip | app/workspace/scale-unit.tsx:14-20 | `toServerTime(toClientTime(t)) == t` for a non-zero maximum |
| ScaleUnit.ToClientTime | app/workspace/scale-unit.tsx:14-16 | on a timeline of positive length, every time on the timeline shows as a percentage in [0, 100] |
| ScaleUnit.ToServerTime | app/workspace/scale-unit.tsx:18-20 | every percentage in [0, 100] reads back as a time on the timeline |
| ScaleUnit.ClientServerRoundTrip | app/workspace/scale-unit.tsx:14-20 | `toClientTime(toServerTime(c)) == c` for a non-zero maximum |
| ScaleUnit.ClientTimeEnds | app/workspace/scale-unit.tsx:15 | time 0 shows as 100, the maximum as 0 |
| ScaleUnit.ClientTimeDecreasing | app/workspace/scale-unit.tsx:15 | later times show as smaller percentages |
| ScaleUnit.AcceptTypedTime | app/workspace/scale-unit.tsx:376-379 | a typed time is used exactly when its timeline time lies in [0, maximum] |
| ScaleUnit.AcceptedTimesArePercentages | app/workspace/scale-unit.tsx:376-379 | on a positive timeline exactly the percentages 0 to 100 are accepted |
| ScaleUnit.AcceptTypedScale | app/workspace/scale-unit.tsx:268-270 | a typed scale is used exactly when it lies in [0, 30] |
| ScaleUnit.SaveNewEquation | app/workspace/scale-unit.tsx:80-84 | the copied keyframes map the equation's element to it; other entries and fields unchanged |
| ScaleUnit.SpeedEquation | app/workspace/scale-unit.tsx:339-349 | the active keyframe at the new time, or a fresh one with scale 1, no loop, no solution |
| ScaleUnit.ZoomEquation | app/workspace/scale-unit.tsx:488-498 | the active keyframe at the new scale, or a fresh one at the timeline's end, no loop, no solution |
| ScaleUnit.Lookup | app/workspace/scale-unit.tsx:272 | `Map.get`: the entry exactly when the key is present |
| ScaleUnit.StartingPoint | app/workspace/scale-unit.tsx:102-104 | the active keyframe's scale and time, or scale 1 at the timeline's end |
| ScaleUnit.StartWithoutKeyframe | app/workspace/scale-unit.tsx:99-116 | without a keyframe the speed slider starts at the far end and the time box reads 0 |
| ScaleUnit.ScaleEditor.constructor | app/workspace/scale-unit.tsx:74-77 | no pending saves; the staged keyframes are the effect's |
| ScaleUnit.ScaleEditor.Place | app/workspace/scale-unit.tsx:99-116 | both cursors are placed at the starting point; nothing else changes |
| ScaleUnit.ScaleEditor.OnTimeTyped | app/workspace/scale-unit.tsx:371-394 | rejected: nothing changes; with a keyframe: stages it at the new time and arms the time slot; else moves only the speed cursor |
| ScaleUnit.ScaleEditor.OnScaleTyped | app/workspace/scale-unit.tsx:261-284 | rejected: nothing changes; with a keyframe: stages the new scale and arms the time slot, as written; else moves only the zoom cursor |
| ScaleUnit.ScaleEditor.OnDebounce | app/workspace/scale-unit.tsx:118-145 | publishes each armed slot's effect with the staged keyframes, moves its cursor by the speed mapping, and disarms both |
| EffectUnit.SetTime | app/workspace/effect-unit.tsx:10-30 | a scale effect gets exactly the new start and end; a move effect is unchanged |
| EffectUnit.CursorTimeInverse | app/workspace/effect-unit.tsx:57-67 | with non-zero usable width and maximum, `cursorToTime` and `timeToCursor` undo each other |
| EffectUnit.CursorToTimeMonotone | app/workspace/effect-unit.tsx:57-61 | a handle further right stands for a later time |
| EffectUnit.ClampToTimeline | app/workspace/effect-unit.tsx:148-151 | the initial start and end are pulled into [0, maximum], unchanged inside it |
| EffectUnit.ReplaceEffect | app/workspace/effect-unit.tsx:194-201 | only entries with the key are replaced; length and order kept |
| EffectUnit.ReplaceEffectKeepsKeys | app/workspace/effect-unit.tsx:194-201 | a same-key replacement keeps every key in place |
| EffectUnit.PushedRight | app/workspace/effect-unit.tsx:70-72 | the end handle only moves right, to the new start when it was left of it |
| EffectUnit.PushedLeft | app/workspace/effect-unit.tsx:80-82 | the start handle only moves left, to the new end when it was right of it |
| EffectUnit.EndNotBeforeStart | app/workspace/effect-unit.tsx:69-77 | after the start moves, the end's time is not before it |
| EffectUnit.StartNotAfterEnd | app/workspace/effect-unit.tsx:79-87 | after the end moves, the start's time is not after it |
| EffectUnit.TypedStartKeepsOrder | app/workspace/effect-unit.tsx:185-196 | a typed start gets an end not before it |
| EffectUnit.TypedEndKeepsOrder | app/workspace/effect-unit.tsx:228-239 | a typed end gets a start not after it |
| EffectUnit.EffectSliders.constructor | app/workspace/effect-unit.tsx:43-48 | handles at 0, boxes reading 0 |
| EffectUnit.EffectSliders.Place | app/workspace/effect-unit.tsx:145-166 | boxes show the clamped times and handles sit at their cursors |
| EffectUnit.EffectSliders.AdjustDurationCursor | app/workspace/effect-unit.tsx:69-77 | the end handle is pushed right; returns the time where it ends up; start untouched |
| EffectUnit.EffectSliders.AdjustOffsetCursor | app/workspace/effect-unit.tsx:79-87 | the start handle is pushed left; returns the time where it ends up; end untouched |
| EffectUnit.EffectSliders.OnOffsetTyped | app/workspace/effect-unit.tsx:185-206 | the start box keeps the typed number; beyond the maximum nothing else changes; else the start is placed, the end handle and its box are pushed, and the effect list is updated |
| EffectUnit.EffectSliders.OnDurationTyped | app/workspace/effect-unit.tsx:228-249 | the end box keeps the typed number; beyond the maximum nothing else changes; else the end is placed, the start handle and its box are pushed, and the effect list is updated |
| EffectUnit.EffectSliders.OnOffsetDropped | app/workspace/effect-unit.tsx:278-284 | start at the drop with its box untouched; the end handle and its box pushed; the effect to publish carries both times |
| EffectUnit.EffectSliders.OnDurationDropped | app/workspace/effect-unit.tsx:286-292 | end at the drop with its box untouched; the start handle and its box pushed; the effect to publish carries both times |
| EffectUnit.EffectSliders.OnCursorMove | app/workspace/effect-unit.tsx:293-297 | while the start handle is dragged its box shows the time under it; nothing else changes |
| EffectUnit.EffectSliders.OnRangeMove | app/workspace/effect-unit.tsx:298-302 | while the end handle is dragged its box shows the time under it; nothing else changes |
| EffectUnit.DroppedStartKeepsOrder | app/workspace/effect-unit.tsx:278-284 | a dropped start never gives a scale effect ending before it starts |
| TimelineArea.WideRulerParams | app/workspace/timeline-area.tsx:31-47 | modulo is always 10; factor is max/60 for 30, 60, 90 and 1 otherwise |
| TimelineArea.Ruler | app/workspace/timeline-area.tsx:102 | the ruler has 61 ticks |
| TimelineArea.RulerShape | app/workspace/timeline-area.tsx:102-124 | a tick is major exactly at multiples of 10; major ticks before 60 read `i * factor`; no other tick is labelled |
| TimelineArea.RulerLabelsSpanTimeline | app/workspace/timeline-area.tsx:102-124 | on the standard lengths tick 0 reads 0 and tick 50 reads 5/6 of the length |
| TimelineArea.UnitIndex | app/workspace/timeline-area.tsx:136 | `findIndex` on the units: -1 exactly when absent, else the first occurrence |
| TimelineArea.NextUnit | app/workspace/timeline-area.tsx:135-139 | the chosen unit is always one of the units |
| TimelineArea.UnitIndexOfDistinct | app/workspace/timeline-area.tsx:136 | with distinct units the k-th unit is found at k |
| TimelineArea.NextUnitCycles | app/workspace/timeline-area.tsx:135-139 | the unit after the k-th is the next one, wrapping to the first after the last |
| TimelineArea.NextUnitOfStranger | app/workspace/timeline-area.tsx:137-139 | an unknown unit is followed by the first |
| TimelineArea.ConvertEffect | app/workspace/timeline-area.tsx:143-166 | only start and end are converted; key, kind and other fields kept |
| TimelineArea.ConvertEffects | app/workspace/timeline-area.tsx:142-167 | every effect converted, length and order kept |
| TimelineArea.ConvertEffectsRoundTrip | app/workspace/timeline-area.tsx:142-167 | converting there and back with a self-undoing conversion restores the effects |
| TimelineArea.CountScales | app/workspace/timeline-area.tsx:355 | the count of scale effects is at most the number of effects |
| TimelineArea.CountScalesAppend | app/workspace/timeline-area.tsx:355-366 | appending adds one to the count exactly for a scale effect |
| TimelineArea.NewScaleDraft | app/workspace/timeline-area.tsx:335-356 | empty keyframes, start and end 0, 30 fps, the layer, the project's id or the created one, order = number of scale effects |
| TimelineArea.AddCreatedScale | app/workspace/timeline-area.tsx:357-367 | the created scale is appended under its id; nothing changes without a response |
| TimelineArea.NextDraftOrderedAfter | app/workspace/timeline-area.tsx:355-366 | each new scale is ordered one past the previous one |

## Left out

- Network and async work is not modelled:
  - `createProject`, `updateProject`, `createScale` and `updateScale`;
  - the server round trip in the effect row's `updateAndDispatchEffect`.

  Their results enter as parameters: the created project id (`Option<string>`), the created scale, and whether the next page was returned.
- `useDebounce` timers and the `useEffect`/`useLayoutEffect` scheduling are left out. `ScaleEditor.OnDebounce` is the handler run after the pause. The effect row's own delayed save is left out with them; so is its end-time buffer, which starts from the effect's start time (app/workspace/effect-unit.tsx:54).
- DOM reads are parameters:
  - `clientWidth`/`clientHeight`;
  - the canvas stroke width;
  - the pointer position.

  Missing refs (`ref.current` null) are not modelled: refs are taken as mounted. Canvas drawing in `mouseDrag` is left out.
- Several library and formatting behaviours are not modelled:
  - `toFixed` text formatting of the boxes;
  - `parseFloat(...) || 0` parsing: a box holds the number its text reads as, and a typed box keeps what was typed even when the value is refused;
  - `Date.parse` (`last_active` is an integer);
  - `uuid.v4` (the fresh key is a parameter);
  - `Math.sqrt` (a parameter `sqrt` constrained by `IsSquareRoot`).
- Floating point is not modelled. Numbers are exact reals, so IEEE rounding and `toFixed` are absent. A division by zero, which gives NaN or Infinity in JavaScript, is a precondition instead. This covers:
  - `TrackValue` on an empty track;
  - `TrackCursor`, `ToClientTime` and `TimeToCursor` with a zero maximum;
  - `CursorToTime` with a zero usable width;
  - `Aspect` with a zero media height;
  - the `Canvas.ReleaseOutcome` and `DropGesture.Release` requirement that downloaded media have non-zero height.

  (The non-uniform cursor's zero-maximum case is modelled: `ZeroMaximumSaturates`.)
- `initReducer` sorts the caller's array in place. The model keeps only the effect that is used: the first project with the greatest `last_active` (`MostRecent`). The mutation of the caller's array is not modelled.
- The in-place sort of the timeline's effects by order (app/workspace/timeline-area.tsx:268) is not modelled.
- String lengths are counted in characters, where JavaScript counts UTF-16 code units. `Map` iteration order is not modelled, because maps are Dafny `map`s.
- Some fields are taken from their use in the source, because the type definitions are not part of this model:
  - the reducer's action values carry a `key`;
  - placed images and SVGs carry a `pending` flag, which a drop sets to false;
  - the drop tool's media is read as `tool.value.value.media_path`;
  - the timeline fields `timelineMaxValue`, `timelineUnit`, `effects` and `convertTime`, and the unit list.

  `timelineUnits` is any list and `convertTime` any function.
- The layer title editing and other rendering in the timeline area are left out, as are the reducer actions the workspace declares outside the version shown (`SetEffects`, `SetTimelineUnit`, `SetEffect`).
- The slider drag handlers of the scale editor (app/workspace/scale-unit.tsx:332-351, 478-500) are modelled only by the keyframe they save (`SpeedEquation`, `ZoomEquation`, `SaveNewEquation`). The cursor update they also make is not a separate method.
- `ScaleUnit.ScaleEditor.OnScaleTyped` and `ScaleUnit.ScaleEditor.OnDebounce` state the source's wiring as written (time slot, speed mapping). They do not state what the names suggest.
