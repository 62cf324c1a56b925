# wpt-embed filmstrip elements in Dafny

A model of the logic under the two WebPageTest filmstrip custom elements of
`wpt-embed`:

- `<wpt-filmstrip>` with its `<wpt-test>` children (`src/components/wpt-filmstrip.js`).
  Each child loads one timeline and renders it as two table rows: a meta row and a filmstrip row.
  The parent builds one shared timing row, long enough for the longest test, and asks every child to render into its table body.
- `<wpt-embed-filmstrip>` (`src/components/wpt-embed-filmstrip.js`), the older single-timeline element.
  It builds its filmstrip with its own sampling loop.

DOM nodes become values:

- a frame cell is the `FrameEvent` it shows;
- a timing cell is a `Label` (its axis point in ms and the fraction digits of its text);
- the rows of one `<wpt-test>` are a `RowGroup` carrying the id of its owner and a build counter that stands for node identity;
- the table body is a `TableBody` object holding the sequence of row groups.

Both sampling loops are `method`s with loop invariants. Each is proved against a function of its input:

- `getFrames`/`advanceTo`: its cursor is `Cursor`, and on sorted timelines it is the last-observation-carried-forward selection `Locf`. That selection picks the last event stamped strictly before the axis point.
- `buildFilmstrip`: its lagging cursor is `Run`, wrapped in `Embedded`.

The elements are classes whose methods update the fields the JavaScript updates.

Events the browser or the network deliver become method calls or returned values:

- `connectedCallback` and `disconnectedCallback` are methods the environment calls;
- `attributeChangedCallback` is a method taking the attribute name and the two values;
- a fetch is a returned `Option<string>` URL, and its answer is the separate `TimelineLoaded` call;
- the `test-modified` event is a returned `notified` flag, after which the parent's `UpdateTests` is the next call;
- a thrown `TypeError` is a `false`/`crashed` result or an `Err`.

Modules: `Timeline` (shared values and the time axis), `CamelCase`, `Intervals`, `Resampling` (`getFrames`), `EmbedSampling` (`buildFilmstrip`'s loop), `Filmstrip` (`WPTTest`, `WPTFilmstrip`, `TableBody`) and `EmbedFilmstrip` (`WPTEmbedFilmstrip`).

Two behaviours of the code shape the model:

- `#dirty` is set by `#maybeNotify` and never cleared. So a loaded test rebuilds its rows on every render, and the reappend branch of `renderInto` is reached only by a test whose fragment exists while `#dirty` is false. Every loaded test has `#dirty` set (`ValidState`), so such a test does not occur; `RenderInto` still models the branch. It also means a test whose `getFrames` throws stays dirty with the same timeline, so every later `updateTests` throws at it or earlier and never reaches the tests after it (`Filmstrip.FailureSticks`).
- `getFrames` compares strictly (`time < t`), so an event stamped exactly at an axis point first shows at the next point. Events at 0, 200 and 500 ms, with visual complete 600 and interval 100, give a,a,a,b,b,b,c,c (`Resampling.ThreeEventExample`).

## Model

| member | source | states |
|---|---|---|
| Timeline.AxisPointCount | src/components/wpt-filmstrip.js:483-486 | the axis 0, interval, ... up to `end` is empty exactly when `end` is negative |
| Timeline.AxisPointsUpToEnd | src/components/wpt-filmstrip.js:483-486 | axis point k (k·interval) lies on the axis iff k·interval <= end, so the axis has floor(end/interval)+1 points for end >= 0 and none otherwise |
| Timeline.AxisPointCountExact | src/components/wpt-filmstrip.js:273-275 | a loop from 0 in steps of interval that stops at the first point past `end` has made exactly AxisPointCount(end, interval) steps |
| Timeline.PointIsMultiple | src/components/wpt-filmstrip.js:485 | the accumulator `current`, grown by `interval` k times from 0, equals k·interval |
| Timeline.AxisWalked | src/components/wpt-filmstrip.js:483-486 | a sampling loop that stops at its first point past the end has produced exactly one entry per axis point |
| CamelCase.DashRun | src/components/wpt-filmstrip.js:49 | the greedy `(-)+` consumes exactly the leading dashes and stops at the first non-dash |
| CamelCase.Replace | src/components/wpt-filmstrip.js:49-53 | the global replace only removes dashes or turns a dash run and its letter into one character, so it never lengthens the string |
| CamelCase.ToCamelCase | src/components/wpt-filmstrip.js:44-57 | a property name is never longer than its attribute name (its shape is `ToCamelCaseShape`) |
| CamelCase.NoDashUnchanged | src/components/wpt-filmstrip.js:44-57 | a name without a dash is its own property name |
| CamelCase.LeadingDashDropped | src/components/wpt-filmstrip.js:49-53 | at offset 0 a dash followed by a lower-case letter is replaced by the letter unchanged, so "-" + w becomes w |
| CamelCase.ToCamelCaseShape | src/components/wpt-filmstrip.js:49-53 | in every result a dash can only remain at index 0, and then it is not followed by a lower-case letter |
| CamelCase.ShapedIsFixed | src/components/wpt-filmstrip.js:49-53 | a string of that shape is left unchanged by the rewrite |
| CamelCase.Idempotent | src/components/wpt-embed-filmstrip.js:42-55 | rewriting a property name a second time changes nothing |
| CamelCase.DashedNameToCamel | src/components/wpt-filmstrip.js:49-53 | a dash-free first word followed by "-word" parts (each starting with a lower-case letter, no dashes) becomes the first word followed by each part capitalised |
| CamelCase.ReplaceFirstWord | src/components/wpt-filmstrip.js:49-53 | a dash-free first word is copied unchanged, the first character kept as it is at offset 0 |
| CamelCase.TwoWordName | src/components/wpt-filmstrip.js:49-53 | "first-second" becomes "first" + upper-cased initial + rest of "second" |
| CamelCase.AspectRatioName | src/components/wpt-filmstrip.js:44-57 | "aspect-ratio" becomes "aspectRatio" |
| CamelCase.TimelineVideoName | src/components/wpt-filmstrip.js:44-57 | "timeline-video" becomes "timelineVideo" |
| CamelCase.TimelineUrlName | src/components/wpt-embed-filmstrip.js:42-55 | "timeline-url" becomes "timelineUrl" |
| CamelCase.TestNameName | src/components/wpt-filmstrip.js:44-57 | "test-name" becomes "testName" |
| CamelCase.TestIdName | src/components/wpt-embed-filmstrip.js:42-55 | "test-id" becomes "testId" |
| Intervals.DigitsInjective | src/components/wpt-filmstrip.js:204-206 | different numbers stringify differently, so the number-to-string step loses nothing |
| Intervals.Digits | src/components/wpt-filmstrip.js:205 | `toString` of a natural number is non-empty, starts with a digit and has two or more digits from 10 on |
| Intervals.Decimal | src/components/wpt-filmstrip.js:205 | `toString` of an integer is non-empty and starts with "-" exactly for negative numbers |
| Intervals.Switch | src/components/wpt-filmstrip.js:208-240 | the shared `switch` always lands on one of the five supported settings |
| Intervals.FilmstripSetting | src/components/wpt-filmstrip.js:202-240 | whatever is written, the filmstrip setter picks one of 16/100/500/1000/5000 ms with its precision 3/1/1/0/0 |
| Intervals.EmbedSetting | src/components/wpt-embed-filmstrip.js:184-217 | whatever is written, the embed setter picks one of the five intervals with its precision |
| Intervals.SupportedDecimals | src/components/wpt-filmstrip.js:204-206 | the numbers 16, 100, 500, 1000 and 5000 stringify to the case labels "16", "100", "500", "1000", "5000" |
| Intervals.FilmstripNumber | src/components/wpt-filmstrip.js:202-240 | a number selects its own interval exactly when it is one of the five, and 100 ms otherwise |
| Intervals.AllDigits | src/components/wpt-filmstrip.js:204-206 | a stringified natural number consists of decimal digits only |
| Intervals.DigitStringCase | src/components/wpt-filmstrip.js:208-240 | among digit strings only "16", "1000", "5000" and "500" select a non-default setting |
| Intervals.DashIsNoCase | src/components/wpt-filmstrip.js:208-240 | a string starting with "-" (every negative number) selects the default 100 ms / 1 digit |
| Intervals.NamedIntervals | src/components/wpt-embed-filmstrip.js:186-217 | "60fps", "0.1s", "0.5s", "1s", "5s" select 16/3, 100/1, 500/1, 1000/0, 5000/0 in both setters |
| Intervals.TablesAgreeExcept | src/components/wpt-embed-filmstrip.js:205-210 | the two setters agree on every string except "500ms" (500 ms in one, the 100 ms default in the other); the embed setter maps every number and null to the default |
| Resampling.LastBefore | src/components/wpt-filmstrip.js:466-477 | the selected frame index is within the timeline |
| Resampling.LastBeforeIsLast | src/components/wpt-filmstrip.js:466-477 | the frame shown for point t is stamped strictly before t (or is the first event), and every later event is stamped at or after t |
| Resampling.LastBeforeUnique | src/components/wpt-filmstrip.js:466-477 | that characterisation determines the shown index uniquely |
| Resampling.SkipStops | src/components/wpt-filmstrip.js:467-474 | `advanceTo`'s shifts stop at the first event before the cutoff whose successor is missing or not before it, and everything shifted off was before the cutoff |
| Resampling.SkipIsLastBefore | src/components/wpt-filmstrip.js:466-477 | on a sorted queue `advanceTo`'s head is the last event stamped before the cutoff |
| Resampling.LastBeforeFrom | src/components/wpt-filmstrip.js:473 | dropping events before the cursor does not change which event is last before a later cutoff |
| Resampling.AdvanceFromLastBefore | src/components/wpt-filmstrip.js:466-477 | advancing the destructive cursor from the previous point's answer gives the answer for the next, later point |
| Resampling.CursorIsLastBefore | src/components/wpt-filmstrip.js:482-486 | on a sorted timeline the cursor at axis point k is the last event stamped before k·interval |
| Resampling.CursorAdvances | src/components/wpt-filmstrip.js:482-486 | on a sorted timeline, if the cursor at point k-1 is the last event before that point, one more `advanceTo` makes the cursor at point k the last event before point k |
| Resampling.CursorMonotone | src/components/wpt-filmstrip.js:466-477 | the cursor moves forward only: for j <= k the cursor at point j is at most the cursor at point k, in any order of events |
| Resampling.Skip | src/components/wpt-filmstrip.js:467-474 | the number of events `advanceTo`'s while loop shifts off leaves the queue non-empty |
| Resampling.Cursor | src/components/wpt-filmstrip.js:482-486 | the queue head at every axis point is an index of the timeline (its meaning on sorted timelines is `CursorIsLastBefore`) |
| Resampling.Locf | src/components/wpt-filmstrip.js:460-488 | the reference sampling fails iff there is no event and the axis has a point; otherwise it has one frame per axis point up to visualComplete + interval |
| Resampling.CursorsAreLocf | src/components/wpt-filmstrip.js:460-488 | frames showing the cursor at every axis point are exactly the last-observation-carried-forward sampling |
| Resampling.AdvanceTo | src/components/wpt-filmstrip.js:466-477 | fails iff the queue is empty; otherwise returns the queue with exactly the skipped prefix shifted off, whose head on a sorted queue is the last event before the cutoff |
| Resampling.GetFrames | src/components/wpt-filmstrip.js:460-488 | fails iff there are no frames and the axis is not empty; otherwise one frame per axis point up to visualComplete + interval (frameCount ignored), each the cursor's event, equal to `Locf` on sorted timelines |
| Resampling.ShowsNextCursor | src/components/wpt-filmstrip.js:484 | pushing the cursor's event keeps every frame equal to its point's cursor |
| Resampling.CursorStep | src/components/wpt-filmstrip.js:466-477 | the queue `advanceTo` leaves at point k is the timeline from the cursor of point k on |
| Resampling.ThreeEventExample | src/components/wpt-filmstrip.js:466-477 | events at 0, 200, 500 ms with visual complete 600 and interval 100 show a,a,a,b,b,b,c,c: an event stamped exactly at a point appears one point later |
| EmbedSampling.Shift | src/components/wpt-embed-filmstrip.js:269-276 | `shift` yields nothing exactly on an empty queue; otherwise its element followed by the rest is the queue it was given |
| EmbedSampling.Run | src/components/wpt-embed-filmstrip.js:272-288 | when the loop survives n points it has chosen n cursors and the last of them is within the timeline (`RunInRange` bounds each one) |
| EmbedSampling.RunInRange | src/components/wpt-embed-filmstrip.js:272-288 | every cursor the loop uses is an index into the timeline |
| EmbedSampling.RunPrefix | src/components/wpt-embed-filmstrip.js:272-288 | surviving n points means surviving every shorter walk with the same cursors |
| EmbedSampling.ShownIsCaptured | src/components/wpt-embed-filmstrip.js:274-279 | the event shown at point k is the first event or one stamped strictly before k·interval |
| EmbedSampling.ShownLastIsCaptured | src/components/wpt-embed-filmstrip.js:274-277 | the newest point shows the previous point's event or the one after it, the one after exactly when it was stamped strictly before the point; either way it is the first event or one stamped before the point |
| EmbedSampling.OneStepPerPoint | src/components/wpt-embed-filmstrip.js:274-285 | the cursor advances by at most one event per axis point |
| EmbedSampling.EmbedNeverAhead | src/components/wpt-embed-filmstrip.js:274-285 | the embed loop never shows an event later than the last event before the point, i.e. it lags the `getFrames` selection |
| EmbedSampling.LastEventOnlyAtEnd | src/components/wpt-embed-filmstrip.js:270-276 | only the last point of a surviving walk can show the last event, since reaching it empties `nextMeta` |
| EmbedSampling.SingleFrameThrows | src/components/wpt-embed-filmstrip.js:270-276 | with a single frame the first iteration reads `.time` of a missing `nextMeta` |
| EmbedSampling.RunThrowsLater | src/components/wpt-embed-filmstrip.js:272-276 | once the loop has thrown, a longer axis throws too |
| EmbedSampling.EmbeddedFacts | src/components/wpt-embed-filmstrip.js:262-294 | no frames returns early; a single frame with visualComplete >= 0 throws; a build has floor(visualComplete/interval)+1 frames and labels, labels at multiples of the interval, each frame an event no later than the last one before its point |
| EmbedSampling.BuiltFramesLag | src/components/wpt-embed-filmstrip.js:274-285 | every frame of a surviving walk is an event no later than the last event stamped before its point |
| EmbedSampling.Embedded | src/components/wpt-embed-filmstrip.js:262-294 | the loop returns early iff there are no frames, and a build has one frame and one label per axis point 0..visualComplete |
| EmbedSampling.SampleTimeline | src/components/wpt-embed-filmstrip.js:264-288 | the sampling loop returns exactly `Embedded` of the timeline: nothing, a throw, or its frames and labels |
| Filmstrip.TableBody.constructor | src/components/wpt-filmstrip.js:170-174 | the table body starts without rows |
| Filmstrip.WithoutOwners | src/components/wpt-filmstrip.js:403-413 | extracting rows never adds any, and extracting no test leaves the body as it is |
| Filmstrip.WithoutOwnersMembers | src/components/wpt-filmstrip.js:403-413 | after extraction a row group remains iff it was there and belongs to none of the extracted tests |
| Filmstrip.WithoutOwnersAppend | src/components/wpt-filmstrip.js:403-413 | extracting distributes over the parts of the body |
| Filmstrip.WithoutOwnersTwice | src/components/wpt-filmstrip.js:403-413 | extracting one set of tests then another equals extracting both |
| Filmstrip.WithoutAbsentOwners | src/components/wpt-filmstrip.js:422 | extracting a test that has no rows in the body leaves it unchanged |
| Filmstrip.TestAttributeProperties | src/components/wpt-filmstrip.js:318-326 | the seven observed attributes of `<wpt-test>` land on label, timeline, timelineVideo, aspectRatio, size, testName, interval |
| Filmstrip.WPTTest.constructor | src/components/wpt-filmstrip.js:331-402 | a new test is unconnected, clean, without data, timeline "" or rows |
| Filmstrip.WPTTest.MaybeNotify | src/components/wpt-filmstrip.js:331-339 | marks the test dirty and notifies the parent iff connected |
| Filmstrip.WPTTest.ConnectedCallback | src/components/wpt-filmstrip.js:342-348 | under a `<wpt-filmstrip>` parent the test becomes connected, dirty and notifies; otherwise nothing changes |
| Filmstrip.WPTTest.UpdateTimeline | src/components/wpt-filmstrip.js:359-363 | a fetch starts iff the url is present, non-empty and different from the current one; the url is recorded before the fetch |
| Filmstrip.WPTTest.TimelineLoaded | src/components/wpt-filmstrip.js:364-366 | the answer replaces `data` whatever url it was for, and the test becomes dirty and notifies iff connected |
| Filmstrip.WPTTest.AttributeChanged | src/components/wpt-filmstrip.js:369-378 | only an observed attribute whose value changed has an effect: "timeline" goes through `UpdateTimeline`, any other lands on its camel-cased property; then the test is dirty and notifies iff connected |
| Filmstrip.WPTTest.Extract | src/components/wpt-filmstrip.js:403-413 | returns nothing before the first render and the cached fragment on repeated calls; the first call after a render takes the test's rows out of the body |
| Filmstrip.WPTTest.DisconnectedCallback | src/components/wpt-filmstrip.js:415-417 | disconnecting extracts the test's rows and caches them |
| Filmstrip.WPTTest.RenderInto | src/components/wpt-filmstrip.js:419-446 | without data nothing happens; a clean rendered test is reappended unchanged; otherwise the rows are rebuilt with a new build number, colspan frameCount and `getFrames`' frames, appended last with `#extracted` cleared, or the fragment is left unappended when `getFrames` throws |
| Filmstrip.WPTTest.Rebuild | src/components/wpt-filmstrip.js:433-445 | the rebuild path: a fresh row group with the summary link, colspan, page name and the frames of `GetFrames`, appended to the body |
| Filmstrip.MaxDuration | src/components/wpt-filmstrip.js:270 | `Math.max` of the durations is -Infinity exactly when there are no tests |
| Filmstrip.MaxDurationIsMax | src/components/wpt-filmstrip.js:270 | for at least one test it is one of the durations and no duration exceeds it |
| Filmstrip.Plus | src/components/wpt-filmstrip.js:270 | adding the interval to -Infinity gives -Infinity, and to a number gives a number |
| Filmstrip.Timings | src/components/wpt-filmstrip.js:270-275 | the timing row is empty for -Infinity; otherwise it has one label per axis point up to the end, label k at k·interval |
| Filmstrip.RowsFitTimingRow | src/components/wpt-filmstrip.js:269-275 | every test's frame row is at most as long as the timing row, and the longest test fills it exactly |
| Filmstrip.AxisPointCountGrows | src/components/wpt-filmstrip.js:270-273 | a later end never has fewer axis points |
| Filmstrip.AxisTimings | src/components/wpt-filmstrip.js:272-275 | the timing loop builds one label per axis point 0..end inclusive, at the multiples of the interval, and none for -Infinity |
| Filmstrip.FragmentOwners | src/components/wpt-filmstrip.js:278-284 | every row group the tests hold belongs to one of them |
| Filmstrip.ChildrenKept | src/components/wpt-filmstrip.js:278-284 | rendering one test that stays valid and detached keeps the invariant of all children |
| Filmstrip.RenderFails | src/components/wpt-filmstrip.js:278-284 | a render that throws still leaves all children valid and the body consistent |
| Filmstrip.LoadedIdsNext | src/components/wpt-filmstrip.js:278-284 | the set of rendered tests grows by the next child iff it has data |
| Filmstrip.FragmentsAvoid | src/components/wpt-filmstrip.js:278-284 | rows already rendered in this pass belong to earlier children, never to the next one |
| Filmstrip.RowsAfterRebuild | src/components/wpt-filmstrip.js:278-284 | extracting a test and appending its new rows keeps the body as the untouched rows followed by the rendered rows in child order |
| Filmstrip.WalkStart | src/components/wpt-filmstrip.js:278 | before the first child nothing is rendered and the body is unchanged |
| Filmstrip.WalkComplete | src/components/wpt-filmstrip.js:278-284 | after the last child every child with data is rendered and none threw |
| Filmstrip.RenderStep | src/components/wpt-filmstrip.js:278-284 | rendering the next child extends the rendered prefix by one |
| Filmstrip.RowsStep | src/components/wpt-filmstrip.js:278-284 | the body after the next child is the rows of the others followed by the rendered rows in child order |
| Filmstrip.RowsStepGroups | src/components/wpt-filmstrip.js:278-284 | after the next child renders, the body holds the untouched rows and then the rows of the rendered children in child order, one child further on |
| Filmstrip.NoneThrowsNext | src/components/wpt-filmstrip.js:278-284 | the no-throw prefix grows by a child that has no data or frames to show |
| Filmstrip.FragmentsSnoc | src/components/wpt-filmstrip.js:278-284 | the rendered rows of one more child are those before plus its own |
| Filmstrip.RenderNext | src/components/wpt-filmstrip.js:278-284 | a successful render of the next child extends the walk by one; a failed one leaves every child consistent and means the walk stopped at that child (`FailedAt`) |
| Filmstrip.FailureSticks | src/components/wpt-filmstrip.js:279-283 | after a walk stopped at test n, test n still has its timeline, which still throws, so the next walk stops again at n or earlier and the tests after n remain as they were before the first walk |
| Filmstrip.FragmentsAppend | src/components/wpt-filmstrip.js:278-284 | the rendered rows of tests in sequence are the rows of each part in turn |
| Filmstrip.FragmentsSkipUnloaded | src/components/wpt-filmstrip.js:420 | a test without a timeline contributes no rows between its neighbours |
| Filmstrip.FragmentsWithout | src/components/wpt-filmstrip.js:420 | the rendered rows of all tests are those of the tests before and after an unloaded one |
| Filmstrip.UnloadedTestWidensAxis | src/components/wpt-filmstrip.js:266-275 | a test without a timeline counts in the maximum duration as 0 (`duration` at :355-357), so the timing row has at least two labels, yet it adds no rows to the table (`renderInto` returns at :420) |
| Filmstrip.RenderedRowsFit | src/components/wpt-filmstrip.js:266-285 | after `updateTests` each loaded test's meta row spans the timing row, its frames fit in it, and the longest test's frames fill it |
| Filmstrip.RenderChild | src/components/wpt-filmstrip.js:279-283 | one `renderInto` call changes only its own test, with the effect `RenderInto` promises for a valid test |
| Filmstrip.RenderAll | src/components/wpt-filmstrip.js:278-284 | rendering every child in order succeeds iff none throws; then each loaded child is rebuilt, the others unchanged, and the body ends with the children's rows in child order; on a throw the walk stopped at some child n: those before it rendered, n's rows taken out with an empty new row group held, and those after it untouched |
| Filmstrip.WPTFilmstrip.constructor | src/components/wpt-filmstrip.js:184-201 | the filmstrip starts unwired at 100 ms with one fraction digit and an empty table |
| Filmstrip.WPTFilmstrip.ConnectedCallback | src/components/wpt-filmstrip.js:255-257 | connecting wires the element and changes nothing else |
| Filmstrip.WPTFilmstrip.UpdateTests | src/components/wpt-filmstrip.js:266-285 | nothing happens until wired; then the timing row runs to the maximum duration plus one interval (no labels without tests) and every child renders with frameCount equal to the label count, or the walk stops at the first child that throws, as `RenderAll` states |
| Filmstrip.WPTFilmstrip.SetInterval | src/components/wpt-filmstrip.js:202-245 | the written value selects the setting of the filmstrip table, and the tests are re-rendered only when the interval in ms changed |
| Filmstrip.WPTFilmstrip.AttributeChanged | src/components/wpt-filmstrip.js:189-197 | only an observed attribute whose value changed has an effect: the others become plain properties, and "interval" goes through the setter, which re-renders the timing row and the tests (as `UpdateTests` states) iff the element is wired and the interval in ms changed |
| Filmstrip.WPTFilmstrip.Interval | src/components/wpt-filmstrip.js:246 | the getter's answer, written back to the setter, selects the 100 ms default |
| Filmstrip.FilmstripAttributeProperties | src/components/wpt-filmstrip.js:71-75 | the filmstrip's observed attributes land on aspectRatio, size and interval |
| EmbedFilmstrip.EmbedAttributeProperties | src/components/wpt-embed-filmstrip.js:161-169 | the six observed attributes land on testId, timelineUrl, timelineVideo, aspectRatio, testName, interval |
| EmbedFilmstrip.WPTEmbedFilmstrip.constructor | src/components/wpt-embed-filmstrip.js:182-306 | the element starts unwired at 100 ms with one fraction digit, no timeline, empty accessors and nothing shown |
| EmbedFilmstrip.WPTEmbedFilmstrip.ConnectedCallback | src/components/wpt-embed-filmstrip.js:323-343 | connecting wires the element and changes nothing else |
| EmbedFilmstrip.WPTEmbedFilmstrip.BuildFilmstrip | src/components/wpt-embed-filmstrip.js:262-294 | without a timeline or frames nothing changes; the loop's throw, or an unwired shadow root, crashes before any output is written; otherwise the shown rows are the summary link, the page name, a colspan equal to the frame count and `Embedded`'s frames and labels |
| EmbedFilmstrip.WPTEmbedFilmstrip.SetInterval | src/components/wpt-embed-filmstrip.js:184-220 | the written value selects the setting of the embed table and the filmstrip is rebuilt even when nothing changed |
| EmbedFilmstrip.WPTEmbedFilmstrip.UpdateTimeline | src/components/wpt-embed-filmstrip.js:228-233 | a fetch starts iff the url is present, non-empty and different from the current one; `timelineUrl` reflects it at once |
| EmbedFilmstrip.WPTEmbedFilmstrip.TimelineLoaded | src/components/wpt-embed-filmstrip.js:234-235 | the answer replaces the timeline data and the filmstrip is rebuilt |
| EmbedFilmstrip.WPTEmbedFilmstrip.AttributeChanged | src/components/wpt-embed-filmstrip.js:314-321 | only an observed attribute whose value changed has an effect; it reaches `updateTimeline`, the plain testId/timelineVideo/aspectRatio setters (which store it as given), a plain property, or the interval setter, which always rebuilds: the shown rows and the crash follow `Embedded` and no other field changes |
| EmbedFilmstrip.WPTEmbedFilmstrip.Interval | src/components/wpt-embed-filmstrip.js:221 | the getter's answer, written back to the setter, selects the 100 ms default |

## Left out

- Styles, `<template>` markup, shadow roots, `customElements.define`, `byId` and the unused `listen` helper are DOM plumbing. A shadow root is reduced to "wired or not".
- `fetch` and `r.json()` are asynchronous I/O. A fetch is a returned url and its answer a later `TimelineLoaded` call. There is no stale-response check, so any answer overwrites the data.
- `Intl.NumberFormat` label text and `ms / 1000` are floating point in a foreign library. A label is its axis point in ms and its fraction-digit count.
- `new URL(...)` image resolution and the "`${meta.VisuallyComplete}%`" text of a frame cell are not modelled. A frame cell is the event it shows.
- The embed element creates its cells with `this.shadowRoot.createElement`, a DOM method a shadow root does not offer. The model treats those helpers as producing the cell, as the filmstrip element's `document.createElement` does.
- `Range.extractContents`, `cloneNode` and the bubbling `CustomEvent` are DOM operations. A row group is a value with an owner and a build number, and notification is the returned flag.
- The `toCamelCase` memo `Map` does not change results. The unused `WPTTestRenderer` class is not part of this model.
- Timestamps are integer ms. Selection facts that rely on ascending order take `Sorted` as a hypothesis.
- Filmstrip.WPTFilmstrip.Interval: `get interval()` is modelled as the constant "100" it returns, because `#_interval` is never written.
- EmbedFilmstrip.WPTEmbedFilmstrip.Interval: `get interval()` likewise always returns "100".
- Filmstrip.WPTTest.RenderInto: the contract relating the render to `RenderEffect` holds for tests whose invariant (`Valid`) held before. For other states only the case-by-case clauses describe the outcome.
- Filmstrip.WPTFilmstrip.UpdateTests: the `#tests` getter that collects the `wpt-test` children is a parameter `tests`. Its elements are the distinct child objects in child order.
- Resampling.GetFrames, EmbedSampling.SampleTimeline, Filmstrip.WPTTest.TimelineLoaded, EmbedFilmstrip.WPTEmbedFilmstrip.TimelineLoaded: a timeline is always a complete record. A document without `filmstripFrames` makes `Array.from(undefined)` throw (wpt-filmstrip.js:461, wpt-embed-filmstrip.js:264), and one without `visualComplete` makes the end NaN, so `getFrames` returns no frames and the embed loop does not run. Neither case is modelled.
- Intervals.FilmstripSetting: a number written to `interval` is an integer here. Fractional numbers, `NaN` and `Infinity` are not modelled; their `toString` text matches no case, so they all select the 100 ms default.
- Filmstrip.DurationOf: `visualComplete || 0` is modelled on integers, where only 0 is falsy. A missing `visualComplete` (undefined, NaN) is not modelled.
