# Interview proctoring: the signal-to-event debouncing engine

This project models two parts of an interview proctoring web application in Dafny.

The first part is the engine on the interview page. A face check runs every 300 ms and an
object check every 5 s (frontend/src/pages/InterviewPage.jsx:36-37, 294-295). The engine turns
the face detector's and the object detector's per-frame results into a few discrete integrity
events: `no_face`, `look_away`, `multiple_faces` and `object_detected`. Each event goes to the backend,
and each also adds an alert to a short list shown on screen.

The second part is the backend's CSV report of a session's stored events.

The modules:

- `FaceGeometry` (geometry.dfy) holds the face candidates the detector reports, the box
  normaliser, the "good face" filter, the horizontal centre of a face and the gaze-offset test.
- `Debounce` (debounce.dfy) is the face tick as a pure transition over the detection record.
  `Step` is one completed tick and `Run` is a run of ticks. The lemmas prove the counter bounds,
  the exact ticks on which each event fires, and the number of events a run fires.
- `ObjectSignals` (objects.dfy) is the object tick's filter: which predictions become
  `object_detected` events, and with what payload.
- `Events` (events.dfy) holds the four event payloads and their event-type strings.
- `Monitor` (monitor.dfy) is the page's `Engine`: a class whose fields are the detection record,
  the alert list and the outbox of events handed to the backend. These methods update those
  fields in place, in the source's order:
  - `FaceTick`, `ObjectTick`, `RaiseEvent`, `PushAlert`;
  - the blocks of a face tick, as their own methods.

  `FaceTick` is proved to change the fields exactly as `Debounce.Step` says. `ObjectTick` is
  proved to raise exactly `ObjectSignals.ObjectEmissions`. Both also keep the fan-out
  bookkeeping: each fired event is stamped, posted once in order, and has its alert pushed.
- `Report` (report.dfy) is `eventsToCsv`, plus its partner: a reader of double-quoted CSV fields.
  The lemmas prove what reading the report back gives.
- `Strings` (strings.dfy) and `Wrappers` (wrappers.dfy) are shared helpers: decimal printing,
  lower-casing, join and split, and `Option`.

Numbers in the geometry are exact reals. A tick lasts exactly 0.3 s, so `no_face` fires when a
counter reaches 34 ticks (10.2 s > 10 s) and `look_away` fires at 17 ticks (5.1 s > 5 s).

Two behaviours a reader might expect differently from what the code does; the model follows the
code:

- A failed perception call might be expected to count as an absent tick, advancing the absence
  counter. In the code, `runFaceCheck` returns before touching the counters when the model or
  video is not ready (frontend/src/pages/InterviewPage.jsx:100). An error thrown by the detector
  call at line 109 jumps to the catch block at lines 221-223, before the first counter update at
  line 140. So both cases leave every
  counter, `lastFaceCount` included, unchanged. `Monitor.Engine.FaceTick` states this.
- A long multi-face run might be expected to fire `multiple_faces` once, and then not again
  until the run is broken. In the code, the counter is re-armed to 0 when it fires, so an unbroken run
  fires again on every third tick (frontend/src/pages/InterviewPage.jsx:144-152).
  `Debounce.MultipleFacesRun` proves ⌊(k + n) / 3⌋ events for a run of n ticks.

The face tick computes the look-away condition from the first good face before its counter
updates. The source evaluates the condition after the multi-face block, but that block changes
nothing the condition reads, so the order makes no difference. The counter updates and raises
themselves keep the source's order:

1. the absence counter;
2. the multi-face block, with its raise;
3. the look-away counter;
4. the `no_face` raise;
5. the `look_away` raise;
6. `lastFaceCount`.

`Debounce.StepInPhases` proves that this ordering is `Debounce.Step`.

## Model

| member | source | states |
|---|---|---|
| FaceGeometry.NormalizeBox | frontend/src/pages/InterviewPage.jsx:115-129 | a candidate has a box exactly when it has a corner pair, a `box` of at least four entries, or keypoints; width and height are never negative |
| FaceGeometry.CornersTakePrecedence | frontend/src/pages/InterviewPage.jsx:116-119 | with both corners present the width and the height are the clamped corner differences and do not depend on `box` or `keypoints` |
| FaceGeometry.BoxBeforeKeypoints | frontend/src/pages/InterviewPage.jsx:120-121 | without corners, a `box` of four or more entries gives [w, h] clamped and the keypoints are ignored |
| FaceGeometry.KeypointBoxIsTightBound | frontend/src/pages/InterviewPage.jsx:122-127 | for a keypoint cloud the box is the smallest box holding every keypoint: all lie inside and some keypoint touches each side |
| FaceGeometry.MinOf | frontend/src/pages/InterviewPage.jsx:125-126 | `Math.min(...xs)` is an element of the list no larger than any other |
| FaceGeometry.MaxOf | frontend/src/pages/InterviewPage.jsx:125-126 | `Math.max(...xs)` is an element of the list no smaller than any other |
| FaceGeometry.CanvasFrame | frontend/src/pages/InterviewPage.jsx:104-105 | the canvas has the video's size, with 640 for a zero width and 480 for a zero height |
| FaceGeometry.Score | frontend/src/pages/InterviewPage.jsx:132 | `pred.score ?? pred.probability`: the score when present, else the probability; absent only when both are |
| FaceGeometry.IsGoodFace | frontend/src/pages/InterviewPage.jsx:129-134 | a good face has a box (corners, a `box` of at least four entries, or keypoints) and a score that is absent or at least 0.45 |
| FaceGeometry.GoodFaceInPixels | frontend/src/pages/InterviewPage.jsx:129-134 | a candidate is good iff it has a box, 100 × box area ≥ 3 × frame area, and its score is absent or ≥ 0.45 |
| FaceGeometry.GoodFaces | frontend/src/pages/InterviewPage.jsx:114-135 | the good list is no longer than the predictions and holds exactly the predictions that pass the filter |
| FaceGeometry.GoodFacesMultiset | frontend/src/pages/InterviewPage.jsx:114-135 | each candidate occurs in the good list exactly as often as in the predictions when it passes the filter, and not at all otherwise |
| FaceGeometry.GoodFacesInOrder | frontend/src/pages/InterviewPage.jsx:114 | the good list is a subsequence of the predictions: order is kept |
| FaceGeometry.CenterX | frontend/src/pages/InterviewPage.jsx:156-167 | the centre is taken from the corners, else the mean keypoint x, else `box[0] + box[2]/2`; every candidate with a box has a centre |
| FaceGeometry.KeypointCenterWithinBounds | frontend/src/pages/InterviewPage.jsx:162-164 | a keypoint cloud's centre lies inside the keypoints' horizontal extent |
| FaceGeometry.MeanWithinExtent | frontend/src/pages/InterviewPage.jsx:164 | the mean of a non-empty list lies between its least and its greatest element |
| FaceGeometry.LooksAway | frontend/src/pages/InterviewPage.jsx:169-172 | a face looks away iff it has a centre and that centre lies in the outer 27.5% of the canvas on either side |
| FaceGeometry.GazeOffsetBands | frontend/src/pages/InterviewPage.jsx:169-173 | an offset above 0.45 means the centre is in the outer 27.5% of the canvas on either side |
| Debounce.Round | frontend/src/pages/InterviewPage.jsx:185 | `Math.round` of a non-negative number is within half of it |
| Debounce.Observe | frontend/src/pages/InterviewPage.jsx:110-179 | a tick's signals are coherent: the good count is at most the raw count, looking away needs a good face, and there is no good face iff no prediction passes the filter |
| Debounce.NoFaceThreshold | frontend/src/pages/InterviewPage.jsx:182-185 | `counter × 0.3 > 10` iff counter ≥ 34, and at 34 the rounded duration is 10 |
| Debounce.LookAwayThreshold | frontend/src/pages/InterviewPage.jsx:189-192 | `counter × 0.3 > 5` iff counter ≥ 17, and at 17 the rounded duration is 5 |
| Debounce.Step | frontend/src/pages/InterviewPage.jsx:139-195 | one completed face tick fires at most three events, none of them `object_detected`, and records the tick's raw count as `lastFaceCount` |
| Debounce.Run | frontend/src/pages/InterviewPage.jsx:139-195 | a run of n face ticks fires at most 3n events, none of them `object_detected` |
| Debounce.StepFired | frontend/src/pages/InterviewPage.jsx:139-193 | from bounded counters a tick fires `multiple_faces` on the 3rd multi-face tick, then `no_face` (10 s) on the 34th absent tick, then `look_away` (5 s) on the 17th looking-away tick, and nothing else |
| Debounce.StepCounters | frontend/src/pages/InterviewPage.jsx:139-195 | each counter advances or resets and is re-armed to 0 on reaching its firing value; after a tick the counters are within [0,33], [0,16], [0,2] and `lastFaceCount` is the raw count |
| Debounce.StepInPhases | frontend/src/pages/InterviewPage.jsx:139-195 | the tick's blocks performed in the source's order (counting half, then the no-face and look-away raises, then the face count) are `Step` |
| Debounce.NoFaceFiresExactly | frontend/src/pages/InterviewPage.jsx:140-186 | counting absent ticks (140-141) and firing with re-arming (182-186): `no_face` fires exactly once on an absent tick completing 34 in a row, never otherwise, and always with 10 seconds |
| Debounce.LookAwayFiresExactly | frontend/src/pages/InterviewPage.jsx:172-193 | counting looking-away ticks (172-179) and firing with re-arming (189-193): `look_away` fires exactly once on the 17th looking-away tick in a row, never otherwise, always with 5 seconds |
| Debounce.MultipleFacesFiresExactly | frontend/src/pages/InterviewPage.jsx:144-152 | `multiple_faces` fires exactly once on the 3rd multi-face tick in a row, with that tick's good count; a tick with at most one good face resets the count |
| Debounce.NoFaceFiresAlone | frontend/src/pages/InterviewPage.jsx:140-155 | a tick that fires `no_face` fires neither `multiple_faces` nor `look_away`, and a face tick never fires `object_detected` |
| Debounce.RunKeepsBounds | frontend/src/pages/InterviewPage.jsx:139-195 | the counter bounds hold after every run of ticks, and `lastFaceCount` is the last tick's raw count |
| Debounce.RunCountersWithinTicks | frontend/src/pages/InterviewPage.jsx:140-179 | no counter grows by more than the number of ticks |
| Debounce.AbsentRun | frontend/src/pages/InterviewPage.jsx:182-186 | n absent ticks from counter k fire `no_face` exactly ⌊(k+n)/34⌋ times and leave the counter at (k+n) mod 34 |
| Debounce.MultipleFacesRun | frontend/src/pages/InterviewPage.jsx:144-152 | n multi-face ticks from counter k fire `multiple_faces` exactly ⌊(k+n)/3⌋ times and leave the counter at (k+n) mod 3 |
| Debounce.LookAwayRun | frontend/src/pages/InterviewPage.jsx:189-193 | n looking-away ticks from counter k fire `look_away` exactly ⌊(k+n)/17⌋ times and leave the counter at (k+n) mod 17 |
| Debounce.AbsentRunRaisesNoFace | frontend/src/pages/InterviewPage.jsx:182-186 | an absent run that brings the counter to 34 or beyond raises an event that is a `no_face` (the type-count statements read back as event kinds through `Events.CountTypePositive` and `Events.EventTypeDetermines`) |
| Debounce.AbsentForThirtyFiveTicks | frontend/src/pages/InterviewPage.jsx:182-186 | 34 absent ticks from the start fire one `no_face` and re-arm; a 35th fires nothing more and sets the counter to 1 |
| Debounce.RunCarriesGoodCount | frontend/src/pages/InterviewPage.jsx:148 | every `multiple_faces` event of a run carries the good count of one of the run's ticks |
| Debounce.TwoFacesForFourTicks | frontend/src/pages/InterviewPage.jsx:144-152 | three ticks with two good faces fire one `multiple_faces{count: 2}`, and a fourth fires nothing more |
| Events.EventType | frontend/src/pages/InterviewPage.jsx:385 | the stored type is one of the four names, and it is `object_detected` exactly for an object event |
| Events.EventTypeDetermines | frontend/src/pages/InterviewPage.jsx:387-390 | the four event-type strings are pairwise distinct |
| Events.CountTypePositive | frontend/src/pages/InterviewPage.jsx:385 | an event type occurs among the raised events exactly when its count is positive |
| ObjectSignals.IsFlagged | frontend/src/pages/InterviewPage.jsx:244-246 | a flagged prediction has a lower-cased label in the flag set and a truthy score or confidence, and a truthy score above 0.35 |
| ObjectSignals.Confidence | frontend/src/pages/InterviewPage.jsx:245 | the confidence is `score` when truthy, else `confidence` when truthy, else 0 |
| ObjectSignals.RoundHundredths | frontend/src/pages/InterviewPage.jsx:247 | `Math.round(conf * 100)` is within half a hundredth of the confidence |
| ObjectSignals.Report | frontend/src/pages/InterviewPage.jsx:246-247 | a flagged prediction raises `object_detected` with a flagged label and a confidence of at least 0.35 within half a hundredth of the measured one |
| ObjectSignals.ObjectEmissions | frontend/src/pages/InterviewPage.jsx:242-248 | every event is an `object_detected` with a flagged label, there are no more events than predictions, and a flagged first prediction gives the first event |
| ObjectSignals.ObjectEmissionsConcat | frontend/src/pages/InterviewPage.jsx:242 | the events of consecutive predictions are the events of each part, in prediction order |
| ObjectSignals.ObjectEmissionsExtend | frontend/src/pages/InterviewPage.jsx:243-248 | one more prediction adds its event when it is flagged and nothing otherwise |
| ObjectSignals.ObjectEmissionsCount | frontend/src/pages/InterviewPage.jsx:242-248 | exactly one event per flagged prediction |
| ObjectSignals.PhoneScenario | frontend/src/pages/InterviewPage.jsx:241-248 | a phone at 0.5 raises one event with confidence 0.5; at 0.2 it raises none |
| ObjectSignals.UpperCaseLabelFlagged | frontend/src/pages/InterviewPage.jsx:244 | labels are compared after lower-casing |
| Strings.ToLower | frontend/src/pages/InterviewPage.jsx:244 | lower-casing keeps the length, maps each letter, and leaves no upper-case letter |
| Strings.NatToString | frontend/src/pages/InterviewPage.jsx:387-389 | a number prints as a non-empty string of digits with no leading zero |
| Strings.DecimalValueOfNatToString | frontend/src/pages/InterviewPage.jsx:387-389 | a number printed in a message reads back as the number |
| Strings.HundredthsToString | frontend/src/pages/InterviewPage.jsx:390 | the confidence prints starting with a digit, with a decimal point exactly when it is not a whole number, and never with a fraction ending in `0` |
| Strings.HundredthsReadBack | frontend/src/pages/InterviewPage.jsx:390 | the printed confidence h/100 reads back: it starts with the whole part ⌊h/100⌋ in decimal, is just that when h % 100 = 0, and otherwise continues with a point and one or two digits worth exactly h % 100 hundredths |
| Monitor.Prepend | frontend/src/pages/InterviewPage.jsx:379 | the new list has one more alert than the old one, capped at six |
| Monitor.PrependAt | frontend/src/pages/InterviewPage.jsx:379 | the pushed alert is at the head, and the rest are the previous alerts in order |
| Monitor.PushAllWithAt | frontend/src/pages/InterviewPage.jsx:379 | pushing one alert per event, one at a time, leaves them newest first, then the earlier list, cut to six |
| Monitor.AlertsAfterEvents | frontend/src/pages/InterviewPage.jsx:379 | after a batch of events the list holds their alerts newest first, then the previous list, cut to six |
| Monitor.Message | frontend/src/pages/InterviewPage.jsx:387-391 | every alert text of an event ends in `)` |
| Monitor.MessageNamesObject | frontend/src/pages/InterviewPage.jsx:390 | an object alert's text is `Object: `, the detected class, then ` (`, the confidence as `Strings.HundredthsToString` prints it (its value read back by `Strings.HundredthsReadBack`) and `)` |
| Monitor.MessageShowsNumber | frontend/src/pages/InterviewPage.jsx:387-389 | a face event's message is its fixed prefix, the event's number in decimal and its suffix |
| Monitor.LevelOf | frontend/src/pages/InterviewPage.jsx:392 | the level is `warn` exactly for `object_detected`, and `error` for the rest |
| Monitor.StampedInOrder | frontend/src/pages/InterviewPage.jsx:385 | the i-th raised event carries the session, the engine's name, the i-th emission and the tick's time |
| Monitor.Engine.constructor | frontend/src/pages/InterviewPage.jsx:26-31 | all four counters start at 0, the alert list and outbox start empty, and the session and name are the ones given |
| Monitor.Engine.PushAlert | frontend/src/pages/InterviewPage.jsx:376-381 | the alert list becomes the new alert followed by the old list, cut to six |
| Monitor.Engine.RaiseEvent | frontend/src/pages/InterviewPage.jsx:384-394 | the event is built from the session, the name, the payload and the time, is posted once, and its alert is pushed |
| Monitor.Engine.CheckMultipleFaces | frontend/src/pages/InterviewPage.jsx:144-152 | the counter advances or resets and re-arms on 3; `multiple_faces{count}` is raised exactly when it reaches 3 |
| Monitor.Engine.IsLookingAway | frontend/src/pages/InterviewPage.jsx:155-179 | looking away iff there is a first good face whose centre exists and whose offset exceeds 0.45 |
| Monitor.Engine.FireNoFace | frontend/src/pages/InterviewPage.jsx:181-186 | past the threshold the counter re-arms and `no_face` is raised with the rounded duration; otherwise nothing changes |
| Monitor.Engine.FireLookAway | frontend/src/pages/InterviewPage.jsx:188-193 | past the threshold the counter re-arms and `look_away` is raised with the rounded duration; otherwise nothing changes |
| Monitor.Engine.Count | frontend/src/pages/InterviewPage.jsx:139-179 | the counting half of a tick leaves the counters `Debounce.Counted` gives and raises what the multi-face block fires |
| Monitor.Engine.Fire | frontend/src/pages/InterviewPage.jsx:181-193 | the firing half re-arms as `Debounce.Rearmed` says and raises `no_face` and then `look_away` as they fire |
| Monitor.Engine.Advance | frontend/src/pages/InterviewPage.jsx:137-195 | a completed face tick moves the counters to `Debounce.Step`'s next state and raises exactly its events, posted and alerted in order |
| Monitor.Engine.FaceTick | frontend/src/pages/InterviewPage.jsx:97-224 | not ready or failed: no counter, alert or post changes; otherwise the counters follow `Step` over the observed signals and its events are raised in order, keeping every counter and the alert list within bounds |
| Monitor.Engine.CheckObject | frontend/src/pages/InterviewPage.jsx:242-248 | a flagged prediction raises exactly its `object_detected` event, and any other raises nothing |
| Monitor.Engine.ObjectTick | frontend/src/pages/InterviewPage.jsx:229-253 | the tick raises exactly `ObjectEmissions` of the predictions in order (nothing when not ready or failed) and changes no detection counter |
| Report.Escape | backend/routes/reportRoutes.js:15 | escaping never shortens the details text |
| Report.EscapeDoublesQuotes | backend/routes/reportRoutes.js:15 | escaping adds exactly one character per `"` in the details text |
| Report.UnescapeEscape | backend/routes/reportRoutes.js:15 | replacing `""` by `"` in the escaped details gives back the original details text |
| Report.EscapeKeeps | backend/routes/reportRoutes.js:15 | escaping adds or removes no character other than `"` |
| Report.Row | backend/routes/reportRoutes.js:13-21 | a row is the four field texts, with the details escaped, plus eight double quotes and three commas; it begins and ends with a double quote |
| Report.Rows | backend/routes/reportRoutes.js:12-22 | one row per event |
| Report.RowsInOrder | backend/routes/reportRoutes.js:12-22 | the i-th row is the i-th event's row |
| Report.RowReadsBack | backend/routes/reportRoutes.js:13-21 | a row is four double-quoted fields separated by commas that read back as the timestamp, the type or "", the name or "", and the details text (when the three unescaped fields hold no `"`) |
| Report.ParseQuotedConsumes | backend/routes/reportRoutes.js:15 | a quoted field that reads back as a value consumed exactly that value escaped with `""`, then its closing quote |
| Report.QuoteInNameMisreads | backend/routes/reportRoutes.js:13-21 | a `"` in the candidate name, which is not escaped, means the row never reads back as the event's fields: it either fails to parse or parses to other fields |
| Report.DoubledQuoteInNameMisreads | backend/routes/reportRoutes.js:13-21 | the name `a""b` gives a row of four well-formed fields whose name reads back as `a"b` |
| Report.QuoteInNameBreaksRow | backend/routes/reportRoutes.js:13-21 | the name `"` gives a row that is no line of quoted fields at all |
| Report.CsvStartsWithHeader | backend/routes/reportRoutes.js:11-23 | the report starts with `timestamp,eventType,candidateName,details` followed by a newline or the end; with no events it is the header alone |
| Report.EventsToCsv | backend/routes/reportRoutes.js:10-24 | the report is at least the header plus twelve characters per event: each row's eleven and its newline |
| Report.CsvLines | backend/routes/reportRoutes.js:12-23 | when no field holds a newline, the report's lines are the header and then exactly one row per event, in order |
| Report.CsvReadsBack | backend/routes/reportRoutes.js:10-24 | under the same conditions every line after the header reads back as its event's four fields |
| Strings.SplitJoin | backend/routes/reportRoutes.js:23 | splitting a newline join gives back the lines when none holds a newline |

## Left out

- The name input (frontend/src/pages/InterviewPage.jsx:431) is left out. The interval timers
  are started at mount and restarted once, on the first re-render, when the effect's dependency
  first reads the video element (lines 290-302, triggered by line 262). No later render
  restarts them, so the ticks they drive read the name of that first re-render (line 385),
  which is the value at line 20. So the engine's `candidateName` is fixed when it is built.
  The two kick-off ticks of `handleStart` (lines 345-346) are created when Start is clicked
  and read the name of that moment; an engine with a name different from the interval ticks'
  is not modelled.
- Strings.ToLower: lower-cases only the ASCII letters A–Z. `String.prototype.toLowerCase` maps
  every Unicode upper-case character; for example U+212A KELVIN SIGN becomes `k`, so a label
  "\u212Aeyboard" is flagged as "keyboard" by the source but not by the model.
- Media capture, recording upload, the report download button, the timers and the async
  scheduling of ticks are left out: they are browser I/O. Each tick is modelled as one atomic
  step; overlapping ticks are not modelled.
- Model loading and inference are left out. `estimateFaces` and `detect` are foreign calls, so a
  tick takes their output as input (`FaceReading`, `ObjectReading`): not ready, failed, or a list
  of predictions. A `null` prediction list is the empty list.
- Canvas drawing, the debug overlay, sounds and rendering are left out as UI.
- Alert ids and timestamps come from `Date.now`, `Math.random` and `new Date().toISOString()`.
  They are one opaque `Stamp` per tick, supplied by the caller.
- Posting an event to the backend is fire-and-forget in the source. The model appends it to the
  `posted` outbox; delivery failures are not modelled.
- Floating point is left out: IEEE rounding is not modelled, and coordinates, scores and
  durations are exact reals, so `Seconds(k)` is exactly k × 0.3.
- A keypoint with a missing or falsy coordinate is recorded with 0 (`k.x || 0`). A missing
  `box` or `keypoints` array is the empty sequence, because the source only tests their lengths.
  NaN is not modelled.
- Object confidence: the payload's confidence is modelled as the rounded hundredths
  (`Math.round(conf * 100)`). The division by 100 is represented only by how the message prints
  the number (`Strings.HundredthsToString`, read back by `Strings.HundredthsReadBack`).
- `JSON.stringify` of an object-valued details field and `Date.prototype.toISOString` in
  `eventsToCsv` are foreign formatting. The report takes their text as given
  (`Report.StoredDetails`, `Report.StoredEvent`). An invalid date, for which `toISOString`
  throws, is not modelled; the event schema gives every event a date.
- Report.CsvLines: states the line structure only when no field holds a newline. A quoted field
  may legally hold one, and then the report's lines do not correspond one to one to events.
- Report.RowReadsBack: reads the row back only when the timestamp, type and name hold no `"`.
  Those three fields are inserted without escaping (`Report.QuoteInNameMisreads` shows that a
  `"` in the name always breaks the read-back).
- PDF generation, the HTTP routes, the report controller, the server, the API client, the
  presentational components and the build configuration are not part of this model.
