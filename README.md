# Interactive music generator: a verified model of its core

The application watches a camera and turns what it sees into music. A
TensorFlow detector and a colour-ball detector find objects. Their positions
and classes pick notes, rhythms and timbres. Tone.js synths, a step sequencer
and an effects chain make the sound. This project is a Dafny model of the
deterministic logic between those libraries, with proofs about it:

- **AudioEngine**: maps a position to a note and a rhythm, looks up timbres,
  throttles notes, and runs the play/stop state machine.
- **PatternManager**: the catalog of scales, rhythms, drum grids and timbres,
  and its validated "create custom" operations.
- **StepSequencer**: the 16-step metronome, per-step callbacks, and the
  start/stop bookkeeping of the registered Tone sequences.
- **ColorSpace**, **ColorMask** and **ColorDetection**: the colour-ball
  detector. They cover RGB to HSV, the HSV range test, mask construction,
  the iterative flood fill, the perimeter estimate, component filtering, and
  the detector's throttle and cache.
- **VisionModel**: prediction filtering, the in-place sort by score, the
  class list that never holds duplicates, and the detector's gating.
- **Helpers**: `stringToColor`, `formatTime`, `formatDetectionResults`,
  `mapRange` and `normalizeCoordinates`.
- **Effects**: the effects chain. It links effects, connects and
  disconnects instruments, updates settings, toggles bypass, and disposes
  chains.
- **SynthFactory**: the synth registry, and the cat sampler's queue of
  triggers held back until its samples load.
- **NoiseUtils**: the noise-gate helpers. They cover dotted-path get and set,
  the defaults merge, adaptive thresholds, reset, tuning, and peak handling.

Supporting modules:

- **Common**: Option, rounding, and arithmetic lemmas.
- **Assoc**: insertion-ordered maps as association lists. They stand for
  JavaScript `Map`s and plain objects.
- **JsValues**: JavaScript values. This covers truthiness, property get and
  put (own properties of objects and functions, and a string's `length` and
  index properties), and `split`/`join`.

## How the model represents the program

**Libraries**
- Tone.js and TensorFlow objects are opaque handles (`nat`).
- What the program asks of those libraries is recorded in an `events`
  sequence on each class.

**Time, randomness and timers**
- The clock (`Date.now()`, `Tone.Transport.seconds`) is a `now` parameter.
- Ids built from the clock and `Math.random()` are given as a fresh-id or
  stamp parameter.
- Each timer callback is an explicit method the caller invokes.
  - `AudioEngine.Engine.NoteEnded` is the note-release timer.
  - `NoiseUtils.GateRef.RestoreThreshold` is the threshold-restore timer.
  - `SynthFactory.CatSampler.OnLoad` is the sampler's onload callback.

**State**
- Objects whose fields the source updates in place are classes.
- `Map`s and the arrays they mutate are `seq` or `map` fields that the
  methods reassign.
- The colour mask is an `array`, and so is the prediction list sorted in
  place.
- Plain JavaScript objects passed to the effects chain and the noise-gate
  helpers are values (`JsValue`).

**Numbers**
- Numbers are exact `real`s. Where the source relies on 32-bit integers
  (`stringToColor`), the wrap-around is written out.

## Model

| member | source | states |
|---|---|---|
| AudioEngine.MapToNote | src/audio/audioEngine.js:344-349 | For a non-empty scale, a note is picked exactly when y >= 0, and it is always an element of the scale; a negative y indexes before the array and gives undefined |
| AudioEngine.MapToRhythm | src/audio/audioEngine.js:352-356 | A duration is picked exactly when x >= 0, and it is always an element of the rhythm list |
| AudioEngine.NoteIndexMonotone | src/audio/audioEngine.js:344-349 | A higher y never picks a lower note index |
| AudioEngine.NoteIndexBound | src/audio/audioEngine.js:344-349 | For y <= 1 the note index never exceeds floor(0.8 * length) |
| AudioEngine.MajorTopNotesUnreachable | src/audio/audioEngine.js:157-158 | With the major scale, no y <= 1 reaches F4 or G4 |
| AudioEngine.MapToRhythmAtOne | src/audio/audioEngine.js:352-356 | x = 1 picks the last duration of the list |
| AudioEngine.RhythmIndexMonotone | src/audio/audioEngine.js:352-356 | A larger x never picks an earlier duration |
| AudioEngine.TimbreFor | src/audio/audioEngine.js:323-326 | The oscillator type is never empty; it is 'sine' exactly when the class is unmapped or mapped to '' or 'sine', and otherwise it is the mapped type |
| AudioEngine.PatternFor | src/audio/audioEngine.js:359-369 | isRightSide iff x > 0.7, isLeftSide iff x < 0.3, never both, both false on [0.3, 0.7]; the note, rhythm and timbre are the mapped ones |
| AudioEngine.LaptopTimbre | src/audio/audioEngine.js:175-184 | The engine's timbre table is the catalog's without laptop, so a laptop plays 'sine' in the engine and 'pulse' in the catalog |
| AudioEngine.EngineLacksLaptop | src/audio/audioEngine.js:175-184 | The engine's timbre table has no laptop entry |
| AudioEngine.CatalogHasLaptop | src/audio/sequencer/patternManager.js:56-66 | The catalog maps laptop to 'pulse' |
| AudioEngine.FrameWidth | src/audio/audioEngine.js:379 | The frame width is never 0; it is the video width when that is set and non-zero (640 otherwise) |
| AudioEngine.FrameHeight | src/audio/audioEngine.js:380 | The frame height is never 0; it is the video height when that is set and non-zero (480 otherwise) |
| AudioEngine.Normalized | src/audio/audioEngine.js:383-384 | A detection inside the frame has normalised x and inverted y in [0, 1] |
| AudioEngine.DetectionPicksReachableNote | src/audio/audioEngine.js:372-387 | A detection whose top edge is inside the frame always picks a major-scale note, never F4 or G4 |
| AudioEngine.VoiceFor | src/audio/audioEngine.js:309-311 | The glide synth plays iff the note is on the right; the bass synth iff on the left and not on the right |
| AudioEngine.Engine.constructor | src/audio/audioEngine.js:4-197 | Starts stopped with no drum loop and no active notes, beat interval 0.5 s, scale major, rhythm basic, the catalog tables, and 120 BPM sent to the transport |
| AudioEngine.Engine.Notes | src/audio/audioEngine.js:345 | The selected scale is a non-empty entry of the scale table |
| AudioEngine.Engine.Rhythms | src/audio/audioEngine.js:353 | The selected rhythm pattern is a non-empty entry of the rhythm table |
| AudioEngine.Engine.StartDrumLoop | src/audio/audioEngine.js:254-289 | Stops the previous loop, if any, and loops the drum pattern of the selected rhythm; nothing else changes |
| AudioEngine.Engine.Start | src/audio/audioEngine.js:199-216 | A no-op while playing; otherwise resets the effect levels, starts the transport and the drum loop, and plays |
| AudioEngine.Engine.Stop | src/audio/audioEngine.js:219-251 | Always ends stopped with no active notes and no drum loop; a no-op while stopped; otherwise stops the loop, releases the voices and closes the gate |
| AudioEngine.Engine.PlayNote | src/audio/audioEngine.js:292-320 | Its result and the new events, active notes and lastBeatTime are those of PlayNoteStep: plays iff playing, not within half a beat of the last beat and not already sounding; lastBeatTime moves whenever the throttle passes, even when the duplicate check then rejects |
| AudioEngine.Engine.NoteEnded | src/audio/audioEngine.js:317-319 | The note leaves the active set and nothing else changes |
| AudioEngine.Engine.SetTimbre | src/audio/audioEngine.js:323-335 | Returns and sets the mapped oscillator type, 'sine' for an unknown class |
| AudioEngine.Engine.SetBPM | src/audio/audioEngine.js:338-341 | The beat interval becomes 60 / bpm (infinite for 0), and the transport gets the bpm |
| AudioEngine.Engine.SetScale | src/audio/audioEngine.js:397-403 | Returns true iff the scale exists, and only then selects it |
| AudioEngine.Engine.SetRhythmPattern | src/audio/audioEngine.js:406-418 | Returns true iff the pattern exists, selects it, and restarts the drum loop with it while playing; otherwise nothing changes |
| AudioEngine.Engine.CreatePattern | src/audio/audioEngine.js:359-369 | The pattern is PatternFor of the selected scale and rhythm, and the timbre is set |
| AudioEngine.Engine.GenerateMusic | src/audio/audioEngine.js:372-394 | Nothing for no detections or while stopped; otherwise the pattern of the first detection's normalised position, the oscillator type set to its timbre, and events, active notes and lastBeatTime exactly as playNote leaves them after the OscillatorSet event |
| AudioEngine.RhythmsHaveDrums | src/audio/audioEngine.js:260 | Every rhythm pattern name has a drum pattern, so the drum loop always finds one |
| AudioEngine.ThrottleSpacing | src/audio/audioEngine.js:292-320 | After a call that passes the throttle at t1, a call at t2 < t1 + beatInterval/2 returns false and leaves events, active notes and lastBeatTime unchanged; two calls that both play are at least half a beat apart |
| PatternManager.BuiltInDrumGrids | src/audio/sequencer/patternManager.js:32-53 | Every built-in drum pattern has kick, snare and hihat grids of eight steps |
| PatternManager.BuiltInTablesWellFormed | src/audio/sequencer/patternManager.js:16-29 | The built-in tables have distinct names, and every scale and rhythm list is non-empty |
| PatternManager.Manager.constructor | src/audio/sequencer/patternManager.js:6-67 | The tables are the built-in ones |
| PatternManager.Manager.GetScales | src/audio/sequencer/patternManager.js:73-75 | A copy with the same entries, all non-empty |
| PatternManager.Manager.GetRhythmPatterns | src/audio/sequencer/patternManager.js:81-83 | A copy with the same entries, all non-empty |
| PatternManager.Manager.GetDrumPatterns | src/audio/sequencer/patternManager.js:89-91 | A copy with the same entries |
| PatternManager.Manager.GetTimbres | src/audio/sequencer/patternManager.js:97-99 | A copy with the same entries |
| PatternManager.Manager.CreateCustomScale | src/audio/sequencer/patternManager.js:107-114 | True iff the name is non-empty and the notes are a non-empty array; then the scale is stored (overwriting); otherwise nothing changes |
| PatternManager.Manager.CreateCustomRhythmPattern | src/audio/sequencer/patternManager.js:122-129 | The same validation and overwrite, on the rhythm table |
| PatternManager.Manager.CreateCustomDrumPattern | src/audio/sequencer/patternManager.js:137-144 | False iff the name or the pattern is falsy; otherwise the pattern is stored |
| PatternManager.Manager.AddCustomTimbre | src/audio/sequencer/patternManager.js:152-159 | False iff either argument is falsy; otherwise class maps to oscillator type, overwriting |
| PatternManager.StoreKeepsNonEmpty | src/audio/sequencer/patternManager.js:112 | Storing a non-empty list keeps every list of the table non-empty and the names distinct |
| StepSequencer.NextStep | src/audio/sequencer/stepSequencer.js:37 | From any step >= -1, the next step is (step + 1) mod 16 and lies in [0, 16) |
| StepSequencer.StepAfterCycles | src/audio/sequencer/stepSequencer.js:34-38 | From a step in range, n ticks later the step is (step + n) mod 16 |
| StepSequencer.NegativeStartLeavesRange | src/audio/sequencer/stepSequencer.js:83 | For any start < -1 the next step is in (-16, 0], inside [0, 16) only when start + 1 is a multiple of 16 (then 0); for -17 < start < -1 it is start + 1, outside the pattern |
| StepSequencer.StartAllStarts | src/audio/sequencer/stepSequencer.js:90-95 | start's forEach leaves every sequence started, in registry order, and starts each once |
| StepSequencer.StopAllStops | src/audio/sequencer/stepSequencer.js:109-114 | stop's forEach leaves every sequence stopped |
| StepSequencer.WithSubdivisionKeepsState | src/audio/sequencer/stepSequencer.js:374-378 | Only melodic sequences take the new subdivision; drum groups are unchanged and nothing starts or stops |
| StepSequencer.SubdivisionKeepsValid | src/audio/sequencer/stepSequencer.js:374-378 | Changing the subdivision keeps the sequence ids distinct and every sequence in step with the sequencer |
| StepSequencer.OffStepUndoesOnStep | src/audio/sequencer/stepSequencer.js:339-359 | offStep with the id onStep returned restores every step's callbacks |
| StepSequencer.OnStepRegisters | src/audio/sequencer/stepSequencer.js:339-359 | onStep adds exactly that callback to its step; offStep removes exactly that id, and an unknown step is a no-op |
| StepSequencer.CallbackRuns | src/audio/sequencer/stepSequencer.js:49-53 | One call per registered callback |
| StepSequencer.MelodicIndexCycles | src/audio/sequencer/stepSequencer.js:305-314 | After k callbacks the note index is (start + k) mod the pattern length |
| StepSequencer.DrumPartsExactly | src/audio/sequencer/stepSequencer.js:142-238 | A part is made exactly for each pattern entry that is an array and whose drum is present |
| StepSequencer.DrumPartsState | src/audio/sequencer/stepSequencer.js:231-234 | Each new part is started iff the sequencer runs |
| StepSequencer.BuildParts | src/audio/sequencer/stepSequencer.js:152-238 | The loop over the pattern entries builds exactly DrumParts, the parts that DrumPartsExactly characterises |
| StepSequencer.Sequencer.constructor | src/audio/sequencer/stepSequencer.js:8-39 | No sequences, no callbacks, subdivision 16n, stopped, step 0 |
| StepSequencer.Sequencer.Tick | src/audio/sequencer/stepSequencer.js:34-57 | Runs exactly the callbacks of the current step, then advances the step mod 16 |
| StepSequencer.Sequencer.Start | src/audio/sequencer/stepSequencer.js:79-96 | A no-op when running; otherwise sets the step, runs, and starts every sequence not yet started |
| StepSequencer.Sequencer.Stop | src/audio/sequencer/stepSequencer.js:101-115 | A no-op when stopped; otherwise stops the metronome and every sequence |
| StepSequencer.Sequencer.StopAll | src/audio/sequencer/stepSequencer.js:120-134 | Stops, disposes every sequence, and leaves no sequences, callbacks or active steps |
| StepSequencer.Sequencer.CreateDrumSequence | src/audio/sequencer/stepSequencer.js:142-279 | None iff the kit or the patterns are missing; otherwise registers a group of the usable parts under the fresh id |
| StepSequencer.Sequencer.CreateMelodicSequence | src/audio/sequencer/stepSequencer.js:288-331 | None iff there is no synth or no note array; otherwise registers a melodic sequence (rhythm defaults to 8n per note) started iff running |
| StepSequencer.Sequencer.MelodicStep | src/audio/sequencer/stepSequencer.js:303-315 | Plays the current note unless it is falsy or 'rest', and advances the index cyclically |
| StepSequencer.Sequencer.OnStep | src/audio/sequencer/stepSequencer.js:339-348 | Registers the callback under the fresh id and returns that id |
| StepSequencer.Sequencer.OffStep | src/audio/sequencer/stepSequencer.js:355-359 | Removes that id from that step only |
| StepSequencer.Sequencer.SetSubdivision | src/audio/sequencer/stepSequencer.js:365-379 | Sets the subdivision on the sequencer, the metronome and every melodic sequence |
| StepSequencer.StartEach | src/audio/sequencer/stepSequencer.js:90-95 | The loop computes StartAll and its log |
| StepSequencer.StopEach | src/audio/sequencer/stepSequencer.js:109-114 | The loop computes StopAllSeqs and its log, and every sequence ends stopped |
| StepSequencer.DisposeEach | src/audio/sequencer/stepSequencer.js:124-128 | The loop disposes every sequence in order |
| StepSequencer.SubdivideEach | src/audio/sequencer/stepSequencer.js:374-378 | The loop computes WithSubdivision |
| StepSequencer.RegisterKeepsValid | src/audio/sequencer/stepSequencer.js:276 | Registering a sequence that is in step with the sequencer keeps ids distinct and all sequences in step |
| ColorSpace.RgbToHsv | src/models/colorDetection.js:391-423 | H in [0, 180], S and V in [0, 255]; V is the largest channel; S = 0 iff r = g = b; a grey pixel gives [0, 0, r] |
| ColorSpace.HueFractionRange | src/models/colorDetection.js:404-416 | The hue fraction of channels in [0, 1] is in [0, 1] |
| ColorSpace.SaturationBounds | src/models/colorDetection.js:401 | The saturation times 255 lies in [0, 255] and is at least 1 iff the channels differ |
| ColorSpace.PureColorsMatchOwnRange | src/models/colorDetection.js:16-49 | Pure red, green, blue, yellow and purple are accepted by their own default range only |
| ColorSpace.BoundaryHuesShared | src/models/colorDetection.js:16-49 | Hues 10 and 20 are accepted by two neighbouring colours; hue 175 is red only through the second range |
| ColorMask.CreateColorMask | src/models/colorDetection.js:185-209 | width * height entries, each 255 iff the pixel is in the primary range or the second range, else 0 |
| ColorMask.FloodFill | src/models/colorDetection.js:273-299 | Returns exactly the pixels reachable from the start pixel by 4-neighbour steps through in-bounds, set, unvisited pixels (none when the start cannot be taken), the start first, each once, each linked to an earlier one; adds exactly them to visited |
| ColorMask.FillIsRegion | src/models/colorDetection.js:273-299 | A fill that starts at the start pixel, is linked and closed under fillable neighbours holds exactly the pixels reachable from the start |
| ColorMask.RegionIsReachable | src/models/colorDetection.js:290-296 | A linked, closed set of fillable pixels holds exactly the pixels reachable from its first pixel |
| ColorMask.LinkedPath | src/models/colorDetection.js:290-296 | Every pixel of a linked fill is the end of a 4-neighbour path of fillable pixels from the first pixel |
| ColorMask.PathStaysIn | src/models/colorDetection.js:281-287 | A 4-neighbour path of fillable pixels that starts inside a closed fill ends inside it |
| ColorMask.FillStep | src/models/colorDetection.js:281-287 | Taking an unvisited pixel shrinks the unvisited set and keeps indices distinct |
| ColorMask.EstimatePerimeter | src/models/colorDetection.js:358-381 | Counts each component pixel with a neighbour outside at most once: 0 <= count <= size, and at least 1 for a non-empty component |
| ColorMask.SomeBoundaryPixel | src/models/colorDetection.js:358-381 | A non-empty component has a boundary pixel (its rightmost one) |
| ColorMask.FirstWord | src/models/colorDetection.js:248 | The text before the first space |
| ColorMask.MakeDetection | src/models/colorDetection.js:237-250 | Class kept, score min(circularity * confidence, 0.99), square box of side 2r centred on the ball, colour the first word of the class |
| ColorMask.AddComponent | src/models/colorDetection.js:229-253 | A component filled from unvisited pixels is disjoint from every earlier one |
| ColorMask.FindBallsInMask | src/models/colorDetection.js:220-260 | The scan splits the set mask pixels into pairwise disjoint 4-connected regions, every set pixel in one, ordered by their first pixels in row-major order; the detections are the regions sized strictly between the area bounds with circularity above the threshold, in that order, each well formed and carrying the class name |
| ColorMask.CoveredMember | src/models/colorDetection.js:222 | A position is covered by the regions found so far iff it lies in one of them |
| ColorMask.QualifyingMembers | src/models/colorDetection.js:232-235 | A region is reported iff it was found and qualifies (area bounds, analysis, circularity); at most as many reports as regions |
| ColorMask.FillClosedInMask | src/models/colorDetection.js:229-230 | A fill taken beside earlier complete regions is closed in the whole mask, not just among unvisited pixels |
| ColorMask.ScanFill | src/models/colorDetection.js:229-230 | A fill started at the first uncovered set position extends the partition by one region and covers exactly its pixels more |
| ColorMask.ScanComplete | src/models/colorDetection.js:225-257 | Once every position is scanned, every set pixel lies in one of the regions |
| ColorMask.ScanStateFill | src/models/colorDetection.js:229-253 | Filling at a set, unvisited position keeps the scan state, appending a report exactly when the region qualifies |
| ColorMask.ScanDone | src/models/colorDetection.js:225-259 | The scan state after the last position is the whole-mask scan, every detection well formed and named by the class |
| ColorMask.ScanPosition | src/models/colorDetection.js:227-254 | One position of the scan keeps the scan state, moving it one position on |
| ColorMask.ScanRow | src/models/colorDetection.js:226-256 | One row of the scan keeps the scan state, moving it to the start of the next row |
| ColorDetection.DetectBallsInImage | src/models/colorDetection.js:162-174 | The detections are the concatenation, in range order, of each range's full mask scan (the scan FindBallsInMask states, on the mask CreateColorMask builds), each well formed and carrying its range's name |
| ColorDetection.ScanRange | src/models/colorDetection.js:168-169 | The mask of one range scanned in full: its detections are that mask's scan, named by the range |
| ColorDetection.ScansAppend | src/models/colorDetection.js:167-171 | Appending the next range's scan keeps the per-range scans in order, and the concatenation grows by exactly its detections |
| ColorDetection.MergeLaws | src/models/colorDetection.js:466 | Spreading nothing changes nothing; spreading twice equals spreading once; two spreads compose |
| ColorDetection.ClearingSecondRange | src/models/colorDetection.js:466 | After a spread that gives a falsy lower2 or upper2, a pixel matches exactly when it is in the primary range |
| ColorDetection.Detector.constructor | src/models/colorDetection.js:8-64 | Off, not running, empty cache, the six default ranges and thresholds 500, 50000, 0.7, 0.6 |
| ColorDetection.Detector.SetEnabled | src/models/colorDetection.js:83-91 | Sets the flag; disabling clears the cache |
| ColorDetection.Detector.SetRunning | src/models/colorDetection.js:97-99 | Sets the flag only |
| ColorDetection.Detector.DetectColorBalls | src/models/colorDetection.js:106-152 | [] when off; the cache, unchanged, within 100 ms; otherwise records the time, gives [] for an unready frame, the cache when the capture throws, else the per-range concatenated scan of the frame (as DetectBallsInImage), which becomes the cache |
| ColorDetection.Detector.GetLatestDetections | src/models/colorDetection.js:447-449 | The cache, whose detections are well formed |
| ColorDetection.Detector.GetSupportedColors | src/models/colorDetection.js:455-457 | The colour names in order, without duplicates |
| ColorDetection.Detector.UpdateColorRange | src/models/colorDetection.js:464-469 | A known colour takes the given keys and keeps the rest and its place (a falsy second-range bound is stored and switches that range off); an unknown name changes nothing |
| ColorDetection.Detector.SetDetectionParams | src/models/colorDetection.js:475-490 | Each given threshold replaces the current one |
| ColorDetection.Detector.Dispose | src/models/colorDetection.js:495-511 | Off, not running, empty cache, no canvases |
| VisionModel.FilterPredictions | src/models/visionModel.js:185-191 | Keeps only predictions with score >= 0.5 and class 'person' |
| VisionModel.FilterMembers | src/models/visionModel.js:185-191 | A prediction is kept iff it is in the input and passes the test |
| VisionModel.FilterConcat | src/models/visionModel.js:185-191 | Filtering distributes over concatenation, so input order is kept |
| VisionModel.FilterIdempotent | src/models/visionModel.js:185-191 | Filtering twice is filtering once |
| VisionModel.FourInputsTwoPersons | test-changes.js:29-43 | The four sample detections filter to the two confident persons |
| VisionModel.SortByScore | src/models/visionModel.js:146 | Sorts the array in place by non-increasing score, as a permutation |
| VisionModel.PeopleByScore | src/models/visionModel.js:143-146 | The confident persons among the predictions, sorted by non-increasing score, as a permutation of the filtered list |
| VisionModel.AddClass | src/models/visionModel.js:214-220 | The class is present afterwards, nothing else is added, and no duplicates appear |
| VisionModel.IndexOf | src/models/visionModel.js:228 | The first position of the class, -1 iff absent |
| VisionModel.RemoveClass | src/models/visionModel.js:227-234 | One entry shorter iff the class was present |
| VisionModel.RemoveClassFacts | src/models/visionModel.js:227-234 | In a list without duplicates, removing a class drops it, keeps every other class, and leaves the list without duplicates |
| VisionModel.AddRemoveRoundTrip | src/models/visionModel.js:214-234 | Adding an absent class then removing it gives the list back |
| VisionModel.Vision.constructor | src/models/visionModel.js:5-18 | No model, not loaded, not running, no predictions, the nine default classes |
| VisionModel.Vision.ModelLoaded | src/models/visionModel.js:72-73 | The model is held and loaded, and the attempt count is reset |
| VisionModel.Vision.IsModelLoaded | src/models/visionModel.js:105-107 | True iff loaded and a model is held |
| VisionModel.Vision.SetRunningState | src/models/visionModel.js:113-119 | Starting clears the last error; stopping keeps it |
| VisionModel.Vision.DetectObjects | src/models/visionModel.js:126-178 | [] without calling the model when not loaded, not running or the video is not ready; on success the filtered predictions sorted by score become the cache and the error is cleared; on failure the error is kept, GPU memory is purged for memory/WebGL/GPU errors, and the cache is returned |
| VisionModel.Vision.GetLatestPredictions | src/models/visionModel.js:197-199 | The cache, sorted by score |
| VisionModel.Vision.AddObjectClass | src/models/visionModel.js:214-220 | Appends iff absent and says whether it did; no duplicates ever |
| VisionModel.Vision.RemoveObjectClass | src/models/visionModel.js:227-234 | Removes iff present and says whether it did; every other class stays |
| VisionModel.Vision.Dispose | src/models/visionModel.js:247-264 | No model, not loaded, not running, no predictions, and isModelLoaded is false |
| Helpers.DecimalRoundTrip | src/utils/helpers.js:83 | Decimal rendering is non-empty, all digits, and parses back |
| Helpers.FormatTimeParses | src/utils/helpers.js:80-84 | "m:ss" with ss < 60 zero-padded to two digits, and m * 60 + ss is the input |
| Helpers.FormatItems | src/utils/helpers.js:11-15 | One "class (pct%)" item per prediction, in order |
| Helpers.JoinExtends | src/utils/helpers.js:15 | The join of a prefix is a prefix of the join, so items appear in input order |
| Helpers.FormatDetectionResultsNonEmpty | src/utils/helpers.js:6-16 | Non-empty input starts with the first item, ends in "%)", and is never the empty-input message |
| Helpers.MapRangeEndpoints | src/utils/helpers.js:27-29 | inMin maps to outMin and inMax to outMax when inMin != inMax |
| Helpers.MapRangeInverse | src/utils/helpers.js:27-29 | Mapping back with the ranges swapped recovers the value |
| Helpers.MapRangeMonotone | src/utils/helpers.js:27-29 | Increasing ranges give a monotone map |
| Helpers.NormalizeInUnitSquare | src/utils/helpers.js:19-24 | A point inside a non-empty frame lands in the unit square and scales back to itself |
| Helpers.ToInt32 | src/utils/helpers.js:45 | The signed 32-bit value congruent to the input mod 2^32 |
| Helpers.JsHashMod | src/utils/helpers.js:43-46 | The JavaScript int32 hash loop agrees mod 2^32 with h := (31h + c) mod 2^32 |
| Helpers.ShiftedByteIsHashByte | src/utils/helpers.js:50 | (hash >> 8i) & 0xFF is byte i of the unsigned hash |
| Helpers.HexPairValue | src/utils/helpers.js:51 | Each pair is two hex digits that read back as the byte |
| Helpers.StringToColorShape | src/utils/helpers.js:42-55 | '#' followed by exactly six lowercase hex digits |
| Helpers.StringToColorBytes | src/utils/helpers.js:48-52 | The pairs are bytes 0, 1 and 2 of the hash, low byte first |
| Helpers.StringToColorEmpty | src/utils/helpers.js:42-55 | The empty string gives '#000000' |
| Effects.ValidEffects | src/audio/effects/effectsChain.js:33-53 | The linked effects are at most the entries |
| Effects.ValidEffectsMembers | src/audio/effects/effectsChain.js:33-40 | A node is linked iff some entry holds it and it has connect; falsy entries are skipped |
| Effects.ValidEffectsAppend | src/audio/effects/effectsChain.js:33-53 | Linking keeps the insertion order of the effects object |
| Effects.Links | src/audio/effects/effectsChain.js:48-50 | Each linked effect is connected to the next one |
| Effects.ChainEnds | src/audio/effects/effectsChain.js:55-60 | The chain's input is the first linked effect and its output the last; every other key is the effect's |
| Effects.LinkEffects | src/audio/effects/effectsChain.js:29-53 | The loop's first and previous effects and its connections are those of the linked effects |
| Effects.RoutedCalls | src/audio/effects/effectsChain.js:81-96 | Routing throws iff some instrument is null or undefined; every call goes from an instrument that has the method to the chain input; without nullish instruments every such instrument is routed |
| Effects.RouteEach | src/audio/effects/effectsChain.js:90-96 | The forEach loop computes Routed |
| Effects.ApplySettingKeys | src/audio/effects/effectsChain.js:143-154 | A setting gives the effect no new name: own keys stay in place, a method that a plain key writes becomes an own property appended at the end, and leaves the methods |
| Effects.ApplySettingEffect | src/audio/effects/effectsChain.js:145-153 | A plain key is written when the effect has it as a value other than undefined or as a method (which the new value then replaces), and otherwise changes nothing; a dotted key writes the child of a truthy object parent |
| Effects.ApplySettingsKeys | src/audio/effects/effectsChain.js:143-154 | After all settings the effect has exactly its old names, its old own keys as a prefix of the new, and only methods it had |
| Effects.AssignSettings | src/audio/effects/effectsChain.js:143-154 | The loop computes ApplySettings |
| Effects.WritesPrimitiveCases | src/audio/effects/effectsChain.js:145-153 | No setting writes to a number or boolean effect; `length` and every index key inside a string effect do, so they throw |
| Effects.TrySettingsOnPrimitive | src/audio/effects/effectsChain.js:143-154 | On a primitive effect the loop throws exactly when some entry writes to it |
| Effects.SetWetValueReads | src/audio/effects/effectsChain.js:179 | After the write, wet.value reads back the written value |
| Effects.BypassRoundTrip | src/audio/effects/effectsChain.js:173-179 | Bypass sets wet to 0 and un-bypass restores the wet captured at creation |
| Effects.BypassFallbacks | src/audio/effects/effectsChain.js:165-186 | A missing effect gives a no-op; without a captured wet, bypass() is called if present, else wet goes to 0 or 1 |
| Effects.DisposeCallsExactly | src/audio/effects/effectsChain.js:198-202 | Exactly the chain's values that have dispose are disposed |
| Effects.DisposeEach | src/audio/effects/effectsChain.js:198-202 | The loop computes DisposeCalls |
| Effects.FirstWithRef | src/audio/effects/effectsChain.js:205-210 | The first registry position holding that exact chain, or none |
| Effects.EffectsChain.constructor | src/audio/effects/effectsChain.js:7-10 | No chains |
| Effects.EffectsChain.CreateChain | src/audio/effects/effectsChain.js:17-67 | Throws for a non-object; an empty object gives a pass-through node and no chain; otherwise links the valid effects and registers the chain under the id |
| Effects.EffectsChain.ConnectInstruments | src/audio/effects/effectsChain.js:74-97 | Nothing without a chain input; otherwise connects each instrument that has connect to the input |
| Effects.EffectsChain.DisconnectInstruments | src/audio/effects/effectsChain.js:104-122 | Nothing without a chain input; otherwise disconnects each instrument that has disconnect |
| Effects.EffectsChain.UpdateEffect | src/audio/effects/effectsChain.js:130-156 | Nothing for an unknown effect; set() when it has one; on a primitive effect (a string the chain holds) nothing changes and it throws iff some setting writes to it; otherwise the settings loop on the node |
| Effects.EffectsChain.CreateBypassToggle | src/audio/effects/effectsChain.js:164-174 | A no-op toggle iff the chain lacks the effect; otherwise the effect and its current wet value (null when wet is falsy) |
| Effects.EffectsChain.ApplyToggle | src/audio/effects/effectsChain.js:176-187 | The nodes after the toggle call, and a TypeError when wet is a truthy primitive |
| Effects.EffectsChain.DisposeChain | src/audio/effects/effectsChain.js:194-211 | Disposes every member that has dispose and removes the first registry entry holding that exact chain; other chains are untouched |
| SynthFactory.DisposeCallsCases | src/audio/instruments/synthFactory.js:481-499 | A drumKit id disposes the kick, snare and hihat; any other id disposes the synth itself |
| SynthFactory.AllDisposeCallsCover | src/audio/instruments/synthFactory.js:504-510 | disposeAll makes the dispose calls of every entry |
| SynthFactory.ReplayedFacts | src/audio/instruments/synthFactory.js:357-366 | A queued trigger is replayed iff its call does not throw; with no throwing call the whole queue is replayed in FIFO order |
| SynthFactory.CatSampler.constructor | src/audio/instruments/synthFactory.js:375-376 | Empty queue, not loaded |
| SynthFactory.CatSampler.SafeTriggerAttackRelease | src/audio/instruments/synthFactory.js:378-392 | Plays at once when either loaded flag is set; otherwise appends the trigger to the queue |
| SynthFactory.CatSampler.OnLoad | src/audio/instruments/synthFactory.js:350-369 | Marks loaded, replays the queue in order (a throwing call does not stop the rest) and leaves it empty |
| SynthFactory.Factory.constructor | src/audio/instruments/synthFactory.js:7-9 | An empty registry |
| SynthFactory.Factory.GetSynth | src/audio/instruments/synthFactory.js:473-475 | The stored synth, or None (null) exactly when the id is unknown |
| SynthFactory.Factory.StoreSynth | src/audio/instruments/synthFactory.js:461-466 | The id starts with type + '_', the synth is stored under it, getSynth(id) returns it, and other ids are unchanged |
| SynthFactory.Factory.CreateSynth | src/audio/instruments/synthFactory.js:17-53 | A built synth is registered; when construction throws, a -15 dB fallback is returned unregistered (likewise 60-104, 111-149, 231-268, 276-326) |
| SynthFactory.Factory.CreateDrumKit | src/audio/instruments/synthFactory.js:156-224 | The kit, or the fallback kit when construction throws, is registered under a drumKit id either way |
| SynthFactory.Factory.CreateSampler | src/audio/instruments/synthFactory.js:443-452 | The sampler is registered under a sampler id |
| SynthFactory.Factory.CreateCatSampler | src/audio/instruments/synthFactory.js:332-405 | A built sampler is registered with an empty queue, not loaded; otherwise the result is createCatSynth's |
| SynthFactory.Factory.DisposeSynth | src/audio/instruments/synthFactory.js:481-499 | Accepts an id or an object; disposes and deletes only that entry when present; a no-op otherwise; null throws |
| SynthFactory.Factory.DisposeAll | src/audio/instruments/synthFactory.js:504-510 | Disposes every entry in insertion order, and the registry ends empty |
| NoiseUtils.GetPathNullish | src/audio/effects/noiseUtils.js:50-53 | A null or undefined value met on the way makes the result undefined |
| NoiseUtils.GetPathThroughString | src/audio/effects/noiseUtils.js:50-53 | A string met on the path gives its length for `length` and its i-th character for the key i |
| JsValues.StringOwnProps | src/audio/effects/noiseUtils.js:53 | `s.length` is the length of s, and `s[i]` is its i-th character inside the string, undefined past its end |
| NoiseUtils.SafeGet | src/audio/effects/noiseUtils.js:44-56 | Undefined for a falsy root; otherwise the value at the dotted path, where a string on the way gives its length and its characters at index keys |
| NoiseUtils.SafeSet | src/audio/effects/noiseUtils.js:62-84 | Refused, with no change, for a falsy root or an intermediate segment absent or not an object; a TypeError when a path of two or more segments meets a primitive (the `in` test throws); a one-segment write to a primitive is caught and refused; otherwise only the last key is written |
| NoiseUtils.SetThenGet | src/audio/effects/noiseUtils.js:44-84 | A write that succeeded reads back along the same path |
| NoiseUtils.SafeSetThenSafeGet | src/audio/effects/noiseUtils.js:44-84 | _safeSet returning true is followed by _safeGet of the same path giving the value |
| NoiseUtils.SetPathElsewhere | src/audio/effects/noiseUtils.js:68-78 | A path that leaves the written path reads the same as before |
| NoiseUtils.WrittenNeedsObjects | src/audio/effects/noiseUtils.js:68-74 | A write happens only when every object on the way is an object |
| NoiseUtils.GateSettings | src/audio/effects/noiseUtils.js:15-23 | Every given option wins; every other key takes the default (threshold -35, smoothing 0.1, attack 0.005, release 0.1) |
| NoiseUtils.AdaptTarget | src/audio/effects/noiseUtils.js:112-115 | clamp(level - 10, -50, -20) |
| NoiseUtils.AdaptTargetMonotone | src/audio/effects/noiseUtils.js:112-115 | A louder level never gives a lower target |
| NoiseUtils.ThresholdStep | src/audio/effects/noiseUtils.js:150-164 | The gate stays an object |
| NoiseUtils.CopyIfGiven | src/audio/effects/noiseUtils.js:166-176 | The gate stays an object |
| NoiseUtils.ThresholdStepGet | src/audio/effects/noiseUtils.js:150-164 | Only the threshold key can change, and it stays an object |
| NoiseUtils.CopyIfGivenGet | src/audio/effects/noiseUtils.js:166-176 | The key takes the option when it is given; every other key is unchanged |
| NoiseUtils.OptimizedGet | src/audio/effects/noiseUtils.js:147-184 | Each key of the tuned gate, in terms of the gate and the options |
| NoiseUtils.OptimizedKeys | src/audio/effects/noiseUtils.js:147-184 | Only the given fields change, and adaptiveMode is always !!options.adaptive |
| NoiseUtils.SafeIntensity | src/audio/effects/noiseUtils.js:201 | Clamped to [0, 1]; a falsy intensity, 0 included, gives 0.5 |
| NoiseUtils.PeakThreshold | src/audio/effects/noiseUtils.js:227 | Never above -20; from current <= -25 it lies between current and current + 5 |
| NoiseUtils.SetThresholdValue | src/audio/effects/noiseUtils.js:230-255 | A threshold with a value and no rampTo gets the value written |
| NoiseUtils.PeakThenRestore | src/audio/effects/noiseUtils.js:192-279 | The peak threshold is written and the restore scheduled is the pre-peak value |
| NoiseUtils.PeakRampsAndRestores | src/audio/effects/noiseUtils.js:230-275 | With rampTo, the peak is a ramp and the restore value is the pre-peak current |
| NoiseUtils.UnreadableThreshold | src/audio/effects/noiseUtils.js:210-224 | An unreadable threshold counts as -30, and -30 is what is restored |
| NoiseUtils.EnhancedSaves | src/audio/effects/noiseUtils.js:96-105 | _enhanceGate saves threshold, attack and release, turns adaptive mode off, and keeps the threshold |
| NoiseUtils.ResetRestores | src/audio/effects/noiseUtils.js:120-133 | resetToDefaults restores the saved threshold, attack and release |
| NoiseUtils.OptimizedAllKeeps | src/audio/effects/noiseUtils.js:147-184 | Tuning never touches the saved settings or the threshold's objecthood |
| NoiseUtils.EnhanceOptimizeReset | src/audio/effects/noiseUtils.js:98-184 | Enhance, tune any number of times, then reset: the threshold, attack and release saved at enhance time come back |
| NoiseUtils.GateRef.constructor | src/audio/effects/noiseUtils.js:27 | Holds the gate |
| NoiseUtils.GateRef.AdaptThreshold | src/audio/effects/noiseUtils.js:108-117 | Nothing unless adaptive mode is on and the threshold has rampTo; then a ramp to the adapt target over 0.2 s |
| NoiseUtils.GateRef.ResetToDefaults | src/audio/effects/noiseUtils.js:120-133 | The gate becomes Reset of the old gate |
| NoiseUtils.GateRef.RestoreThreshold | src/audio/effects/noiseUtils.js:258-275 | The threshold moves back to the given value over 0.2 s |
| NoiseUtils.EnhanceGate | src/audio/effects/noiseUtils.js:91-140 | The gate becomes Enhanced of the old gate |
| NoiseUtils.OptimizeNoiseGate | src/audio/effects/noiseUtils.js:147-184 | The gate becomes Optimized of the old gate |
| NoiseUtils.HandlePeakSignal | src/audio/effects/noiseUtils.js:192-279 | The gate and the events are PeakHandled of the old gate |
| NoiseUtils.ReadThreshold | src/audio/effects/noiseUtils.js:210-224 | The threshold read before the peak: the value of a threshold object when numeric, a numeric threshold itself, otherwise -30 |
| NoiseUtils.MoveThreshold | src/audio/effects/noiseUtils.js:230-255 | Moving the threshold is SetThreshold: a ramp when rampTo exists, else the value, else the whole threshold is replaced; a non-object, non-number threshold is left alone |

## Left out

- Tone.js and TensorFlow are foreign libraries: constructors, synth and effect settings objects, the transport and `triggerAttackRelease` appear only as handles and events.
- Canvas capture and `getImageData` are I/O: a frame arrives as its size, ready state and RGBA bytes, or as a capture that throws.
- `_analyzeBallComponent` is floating-point geometry (square root, pi): its result is the `analyze` parameter of the scan.
- `loadModel` and `model.detect` are asynchronous I/O with retries: only the end of a successful load (`ModelLoaded`) and the outcome of one detection round are modelled.
- `analyzeNoiseProfile` is `Math.random` only; `createTestTone`, `debounce`, `saveSettings` and `loadSettings` are timers and storage.
- `main.js`, `visualizer.js`, `controls.js`, `debug-ui.js` and `vite.config.js` are DOM and rendering glue and are not part of this model.
- Floating-point rounding: numbers are exact reals, so `Math.round` and `Math.floor` are exact and no result is off by a rounding error.
- Asynchrony: `start` awaits `Tone.start()`; the model runs it to completion with no interleaving.
- Timers: the note release, the threshold restore and the sampler's onload are methods the caller invokes, not delays; the model says nothing about when they fire.
- Tone duration notation: note lengths and the restore delay are not converted to seconds.
- AudioEngine.MapToNote: the empty-scale case is excluded by the precondition; every stored scale is non-empty, which PatternManager proves.
- StepSequencer.Sequencer.MelodicStep: an empty melodic note pattern makes the source's index NaN; the model keeps the index, and nothing plays either way.
- StepSequencer.Sequencer.CreateDrumSequence: a truthy non-object patterns argument is treated as a pattern table; drum trigger parameters are not modelled.
- StepSequencer.Sequencer.Tick: a callback that throws, or that registers callbacks during the tick, is not modelled.
- Helpers.FormatTimeParses: only whole non-negative seconds are covered.
- Helpers.StringToColorBytes: characters are UTF-16 code units taken from Dafny chars; the hash is exact only while doubles stay exact (strings under 2^17 characters).
- VisionModel.SortByScore: an insertion sort stands in for `Array.prototype.sort`; stability is not stated.
- ColorMask.FindBallsInMask: the visited set is threaded through as a value rather than shared; the string keys of the perimeter's point set are modelled as a set of pixels.
- Names inherited from a prototype are not modelled: lookups by name see only own properties (and, in `JsValues.Get`, which `SafeGet` and `updateEffect` on a string effect use, a string's length and indices). The source's tables, chains and settings objects are plain object literals, so a name such as "toString" or "constructor" also finds a function inherited from Object.prototype. The members below differ from the source for exactly such names.
- AudioEngine.Engine.SetScale: an inherited name such as "toString" is truthy in the source, so it returns true and selects it; the model refuses it.
- AudioEngine.Engine.SetRhythmPattern: an inherited name is selected (and the drum loop restarted) in the source; the model refuses it.
- AudioEngine.TimbreFor: an inherited class name such as "constructor" yields a function in the source; the model yields 'sine'.
- AudioEngine.Engine.SetTimbre: for an inherited class name the source sets a function as the oscillator type; the model sets 'sine'.
- ColorDetection.Detector.UpdateColorRange: an inherited colour name passes the source's truthy test and adds an own entry; the model changes nothing.
- Effects.EffectsChain.UpdateEffect: an inherited effect name is found by `chain[effectName]` in the source, which then calls the function's set or writes into it; the model treats it as missing.
- Effects.EffectsChain.CreateBypassToggle: an inherited effect name makes a working toggle in the source; the model gives the no-op toggle.
- Effects.ApplySettingEffect: a plain key inherited from Object.prototype (such as "toString") is written in the source and skipped in the model; a dotted key whose parent is a method writes into that method's shared function object, which the model does not hold (the effect's own properties are unchanged either way).
- NoiseUtils.SafeGet: an inherited property (a String.prototype method, an object's "constructor") reads as a function in the source and as undefined in the model; a function's own `length` and `name` are not modelled.
- NoiseUtils.SafeSet: a "__proto__" segment passes the source's `in` and typeof checks and writes into Object.prototype; the model refuses it.
- ColorDetection.Detector.UpdateColorRange: a falsy value given for lower, upper or name, a truthy non-object second-range bound, and non-integer bounds are not modelled; a falsy lower2 or upper2 (null, undefined) is.
- Effects.EffectsChain.UpdateEffect: a null or undefined settings argument, which throws in `Object.entries` (effectsChain.js:143) for an effect without set, is not modelled; settings is always an object's entries.
- ColorDetection.Detector.SetDetectionParams: a null argument (which throws in the source) is not modelled; minConfidence is stored but, as in the source, never used.
- ColorDetection.Detector.GetLatestDetections: the copy is a value, so aliasing with the cache is not modelled.
- Effects.EffectsChain.CreateChain: JavaScript objects are values here, so aliasing between a chain and the effects it was built from is not modelled; disposeChain therefore disposes the input and output nodes once per key that holds them, as the source does.
- Effects.EffectsChain.UpdateEffect: nested objects written through a dotted key are rebuilt, not shared.
- NoiseUtils.SafeSet: the path is rebuilt as a value, so other references to the nested objects do not see the write.
- NoiseUtils.OptimizeNoiseGate: the `rampTo` fallback when a Tone parameter setter throws (noiseUtils.js:158-163) and the catch in `resetToDefaults` are not modelled; parameter setters never throw here.
- NoiseUtils.GateSettings: the creation of the `Tone.Gate` in `createEnhancedNoiseGate` and its fallback volume node are foreign calls; only the merged settings and `_enhanceGate` are modelled.
- SynthFactory.Factory.StoreSynth: two synths that get the same id (same millisecond and random draw) overwrite each other, as in the source; the model takes the stamp as given.
- SynthFactory.CatSampler.SafeTriggerAttackRelease: a `triggerAttackRelease` that throws on the immediate path is not modelled.
- The engine has no per-object voice tracking, chord loop or three-band rhythm mapping; `mapToRhythm` is linear and the model follows it.
