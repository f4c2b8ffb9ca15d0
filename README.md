# YoloDetector post-processing, modelled in Dafny

This project models the post-processing core of the check-in app's ID-card
detector, `YoloDetector`. It models:

- decoding the YOLO11 output tensor into scored, labelled rectangles: the best
  of four class scores, the 0.5 confidence threshold, denormalisation against
  the image size, centre and size validity, clamping into the image, and the
  50 px minimum and `min(0.3 W, 0.3 H)` maximum box size;
- greedy, class-agnostic non-maximum suppression at IoU 0.3, after a stable
  sort by descending confidence;
- the Intersection-over-Union measure;
- the line parser that builds the label table from the model descriptor;
- the detector object's state: the initialised guard of `detect` and `close`.

Floats are modelled as `real`. The tensor is `seq<seq<seq<real>>>`:
`output[0]` is the batch, its rows are sequences of slot values, and each slot
is one column.

Modules, one per file:

- `Wrappers`: `Option`.
- `Geometry`: `Box` (the `RectF`) and `IoU`.
- `DetectionResult`: `Detection` and `DetectionBatch`, after `DetectionResult.kt`.
- `Text`: `trim()`, decimal rendering and digit values.
- `Labels`: the descriptor parser.
- `Decoder`: the decoding loop.
- `Suppression`: NMS.
- `Detector`: `postProcessOnnxOutput` and the `YoloDetector` class.

Each loop of the source is a Dafny method proved equal to a specification function:

- `Decoder.FindBestClass`, `Decoder.DecodeSlotAt` and `Decoder.DecodeOutput` against `BestClass`, `DecodeSlot` and `Candidates`;
- `Suppression.ApplyNms` against `Nms`;
- `Labels.LoadLabels` against `LabelTable`.

The properties are lemmas about those functions.

Where the code and its documentation differ, the model follows the code:

- Only a score of at least 0.5 is kept. The second `< 0.1` test never decides anything.
- The upper size bound is the single value `min(0.3 W, 0.3 H)`, applied to both width and height.
- The section-end test `!trimmedLine.startsWith(" ")` is always true, because the line is trimmed first.
- The label table spans `0 until names.size`, the number of distinct indices, not the largest index plus one. An index at or beyond that count is dropped, and the slots in between get `Unknown_i` placeholders.

## Model

All source cells are in `app/src/main/java/com/example/checkinapp/detection/`.

| member | source | states |
|---|---|---|
| Geometry.IoU | app/src/main/java/com/example/checkinapp/detection/YoloDetector.kt:332-348 | IoU is never negative; it is 0 whenever the boxes fail to overlap by a positive amount on some axis (touching edges included), and 0 whenever the union area is not positive |
| Geometry.IoUOfOverlap | app/src/main/java/com/example/checkinapp/detection/YoloDetector.kt:342-347 | for overlapping boxes with a positive union, IoU is intersection area over union area |
| Geometry.IoUSymmetric | app/src/main/java/com/example/checkinapp/detection/YoloDetector.kt:332-348 | IoU(a, b) = IoU(b, a) |
| Geometry.IntersectionWithinUnion | app/src/main/java/com/example/checkinapp/detection/YoloDetector.kt:342-345 | for well-formed overlapping boxes, 0 < intersection area <= union area |
| Geometry.IoUAtMostOne | app/src/main/java/com/example/checkinapp/detection/YoloDetector.kt:332-348 | for well-formed boxes, 0 <= IoU <= 1 |
| Geometry.IoUSelf | app/src/main/java/com/example/checkinapp/detection/YoloDetector.kt:332-348 | a box with positive width and height has IoU 1 with itself |
| Geometry.IoUPositiveIffOverlap | app/src/main/java/com/example/checkinapp/detection/YoloDetector.kt:338-347 | for well-formed boxes, IoU > 0 exactly when they overlap on both axes; otherwise the result is the 0 of line 339 or line 347 |
| Text.Trim | app/src/main/java/com/example/checkinapp/detection/YoloDetector.kt:99 | the trimmed line is no longer than the line, and neither of its ends is whitespace |
| Text.TrimStartDropsBlanks | app/src/main/java/com/example/checkinapp/detection/YoloDetector.kt:99 | leading trim keeps a suffix and drops only whitespace |
| Text.TrimEndDropsBlanks | app/src/main/java/com/example/checkinapp/detection/YoloDetector.kt:99 | trailing trim keeps a prefix and drops only whitespace |
| Text.NatToString | app/src/main/java/com/example/checkinapp/detection/YoloDetector.kt:284 | the decimal rendering used in `Class_$i` and `Unknown_$it` is non-empty, all digits, has no leading zero (unless it is `0`), and reads back as the index |
| Text.NatToStringUnique | app/src/main/java/com/example/checkinapp/detection/YoloDetector.kt:284 | the rendering is the only digit string without a leading zero that reads back as the index, so it is the string template's decimal form |
| Labels.RunEnd | app/src/main/java/com/example/checkinapp/detection/YoloDetector.kt:105 | `\d+` is greedy: the run is all digits and is followed by a non-digit or the end of the line |
| Labels.FindMatch | app/src/main/java/com/example/checkinapp/detection/YoloDetector.kt:105 | a reported match position is in the line and the pattern `(\d+):\s*(.+)` matches there |
| Labels.FindMatchLeftmost | app/src/main/java/com/example/checkinapp/detection/YoloDetector.kt:105-106 | `find` reports the leftmost match, and reports none only when no position matches |
| Labels.Dense | app/src/main/java/com/example/checkinapp/detection/YoloDetector.kt:117-118 | the table has one entry per distinct index; entry i is `names[i]`, or `Unknown_i` when index i was never named |
| Labels.LabelTable | app/src/main/java/com/example/checkinapp/detection/YoloDetector.kt:84-134 | an unreadable descriptor, an index that overflows `toInt()`, or no parsed entry gives the default four labels; otherwise the dense table of the parsed names |
| Labels.LoadLabels | app/src/main/java/com/example/checkinapp/detection/YoloDetector.kt:94-128 | the line loop, with its section flag, map updates and `break`, returns exactly `LabelTable` |
| Labels.LinesBeforeSectionIgnored | app/src/main/java/com/example/checkinapp/detection/YoloDetector.kt:100-104 | before the first `names:` line, no line changes the outcome |
| Labels.TableStartsAtSection | app/src/main/java/com/example/checkinapp/detection/YoloDetector.kt:98-104 | the table of a descriptor equals the table of its lines from the first `names:` line on |
| Labels.RebindingForgets | app/src/main/java/com/example/checkinapp/detection/YoloDetector.kt:106-109 | a name bound to an index is forgotten when a later entry of the section rebinds that index, whatever lies in between short of the end of the section |
| Labels.OverflowAheadFails | app/src/main/java/com/example/checkinapp/detection/YoloDetector.kt:105-124 | an index that overflows `toInt()` further on in the section, with no end of section before it, fails the whole parse |
| Labels.LaterIndexOverwrites | app/src/main/java/com/example/checkinapp/detection/YoloDetector.kt:106-109 | inside the section, an entry whose index a later entry repeats can be dropped without changing the outcome, whatever lies between them short of the end of the section: the later name wins |
| Labels.NonEntryEndsSection | app/src/main/java/com/example/checkinapp/detection/YoloDetector.kt:110-113 | inside the section, the first non-empty line that does not match ends the scan with the names so far, whatever follows |
| Labels.TrimmedNeverStartsWithSpace | app/src/main/java/com/example/checkinapp/detection/YoloDetector.kt:99-110 | the `startsWith(" ")` test never holds on a trimmed line |
| Labels.WrittenLineParses | app/src/main/java/com/example/checkinapp/detection/YoloDetector.kt:105-108 | a line `digits: name` parses to the value of the digits and the name |
| Labels.EntryLineRoundTrip | app/src/main/java/com/example/checkinapp/detection/YoloDetector.kt:105-108 | rendering an index and a name as `i: name` and parsing that line gives back the index and the name |
| Labels.NoPlaceholderIffIndicesContiguous | app/src/main/java/com/example/checkinapp/detection/YoloDetector.kt:118 | every slot of the dense table is named (no `Unknown_i` placeholder) exactly when every parsed index is below the number of distinct indices (no name is dropped) |
| Decoder.BestClass | app/src/main/java/com/example/checkinapp/detection/YoloDetector.kt:225-235 | the chosen class is the first index of a maximal score: no score beats it, and every earlier score is strictly lower |
| Decoder.LabelFor | app/src/main/java/com/example/checkinapp/detection/YoloDetector.kt:281-285 | the label is `labels[i]` when i is in range, otherwise `Class_i` |
| Decoder.PixelBoxSound | app/src/main/java/com/example/checkinapp/detection/YoloDetector.kt:250-279 | a pixel box is kept exactly when its centre is in [0,W]x[0,H], its size is positive and the clamped rectangle is within [50, min(0.3W, 0.3H)] on both sides; a kept box is that clamped rectangle, inside the image with left <= right and top <= bottom |
| Decoder.DecodeSlotKeptIff | app/src/main/java/com/example/checkinapp/detection/YoloDetector.kt:222-300 | a slot yields a detection exactly when all eight rows reach it, its best score is at least 0.5, and its pixel box is kept; the `< 0.1` test plays no part |
| Decoder.DecodeSlotScore | app/src/main/java/com/example/checkinapp/detection/YoloDetector.kt:225-242 | a decoded slot's confidence is its best class score, which is at least 0.5, and its label is that class's label |
| Decoder.DecodeSlotInWindow | app/src/main/java/com/example/checkinapp/detection/YoloDetector.kt:245-279 | a decoded box lies in the image, with both sides between 50 and min(0.3W, 0.3H) |
| Decoder.DecodeSlotSound | app/src/main/java/com/example/checkinapp/detection/YoloDetector.kt:239-279 | every decoded slot's detection is emittable: confidence at least 0.5, and a box clamped into the size window |
| Decoder.OutOfSizeWindowDropped | app/src/main/java/com/example/checkinapp/detection/YoloDetector.kt:268-279 | a box under 50 px, or over min(0.3W, 0.3H), on either side is dropped whatever its confidence |
| Decoder.KeptFromSlots | app/src/main/java/com/example/checkinapp/detection/YoloDetector.kt:289-300 | a detection is appended exactly when some slot decodes to it |
| Decoder.KeptEmittable | app/src/main/java/com/example/checkinapp/detection/YoloDetector.kt:289-295 | when every decoded slot is emittable, every appended detection is emittable |
| Decoder.SlotResultsEmittable | app/src/main/java/com/example/checkinapp/detection/YoloDetector.kt:222-300 | every slot's decoding, when present, is emittable |
| Decoder.Candidates | app/src/main/java/com/example/checkinapp/detection/YoloDetector.kt:212-301 | a batch of fewer than 8 rows gives no candidates; otherwise there are at most as many candidates as slots, and each is emittable |
| Decoder.CandidatesFromSlots | app/src/main/java/com/example/checkinapp/detection/YoloDetector.kt:219-301 | the candidates are exactly the detections the slots decode to |
| Decoder.FindBestClass | app/src/main/java/com/example/checkinapp/detection/YoloDetector.kt:225-235 | the inner loop returns `BestClass` of the slot's scores, and that score |
| Decoder.DecodeSlotAt | app/src/main/java/com/example/checkinapp/detection/YoloDetector.kt:223-300 | the body of the slot loop, including the skip on a short row, returns exactly `DecodeSlot` |
| Decoder.DecodeOutput | app/src/main/java/com/example/checkinapp/detection/YoloDetector.kt:207-303 | the decoding loop returns exactly `Candidates` |
| Decoder.SingleSlotExample | app/src/main/java/com/example/checkinapp/detection/YoloDetector.kt:222-295 | one slot with scores (0.9, 0.1, 0.1, 0.1), centre (0.5, 0.5) and size (0.1, 0.1), on a 640x640 image, gives one class-0 detection at 0.9 with box (288, 288, 352, 352) |
| Suppression.InsertPermutes | app/src/main/java/com/example/checkinapp/detection/YoloDetector.kt:310 | inserting adds exactly one occurrence of the detection |
| Suppression.InsertBelow | app/src/main/java/com/example/checkinapp/detection/YoloDetector.kt:310 | an upper bound on every confidence survives inserting a detection under that bound |
| Suppression.InsertDescending | app/src/main/java/com/example/checkinapp/detection/YoloDetector.kt:310 | inserting into a descending list keeps it descending |
| Suppression.InsertKeepsTies | app/src/main/java/com/example/checkinapp/detection/YoloDetector.kt:310 | an inserted detection goes before every element of equal confidence |
| Suppression.SortSound | app/src/main/java/com/example/checkinapp/detection/YoloDetector.kt:310 | `sortedByDescending` gives non-increasing confidence order and a permutation of its input |
| Suppression.SortStable | app/src/main/java/com/example/checkinapp/detection/YoloDetector.kt:310 | the sort is stable: detections of equal confidence keep their input order |
| Suppression.SortOfDescending | app/src/main/java/com/example/checkinapp/detection/YoloDetector.kt:310 | a list already in descending order is left unchanged |
| Suppression.SelectPositions | app/src/main/java/com/example/checkinapp/detection/YoloDetector.kt:313-327 | the kept boxes sit at strictly increasing positions among the sorted candidates visited |
| Suppression.SelectGrows | app/src/main/java/com/example/checkinapp/detection/YoloDetector.kt:311-327 | visiting more candidates only appends to `finalDetections` |
| Suppression.SelectSeparated | app/src/main/java/com/example/checkinapp/detection/YoloDetector.kt:316-326 | after every step, no two kept boxes have IoU above 0.3 |
| Suppression.SelectCovers | app/src/main/java/com/example/checkinapp/detection/YoloDetector.kt:313-327 | each visited candidate is kept, or overlaps by more than 0.3 a kept box that stands earlier in the sorted order |
| Suppression.NmsSubsequenceOfSort | app/src/main/java/com/example/checkinapp/detection/YoloDetector.kt:307-330 | the output is a subsequence of the stable descending sort of the input |
| Suppression.PicksDescending | app/src/main/java/com/example/checkinapp/detection/YoloDetector.kt:310-327 | a subsequence of a descending list is descending |
| Suppression.NmsDescending | app/src/main/java/com/example/checkinapp/detection/YoloDetector.kt:307-330 | the output is in non-increasing confidence order |
| Suppression.NmsSeparated | app/src/main/java/com/example/checkinapp/detection/YoloDetector.kt:307-330 | no two output boxes have IoU above 0.3, whichever is the candidate |
| Suppression.NmsCovers | app/src/main/java/com/example/checkinapp/detection/YoloDetector.kt:307-330 | every detection, at its place in the stable descending sort, is kept, or has IoU above 0.3 with a kept box earlier in that order and so at least as confident, whatever the labels |
| Suppression.SortedPlace | app/src/main/java/com/example/checkinapp/detection/YoloDetector.kt:310 | every input detection has a place in the sorted order |
| Suppression.TieKeepsFirst | app/src/main/java/com/example/checkinapp/detection/YoloDetector.kt:310-322 | of two equally confident boxes overlapping by more than 0.3, the one earlier in the input is kept and the other dropped |
| Suppression.SelectOfSeparated | app/src/main/java/com/example/checkinapp/detection/YoloDetector.kt:313-327 | the loop keeps every element of a list in which no pair overlaps by more than 0.3 |
| Suppression.NmsEmpty | app/src/main/java/com/example/checkinapp/detection/YoloDetector.kt:308 | no candidates give no detections |
| Suppression.NmsIdempotent | app/src/main/java/com/example/checkinapp/detection/YoloDetector.kt:307-330 | suppressing the output again returns the same list |
| Suppression.CrossLabelSuppression | app/src/main/java/com/example/checkinapp/detection/YoloDetector.kt:316-322 | a box that overlaps a more confident one by more than 0.3 is dropped, even under a different label |
| Suppression.ApplyNms | app/src/main/java/com/example/checkinapp/detection/YoloDetector.kt:307-330 | the nested loop, with its `shouldAdd` flag and `break`, returns exactly `Nms` |
| Detector.PostProcessOnnxOutput | app/src/main/java/com/example/checkinapp/detection/YoloDetector.kt:202-305 | decoding followed by `applyNMS` returns NMS of the candidates of `output[0]` |
| Detector.PostProcessSound | app/src/main/java/com/example/checkinapp/detection/YoloDetector.kt:202-330 | every returned detection has confidence at least 0.5 and a clamped box of 50 to min(0.3W, 0.3H) per side; the list is descending and pairwise within IoU 0.3; fewer than 8 rows give nothing |
| Detector.YoloDetector.constructor | app/src/main/java/com/example/checkinapp/detection/YoloDetector.kt:32-82 | after construction the environment is present; the session is present unless loading fails; the detector is initialised only when nothing throws after session creation; once a session exists, the labels are `LabelTable` of the descriptor |
| Detector.YoloDetector.Detect | app/src/main/java/com/example/checkinapp/detection/YoloDetector.kt:136-173 | the result is null when the detector is not ready, the run throws, or the tensor has no batch or no row; otherwise it is the post-processed detections with the time and image size |
| Detector.YoloDetector.Close | app/src/main/java/com/example/checkinapp/detection/YoloDetector.kt:350-361 | session, environment and initialised flag are cleared, unless releasing the session throws, in which case nothing changes; the labels are kept |
| Detector.FailedLoadNeverDetects | app/src/main/java/com/example/checkinapp/detection/YoloDetector.kt:137-140 | a detector whose model fails to load returns null from `detect` |
| Detector.DetectAfterClose | app/src/main/java/com/example/checkinapp/detection/YoloDetector.kt:137-140 | a loaded detector detects on a well-shaped tensor, and after a successful `close` it returns null |

## Left out

- Preprocessing in `preprocessImageForOnnx` is not modelled. It resizes the bitmap and builds the ONNX tensor through Android and ONNX Runtime calls.
- Inference, `ortSession.run`, is not modelled. Its output tensor is a parameter of `Detect`, with `None` standing for any throw in `detect` before the output tensor is read: `preprocessImageForOnnx`, `ortSession.run` or `outputs[0]`, all of which reach the handler at lines 169-171. The cast of the output value is assumed to succeed.
- Reading the model and the descriptor is not modelled. The model load is a `ModelLoad` outcome, and the descriptor is the list of its lines, or `None` when it cannot be read. Kotlin's `lines()` split is not modelled.
- Logging is not modelled. Two reads inside log calls are kept because they can throw. One is the session description logged by `initializeModel`, kept as the `DescriptionFailed` outcome after the session exists. The other is the `outputTensor[0][0]` read in `detect`, kept as the null result for a tensor with no batch or no row.
- `OrtEnvironment.getEnvironment` is taken to succeed.
- The clock is not modelled. The elapsed time is a parameter.
- The outer handler of `loadLabels`, which returns `["Unknown"]`, is not modelled. No operation the model keeps can reach it.
- Floats are `real`. Rounding, NaN and infinities are not modelled, so a NaN score is not covered by the comparisons. Neither is NaN's effect on the sort.
- `Text.IsWhitespace` is ASCII only and is shared by `trim()` and the regex class `\s`. Kotlin's `trim()` also drops the characters 0x1C-0x1F and Unicode spaces.
- The regex `.` is taken to match any character. This is a modelling choice. Kotlin's `lines()` splits only at `\n`, `\r\n` and `\r`, and Java's `.` also refuses `\u0085`, `\u2028` and `\u2029`. So for a line such as `0: a` + `\u0085` + `b`, the source's group 2 is `a`, while the model keeps the whole rest of the line.
- `Labels.ParseLine` and `Labels.Classify` have no contract of their own. Their properties are the parser lemmas in the table.
- Several specification functions and predicates are the model of the cited code but have no row of their own. Their properties are stated through the rows named here.
  - `Labels.Scan` (98-115): `LabelTable`, `LoadLabels` and the `Labels` scan lemmas.
  - `Decoder.PixelBox`, `Decoder.ClampedBox` and `Decoder.MaxBoxSize` (250-279): `PixelBoxSound`, `DecodeSlotInWindow` and `OutOfSizeWindowDropped`.
  - `Decoder.DecodeSlot` (223-300): `DecodeSlotKeptIff`, `DecodeSlotScore`, `DecodeSlotSound` and `DecodeSlotAt`.
  - `Suppression.Insert` and `Suppression.SortByConfidence` (310): `InsertPermutes`, `InsertDescending`, `InsertKeepsTies`, `SortSound`, `SortStable` and `SortOfDescending`.
  - `Suppression.Select` and `Suppression.Nms` (307-330): the `Select` and `Nms` lemmas and `ApplyNms`.
  - `Detector.PostProcess` (202-305): `PostProcessOnnxOutput` and `PostProcessSound`.
  - `Detector.YoloDetector.Ready` (137): `Detect`.
  - `Text.TrimStart` and `Text.TrimEnd` (99): `Trim`, `TrimStartDropsBlanks` and `TrimEndDropsBlanks`.
  - `Text.DigitsValue` (107): `NatToString`, `NatToStringUnique` and `WrittenLineParses`.
  - `Labels.MatchAt` (105): `FindMatch` and `FindMatchLeftmost`.
  - `Labels.SecondGroup` (105, 108): `WrittenLineParses` and `EntryLineRoundTrip`.
  - `Labels.StartsWithSpace` (110): `TrimmedNeverStartsWithSpace` and `NonEntryEndsSection`.
  - `Labels.ClassifyAll` and `Labels.NoEnd` (98-115): `TableStartsAtSection` and `LaterIndexOverwrites`.
  - `Labels.UnknownLabel` and `Labels.Finish` (117-128): `Dense`, `LabelTable` and `NoPlaceholderIffIndicesContiguous`.
  - `Decoder.ClassScores` (226-230): `FindBestClass` and `DecodeSlotScore`.
  - `Decoder.ScoresReadable`, `Decoder.BoxReadable` and `Decoder.SlotReadable` (226-248, 297-300): `DecodeSlotKeptIff` and `DecodeSlotAt`.
  - `Decoder.InWindow` and `Decoder.Emittable` (239-279): `DecodeSlotInWindow`, `DecodeSlotSound`, `Candidates` and `PostProcessSound`.
  - `Decoder.SlotResults` (219-300) and `Decoder.Kept` (289-295): `KeptFromSlots`, `KeptEmittable`, `SlotResultsEmittable`, `CandidatesFromSlots` and `DecodeOutput`.
  - `Suppression.Descending`, `Suppression.WithConfidence`, `Suppression.PicksAt` and `Suppression.IsSubsequence` (310): `SortSound`, `SortStable`, `NmsSubsequenceOfSort` and `NmsDescending`.
  - `Suppression.Admissible` and `Suppression.Separated` (313-327): `SelectSeparated`, `SelectCovers`, `NmsSeparated` and `ApplyNms`.
  - `Geometry.Box` members and the `Geometry` overlap helpers (332-347): the `IoU` rows.
- Concurrency and the Android lifecycle are not modelled.
