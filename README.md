# Face expression aggregation: a Dafny model

The page runs a third-party face detector on camera frames and on single
images. For each detected face the detector returns expression scores: a
table from labels such as `happy`, `sad` and `neutral` to confidences. This
project models the page's own logic around those scores:

- the session accumulator `expressionData`. It is emptied when the camera
  starts. On every timer tick that finds a face, the first face's
  confidences are added to it, label by label.
- the choice of the dominant expression that is logged on each tick (an
  argmax written as a `reduce` with a strict `>`).
- the summary printed when the camera stops: each label's share of the
  total confidence mass, `total / grandTotal * 100`.
- the single-image report: "no face detected", or each confidence of the
  first face times 100.

Modules:

- `Expressions` (expressions.dfy): one face's scores as an ordered sequence
  of (label, confidence) pairs. This is the order in which `Object.entries`
  lists them.
- `Tables` (tables.dfy): the accumulator as a value. It holds the keys in
  insertion order next to a map of totals. It defines `AddScore`, one
  iteration of the update loop, and `AddFrame`, the whole loop.
- `Accumulator` (accumulator.dfy): the class `ExpressionData`. Its methods
  `Reset`, `Accumulate`, `OnDetections` and `Summarize` are proved against
  the functions in `Tables`, `Session` and `Summary`.
- `Dominant` (dominant.dfy): the reduce that picks the dominant expression.
- `Summary` (summary.dfy): the grand total and the percentage lines.
- `Session` (session.dfy): a whole camera session as a fold of ticks over
  the reset table.
- `ImageAnalysis` (image.dfy): the single-image report.
- `Scenario` (scenario.dfy): one worked two-frame session.

Confidences and totals are `real` numbers. Percentages are exact, with no
`toFixed(2)` rounding.

Two details of the code are modelled as written:

- The guard `if (!expressionData[label])` also fires when a total is exactly
  0, because 0 is falsy. It then resets the total to 0, which changes
  nothing.
- The code does not guard a zero grand total. If the table is not empty and
  the totals sum to 0, the page prints `NaN%` or `Infinity%`. The model
  gives such lines the share `Undefined` and has no precondition here.

## Model

| member | source | states |
|---|---|---|
| `Accumulator.ExpressionData.constructor` | script.js:21 | The accumulator starts as the empty, well-formed table. |
| `Accumulator.ExpressionData.Reset` | script.js:79 | Starting analysis leaves the table empty, whatever it held before. |
| `Accumulator.ExpressionData.Accumulate` | script.js:113-120 | The in-place loop leaves exactly `AddFrame(old table, scores)`, and the key order stays duplicate-free and matches the key set. |
| `Accumulator.ExpressionData.OnDetections` | script.js:91-95 | No face: the table is unchanged and nothing is logged. First face with no scores: the reduce throws and the table is unchanged. Otherwise: the first face's dominant expression is logged and only that face's scores are added. |
| `Accumulator.ExpressionData.Summarize` | script.js:123-133 | Walking the keys in order yields exactly the summary lines of the current table, and the table is not changed. |
| `Tables.AddFrameEffect` | script.js:113-119 | After an update, each label's total is its old total (0 if absent) plus what the face gave it. The key set is the old keys plus the face's labels. The old key order is a prefix of the new one. |
| `Tables.AccumulateFrame` | script.js:114-118 | For an expressions object, whose keys are distinct, each of its labels ends at old total (or 0) + its confidence. Every label not in the frame keeps both its presence and its total. |
| `Tables.AccumulateMonotone` | script.js:118 | With non-negative confidences, no running total decreases. |
| `Dominant.DominantIndex` | script.js:108-110 | On a non-empty score list the reduce ends on a position whose confidence is at least every other. Every later entry is strictly lower, so on a tie the later key wins. |
| `Dominant.DominantExpression` | script.js:100-110 | The logged label is one of the face's labels and sits at the last position of the maximum confidence. |
| `Dominant.DominantIsLastMaximum` | script.js:109 | A position is the reduce's answer exactly when it is the last maximum, so ties are fully determined. |
| `Summary.LinesFor` | script.js:127-128 | One line per key, in key order, each holding that key's share of the grand total. |
| `Summary.SummaryLines` | script.js:125-128 | The summary has one line per accumulated label, in insertion order. If the grand total is non-zero, each line is `100 * total / grandTotal`. If it is zero, every line is undefined. An empty table gives no lines. |
| `Summary.SummarySumsToHundred` | script.js:125-128 | When the grand total is non-zero, the percentages add up to exactly 100. |
| `Summary.SummaryBounds` | script.js:125-128 | When totals are non-negative and the grand total is non-zero, every line is a percentage in [0, 100]. |
| `Session.SessionTotals` | script.js:79-96 | After reset and a run of ticks, a label is in the table exactly when a counted tick of this session scored it in its first face. Its total is the sum of those scores, so nothing leaks from an earlier session. |
| `Session.SessionNonNegative` | script.js:113-119 | If every counted tick's first face has non-negative confidences, every total in the session table is non-negative. |
| `Session.SessionGrandTotalPositive` | script.js:125 | In such a session, one positive confidence in a counted tick's first face makes the grand total positive. |
| `Session.SessionSummary` | script.js:79-133 | For such a session, the summary printed at stop has every line a percentage in [0, 100], and the lines add up to exactly 100. |
| `Scenario.TwoFrameSession` | script.js:113-128 | Frames {happy: 0.6} and {happy: 0.4, sad: 0.5} give totals happy 1.0 and sad 0.5, and shares 200/3 and 100/3. |
| `ImageAnalysis.DisplayResults` | script.js:181-194 | "No face detected" is reported exactly when there are no detections. Otherwise the report lists every label of the first face, in order, with its confidence times 100. Each value is in [0, 100] when the confidences are in [0, 1]. |

## Left out

- DOM lookups, tab switching, and the heading and paragraph elements of the log and summary (script.js:1-39, 102-104, 124, 129-131, 182, 190-192). Only the lines' content is modelled.
- Model loading and every face-api.js call: detection, resizing, drawing and canvas clearing (script.js:42-47, 76-77, 82-89, 164-174). The detector's output is an input: a sequence of detections, each carrying its expression scores. Boxes and landmarks are not modelled.
- Camera start/stop through `getUserMedia`, stopping tracks, the `isCameraRunning` flag and `setInterval`/`clearInterval` (script.js:50-72, 81, 96). These are I/O and timing. Overlapping asynchronous detections, and a tick that completes after stop, are concurrency concerns and are not modelled. A session is modelled as a sequence of ticks that run one after another.
- The `latestExpressions` global (script.js:23, 92-94) is written and then read on the next two lines, with no `await` in between, as the argument of `logDominantExpression` and `updateExpressionData`. The model uses a local for it inside `OnDetections`. Only the value surviving from one tick to the next is not modelled, and nothing reads it.
- FileReader, drag-and-drop and URL ingestion (script.js:136-163) are I/O plumbing.
- `toFixed(2)` formatting and IEEE double rounding (script.js:128, 191): values are exact reals.
- `Summary.SummaryLines`: a zero grand total gives `Undefined` for every line. The model does not distinguish JS `NaN` from `Infinity` or `-Infinity`.
- JS lists integer-like keys first, in numeric order. The model assumes the labels are ordinary words, which the detector's labels are, so keys iterate in insertion order.
- Labels are assumed not to be names of `Object.prototype` properties (such as `constructor`, `toString`, `valueOf`, `hasOwnProperty`) or `__proto__`. On the page, `expressionData` is a plain `{}`. For an inherited name the falsy guard (script.js:115) would see a truthy function, `+=` (script.js:118) would join strings, and the summary would print `NaN`. An assignment to `__proto__` would be ignored. The model treats every label as absent until first assigned. The detector's seven labels are none of these names.
- `Dominant.DominantIndex`: it reads a key's confidence from its own entry, which matches `expressions[key]` because an object's keys are distinct.
