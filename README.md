# Distracted-walking detector: a verified model of its core

The application records a phone's motion sensors (linear acceleration `ax ay az`,
angular velocity `wx wy wz`). It recognises three activities: *Stop*, *Distracted
Walking* and *Not Distracted Walking*. It has two pages:

- **The training page** (`pages/train_model.py`) does the following:
  - It cuts a recorded table into sliding windows of `window_size` samples every
    `stride` samples and drops any remainder.
  - It turns each window into 66 features: 11 statistics of each of the six
    channels, plus the window's majority `class`.
  - It trains a random forest and labels the confusion matrix by the sorted class
    codes. Every frame of the prediction animation is captioned with the window's
    prediction.
  - It re-scores a second recording window by window. The last window is anchored
    to the end of the data, and each window gets the times of its first and last
    sample.
  - It sums durations per label, computes percentage shares, and shows totals as
    `mm:ss`.
- **The real-time page** (`pages/realtime_data.py`) does the following:
  - It polls the phone's sensor app and appends each answered value to its named
    buffer.
  - Once the displayed buffer reaches the cursor's end, it scores the window
    `[start_index, end_index)`, counts the label in a tally and slides the cursor by
    `stride`.
  - A distracted label triggers a mail alert: sent at once, only the first time, or
    marked as due and sent when the page ends.

The model is organised as follows:

| module (file) | what it models |
|---|---|
| `Common` | `Option`, `Result`, and the error cases the code raises |
| `Decimal` | Python's `str` on integers, and the `:02d` format |
| `Labels` | the `LABEL_NAMES` lookup and the confusion-matrix labels |
| `Tables` | data frames and their time columns |
| `Features` | the feature extractor |
| `Classifier` | the training schema, and prediction on one window |
| `Segmentation` | the three window policies: training, re-scoring, animation |
| `Training` | `segment_and_extract` |
| `Evaluation` | `predict_windows_with_time` and the animation captions |
| `Aggregation` | the per-label table, the shares and `fmt_hms` |
| `Streaming` | the real-time page |

The two pages are modelled in different styles:

- **Training page.** It is mostly functional and is modelled by functions and lemmas.
  Its two loops are *methods* proved against specification functions:
  - `segment_and_extract` → `Training.SegmentAndExtract`;
  - the re-scoring `while True` loop → `Evaluation.ScoreAnchoredWindows`.
- **Real-time page.** It changes state step by step. `plot_data` is the class
  `Streaming.StreamSession`:
  - its fields are the buffers, the cursor, the tally and `email_flag`;
  - the session entries it shares with `send_mail` (`email`, `df` and the
    mails sent) are the class `Streaming.AppSession`.

  Each method is proved equal to a pure transition, `Streaming.Turn` on a
  `LoopState`. The lemmas about `Turn` show that the loop invariant is kept:
  - the cursor has slid once per classification;
  - the shown buffer is shorter than the cursor's end;
  - the classification count equals the number of full windows over the shown buffer;
  - the tally counts the classified labels;
  - at most one immediate mail is sent.

**Opaque parts.** The numerical statistics (mean, standard deviation, quantiles,
skewness, kurtosis, IQR) and the learned model are library code. They enter as
function parameters:
- `Features.Statistics` computes the statistics;
- `Classifier.Model` maps a feature row to a class code, or to `None` when it raises.

For the same reason, a parsed date-time column is an input: each entry is seconds, or
`None` when parsing failed.

A data frame (`Tables.Frame`) holds its numeric columns by name. The `time` and
`class` columns have their own fields and are never also numeric columns.

**Behaviour of the code worth knowing:**
- **Labels and the tally.** The real-time page's `pred_data` turns a failing prediction
  into the label `"Error"`. The tally has no such key, so counting it raises `KeyError`
  and ends the run. Streaming errors abort the loop.
- **Channel buffers.** A poll appends to each buffer only the values that are present,
  so the buffers can grow unevenly. A window is built from the buffers of the detected
  OS. A missing buffer name, or slices of unequal length, raise.
- **Re-scoring failures.** One failing window fails the whole re-scoring run.
- **Time column.** A date-time column with any unparsable entry falls back to sample
  indices. An empty date-time column raises.
- **Re-scoring coverage.** Re-scoring is guaranteed to cover every sample when
  `stride <= window_size` (`AnchorWindowsCover`). With a longer stride, samples between
  windows can go unscored (`AnchorWindowsMaySkip`).
- **Short data.** With fewer than `window_size` samples, re-scoring yields the one
  shorter window `[0, n)`. Data with no rows and a numeric time column gives an empty
  table and no error, even when channels are missing. An empty date-time column
  raises instead, as above.
- **The animation.** An empty table fails, at the axis limits.
- **Standard deviation.** The code uses the library's sample statistic. This sits
  inside the statistics parameter.

## Model

| member | source | states |
|---|---|---|
| Decimal.ParseIntToString | pages/train_model.py:78 | reading back `str(c)` of any integer code gives the code |
| Decimal.IntToStringInjective | pages/train_model.py:78 | different codes have different fallback names |
| Decimal.Pad2 | pages/train_model.py:248 | `:02d` yields at least two characters, a sign or digit then digits, and exactly two for 0..99 |
| Decimal.ParsePad2 | pages/train_model.py:248 | the zero-padded text reads back as the number |
| Decimal.IntToString | pages/train_model.py:78 | `str` of an integer is a sign or digit followed by digits; `ParseIntToString` reads it back as the integer |
| Labels.DisplayNameInjective | pages/train_model.py:78 | `LABEL_NAMES.get(c, str(c))` shows two codes under the same name if and only if they are the same code |
| Labels.InsertSorted | pages/train_model.py:77 | inserting into an ascending duplicate-free list keeps it so and adds exactly the one element |
| Labels.SortedDistinct | pages/train_model.py:77 | `sorted(pd.unique(y))` is strictly ascending and holds exactly the values of `y` |
| Labels.ConfusionLabels | pages/train_model.py:77-78 | one display label per distinct class code |
| Labels.ConfusionLabelsOrdered | pages/train_model.py:77-78 | label `i` names the `i`-th smallest code present; labels are pairwise distinct; every code present has its label |
| Labels.LabelName | pages/train_model.py:19 | `LABEL_NAMES` gives code 0 the name "Stop", 1 "Distracted\nWalking" and 2 "Not Distracted\nWalking", and each name belongs to its code only |
| Labels.DisplayName | pages/train_model.py:78 | `LABEL_NAMES.get(c, str(c))`: the table name for codes 0..2, the decimal text otherwise (one-to-one by `DisplayNameInjective`) |
| Tables.Slice | pages/train_model.py:53 | `iloc[s:e]` keeps every column name and cuts each column, the `class` column and the `time` column (numeric or date-time) to rows `s..e-1`, height `e-s`; absent columns stay absent |
| Tables.TimeSeconds | pages/train_model.py:148-160 | numeric times pass through; any unparsable date-time gives index seconds; otherwise seconds since the first sample (the first is 0); fails exactly on an empty date-time column |
| Features.FeatureNameInjective | pages/train_model.py:30-42 | a feature name determines its channel and its statistic |
| Features.FeatureNameCount | pages/train_model.py:29-42 | the extractor produces exactly 66 distinct feature names |
| Features.ChannelFeatures | pages/train_model.py:29-42 | the feature table has exactly the 66 names as keys, entry `11c+k` is statistic `k` of channel `c` |
| Features.ChannelFeatureAt | pages/train_model.py:30-42 | `<channel>_<suffix>` is that suffix's statistic of that channel's samples, as `FeatureValue` gives it: mean, std, min, max, median, range (max minus min), q1, q3, skew, kurt or iqr |
| Features.RangeIsMaxMinusMin | pages/train_model.py:37 | each channel's `range` feature equals its `max` feature minus its `min` feature |
| Features.ModeAmong | pages/train_model.py:45 | the result is a candidate of greatest count, the smallest among equal counts |
| Features.Majority | pages/train_model.py:44-45 | `mode().iloc[0]` is a most frequent class of the window, the smallest one on ties |
| Features.FirstAbsent | pages/train_model.py:25-27 | `None` exactly when every required name is present; otherwise the earliest missing name |
| Features.ExtractFeatures | pages/train_model.py:24-47 | fails exactly when a channel is missing, naming the first missing one; otherwise the features are exactly `ChannelFeatures` of the six channels (the 66 names), and there is a majority class exactly when a non-empty `class` column exists, namely `Majority` of it: a most frequent class, the smallest on ties |
| Features.ExtractFeaturesAt | pages/train_model.py:30-42 | with every channel present, extraction succeeds and feature `<channel>_<suffix>` is that suffix's statistic of the window's samples of that channel |
| Features.FeatureNames | pages/train_model.py:29-42 | the 66 names in order, `11c+k` being `<channel c>_<suffix k>` (`FeatureNamesAt`) |
| Classifier.ClassColumn | pages/train_model.py:68 | `y` holds exactly the classes of the feature rows |
| Classifier.TrainAndEvaluate | pages/train_model.py:63-78 | fails with the schema error exactly when there is no `class` column (the split's own errors are not modelled); otherwise the matrix codes are strictly ascending, are exactly the classes present, and are labelled by their display names |
| Classifier.PredictSegment | pages/train_model.py:88-92 | fails exactly when a channel is missing or the model raises: with the first missing channel when one is missing, otherwise with the prediction error; on success the display name of the predicted code |
| Segmentation.RangeShape | pages/train_model.py:52 | `range(a, b, step)` has `ceil((b-a)/step)` elements `a + i*step`, all in `[a, b)` |
| Segmentation.DropStartsShape | pages/train_model.py:51-53 | `DropStarts`, `range(0, max(n-w+1, 0), stride)`: training's starts are `i*stride` for `i` below `floor((n-w)/stride)+1` (none when `n < w`), each window inside the data |
| Segmentation.DropWindows | pages/train_model.py:52-53 | as many windows as the stride progression has full windows |
| Segmentation.DropWindowsAreDropStarts | pages/train_model.py:52-53 | the windows training slices are `[s, s+w)` for its starts, all ending inside the data |
| Segmentation.AnchorLoopExit | pages/train_model.py:166-168 | once the start reaches `n` the re-scoring loop has visited all its windows |
| Segmentation.AnchorLoopStep | pages/train_model.py:165-190 | one turn of the re-scoring loop visits the next window, a non-empty part of the data, and stops after one that ends at `n` |
| Segmentation.AnchorStepShort | pages/train_model.py:169-172 | a start inside the data whose window overruns is re-anchored to `[max(0, n-w), n)`, and the loop ends |
| Segmentation.AnchorSuffix | pages/train_model.py:165-190 | `AnchorWindowsFrom(k)`: from any counter up to the last full window, re-scoring visits the rest of the stride progression and then the tail |
| Segmentation.AnchorWindowsClosedForm | pages/train_model.py:162-190 | `AnchorWindows`, the loop from counter 0, visits training's windows, then one window anchored at the end only if the progression misses the last samples |
| Segmentation.AnchorWindowsShape | pages/train_model.py:165-190 | there are no windows exactly when `n = 0`; each has length `min(w, n)` inside the data; all but the last are training's and end before `n`; starts strictly increase |
| Segmentation.AnchorStepFull | pages/train_model.py:166-172 | `WindowAt`: a full window that ends before `n` is `[k*stride, k*stride+w)`, and the loop goes on to counter `k+1` |
| Segmentation.AnchorWindowsInRange | pages/train_model.py:165-172 | every re-scored window is a non-empty range of samples |
| Segmentation.AnchorWindowsEndAnchored | pages/train_model.py:169-172 | with `stride <= w <= n` the windows begin with training's and end with `[n-w, n)` |
| Segmentation.AnchorWindowsCover | pages/train_model.py:165-190 | with `stride <= w` and data present, the last window ends at `n` and every sample lies in some window |
| Segmentation.AnchorWindowsMaySkip | pages/train_model.py:166-172 | with a stride longer than the window, samples can go unscored: 3 samples, window 2, stride 3 give only `[0,2)` |
| Segmentation.WindowPolicyExample | pages/train_model.py:165-190 | seven or eight samples, window 3, stride 2: training's windows `[0,3) [2,5) [4,7)`; re-scoring adds `[5,8)` for eight |
| Segmentation.FrameWindows | pages/train_model.py:113-125 | one window per animation frame |
| Segmentation.FrameWindowsInRange | pages/train_model.py:113-118 | with any data each frame shows a non-empty range of samples |
| Segmentation.FrameWindowsShape | pages/train_model.py:113-125 | with `n >= w` the frames show exactly training's windows; with `n < w` a single frame shows all samples |
| Segmentation.FrameCount | pages/train_model.py:125 | `max((total-w)//stride+1, 1)`: at least one frame, one when `total < w + stride`, and training's window count when `total >= w` |
| Training.ExtractOnSlice | pages/train_model.py:53-54 | extraction on a window fails exactly when a channel is missing from the whole table, with the same error |
| Training.RowsAtMultiples | pages/train_model.py:52-54 | rows built for training's starts are the rows of the windows `[i*stride, i*stride+w)` |
| Training.ExtractWindow | pages/train_model.py:53-54 | the feature row of the window `[start, start+w)`, or the first missing channel |
| Training.SegmentAndExtract | pages/train_model.py:50-59 | fails with "no window" when `n < w`, else exactly when a channel is missing (naming the first); otherwise one row per full window `[i*stride, i*stride+w)`, `floor((n-w)/stride)+1` of them |
| Training.SegmentRowsUniformlyLabelled | pages/train_model.py:44-45 | every feature row has a class exactly when the data has a `class` column, so training's check depends on the data alone |
| Evaluation.ScoreWindow | pages/train_model.py:174-186 | the row of one window: its predicted label, the times of its first and last sample, and their non-negative difference; or the prediction's error |
| Evaluation.PredictWindowsWithTime | pages/train_model.py:139-192 | fails without a `time` column or with an empty date-time column; otherwise each re-scoring window, in order, gets its scored row, or the run fails with the error of the first window whose prediction fails, all earlier windows having been predicted |
| Evaluation.ScoreAnchoredWindows | pages/train_model.py:162-192 | the re-scoring loop yields exactly the scored rows of `AnchorWindows`, in order, or the error of the first of them whose prediction fails |
| Evaluation.MissingAnimationColumns | pages/train_model.py:96-98 | reports `ax` and `time` exactly when they are absent, nothing else, and in sorted order (`ax` before `time`) |
| Evaluation.FrameTitle | pages/train_model.py:121-122 | the caption is `result: ` plus the window's prediction, or the prediction's error |
| Evaluation.FrameTitles | pages/train_model.py:113-126 | the captions of the frames, in order, or the error of the first frame whose prediction fails |
| Evaluation.AllTitledAt | pages/train_model.py:113-126 | caption `i` of the animation is the caption of window `i`'s successful prediction |
| Evaluation.PredictionAnimation | pages/train_model.py:94-125 | fails on missing columns, naming them, and on empty data; otherwise one caption per frame (`max((n-w)//stride+1, 1)` of them), each that frame's prediction, or the error of the first frame whose prediction fails |
| Aggregation.ScoredDurationsNonNegative | pages/train_model.py:177-179 | every re-scored row has a non-negative duration |
| Aggregation.AddDuration | pages/train_model.py:236-237 | adding a duration adds its label to the table's labels and keeps one row per label |
| Aggregation.GroupDurations | pages/train_model.py:236-237 | the group-by has one row per label, for exactly the predicted labels |
| Aggregation.GroupDurationsLookup | pages/train_model.py:251-253 | `Lookup`, the seconds shown for a label (0.0 for a label without a row), is the summed durations of exactly its windows |
| Aggregation.GroupDurationsTotal | pages/train_model.py:236-239 | `TotalSeconds`, the grand total `agg["duration_s"].sum()`, equals the summed durations of all windows |
| Aggregation.GroupDurationsNonNegative | pages/train_model.py:236-237 | per-label totals of non-negative durations are non-negative |
| Aggregation.Shares | pages/train_model.py:239-240 | one share per row, and all of them 0.0 when the total is not positive, so nothing is divided by zero |
| Aggregation.SharesAt | pages/train_model.py:240 | with a positive total each row's share is its seconds over the total times 100 |
| Aggregation.SharesSumTo100 | pages/train_model.py:239-240 | with a positive total, the shares add up to 100 |
| Aggregation.SharesBounded | pages/train_model.py:239-240 | with non-negative totals each share lies in `[0, 100]`, including the all-zero case |
| Aggregation.RoundHalfEven | pages/train_model.py:247 | `round` lies within 0.5 and breaks ties to the even integer |
| Aggregation.RoundIsNearest | pages/train_model.py:247 | no integer is nearer to the value than its rounding |
| Aggregation.FmtHms | pages/train_model.py:246-248 | the caption has a colon before two final characters, and is the five characters `mm:ss` for rounded values 0..5999 |
| Aggregation.HmsRoundTrip | pages/train_model.py:246-248 | the caption reads back as the rounded seconds (minutes times 60 plus seconds), with seconds below 60 |
| Streaming.ChannelKeysApart | pages/realtime_data.py:205-222 | each device's six buffer names are distinct, and no buffer name of one device belongs to the other |
| Streaming.ChannelKeys | pages/realtime_data.py:205-222 | six buffer names per device, one per channel in `ax..wz` order; distinct and device-specific by `ChannelKeysApart` |
| Streaming.PySlice | pages/realtime_data.py:207 | `xs[a:b]` is the ordinary slice in range, clamps both ends otherwise, and is empty when `b <= a` |
| Streaming.WindowColumns | pages/realtime_data.py:203-223 | the window table builds exactly when every buffer of the OS exists and the six slices have equal length, and is those slices in channel order; a missing buffer is reported by a missing name |
| Streaming.WindowColumnsFull | pages/realtime_data.py:203-223 | with every buffer of the OS at least `end` long, the window is the six slices `[start, end)` |
| Streaming.WindowColumnsExactly | pages/realtime_data.py:203-223 | once the shown buffer reaches `end`, the window builds exactly when every buffer of the OS does |
| Streaming.PredLabelInTally | pages/realtime_data.py:120-135 | `PredLabel`: the label has a tally key exactly when the classifier answered; a raising classifier gives "Error", which has none |
| Streaming.PredLabelVersusDisplayName | pages/realtime_data.py:127-132 | code 0 agrees with the training page's name; every code but 0 and 1 is "Not Distracted Walking", and code 1 and codes outside 0..2 never match the training page's names |
| Streaming.TallyOfAppend | pages/realtime_data.py:226 | a classification adds one to its own count and leaves the others |
| Streaming.TallySum | pages/realtime_data.py:163-226 | the three counts add up to the number of classifications |
| Streaming.CountZero | pages/realtime_data.py:163 | a label's count is 0 exactly when it was never predicted |
| Streaming.WindowCountStep | pages/realtime_data.py:203-237 | a window is due exactly when the shown buffer reaches the cursor's end, and the classification count keeps matching the stride progression |
| Streaming.MailBody | pages/realtime_data.py:37-84 | the plain warning exactly when the timing setting is 0, otherwise the estimate |
| Streaming.EstimateMeaning | pages/realtime_data.py:37-50 | the estimate is `DistractedCount` (the published "Distracted Walking" count, 0 without a table or that column) × stride (default 30) at 60 samples a second, and minutes are seconds over 60 |
| Streaming.AppSession.constructor | main.py:23-31 | the session starts with no mail due, the placeholder table and no mail sent |
| Streaming.AppSession.SendMail | pages/realtime_data.py:26-94 | one mail more, its body built from the settings and the currently published tally |
| Streaming.AppSession.FinishPage | pages/realtime_data.py:299-301 | a due deferred mail is sent once and the flag is cleared |
| Streaming.InitialInvariant | pages/realtime_data.py:163-175 | the starting state (empty buffers per name, cursor `[0, w)`, zero tally, flag set) satisfies the loop invariant |
| Streaming.IdleKeepsInvariant | pages/realtime_data.py:186-203 | a poll after which the shown buffer is still short of the cursor keeps the invariant |
| Streaming.ScoreKeepsInvariant | pages/realtime_data.py:203-241 | when the shown buffer reaches the cursor it is exactly at its end, and counting a tally label, alerting and sliding keeps the invariant |
| Streaming.ScoreKeepsCursor | pages/realtime_data.py:235-237 | sliding by the stride after a classification keeps the cursor matched to the window count |
| Streaming.ScoreKeepsRecord | pages/realtime_data.py:225-233 | counting the label and alerting keeps the tally, flag and mail records matched to the labels seen |
| Streaming.TurnKeepsInvariant | pages/realtime_data.py:179-241 | any turn of the loop that does not raise keeps the invariant |
| Streaming.TurnExtendsHistory | pages/realtime_data.py:225-226 | a turn classifies at most one window |
| Streaming.ScoreSlidesOnce | pages/realtime_data.py:203-237 | `AfterScore`: a scoring turn classifies one window, slides by exactly the stride, leaves the shown buffer short of the new end, and the counts add up to the classifications |
| Streaming.RunPolls | pages/realtime_data.py:179-241 | a run that completes has consumed every poll, and one that raises has consumed at least one and no more than there are |
| Streaming.PollTurnKeepsInvariant | pages/realtime_data.py:180-184 | any poll, answered or not, that does not raise keeps the invariant, and every poll adds at most one label |
| Streaming.RunPollsKeepsInvariant | pages/realtime_data.py:179-241 | a completed run keeps the invariant, and any run only extends the labels, by at most one per poll |
| Streaming.Appended | pages/realtime_data.py:186-189 | appending a poll's values creates and drops no buffer; `AppendReading` computes exactly it |
| Streaming.Turn | pages/realtime_data.py:179-241 | one turn keeps the buffer names; with `TurnKeepsInvariant` a non-raising turn keeps the invariant, with `TurnExtendsHistory` it classifies at most one window |
| Streaming.PollTurn | pages/realtime_data.py:180-184 | an unanswered poll is a turn that changes nothing; buffer names are kept (`PollTurnKeepsInvariant`) |
| Streaming.StreamSession.constructor | pages/realtime_data.py:162-177 | `plot_data`'s start: zero tally, cursor `[0, w)`, empty buffers, flag set; the invariant holds |
| Streaming.StreamSession.AppendReading | pages/realtime_data.py:186-189 | each buffer grows by its answered value, if any, and by nothing else |
| Streaming.StreamSession.Alert | pages/realtime_data.py:228-233 | deferred timing marks the mail due; otherwise the first alert sends one mail and clears the flag, later ones nothing |
| Streaming.StreamSession.Publish | pages/realtime_data.py:239-241 | the tally is published and nothing else changes |
| Streaming.StreamSession.Classified | pages/realtime_data.py:225-241 | counting the label, alerting, sliding and publishing make the state `AfterScore` |
| Streaming.StreamSession.Step | pages/realtime_data.py:179-241 | an unanswered poll changes nothing; an answered one moves result and state exactly as `Turn`, and a turn that does not raise keeps the invariant |
| Streaming.StreamSession.Run | pages/realtime_data.py:179-241 | the loop over a sequence of polls ends in exactly the result, poll count and state of `RunPolls`, and keeps the invariant when no poll raises |

## Left out

- The numerical statistics and the random forest are library code. They are the
  parameters `Features.Statistics` and `Classifier.Model`, so the 80/20 stratified
  split, fitting, the accuracy and the confusion-matrix counts are not modelled.
- Classifier.TrainAndEvaluate: states the schema check and the confusion-matrix
  labels only. The fitted model, its accuracy and the matrix counts come from the learner.
  The model does not capture the errors of the stratified split
  (`pages/train_model.py:69`). These raise a `ValueError` when a class has only one
  window. They also raise one when the 20% training part is smaller than the number
  of classes, for example 10 windows of 3 classes. Neither case is a failure of the
  model.
- Date-time parsing (`pd.to_datetime`) is library code. A date-time column is given
  already parsed, as seconds per entry or `None`.
- Not modelled, as rendering and file I/O:
  - plotting;
  - GIF encoding, the temporary file and its bytes;
  - `pickle`;
  - Excel reading;
  - download buttons;
  - the page text.
- Not modelled, as network I/O:
  - the HTTP polling itself, so a poll is an input (`Streaming.Poll`). In the code, a
    reply that lacks a requested buffer raises a `TypeError` out of `phyphox_get_data`:
    the handler passes `end="\t"` to `st.error` (pages/realtime_data.py:158), which
    `st.error` does not accept. So the reply never yields `None` for that buffer. Only a
    JSON `null` reaches the buffers as an absent value;
  - `/meta` device detection and `/config`.

  The detected layout and the OS setting are separate parameters, so the mismatch
  between them is represented, and it raises as in the code.
- Streaming.AppSession.SendMail: the login gate, the database lookup of the address,
  SMTP and the swallowing of their errors are I/O and are not modelled. A mail is
  recorded in `outbox` whenever it is sent.
- Printed formats are not modelled: the `:.2f` and `:.4f` texts, and the HTML of the
  mail body. A mail carries its numbers.
- Floating-point arithmetic is modelled with exact reals.
- Aggregation.GroupDurations: keeps one row per label in the order the labels first
  appear. The code's `sort_values` by duration only reorders rows, and every stated
  property is per label or a total.
- The training page drops the `time` and `detail` columns before scoring. The
  extractor reads only the six channels and `class`, never `time` or `detail`, so
  the model keeps the frame as it is.
- Streaming.StreamSession.Run: handles a finite sequence of polls. The code's
  `while True` loop, its sleep and the stop button run until the page is stopped.
- After a raising turn, the model states only that the buffers have grown. The
  exception ends `plot_data`, and the page shows an error.
- The page orchestration is not modelled: the button and the lines that chain the
  steps, `pages/train_model.py:213-284`.
- The message when `win_df` is empty is display only and is not modelled.
- The duplicate feature extractor in `pages/realtime_data.py:99-117` is the same
  computation as the training page's. It is modelled once, as `Features.ChannelFeatures`.
