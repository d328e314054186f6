/** The batch evaluator of the training page: re-score recorded data window by
    window with the anchored edge policy, attach time ranges, total the time per
    label, and format totals as minutes and seconds. Also the window titles of the
    prediction animation. */
module Evaluation {
  import opened Common
  import opened Tables
  import opened Features
  import opened Segmentation
  import opened Classifier

  /** One row of the re-scoring table. */
  datatype WindowResult = WindowResult(startTime: real, endTime: real, duration: real, predicted: string)

  /** `row` is what re-scoring reports for window `b`: the times of its first and last
      sample, the non-negative difference, and the predicted label. */
  predicate ScoredWindow(stats: Statistics, model: Model, df: Frame, tsec: seq<real>, b: Bounds, row: WindowResult)
    requires WellFormed(df) && |tsec| == df.height && 0 <= b.start < b.end <= df.height
  {
    && PredictSegment(stats, model, Slice(df, b.start, b.end)) == Success(row.predicted)
    && row.startTime == tsec[b.start]
    && row.endTime == tsec[b.end - 1]
    && row.duration == MaxReal(0.0, tsec[b.end - 1] - tsec[b.start])
  }

  /** Windows inside the data. */
  predicate InRange(df: Frame, bs: seq<Bounds>)
  {
    forall i :: 0 <= i < |bs| ==> 0 <= bs[i].start < bs[i].end <= df.height
  }

  /** `rows` are what re-scoring reports for the windows `bs`, in order. */
  predicate AllScored(stats: Statistics, model: Model, df: Frame, tsec: seq<real>, bs: seq<Bounds>, rows: seq<WindowResult>)
    requires WellFormed(df) && |tsec| == df.height && InRange(df, bs)
  {
    |rows| == |bs| && forall i :: 0 <= i < |bs| ==> ScoredWindow(stats, model, df, tsec, bs[i], rows[i])
  }

  lemma AllScoredAppend(stats: Statistics, model: Model, df: Frame, tsec: seq<real>,
                        bs: seq<Bounds>, rows: seq<WindowResult>, b: Bounds, row: WindowResult)
    requires WellFormed(df) && |tsec| == df.height && InRange(df, bs) && 0 <= b.start < b.end <= df.height
    requires AllScored(stats, model, df, tsec, bs, rows) && ScoredWindow(stats, model, df, tsec, b, row)
    ensures InRange(df, bs + [b]) && AllScored(stats, model, df, tsec, bs + [b], rows + [row])
  {
    InRangeAppend(df, bs, b);
    var bs', rows' := bs + [b], rows + [row];
    forall i | 0 <= i < |bs'| ensures ScoredWindow(stats, model, df, tsec, bs'[i], rows'[i]) {
      if i < |bs| {
        assert bs'[i] == bs[i] && rows'[i] == rows[i];
      }
    }
  }

  lemma InRangeAppend(df: Frame, bs: seq<Bounds>, b: Bounds)
    requires InRange(df, bs) && 0 <= b.start < b.end <= df.height
    ensures InRange(df, bs + [b])
  {
    forall i | 0 <= i < |bs| + 1 ensures 0 <= (bs + [b])[i].start < (bs + [b])[i].end <= df.height {
      if i < |bs| {
        assert (bs + [b])[i] == bs[i];
      }
    }
  }

  /** Scoring window `b` fails. */
  predicate FailsOn(stats: Statistics, model: Model, df: Frame, b: Bounds, e: Error)
    requires WellFormed(df) && 0 <= b.start < b.end <= df.height
  {
    PredictSegment(stats, model, Slice(df, b.start, b.end)) == Failure(e)
  }

  /** The prediction for window `b` succeeds. */
  predicate Predicted(stats: Statistics, model: Model, df: Frame, b: Bounds)
    requires WellFormed(df) && 0 <= b.start < b.end <= df.height
  {
    PredictSegment(stats, model, Slice(df, b.start, b.end)).Success?
  }

  /** The prediction for each window of `ws`, in order. */
  function Outcomes(stats: Statistics, model: Model, df: Frame, ws: seq<Bounds>): (r: seq<Result<string>>)
    requires WellFormed(df) && InRange(df, ws)
    ensures |r| == |ws|
  {
    if ws == [] then []
    else
      assert InRange(df, ws[1..]) by {
        forall i | 0 <= i < |ws| - 1 ensures 0 <= ws[1..][i].start < ws[1..][i].end <= df.height {
          assert ws[1..][i] == ws[i + 1];
        }
      }
      [PredictSegment(stats, model, Slice(df, ws[0].start, ws[0].end))] + Outcomes(stats, model, df, ws[1..])
  }

  /** Outcome `i` is the prediction for window `i`. */
  lemma {:induction false} OutcomesAt(stats: Statistics, model: Model, df: Frame, ws: seq<Bounds>, i: int)
    requires WellFormed(df) && InRange(df, ws) && 0 <= i < |ws|
    ensures Outcomes(stats, model, df, ws)[i] == PredictSegment(stats, model, Slice(df, ws[i].start, ws[i].end))
  {
    if i > 0 {
      var t := ws[1..];
      assert t[i - 1] == ws[i];
      OutcomesAt(stats, model, df, t, i - 1);
    }
  }

  /** Outcome `i` is the first that is not a success, and it is the error `e`. */
  predicate FirstFailureIn(rs: seq<Result<string>>, e: Error) {
    exists i :: 0 <= i < |rs| && rs[i] == Failure(e) && forall j :: 0 <= j < i ==> rs[j].Success?
  }

  /** Some window of `ws` is the first whose prediction fails, and it fails with `e`. */
  predicate FirstFailure(stats: Statistics, model: Model, df: Frame, ws: seq<Bounds>, e: Error)
    requires WellFormed(df) && InRange(df, ws)
  {
    FirstFailureIn(Outcomes(stats, model, df, ws), e)
  }

  /** A failure right after windows that were all scored is the first failure. */
  lemma FirstFailureAfterScored(stats: Statistics, model: Model, df: Frame, tsec: seq<real>,
                                all: seq<Bounds>, done: seq<Bounds>, rest: seq<Bounds>, rows: seq<WindowResult>, e: Error)
    requires WellFormed(df) && |tsec| == df.height && InRange(df, all) && InRange(df, done)
    requires all == done + rest && rest != [] && 0 <= rest[0].start < rest[0].end <= df.height
    requires AllScored(stats, model, df, tsec, done, rows) && FailsOn(stats, model, df, rest[0], e)
    ensures FirstFailure(stats, model, df, all, e)
  {
    var i := |done|;
    var rs := Outcomes(stats, model, df, all);
    assert all[i] == rest[0];
    OutcomesAt(stats, model, df, all, i);
    forall j | 0 <= j < i
      ensures rs[j].Success?
    {
      assert all[j] == done[j];
      assert ScoredWindow(stats, model, df, tsec, done[j], rows[j]);
      OutcomesAt(stats, model, df, all, j);
    }
  }

  /** The body of the re-scoring loop for one window: predict its label and read the
      times of its first and last sample. */
  method ScoreWindow(stats: Statistics, model: Model, df: Frame, tsec: seq<real>, b: Bounds)
    returns (r: Result<WindowResult>)
    requires WellFormed(df) && |tsec| == df.height && 0 <= b.start < b.end <= df.height
    ensures r.Success? ==> ScoredWindow(stats, model, df, tsec, b, r.value)
    ensures r.Failure? ==> FailsOn(stats, model, df, b, r.error)
  {
    var predicted := PredictSegment(stats, model, Slice(df, b.start, b.end));
    if predicted.Failure? {
      return Failure(predicted.error);
    }
    var tStart := tsec[b.start];
    var tEnd := tsec[b.end - 1];
    var duration := MaxReal(0.0, tEnd - tStart);
    return Success(WindowResult(tStart, tEnd, duration, predicted.value));
  }

  /** `predict_windows_with_time`: no `time` column is an error; otherwise every
      window of the anchored policy is scored in order, and the first failing
      prediction fails the whole run. */
  method PredictWindowsWithTime(stats: Statistics, model: Model, df: Frame, w: int, stride: int)
    returns (r: Result<seq<WindowResult>>)
    requires WellFormed(df) && ValidParams(w, stride)
    ensures df.time.None? ==> r == Failure(MissingColumn("time"))
    ensures df.time.Some? && TimeSeconds(df.time.value).Failure? ==> r == Failure(TimeSeconds(df.time.value).error)
    ensures df.time.Some? && TimeSeconds(df.time.value).Success? ==>
      var a := AnchorWindows(df.height, w, stride);
      var tsec := TimeSeconds(df.time.value).value;
      InRange(df, a) &&
      (r.Success? ==> AllScored(stats, model, df, tsec, a, r.value)) &&
      (r.Failure? ==> FirstFailure(stats, model, df, a, r.error))
  {
    if df.time.None? {
      return Failure(MissingColumn("time"));
    }
    var ts := TimeSeconds(df.time.value);
    if ts.Failure? {
      return Failure(ts.error);
    }
    r := ScoreAnchoredWindows(stats, model, df, ts.value, w, stride);
  }

  /** The re-scoring loop of `predict_windows_with_time` once the times are known. */
  method ScoreAnchoredWindows(stats: Statistics, model: Model, df: Frame, tsec: seq<real>, w: int, stride: int)
    returns (r: Result<seq<WindowResult>>)
    requires WellFormed(df) && |tsec| == df.height && ValidParams(w, stride)
    ensures var a := AnchorWindows(df.height, w, stride);
      InRange(df, a) &&
      (r.Success? ==> AllScored(stats, model, df, tsec, a, r.value)) &&
      (r.Failure? ==> FirstFailure(stats, model, df, a, r.error))
  {
    var n := df.height;
    AnchorWindowsInRange(n, w, stride);
    ghost var all := AnchorWindows(n, w, stride);
    ghost var done: seq<Bounds> := [];
    var rows: seq<WindowResult> := [];
    var idx := 0;
    while true
      invariant all == done + AnchorWindowsFrom(idx, n, w, stride)
      invariant InRange(df, done) && AllScored(stats, model, df, tsec, done, rows)
      decreases |all| - |done|
    {
      if idx * stride >= n {
        AnchorLoopExit(all, done, idx, n, w, stride);
        break;
      }
      // the start `idx * stride`, the end clipped to `n`, a short window moved back
      var b := WindowAt(idx, n, w, stride);
      AnchorLoopStep(all, done, idx, n, w, stride);
      var scored := ScoreNext(stats, model, df, tsec, all, done, AnchorWindowsFrom(idx, n, w, stride), rows, b);
      if scored.Failure? {
        return Failure(scored.error);
      }
      rows := rows + [scored.value];
      done := done + [b];
      idx := idx + 1;
      if b.end >= n {
        break;
      }
    }
    return Success(rows);
  }

  /** One turn of the re-scoring loop: score the next window `b` after the windows
      `done`; a failure there is the first failure of all the windows. */
  method ScoreNext(stats: Statistics, model: Model, df: Frame, tsec: seq<real>, ghost all: seq<Bounds>,
                   ghost done: seq<Bounds>, ghost rest: seq<Bounds>, rows: seq<WindowResult>, b: Bounds)
    returns (r: Result<WindowResult>)
    requires WellFormed(df) && |tsec| == df.height && InRange(df, all) && InRange(df, done)
    requires all == done + rest && |done| < |all| && all[|done|] == b && 0 <= b.start < b.end <= df.height
    requires AllScored(stats, model, df, tsec, done, rows)
    ensures r.Failure? ==> FirstFailure(stats, model, df, all, r.error)
    ensures r.Success? ==> InRange(df, done + [b]) && AllScored(stats, model, df, tsec, done + [b], rows + [r.value])
  {
    r := ScoreWindow(stats, model, df, tsec, b);
    if r.Failure? {
      assert rest[0] == b;
      FirstFailureAfterScored(stats, model, df, tsec, all, done, rest, rows, r.error);
    } else {
      AllScoredAppend(stats, model, df, tsec, done, rows, b, r.value);
    }
  }

  // ---------------------------------------------------------------------------
  // The prediction animation
  // ---------------------------------------------------------------------------

  /** The columns of `{"time", "ax"}` the data lacks, in sorted order. */
  function MissingAnimationColumns(df: Frame): (r: seq<string>)
    ensures "ax" in r <==> "ax" !in df.columns
    ensures "time" in r <==> df.time.None?
    ensures forall x :: x in r ==> x == "ax" || x == "time"
    ensures |r| == 2 ==> r == ["ax", "time"]
  {
    (if "ax" in df.columns then [] else ["ax"]) + (if df.time.Some? then [] else ["time"])
  }

  /** `title` is the caption of the frame that shows window `b`. */
  predicate TitledWindow(stats: Statistics, model: Model, df: Frame, b: Bounds, title: string)
    requires WellFormed(df) && 0 <= b.start < b.end <= df.height
  {
    var p := PredictSegment(stats, model, Slice(df, b.start, b.end));
    p.Success? && title == "result: " + p.value
  }

  /** `update(i)`'s caption for the window it shows. */
  function FrameTitle(stats: Statistics, model: Model, df: Frame, b: Bounds): (r: Result<string>)
    requires WellFormed(df) && 0 <= b.start < b.end <= df.height
    ensures r.Success? ==> TitledWindow(stats, model, df, b, r.value)
    ensures r.Failure? ==> FailsOn(stats, model, df, b, r.error)
  {
    var p := PredictSegment(stats, model, Slice(df, b.start, b.end));
    if p.Failure? then Failure(p.error) else Success("result: " + p.value)
  }

  /** `titles` are the captions `result: <label>` of successful predictions `rs`, in order. */
  predicate CaptionsOf(rs: seq<Result<string>>, titles: seq<string>) {
    |titles| == |rs| && forall i :: 0 <= i < |rs| ==> rs[i].Success? && titles[i] == "result: " + rs[i].value
  }

  /** `titles` are the captions of the frames for the windows `ws`, in order. */
  predicate AllTitled(stats: Statistics, model: Model, df: Frame, ws: seq<Bounds>, titles: seq<string>)
    requires WellFormed(df) && InRange(df, ws)
  {
    CaptionsOf(Outcomes(stats, model, df, ws), titles)
  }

  /** Caption `i` is the caption of the frame showing window `i`. */
  lemma AllTitledAt(stats: Statistics, model: Model, df: Frame, ws: seq<Bounds>, titles: seq<string>, i: int)
    requires WellFormed(df) && InRange(df, ws) && AllTitled(stats, model, df, ws, titles) && 0 <= i < |ws|
    ensures TitledWindow(stats, model, df, ws[i], titles[i])
  {
    OutcomesAt(stats, model, df, ws, i);
  }

  lemma InRangeTail(df: Frame, ws: seq<Bounds>)
    requires InRange(df, ws) && ws != []
    ensures InRange(df, ws[1..])
  {
    forall i | 0 <= i < |ws| - 1 ensures 0 <= ws[1..][i].start < ws[1..][i].end <= df.height {
      assert ws[1..][i] == ws[i + 1];
    }
  }

  lemma AllTitledCons(stats: Statistics, model: Model, df: Frame, ws: seq<Bounds>, title: string, titles: seq<string>)
    requires WellFormed(df) && InRange(df, ws) && ws != []
    requires TitledWindow(stats, model, df, ws[0], title)
    requires InRange(df, ws[1..]) && AllTitled(stats, model, df, ws[1..], titles)
    ensures AllTitled(stats, model, df, ws, [title] + titles)
  {
    var rs := Outcomes(stats, model, df, ws);
    var tail := Outcomes(stats, model, df, ws[1..]);
    OutcomesAt(stats, model, df, ws, 0);
    assert rs == [rs[0]] + tail;
    CaptionsOfCons(rs[0], tail, title, titles);
  }

  /** A caption of a success in front of the captions of the rest. */
  lemma CaptionsOfCons(r0: Result<string>, rs: seq<Result<string>>, title: string, titles: seq<string>)
    requires r0.Success? && title == "result: " + r0.value && CaptionsOf(rs, titles)
    ensures CaptionsOf([r0] + rs, [title] + titles)
  {
    var rs', ts' := [r0] + rs, [title] + titles;
    forall i | 0 <= i < |rs'| ensures rs'[i].Success? && ts'[i] == "result: " + rs'[i].value {
      if i > 0 {
        assert rs'[i] == rs[i - 1] && ts'[i] == titles[i - 1];
      }
    }
  }

  /** A failure at the first window is the first failure. */
  lemma FirstFailureHead(stats: Statistics, model: Model, df: Frame, ws: seq<Bounds>, e: Error)
    requires WellFormed(df) && InRange(df, ws) && ws != []
    requires FailsOn(stats, model, df, ws[0], e)
    ensures FirstFailure(stats, model, df, ws, e)
  {
    OutcomesAt(stats, model, df, ws, 0);
  }

  /** After a first window that is predicted, the first failure of the rest is the first failure. */
  lemma FirstFailureCons(stats: Statistics, model: Model, df: Frame, ws: seq<Bounds>, e: Error)
    requires WellFormed(df) && InRange(df, ws) && ws != [] && InRange(df, ws[1..])
    requires Predicted(stats, model, df, ws[0])
    requires FirstFailure(stats, model, df, ws[1..], e)
    ensures FirstFailure(stats, model, df, ws, e)
  {
    var rs := Outcomes(stats, model, df, ws);
    var tail := Outcomes(stats, model, df, ws[1..]);
    OutcomesAt(stats, model, df, ws, 0);
    assert rs == [rs[0]] + tail;
    FirstFailureInCons(rs[0], tail, e);
  }

  /** A success followed by outcomes whose first failure is `e`: still the first failure `e`. */
  lemma FirstFailureInCons(r0: Result<string>, rs: seq<Result<string>>, e: Error)
    requires r0.Success? && FirstFailureIn(rs, e)
    ensures FirstFailureIn([r0] + rs, e)
  {
    var i :| 0 <= i < |rs| && rs[i] == Failure(e) && forall j :: 0 <= j < i ==> rs[j].Success?;
    var rs' := [r0] + rs;
    assert rs'[i + 1] == rs[i];
    forall j | 0 <= j < i + 1 ensures rs'[j].Success? {
      if j > 0 {
        assert rs'[j] == rs[j - 1];
      }
    }
  }

  /** The captions of the frames in order; the first frame whose prediction fails
      fails the animation. */
  function FrameTitles(stats: Statistics, model: Model, df: Frame, ws: seq<Bounds>): (r: Result<seq<string>>)
    requires WellFormed(df) && InRange(df, ws)
    ensures r.Success? ==> AllTitled(stats, model, df, ws, r.value)
    ensures r.Failure? ==> FirstFailure(stats, model, df, ws, r.error)
  {
    if ws == [] then Success([])
    else
      var first := FrameTitle(stats, model, df, ws[0]);
      if first.Failure? then
        FirstFailureHead(stats, model, df, ws, first.error);
        Failure(first.error)
      else
        InRangeTail(df, ws);
        var rest := FrameTitles(stats, model, df, ws[1..]);
        if rest.Failure? then
          FirstFailureCons(stats, model, df, ws, rest.error);
          Failure(rest.error)
        else
          AllTitledCons(stats, model, df, ws, first.value, rest.value);
          Success([first.value] + rest.value)
  }

  /** `make_prediction_gif` up to the rendering: the captions of its frames, after its
      column check and the empty-data failure of the axis limits. */
  function PredictionAnimation(stats: Statistics, model: Model, df: Frame, w: int, stride: int): (r: Result<seq<string>>)
    requires WellFormed(df) && ValidParams(w, stride)
    ensures MissingAnimationColumns(df) != [] ==> r == Failure(MissingColumns(MissingAnimationColumns(df)))
    ensures MissingAnimationColumns(df) == [] && df.height == 0 ==> r == Failure(EmptySeries)
    ensures MissingAnimationColumns(df) == [] && df.height > 0 ==>
      var ws := FrameWindows(df.height, w, stride);
      InRange(df, ws) &&
      (r.Success? ==> |r.value| == FrameCount(df.height, w, stride) && AllTitled(stats, model, df, ws, r.value)) &&
      (r.Failure? ==> FirstFailure(stats, model, df, ws, r.error))
  {
    var missing := MissingAnimationColumns(df);
    if missing != [] then Failure(MissingColumns(missing))
    else if df.height == 0 then Failure(EmptySeries)
    else
      FrameWindowsInRange(df.height, w, stride);
      FrameTitles(stats, model, df, FrameWindows(df.height, w, stride))
  }
}
