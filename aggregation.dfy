/** The summary the training page shows after re-scoring: the seconds spent in each
    predicted label, each label's share of the total, and the minutes:seconds caption
    of a metric. */
module Aggregation {
  import opened Common
  import opened Decimal
  import opened Tables
  import opened Features
  import opened Segmentation
  import opened Classifier
  import opened Evaluation

  /** One row of the per-label table: a label and its summed `duration_s`. */
  datatype LabelTotal = LabelTotal(name: string, seconds: real)

  // ---------------------------------------------------------------------------
  // Reference sums over the re-scoring rows
  // ---------------------------------------------------------------------------

  /** Seconds of all rows predicted as `lbl`. */
  function DurationOf(rows: seq<WindowResult>, lbl: string): real {
    if rows == [] then 0.0
    else
      var last := rows[|rows| - 1];
      DurationOf(rows[..|rows| - 1], lbl) + (if last.predicted == lbl then last.duration else 0.0)
  }

  /** Seconds of all rows. */
  function TotalDuration(rows: seq<WindowResult>): real {
    if rows == [] then 0.0 else TotalDuration(rows[..|rows| - 1]) + rows[|rows| - 1].duration
  }

  /** The labels that some row predicts. */
  function PredictedLabels(rows: seq<WindowResult>): set<string> {
    if rows == [] then {} else PredictedLabels(rows[..|rows| - 1]) + {rows[|rows| - 1].predicted}
  }

  /** Every row has a non-negative duration, as re-scoring guarantees. */
  predicate NonNegativeDurations(rows: seq<WindowResult>) {
    forall j :: 0 <= j < |rows| ==> rows[j].duration >= 0.0
  }

  /** The rows re-scoring reports have non-negative durations. */
  lemma ScoredDurationsNonNegative(stats: Statistics, model: Model, df: Frame, tsec: seq<real>,
                                   bs: seq<Bounds>, rows: seq<WindowResult>)
    requires WellFormed(df) && |tsec| == df.height && InRange(df, bs)
    requires AllScored(stats, model, df, tsec, bs, rows)
    ensures NonNegativeDurations(rows)
  {
    forall j | 0 <= j < |rows| ensures rows[j].duration >= 0.0 {
      assert ScoredWindow(stats, model, df, tsec, bs[j], rows[j]);
    }
  }

  // ---------------------------------------------------------------------------
  // The grouped table
  // ---------------------------------------------------------------------------

  /** `agg["duration_s"].sum()`. */
  function TotalSeconds(agg: seq<LabelTotal>): real {
    if agg == [] then 0.0 else agg[0].seconds + TotalSeconds(agg[1..])
  }

  /** The labels that have a row. */
  function LabelsOf(agg: seq<LabelTotal>): set<string> {
    if agg == [] then {} else {agg[0].name} + LabelsOf(agg[1..])
  }

  /** Each label has at most one row. */
  predicate DistinctLabels(agg: seq<LabelTotal>) {
    agg != [] ==> agg[0].name !in LabelsOf(agg[1..]) && DistinctLabels(agg[1..])
  }

  /** The seconds `show_metric` reads for `lbl`: those of the first row with that
      label, and 0.0 when there is none. */
  function Lookup(agg: seq<LabelTotal>, lbl: string): real {
    if agg == [] then 0.0
    else if agg[0].name == lbl then agg[0].seconds
    else Lookup(agg[1..], lbl)
  }

  /** Add `d` seconds to `lbl`'s row, opening a row at the end for a new label. */
  function AddDuration(agg: seq<LabelTotal>, lbl: string, d: real): (r: seq<LabelTotal>)
    ensures LabelsOf(r) == LabelsOf(agg) + {lbl}
    ensures DistinctLabels(agg) ==> DistinctLabels(r)
  {
    if agg == [] then [LabelTotal(lbl, d)]
    else if agg[0].name == lbl then [LabelTotal(lbl, agg[0].seconds + d)] + agg[1..]
    else
      var r := [agg[0]] + AddDuration(agg[1..], lbl, d);
      assert r[1..] == AddDuration(agg[1..], lbl, d);
      r
  }

  /** `win_df.groupby("label")["duration_s"].sum()`, one row per label in the order
      the labels first occur. */
  function GroupDurations(rows: seq<WindowResult>): (agg: seq<LabelTotal>)
    ensures DistinctLabels(agg)
    ensures LabelsOf(agg) == PredictedLabels(rows)
  {
    if rows == [] then []
    else
      var init := rows[..|rows| - 1];
      var last := rows[|rows| - 1];
      AddDuration(GroupDurations(init), last.predicted, last.duration)
  }

  lemma {:induction false} AddDurationLookup(agg: seq<LabelTotal>, lbl: string, d: real, other: string)
    ensures Lookup(AddDuration(agg, lbl, d), other) == Lookup(agg, other) + (if other == lbl then d else 0.0)
  {
    if agg != [] && agg[0].name != lbl {
      AddDurationLookup(agg[1..], lbl, d, other);
      assert AddDuration(agg, lbl, d)[1..] == AddDuration(agg[1..], lbl, d);
    }
  }

  lemma {:induction false} AddDurationTotal(agg: seq<LabelTotal>, lbl: string, d: real)
    ensures TotalSeconds(AddDuration(agg, lbl, d)) == TotalSeconds(agg) + d
  {
    if agg != [] {
      var r := AddDuration(agg, lbl, d);
      if agg[0].name == lbl {
        assert r[1..] == agg[1..];
      } else {
        AddDurationTotal(agg[1..], lbl, d);
        assert r[1..] == AddDuration(agg[1..], lbl, d);
      }
    }
  }

  /** Every row of the table holds the seconds of exactly the windows with its label,
      and a label no window has reads as 0.0. */
  lemma {:induction false} GroupDurationsLookup(rows: seq<WindowResult>, lbl: string)
    ensures Lookup(GroupDurations(rows), lbl) == DurationOf(rows, lbl)
  {
    if rows != [] {
      var init := rows[..|rows| - 1];
      var last := rows[|rows| - 1];
      GroupDurationsLookup(init, lbl);
      AddDurationLookup(GroupDurations(init), last.predicted, last.duration, lbl);
    }
  }

  /** The per-label totals add up to the seconds of all windows. */
  lemma {:induction false} GroupDurationsTotal(rows: seq<WindowResult>)
    ensures TotalSeconds(GroupDurations(rows)) == TotalDuration(rows)
  {
    if rows != [] {
      var init := rows[..|rows| - 1];
      var last := rows[|rows| - 1];
      GroupDurationsTotal(init);
      AddDurationTotal(GroupDurations(init), last.predicted, last.duration);
    }
  }

  /** Totals of non-negative durations are non-negative. */
  lemma {:induction false} GroupDurationsNonNegative(rows: seq<WindowResult>)
    requires NonNegativeDurations(rows)
    ensures forall i :: 0 <= i < |GroupDurations(rows)| ==> GroupDurations(rows)[i].seconds >= 0.0
  {
    if rows != [] {
      var init := rows[..|rows| - 1];
      var last := rows[|rows| - 1];
      assert NonNegativeDurations(init) by {
        forall j | 0 <= j < |init| ensures init[j].duration >= 0.0 {
          assert init[j] == rows[j];
        }
      }
      GroupDurationsNonNegative(init);
      AddDurationNonNegative(GroupDurations(init), last.predicted, last.duration);
    }
  }

  lemma {:induction false} AddDurationNonNegative(agg: seq<LabelTotal>, lbl: string, d: real)
    requires d >= 0.0 && forall i :: 0 <= i < |agg| ==> agg[i].seconds >= 0.0
    ensures forall i :: 0 <= i < |AddDuration(agg, lbl, d)| ==> AddDuration(agg, lbl, d)[i].seconds >= 0.0
  {
    if agg != [] && agg[0].name != lbl {
      AddDurationNonNegative(agg[1..], lbl, d);
      assert AddDuration(agg, lbl, d) == [agg[0]] + AddDuration(agg[1..], lbl, d);
    }
  }

  // ---------------------------------------------------------------------------
  // Shares
  // ---------------------------------------------------------------------------

  function SumReals(xs: seq<real>): real {
    if xs == [] then 0.0 else xs[0] + SumReals(xs[1..])
  }

  /** `duration_s / total * 100.0`, row by row. */
  function Scaled(agg: seq<LabelTotal>, total: real): (r: seq<real>)
    requires total > 0.0
    ensures |r| == |agg|
  {
    if agg == [] then [] else [agg[0].seconds / total * 100.0] + Scaled(agg[1..], total)
  }

  /** The `ratio_%` column: each row's percentage of the total, or 0.0 in every row
      when the total is not positive, so that nothing is divided by zero. */
  function Shares(agg: seq<LabelTotal>): (r: seq<real>)
    ensures |r| == |agg|
    ensures TotalSeconds(agg) <= 0.0 ==> forall i :: 0 <= i < |r| ==> r[i] == 0.0
  {
    var total := TotalSeconds(agg);
    if total > 0.0 then Scaled(agg, total) else Zeros(|agg|)
  }

  /** `n` zeros. */
  function Zeros(n: nat): (r: seq<real>)
    ensures |r| == n && forall i :: 0 <= i < n ==> r[i] == 0.0
  {
    if n == 0 then [] else [0.0] + Zeros(n - 1)
  }

  lemma {:induction false} ScaledSum(agg: seq<LabelTotal>, total: real)
    requires total > 0.0
    ensures SumReals(Scaled(agg, total)) == TotalSeconds(agg) / total * 100.0
  {
    if agg != [] {
      ScaledSum(agg[1..], total);
      var a := agg[0].seconds;
      var s := TotalSeconds(agg[1..]);
      assert Scaled(agg, total)[1..] == Scaled(agg[1..], total);
      assert a / total * 100.0 + s / total * 100.0 == (a + s) / total * 100.0;
    }
  }

  /** With a positive total the shares add up to 100. */
  lemma SharesSumTo100(agg: seq<LabelTotal>)
    requires TotalSeconds(agg) > 0.0
    ensures SumReals(Shares(agg)) == 100.0
  {
    var total := TotalSeconds(agg);
    ScaledSum(agg, total);
    assert total / total == 1.0;
  }

  lemma {:induction false} RowBelowTotal(agg: seq<LabelTotal>, i: int)
    requires forall k :: 0 <= k < |agg| ==> agg[k].seconds >= 0.0
    requires 0 <= i < |agg|
    ensures 0.0 <= agg[i].seconds <= TotalSeconds(agg)
  {
    if i > 0 {
      RowBelowTotal(agg[1..], i - 1);
    } else {
      TotalNonNegative(agg[1..]);
    }
  }

  lemma {:induction false} TotalNonNegative(agg: seq<LabelTotal>)
    requires forall k :: 0 <= k < |agg| ==> agg[k].seconds >= 0.0
    ensures TotalSeconds(agg) >= 0.0
  {
    if agg != [] {
      TotalNonNegative(agg[1..]);
    }
  }

  lemma {:induction false} ScaledAt(agg: seq<LabelTotal>, total: real, i: int)
    requires total > 0.0 && 0 <= i < |agg|
    ensures Scaled(agg, total)[i] == agg[i].seconds / total * 100.0
  {
    if i > 0 {
      ScaledAt(agg[1..], total, i - 1);
    }
  }

  /** With a positive total, each row's share is its seconds as a percentage of the total. */
  lemma SharesAt(agg: seq<LabelTotal>, i: int)
    requires TotalSeconds(agg) > 0.0 && 0 <= i < |agg|
    ensures Shares(agg)[i] == agg[i].seconds / TotalSeconds(agg) * 100.0
  {
    var total := TotalSeconds(agg);
    assert Shares(agg)[i] == Scaled(agg, total)[i];
    ScaledAt(agg, total, i);
  }

  /** A part of a positive whole is between 0 and 100 percent of it. */
  lemma PercentOf(part: real, whole: real)
    requires whole > 0.0 && 0.0 <= part <= whole
    ensures 0.0 <= part / whole * 100.0 <= 100.0
  {
    assert part / whole * whole == part;
  }

  /** With non-negative totals every share is a percentage between 0 and 100. */
  lemma SharesBounded(agg: seq<LabelTotal>)
    requires forall k :: 0 <= k < |agg| ==> agg[k].seconds >= 0.0
    ensures forall i :: 0 <= i < |agg| ==> 0.0 <= Shares(agg)[i] <= 100.0
  {
    var total := TotalSeconds(agg);
    forall i | 0 <= i < |agg| ensures 0.0 <= Shares(agg)[i] <= 100.0 {
      if total > 0.0 {
        ScaledAt(agg, total, i);
        RowBelowTotal(agg, i);
        PercentOf(agg[i].seconds, total);
      }
    }
  }

  // ---------------------------------------------------------------------------
  // fmt_hms
  // ---------------------------------------------------------------------------

  /** Python's `round` to an integer: the nearest integer, ties to the even one. */
  function RoundHalfEven(x: real): (r: int)
    ensures x - 0.5 <= r as real <= x + 0.5
    ensures (r as real - x == 0.5 || x - r as real == 0.5) ==> r % 2 == 0
  {
    var f := x.Floor;
    var frac := x - f as real;
    if frac < 0.5 then f
    else if frac > 0.5 then f + 1
    else if f % 2 == 0 then f
    else f + 1
  }

  /** No integer is nearer to `x` than its rounding. */
  lemma RoundIsNearest(x: real, k: int)
    ensures var r := RoundHalfEven(x);
      (if r as real >= x then r as real - x else x - r as real) <=
      (if k as real >= x then k as real - x else x - k as real)
  {
    var r := RoundHalfEven(x);
    if k < r {
      assert k as real <= r as real - 1.0;
    } else if k > r {
      assert k as real >= r as real + 1.0;
    }
  }

  /** `fmt_hms`: the rounded seconds split by floor division into minutes and seconds,
      each zero-padded to two digits. */
  function FmtHms(sec: real): (t: string)
    ensures |t| >= 5 && t[|t| - 3] == ':'
    ensures 0 <= RoundHalfEven(sec) < 6000 ==> |t| == 5
  {
    var r := RoundHalfEven(sec);
    Pad2(r / 60) + ":" + Pad2(r % 60)
  }

  /** Reads a caption back: minutes before the colon, two digits of seconds after. */
  function ParseHms(t: string): int
    requires |t| >= 5 && t[|t| - 3] == ':'
    requires t[0] == '-' || IsDigit(t[0])
    requires forall k :: 1 <= k < |t| - 3 ==> IsDigit(t[k])
    requires IsDigit(t[|t| - 2]) && IsDigit(t[|t| - 1])
  {
    ParseInt(t[..|t| - 3]) * 60 + ParseInt(t[|t| - 2..])
  }

  /** The caption determines the rounded seconds: minutes times 60 plus seconds, with
      the seconds part below 60. */
  lemma HmsRoundTrip(sec: real)
    ensures var t := FmtHms(sec);
      (t[0] == '-' || IsDigit(t[0])) &&
      (forall k :: 1 <= k < |t| - 3 ==> IsDigit(t[k])) &&
      IsDigit(t[|t| - 2]) && IsDigit(t[|t| - 1]) &&
      ParseHms(t) == RoundHalfEven(sec) &&
      0 <= ParseInt(t[|t| - 2..]) < 60
  {
    var r := RoundHalfEven(sec);
    var t := FmtHms(sec);
    var m := Pad2(r / 60);
    var s := Pad2(r % 60);
    assert t == m + ":" + s;
    assert t[..|t| - 3] == m;
    assert t[|t| - 2..] == s;
    ParsePad2(r / 60);
    ParsePad2(r % 60);
  }
}
