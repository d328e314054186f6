/** The training page's segmentation: slide a window over the recorded data, drop
    the remainder, and turn each window into a feature row. */
module Training {
  import opened Common
  import opened Tables
  import opened Features
  import opened Segmentation
  import opened Classifier

  /** Extraction fails on a window exactly when it fails on the whole frame: slicing keeps the columns. */
  lemma ExtractOnSlice(stats: Statistics, df: Frame, s: nat, e: nat)
    requires WellFormed(df) && s <= e <= df.height
    ensures var r := ExtractFeatures(stats, Slice(df, s, e));
      (r.Failure? <==> exists c :: c in CHANNELS && c !in df.columns) &&
      (r.Failure? ==> r.error == MissingColumn(FirstAbsent(CHANNELS, df.columns.Keys).value))
  {
    assert Slice(df, s, e).columns.Keys == df.columns.Keys;
  }

  /** `row` is the feature row of the window of `w` samples from `start`. */
  predicate WindowRow(stats: Statistics, df: Frame, start: int, w: int, row: FeatureRow)
    requires WellFormed(df) && 0 <= start && 0 <= w && start + w <= df.height
  {
    ExtractFeatures(stats, Slice(df, start, start + w)) == Success(row)
  }

  /** The rows a completed loop built are those of the windows at multiples of `stride`. */
  lemma RowsAtMultiples(stats: Statistics, df: Frame, w: int, stride: int, starts: seq<int>, rows: seq<FeatureRow>)
    requires WellFormed(df) && ValidParams(w, stride)
    requires starts == DropStarts(df.height, w, stride) && |rows| == |starts| > 0
    requires forall j :: 0 <= j < |starts| ==> 0 <= starts[j] && starts[j] + w <= df.height
    requires forall j :: 0 <= j < |rows| ==>
      WindowRow(stats, df, starts[j], w, rows[j])
    ensures df.height >= w && forall c :: c in CHANNELS ==> c in df.columns
    ensures |rows| == FiniteWindowCount(df.height, w, stride) &&
      forall i :: 0 <= i < |rows| ==>
        0 <= i * stride && i * stride + w <= df.height &&
        WindowRow(stats, df, i * stride, w, rows[i])
  {
    DropStartsShape(df.height, w, stride);
    ExtractOnSlice(stats, df, starts[0], starts[0] + w);
    forall i | 0 <= i < |rows|
      ensures 0 <= i * stride && i * stride + w <= df.height
      ensures WindowRow(stats, df, i * stride, w, rows[i])
    {
      assert starts[i] == i * stride;
    }
  }

  /** The loop body of `segment_and_extract`: the feature row of one window, or the
      missing channel. */
  method ExtractWindow(stats: Statistics, df: Frame, start: int, w: int) returns (r: Result<FeatureRow>)
    requires WellFormed(df) && 0 <= start && 0 <= w && start + w <= df.height
    ensures r.Success? ==> WindowRow(stats, df, start, w, r.value)
    ensures r.Failure? <==> exists c :: c in CHANNELS && c !in df.columns
    ensures r.Failure? ==> r.error == MissingColumn(FirstAbsent(CHANNELS, df.columns.Keys).value)
  {
    ExtractOnSlice(stats, df, start, start + w);
    r := ExtractFeatures(stats, Slice(df, start, start + w));
  }

  /** `segment_and_extract`: one feature row per window `[i * stride, i * stride + w)`
      that fits in the data; no window at all is an error, and so is a missing
      channel (reported by the first window's extraction). */
  method SegmentAndExtract(stats: Statistics, df: Frame, w: int, stride: int)
    returns (r: Result<seq<FeatureRow>>)
    requires WellFormed(df) && ValidParams(w, stride)
    ensures df.height < w ==> r == Failure(NoWindow)
    ensures df.height >= w ==>
      (r.Failure? <==> exists c :: c in CHANNELS && c !in df.columns)
    ensures df.height >= w && r.Failure? ==>
      r.error == MissingColumn(FirstAbsent(CHANNELS, df.columns.Keys).value)
    ensures r.Success? ==>
      |r.value| == FiniteWindowCount(df.height, w, stride) &&
      forall i :: 0 <= i < |r.value| ==>
        0 <= i * stride && i * stride + w <= df.height &&
        WindowRow(stats, df, i * stride, w, r.value[i])
  {
    var rows: seq<FeatureRow> := [];
    var n := df.height;
    var starts := Range(0, Max(n - w + 1, 0), stride);
    DropStartsShape(n, w, stride);
    for k := 0 to |starts|
      invariant |rows| == k
      invariant forall j :: 0 <= j < k ==>
        WindowRow(stats, df, starts[j], w, rows[j])
    {
      var features := ExtractWindow(stats, df, starts[k], w);
      if features.Failure? {
        return Failure(features.error);
      }
      rows := rows + [features.value];
    }
    if rows == [] {
      return Failure(NoWindow);
    }
    RowsAtMultiples(stats, df, w, stride, starts, rows);
    return Success(rows);
  }

  /** Every row of a segmentation carries a majority class exactly when the data has
      a `class` column, so the table handed to training has that column for all its
      rows or for none. */
  lemma SegmentRowsUniformlyLabelled(stats: Statistics, df: Frame, w: int, stride: int, rows: seq<FeatureRow>)
    requires WellFormed(df) && ValidParams(w, stride) && df.height >= w
    requires |rows| == FiniteWindowCount(df.height, w, stride)
    requires forall i :: 0 <= i < |rows| ==>
      0 <= i * stride && i * stride + w <= df.height &&
      WindowRow(stats, df, i * stride, w, rows[i])
    ensures forall i :: 0 <= i < |rows| ==> (rows[i].majorityClass.Some? <==> df.classes.Some?)
    ensures HasClassColumn(rows) <==> df.classes.Some?
  {
    assert rows[0].majorityClass.Some? <==> df.classes.Some?;
  }
}
