/** The classifier adapter of the training page: the schema check of training, the
    ordering of confusion-matrix labels, and prediction on one window. The learner
    itself is opaque: a model is whatever maps a feature row to a class code, or
    raises (`None`). */
module Classifier {
  import opened Common
  import opened Tables
  import opened Features
  import opened Labels

  type Model = map<string, real> -> Option<int>

  /** A feature table has a `class` column when some row carries a majority class. */
  predicate HasClassColumn(rows: seq<FeatureRow>) {
    exists i :: 0 <= i < |rows| && rows[i].majorityClass.Some?
  }

  /** The `class` column `y`: the classes of the rows that carry one, in row order. */
  function ClassColumn(rows: seq<FeatureRow>): (y: seq<int>)
    ensures forall c :: c in y <==> exists i :: 0 <= i < |rows| && rows[i].majorityClass == Some(c)
  {
    if rows == [] then []
    else
      var last := rows[|rows| - 1];
      var y := ClassColumn(rows[..|rows| - 1]);
      assert forall i :: 0 <= i < |rows| - 1 ==> rows[..|rows| - 1][i] == rows[i];
      if last.majorityClass.Some? then y + [last.majorityClass.value] else y
  }

  /** What training reports besides the fitted model and its accuracy: the class
      codes the confusion matrix is indexed by, and the names displayed for them. */
  datatype Evaluation = Evaluation(codes: seq<int>, displayLabels: seq<string>)

  /** `train_and_evaluate` without the learner: no `class` column is an error;
      otherwise the matrix is indexed by the sorted distinct classes of the whole
      table, each shown by its display name. */
  function TrainAndEvaluate(rows: seq<FeatureRow>): (r: Result<Evaluation>)
    ensures r.Failure? <==> !HasClassColumn(rows)
    ensures r.Failure? ==> r.error == MissingColumn("class")
    ensures r.Success? ==>
      var e := r.value;
      |e.codes| == |e.displayLabels| && StrictlyIncreasing(e.codes) &&
      (forall c :: c in e.codes <==> exists i :: 0 <= i < |rows| && rows[i].majorityClass == Some(c)) &&
      (forall i :: 0 <= i < |e.codes| ==> e.displayLabels[i] == DisplayName(e.codes[i]))
  {
    if !HasClassColumn(rows) then Failure(MissingColumn("class"))
    else
      var y := ClassColumn(rows);
      Success(Evaluation(SortedDistinct(y), ConfusionLabels(y)))
  }

  /** `predict_segment`: extract the features (failing as the extractor fails), drop
      the `class` entry, predict, and show the code by its display name. */
  function PredictSegment(stats: Statistics, model: Model, seg: Frame): (r: Result<string>)
    requires WellFormed(seg)
    ensures r.Failure? <==>
      (exists c :: c in CHANNELS && c !in seg.columns) ||
      model(ChannelFeatures(stats, ChannelColumns(seg))).None?
    ensures (exists c :: c in CHANNELS && c !in seg.columns) ==>
      r == Failure(MissingColumn(FirstAbsent(CHANNELS, seg.columns.Keys).value))
    ensures ((forall c :: c in CHANNELS ==> c in seg.columns) &&
      model(ChannelFeatures(stats, ChannelColumns(seg))).None?) ==> r == Failure(PredictionFailed)
    ensures r.Success? ==> exists code :: (model(ChannelFeatures(stats, ChannelColumns(seg))) == Some(code) &&
      r.value == DisplayName(code))
  {
    match ExtractFeatures(stats, seg)
    case Failure(e) => Failure(e)
    case Success(row) =>
      match model(row.values)
      case None => Failure(PredictionFailed)
      case Some(code) => Success(DisplayName(code))
  }
}
