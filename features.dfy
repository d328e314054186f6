/** The feature extractor: eleven statistics of each of the six motion channels, plus
    the majority `class` of the window when the data carries one. The statistics
    themselves are library calls and enter the model as a parameter. */
module Features {
  import opened Common
  import opened Tables

  /** `FEATURE_COLS`: linear acceleration x/y/z, then angular velocity x/y/z. */
  const CHANNELS: seq<string> := ["ax", "ay", "az", "wx", "wy", "wz"]

  /** The feature-name suffixes, in the order the extractor adds them per channel. */
  const SUFFIXES: seq<string> :=
    ["mean", "std", "min", "max", "median", "range", "q1", "q3", "skew", "kurt", "iqr"]

  /** The library statistics; `range` is not one of them, it is `max - min`. */
  datatype Statistic = Mean | Std | Minimum | Maximum | Median | Q1 | Q3 | Skew | Kurt | Iqr

  /** How a statistic evaluates on one channel's samples. */
  type Statistics = (Statistic, seq<real>) -> real

  function FeatureName(c: nat, k: nat): string
    requires c < |CHANNELS| && k < |SUFFIXES|
  {
    CHANNELS[c] + "_" + SUFFIXES[k]
  }

  /** The 66 feature names in the extractor's order: channel by channel, suffix by suffix. */
  function FeatureNames(): (r: seq<string>)
    ensures |r| == |CHANNELS| * |SUFFIXES| == 66
  {
    seq(66, i requires 0 <= i < 66 => FeatureName(i / 11, i % 11))
  }

  /** Feature `k` of channel `c` sits at position `11 * c + k`. */
  lemma FeatureNamesAt()
    ensures forall c, k :: 0 <= c < 6 && 0 <= k < 11 ==> FeatureNames()[11 * c + k] == FeatureName(c, k)
  {
    forall c, k | 0 <= c < 6 && 0 <= k < 11 ensures FeatureNames()[11 * c + k] == FeatureName(c, k) {
      assert (11 * c + k) / 11 == c && (11 * c + k) % 11 == k;
    }
  }

  /** A feature name determines its channel and its statistic. */
  lemma FeatureNameInjective(c: nat, k: nat, c': nat, k': nat)
    requires c < 6 && k < 11 && c' < 6 && k' < 11
    ensures FeatureName(c, k) == FeatureName(c', k') ==> c == c' && k == k'
  {
    var a, b := FeatureName(c, k), FeatureName(c', k');
    assert a[..2] == CHANNELS[c] && a[3..] == SUFFIXES[k];
    assert b[..2] == CHANNELS[c'] && b[3..] == SUFFIXES[k'];
  }

  lemma {:induction false} DistinctCard(s: seq<string>)
    requires forall i, j :: 0 <= i < j < |s| ==> s[i] != s[j]
    ensures |set x | x in s| == |s|
  {
    if s != [] {
      var t := s[..|s| - 1];
      DistinctCard(t);
      assert (set x | x in s) == (set x | x in t) + {s[|s| - 1]};
      assert s[|s| - 1] !in (set x | x in t);
    }
  }

  lemma FeatureNamesDistinct()
    ensures forall i, j :: 0 <= i < 66 && 0 <= j < 66 && i != j ==> FeatureNames()[i] != FeatureNames()[j]
  {
    var names := FeatureNames();
    forall i, j | 0 <= i < 66 && 0 <= j < 66 && i != j ensures names[i] != names[j] {
      FeatureNameInjective(i / 11, i % 11, j / 11, j % 11);
    }
  }

  /** The extractor yields exactly 66 distinct feature names. */
  lemma FeatureNameCount()
    ensures |set x | x in FeatureNames()| == 66
  {
    FeatureNamesDistinct();
    DistinctCard(FeatureNames());
  }

  /** The value of suffix `k` on one channel's samples. */
  function FeatureValue(stats: Statistics, k: nat, xs: seq<real>): real
    requires k < |SUFFIXES|
  {
    match k
    case 0 => stats(Mean, xs)
    case 1 => stats(Std, xs)
    case 2 => stats(Minimum, xs)
    case 3 => stats(Maximum, xs)
    case 4 => stats(Median, xs)
    case 5 => stats(Maximum, xs) - stats(Minimum, xs)
    case 6 => stats(Q1, xs)
    case 7 => stats(Q3, xs)
    case 8 => stats(Skew, xs)
    case 9 => stats(Kurt, xs)
    case _ => stats(Iqr, xs)
  }

  /** The channel statistics of a window whose six channels are `cols`, in `CHANNELS` order. */
  function ChannelFeatures(stats: Statistics, cols: seq<seq<real>>): (m: map<string, real>)
    requires |cols| == |CHANNELS|
    ensures m.Keys == set x | x in FeatureNames()
    ensures forall i :: 0 <= i < 66 ==> m[FeatureNames()[i]] == FeatureValue(stats, i % 11, cols[i / 11])
  {
    var names := FeatureNames();
    FeatureNamesDistinct();
    map i | 0 <= i < 66 :: names[i] := FeatureValue(stats, i % 11, cols[i / 11])
  }

  /** Feature `<channel>_<suffix>` is that suffix's statistic of that channel. */
  lemma ChannelFeatureAt(stats: Statistics, cols: seq<seq<real>>, c: nat, k: nat)
    requires |cols| == |CHANNELS| && c < 6 && k < 11
    ensures var m := ChannelFeatures(stats, cols);
      FeatureName(c, k) in m && m[FeatureName(c, k)] == FeatureValue(stats, k, cols[c])
  {
    var i := 11 * c + k;
    FeatureNamesAt();
    SplitIndex(c, k);
    var m := ChannelFeatures(stats, cols);
    assert FeatureNames()[i] == FeatureName(c, k);
    assert FeatureNames()[i] in m;
    assert m[FeatureNames()[i]] == FeatureValue(stats, i % 11, cols[i / 11]);
  }

  /** Position `11 * c + k` of the feature table is channel `c`, statistic `k`. */
  lemma SplitIndex(c: nat, k: nat)
    requires k < 11
    ensures (11 * c + k) / 11 == c && (11 * c + k) % 11 == k
  {
  }

  /** Each channel's `range` feature is its `max` feature minus its `min` feature. */
  lemma RangeIsMaxMinusMin(stats: Statistics, cols: seq<seq<real>>, c: nat)
    requires |cols| == |CHANNELS| && c < 6
    ensures var m := ChannelFeatures(stats, cols);
      FeatureName(c, 5) in m && FeatureName(c, 3) in m && FeatureName(c, 2) in m &&
      m[FeatureName(c, 5)] == m[FeatureName(c, 3)] - m[FeatureName(c, 2)]
  {
    ChannelFeatureAt(stats, cols, c, 5);
    ChannelFeatureAt(stats, cols, c, 3);
    ChannelFeatureAt(stats, cols, c, 2);
  }

  /** The most frequent value among `xs` (counted in `m`), the smallest one on ties. */
  function ModeAmong(m: multiset<int>, xs: seq<int>): (r: int)
    requires |xs| > 0
    ensures r in xs
    ensures forall x :: x in xs ==> m[x] < m[r] || (m[x] == m[r] && r <= x)
  {
    if |xs| == 1 then xs[0]
    else
      var best := ModeAmong(m, xs[1..]);
      if m[xs[0]] > m[best] || (m[xs[0]] == m[best] && xs[0] < best) then xs[0] else best
  }

  /** `segment["class"].mode().iloc[0]`: the modes come sorted, so the first is the smallest. */
  function Majority(cs: seq<int>): (r: int)
    requires |cs| > 0
    ensures r in cs
    ensures forall x :: x in cs ==> multiset(cs)[x] <= multiset(cs)[r]
    ensures forall x :: x in cs && multiset(cs)[x] == multiset(cs)[r] ==> r <= x
  {
    ModeAmong(multiset(cs), cs)
  }

  /** The first of `names` that is not in `present`, if any. */
  function FirstAbsent(names: seq<string>, present: set<string>): (r: Option<string>)
    ensures r.None? <==> forall n :: n in names ==> n in present
    ensures r.Some? ==> r.value in names && r.value !in present
    ensures r.Some? ==> exists i :: (0 <= i < |names| && names[i] == r.value &&
      forall j :: 0 <= j < i ==> names[j] in present)
  {
    if names == [] then None
    else if names[0] !in present then Some(names[0])
    else
      var rest := FirstAbsent(names[1..], present);
      if rest.Some? then
        var i :| 0 <= i < |names[1..]| && names[1..][i] == rest.value &&
          forall j :: 0 <= j < i ==> names[1..][j] in present;
        assert names[i + 1] == rest.value;
        rest
      else
        assert forall n :: n in names ==> n == names[0] || n in names[1..];
        rest
  }

  /** One row of a feature table: the 66 statistics and, when the window had a
      `class` column, its majority class. */
  datatype FeatureRow = FeatureRow(values: map<string, real>, majorityClass: Option<int>)

  /** The six channel columns of a frame that has them all. */
  function ChannelColumns(f: Frame): (cols: seq<seq<real>>)
    requires forall c :: c in CHANNELS ==> c in f.columns
    ensures |cols| == |CHANNELS|
  {
    seq(6, i requires 0 <= i < 6 => f.columns[CHANNELS[i]])
  }

  /** `extract_features_from_segment` of the training page: a missing channel is an
      error naming the first one missing; otherwise the channel statistics, and the
      majority class when a non-empty `class` column is present. */
  function ExtractFeatures(stats: Statistics, seg: Frame): (r: Result<FeatureRow>)
    requires WellFormed(seg)
    ensures r.Failure? <==> exists c :: c in CHANNELS && c !in seg.columns
    ensures r.Failure? ==> (r.error.MissingColumn? && r.error.name in CHANNELS &&
      r.error.name !in seg.columns && r.error == MissingColumn(FirstAbsent(CHANNELS, seg.columns.Keys).value))
    ensures r.Success? ==> r.value.values.Keys == set x | x in FeatureNames()
    ensures r.Success? ==> r.value.values == ChannelFeatures(stats, ChannelColumns(seg))
    ensures r.Success? ==> (r.value.majorityClass.Some? <==> seg.classes.Some? && seg.height > 0)
    ensures r.Success? && r.value.majorityClass.Some? ==>
      var cs := seg.classes.value;
      r.value.majorityClass.value in cs &&
      (forall x :: x in cs ==> multiset(cs)[x] <= multiset(cs)[r.value.majorityClass.value])
    ensures r.Success? && r.value.majorityClass.Some? ==>
      r.value.majorityClass == Some(Majority(seg.classes.value))
  {
    match FirstAbsent(CHANNELS, seg.columns.Keys)
    case Some(c) => Failure(MissingColumn(c))
    case None =>
      var values := ChannelFeatures(stats, ChannelColumns(seg));
      var majority := if seg.classes.Some? && seg.height > 0 then Some(Majority(seg.classes.value)) else None;
      Success(FeatureRow(values, majority))
  }

  /** With every channel present, feature `<channel>_<suffix>` of a window is that
      suffix's statistic of the window's samples of that channel. */
  lemma ExtractFeaturesAt(stats: Statistics, seg: Frame, c: nat, k: nat)
    requires WellFormed(seg) && (forall n :: n in CHANNELS ==> n in seg.columns) && c < 6 && k < 11
    ensures var r := ExtractFeatures(stats, seg);
      r.Success? && FeatureName(c, k) in r.value.values &&
      r.value.values[FeatureName(c, k)] == FeatureValue(stats, k, seg.columns[CHANNELS[c]])
  {
    ChannelFeatureAt(stats, ChannelColumns(seg), c, k);
  }
}
