/** The tabular input the pages read from Excel files: numeric columns by name, an
    optional `time` column and an optional integer `class` column, all of one height. */
module Tables {
  import opened Common

  /** A `time` column is either numeric seconds or text that `pd.to_datetime` parses;
      each parsed entry is its instant in seconds, `None` where parsing failed. */
  datatype TimeColumn = Numeric(secs: seq<real>) | Stamps(parsed: seq<Option<real>>)

  datatype Frame = Frame(
    columns: map<string, seq<real>>,
    time: Option<TimeColumn>,
    classes: Option<seq<int>>,
    height: nat)

  function TimeLength(t: TimeColumn): nat {
    match t
    case Numeric(xs) => |xs|
    case Stamps(ps) => |ps|
  }

  /** Every column has `height` entries, as in any data frame; the `time` and `class`
      columns are held only in their own fields. */
  predicate WellFormed(f: Frame) {
    && "time" !in f.columns && "class" !in f.columns
    && (forall c :: c in f.columns ==> |f.columns[c]| == f.height)
    && (f.time.Some? ==> TimeLength(f.time.value) == f.height)
    && (f.classes.Some? ==> |f.classes.value| == f.height)
  }

  /** `df.iloc[s:e]` for in-range bounds: rows `s` up to but excluding `e` of every column. */
  function Slice(f: Frame, s: nat, e: nat): (r: Frame)
    requires WellFormed(f) && s <= e <= f.height
    ensures WellFormed(r) && r.height == e - s
    ensures r.columns.Keys == f.columns.Keys && r.classes.Some? == f.classes.Some?
    ensures forall c :: c in f.columns ==> r.columns[c] == f.columns[c][s..e]
    ensures f.classes.Some? ==> r.classes == Some(f.classes.value[s..e])
    ensures f.time.Some? && f.time.value.Numeric? ==> r.time == Some(Numeric(f.time.value.secs[s..e]))
    ensures f.time.Some? && f.time.value.Stamps? ==> r.time == Some(Stamps(f.time.value.parsed[s..e]))
    ensures f.time.None? ==> r.time.None?
  {
    Frame(
      map c | c in f.columns :: f.columns[c][s..e],
      match f.time
        case None => None
        case Some(Numeric(xs)) => Some(Numeric(xs[s..e]))
        case Some(Stamps(ps)) => Some(Stamps(ps[s..e])),
      match f.classes
        case None => None
        case Some(cs) => Some(cs[s..e]),
      e - s)
  }

  /** The per-sample seconds `tsec`: numeric times as they are; parsed date-times as
      seconds elapsed since the first sample; and, when any entry fails to parse, the
      sample index (one second per sample). An empty date-time column fails, because
      its first entry is looked up. */
  function TimeSeconds(t: TimeColumn): (r: Result<seq<real>>)
    ensures r.Success? ==> |r.value| == TimeLength(t)
    ensures r.Failure? <==> t.Stamps? && t.parsed == []
    ensures t.Numeric? ==> r == Success(t.secs)
    ensures t.Stamps? && (exists i :: 0 <= i < |t.parsed| && t.parsed[i].None?) ==>
      forall i :: 0 <= i < |r.value| ==> r.value[i] == i as real
    ensures t.Stamps? && r.Success? && (forall i :: 0 <= i < |t.parsed| ==> t.parsed[i].Some?) ==>
      r.value[0] == 0.0 &&
      forall i :: 0 <= i < |r.value| ==> r.value[i] == t.parsed[i].value - t.parsed[0].value
  {
    match t
    case Numeric(xs) => Success(xs)
    case Stamps(ps) =>
      if exists i :: 0 <= i < |ps| && ps[i].None? then
        Success(seq(|ps|, i => i as real))
      else if ps == [] then
        Failure(EmptySeries)
      else
        Success(seq(|ps|, i requires 0 <= i < |ps| => ps[i].value - ps[0].value))
  }
}
