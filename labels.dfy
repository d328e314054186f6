/** Class codes and their display names, as the training page shows them. */
module Labels {
  import opened Decimal

  const STOP: string := "Stop"
  const DISTRACTED: string := "Distracted\nWalking"
  const NOT_DISTRACTED: string := "Not Distracted\nWalking"

  /** The `LABEL_NAMES` lookup: a name for codes 0, 1 and 2 only. */
  function LabelName(code: int): (r: string)
    requires 0 <= code <= 2
    ensures (r == STOP <==> code == 0) && (r == DISTRACTED <==> code == 1) && (r == NOT_DISTRACTED <==> code == 2)
  {
    if code == 0 then STOP else if code == 1 then DISTRACTED else NOT_DISTRACTED
  }

  /** `LABEL_NAMES.get(code, str(code))`: the table's name, or the code's decimal text. */
  function DisplayName(code: int): (r: string)
    ensures 0 <= code <= 2 ==> r == LabelName(code)
    ensures !(0 <= code <= 2) ==> r == IntToString(code)
  {
    if 0 <= code <= 2 then LabelName(code) else IntToString(code)
  }

  /** Different codes are never shown under the same name: a fallback code string
      starts with a digit or '-', a table name with a letter. */
  lemma DisplayNameInjective(a: int, b: int)
    ensures DisplayName(a) == DisplayName(b) <==> a == b
  {
    if !(0 <= a <= 2) && !(0 <= b <= 2) {
      IntToStringInjective(a, b);
    }
  }

  predicate StrictlyIncreasing(s: seq<int>) {
    forall i, j :: 0 <= i < j < |s| ==> s[i] < s[j]
  }

  /** Inserts `x` into an ascending duplicate-free sequence unless it is already there. */
  function InsertSorted(s: seq<int>, x: int): (r: seq<int>)
    requires StrictlyIncreasing(s)
    ensures StrictlyIncreasing(r)
    ensures forall y :: y in r <==> y in s || y == x
  {
    if s == [] then [x]
    else if x < s[0] then [x] + s
    else if x == s[0] then s
    else
      var t := InsertSorted(s[1..], x);
      assert forall k :: 0 <= k < |t| ==> s[0] < t[k] by {
        forall k | 0 <= k < |t| ensures s[0] < t[k] {
          assert t[k] in t;
          if t[k] != x {
            var j :| 0 <= j < |s[1..]| && s[1..][j] == t[k];
            assert s[1..][j] == s[j + 1];
          }
        }
      }
      [s[0]] + t
  }

  /** `sorted(pd.unique(y))`: the distinct codes of `y` in ascending order. */
  function SortedDistinct(y: seq<int>): (r: seq<int>)
    ensures StrictlyIncreasing(r)
    ensures forall x :: x in r <==> x in y
  {
    if y == [] then [] else InsertSorted(SortedDistinct(y[..|y| - 1]), y[|y| - 1])
  }

  /** The display labels of a confusion matrix over the codes in `y`. */
  function ConfusionLabels(y: seq<int>): (r: seq<string>)
    ensures |r| == |SortedDistinct(y)|
  {
    var codes := SortedDistinct(y);
    seq(|codes|, i requires 0 <= i < |codes| => DisplayName(codes[i]))
  }

  /** Row/column `i` of the confusion matrix is labelled with the name of the `i`-th
      smallest code present in `y`; every label appears once, and each code present
      in `y` has its label. */
  lemma ConfusionLabelsOrdered(y: seq<int>)
    ensures var codes := SortedDistinct(y); var r := ConfusionLabels(y);
      (forall i :: 0 <= i < |r| ==> r[i] == DisplayName(codes[i]) && codes[i] in y) &&
      (forall i, j :: 0 <= i < j < |r| ==> codes[i] < codes[j] && r[i] != r[j]) &&
      (forall c :: c in y ==> DisplayName(c) in r)
  {
    var codes := SortedDistinct(y);
    var r := ConfusionLabels(y);
    forall i, j | 0 <= i < j < |r| ensures r[i] != r[j] {
      DisplayNameInjective(codes[i], codes[j]);
    }
    forall c | c in y ensures DisplayName(c) in r {
      var i :| 0 <= i < |codes| && codes[i] == c;
      assert r[i] == DisplayName(c);
    }
  }
}
