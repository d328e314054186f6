/** Shared result types and the error conditions the pipeline raises. */
module Common {

  datatype Option<+T> = None | Some(value: T) {
    function GetOr(default: T): T {
      match this
      case Some(v) => v
      case None => default
    }
  }

  /** The ways a call into the pipeline fails; each stands for one `raise` (or one
      lower-level exception) of the source. */
  datatype Error =
    | MissingColumn(name: string)          // a required column is absent
    | MissingColumns(names: seq<string>)   // several required columns, listed sorted
    | NoWindow                             // not a single window fits the data
    | EmptySeries                          // a reduction over zero samples
    | PredictionFailed                     // the classifier raised
    | MissingBuffer(key: string)           // a sensor buffer name the layout does not have
    | LengthMismatch                       // table columns of unequal lengths
    | UnknownTallyKey(key: string)         // a label the tally has no entry for

  datatype Result<+T> = Success(value: T) | Failure(error: Error)

  function Min(a: int, b: int): int { if a <= b then a else b }
  function Max(a: int, b: int): int { if a >= b then a else b }
  function MaxReal(a: real, b: real): real { if a >= b then a else b }
}
