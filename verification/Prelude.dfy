/** Failure-carrying results shared by every component of the model. */
module Prelude {

  datatype Option<+T> = None | Some(value: T)

  /** The failure cases that calls of the Usage plugin can end in. */
  datatype Error =
    | InvalidUsage
    | InvalidUsageResult
    | InvalidCorrection
    | DecimalOverflow
    | InexactArithmetic
    | DimensionViolation
    | InactiveMeter
    | UnknownMeter
    | UnitMismatch
    | UsageConflict
    | CheckpointConflict
    | ClaimUnavailable

  datatype Result<+T> = Ok(value: T) | Err(error: Error) {

    predicate IsFailure() {
      Err?
    }

    function PropagateFailure<U>(): Result<U>
      requires Err?
    {
      Err(error)
    }

    function Extract(): T
      requires Ok?
    {
      value
    }
  }

  function Min(a: int, b: int): int {
    if a <= b then a else b
  }

  function Max(a: int, b: int): int {
    if a >= b then a else b
  }

  function Abs(a: int): nat {
    if a < 0 then -a else a
  }

  /** What a loop has built so far, followed by the result of the rest. */
  function Prepend<T>(xs: seq<T>, r: Result<seq<T>>): Result<seq<T>> {
    match r
    case Ok(ys) => Ok(xs + ys)
    case Err(e) => Err(e)
  }

  lemma PrependNothing<T>(r: Result<seq<T>>)
    ensures Prepend([], r) == r
  {
    if r.Ok? {
      assert [] + r.value == r.value;
    }
  }

  lemma PrependStep<T>(xs: seq<T>, x: T, r: Result<seq<T>>)
    ensures Prepend(xs, Prepend([x], r)) == Prepend(xs + [x], r)
  {
    if r.Ok? {
      assert xs + ([x] + r.value) == (xs + [x]) + r.value;
    }
  }

  lemma PrependEnd<T>(xs: seq<T>)
    ensures Prepend(xs, Ok([])) == Ok(xs)
  {
    assert xs + [] == xs;
  }
}
