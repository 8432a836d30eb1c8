/** Values that may be absent (Java's null) and the three ways a step of an
    experiment can end abnormally: a whole-run abort, an inner abort, or an
    ordinary Java exception. */
module Outcomes {

  /** Some(v) is a present value, None is Java's null. */
  datatype Option<+T> = None | Some(value: T)

  /** The two intentional abort signals: Whole ends the run, Inner ends only
      the current loop iteration or concurrent branch. */
  datatype Severity = Inner | Whole

  /** The ordinary Java exceptions the modelled code can raise. */
  datatype Fault =
    | NullPointer
    | IndexOutOfBounds
    | IllegalArgument
    | IllegalState
    | NumberFormat
    | NoSuchElement
    | NegativeArraySize
    | IOFailure

  /** Why a call did not return normally. An abort carries the rendered
      context at the point of failure and the author's message. Unset is
      the inner abort a base holder raises when it is read before anything
      was written to it; the wording of that abort belongs to the base
      holder, which is not part of this model, so only the holder's name is
      kept. */
  datatype Failure =
    | Abort(severity: Severity, context: string, message: string)
    | Unset(holder: string)
    | Crash(fault: Fault)
  {
    /** Whether the engine treats the failure as an inner abort, which ends
        only the current loop iteration or concurrent branch. */
    predicate IsInnerAbort() {
      (Abort? && severity == Inner) || Unset?
    }
  }

  /** The outcome of a call that returns a value or throws. */
  datatype Result<+T> = Ok(value: T) | Err(failure: Failure) {

    predicate IsFailure() {
      Err?
    }

    function PropagateFailure<U>(): Result<U>
      requires Err?
    {
      Err(failure)
    }

    function Extract(): T
      requires Ok?
    {
      value
    }
  }

  /** The outcome of a call that returns nothing (Java `void`) or throws. */
  datatype Status = Done | Failed(failure: Failure) {

    predicate IsFailure() {
      Failed?
    }

    function PropagateFailure(): Status
      requires Failed?
    {
      this
    }
  }

  /** Java's `Objects.toString` / string concatenation of a possibly null
      string: null renders as "null". */
  function OrNull(s: Option<string>): string {
    match s
    case Some(v) => v
    case None => "null"
  }

  /** The values of the outcomes taken in order, a loop that adds each to a
      list; the first outcome that failed ends it with its failure. */
  function Collect<T>(results: seq<Result<T>>): Result<seq<T>> {
    if |results| == 0 then Ok([])
    else
      var n := |results| - 1;
      var init := Collect(results[..n]);
      if init.Err? then init
      else if results[n].Err? then Err(results[n].failure)
      else Ok(init.value + [results[n].value])
  }

  /** Taking one more outcome. */
  lemma CollectStep<T>(results: seq<Result<T>>, i: nat)
    requires i < |results|
    ensures var init := Collect(results[..i]);
      Collect(results[..i + 1]) ==
        if init.Err? then init
        else if results[i].Err? then Err(results[i].failure)
        else Ok(init.value + [results[i].value])
  {
    assert results[..i + 1][..i] == results[..i];
  }

  /** Once a prefix has failed, the outcomes after it change nothing. */
  lemma {:induction false} CollectErrStays<T>(results: seq<Result<T>>, k: nat)
    requires k <= |results| && Collect(results[..k]).Err?
    ensures Collect(results) == Collect(results[..k])
    decreases |results|
  {
    if k < |results| {
      var n := |results| - 1;
      assert results[..n][..k] == results[..k];
      CollectErrStays(results[..n], k);
    } else {
      assert results[..k] == results;
    }
  }

  /** Collecting succeeds exactly when every outcome is a value, and then
      gives those values, in order. */
  lemma {:induction false} CollectMeaning<T>(results: seq<Result<T>>)
    ensures Collect(results).Ok? <==> forall i :: 0 <= i < |results| ==> results[i].Ok?
    ensures Collect(results).Ok? ==>
      |Collect(results).value| == |results| &&
      forall i :: 0 <= i < |results| ==> Collect(results).value[i] == results[i].value
  {
    if |results| > 0 {
      var n := |results| - 1;
      CollectMeaning(results[..n]);
      assert forall i :: 0 <= i < n ==> results[..n][i] == results[i];
    }
  }
}
