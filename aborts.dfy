/** `Abort.allIf` and `Abort.innerIf`: steps that end the whole run, or
    only the current loop iteration or concurrent branch, when a condition
    holds at the moment they run. */
module Aborts {
  import opened Outcomes

  /** A conditional abort. The condition is a supplier, so it is modelled
      as a function of the world the step runs in, evaluated on every
      execution rather than at construction. */
  datatype AbortIf<!W> = AbortIf(severity: Severity, condition: W -> bool, message: string)
  {
    /** Returns normally with no effect when the condition is false;
        otherwise throws the abort of its severity, carrying the context
        and the message unchanged. */
    function Execute(context: string, world: W): (s: Status)
      ensures !condition(world) ==> s == Done
      ensures condition(world) ==> s == Failed(Abort(severity, context, message))
    {
      if condition(world) then Failed(Abort(severity, context, message)) else Done
    }
  }

  /** `Abort.allIf`: an abort of the whole run. */
  function AllIf<W>(condition: W -> bool, message: string): (a: AbortIf<W>)
    ensures a.severity == Whole && a.condition == condition && a.message == message
  {
    AbortIf(Whole, condition, message)
  }

  /** `Abort.innerIf`: an inner abort. */
  function InnerIf<W>(condition: W -> bool, message: string): (a: AbortIf<W>)
    ensures a.severity == Inner && a.condition == condition && a.message == message
  {
    AbortIf(Inner, condition, message)
  }

  /** An inner abort step fails, if at all, with an inner abort, and a
      whole-run abort step never does; the same step can pass in one world
      and fail in another. */
  lemma AbortSeverity<W>(condition: W -> bool, message: string, context: string, world: W)
    ensures InnerIf(condition, message).Execute(context, world).Failed? <==> condition(world)
    ensures InnerIf(condition, message).Execute(context, world).Failed? ==>
      InnerIf(condition, message).Execute(context, world).failure.IsInnerAbort()
    ensures AllIf(condition, message).Execute(context, world).Failed? <==> condition(world)
    ensures AllIf(condition, message).Execute(context, world).Failed? ==>
      !AllIf(condition, message).Execute(context, world).failure.IsInnerAbort()
  {
  }
}
