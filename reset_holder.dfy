/** `ResetDataHolder`: a step that writes a fixed value into a holder.
    What that does depends on the holder. */
module ResetHolders {
  import opened Outcomes
  import opened DataHolders

  datatype ResetDataHolder<T> = ResetDataHolder(holder: Source<T>, defaultValue: Option<T>)
  {
    /** One `set(defaultValue)` on the holder. A simple holder then holds
        the value; a sequential-list holder queues it behind its other
        items and keeps its current one; a holder whose view never changes
        stays as it is. */
    method Execute()
      modifies holder.Objects()
      ensures holder.Simple? ==> holder.simple.data == defaultValue && holder.simple.written
      ensures holder.Sequential? ==>
        holder.list.queue == old(holder.list.queue) + [defaultValue] && holder.list.current == old(holder.list.current)
    {
      match holder
      case Constant(_) =>
      case Simple(h) => h.Set(defaultValue);
      case Sequential(h) => h.Set(defaultValue);
    }
  }

  /** After a reset, a simple holder reads the default. */
  method ResetSimple<T>(x: Option<T>, d: Option<T>) returns (got: Result<Option<T>>)
    ensures got == Ok(d)
  {
    var h := new SimpleHolder<T>.Typed("holder");
    h.Set(x);
    var reset := ResetDataHolder(Simple(h), d);
    reset.Execute();
    got := h.Get();
  }

  /** After a reset, a sequential-list holder still reads its current
      item and has one more queued, the default, at the tail. */
  method ResetSequential<T>(items: seq<Option<T>>, d: Option<T>) returns (got: Result<Option<T>>, upcoming: seq<Option<T>>)
    requires |items| > 0
    ensures got == Ok(items[0]) && upcoming == items + [d]
  {
    var h := new SequentialListHolder<T>("list", items);
    var reset := ResetDataHolder(Sequential(h), d);
    reset.Execute();
    got := h.Get();
    upcoming := h.Upcoming();
  }
}
