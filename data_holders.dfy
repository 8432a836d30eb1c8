/** The data holders: typed slots through which the steps of an experiment
    pass values to each other. A reader sees two things, `isSet()` and the
    outcome of `get()`; the holder kinds differ in how `set` and
    `invalidate` change them. */
module DataHolders {
  import opened Outcomes
  import opened Decimal
  import opened Strings

  /** What a holder shows at one moment: `isSet()`, and what `get()` does:
      return a value (None is Java's null) or throw. */
  datatype View<T> = View(isSet: bool, read: Result<Option<T>>)

  /** `IDataHolder.isNotSet()`. */
  function IsNotSet<T>(v: View<T>): (r: bool)
    ensures r <==> !v.isSet
  {
    !v.isSet
  }

  /** `NoopDataHolder`: never set, reads null and never fails; `set` and
      `invalidate` do nothing, so this view is all there is to it. */
  function NoopView<T>(): (v: View<T>)
    ensures IsNotSet(v) && v.read.Ok? && v.read.value.None?
  {
    View(false, Ok(None))
  }

  /** A static holder of the fixed value x (`StaticDataHolder.of(x)`): set,
      and reads x. */
  function StaticView<T>(x: T): (v: View<T>)
    ensures !IsNotSet(v) && v.read == Ok(Some(x))
  {
    View(true, Ok(Some(x)))
  }

  /** A holder that another component reads from: one whose view never
      changes (a static or no-op holder), or a live simple or
      sequential-list holder. */
  datatype Source<T> =
    | Constant(view: View<T>)
    | Simple(simple: SimpleHolder<T>)
    | Sequential(list: SequentialListHolder<T>)
  {
    function Objects(): set<object> {
      match this
      case Constant(_) => {}
      case Simple(h) => {h}
      case Sequential(h) => {h}
    }

    /** The source's view now, read from the holder object itself. */
    function Observe(): View<T>
      reads Objects()
    {
      match this
      case Constant(v) => v
      case Simple(h) => h.Observe()
      case Sequential(h) => h.Observe()
    }
  }

  /** `SimpleDataHolder`: keeps the last value written. The write flag is
      the base holder's: `set` raises it, `invalidate` clears it, and `get`
      on a holder without it raises an inner abort. */
  class SimpleHolder<T> {
    const name: string
    const defaultValue: Option<T>
    var data: Option<T>
    var written: bool

    /** `SimpleDataHolder(name, type)`: empty, unset, no default. */
    constructor Typed(name: string)
      ensures this.name == name && defaultValue == None && data == None && !written
    {
      this.name := name;
      defaultValue := None;
      data := None;
      written := false;
    }

    /** `SimpleDataHolder(name, initial, useInitialAsDefault)` for a
        non-null initial value: holds it at once, and keeps it as the
        default when asked to. */
    constructor Initial(name: string, initial: T, useInitialAsDefault: bool)
      ensures this.name == name && data == Some(initial) && written
      ensures defaultValue == (if useInitialAsDefault then Some(initial) else None)
    {
      this.name := name;
      defaultValue := if useInitialAsDefault then Some(initial) else None;
      data := Some(initial);
      written := true;
    }

    function Get(): (r: Result<Option<T>>)
      reads this
      ensures r.Ok? <==> written
      ensures r.Ok? ==> r.value == data
      ensures r.Err? ==> r.failure.IsInnerAbort()
    {
      if written then Ok(data) else Err(Unset(name))
    }

    /** Set exactly when `get` does not throw. */
    predicate IsSet()
      reads this
      ensures IsSet() <==> Get().Ok?
    {
      written
    }

    function Observe(): View<T>
      reads this
    {
      View(IsSet(), Get())
    }

    /** Replaces any earlier content. */
    method Set(d: Option<T>)
      modifies this
      ensures data == d && written
    {
      data := d;
      written := true;
    }

    /** The base invalidation, then a write of the default if there is one. */
    method Invalidate()
      modifies this
      ensures defaultValue.Some? ==> data == defaultValue && written
      ensures defaultValue.None? ==> data == old(data) && !written
    {
      written := false;
      if defaultValue.Some? {
        Set(defaultValue);
      }
    }
  }

  /** `new SimpleDataHolder(name, initial, useInitialAsDefault)`, which
      throws NullPointerException for a null initial value (it asks the
      value for its class). */
  method NewSimpleWithDefault<T>(name: string, initial: Option<T>, useInitialAsDefault: bool)
    returns (r: Result<SimpleHolder<T>>)
    ensures r.Ok? <==> initial.Some?
    ensures r.Err? ==> r.failure == Crash(NullPointer)
    ensures r.Ok? ==> fresh(r.value) && r.value.data == initial && r.value.written
    ensures r.Ok? ==> r.value.defaultValue == (if useInitialAsDefault then initial else None)
  {
    if initial.None? {
      return Err(Crash(NullPointer));
    }
    var h := new SimpleHolder<T>.Initial(name, initial.value, useInitialAsDefault);
    return Ok(h);
  }

  /** `new SimpleDataHolder(name, initial)`: as above without a default. */
  method NewSimple<T>(name: string, initial: Option<T>) returns (r: Result<SimpleHolder<T>>)
    ensures r.Ok? <==> initial.Some?
    ensures r.Err? ==> r.failure == Crash(NullPointer)
    ensures r.Ok? ==> fresh(r.value) && r.value.data == initial && r.value.written
    ensures r.Ok? ==> r.value.defaultValue == None
  {
    r := NewSimpleWithDefault(name, initial, false);
  }

  /** After two writes `get` returns the second value. */
  method SimpleLatestWins<T>(a: Option<T>, b: Option<T>) returns (r: Result<Option<T>>)
    ensures r == Ok(b)
  {
    var h := new SimpleHolder<T>.Typed("holder");
    h.Set(a);
    h.Set(b);
    r := h.Get();
  }

  /** A holder that keeps its initial value as default reads that value
      again after any write and an invalidation. */
  method SimpleDefaultRestored<T>(x: T, y: Option<T>) returns (r: Result<Option<T>>)
    ensures r == Ok(Some(x))
  {
    var h := new SimpleHolder<T>.Initial("holder", x, true);
    h.Set(y);
    h.Invalidate();
    r := h.Get();
  }

  /** Without a default, invalidation leaves the holder unset, and `get`
      raises an inner abort. */
  method SimpleNoDefaultUnset<T>(x: T) returns (v: View<T>)
    ensures !v.isSet && v.read.Err? && v.read.failure.IsInnerAbort()
  {
    var h := new SimpleHolder<T>.Initial("holder", x, false);
    h.Invalidate();
    v := h.Observe();
  }

  /** `SequentialListDataHolder`: hands out the items of a fixed list one
      at a time. `current` is what `get` returns, `queue` what `next` will
      hand out later; Java's queue keeps nulls, as `original` does here. */
  class SequentialListHolder<T> {
    const name: string
    const original: seq<Option<T>>
    var queue: seq<Option<T>>
    var current: Option<T>

    /** The first item is current and the rest are queued; an empty list
        leaves nothing current. */
    ghost predicate AtStart()
      reads this
    {
      if |original| == 0 then current == None && queue == []
      else current == original[0] && queue == original[1..]
    }

    /** The values that `get` shows from now on, one per `next`: the
        current item, then the queue. */
    function Upcoming(): seq<Option<T>>
      reads this
    {
      [current] + queue
    }

    constructor (name: string, items: seq<Option<T>>)
      ensures this.name == name && original == items && AtStart()
    {
      this.name := name;
      original := items;
      queue := [];
      current := None;
      new;
      Invalidate();
    }

    /** Offers the value at the tail; the current item stays. */
    method Set(d: Option<T>)
      modifies this
      ensures queue == old(queue) + [d] && current == old(current)
      ensures Upcoming() == old(Upcoming()) + [d]
    {
      queue := queue + [d];
    }

    /** Never fails: it returns the current item, null included. */
    function Get(): (r: Result<Option<T>>)
      reads this
      ensures r.Ok? && r.value == Upcoming()[0]
    {
      Ok(current)
    }

    /** Set exactly when `get` returns a value, not null. */
    predicate IsSet()
      reads this
      ensures IsSet() <==> Get().value.Some?
    {
      current.Some?
    }

    function Observe(): View<T>
      reads this
    {
      View(IsSet(), Get())
    }

    /** Starts over from a fresh copy of the original items; items added
        with `set` are gone. */
    method Invalidate()
      modifies this
      ensures AtStart()
    {
      queue := original;
      Next();
    }

    /** Polls the queue: its head becomes current, or null when it is empty. */
    method Next()
      modifies this
      ensures |old(queue)| == 0 ==> current == None && queue == []
      ensures |old(queue)| > 0 ==> current == old(queue)[0] && queue == old(queue)[1..]
      ensures |old(queue)| > 0 ==> Upcoming() == old(Upcoming())[1..]
    {
      if |queue| == 0 {
        current := None;
      } else {
        current := queue[0];
        queue := queue[1..];
      }
    }

    /** The number of items still queued, the current one not counted. */
    function Size(): (n: nat)
      reads this
      ensures n == |Upcoming()| - 1
    {
      |queue|
    }
  }

  /** A list of three items starts at the first, with two still queued. */
  method SequentialFromThree<T>(a: T, b: T, c: T) returns (got: Result<Option<T>>, size: nat)
    ensures got == Ok(Some(a)) && size == 2
  {
    var h := new SequentialListHolder<T>("list", [Some(a), Some(b), Some(c)]);
    got := h.Get();
    size := h.Size();
  }

  /** Reading and then calling `next`, once per item, shows the original
      items in order followed by the items written with `set` in the order
      written (an original list without items shows one null first). */
  method SequentialReadOrder<T>(items: seq<Option<T>>, added: seq<Option<T>>) returns (seen: seq<Option<T>>)
    ensures seen == (if |items| == 0 then [None] else items) + added
  {
    var h := new SequentialListHolder<T>("list", items);
    ghost var start := if |items| == 0 then [None] else items;
    assert h.Upcoming() == start;
    var i := 0;
    while i < |added|
      invariant 0 <= i <= |added|
      invariant h.Upcoming() == start + added[..i]
    {
      h.Set(added[i]);
      assert added[..i + 1] == added[..i] + [added[i]];
      i := i + 1;
    }
    assert added[..i] == added;
    ghost var expected := start + added;
    var n := |h.Upcoming()|;
    seen := [];
    while |seen| < n
      invariant |seen| <= n == |expected|
      invariant seen == expected[..|seen|]
      invariant |seen| < n ==> h.Upcoming() == expected[|seen|..]
    {
      var g := h.Get();
      assert g.value == expected[|seen|];
      seen := seen + [g.value];
      h.Next();
    }
  }

  /** Invalidation forgets what `set` added and starts from the first item again. */
  method SequentialInvalidateResets<T>(x: T, rest: seq<Option<T>>, d: Option<T>) returns (got: Result<Option<T>>, size: nat)
    ensures got == Ok(Some(x)) && size == |rest|
  {
    var h := new SequentialListHolder<T>("list", [Some(x)] + rest);
    h.Set(d);
    h.Next();
    h.Invalidate();
    got := h.Get();
    size := h.Size();
  }

  /** `CountingDataHolder`: always set; reads the prefix, a dash and the
      counter, and each invalidation advances the Java `int` counter. */
  class CountingHolder {
    const prefix: string
    var counter: int

    /** `CountingDataHolder.of(x)`: the prefix is `Objects.toString(x)`. */
    constructor Of(x: Option<string>)
      ensures prefix == OrNull(x) && counter == 1
    {
      prefix := OrNull(x);
      counter := 1;
    }

    function Get(): (r: Result<Option<string>>)
      reads this
      ensures r.Ok? && r.value.Some? && StartsWith(r.value.value, prefix + "-")
    {
      Ok(Some(prefix + "-" + IntToString(counter)))
    }

    /** Always set, and `get` never throws. */
    predicate IsSet()
      reads this
      ensures IsSet() && Get().Ok?
    {
      true
    }

    /** Ignores the value. */
    method Set(d: Option<string>)
      ensures Get() == old(Get())
    {
    }

    method Invalidate()
      modifies this
      ensures counter == Wrap32(old(counter) + 1)
    {
      counter := Wrap32(counter + 1);
    }
  }

  /** After k invalidations a counting holder reads `prefix-(k+1)`, with the
      counter wrapped as a Java `int`. Writes change nothing. */
  method CountingAfterInvalidations(x: Option<string>, k: nat, d: Option<string>) returns (r: Result<Option<string>>)
    ensures r == Ok(Some(OrNull(x) + "-" + IntToString(Wrap32(k + 1))))
  {
    var h := new CountingHolder.Of(x);
    var i := 0;
    while i < k
      invariant 0 <= i <= k
      invariant h.counter == Wrap32(i + 1)
    {
      h.Set(d);
      Wrap32Succ(i + 1);
      h.Invalidate();
      i := i + 1;
    }
    r := h.Get();
  }

  /** A fresh counting holder reads `prefix-1`, whatever was written. */
  method CountingFresh(x: Option<string>, d: Option<string>) returns (r: Result<Option<string>>)
    ensures r == Ok(Some(OrNull(x) + "-1"))
  {
    var h := new CountingHolder.Of(x);
    h.Set(d);
    r := h.Get();
    assert DigitChar(1) == '1';
    assert IntToString(1) == "1";
    assert OrNull(x) + "-" + "1" == OrNull(x) + "-1";
  }

  /** `ProcessingDataHolder`: a view that applies `processor` to its
      input's value each time it is read. It has no state of its own:
      `set` only logs and `invalidate` does nothing. */
  datatype Processing<!I, O> = Processing(name: string, input: Source<I>, processor: Option<I> -> Result<Option<O>>)
  {
    /** Reads the input now; an exception from the input's `get` passes
        through unchanged. */
    function Get(): (r: Result<Option<O>>)
      reads input.Objects()
      ensures input.Observe().read.Err? ==> r == Err(input.Observe().read.failure)
      ensures input.Observe().read.Ok? ==> r == processor(input.Observe().read.value)
    {
      var v :- input.Observe().read;
      processor(v)
    }

    predicate IsSet()
      reads input.Objects()
    {
      input.Observe().isSet
    }

    function Observe(): (v: View<O>)
      reads input.Objects()
      ensures v.isSet == input.Observe().isSet
    {
      View(IsSet(), Get())
    }
  }

  /** `IDataHolder.processing(name, f)`: a view over the very holder it is
      called on, not over a copy of its value. */
  function ProcessingOf<I, O>(source: Source<I>, name: string, f: Option<I> -> Result<Option<O>>): (p: Processing<I, O>)
    ensures p.input == source && p.processor == f && p.name == name
  {
    Processing(name, source, f)
  }

  /** A processing view follows later writes to its input. */
  method ProcessingReadsLive<I, O>(a: Option<I>, b: Option<I>, f: Option<I> -> Result<Option<O>>)
    returns (first: Result<Option<O>>, second: Result<Option<O>>)
    ensures first == f(a) && second == f(b)
  {
    var h := new SimpleHolder<I>.Typed("input");
    h.Set(a);
    var p := ProcessingOf(Simple(h), "processed", f);
    first := p.Get();
    h.Set(b);
    second := p.Get();
  }

  /** A processing view over an unset holder is unset and its `get`
      raises the input's inner abort. */
  method ProcessingOfUnset<I, O>(f: Option<I> -> Result<Option<O>>) returns (v: View<O>)
    ensures !v.isSet && v.read.Err? && v.read.failure.IsInnerAbort()
  {
    var h := new SimpleHolder<I>.Typed("input");
    var p := ProcessingOf(Simple(h), "processed", f);
    v := p.Observe();
  }
}
