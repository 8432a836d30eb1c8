/** The actions that change the naming context: append a segment, remove
    one, rename the current one, and `ContextChange`, which hands them out
    for one name. Each action holds a string holder and reads it only when
    it runs. A null value from the holder reaches the context as the text
    "null". */
module ContextActions {
  import opened Outcomes
  import opened Strings
  import opened Sequences
  import opened DataHolders
  import opened Contexts

  /** Whether r is `kind`, a blank and then `holderText` in double quotes. */
  predicate Quotes(r: string, kind: string, holderText: string) {
    |r| == |kind| + |holderText| + 3 && r[..|kind| + 2] == kind + " \"" &&
    r[|kind| + 2..|r| - 1] == holderText && r[|r| - 1] == '"'
  }

  /** A description `<kind> "<holder>"`, where the holder's own text is
      given; it can be read back off the description. */
  function Quoted(kind: string, holderText: string): (r: string)
    ensures |r| == |kind| + |holderText| + 3
    ensures r[..|kind| + 2] == kind + " \"" && r[|r| - 1] == '"'
    ensures r[|kind| + 2..|r| - 1] == holderText
  {
    kind + " \"" + holderText + "\""
  }

  /** `AppendContext`. */
  class AppendContext {
    const holder: Source<string>

    constructor (holder: Source<string>)
      ensures this.holder == holder
    {
      this.holder := holder;
    }

    /** Appends exactly one segment, the holder's value now. If reading the
        holder throws, the context is as it was and the exception passes on. */
    method Execute(context: Context) returns (s: Status)
      modifies context
      ensures holder.Observe().read.Err? ==>
        s == Failed(holder.Observe().read.failure) && context.segments == old(context.segments)
      ensures holder.Observe().read.Ok? ==>
        s == Done && context.segments == old(context.segments) + [OrNull(holder.Observe().read.value)]
    {
      var v := holder.Observe().read;
      if v.Err? {
        return Failed(v.failure);
      }
      context.Append(OrNull(v.value));
      return Done;
    }

    function Describe(holderText: string): (r: string)
      ensures Quotes(r, "Append", holderText)
    {
      Quoted("Append", holderText)
    }
  }

  /** `RemoveContext`. */
  class RemoveContext {
    const holder: Source<string>

    constructor (holder: Source<string>)
      ensures this.holder == holder
    {
      this.holder := holder;
    }

    /** Removes the segment named by the holder's value now. If reading the
        holder throws, the context is as it was and the exception passes on. */
    method Execute(context: Context) returns (s: Status)
      modifies context
      ensures holder.Observe().read.Err? ==>
        s == Failed(holder.Observe().read.failure) && context.segments == old(context.segments)
      ensures holder.Observe().read.Ok? ==>
        s == Done && context.segments == RemoveLast(old(context.segments), OrNull(holder.Observe().read.value))
    {
      var v := holder.Observe().read;
      if v.Err? {
        return Failed(v.failure);
      }
      context.Remove(OrNull(v.value));
      return Done;
    }

    function Describe(holderText: string): (r: string)
      ensures Quotes(r, "Remove context", holderText)
    {
      Quoted("Remove context", holderText)
    }
  }

  /** The token after the last "-" of the rendered context. The split is
      Java's, so a rendering that splits into nothing (such as "-") has no
      last token and the array access throws. */
  function CurrentToken(rendered: string): (r: Result<string>)
    ensures r.Ok? ==> '-' !in r.value
    ensures r.Err? ==> r.failure == Crash(IndexOutOfBounds)
    ensures rendered == "" ==> r == Ok("")
  {
    var parts := Split(rendered, '-');
    if |parts| == 0 then Err(Crash(IndexOutOfBounds)) else Ok(parts[|parts| - 1])
  }

  /** `RenameCurrentContext`. */
  class RenameCurrentContext {
    const holder: Source<string>

    constructor (holder: Source<string>)
      ensures this.holder == holder
    {
      this.holder := holder;
    }

    /** Removes the current token, then appends the holder's value now.
        The removal comes first: when reading the holder throws, the
        context has already lost that token. */
    method Execute(context: Context) returns (s: Status)
      modifies context
      ensures CurrentToken(old(context.Render())).Err? ==>
        s == Failed(CurrentToken(old(context.Render())).failure) && context.segments == old(context.segments)
      ensures CurrentToken(old(context.Render())).Ok? && holder.Observe().read.Err? ==>
        s == Failed(holder.Observe().read.failure) &&
        context.segments == RemoveLast(old(context.segments), CurrentToken(old(context.Render())).value)
      ensures CurrentToken(old(context.Render())).Ok? && holder.Observe().read.Ok? ==>
        s == Done &&
        context.segments == RemoveLast(old(context.segments), CurrentToken(old(context.Render())).value)
                            + [OrNull(holder.Observe().read.value)]
    {
      var current := CurrentToken(context.Render());
      if current.Err? {
        return Failed(current.failure);
      }
      context.Remove(current.value);
      var v := holder.Observe().read;
      if v.Err? {
        return Failed(v.failure);
      }
      context.Append(OrNull(v.value));
      return Done;
    }

    function Describe(holderText: string): (r: string)
      ensures Quotes(r, "Rename current context to", holderText)
    {
      Quoted("Rename current context to", holderText)
    }
  }

  /** When the last segment is a plain word, the current token is that
      segment, and the removal takes off exactly that last segment: the
      rename then replaces it. */
  lemma RenamePlainLast(segments: seq<string>)
    requires |segments| > 0
    requires segments[|segments| - 1] != "" && '-' !in segments[|segments| - 1]
    ensures CurrentToken(Join(segments, "-")) == Ok(segments[|segments| - 1])
    ensures RemoveLast(segments, segments[|segments| - 1]) == segments[..|segments| - 1]
  {
    LastPieceOfJoin(segments, '-');
    assert LastIndex(segments, segments[|segments| - 1]) == |segments| - 1;
  }

  /** A last segment `head-tail` whose tail is a plain word yields only
      that tail as the current token. When the tail is no segment of its
      own, the removal does nothing, and a rename appends instead of
      replacing. */
  lemma RenameKeepsDashedSegment(prefix: seq<string>, head: string, tail: string)
    requires tail != "" && '-' !in tail && tail !in prefix
    ensures CurrentToken(Join(prefix + [head + "-" + tail], "-")) == Ok(tail)
    ensures RemoveLast(prefix + [head + "-" + tail], tail) == prefix + [head + "-" + tail]
  {
    var last := head + "-" + tail;
    var spelled := prefix + [head, tail];
    DashedLastJoin(prefix, head, tail);
    LastPieceOfJoin(spelled, '-');
    assert tail !in prefix + [last] by {
      assert |last| > |tail|;
    }
  }

  /** A last segment `head-tail` renders as the two segments head and tail. */
  lemma DashedLastJoin(prefix: seq<string>, head: string, tail: string)
    ensures Join(prefix + [head + "-" + tail], "-") == Join(prefix + [head, tail], "-")
  {
    var last := head + "-" + tail;
    var spelled := prefix + [head, tail];
    assert Join([head, tail], "-") == last by {
      assert [head, tail][1..] == [tail];
    }
    if |prefix| > 0 {
      JoinSnoc(prefix, last, "-");
      JoinSnoc(prefix + [head], tail, "-");
      JoinSnoc(prefix, head, "-");
      assert spelled == (prefix + [head]) + [tail];
    } else {
      assert prefix + [last] == [last];
      assert spelled == [head, tail];
    }
  }

  /** The experiment's own context name "1-initial-uploads" is such a
      segment: its current token is "uploads". */
  lemma InitialUploadsToken(prefix: seq<string>)
    requires "uploads" !in prefix
    ensures CurrentToken(Join(prefix + ["1-initial-uploads"], "-")) == Ok("uploads")
    ensures RemoveLast(prefix + ["1-initial-uploads"], "uploads") == prefix + ["1-initial-uploads"]
  {
    assert "1-initial" + "-" + "uploads" == "1-initial-uploads";
    assert '-' !in "uploads" by {
      forall i | 0 <= i < |"uploads"| ensures "uploads"[i] != '-' {
      }
    }
    RenameKeepsDashedSegment(prefix, "1-initial", "uploads");
  }

  /** `ContextChange`: the append, remove and rename actions for one name
      or one string holder. It remembers the rename action it last handed
      out. */
  class ContextChange {
    const holder: Source<string>
    var renamed: RenameCurrentContext?

    /** `ContextChange(String)`: the name goes into a static holder, so
        every action uses that fixed name. */
    constructor OfName(name: string)
      ensures holder == Constant(StaticView(name)) && renamed == null
    {
      holder := Constant(StaticView(name));
      renamed := null;
    }

    constructor OfHolder(holder: Source<string>)
      ensures this.holder == holder && renamed == null
    {
      this.holder := holder;
      renamed := null;
    }

    /** A new append action over the same holder; nothing here changes. */
    method Append() returns (a: AppendContext)
      ensures fresh(a) && a.holder == holder
    {
      a := new AppendContext(holder);
    }

    /** A new remove action over the same holder; nothing here changes. */
    method Remove() returns (r: RemoveContext)
      ensures fresh(r) && r.holder == holder
    {
      r := new RemoveContext(holder);
    }

    /** A new rename action, which is also remembered in place of any
        earlier one. */
    method Rename() returns (r: RenameCurrentContext)
      modifies this
      ensures fresh(r) && r.holder == holder && renamed == r
    {
      r := new RenameCurrentContext(holder);
      renamed := r;
    }

    /** The remembered rename action itself, not a new one; before any
        `rename()` it throws IllegalStateException. */
    method RenameBack() returns (r: Result<RenameCurrentContext>)
      ensures renamed == null ==> r == Err(Crash(IllegalState))
      ensures renamed != null ==> r == Ok(renamed)
    {
      if renamed == null {
        return Err(Crash(IllegalState));
      }
      return Ok(renamed);
    }
  }

  /** `renameBack()` hands back the action from the latest `rename()`, and
      every `rename()` makes a distinct one; before any rename it throws. */
  method RenameBackIsLatest(name: string)
    returns (early: Result<RenameCurrentContext>, first: RenameCurrentContext, second: RenameCurrentContext, back: Result<RenameCurrentContext>)
    ensures early == Err(Crash(IllegalState))
    ensures first != second && back == Ok(second)
  {
    var change := new ContextChange.OfName(name);
    early := change.RenameBack();
    first := change.Rename();
    second := change.Rename();
    back := change.RenameBack();
  }

  /** Appending and then removing the same fixed name, as the initial
      uploads of the modularization experiment do, leaves the context as
      it was. */
  method AppendRemoveBalanced(start: seq<string>, name: string) returns (before: string, after: string)
    ensures before == Join(start, "-") && after == before
  {
    var context := new Context();
    var i := 0;
    while i < |start|
      invariant 0 <= i <= |start|
      invariant context.segments == start[..i]
    {
      context.Append(start[i]);
      assert start[..i + 1] == start[..i] + [start[i]];
      i := i + 1;
    }
    assert start[..i] == start;
    before := context.Render();
    var change := new ContextChange.OfName(name);
    var append := change.Append();
    var s := append.Execute(context);
    var remove := change.Remove();
    s := remove.Execute(context);
    RemoveLastAppended(start, name);
    after := context.Render();
  }
}
