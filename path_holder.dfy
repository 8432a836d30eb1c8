/** `PathHolder`: a holder of a file system path made of segments, each
    taken from a string holder when the path is read. */
module PathHolders {
  import opened Outcomes
  import opened Strings
  import opened DataHolders

  /** `Path.resolve(other)` on a Unix file system, with the path kept as
      its text: an absolute `other` replaces the path, an empty one leaves
      it as it is, and any other becomes the path itself when the path is
      empty and is appended after a separator otherwise. */
  function Resolve(path: string, other: string): (r: string)
    ensures other == "" ==> r == path
    ensures StartsWith(other, "/") ==> r == other
    ensures other != "" && !StartsWith(other, "/") && path == "" ==> r == other
    ensures other != "" && !StartsWith(other, "/") && path != "" ==> r == path + "/" + other
  {
    if other == "" then path
    else if other[0] == '/' then other
    else if path == "" then other
    else path + "/" + other
  }

  /** Two relative names resolved against the same path give the same
      path only when they are the same name. */
  lemma ResolveRelativeInjective(path: string, x: string, y: string)
    requires x != "" && x[0] != '/' && y != "" && y[0] != '/'
    requires Resolve(path, x) == Resolve(path, y)
    ensures x == y
  {
    if path != "" {
      assert x == (path + "/" + x)[|path| + 1..];
      assert y == (path + "/" + y)[|path| + 1..];
    }
  }

  /** What `get` does with the outcomes `taken` of the segment reads, in order: each value is
      resolved against the path built so far. The first read that throws
      ends the walk with that exception, and a null value makes `resolve`
      throw NullPointerException. */
  function Compose(path: string, taken: seq<Result<Option<string>>>): Result<string>
    decreases |taken|
  {
    if |taken| == 0 then Ok(path)
    else
      match taken[0]
      case Err(f) => Err(f)
      case Ok(None) => Err(Crash(NullPointer))
      case Ok(Some(v)) => Compose(Resolve(path, v), taken[1..])
  }

  /** The holder objects behind a list of sources. */
  function ObjectsOf(sources: seq<Source<string>>): (r: set<object>)
    ensures forall i :: 0 <= i < |sources| ==> sources[i].Objects() <= r
  {
    if |sources| == 0 then {} else sources[0].Objects() + ObjectsOf(sources[1..])
  }

  /** What each source's `get` does now, in order. */
  function ReadAll(sources: seq<Source<string>>): (r: seq<Result<Option<string>>>)
    reads ObjectsOf(sources)
    ensures |r| == |sources|
    ensures forall i :: 0 <= i < |sources| ==> r[i] == sources[i].Observe().read
  {
    if |sources| == 0 then [] else [sources[0].Observe().read] + ReadAll(sources[1..])
  }

  /** Whether every source is set. */
  predicate AllSet(sources: seq<Source<string>>)
    reads ObjectsOf(sources)
  {
    forall i :: 0 <= i < |sources| ==> sources[i].Observe().isSet
  }

  /** `isSet()`: the `&&`-reduction of the segments' `isSet()`. */
  function ReduceAnd(sources: seq<Source<string>>): (r: bool)
    requires |sources| > 0
    reads ObjectsOf(sources)
    ensures r <==> AllSet(sources)
  {
    if |sources| == 1 then sources[0].Observe().isSet
    else
      var rest := ReduceAnd(sources[1..]);
      assert forall i :: 1 <= i < |sources| ==> sources[1..][i - 1] == sources[i];
      sources[0].Observe().isSet && rest
  }

  class PathHolder {
    var segments: seq<Source<string>>

    /** `PathHolder.newPath()`: no segments yet. */
    constructor ()
      ensures segments == []
    {
      segments := [];
    }

    function Holders(): set<object>
      reads this
    {
      ObjectsOf(segments)
    }

    /** Appends a segment fixed to `text` (null included) and returns this holder. */
    method ResolveStatic(text: Option<string>) returns (self: PathHolder)
      modifies this
      ensures segments == old(segments) + [Constant(View(true, Ok(text)))]
      ensures self == this
    {
      segments := segments + [Constant(View(true, Ok(text)))];
      self := this;
    }

    /** Appends the holder itself, not its present value, and returns this holder. */
    method ResolveDynamic(source: Source<string>) returns (self: PathHolder)
      modifies this
      ensures segments == old(segments) + [source]
      ensures self == this
    {
      segments := segments + [source];
      self := this;
    }

    /** Walks the segments in the order they were added, starting at ".",
        reading each holder at this moment. */
    method Get() returns (r: Result<string>)
      ensures r == Compose(".", ReadAll(segments))
    {
      var path := ".";
      var i := 0;
      while i < |segments|
        invariant 0 <= i <= |segments|
        invariant Compose(".", ReadAll(segments)) == Compose(path, ReadAll(segments[i..]))
      {
        var v := segments[i].Observe().read;
        assert ReadAll(segments[i..]) == [v] + ReadAll(segments[i + 1..]) by {
          assert segments[i..][1..] == segments[i + 1..];
        }
        match v {
          case Err(f) =>
            return Err(f);
          case Ok(None) =>
            return Err(Crash(NullPointer));
          case Ok(Some(text)) =>
            path := Resolve(path, text);
        }
        i := i + 1;
      }
      return Ok(path);
    }

    /** The stream reduction has no value for an empty list, and
        `Optional.get` then throws NoSuchElementException. */
    function IsSet(): (r: Result<bool>)
      reads this, Holders()
      ensures r.Ok? <==> |segments| > 0
      ensures r.Err? ==> r.failure == Crash(NoSuchElement)
      ensures r.Ok? ==> (r.value <==> AllSet(segments))
    {
      if |segments| == 0 then Err(Crash(NoSuchElement)) else Ok(ReduceAnd(segments))
    }

    /** Does nothing. */
    method Set(path: Option<string>)
      ensures segments == old(segments)
    {
    }

    /** Does nothing. */
    method Invalidate()
      ensures segments == old(segments)
    {
    }
  }

  /** The reads of holders that all return these values. */
  function Present(values: seq<string>): (r: seq<Result<Option<string>>>)
    ensures |r| == |values|
    ensures forall i :: 0 <= i < |values| ==> r[i] == Ok(Some(values[i]))
  {
    if |values| == 0 then [] else [Ok(Some(values[0]))] + Present(values[1..])
  }

  /** Relative, non-empty segment values are joined with "/", after the
      start and a separator unless the start is empty. */
  lemma {:induction false} ComposeRelative(path: string, values: seq<string>)
    requires |values| > 0
    requires forall i :: 0 <= i < |values| ==> values[i] != "" && values[i][0] != '/'
    ensures path != "" ==> Compose(path, Present(values)) == Ok(path + "/" + Join(values, "/"))
    ensures path == "" ==> Compose(path, Present(values)) == Ok(Join(values, "/"))
    decreases |values|
  {
    var taken := Present(values);
    assert taken[1..] == Present(values[1..]);
    var next := Resolve(path, values[0]);
    assert next == if path == "" then values[0] else path + "/" + values[0];
    assert next != "";
    assert Compose(path, taken) == Compose(next, taken[1..]);
    if |values| > 1 {
      ComposeRelative(next, values[1..]);
      JoinCons(values[0], values[1..], "/");
      assert [values[0]] + values[1..] == values;
      if path != "" {
        assert next + "/" + Join(values[1..], "/") == path + "/" + (values[0] + "/" + Join(values[1..], "/"));
      }
    }
  }

  /** The first segment that fails decides the outcome of `get`. */
  lemma {:induction false} ComposeFirstFailure(path: string, taken: seq<Result<Option<string>>>, k: nat)
    requires k < |taken| && taken[k].Err?
    requires forall j :: 0 <= j < k ==> taken[j].Ok? && taken[j].value.Some?
    ensures Compose(path, taken) == Err(taken[k].failure)
    decreases k
  {
    if k > 0 {
      ComposeFirstFailure(Resolve(path, taken[0].value.value), taken[1..], k - 1);
    }
  }

  /** A path with no segments reads "." but `isSet` throws. */
  method EmptyPath() returns (got: Result<string>, isSet: Result<bool>)
    ensures got == Ok(".") && isSet == Err(Crash(NoSuchElement))
  {
    var p := new PathHolder();
    got := p.Get();
    isSet := p.IsSet();
  }

  lemma ComposeTwo(x: string, y: string, taken: seq<Result<Option<string>>>)
    requires taken == [Ok(Some(x)), Ok(Some(y))]
    ensures Compose(".", taken) == Ok(Resolve(Resolve(".", x), y))
  {
    var p := Resolve(".", x);
    assert taken[1..] == [Ok(Some(y))];
    assert taken[1..][1..] == [];
    assert Compose(Resolve(p, y), []) == Ok(Resolve(p, y));
    assert Compose(p, taken[1..]) == Compose(Resolve(p, y), taken[1..][1..]);
    assert Compose(".", taken) == Compose(p, taken[1..]);
  }

  /** A dynamic segment is read when the path is read, not when it was
      added: a later write to its holder shows in the next `get`. */
  method PathReadsLive(root: string, a: string, b: string) returns (first: Result<string>, second: Result<string>)
    ensures first == Ok(Resolve(Resolve(".", root), a))
    ensures second == Ok(Resolve(Resolve(".", root), b))
  {
    var h := new SimpleHolder<string>.Typed("segment");
    h.Set(Some(a));
    var p := new PathHolder();
    var same := p.ResolveStatic(Some(root));
    same := p.ResolveDynamic(Simple(h));
    ghost var segments := p.segments;
    assert segments == [Constant(View(true, Ok(Some(root)))), Simple(h)];
    first := p.Get();
    ghost var taken := ReadAll(segments);
    assert taken[1] == Ok(Some(a));
    assert taken == [Ok(Some(root)), Ok(Some(a))];
    ComposeTwo(root, a, taken);
    h.Set(Some(b));
    second := p.Get();
    taken := ReadAll(segments);
    assert taken[1] == Ok(Some(b));
    assert taken == [Ok(Some(root)), Ok(Some(b))];
    ComposeTwo(root, b, taken);
  }

  /** `isSet` is false as soon as one segment's holder is unset. */
  method PathWithUnsetSegment(root: string) returns (isSet: Result<bool>, got: Result<string>)
    ensures isSet == Ok(false)
    ensures got.Err? && got.failure.IsInnerAbort()
  {
    var h := new SimpleHolder<string>.Typed("segment");
    var p := new PathHolder();
    var same := p.ResolveStatic(Some(root));
    same := p.ResolveDynamic(Simple(h));
    isSet := p.IsSet();
    got := p.Get();
    assert ReadAll(p.segments)[1] == Err(Unset("segment"));
    ComposeFirstFailure(".", ReadAll(p.segments), 1);
  }

  /** A no-op holder as a segment: the path is never set, and reading it
      throws NullPointerException, since the segment reads null. */
  method PathWithNoopSegment(root: string) returns (isSet: Result<bool>, got: Result<string>)
    ensures isSet == Ok(false)
    ensures got == Err(Crash(NullPointer))
  {
    var p := new PathHolder();
    var same := p.ResolveStatic(Some(root));
    same := p.ResolveDynamic(Constant(NoopView()));
    isSet := p.IsSet();
    got := p.Get();
    assert ReadAll(p.segments) == [Ok(Some(root)), Ok(None)];
  }
}
