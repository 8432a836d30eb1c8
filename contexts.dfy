/** The naming context of a run: a stack of name segments that says where
    in the experiment tree the run is, and under which directory its
    artifacts go. The Context class itself is not part of this model; the
    model assumes what its callers rely on: `append` pushes a segment,
    `remove(name)` takes away the topmost segment equal to `name` (and does
    nothing when there is none), and `toString` joins the segments with
    "-". */
module Contexts {
  import opened Strings
  import opened Sequences

  /** No segment holds a dash, and the last is not an empty one after
      others, which Java's split would drop. */
  predicate SplitsBack(segments: seq<string>) {
    (|segments| == 1 || (|segments| > 1 && segments[|segments| - 1] != "")) &&
    forall i :: 0 <= i < |segments| ==> '-' !in segments[i]
  }

  class Context {
    var segments: seq<string>

    constructor ()
      ensures segments == []
    {
      segments := [];
    }

    /** `toString()`: the segments joined with "-", so that segments that
        come back whole from Java's split (see `SplitsBack`) split back at
        "-" into themselves. */
    function Render(): (r: string)
      reads this
      ensures segments == [] ==> r == ""
      ensures SplitsBack(segments) ==> Split(r, '-') == segments
    {
      if SplitsBack(segments) then
        SplitJoin(segments, '-');
        Join(segments, "-")
      else Join(segments, "-")
    }

    method Append(segment: string)
      modifies this
      ensures segments == old(segments) + [segment]
    {
      segments := segments + [segment];
    }

    method Remove(segment: string)
      modifies this
      ensures segments == RemoveLast(old(segments), segment)
    {
      segments := RemoveLast(segments, segment);
    }
  }
}
