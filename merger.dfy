/** `OpenXtraceJmeterMerger`: keeps the JMeter samples that fall into the
    time window of the recorded traces, groups them by JMeter thread and
    sorts each group by time. Of each log entry the merger reads only its
    thread name and its parsed time stamp (null when it does not parse),
    either of which fails for a row too short to hold the cell; of each
    trace only the time stamp of its root, in milliseconds. */
module Merger {
  import opened Outcomes
  import opened JMeterLogs

  /** What the merger reads of one log entry: the outcome of
      `getValue("threadName")`, of `getTimestamp()` and of
      `getValue("label")`. */
  datatype Reading = Reading(thread: Result<Option<string>>, stamp: Result<Option<int>>, sampleLabel: Result<Option<string>>)

  /** The readings of the log's entries, in log order, with `parse` the
      date format of the log. */
  function Readings(log: seq<Entry>, parse: string -> Option<int>): (r: seq<Reading>)
    ensures |r| == |log|
    ensures forall i :: 0 <= i < |log| ==>
      r[i] == Reading(log[i].GetValue("threadName"), log[i].GetTimestamp(parse), log[i].GetValue("label"))
  {
    seq(|log|, i requires 0 <= i < |log| =>
      Reading(log[i].GetValue("threadName"), log[i].GetTimestamp(parse), log[i].GetValue("label")))
  }

  /** An entry kept by the filter: its parsed time, and its thread name
      and label, which have not been read yet. */
  datatype Kept = Kept(thread: Result<Option<string>>, time: int, sampleLabel: Result<Option<string>>)

  /** A log entry with its thread name and time stamp, and its label not
      yet read. */
  datatype Sample = Sample(thread: Option<string>, time: int, sampleLabel: Result<Option<string>>)

  /** The traces are shifted by one hour against the log. */
  const TraceShift: int := 3600000

  function Min(xs: seq<int>): (m: int)
    requires |xs| > 0
    ensures m in xs && forall i :: 0 <= i < |xs| ==> m <= xs[i]
  {
    if |xs| == 1 then xs[0]
    else
      var rest := Min(xs[1..]);
      assert forall i :: 1 <= i < |xs| ==> xs[1..][i - 1] == xs[i];
      if xs[0] <= rest then xs[0] else rest
  }

  function Max(xs: seq<int>): (m: int)
    requires |xs| > 0
    ensures m in xs && forall i :: 0 <= i < |xs| ==> xs[i] <= m
  {
    if |xs| == 1 then xs[0]
    else
      var rest := Max(xs[1..]);
      assert forall i :: 1 <= i < |xs| ==> xs[1..][i - 1] == xs[i];
      if xs[0] >= rest then xs[0] else rest
  }

  /** What makes the filter throw at an entry: the failure of reading its
      time stamp, or NullPointerException at `after` when it did not parse. */
  function StampFault(x: Reading): Option<Failure> {
    match x.stamp
    case Err(f) => Some(f)
    case Ok(None) => Some(Crash(NullPointer))
    case Ok(Some(_)) => None
  }

  /** The entries strictly after `start` and strictly before `end`, in
      log order. The filter looks at every entry in turn, and the first
      whose time stamp cannot be had ends it with that failure. */
  function KeepBetween(log: seq<Reading>, start: int, end: int): (r: Result<seq<Kept>>)
    ensures r.Ok? <==> forall i :: 0 <= i < |log| ==> StampFault(log[i]).None?
    ensures r.Err? ==>
      exists i :: 0 <= i < |log| && StampFault(log[i]) == Some(r.failure) &&
        forall j :: 0 <= j < i ==> StampFault(log[j]).None?
    ensures r.Ok? ==> forall j :: 0 <= j < |r.value| ==> start < r.value[j].time < end
    ensures r.Ok? ==> |r.value| <= |log|
  {
    if |log| == 0 then Ok([])
    else
      var rest := KeepBetween(log[1..], start, end);
      assert forall i :: 1 <= i < |log| ==> log[1..][i - 1] == log[i];
      match StampFault(log[0])
      case Some(f) => Err(f)
      case None =>
        var t := log[0].stamp.value.value;
        if rest.Err? then
          assert
            exists i :: 1 <= i < |log| && StampFault(log[i]) == Some(rest.failure) &&
              forall j :: 0 <= j < i ==> StampFault(log[j]).None?;
          rest
        else if start < t < end then Ok([Kept(log[0].thread, t, log[0].sampleLabel)] + rest.value)
        else rest
  }

  /** An entry inside the window, and only such an entry, is kept. */
  lemma {:induction false} KeepBetweenKeeps(log: seq<Reading>, start: int, end: int, x: Kept)
    requires KeepBetween(log, start, end).Ok?
    ensures x in KeepBetween(log, start, end).value <==>
      Reading(x.thread, Ok(Some(x.time)), x.sampleLabel) in log && start < x.time < end
  {
    if |log| > 0 {
      KeepBetweenKeeps(log[1..], start, end, x);
      assert log == [log[0]] + log[1..];
    }
  }

  /** The window of `execute`: from an hour before the earliest trace to
      an hour before the latest, both ends excluded. With no traces,
      `getAsLong` on the empty minimum throws NoSuchElementException. */
  function FilterToTraces(log: seq<Reading>, traceTimes: seq<int>): (r: Result<seq<Kept>>)
    ensures |traceTimes| == 0 ==> r == Err(Crash(NoSuchElement))
    ensures |traceTimes| > 0 ==> r == KeepBetween(log, Min(traceTimes) - TraceShift, Max(traceTimes) - TraceShift)
  {
    if |traceTimes| == 0 then Err(Crash(NoSuchElement))
    else KeepBetween(log, Min(traceTimes) - TraceShift, Max(traceTimes) - TraceShift)
  }

  /** The kept entries with their thread names read, in order; the first
      entry whose thread name cannot be read ends the reading with that
      failure. */
  function Threaded(kept: seq<Kept>): (r: Result<seq<Sample>>)
    ensures r.Ok? <==> forall i :: 0 <= i < |kept| ==> kept[i].thread.Ok?
    ensures r.Err? ==>
      exists i :: 0 <= i < |kept| && kept[i].thread == Err(r.failure) &&
        forall j :: 0 <= j < i ==> kept[j].thread.Ok?
    ensures r.Ok? ==> |r.value| == |kept|
    ensures r.Ok? ==>
      forall i :: 0 <= i < |kept| ==> r.value[i] == Sample(kept[i].thread.value, kept[i].time, kept[i].sampleLabel)
  {
    if |kept| == 0 then Ok([])
    else
      var init := Threaded(kept[..|kept| - 1]);
      var last := kept[|kept| - 1];
      assert forall i :: 0 <= i < |kept| - 1 ==> kept[..|kept| - 1][i] == kept[i];
      if init.Err? then init
      else if last.thread.Err? then Err(last.thread.failure)
      else Ok(init.value + [Sample(last.thread.value, last.time, last.sampleLabel)])
  }

  /** Once a prefix fails, the whole reading fails the same way. */
  lemma {:induction false} ThreadedPrefix(kept: seq<Kept>, n: nat)
    requires n <= |kept| && Threaded(kept[..n]).Err?
    ensures Threaded(kept) == Threaded(kept[..n])
    decreases |kept| - n
  {
    if n < |kept| {
      var init := kept[..|kept| - 1];
      assert init[..n] == kept[..n];
      ThreadedPrefix(init, n);
    } else {
      assert kept[..n] == kept;
    }
  }

  /** The samples of one thread, in their order in `s`. */
  function OfThread(s: seq<Sample>, thread: Option<string>): (r: seq<Sample>)
    ensures forall j :: 0 <= j < |r| ==> r[j].thread == thread && r[j] in s
  {
    if |s| == 0 then []
    else
      var init := OfThread(s[..|s| - 1], thread);
      var last := s[|s| - 1];
      assert forall x :: x in s[..|s| - 1] ==> x in s;
      if last.thread == thread then init + [last] else init
  }

  /** The thread names that occur in `s`. */
  function Threads(s: seq<Sample>): set<Option<string>> {
    set x | x in s :: x.thread
  }

  /** Inserts x before the first sample that is not earlier, so among
      equal times x comes first. */
  function Insert(x: Sample, s: seq<Sample>): (r: seq<Sample>)
    ensures multiset(r) == multiset(s) + multiset{x}
  {
    if |s| == 0 || x.time <= s[0].time then [x] + s
    else
      assert s == [s[0]] + s[1..];
      [s[0]] + Insert(x, s[1..])
  }

  /** The stable sort by time that `Collections.sort` performs. */
  function SortByTime(s: seq<Sample>): (r: seq<Sample>)
    ensures multiset(r) == multiset(s)
  {
    if |s| == 0 then []
    else
      assert s == [s[0]] + s[1..];
      Insert(s[0], SortByTime(s[1..]))
  }

  predicate Sorted(s: seq<Sample>) {
    forall i, j :: 0 <= i < j < |s| ==> s[i].time <= s[j].time
  }

  /** The samples with time t, in their order in `s`. */
  function AtTime(s: seq<Sample>, t: int): seq<Sample> {
    if |s| == 0 then []
    else (if s[0].time == t then [s[0]] else []) + AtTime(s[1..], t)
  }

  /** A bound below x and below every sample of s bounds the insertion. */
  lemma {:induction false} InsertAbove(x: Sample, s: seq<Sample>, b: int)
    requires b <= x.time && forall j :: 0 <= j < |s| ==> b <= s[j].time
    ensures forall j :: 0 <= j < |Insert(x, s)| ==> b <= Insert(x, s)[j].time
  {
    if |s| > 0 && x.time > s[0].time {
      InsertAbove(x, s[1..], b);
    }
  }

  lemma {:induction false} InsertSorted(x: Sample, s: seq<Sample>)
    requires Sorted(s)
    ensures Sorted(Insert(x, s))
  {
    if |s| > 0 && x.time > s[0].time {
      InsertSorted(x, s[1..]);
      InsertAbove(x, s[1..], s[0].time);
    }
  }

  /** The sort orders by time. */
  lemma {:induction false} SortByTimeSorted(s: seq<Sample>)
    ensures Sorted(SortByTime(s))
  {
    if |s| > 0 {
      SortByTimeSorted(s[1..]);
      InsertSorted(s[0], SortByTime(s[1..]));
    }
  }

  lemma {:induction false} AtTimeCons(x: Sample, s: seq<Sample>, t: int)
    ensures AtTime([x] + s, t) == (if x.time == t then [x] else []) + AtTime(s, t)
  {
    assert ([x] + s)[1..] == s;
  }

  lemma {:induction false} InsertStable(x: Sample, s: seq<Sample>, t: int)
    ensures AtTime(Insert(x, s), t) == (if x.time == t then [x] else []) + AtTime(s, t)
  {
    if |s| == 0 || x.time <= s[0].time {
      AtTimeCons(x, s, t);
    } else {
      InsertStable(x, s[1..], t);
      AtTimeCons(s[0], Insert(x, s[1..]), t);
      AtTimeCons(s[0], s[1..], t);
      assert s == [s[0]] + s[1..];
    }
  }

  /** The sort is stable: the samples of any one time keep their order. */
  lemma {:induction false} SortByTimeStable(s: seq<Sample>, t: int)
    ensures AtTime(SortByTime(s), t) == AtTime(s, t)
  {
    if |s| > 0 {
      SortByTimeStable(s[1..], t);
      InsertStable(s[0], SortByTime(s[1..]), t);
    }
  }

  /** What adding one sample to the log does to the threads and to each
      thread's samples. */
  lemma GroupStep(s: seq<Sample>, e: Sample)
    ensures Threads(s + [e]) == Threads(s) + {e.thread}
    ensures forall k :: OfThread(s + [e], k) == OfThread(s, k) + (if e.thread == k then [e] else [])
    ensures e.thread !in Threads(s) ==> OfThread(s, e.thread) == []
  {
    assert (s + [e])[..|s|] == s;
  }

  /** `splitByThreadAndSortByTimestamp`: one list per thread name, filled
      in log order, then each list sorted by time. */
  method SplitByThreadAndSort(kept: seq<Kept>) returns (r: Result<map<Option<string>, seq<Sample>>>)
    ensures Threaded(kept).Err? ==> r == Err(Threaded(kept).failure)
    ensures Threaded(kept).Ok? ==> r.Ok? && r.value.Keys == Threads(Threaded(kept).value)
    ensures Threaded(kept).Ok? ==>
      forall k :: k in r.value ==> r.value[k] == SortByTime(OfThread(Threaded(kept).value, k))
  {
    var unsorted := GroupByThread(kept);
    if unsorted.Err? {
      return unsorted;
    }
    var groups := SortGroups(unsorted.value);
    return Ok(groups);
  }

  /** The first loop of `splitByThreadAndSortByTimestamp`: each entry's
      thread name is read and the entry added to that thread's list, which
      is created when missing; a thread name that cannot be read throws. */
  method GroupByThread(kept: seq<Kept>) returns (r: Result<map<Option<string>, seq<Sample>>>)
    ensures Threaded(kept).Err? ==> r == Err(Threaded(kept).failure)
    ensures Threaded(kept).Ok? ==> r.Ok? && r.value.Keys == Threads(Threaded(kept).value)
    ensures Threaded(kept).Ok? ==>
      forall k :: k in r.value ==> r.value[k] == OfThread(Threaded(kept).value, k)
  {
    var groups := map[];
    var i := 0;
    while i < |kept|
      invariant 0 <= i <= |kept|
      invariant Threaded(kept[..i]).Ok?
      invariant groups.Keys == Threads(Threaded(kept[..i]).value)
      invariant forall k :: k in groups ==> groups[k] == OfThread(Threaded(kept[..i]).value, k)
    {
      var e := kept[i];
      assert kept[..i + 1][..i] == kept[..i];
      if e.thread.Err? {
        ThreadedPrefix(kept, i + 1);
        return Err(e.thread.failure);
      }
      var x := Sample(e.thread.value, e.time, e.sampleLabel);
      assert Threaded(kept[..i + 1]).value == Threaded(kept[..i]).value + [x];
      GroupStep(Threaded(kept[..i]).value, x);
      var list := if x.thread in groups then groups[x.thread] else [];
      groups := groups[x.thread := list + [x]];
      i := i + 1;
    }
    assert kept[..i] == kept;
    return Ok(groups);
  }

  /** The second loop: every list is sorted by time in place. */
  method SortGroups(unsorted: map<Option<string>, seq<Sample>>) returns (groups: map<Option<string>, seq<Sample>>)
    ensures groups.Keys == unsorted.Keys
    ensures forall k :: k in groups ==> groups[k] == SortByTime(unsorted[k])
  {
    groups := unsorted;
    var pending := groups.Keys;
    while pending != {}
      invariant pending <= groups.Keys == unsorted.Keys
      invariant forall k :: k in groups ==>
        groups[k] == if k in pending then unsorted[k] else SortByTime(unsorted[k])
      decreases |pending|
    {
      var k :| k in pending;
      groups := groups[k := SortByTime(groups[k])];
      pending := pending - {k};
    }
  }

  lemma {:induction false} OfThreadCount(s: seq<Sample>, x: Sample)
    ensures multiset(OfThread(s, x.thread))[x] == multiset(s)[x]
  {
    if |s| > 0 {
      OfThreadCount(s[..|s| - 1], x);
      assert s == s[..|s| - 1] + [s[|s| - 1]];
    }
  }

  /** Every sample lands in the group of its own thread as many times as
      it occurs in the log, each group holds only samples of its thread,
      and each group is sorted. */
  lemma GroupsPartition(log: seq<Sample>, groups: map<Option<string>, seq<Sample>>, x: Sample)
    requires groups.Keys == Threads(log)
    requires forall k :: k in groups ==> groups[k] == SortByTime(OfThread(log, k))
    ensures x in log ==> x.thread in groups && multiset(groups[x.thread])[x] == multiset(log)[x]
    ensures forall k :: k in groups ==> Sorted(groups[k]) && forall j :: 0 <= j < |groups[k]| ==> groups[k][j].thread == k
  {
    if x in log {
      OfThreadCount(log, x);
    }
    forall k | k in groups
      ensures Sorted(groups[k]) && forall j :: 0 <= j < |groups[k]| ==> groups[k][j].thread == k
    {
      SortByTimeSorted(OfThread(log, k));
      var g := groups[k];
      forall j | 0 <= j < |g| ensures g[j].thread == k {
        assert g[j] in multiset(OfThread(log, k));
      }
    }
  }

  /** What `findMatchingTraces` does with a thread group whose first
      entry, in time order, is `first`: the first session, which holds at
      least one trace, makes it read that entry's label and compare it with
      `equals(null)`, so a label that cannot be read throws its failure and
      a null label throws NullPointerException. A label that is read makes
      the matching false, and the method then returns null, which the loop
      of `execute` dereferences: NullPointerException. */
  function MatchOutcome(first: Sample): (f: Failure)
    ensures first.sampleLabel.Err? ==> f == first.sampleLabel.failure
    ensures first.sampleLabel.Ok? ==> f == Crash(NullPointer)
  {
    match first.sampleLabel
    case Err(g) => g
    case Ok(_) => Crash(NullPointer)
  }

  /** Every thread of the samples has a non-empty sorted group. */
  lemma OfThreadNonEmpty(s: seq<Sample>, k: Option<string>)
    requires k in Threads(s)
    ensures |SortByTime(OfThread(s, k))| > 0
  {
    var x :| x in s && x.thread == k;
    OfThreadCount(s, x);
    assert x in multiset(SortByTime(OfThread(s, k)));
  }

  /** `execute`: reads the traces holder, whose failure fails the step
      and whose null throws NullPointerException at `stream()`; takes the
      window (no traces: NoSuchElementException); reads the log holder,
      failing or throwing likewise; then the filter and the grouping, each
      of which throws at the first entry whose cell it cannot read. With no
      entry kept there is no group and the step is done; otherwise the
      first group the map's iteration yields, here any group, meets
      `findMatchingTraces` and fails as `MatchOutcome` says. */
  method Execute(traces: Result<Option<seq<int>>>, log: Result<Option<seq<Entry>>>, parse: string -> Option<int>)
    returns (s: Status)
    ensures traces.Err? ==> s == Failed(traces.failure)
    ensures traces == Ok(None) ==> s == Failed(Crash(NullPointer))
    ensures traces == Ok(Some([])) ==> s == Failed(Crash(NoSuchElement))
    ensures traces.Ok? && traces.value.Some? && |traces.value.value| > 0 ==>
      (log.Err? ==> s == Failed(log.failure)) &&
      (log == Ok(None) ==> s == Failed(Crash(NullPointer)))
    ensures traces.Ok? && traces.value.Some? && |traces.value.value| > 0 && log.Ok? && log.value.Some? ==>
      var filtered := FilterToTraces(Readings(log.value.value, parse), traces.value.value);
      (filtered.Err? ==> s == Failed(filtered.failure)) &&
      (filtered.Ok? && Threaded(filtered.value).Err? ==> s == Failed(Threaded(filtered.value).failure)) &&
      (filtered.Ok? && Threaded(filtered.value).Ok? && |filtered.value| == 0 ==> s == Done)
    ensures traces.Ok? && traces.value.Some? && |traces.value.value| > 0 && log.Ok? && log.value.Some? ==>
      var filtered := FilterToTraces(Readings(log.value.value, parse), traces.value.value);
      filtered.Ok? && Threaded(filtered.value).Ok? && |filtered.value| > 0 ==>
        var samples := Threaded(filtered.value).value;
        exists k ::
          k in Threads(samples) && |SortByTime(OfThread(samples, k))| > 0 &&
          s == Failed(MatchOutcome(SortByTime(OfThread(samples, k))[0]))
  {
    if traces.Err? {
      return Failed(traces.failure);
    }
    if traces.value.None? {
      return Failed(Crash(NullPointer));
    }
    var traceTimes := traces.value.value;
    if |traceTimes| == 0 {
      return Failed(Crash(NoSuchElement));
    }
    if log.Err? {
      return Failed(log.failure);
    }
    if log.value.None? {
      return Failed(Crash(NullPointer));
    }
    var filtered := FilterToTraces(Readings(log.value.value, parse), traceTimes);
    if filtered.Err? {
      return Failed(filtered.failure);
    }
    var groups := SplitByThreadAndSort(filtered.value);
    if groups.Err? {
      return Failed(groups.failure);
    }
    var samples := Threaded(filtered.value).value;
    assert |samples| > 0 ==> samples[0].thread in Threads(samples);
    if groups.value.Keys == {} {
      return Done;
    }
    var k :| k in groups.value;
    OfThreadNonEmpty(samples, k);
    return Failed(MatchOutcome(groups.value[k][0]));
  }

  /** Under the default column layout an entry without cells has no
      `timeStamp` cell, so the filter throws an index error. */
  lemma EmptyRowStopsFilter(e: Entry, parse: string -> Option<int>, traceTimes: seq<int>)
    requires e.headers == HeadersMap(DefaultHeaderNames) && e.row == [] && |traceTimes| > 0
    ensures FilterToTraces(Readings([e], parse), traceTimes) == Err(Crash(IndexOutOfBounds))
  {
    DefaultTimeStampAt0();
    assert DefaultHeaderNames[0] == "timeStamp";
    var r := Readings([e], parse);
    assert r[0].stamp == Err(Crash(IndexOutOfBounds));
    assert StampFault(r[0]) == Some(Crash(IndexOutOfBounds));
  }

  /** An entry inside the window whose time stamp parses but whose row
      ends before its `threadName` column: it is kept, and reading its
      thread name in the grouping throws an index error. */
  lemma {:induction false} ShortRowKeptThenFails(e: Entry, parse: string -> Option<int>, traceTimes: seq<int>, t: int)
    requires "timeStamp" in e.headers && e.headers["timeStamp"] == 0 && 0 < |e.row|
    requires "threadName" in e.headers && e.headers["threadName"] >= |e.row|
    requires |traceTimes| > 0 && parse(e.row[0]) == Some(t)
    requires Min(traceTimes) - TraceShift < t < Max(traceTimes) - TraceShift
    ensures FilterToTraces(Readings([e], parse), traceTimes) == Ok([Kept(Err(Crash(IndexOutOfBounds)), t, e.GetValue("label"))])
    ensures Threaded(FilterToTraces(Readings([e], parse), traceTimes).value) == Err(Crash(IndexOutOfBounds))
  {
    var r := Readings([e], parse);
    assert r == [Reading(Err(Crash(IndexOutOfBounds)), Ok(Some(t)), e.GetValue("label"))];
    var k := Kept(Err(Crash(IndexOutOfBounds)), t, e.GetValue("label"));
    var start, end := Min(traceTimes) - TraceShift, Max(traceTimes) - TraceShift;
    assert StampFault(r[0]) == None;
    assert r[1..] == [] && KeepBetween(r[1..], start, end) == Ok([]);
    assert [Kept(r[0].thread, r[0].stamp.value.value, r[0].sampleLabel)] + [] == [k];
    assert KeepBetween(r, start, end) == Ok([k]);
    assert [k][..0] == [];
  }

  /** Under the default column layout an entry inside the window whose row
      has fewer than six cells is kept, and the grouping throws an index
      error at its thread name. */
  lemma ShortRowStopsGrouping(e: Entry, parse: string -> Option<int>, traceTimes: seq<int>, t: int)
    requires e.headers == HeadersMap(DefaultHeaderNames) && 1 <= |e.row| <= 5
    requires |traceTimes| > 0 && parse(e.row[0]) == Some(t)
    requires Min(traceTimes) - TraceShift < t < Max(traceTimes) - TraceShift
    ensures FilterToTraces(Readings([e], parse), traceTimes).Ok?
    ensures Threaded(FilterToTraces(Readings([e], parse), traceTimes).value) == Err(Crash(IndexOutOfBounds))
  {
    DefaultTimeStampAt0();
    DefaultThreadNameAt5();
    assert DefaultHeaderNames[0] == "timeStamp" && DefaultHeaderNames[5] == "threadName";
    ShortRowKeptThenFails(e, parse, traceTimes, t);
  }

  /** An entry inside the window whose own header row places `label`
      past the end of its row: it is kept, its thread name is read, and
      its group's label read in `findMatchingTraces` throws an index error. */
  lemma {:induction false} LabelBeyondRowThrows(e: Entry, parse: string -> Option<int>, traceTimes: seq<int>, t: int)
    requires "timeStamp" in e.headers && e.headers["timeStamp"] == 0
    requires "threadName" in e.headers && 0 <= e.headers["threadName"] < |e.row|
    requires "label" in e.headers && e.headers["label"] >= |e.row|
    requires |traceTimes| > 0 && 0 < |e.row| && parse(e.row[0]) == Some(t)
    requires Min(traceTimes) - TraceShift < t < Max(traceTimes) - TraceShift
    ensures FilterToTraces(Readings([e], parse), traceTimes).Ok?
    ensures var samples := Threaded(FilterToTraces(Readings([e], parse), traceTimes).value);
      var x := Sample(Some(e.row[e.headers["threadName"]]), t, Err(Crash(IndexOutOfBounds)));
      samples == Ok([x]) && Threads([x]) == {x.thread} && SortByTime(OfThread([x], x.thread)) == [x] &&
      MatchOutcome(x) == Crash(IndexOutOfBounds)
  {
    var r := Readings([e], parse);
    var thread := Some(e.row[e.headers["threadName"]]);
    assert r == [Reading(Ok(thread), Ok(Some(t)), Err(Crash(IndexOutOfBounds)))];
    var start, end := Min(traceTimes) - TraceShift, Max(traceTimes) - TraceShift;
    var k := Kept(Ok(thread), t, Err(Crash(IndexOutOfBounds)));
    assert StampFault(r[0]) == None;
    assert r[1..] == [] && KeepBetween(r[1..], start, end) == Ok([]);
    assert [Kept(r[0].thread, r[0].stamp.value.value, r[0].sampleLabel)] + [] == [k];
    assert KeepBetween(r, start, end) == Ok([k]);
    var x := Sample(thread, t, Err(Crash(IndexOutOfBounds)));
    assert [k][..0] == [];
    assert Threaded([k]) == Ok([] + [x]);
    assert [] + [x] == [x];
    assert [x][..0] == [];
    assert OfThread([x], thread) == [] + [x];
    assert Insert(x, []) == [x];
    assert [x][1..] == [];
  }

  /** A header row `timeStamp, threadName, label` puts the three columns
      at 0, 1 and 2. */
  lemma ThreeColumnLayout()
    ensures var h := HeadersMap(["timeStamp", "threadName", "label"]);
      "timeStamp" in h && h["timeStamp"] == 0 && "threadName" in h && h["threadName"] == 1 &&
      "label" in h && h["label"] == 2
  {
    var names := ["timeStamp", "threadName", "label"];
    assert names[1] != names[0] && names[2] != names[0] && names[2] != names[1];
    HeadersMapAt(names, "timeStamp", 0);
    HeadersMapAt(names, "threadName", 1);
    HeadersMapAt(names, "label", 2);
  }

  /** The example of `LabelBeyondRowThrows` with that header row and a
      row of two cells. */
  lemma ThreeColumnHeaderTwoCells(e: Entry, parse: string -> Option<int>, traceTimes: seq<int>, t: int)
    requires e.headers == HeadersMap(["timeStamp", "threadName", "label"]) && |e.row| == 2
    requires |traceTimes| > 0 && parse(e.row[0]) == Some(t)
    requires Min(traceTimes) - TraceShift < t < Max(traceTimes) - TraceShift
    ensures FilterToTraces(Readings([e], parse), traceTimes).Ok?
    ensures Threaded(FilterToTraces(Readings([e], parse), traceTimes).value) ==
      Ok([Sample(Some(e.row[1]), t, Err(Crash(IndexOutOfBounds)))])
  {
    ThreeColumnLayout();
    LabelBeyondRowThrows(e, parse, traceTimes, t);
  }
}
