/** `GetInfluxResults`: after a load test, queries the cpu, memory and
    business-transaction measurements of its time window from the
    monitoring database and writes each as a `;`-separated table under a
    directory of the current run. Runs are numbered by a counter shared by
    all instances; the database is a function from query to answer. */
module InfluxResults {
  import opened Outcomes
  import opened Decimal
  import opened Strings
  import opened DataHolders

  const ReferencePath: string := "/referenceLoadtest/"
  const GeneratedPath: string := "/generatedLoadtest/"
  const Separator: string := ";"
  /** The three measurements, in the order their files are written. */
  const Measurements: seq<string> := ["cpu", "memory", "businessTransactions"]
  const NanosPerMilli: int := 1000000

  /** The run counter, a static `int` field shared by every instance; it
      starts at -1 so that the first reference run is run 0, and its
      increment wraps around at 2^31 as Java's does. */
  class RunCounter {
    var runCount: int

    constructor ()
      ensures runCount == -1
    {
      runCount := -1;
    }
  }

  /** The directory of one run's results: `run#<n>` and the kind of test. */
  function RunPath(runCount: int, generated: bool): (r: string)
    ensures StartsWith(r, "run#" + IntToString(runCount))
    ensures EndsWith(r, if generated then GeneratedPath else ReferencePath)
  {
    "run#" + IntToString(runCount) + (if generated then GeneratedPath else ReferencePath)
  }

  /** A query for all points of `measurement` from `from` to `to`
      nanoseconds, both ends included. */
  datatype Query = Query(measurement: string, from: int, to: int)
  {
    predicate Selects(time: int) {
      from <= time <= to
    }
  }

  /** The query for a window given in milliseconds: the database counts
      time in nanoseconds. */
  function WindowQuery(measurement: string, startMillis: int, stopMillis: int): (q: Query)
    ensures q.measurement == measurement
    ensures q.from == startMillis * NanosPerMilli && q.to == stopMillis * NanosPerMilli
  {
    Query(measurement, startMillis * NanosPerMilli, stopMillis * NanosPerMilli)
  }

  /** A point stamped at any nanosecond of a millisecond in the window is
      selected, and one of a millisecond outside it is not, except the
      nanoseconds after the stop millisecond's first. */
  lemma WindowInclusive(measurement: string, startMillis: int, stopMillis: int, millis: int)
    ensures WindowQuery(measurement, startMillis, stopMillis).Selects(millis * NanosPerMilli)
            <==> startMillis <= millis <= stopMillis
  {
  }

  /** The first series of the first result of an answer: its columns and
      its rows, each value already in its text form. */
  datatype Series = Series(columns: seq<string>, values: seq<seq<string>>)

  /** The lines of a rendering: the columns joined with ";", then each
      row's values joined with ";". */
  function RenderedLines(series: Series): (r: seq<string>)
    ensures |r| == |series.values| + 1
    ensures r[0] == Join(series.columns, Separator)
    ensures forall i :: 0 <= i < |series.values| ==> r[i + 1] == Join(series.values[i], Separator)
  {
    [Join(series.columns, Separator)] + seq(|series.values|, i requires 0 <= i < |series.values| => Join(series.values[i], Separator))
  }

  /** Lines, each ended by a newline. */
  function Text(lines: seq<string>): (r: string)
    ensures |lines| == 0 <==> r == ""
    ensures |lines| > 0 ==> r[|r| - 1] == '\n'
  {
    if |lines| == 0 then "" else lines[0] + "\n" + Text(lines[1..])
  }

  lemma {:induction false} TextSnoc(lines: seq<string>, line: string)
    ensures Text(lines + [line]) == Text(lines) + line + "\n"
  {
    if |lines| == 0 {
      assert lines + [line] == [line];
      assert [line][1..] == [];
    } else {
      assert (lines + [line])[1..] == lines[1..] + [line];
      TextSnoc(lines[1..], line);
    }
  }

  /** Newline-ended lines are a join with "\n" whose last part is empty. */
  lemma {:induction false} TextIsJoin(lines: seq<string>)
    ensures Text(lines) == Join(lines + [""], "\n")
  {
    if |lines| > 0 {
      TextIsJoin(lines[1..]);
      assert (lines + [""])[1..] == lines[1..] + [""];
      JoinCons(lines[0], lines[1..] + [""], "\n");
      assert [lines[0]] + (lines[1..] + [""]) == lines + [""];
    }
  }

  /** Splitting the text at every newline gives the lines back, followed
      by the empty piece after the last newline; so the text has exactly
      one newline per line. */
  lemma TextLines(lines: seq<string>)
    requires forall i :: 0 <= i < |lines| ==> '\n' !in lines[i]
    ensures SplitAll(Text(lines), '\n') == lines + [""]
    ensures Occurrences(Text(lines), '\n') == |lines|
  {
    TextIsJoin(lines);
    SplitAllJoin(lines + [""], '\n');
    SplitAllCount(Text(lines), '\n');
  }

  /** The header line is the first line, every row is one more line, and
      there is no other line: 1 + rows newlines when no column or value
      holds a newline. */
  lemma RenderingLineCount(series: Series)
    requires forall j :: 0 <= j < |series.columns| ==> '\n' !in series.columns[j]
    requires forall i, j :: 0 <= i < |series.values| && 0 <= j < |series.values[i]| ==> '\n' !in series.values[i][j]
    ensures SplitAll(Text(RenderedLines(series)), '\n') == RenderedLines(series) + [""]
    ensures Occurrences(Text(RenderedLines(series)), '\n') == 1 + |series.values|
  {
    var lines := RenderedLines(series);
    forall i | 0 <= i < |lines| ensures '\n' !in lines[i] {
      var cells := if i == 0 then series.columns else series.values[i - 1];
      assert lines[i] == Join(cells, Separator);
      NoNewlineInJoin(cells);
    }
    TextLines(lines);
  }

  lemma {:induction false} NoNewlineInJoin(cells: seq<string>)
    requires forall j :: 0 <= j < |cells| ==> '\n' !in cells[j]
    ensures '\n' !in Join(cells, Separator)
  {
    if |cells| > 1 {
      NoNewlineInJoin(cells[1..]);
    }
  }

  /** The cells joined with `;` the way `getMeasurementResults` builds
      them: a separator before every cell but the first. */
  method AppendJoined(builder: string, cells: seq<string>) returns (r: string)
    ensures r == builder + Join(cells, Separator)
  {
    r := builder;
    var first := true;
    var i := 0;
    while i < |cells|
      invariant 0 <= i <= |cells|
      invariant first <==> i == 0
      invariant r == builder + Join(cells[..i], Separator)
    {
      if first {
        first := false;
      } else {
        r := r + Separator;
      }
      r := r + cells[i];
      if i == 0 {
        assert cells[..1] == [cells[0]];
      } else {
        JoinSnoc(cells[..i], cells[i], Separator);
        assert cells[..i + 1] == cells[..i] + [cells[i]];
      }
      i := i + 1;
    }
    assert cells[..i] == cells;
  }

  /** One more line of a prefix. */
  lemma TextPrefixStep(lines: seq<string>, k: nat)
    requires k < |lines|
    ensures Text(lines[..k + 1]) == Text(lines[..k]) + lines[k] + "\n"
  {
    TextSnoc(lines[..k], lines[k]);
    assert lines[..k + 1] == lines[..k] + [lines[k]];
  }

  /** `getMeasurementResults`' rendering of a series. */
  method Render(series: Series) returns (text: string)
    ensures text == Text(RenderedLines(series))
  {
    var lines := RenderedLines(series);
    text := AppendJoined("", series.columns);
    text := text + "\n";
    assert lines[..1] == [lines[0]];
    TextSnoc([], lines[0]);
    var row := 0;
    while row < |series.values|
      invariant 0 <= row <= |series.values|
      invariant text == Text(lines[..row + 1])
    {
      text := AppendJoined(text, series.values[row]);
      text := text + "\n";
      TextPrefixStep(lines, row + 1);
      row := row + 1;
    }
    assert lines[..row + 1] == lines;
  }

  /** A date holder's reading as milliseconds; `getTime()` on null throws. */
  function Millis(read: Result<Option<int>>): (r: Result<int>)
    ensures read.Err? ==> r == Err(read.failure)
    ensures read == Ok(None) ==> r == Err(Crash(NullPointer))
    ensures read.Ok? && read.value.Some? ==> r == Ok(read.value.value)
  {
    match read
    case Err(f) => Err(f)
    case Ok(None) => Err(Crash(NullPointer))
    case Ok(Some(t)) => Ok(t)
  }

  /** `GetInfluxResults`: which kind of load test it follows and the
      holders of the test's start and stop dates, in milliseconds. */
  datatype GetInfluxResults = GetInfluxResults(generated: bool, startTime: Source<int>, stopTime: Source<int>)
  {
    function Objects(): set<object> {
      startTime.Objects() + stopTime.Objects()
    }

    /** One measurement's text: the start date is read before the stop
        date, then the database is asked for the window and its answer
        rendered. */
    function Results(measurement: string, db: Query -> Result<Series>): (r: Result<string>)
      reads Objects()
      ensures Millis(startTime.Observe().read).Err? ==> r == Err(Millis(startTime.Observe().read).failure)
      ensures Millis(startTime.Observe().read).Ok? && Millis(stopTime.Observe().read).Err? ==>
        r == Err(Millis(stopTime.Observe().read).failure)
      ensures Millis(startTime.Observe().read).Ok? && Millis(stopTime.Observe().read).Ok? ==>
        var answer := db(WindowQuery(measurement, Millis(startTime.Observe().read).value, Millis(stopTime.Observe().read).value));
        (answer.Err? ==> r == Err(answer.failure)) &&
        (answer.Ok? ==> r == Ok(Text(RenderedLines(answer.value))))
    {
      var start :- Millis(startTime.Observe().read);
      var stop :- Millis(stopTime.Observe().read);
      var answer :- db(WindowQuery(measurement, start, stop));
      Ok(Text(RenderedLines(answer)))
    }

    /** `getMeasurementResults`. */
    method MeasurementResults(measurement: string, db: Query -> Result<Series>) returns (r: Result<string>)
      ensures r == Results(measurement, db)
    {
      var start := Millis(startTime.Observe().read);
      if start.Err? {
        return Err(start.failure);
      }
      var stop := Millis(stopTime.Observe().read);
      if stop.Err? {
        return Err(stop.failure);
      }
      var answer := db(WindowQuery(measurement, start.value, stop.value));
      if answer.Err? {
        return Err(answer.failure);
      }
      var text := Render(answer.value);
      return Ok(text);
    }

    /** Whether `written` are the first measurement files, each under
        `path` with its measurement's text, in order. */
    predicate Recorded(written: seq<(string, string)>, path: string, db: Query -> Result<Series>, writable: string -> bool)
      reads Objects()
    {
      |written| <= |Measurements| &&
      forall i :: 0 <= i < |written| ==>
        var file := path + Measurements[i] + ".csv";
        Results(Measurements[i], db).Ok? && written[i] == (file, Results(Measurements[i], db).value) && writable(file)
    }

    /** Whether the writes ended as `s` after `written`: a failure is the
        next measurement's own failure, a normal end with files left means
        the next file could not be written, and after all three files the
        step ends normally. */
    predicate Ended(s: Status, written: seq<(string, string)>, path: string, db: Query -> Result<Series>, writable: string -> bool)
      reads Objects()
    {
      |written| <= |Measurements| &&
      (|written| < |Measurements| ==>
        (s.Failed? ==> Results(Measurements[|written|], db) == Err(s.failure)) &&
        (s.Done? ==> Results(Measurements[|written|], db).Ok? && !writable(path + Measurements[|written|] + ".csv"))) &&
      (|written| == |Measurements| ==> s == Done)
    }

    lemma RecordedSnoc(written: seq<(string, string)>, path: string, db: Query -> Result<Series>, writable: string -> bool)
      requires Recorded(written, path, db, writable) && |written| < |Measurements|
      requires Results(Measurements[|written|], db).Ok? && writable(path + Measurements[|written|] + ".csv")
      ensures Recorded(written + [(path + Measurements[|written|] + ".csv", Results(Measurements[|written|], db).value)], path, db, writable)
    {
    }

    /** One of the three writes, the one after `written`: the
        measurement's text, then its file `<path><measurement>.csv`. A
        failure of the text passes on and a failed write ends the step
        normally; either way `stop` holds the end. */
    method WriteNext(path: string, db: Query -> Result<Series>, writable: string -> bool, written: seq<(string, string)>)
      returns (stop: Option<Status>, next: seq<(string, string)>)
      requires Recorded(written, path, db, writable) && |written| < |Measurements|
      ensures Recorded(next, path, db, writable)
      ensures stop.Some? ==> Ended(stop.value, next, path, db, writable)
      ensures stop.None? ==> |next| == |written| + 1
    {
      var measurement := Measurements[|written|];
      var text := MeasurementResults(measurement, db);
      if text.Err? {
        return Some(Failed(text.failure)), written;
      }
      var file := path + measurement + ".csv";
      if !writable(file) {
        return Some(Done), written;
      }
      RecordedSnoc(written, path, db, writable);
      return None, written + [(file, text.value)];
    }

    /** Moves the shared counter on before a reference test, then writes
        the cpu, memory and business-transaction files under the run's
        directory, in that order. The first failed write is caught and ends
        the step normally; any other failure passes on. `writable` says
        which files can be written. */
    method Execute(runs: RunCounter, db: Query -> Result<Series>, writable: string -> bool)
      returns (s: Status, written: seq<(string, string)>)
      modifies runs
      ensures runs.runCount == (if generated then old(runs.runCount) else Wrap32(old(runs.runCount) + 1))
      ensures Recorded(written, RunPath(runs.runCount, generated), db, writable)
      ensures Ended(s, written, RunPath(runs.runCount, generated), db, writable)
    {
      if !generated {
        runs.runCount := Wrap32(runs.runCount + 1);
      }
      var path := RunPath(runs.runCount, generated);
      var stop;
      stop, written := WriteNext(path, db, writable, []);
      if stop.Some? {
        return stop.value, written;
      }
      stop, written := WriteNext(path, db, writable, written);
      if stop.Some? {
        return stop.value, written;
      }
      stop, written := WriteNext(path, db, writable, written);
      if stop.Some? {
        return stop.value, written;
      }
      return Done, written;
    }
  }

  /** One execution, seen only through the run counter it leaves. */
  method CountedRun(test: GetInfluxResults, runs: RunCounter, db: Query -> Result<Series>, writable: string -> bool)
    returns (count: int)
    modifies runs
    ensures count == runs.runCount == (if test.generated then old(runs.runCount) else Wrap32(old(runs.runCount) + 1))
  {
    var s, written := test.Execute(runs, db, writable);
    count := runs.runCount;
  }

  /** A generated test before any reference test, then a reference test,
      a generated one and another reference one: the counter reads -1, 0,
      0 and 1 as their files are written. */
  method RunNumbering(start: Source<int>, stop: Source<int>, db: Query -> Result<Series>, writable: string -> bool)
    returns (counts: seq<int>)
    ensures counts == [-1, 0, 0, 1]
  {
    var runs := new RunCounter();
    var generated := GetInfluxResults(true, start, stop);
    var reference := GetInfluxResults(false, start, stop);
    var first := CountedRun(generated, runs, db, writable);
    var second := CountedRun(reference, runs, db, writable);
    var third := CountedRun(generated, runs, db, writable);
    var fourth := CountedRun(reference, runs, db, writable);
    counts := [first, second, third, fourth];
  }

  /** The first reference run writes under `run#0/referenceLoadtest/`. */
  lemma FirstReferenceRunPath()
    ensures RunPath(0, false) == "run#0/referenceLoadtest/"
  {
    assert IntToString(0) == "0" by {
      assert NatToString(0) == "0";
    }
  }

  /** A generated run before any reference run writes under
      `run#-1/generatedLoadtest/`. */
  lemma EarlyGeneratedRunPath()
    ensures RunPath(-1, true) == "run#-1/generatedLoadtest/"
  {
    assert IntToString(-1) == "-1" by {
      assert NatToString(1) == "1";
    }
  }
}
