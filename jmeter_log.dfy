/** `JMeterLog` and `JMeterLogEntry`: a JMeter result log read from
    tab-separated lines, where each entry looks its cells up by column
    name. */
module JMeterLogs {
  import opened Outcomes
  import opened Strings
  import opened Sequences
  import opened Decimal

  /** The column layout assumed when a log has no header row. */
  const DefaultHeaderNames: seq<string> := [
    "timeStamp", "elapsed", "label", "responseCode", "responseMessage", "threadName", "dataType", "success",
    "bytes", "sentBytes", "grpThreads", "allThreads", "Latency", "SampleCount", "ErrorCount", "Connect",
    "\"SESSION_ID\"", "\"REFERENCE\""]

  /** Each name of a header row and its position; a name that occurs
      more than once keeps its last position. */
  function HeadersMap(row: seq<string>): (m: map<string, int>)
    ensures forall name :: name in m <==> name in row
    ensures forall name :: name in m ==> m[name] == LastIndex(row, name)
  {
    if |row| == 0 then map[]
    else
      var init := row[..|row| - 1];
      assert row == init + [row[|row| - 1]];
      HeadersMap(init)[row[|row| - 1] := |row| - 1]
  }

  /** `toHeadersMap`: one `put(name, index)` per cell, in order. */
  method ToHeadersMap(row: seq<string>) returns (headers: map<string, int>)
    ensures headers == HeadersMap(row)
  {
    headers := map[];
    var index := 0;
    while index < |row|
      invariant 0 <= index <= |row|
      invariant headers == HeadersMap(row[..index])
    {
      assert row[..index + 1][..index] == row[..index];
      headers := headers[row[index] := index];
      index := index + 1;
    }
    assert row[..index] == row;
  }

  /** One line of the log: the header map it was read with and its cells. */
  datatype Entry = Entry(headers: map<string, int>, row: seq<string>)
  {
    /** The cell of the named column; null for a name that is no column,
        and an index error for a column the row does not reach. */
    function GetValue(property: string): (r: Result<Option<string>>)
      ensures property !in headers ==> r == Ok(None)
      ensures property in headers && 0 <= headers[property] < |row| ==> r == Ok(Some(row[headers[property]]))
      ensures property in headers && !(0 <= headers[property] < |row|) ==> r == Err(Crash(IndexOutOfBounds))
    {
      if property !in headers then Ok(None)
      else
        var i := headers[property];
        if 0 <= i < |row| then Ok(Some(row[i])) else Err(Crash(IndexOutOfBounds))
    }

    /** The cell read as an `int`: IllegalArgumentException when there is
        no cell, NumberFormatException when it is no decimal `int`. */
    function GetIntValue(property: string): (r: Result<int>)
      ensures GetValue(property).Err? ==> r == Err(GetValue(property).failure)
      ensures GetValue(property) == Ok(None) ==> r == Err(Crash(IllegalArgument))
      ensures GetValue(property).Ok? && GetValue(property).value.Some? ==> r == ParseInt(GetValue(property).value.value)
    {
      var v :- GetValue(property);
      if v.None? then Err(Crash(IllegalArgument)) else ParseInt(v.value)
    }

    /** The `timeStamp` cell read by a date parser, given as `parse`, that
        yields milliseconds or nothing. Unparsable text gives null rather
        than a failure, but a missing cell reaches the parser as null and
        makes it throw NullPointerException. */
    function GetTimestamp(parse: string -> Option<int>): (r: Result<Option<int>>)
      ensures GetValue("timeStamp").Err? ==> r == Err(GetValue("timeStamp").failure)
      ensures GetValue("timeStamp") == Ok(None) ==> r == Err(Crash(NullPointer))
      ensures GetValue("timeStamp").Ok? && GetValue("timeStamp").value.Some? ==>
        r == Ok(parse(GetValue("timeStamp").value.value))
    {
      var v :- GetValue("timeStamp");
      if v.None? then Err(Crash(NullPointer)) else Ok(parse(v.value))
    }
  }

  datatype Log = Log(entries: seq<Entry>)

  /** Each line split at tab characters. */
  function SplitRows(csv: seq<string>): (rows: seq<seq<string>>)
    ensures |rows| == |csv|
    ensures forall i :: 0 <= i < |csv| ==> rows[i] == Split(csv[i], '\t')
  {
    seq(|csv|, i requires 0 <= i < |csv| => Split(csv[i], '\t'))
  }

  /** Whether the first line is a header row: its first cell is `timeStamp`. */
  predicate HasHeaderRow(csv: seq<string>)
    requires |csv| > 0 && |Split(csv[0], '\t')| > 0
  {
    Split(csv[0], '\t')[0] == "timeStamp"
  }

  /** `fromCsv`: the header row, if any, gives the column layout and is
      no entry; otherwise the default layout applies to every line. A log
      with no lines, or whose first line has no cell, fails when its first
      cell is read. */
  function FromCsv(csv: seq<string>): (r: Result<Log>)
    ensures |csv| == 0 || |Split(csv[0], '\t')| == 0 <==> r.Err?
    ensures r.Err? ==> r.failure == Crash(IndexOutOfBounds)
    ensures r.Ok? && HasHeaderRow(csv) ==>
      |r.value.entries| == |csv| - 1 &&
      forall i :: 0 <= i < |csv| - 1 ==>
        r.value.entries[i] == Entry(HeadersMap(Split(csv[0], '\t')), Split(csv[i + 1], '\t'))
    ensures r.Ok? && !HasHeaderRow(csv) ==>
      |r.value.entries| == |csv| &&
      forall i :: 0 <= i < |csv| ==> r.value.entries[i] == Entry(HeadersMap(DefaultHeaderNames), Split(csv[i], '\t'))
  {
    var rows := SplitRows(csv);
    if |rows| == 0 || |rows[0]| == 0 then Err(Crash(IndexOutOfBounds))
    else
      var (headers, body) :=
        if rows[0][0] == "timeStamp" then (HeadersMap(rows[0]), rows[1..]) else (HeadersMap(DefaultHeaderNames), rows);
      Ok(Log(seq(|body|, i requires 0 <= i < |body| => Entry(headers, body[i]))))
  }

  /** A name whose last occurrence in a header row is at k maps to k. */
  lemma HeadersMapAt(row: seq<string>, name: string, k: nat)
    requires k < |row| && row[k] == name
    requires forall j :: k < j < |row| ==> row[j] != name
    ensures name in HeadersMap(row) && HeadersMap(row)[name] == k
  {
    var tail := row[k + 1..];
    assert name !in tail by {
      forall q | 0 <= q < |tail| ensures tail[q] != name {
        assert tail[q] == row[k + 1 + q];
      }
    }
    LastIndexAt(row, name, k);
  }

  /** Without a header row, `timeStamp` is column 0, `label` column 2
      and `threadName` column 5. */
  lemma DefaultTimeStampAt0()
    ensures HeadersMap(DefaultHeaderNames)["timeStamp"] == 0
  {
    var names := DefaultHeaderNames;
    forall j | 0 < j < |names| ensures names[j] != "timeStamp" {
      assert |names[j]| != 9 || names[j][0] != 't';
    }
    HeadersMapAt(names, "timeStamp", 0);
  }

  lemma DefaultLabelAt2()
    ensures HeadersMap(DefaultHeaderNames)["label"] == 2
  {
    var names := DefaultHeaderNames;
    forall j | 2 < j < |names| ensures names[j] != "label" {
      assert |names[j]| != 5 || names[j][0] != 'l';
    }
    HeadersMapAt(names, "label", 2);
  }

  lemma DefaultThreadNameAt5()
    ensures HeadersMap(DefaultHeaderNames)["threadName"] == 5
  {
    var names := DefaultHeaderNames;
    forall j | 5 < j < |names| ensures names[j] != "threadName" {
      assert |names[j]| != 10 || names[j][0] != 't';
    }
    HeadersMapAt(names, "threadName", 5);
  }

  /** In a log with a header row, every entry reads, for each column name
      of the header, the cell at that name's last position. */
  lemma HeaderColumnsRead(csv: seq<string>, i: nat, name: string)
    requires |csv| > 0 && |Split(csv[0], '\t')| > 0 && HasHeaderRow(csv)
    requires i < |csv| - 1 && name in Split(csv[0], '\t')
    requires LastIndex(Split(csv[0], '\t'), name) < |Split(csv[i + 1], '\t')|
    ensures FromCsv(csv).Ok?
    ensures FromCsv(csv).value.entries[i].GetValue(name) ==
      Ok(Some(Split(csv[i + 1], '\t')[LastIndex(Split(csv[0], '\t'), name)]))
  {
  }
}
