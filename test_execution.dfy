/** `TestExecution`: one load test of the modularization experiment, either
    the non-modularized test or a modularized one with its approach and
    the services under test; its context name; and the reading of the
    test executions from their CSV text (`Main.readTestExecutions`).

    `ModularizationApproach` is not part of this model: an approach is a
    value of `Approach`, whose `toPrettyString` and `fromPrettyString` are
    given as the functions `pretty` and `fromPretty` (the latter may give
    null). */
module TestExecutions {
  import opened Outcomes
  import opened Strings

  datatype Approach = SessionLogs | OtherApproach(name: string)

  datatype TestExecution = TestExecution(servicesUnderTest: seq<string>, modularized: bool, approach: Option<Approach>)

  /** `TestExecution(approach, services...)`: modularized, with the services in the given order. */
  function WithApproach(approach: Option<Approach>, services: seq<string>): (t: TestExecution)
    ensures t.modularized && t.approach == approach && t.servicesUnderTest == services
  {
    TestExecution(services, true, approach)
  }

  /** `TestExecution(modularized)`: no services and no approach, even when
      the flag is true. */
  function OfFlag(modularized: bool): (t: TestExecution)
    ensures t.modularized == modularized && t.approach.None? && t.servicesUnderTest == []
  {
    TestExecution([], modularized, None)
  }

  /** Each service after a "-", in order. */
  function Dashed(services: seq<string>): string {
    if |services| == 0 then "" else Dashed(services[..|services| - 1]) + "-" + services[|services| - 1]
  }

  /** What `toContext` builds: "non-modularized", or the approach's pretty
      string and then each service after a "-"; a modularized execution
      without approach dereferences null. */
  function ContextName(t: TestExecution, pretty: Approach -> string): (r: Result<string>)
    ensures r.Err? <==> t.modularized && t.approach.None?
    ensures r.Err? ==> r.failure == Crash(NullPointer)
    ensures !t.modularized ==> r == Ok("non-modularized")
    ensures r.Ok? && t.modularized ==> StartsWith(r.value, pretty(t.approach.value))
  {
    if !t.modularized then Ok("non-modularized")
    else if t.approach.None? then Err(Crash(NullPointer))
    else Ok(pretty(t.approach.value) + Dashed(t.servicesUnderTest))
  }

  /** `toContext`, appending to a builder service by service. */
  method ToContext(t: TestExecution, pretty: Approach -> string) returns (r: Result<string>)
    ensures r == ContextName(t, pretty)
  {
    if t.modularized {
      if t.approach.None? {
        return Err(Crash(NullPointer));
      }
      var builder := pretty(t.approach.value);
      var i := 0;
      while i < |t.servicesUnderTest|
        invariant 0 <= i <= |t.servicesUnderTest|
        invariant builder == pretty(t.approach.value) + Dashed(t.servicesUnderTest[..i])
      {
        builder := builder + "-";
        builder := builder + t.servicesUnderTest[i];
        assert t.servicesUnderTest[..i + 1][..i] == t.servicesUnderTest[..i];
        i := i + 1;
      }
      assert t.servicesUnderTest[..i] == t.servicesUnderTest;
      return Ok(builder);
    } else {
      return Ok("non-modularized");
    }
  }

  lemma {:induction false} DashedJoin(first: string, services: seq<string>)
    ensures first + Dashed(services) == Join([first] + services, "-")
  {
    if |services| > 0 {
      var init := services[..|services| - 1];
      DashedJoin(first, init);
      JoinSnoc([first] + init, services[|services| - 1], "-");
      assert [first] + services == ([first] + init) + [services[|services| - 1]];
    } else {
      assert [first] + services == [first];
    }
  }

  /** A modularized context name is the approach's pretty string and the
      services joined with "-". */
  lemma ContextNameJoins(a: Approach, services: seq<string>, pretty: Approach -> string)
    ensures ContextName(WithApproach(Some(a), services), pretty) == Ok(Join([pretty(a)] + services, "-"))
  {
    DashedJoin(pretty(a), services);
  }

  /** When neither the pretty string nor a service holds a "-" and the
      last one is not empty, splitting the context name at "-" gives them
      back. */
  lemma ContextNameSplits(a: Approach, services: seq<string>, pretty: Approach -> string)
    requires '-' !in pretty(a) && forall i :: 0 <= i < |services| ==> '-' !in services[i]
    requires |services| == 0 || services[|services| - 1] != ""
    ensures Split(Join([pretty(a)] + services, "-"), '-') == [pretty(a)] + services
  {
    var parts := [pretty(a)] + services;
    assert forall i :: 0 <= i < |parts| ==> '-' !in parts[i] by {
      forall i | 0 <= i < |parts| ensures '-' !in parts[i] {
        if i > 0 {
          assert parts[i] == services[i - 1];
        }
      }
    }
    assert |parts| == 1 || parts[|parts| - 1] != "" by {
      if |parts| > 1 {
        assert parts[|parts| - 1] == services[|services| - 1];
      }
    }
    SplitJoin(parts, '-');
  }

  /** The non-modularized test renders as "non-modularized";
      `TestExecution(true)` has no approach and its rendering fails. */
  lemma FlagContexts(pretty: Approach -> string)
    ensures ContextName(OfFlag(false), pretty) == Ok("non-modularized")
    ensures ContextName(OfFlag(true), pretty) == Err(Crash(NullPointer))
  {
  }

  const NonModularized: string := "non-modularized"

  /** One row of the test-executions CSV: the first comma field names the
      approach, or is "non-modularized"; the other fields are the services.
      A row that splits into no fields fails at `[0]`. */
  function ParseRow(row: string, fromPretty: string -> Option<Approach>): (r: Result<TestExecution>)
    ensures r.Err? ==> r.failure == Crash(IndexOutOfBounds)
  {
    var fields := Split(row, ',');
    if |fields| == 0 then Err(Crash(IndexOutOfBounds))
    else if fields[0] == NonModularized then Ok(OfFlag(false))
    else Ok(WithApproach(fromPretty(fields[0]), fields[1..]))
  }

  /** The rows of the file: the text split at line feeds, an unreadable
      file counting as empty text. */
  function Rows(content: Option<string>): seq<string> {
    Split(ContentText(content), '\n')
  }

  /** The text of the file, or "" when it could not be read. */
  function ContentText(content: Option<string>): string {
    if content.Some? then content.value else ""
  }

  /** The body of the loop of `readTestExecutions`: the first field, then
      the execution it names. */
  method ReadRow(row: string, fromPretty: string -> Option<Approach>) returns (r: Result<TestExecution>)
    ensures r == ParseRow(row, fromPretty)
  {
    var fields := Split(row, ',');
    if |fields| == 0 {
      return Err(Crash(IndexOutOfBounds));
    }
    var approach := fields[0];
    if NonModularized == approach {
      return Ok(OfFlag(false));
    }
    var services := fields[1..];
    return Ok(WithApproach(fromPretty(approach), services));
  }

  /** What each row reads as, in row order. */
  function ParsedRows(rows: seq<string>, fromPretty: string -> Option<Approach>): (r: seq<Result<TestExecution>>)
    ensures |r| == |rows|
  {
    seq(|rows|, i requires 0 <= i < |rows| => ParseRow(rows[i], fromPretty))
  }

  /** `readTestExecutions`: the rows of the file read one by one into a
      list; the first row that throws ends the reading with its exception,
      which is always IndexOutOfBoundsException. */
  method ReadTestExecutions(content: Option<string>, fromPretty: string -> Option<Approach>) returns (r: Result<seq<TestExecution>>)
    ensures r == Collect(ParsedRows(Rows(content), fromPretty))
    ensures r.Err? ==> r.failure == Crash(IndexOutOfBounds)
  {
    var text := "";
    if content.Some? {
      text := content.value;
    }
    assert text == ContentText(content);
    var rows := Split(text, '\n');
    ghost var parsed := ParsedRows(rows, fromPretty);
    var executions: seq<TestExecution> := [];
    var i := 0;
    assert parsed[..0] == [];
    while i < |rows|
      invariant 0 <= i <= |rows|
      invariant Collect(parsed[..i]) == Ok(executions)
    {
      var execution := ReadRow(rows[i], fromPretty);
      assert parsed[i] == execution;
      CollectStep(parsed, i);
      if execution.Err? {
        CollectErrStays(parsed, i + 1);
        return Err(execution.failure);
      }
      executions := executions + [execution.value];
      i := i + 1;
    }
    assert parsed[..i] == parsed;
    return Ok(executions);
  }

  /** Reading the file succeeds exactly when every row has a field, and
      then gives one execution per row, each the one its row reads as. */
  lemma ReadAllRows(rows: seq<string>, fromPretty: string -> Option<Approach>)
    ensures Collect(ParsedRows(rows, fromPretty)).Ok? <==> forall i :: 0 <= i < |rows| ==> |Split(rows[i], ',')| > 0
    ensures Collect(ParsedRows(rows, fromPretty)).Ok? ==>
      |Collect(ParsedRows(rows, fromPretty)).value| == |rows| &&
      forall i :: 0 <= i < |rows| ==> Collect(ParsedRows(rows, fromPretty)).value[i] == ParseRow(rows[i], fromPretty).value
  {
    var parsed := ParsedRows(rows, fromPretty);
    CollectMeaning(parsed);
    forall i | 0 <= i < |rows| ensures parsed[i] == ParseRow(rows[i], fromPretty) && (parsed[i].Ok? <==> |Split(rows[i], ',')| > 0) {
    }
  }

  /** A modularized execution written as a row, its approach's pretty
      string then its services joined with ",", reads back as itself when
      `fromPretty` undoes `pretty`, no field holds a comma, the approach is
      not spelled "non-modularized" and the last field is not empty. */
  lemma RowRoundTrip(a: Approach, services: seq<string>, pretty: Approach -> string, fromPretty: string -> Option<Approach>)
    requires fromPretty(pretty(a)) == Some(a) && pretty(a) != NonModularized
    requires ',' !in pretty(a) && forall i :: 0 <= i < |services| ==> ',' !in services[i]
    requires |services| == 0 || services[|services| - 1] != ""
    ensures ParseRow(Join([pretty(a)] + services, ","), fromPretty) == Ok(WithApproach(Some(a), services))
  {
    var parts := [pretty(a)] + services;
    assert forall i :: 0 <= i < |parts| ==> ',' !in parts[i] by {
      forall i | 0 <= i < |parts| ensures ',' !in parts[i] {
        if i > 0 {
          assert parts[i] == services[i - 1];
        }
      }
    }
    assert |parts| == 1 || parts[|parts| - 1] != "" by {
      if |parts| > 1 {
        assert parts[|parts| - 1] == services[|services| - 1];
      }
    }
    SplitJoin(parts, ',');
    assert parts[0] == pretty(a) && parts[1..] == services;
  }

  /** A row whose first field is "non-modularized" gives the
      non-modularized execution, whatever fields follow. */
  lemma NonModularizedRow(rest: seq<string>, fromPretty: string -> Option<Approach>)
    requires forall i :: 0 <= i < |rest| ==> ',' !in rest[i]
    ensures ParseRow(Join([NonModularized] + rest, ","), fromPretty) == Ok(OfFlag(false))
  {
    var all := [NonModularized] + rest;
    var row := Join(all, ",");
    assert ',' !in NonModularized by {
      forall i | 0 <= i < |NonModularized| ensures NonModularized[i] != ',' {
      }
    }
    assert forall i :: 0 <= i < |all| ==> ',' !in all[i] by {
      forall i | 0 <= i < |all| ensures ',' !in all[i] {
        if i > 0 {
          assert all[i] == rest[i - 1];
        }
      }
    }
    assert |Split(row, ',')| > 0 && Split(row, ',')[0] == NonModularized by {
      SplitHead(all, ',');
    }
  }

  /** Java's split of a join of separator-free parts whose first part is
      not empty starts with that part. */
  lemma SplitHead(parts: seq<string>, c: char)
    requires |parts| > 0 && parts[0] != ""
    requires forall i :: 0 <= i < |parts| ==> c !in parts[i]
    ensures |Split(Join(parts, [c]), c)| > 0 && Split(Join(parts, [c]), c)[0] == parts[0]
  {
    var row := Join(parts, [c]);
    SplitAllJoin(parts, c);
    if c in row {
      DropKeepsNonEmptyHead(parts);
    }
  }

  /** Dropping trailing empty strings keeps a non-empty first one. */
  lemma {:induction false} DropKeepsNonEmptyHead(parts: seq<string>)
    requires |parts| > 0 && parts[0] != ""
    ensures |DropTrailingEmpty(parts)| > 0 && DropTrailingEmpty(parts)[0] == parts[0]
  {
    if parts[|parts| - 1] == "" {
      assert |parts| > 1;
      DropKeepsNonEmptyHead(parts[..|parts| - 1]);
    }
  }

  /** A row of commas only has no fields at all, so reading it fails at
      the first field. */
  lemma CommasOnlyRowFails(row: string, fromPretty: string -> Option<Approach>)
    requires |row| > 0 && forall i :: 0 <= i < |row| ==> row[i] == ','
    ensures ParseRow(row, fromPretty) == Err(Crash(IndexOutOfBounds))
  {
    SplitSeparatorsOnly(row, ',');
  }

  /** An unreadable file reads like an empty one: one empty row, which names
      the approach `fromPretty("")` with no services. */
  lemma UnreadableIsEmpty(fromPretty: string -> Option<Approach>)
    ensures Rows(None) == Rows(Some("")) == [""]
    ensures ParseRow("", fromPretty) == Ok(WithApproach(fromPretty(""), []))
  {
    assert Split("", ',') == [""];
  }
}
