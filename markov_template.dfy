/** `MarkovTemplate`: the allowed-transitions template of a Markov chain as
    a table of strings. Row 0 is the header, every other row starts with
    the name of an interface, and the last header cell is the end state
    `$`. Rows and columns are added and removed by interface name. */
module MarkovTemplates {
  import opened Outcomes
  import opened Strings
  import opened Sequences

  type Table = seq<seq<string>>

  /** Every row has the width of the header. */
  predicate Rectangular(t: Table) {
    |t| > 0 && forall i :: 0 <= i < |t| ==> |t[i]| == |t[0]|
  }

  /** The position of the first row whose first cell is `name`, or -1.
      Reading the first cell of an empty row before reaching it throws. */
  function RowIndex(t: Table, name: string): (r: Result<int>)
    ensures r.Ok? ==> -1 <= r.value < |t|
    ensures r.Ok? && r.value >= 0 ==> |t[r.value]| > 0 && t[r.value][0] == name
    ensures r.Ok? ==> forall j :: 0 <= j < (if r.value < 0 then |t| else r.value) ==> |t[j]| > 0 && t[j][0] != name
    ensures r.Err? ==> (r.failure == Crash(IndexOutOfBounds) &&
      exists j :: 0 <= j < |t| && |t[j]| == 0 && forall i :: 0 <= i < j ==> |t[i]| > 0 && t[i][0] != name)
  {
    if |t| == 0 then Ok(-1)
    else if |t[0]| == 0 then Err(Crash(IndexOutOfBounds))
    else if t[0][0] == name then Ok(0)
    else
      var rest := RowIndex(t[1..], name);
      assert forall j :: 1 <= j < |t| ==> t[1..][j - 1] == t[j];
      match rest
      case Err(f) =>
        assert exists j :: 0 <= j < |t| && |t[j]| == 0 && forall i :: 0 <= i < j ==> |t[i]| > 0 && t[i][0] != name by {
          var j :| 0 <= j < |t[1..]| && |t[1..][j]| == 0 && forall i :: 0 <= i < j ==> |t[1..][i]| > 0 && t[1..][i][0] != name;
          assert |t[j + 1]| == 0;
          assert forall i :: 0 <= i < j + 1 ==> |t[i]| > 0 && t[i][0] != name by {
            forall i | 0 <= i < j + 1 ensures |t[i]| > 0 && t[i][0] != name {
              if i > 0 {
                assert t[i] == t[1..][i - 1];
              }
            }
          }
        }
        Err(f)
      case Ok(k) => if k < 0 then Ok(-1) else Ok(k + 1)
  }

  /** `getRow`: the first row with that name, or null. */
  function RowOf(t: Table, name: string): (r: Result<Option<seq<string>>>)
    ensures r.Err? ==> r.failure == Crash(IndexOutOfBounds)
    ensures r.Ok? && r.value.Some? ==> r.value.value in t && |r.value.value| > 0 && r.value.value[0] == name
    ensures r.Ok? && r.value.None? ==> forall j :: 0 <= j < |t| ==> |t[j]| > 0 && t[j][0] != name
  {
    var k :- RowIndex(t, name);
    if k < 0 then Ok(None) else Ok(Some(t[k]))
  }

  /** `getColumnIndex`: the first header position holding `name`, or -1;
      a template without rows has no header to read. */
  function ColumnIndex(t: Table, name: string): (r: Result<int>)
    ensures r.Err? <==> |t| == 0
    ensures r.Err? ==> r.failure == Crash(IndexOutOfBounds)
    ensures r.Ok? ==> r.value == FirstIndex(t[0], name)
  {
    if |t| == 0 then Err(Crash(IndexOutOfBounds)) else Ok(FirstIndex(t[0], name))
  }

  /** Every row reaches position k. */
  predicate Reaches(t: Table, k: int) {
    forall i :: 0 <= i < |t| ==> 0 <= k < |t[i]|
  }

  /** `getColumn`: null for a name that heads no column, otherwise that
      cell of every row, header included, in row order. */
  function Column(t: Table, name: string): (r: Result<Option<seq<string>>>)
    ensures r.Ok? && r.value.Some? ==> (
      |t| > 0 && 0 <= ColumnIndex(t, name).value && Reaches(t, ColumnIndex(t, name).value) &&
      |r.value.value| == |t| &&
      forall i :: 0 <= i < |t| ==> r.value.value[i] == t[i][ColumnIndex(t, name).value])
    ensures r.Ok? && r.value.None? <==> ColumnIndex(t, name) == Ok(-1)
    ensures r.Err? ==> r.failure == Crash(IndexOutOfBounds)
    ensures r.Err? <==> |t| == 0 || (ColumnIndex(t, name).value >= 0 && !Reaches(t, ColumnIndex(t, name).value))
  {
    var k :- ColumnIndex(t, name);
    if k < 0 then Ok(None)
    else if Reaches(t, k) then Ok(Some(seq(|t|, i requires 0 <= i < |t| => t[i][k])))
    else Err(Crash(IndexOutOfBounds))
  }

  /** `insertRow`'s result. */
  function RowAdded(t: Table, row: seq<string>): (r: Table)
    ensures |r| == |t| + 1 && r[..|t|] == t && r[|t|] == row
  {
    t + [row]
  }

  /** `removeRow`: drops the first row with that name. */
  function RowRemoved(t: Table, name: string): (r: Result<Table>)
    ensures r.Err? <==> RowIndex(t, name).Err?
    ensures r.Ok? && RowIndex(t, name).value < 0 ==> r.value == t
    ensures r.Ok? && RowIndex(t, name).value >= 0 ==> r.value == RemoveAt(t, RowIndex(t, name).value)
  {
    var k :- RowIndex(t, name);
    if k < 0 then Ok(t) else Ok(RemoveAt(t, k))
  }

  /** The position at which `insertColumn` adds a cell: before the last
      header cell. */
  function InsertPosition(t: Table): int
    requires |t| > 0
  {
    |t[0]| - 1
  }

  /** Whether `insertColumn(column)` succeeds: there is a header, it is
      not empty, every row reaches the insert position and the column has
      a cell for every row. */
  predicate ColumnFits(t: Table, column: seq<string>) {
    |t| > 0 && 0 <= InsertPosition(t) && |column| >= |t| &&
    forall i :: 0 <= i < |t| ==> InsertPosition(t) <= |t[i]|
  }

  /** `insertColumn`: cell `column[i]` goes into row i before the header's
      last position. */
  function ColumnAdded(t: Table, column: seq<string>): (r: Result<Table>)
    ensures r.Ok? <==> ColumnFits(t, column)
    ensures r.Err? ==> r.failure == Crash(IndexOutOfBounds)
    ensures r.Ok? ==> (|r.value| == |t| &&
      forall i :: 0 <= i < |t| ==> r.value[i] == InsertAt(t[i], InsertPosition(t), column[i]))
  {
    if ColumnFits(t, column) then
      var at := InsertPosition(t);
      Ok(seq(|t|, i requires 0 <= i < |t| => InsertAt(t[i], at, column[i])))
    else Err(Crash(IndexOutOfBounds))
  }

  /** Where `insertColumn`'s loop stops, counting from row `from`: the
      first row too short for position `at` or without a cell in the
      column, or the number of rows when there is none. */
  function FittingRows(t: Table, column: seq<string>, at: int, from: nat): (k: nat)
    requires from <= |t|
    ensures from <= k <= |t|
    ensures forall j :: from <= j < k ==> 0 <= at <= |t[j]| && j < |column|
    ensures k < |t| ==> !(0 <= at <= |t[k]| && k < |column|)
    decreases |t| - from
  {
    if from == |t| || !(0 <= at <= |t[from]| && from < |column|) then from
    else FittingRows(t, column, at, from + 1)
  }

  /** The rows once `insertColumn` has run, completed or not: the rows
      before the one that makes `row.add` or `column.get` throw are
      widened, that row and the rest are as they were. */
  function PartlyWidened(t: Table, column: seq<string>): (r: Table)
    ensures |r| == |t|
    ensures |t| == 0 ==> r == t
    ensures |t| > 0 ==> var k := FittingRows(t, column, InsertPosition(t), 0);
      (forall i :: 0 <= i < k ==> r[i] == InsertAt(t[i], InsertPosition(t), column[i])) &&
      (forall i :: k <= i < |t| ==> r[i] == t[i])
  {
    if |t| == 0 then t
    else
      var at := InsertPosition(t);
      var k := FittingRows(t, column, at, 0);
      seq(|t|, i requires 0 <= i < |t| => if i < k then InsertAt(t[i], at, column[i]) else t[i])
  }

  /** `insertColumn` runs to the end exactly when the column fits, and
      then its rows are the widened table. */
  lemma PartlyWidenedWhenFits(t: Table, column: seq<string>)
    ensures ColumnFits(t, column) <==> |t| > 0 && FittingRows(t, column, InsertPosition(t), 0) == |t|
    ensures ColumnFits(t, column) ==> PartlyWidened(t, column) == ColumnAdded(t, column).value
  {
    if |t| > 0 && FittingRows(t, column, InsertPosition(t), 0) == |t| {
      var last := |t| - 1;
      assert 0 <= InsertPosition(t) <= |t[last]| && last < |column|;
    }
  }

  /** Where `removeColumn`'s loop stops, counting from row `from`: the
      first row too short for position `k`, or the number of rows. */
  function ReachingRows(t: Table, k: int, from: nat): (n: nat)
    requires from <= |t|
    ensures from <= n <= |t|
    ensures forall j :: from <= j < n ==> 0 <= k < |t[j]|
    ensures n < |t| ==> !(0 <= k < |t[n]|)
    decreases |t| - from
  {
    if from == |t| || !(0 <= k < |t[from]|) then from
    else ReachingRows(t, k, from + 1)
  }

  /** The rows once `removeColumn` has run, completed or not: unchanged
      for a name that heads no column (or a template without rows),
      otherwise narrowed up to the first row that makes `row.remove`
      throw. */
  function PartlyNarrowed(t: Table, name: string): (r: Table)
    ensures |r| == |t|
    ensures ColumnIndex(t, name).Err? || ColumnIndex(t, name).value < 0 ==> r == t
    ensures ColumnIndex(t, name).Ok? && ColumnIndex(t, name).value >= 0 ==>
      var c := ColumnIndex(t, name).value;
      var n := ReachingRows(t, c, 0);
      (forall i :: 0 <= i < n ==> r[i] == RemoveAt(t[i], c)) &&
      (forall i :: n <= i < |t| ==> r[i] == t[i])
  {
    if |t| == 0 || FirstIndex(t[0], name) < 0 then t
    else
      var c := FirstIndex(t[0], name);
      var n := ReachingRows(t, c, 0);
      seq(|t|, i requires 0 <= i < |t| => if i < n then RemoveAt(t[i], c) else t[i])
  }

  /** `removeColumn` runs to the end exactly when it does not throw, and
      then its rows are the narrowed table. */
  lemma PartlyNarrowedWhenReached(t: Table, name: string)
    ensures ColumnRemoved(t, name).Ok? <==>
      |t| > 0 && (FirstIndex(t[0], name) < 0 || ReachingRows(t, FirstIndex(t[0], name), 0) == |t|)
    ensures ColumnRemoved(t, name).Ok? ==> PartlyNarrowed(t, name) == ColumnRemoved(t, name).value
  {
    if |t| > 0 && FirstIndex(t[0], name) >= 0 {
      var c := FirstIndex(t[0], name);
      if ReachingRows(t, c, 0) < |t| {
        assert !Reaches(t, c);
      }
    }
  }

  /** `removeColumn`: the named column leaves every row; a name that
      heads no column changes nothing. */
  function ColumnRemoved(t: Table, name: string): (r: Result<Table>)
    ensures r.Ok? && ColumnIndex(t, name) == Ok(-1) ==> r.value == t
    ensures r.Ok? ==> |t| > 0
    ensures r.Ok? && ColumnIndex(t, name).value >= 0 ==> (
      Reaches(t, ColumnIndex(t, name).value) && |r.value| == |t| &&
      forall i :: 0 <= i < |t| ==> r.value[i] == RemoveAt(t[i], ColumnIndex(t, name).value))
    ensures r.Err? <==> |t| == 0 || (ColumnIndex(t, name).value >= 0 && !Reaches(t, ColumnIndex(t, name).value))
    ensures r.Err? ==> r.failure == Crash(IndexOutOfBounds)
  {
    var k :- ColumnIndex(t, name);
    if k < 0 then Ok(t)
    else if Reaches(t, k) then Ok(seq(|t|, i requires 0 <= i < |t| => RemoveAt(t[i], k)))
    else Err(Crash(IndexOutOfBounds))
  }

  /** `writeToFile`'s lines: each row's cells joined with ",". The join
      is a stream reduction, which throws for an empty row. */
  function Lines(t: Table): (r: Result<seq<string>>)
    ensures r.Ok? <==> forall i :: 0 <= i < |t| ==> |t[i]| > 0
    ensures r.Err? ==> r.failure == Crash(NoSuchElement)
    ensures r.Ok? ==> |r.value| == |t| && forall i :: 0 <= i < |t| ==> r.value[i] == Join(t[i], ",")
  {
    if |t| == 0 then Ok([])
    else
      var first :- ReduceJoin(t[0], ",");
      var rest :- Lines(t[1..]);
      assert forall i :: 1 <= i < |t| ==> t[1..][i - 1] == t[i];
      Ok([first] + rest)
  }

  /** `readMatrixTemplate`'s rows: each line split at ",". */
  function ReadTable(lines: seq<string>): (t: Table)
    ensures |t| == |lines| && forall i :: 0 <= i < |lines| ==> t[i] == Split(lines[i], ',')
  {
    seq(|lines|, i requires 0 <= i < |lines| => Split(lines[i], ','))
  }

  /** A row that can be written and read back unchanged: not empty, no
      cell holds ",", and the last cell is not empty unless it is the
      only one (Java's split drops trailing empty cells). */
  predicate Writable(row: seq<string>) {
    |row| > 0 && (forall j :: 0 <= j < |row| ==> ',' !in row[j]) && (|row| == 1 || row[|row| - 1] != "")
  }

  /** Reading back what was written gives the template back. */
  lemma ReadWritten(t: Table)
    requires forall i :: 0 <= i < |t| ==> Writable(t[i])
    ensures Lines(t).Ok? && ReadTable(Lines(t).value) == t
  {
    var lines := Lines(t).value;
    forall i | 0 <= i < |t| ensures Split(lines[i], ',') == t[i] {
      SplitJoin(t[i], ',');
    }
  }

  class MarkovTemplate {
    var rows: Table

    /** The template read from the lines of its file. */
    constructor (lines: seq<string>)
      ensures rows == ReadTable(lines)
    {
      rows := ReadTable(lines);
    }

    /** `getRow`: a scan over the rows. */
    method GetRow(name: string) returns (r: Result<Option<seq<string>>>)
      ensures r == RowOf(rows, name)
    {
      var i := 0;
      while i < |rows|
        invariant 0 <= i <= |rows|
        invariant forall j :: 0 <= j < i ==> |rows[j]| > 0 && rows[j][0] != name
      {
        if |rows[i]| == 0 {
          return Err(Crash(IndexOutOfBounds));
        }
        if rows[i][0] == name {
          return Ok(Some(rows[i]));
        }
        i := i + 1;
      }
      return Ok(None);
    }

    method InsertRow(row: seq<string>)
      modifies this
      ensures rows == RowAdded(old(rows), row)
    {
      rows := rows + [row];
    }

    /** `removeRow`. A name with no row hands null to `List.remove`, and
        no row is null. */
    method RemoveRow(name: string) returns (s: Status)
      modifies this
      ensures RowRemoved(old(rows), name).Err? ==> s == Failed(RowRemoved(old(rows), name).failure) && rows == old(rows)
      ensures RowRemoved(old(rows), name).Ok? ==> s == Done && rows == RowRemoved(old(rows), name).value
    {
      var row := GetRow(name);
      if row.Err? {
        return Failed(row.failure);
      }
      if row.value.Some? {
        rows := RemoveAt(rows, RowIndex(rows, name).value);
      }
      return Done;
    }

    /** `getColumnIndex`: a counted scan over the header with a found flag. */
    method GetColumnIndex(name: string) returns (r: Result<int>)
      ensures r == ColumnIndex(rows, name)
    {
      if |rows| == 0 {
        return Err(Crash(IndexOutOfBounds));
      }
      var header := rows[0];
      var colIdx := 0;
      var found := false;
      while colIdx < |header| && !found
        invariant 0 <= colIdx <= |header|
        invariant name !in header[..colIdx]
        invariant found ==> colIdx < |header| && header[colIdx] == name
        decreases |header| - colIdx, if found then 0 else 1
      {
        if header[colIdx] == name {
          found := true;
        } else {
          assert header[..colIdx + 1] == header[..colIdx] + [header[colIdx]];
          colIdx := colIdx + 1;
        }
      }
      if !found {
        assert header[..colIdx] == header;
      }
      return Ok(if found then colIdx else -1);
    }

    /** `getColumn`: a scan collecting one cell per row. */
    method GetColumn(name: string) returns (r: Result<Option<seq<string>>>)
      ensures r == Column(rows, name)
    {
      var colIdx :- GetColumnIndex(name);
      if colIdx < 0 {
        return Ok(None);
      }
      var column := [];
      var i := 0;
      while i < |rows|
        invariant 0 <= i <= |rows|
        invariant Reaches(rows[..i], colIdx)
        invariant |column| == i && forall j :: 0 <= j < i ==> column[j] == rows[j][colIdx]
      {
        if colIdx >= |rows[i]| {
          return Err(Crash(IndexOutOfBounds));
        }
        column := column + [rows[i][colIdx]];
        i := i + 1;
      }
      assert rows[..i] == rows;
      var t := rows;
      assert column == seq(|t|, j requires 0 <= j < |t| => t[j][colIdx]);
      return Ok(Some(column));
    }

    /** `insertColumn`: row by row. A row too short for the position or a
        missing cell stops the loop with the rows before it already
        widened. */
    method InsertColumn(column: seq<string>) returns (s: Status)
      modifies this
      ensures s == if ColumnFits(old(rows), column) then Done else Failed(Crash(IndexOutOfBounds))
      ensures rows == PartlyWidened(old(rows), column)
      ensures ColumnAdded(old(rows), column).Ok? ==> rows == ColumnAdded(old(rows), column).value
    {
      PartlyWidenedWhenFits(rows, column);
      if |rows| == 0 {
        return Failed(Crash(IndexOutOfBounds));
      }
      ghost var before := rows;
      ghost var stop := FittingRows(before, column, InsertPosition(before), 0);
      var colIdx := |rows[0]| - 1;
      var rowIdx := 0;
      while rowIdx < |rows|
        invariant 0 <= rowIdx <= stop && |rows| == |before|
        invariant colIdx == InsertPosition(before)
        invariant forall j :: 0 <= j < rowIdx ==> rows[j] == InsertAt(before[j], colIdx, column[j])
        invariant forall j :: rowIdx <= j < |rows| ==> rows[j] == before[j]
      {
        if !(0 <= colIdx <= |rows[rowIdx]|) || rowIdx >= |column| {
          assert rows == PartlyWidened(before, column);
          return Failed(Crash(IndexOutOfBounds));
        }
        rows := rows[rowIdx := InsertAt(rows[rowIdx], colIdx, column[rowIdx])];
        rowIdx := rowIdx + 1;
      }
      assert rows == PartlyWidened(before, column);
      return Done;
    }

    /** `removeColumn`: row by row; a row too short stops the loop with
        the rows before it already narrowed. */
    method RemoveColumn(name: string) returns (s: Status)
      modifies this
      ensures s == if ColumnRemoved(old(rows), name).Ok? then Done else Failed(Crash(IndexOutOfBounds))
      ensures rows == PartlyNarrowed(old(rows), name)
      ensures ColumnRemoved(old(rows), name).Ok? ==> rows == ColumnRemoved(old(rows), name).value
    {
      PartlyNarrowedWhenReached(rows, name);
      var found := GetColumnIndex(name);
      if found.Err? {
        return Failed(found.failure);
      }
      var colIdx := found.value;
      if colIdx < 0 {
        return Done;
      }
      ghost var before := rows;
      ghost var stop := ReachingRows(before, colIdx, 0);
      var i := 0;
      while i < |rows|
        invariant 0 <= i <= stop && |rows| == |before|
        invariant forall j :: 0 <= j < i ==> rows[j] == RemoveAt(before[j], colIdx)
        invariant forall j :: i <= j < |rows| ==> rows[j] == before[j]
      {
        if colIdx >= |rows[i]| {
          assert rows == PartlyNarrowed(before, name);
          return Failed(Crash(IndexOutOfBounds));
        }
        rows := rows[i := RemoveAt(rows[i], colIdx)];
        i := i + 1;
      }
      assert rows == PartlyNarrowed(before, name);
      return Done;
    }

    /** The lines `writeToFile` writes. */
    function WrittenLines(): (r: Result<seq<string>>)
      reads this
      ensures r.Ok? <==> forall i :: 0 <= i < |rows| ==> |rows[i]| > 0
      ensures r.Err? ==> r.failure == Crash(NoSuchElement)
      ensures r.Ok? ==> |r.value| == |rows| && forall i :: 0 <= i < |rows| ==> r.value[i] == Join(rows[i], ",")
    {
      Lines(rows)
    }
  }
}
