/** `ChangeCounter`: splits an annotation file into blocks, each opened by
    a line that starts with one of six prefixes, and writes one `;`-separated
    row per block with the block's type, its length in lines and the type's
    weight. The two floating-point fields of a row (the scaled lines and
    the overhead) are given as text by `scaled` and `overhead`. */
module ChangeCounters {
  import opened Outcomes
  import opened Decimal
  import opened Strings
  import opened Sequences

  /** The prefixes that open a block and the block type each opens. */
  const Types: map<string, string> := map[
    "- !<counter>" := "CounterInput",
    "- !<direct>" := "DirectInput",
    "  - from: " := "RegExExtraction",
    "- !<extracted>" := "ExtractedInput",
    "- interface: " := "InterfaceAnnotation",
    "  - parameter: " := "ParameterAnnotation"]

  const Weights: map<string, int> := map[
    "CounterInput" := 4,
    "DirectInput" := 2,
    "RegExExtraction" := 8,
    "ExtractedInput" := 2,
    "InterfaceAnnotation" := 1,
    "ParameterAnnotation" := 1]

  /** Every block type has a weight, so `WEIGHTS.get` never yields null
      for a type found in a file; a regular-expression extraction weighs 8. */
  lemma EveryTypeWeighted()
    ensures forall k :: k in Types ==> Types[k] in Weights
    ensures Weights[Types["  - from: "]] == 8
  {
  }

  /** The type of block a line opens, if it opens one. */
  function BlockType(line: string): (r: Option<string>)
    ensures r.Some? ==> r.value in Weights
  {
    if StartsWith(line, "- !<counter>") then Some("CounterInput")
    else if StartsWith(line, "- !<direct>") then Some("DirectInput")
    else if StartsWith(line, "  - from: ") then Some("RegExExtraction")
    else if StartsWith(line, "- !<extracted>") then Some("ExtractedInput")
    else if StartsWith(line, "- interface: ") then Some("InterfaceAnnotation")
    else if StartsWith(line, "  - parameter: ") then Some("ParameterAnnotation")
    else None
  }

  /** Two prefixes that differ at a position they both have never both
      start one line. */
  lemma Distinguished(p: string, q: string, i: nat)
    requires i < |p| && i < |q| && p[i] != q[i]
    ensures forall line :: !(StartsWith(line, p) && StartsWith(line, q))
  {
    forall line | StartsWith(line, p)
      ensures !StartsWith(line, q)
    {
      assert line[..|p|][i] == line[i];
    }
  }

  /** No two of the six prefixes start the same line. */
  lemma PrefixesExclusive()
    ensures forall k, k', line :: k in Types && k' in Types && k != k' ==> !(StartsWith(line, k) && StartsWith(line, k'))
  {
    var counter, direct, from, extracted, iface, param :=
      "- !<counter>", "- !<direct>", "  - from: ", "- !<extracted>", "- interface: ", "  - parameter: ";
    assert counter[4] == 'c' && direct[4] == 'd' && extracted[4] == 'e';
    assert counter[2] == '!' && direct[2] == '!' && extracted[2] == '!' && iface[2] == 'i';
    assert counter[0] == '-' && from[0] == ' ' && param[0] == ' ' && iface[0] == '-';
    assert direct[0] == '-' && extracted[0] == '-' && from[4] == 'f' && param[4] == 'p';
    Distinguished(counter, direct, 4);
    Distinguished(counter, extracted, 4);
    Distinguished(direct, extracted, 4);
    Distinguished(counter, iface, 2);
    Distinguished(direct, iface, 2);
    Distinguished(extracted, iface, 2);
    Distinguished(counter, from, 0);
    Distinguished(direct, from, 0);
    Distinguished(extracted, from, 0);
    Distinguished(iface, from, 0);
    Distinguished(counter, param, 0);
    Distinguished(direct, param, 0);
    Distinguished(extracted, param, 0);
    Distinguished(iface, param, 0);
    Distinguished(from, param, 4);
  }

  /** A line opens a block exactly when it starts with one of the
      prefixes, and then that prefix's type is the block's. */
  lemma TypeOfLine(line: string)
    ensures forall k :: k in Types && StartsWith(line, k) ==> BlockType(line) == Some(Types[k])
    ensures (forall k :: k in Types ==> !StartsWith(line, k)) ==> BlockType(line).None?
  {
    PrefixesExclusive();
  }

  /** `startIndexes` as a specification: the type and index of every line
      that opens a block, in file order. */
  function Starts(lines: seq<string>): (r: seq<(string, int)>)
    ensures forall j :: 0 <= j < |r| ==> 0 <= r[j].1 < |lines| && BlockType(lines[r[j].1]) == Some(r[j].0)
    ensures forall j, k :: 0 <= j < k < |r| ==> r[j].1 < r[k].1
    ensures forall i :: 0 <= i < |lines| && BlockType(lines[i]).Some? ==> (BlockType(lines[i]).value, i) in r
  {
    if |lines| == 0 then []
    else
      var init := lines[..|lines| - 1];
      var last := lines[|lines| - 1];
      assert forall i :: 0 <= i < |init| ==> init[i] == lines[i];
      Starts(init) + (if BlockType(last).Some? then [(BlockType(last).value, |lines| - 1)] else [])
  }

  /** At most one prefix starts a given line. */
  lemma OneMatch(line: string)
    ensures forall k, k' :: k in Types && k' in Types && StartsWith(line, k) && StartsWith(line, k') ==> k == k'
  {
    PrefixesExclusive();
  }

  /** The inner loop of `countChanges`: every prefix of a type table is
      tried in the table's own order, and each match records the type and
      the line's index. When at most one prefix matches, the order does
      not matter. */
  method MatchPrefixes(types: map<string, string>, line: string, idx: int) returns (found: seq<(string, int)>)
    requires forall k, k' :: k in types && k' in types && StartsWith(line, k) && StartsWith(line, k') ==> k == k'
    ensures found == [] <==> forall k :: k in types ==> !StartsWith(line, k)
    ensures forall k :: k in types && StartsWith(line, k) ==> found == [(types[k], idx)]
  {
    found := [];
    var keys := types.Keys;
    while keys != {}
      invariant keys <= types.Keys
      invariant found == [] <==> forall k :: k in types && k !in keys ==> !StartsWith(line, k)
      invariant forall k :: k in types && k !in keys && StartsWith(line, k) ==> found == [(types[k], idx)]
      decreases |keys|
    {
      var start :| start in keys;
      if StartsWith(line, start) {
        found := found + [(types[start], idx)];
      }
      keys := keys - {start};
    }
  }

  /** The inner loop for the line at `idx`: the line's block start, if it
      opens a block. */
  method MatchLine(line: string, idx: int) returns (found: seq<(string, int)>)
    ensures found == if BlockType(line).Some? then [(BlockType(line).value, idx)] else []
  {
    OneMatch(line);
    found := MatchPrefixes(Types, line, idx);
    TypeOfLine(line);
  }

  /** The first loop of `countChanges`, over the lines with an index
      counter. */
  method FindStarts(lines: seq<string>) returns (startIndexes: seq<(string, int)>)
    ensures startIndexes == Starts(lines)
  {
    startIndexes := [];
    var idx := 0;
    while idx < |lines|
      invariant 0 <= idx <= |lines|
      invariant startIndexes == Starts(lines[..idx])
    {
      var found := MatchLine(lines[idx], idx);
      startIndexes := startIndexes + found;
      assert lines[..idx + 1][..idx] == lines[..idx];
      assert lines[..idx + 1][idx] == lines[idx];
      idx := idx + 1;
    }
    assert lines[..idx] == lines;
  }

  /** The length of block i: up to the next block's start, or to the end
      of the file for the last block. */
  function BlockLength(starts: seq<(string, int)>, lineCount: int, i: nat): int
    requires i < |starts|
  {
    if i + 1 < |starts| then starts[i + 1].1 - starts[i].1 else lineCount - starts[i].1
  }

  function BlockLengths(starts: seq<(string, int)>, lineCount: int): (r: seq<int>)
    ensures |r| == |starts|
    ensures forall i :: 0 <= i < |starts| ==> r[i] == BlockLength(starts, lineCount, i)
  {
    seq(|starts|, i requires 0 <= i < |starts| => BlockLength(starts, lineCount, i))
  }

  /** Block starts in increasing order within the file. */
  predicate Ascending(starts: seq<(string, int)>, lineCount: int) {
    (forall j :: 0 <= j < |starts| ==> 0 <= starts[j].1 < lineCount) &&
    (forall j, k :: 0 <= j < k < |starts| ==> starts[j].1 < starts[k].1)
  }

  /** Every block has at least one line, and the blocks together cover the
      file from the first block's start to its end. */
  lemma {:induction false} BlockLengthsCover(starts: seq<(string, int)>, lineCount: int)
    requires |starts| > 0 && Ascending(starts, lineCount)
    ensures forall i :: 0 <= i < |starts| ==> BlockLengths(starts, lineCount)[i] > 0
    ensures Sum(BlockLengths(starts, lineCount)) == lineCount - starts[0].1
    decreases |starts|
  {
    var lengths := BlockLengths(starts, lineCount);
    if |starts| > 1 {
      var rest := starts[1..];
      BlockLengthsCover(rest, lineCount);
      assert lengths[1..] == BlockLengths(rest, lineCount);
    }
  }

  /** The fields of one row: version, type, operation, amount, lines,
      scaled lines, weight and overhead. */
  function RowFields(version: int, blockType: string, lines: int, scaled: int -> string, overhead: (int, int) -> string): seq<string>
    requires blockType in Weights
  {
    [IntToString(version), blockType, "ADD", "1", IntToString(lines), scaled(lines),
      IntToString(Weights[blockType]), overhead(Weights[blockType], lines)]
  }

  /** Eight parts joined: each part after a separator, left to right. */
  lemma JoinEight(p: seq<string>, sep: string)
    requires |p| == 8
    ensures Join(p, sep) == p[0] + sep + p[1] + sep + p[2] + sep + p[3] + sep + p[4] + sep + p[5] + sep + p[6] + sep + p[7]
  {
    assert Join(p[..1], sep) == p[0];
    forall k | 1 <= k < 8
      ensures Join(p[..k + 1], sep) == Join(p[..k], sep) + sep + p[k]
    {
      assert p[..k + 1] == p[..k] + [p[k]];
      JoinSnoc(p[..k], p[k], sep);
    }
    assert p[..8] == p;
  }

  lemma InfixConstant(x: string)
    ensures x + ";ADD;1;" == x + ";" + "ADD" + ";" + "1" + ";"
  {
    assert ";" + "ADD" + ";" + "1" + ";" == ";ADD;1;";
  }

  lemma RowShape(a: string, b: string, d: string, e: string, f: string, g: string)
    ensures a + ";" + b + ";ADD;1;" + d + ";" + e + ";" + f + ";" + g == Join([a, b, "ADD", "1", d, e, f, g], ";")
  {
    JoinEight([a, b, "ADD", "1", d, e, f, g], ";");
    InfixConstant(a + ";" + b);
  }

  /** `toRow`: the fields concatenated with `;` between them, that is,
      the fields joined with `;`. */
  function Row(version: int, blockType: string, lines: int, scaled: int -> string, overhead: (int, int) -> string): (r: string)
    requires blockType in Weights
    ensures r == Join(RowFields(version, blockType, lines, scaled, overhead), ";")
  {
    var weight := Weights[blockType];
    RowShape(IntToString(version), blockType, IntToString(lines), scaled(lines), IntToString(weight), overhead(weight, lines));
    IntToString(version) + ";" + blockType + ";ADD;1;" + IntToString(lines) + ";" + scaled(lines) + ";"
      + IntToString(weight) + ";" + overhead(weight, lines)
  }

  /** A row reads back into its fields when its block type and the
      floating-point fields hold no `;` and the overhead is not empty: the
      integer fields are the version, the length and the type's weight. */
  lemma RowReadsBack(version: int, blockType: string, lines: int, scaled: int -> string, overhead: (int, int) -> string)
    requires blockType in Weights && ';' !in blockType
    requires ';' !in scaled(lines) && ';' !in overhead(Weights[blockType], lines) && overhead(Weights[blockType], lines) != ""
    ensures Split(Row(version, blockType, lines, scaled, overhead), ';') == RowFields(version, blockType, lines, scaled, overhead)
    ensures IsInt32(lines) ==> ParseInt(RowFields(version, blockType, lines, scaled, overhead)[4]) == Ok(lines)
    ensures RowFields(version, blockType, lines, scaled, overhead)[2..4] == ["ADD", "1"]
  {
    var fields := RowFields(version, blockType, lines, scaled, overhead);
    forall i | 0 <= i < |fields| ensures ';' !in fields[i] {
      if i == 0 || i == 4 || i == 6 {
        var n := if i == 0 then version else if i == 4 then lines else Weights[blockType];
        NoSemicolonInNumber(n);
      }
    }
    SplitJoin(fields, ';');
    assert fields[2..4] == ["ADD", "1"];
    if IsInt32(lines) {
      ParseIntToString(lines);
    }
  }

  lemma NoSemicolonInNumber(n: int)
    ensures ';' !in IntToString(n)
  {
    var digits := NatToString(if n < 0 then -n else n);
    assert forall i :: 0 <= i < |digits| ==> IsDigit(digits[i]);
    if n < 0 {
      assert IntToString(n) == "-" + digits;
      assert forall i :: 1 <= i < |IntToString(n)| ==> IntToString(n)[i] == digits[i - 1];
    }
  }

  /** The rows `countChanges` returns for the given block starts. */
  function Rows(version: int, starts: seq<(string, int)>, lineCount: int, scaled: int -> string, overhead: (int, int) -> string)
    : (r: seq<string>)
    requires forall j :: 0 <= j < |starts| ==> starts[j].0 in Weights
    ensures |r| == |starts|
  {
    seq(|starts|, i requires 0 <= i < |starts| =>
      Row(version, starts[i].0, BlockLength(starts, lineCount, i), scaled, overhead))
  }

  /** The rows `row` makes of the blocks. */
  ghost function RowsWith(row: (string, int) --> string, starts: seq<(string, int)>, lineCount: int): (r: seq<string>)
    requires forall j, n :: 0 <= j < |starts| ==> row.requires(starts[j].0, n)
    ensures |r| == |starts|
  {
    seq(|starts|, i requires 0 <= i < |starts| => row(starts[i].0, BlockLength(starts, lineCount, i)))
  }

  /** The second half of `countChanges`: a row for each block but the
      last from two neighbouring starts, then the last block's row, which
      reads `startIndexes.get(size - 1)` and throws when there is no
      start. `row` is `toRow` for the version at hand. */
  method RowsOf(startIndexes: seq<(string, int)>, lineCount: int, row: (string, int) --> string)
    returns (r: Result<seq<string>>)
    requires forall j, n :: 0 <= j < |startIndexes| ==> row.requires(startIndexes[j].0, n)
    ensures r.Err? <==> |startIndexes| == 0
    ensures r.Err? ==> r.failure == Crash(IndexOutOfBounds)
    ensures r.Ok? ==> r.value == RowsWith(row, startIndexes, lineCount)
  {
    var rows: seq<string> := [];
    var i := 0;
    while i < |startIndexes| - 1
      invariant 0 <= i && (|startIndexes| > 0 ==> i <= |startIndexes| - 1)
      invariant |startIndexes| == 0 ==> i == 0
      invariant |rows| == i
      invariant forall j :: 0 <= j < i ==> rows[j] == row(startIndexes[j].0, BlockLength(startIndexes, lineCount, j))
    {
      var thisPair := startIndexes[i];
      var nextPair := startIndexes[i + 1];
      rows := rows + [row(thisPair.0, nextPair.1 - thisPair.1)];
      i := i + 1;
    }
    if |startIndexes| == 0 {
      return Err(Crash(IndexOutOfBounds));
    }
    var lastPair := startIndexes[|startIndexes| - 1];
    assert i == |startIndexes| - 1;
    rows := rows + [row(lastPair.0, lineCount - lastPair.1)];
    ghost var spec := RowsWith(row, startIndexes, lineCount);
    forall j | 0 <= j < |rows|
      ensures rows[j] == spec[j]
    {
      assert spec[j] == row(startIndexes[j].0, BlockLength(startIndexes, lineCount, j));
    }
    return Ok(rows);
  }

  /** `countChanges` for the lines of one version's file: one row per
      block, in file order; a file without any block start throws. */
  method CountChanges(version: int, lines: seq<string>, scaled: int -> string, overhead: (int, int) -> string)
    returns (r: Result<seq<string>>)
    ensures r.Err? <==> |Starts(lines)| == 0
    ensures r.Err? ==> r.failure == Crash(IndexOutOfBounds)
    ensures r.Ok? ==> r.value == Rows(version, Starts(lines), |lines|, scaled, overhead)
  {
    var startIndexes := FindStarts(lines);
    var toRow := (t: string, n: int) requires t in Weights => Row(version, t, n, scaled, overhead);
    r := RowsOf(startIndexes, |lines|, toRow);
    assert r.Ok? ==> r.value == Rows(version, startIndexes, |lines|, scaled, overhead) by {
      if r.Ok? {
        forall i | 0 <= i < |startIndexes|
          ensures r.value[i] == Rows(version, startIndexes, |lines|, scaled, overhead)[i]
        {
        }
      }
    }
  }

  /** Every row belongs to one block: its length field is positive and the
      lengths add up to the lines from the first block's start on. */
  lemma RowsCoverFile(lines: seq<string>)
    requires |Starts(lines)| > 0
    ensures forall i :: 0 <= i < |Starts(lines)| ==> BlockLength(Starts(lines), |lines|, i) > 0
    ensures Sum(BlockLengths(Starts(lines), |lines|)) == |lines| - Starts(lines)[0].1
  {
    BlockLengthsCover(Starts(lines), |lines|);
  }
}
