/** `RandomMarkovChain`: turns an allowed-transitions template into a
    Markov chain whose cells hold a probability and a think time, stores
    the chain in a holder and saves it under a fresh file name. The
    probabilities, their formatting and the think-time factors come from
    random draws and floating-point arithmetic; here every formatted cell
    is given by a function `cell(row, column, thinkTime)` that stands for
    those draws. */
module RandomMarkovChains {
  import opened Outcomes
  import opened Decimal
  import opened Strings
  import opened Sequences
  import opened PathHolders
  import opened DataHolders
  import opened MarkovTemplates

  /** The value at column c of the allowed transitions, read from cell
      c + 1 of a template row. */
  function CellAt(row: seq<string>, c: nat): (r: Result<int>)
    ensures c + 1 < |row| ==> r == ParseInt(row[c + 1])
    ensures c + 1 >= |row| ==> r == Err(Crash(IndexOutOfBounds))
  {
    if c + 1 < |row| then ParseInt(row[c + 1]) else Err(Crash(IndexOutOfBounds))
  }

  /** The first k values of a row, read in order; the first cell that
      fails decides the failure. */
  function RowPrefix(row: seq<string>, k: nat): (r: Result<seq<int>>)
    ensures r.Ok? ==> |r.value| == k
  {
    if k == 0 then Ok([])
    else
      var init :- RowPrefix(row, k - 1);
      var v :- CellAt(row, k - 1);
      Ok(init + [v])
  }

  /** The prefix succeeds exactly when every one of its cells parses, and
      then holds their values; otherwise it fails as its first failing
      cell does. */
  lemma {:induction false} RowPrefixMeaning(row: seq<string>, k: nat)
    ensures RowPrefix(row, k).Ok? <==> forall c :: 0 <= c < k ==> CellAt(row, c).Ok?
    ensures RowPrefix(row, k).Ok? ==> forall c :: 0 <= c < k ==> RowPrefix(row, k).value[c] == CellAt(row, c).value
    ensures RowPrefix(row, k).Err? ==> exists c :: (0 <= c < k && CellAt(row, c) == Err(RowPrefix(row, k).failure) &&
      forall d :: 0 <= d < c ==> CellAt(row, d).Ok?)
  {
    if k > 0 {
      RowPrefixMeaning(row, k - 1);
    }
  }

  /** The first k rows of the allowed transitions, each `width` wide,
      read row after row from template row 1 on. */
  function RowsPrefix(t: Table, width: nat, k: nat): (r: Result<seq<seq<int>>>)
    requires k < |t|
    ensures r.Ok? ==> |r.value| == k
  {
    if k == 0 then Ok([])
    else
      var init :- RowsPrefix(t, width, k - 1);
      var row :- RowPrefix(t[k], width);
      Ok(init + [row])
  }

  lemma {:induction false} RowsPrefixMeaning(t: Table, width: nat, k: nat)
    requires k < |t|
    ensures RowsPrefix(t, width, k).Ok? <==> forall i :: 1 <= i <= k ==> RowPrefix(t[i], width).Ok?
    ensures RowsPrefix(t, width, k).Ok? ==> forall i :: 0 <= i < k ==> RowsPrefix(t, width, k).value[i] == RowPrefix(t[i + 1], width).value
  {
    if k > 0 {
      RowsPrefixMeaning(t, width, k - 1);
    }
  }

  /** `extractAllowedTransitions`: a matrix one row and one column
      smaller than the template whose entry [r][c] is the `int` in
      template cell [r + 1][c + 1]. A template without rows has no header
      to size the matrix by, and an empty header gives a negative size. */
  function AllowedTransitions(t: Table): (r: Result<seq<seq<int>>>)
    ensures |t| == 0 ==> r == Err(Crash(IndexOutOfBounds))
    ensures |t| > 0 && |t[0]| == 0 ==> r == Err(Crash(NegativeArraySize))
    ensures r.Ok? ==> |t| > 0 && |t[0]| > 0 && |r.value| == |t| - 1
  {
    if |t| == 0 then Err(Crash(IndexOutOfBounds))
    else if |t[0]| == 0 then Err(Crash(NegativeArraySize))
    else RowsPrefix(t, |t[0]| - 1, |t| - 1)
  }

  /** The allowed transitions exist exactly when every cell right of the
      request names, below the header and within the header's width, is a
      decimal `int`; entry [i][c] is then the value in cell [i + 1][c + 1]. */
  lemma AllowedTransitionsMeaning(t: Table)
    requires |t| > 0 && |t[0]| > 0
    ensures AllowedTransitions(t).Ok? <==>
      forall i, c :: 1 <= i < |t| && 0 <= c < |t[0]| - 1 ==> CellAt(t[i], c).Ok?
    ensures AllowedTransitions(t).Ok? ==> forall i :: 0 <= i < |t| - 1 ==>
      |AllowedTransitions(t).value[i]| == |t[0]| - 1
    ensures AllowedTransitions(t).Ok? ==> forall i, c :: 0 <= i < |t| - 1 && 0 <= c < |t[0]| - 1 ==>
      c + 1 < |t[i + 1]| && ParseInt(t[i + 1][c + 1]) == Ok(AllowedTransitions(t).value[i][c])
  {
    var w := |t[0]| - 1;
    RowsPrefixMeaning(t, w, |t| - 1);
    forall i | 1 <= i < |t| {
      RowPrefixMeaning(t[i], w);
    }
  }

  /** A failure in the first k values of a row is the failure of any
      longer prefix. */
  lemma {:induction false} RowPrefixFails(row: seq<string>, k: nat, n: nat)
    requires k <= n && RowPrefix(row, k).Err?
    ensures RowPrefix(row, n) == RowPrefix(row, k)
    decreases n
  {
    if n > k {
      RowPrefixFails(row, k, n - 1);
    }
  }

  lemma {:induction false} RowsPrefixFails(t: Table, width: nat, k: nat, n: nat)
    requires k <= n < |t| && RowsPrefix(t, width, k).Err?
    ensures RowsPrefix(t, width, n) == RowsPrefix(t, width, k)
    decreases n
  {
    if n > k {
      RowsPrefixFails(t, width, k, n - 1);
    }
  }

  /** `extractAllowedTransitions` as written: nested loops over rows and columns. */
  method ExtractAllowedTransitions(t: Table) returns (r: Result<seq<seq<int>>>)
    ensures r == AllowedTransitions(t)
  {
    if |t| == 0 {
      return Err(Crash(IndexOutOfBounds));
    }
    if |t[0]| == 0 {
      return Err(Crash(NegativeArraySize));
    }
    var width := |t[0]| - 1;
    var rows: seq<seq<int>> := [];
    var row := 0;
    while row < |t| - 1
      invariant 0 <= row <= |t| - 1
      invariant RowsPrefix(t, width, row) == Ok(rows)
    {
      var cells: seq<int> := [];
      var col := 0;
      while col < width
        invariant 0 <= col <= width
        invariant RowPrefix(t[row + 1], col) == Ok(cells)
      {
        var v := CellAt(t[row + 1], col);
        if v.Err? {
          RowPrefixFails(t[row + 1], col + 1, width);
          RowsPrefixFails(t, width, row + 1, |t| - 1);
          return Err(v.failure);
        }
        cells := cells + [v.value];
        col := col + 1;
      }
      rows := rows + [cells];
      row := row + 1;
    }
    return Ok(rows);
  }

  /** `createBehaviorRow`: the request name, then one formatted cell per
      allowed transition. The cells up to the last use the given think
      time; the last, the transition to `$`, always uses 0. An empty
      transition row leaves no cell for `$` and the array access throws. */
  method CreateBehaviorRow(allowed: seq<int>, requestName: string, thinkTime: int, cell: (nat, int) -> string)
    returns (r: Result<seq<string>>)
    ensures |allowed| == 0 <==> r.Err?
    ensures r.Err? ==> r.failure == Crash(IndexOutOfBounds)
    ensures r.Ok? ==> |r.value| == |allowed| + 1 && r.value[0] == requestName
    ensures r.Ok? ==> forall col :: 1 <= col < |allowed| ==> r.value[col] == cell(col - 1, thinkTime)
    ensures r.Ok? ==> r.value[|allowed|] == cell(|allowed| - 1, 0)
  {
    if |allowed| == 0 {
      return Err(Crash(IndexOutOfBounds));
    }
    var behaviorRow := [requestName];
    var col := 1;
    while col < |allowed|
      invariant 1 <= col <= |allowed|
      invariant |behaviorRow| == col && behaviorRow[0] == requestName
      invariant forall c :: 1 <= c < col ==> behaviorRow[c] == cell(c - 1, thinkTime)
    {
      behaviorRow := behaviorRow + [cell(col - 1, thinkTime)];
      col := col + 1;
    }
    behaviorRow := behaviorRow + [cell(|allowed| - 1, 0)];
    return Ok(behaviorRow);
  }

  /** The think time a behaviour row is formatted with: 0 for the
      INITIAL row, the average for every later one. */
  function RowThinkTime(row: nat, averageThinkTime: int): (r: int)
    ensures row == 1 ==> r == 0
    ensures row != 1 ==> r == averageThinkTime
  {
    if row == 1 then 0 else averageThinkTime
  }

  /** Whether `r` is behaviour row i of the chain built from template
      `t`: the template's request name, then the formatted cells, the last
      one (the transition to `$`) with think time 0. */
  ghost predicate IsChainRow(r: seq<string>, t: Table, i: nat, averageThinkTime: int, cell: (nat, nat, int) -> string)
    requires 1 <= i < |t| && |t[0]| >= 2
  {
    var w := |t[0]| - 1;
    |t[i]| > 0 && |r| == w + 1 && r[0] == t[i][0] &&
    (forall c :: 1 <= c < w ==> r[c] == cell(i, c - 1, RowThinkTime(i, averageThinkTime))) &&
    r[w] == cell(i, w - 1, 0)
  }

  /** Whether `chain` is the Markov chain built from template `t`: as many
      rows as the template, the header unchanged, then one behaviour row
      per template row. */
  ghost predicate IsChainOf(chain: Table, t: Table, averageThinkTime: int, cell: (nat, nat, int) -> string)
    requires |t| > 0 && |t[0]| >= 2
  {
    |chain| == |t| && chain[0] == t[0] &&
    forall i :: 1 <= i < |t| ==> IsChainRow(chain[i], t, i, averageThinkTime, cell)
  }

  /** The rows of `execute` after the header, given the extracted
      transitions. Row 1 reads transition row 0, so a template of one row
      fails; an empty transition row (a header of one cell) leaves no room
      for `$` and fails too. */
  method BuildChain(t: Table, allowed: seq<seq<int>>, averageThinkTime: int, cell: (nat, nat, int) -> string)
    returns (r: Result<Table>)
    requires AllowedTransitions(t) == Ok(allowed)
    ensures r.Ok? <==> |t| >= 2 && |t[0]| >= 2
    ensures r.Err? ==> r.failure == Crash(IndexOutOfBounds)
    ensures r.Ok? ==> IsChainOf(r.value, t, averageThinkTime, cell)
  {
    AllowedTransitionsMeaning(t);
    if |t| < 2 {
      return Err(Crash(IndexOutOfBounds));
    }
    var chain := [t[0]];
    var row := 1;
    while row < |t|
      invariant 1 <= row <= |t|
      invariant |chain| == row && chain[0] == t[0]
      invariant row > 1 ==> |t[0]| >= 2
      invariant |t[0]| >= 2 ==> forall i :: 1 <= i < row ==> IsChainRow(chain[i], t, i, averageThinkTime, cell)
    {
      assert |t[0]| >= 2 ==> CellAt(t[row], 0).Ok?;
      if |t[row]| == 0 {
        return Err(Crash(IndexOutOfBounds));
      }
      var think := RowThinkTime(row, averageThinkTime);
      var current: nat := row;
      var b := CreateBehaviorRow(allowed[row - 1], t[row][0], think, (c: nat, th: int) => cell(current, c, th));
      if b.Err? {
        return Err(b.failure);
      }
      chain := chain + [b.value];
      row := row + 1;
    }
    return Ok(chain);
  }

  /** The template an action reads: the lines of the file its holder names,
      split at ",". A null path throws, and so does a file that cannot be
      read. */
  function TemplateRead(path: Result<Option<string>>, files: map<string, seq<string>>): (r: Result<Table>)
    ensures path.Err? ==> r == Err(path.failure)
    ensures path == Ok(None) ==> r == Err(Crash(NullPointer))
    ensures path.Ok? && path.value.Some? ==>
      (if path.value.value in files then r == Ok(ReadTable(files[path.value.value])) else r == Err(Crash(IOFailure)))
  {
    match path
    case Err(f) => Err(f)
    case Ok(None) => Err(Crash(NullPointer))
    case Ok(Some(p)) => if p in files then Ok(ReadTable(files[p])) else Err(Crash(IOFailure))
  }

  /** `RandomMarkovChain`: the holder of the template's path, the average
      think time and the holder the chain goes to. */
  datatype RandomMarkovChain = RandomMarkovChain(allowedTransitionsFile: Source<string>, averageThinkTime: int, output: SimpleHolder<Table>)
  {
    /** Reads the template, builds the chain, stores it in the output
        holder and only then writes it, one line per row, to the first free
        candidate file of `folder`. `files` is the file system's text files
        by path, and `writable` whether the write succeeds; a failed write
        leaves the chain already stored. Any earlier failure changes
        nothing. */
    method Execute(folder: string, files: map<string, seq<string>>, writable: bool, cell: (nat, nat, int) -> string)
      returns (s: Status, fileNumber: nat, written: Option<(string, seq<string>)>)
      modifies output
      ensures var outcome := TemplateRead(old(allowedTransitionsFile.Observe().read), files);
        outcome.Err? ==> s == Failed(outcome.failure) && written == None && unchanged(output)
      ensures var outcome := TemplateRead(old(allowedTransitionsFile.Observe().read), files);
        outcome.Ok? && AllowedTransitions(outcome.value).Err? ==>
          s == Failed(AllowedTransitions(outcome.value).failure) && written == None && unchanged(output)
      ensures var outcome := TemplateRead(old(allowedTransitionsFile.Observe().read), files);
        outcome.Ok? && AllowedTransitions(outcome.value).Ok? && (|outcome.value| < 2 || |outcome.value[0]| < 2) ==>
          s == Failed(Crash(IndexOutOfBounds)) && written == None && unchanged(output)
      ensures var outcome := TemplateRead(old(allowedTransitionsFile.Observe().read), files);
        outcome.Ok? && AllowedTransitions(outcome.value).Ok? && |outcome.value| >= 2 && |outcome.value[0]| >= 2 ==>
          output.written && output.data.Some? &&
          IsChainOf(output.data.value, outcome.value, averageThinkTime, cell) &&
          fileNumber >= 1 &&
          (forall m :: 1 <= m < fileNumber ==> Resolve(folder, ChainFileName(m)) in files) &&
          (writable ==>
             s == Done && written.Some? &&
             written.value.0 == Resolve(folder, ChainFileName(fileNumber)) && written.value.0 !in files &&
             Lines(output.data.value) == Ok(written.value.1)) &&
          (!writable ==> s == Failed(Crash(IOFailure)) && written == None)
    {
      fileNumber := 0;
      written := None;
      var path := allowedTransitionsFile.Observe().read;
      var template := TemplateRead(path, files);
      if template.Err? {
        return Failed(template.failure), fileNumber, written;
      }
      var t := template.value;
      var allowed := ExtractAllowedTransitions(t);
      if allowed.Err? {
        return Failed(allowed.failure), fileNumber, written;
      }
      var chain := BuildChain(t, allowed.value, averageThinkTime, cell);
      if chain.Err? {
        return Failed(chain.failure), fileNumber, written;
      }
      output.Set(Some(chain.value));
      var target;
      fileNumber, target := FreeChainFile(folder, files.Keys);
      if !writable {
        return Failed(Crash(IOFailure)), fileNumber, written;
      }
      var lines := Lines(chain.value);
      written := Some((target, lines.value));
      return Done, fileNumber, written;
    }
  }

  /** The name of the `counter`-th candidate file: `random-markov-chain.csv`
      first, then `random-markov-chain-2.csv`, `-3.csv` and so on. */
  function ChainFileName(counter: nat): (r: string)
    ensures StartsWith(r, "random-markov-chain") && EndsWith(r, ".csv")
  {
    if counter <= 1 then "random-markov-chain.csv" else "random-markov-chain-" + NatToString(counter) + ".csv"
  }

  lemma ChainFileNameInjective(a: nat, b: nat)
    requires 1 <= a && 1 <= b && ChainFileName(a) == ChainFileName(b)
    ensures a == b
  {
    var p := "random-markov-chain-";
    if a > 1 && b > 1 {
      var x, y := NatToString(a), NatToString(b);
      assert |x| == |y|;
      assert x == ChainFileName(a)[|p|..|p| + |x|];
      assert y == ChainFileName(b)[|p|..|p| + |y|];
    }
  }

  /** The name `random-markov-chain-1.csv` is never probed. */
  lemma NoFirstNumber(counter: nat)
    requires counter >= 1
    ensures ChainFileName(counter) != "random-markov-chain-1.csv"
  {
    if counter > 1 {
      var x := NatToString(counter);
      if |x| == 1 {
        assert ChainFileName(counter)[20] == x[0];
        assert DigitsValue(x) == x[0] as int - '0' as int;
      }
    }
  }

  /** The file `saveMarkovChain` writes: the first candidate whose path
      in the folder does not exist, probed in order. */
  method FreeChainFile(folder: string, existing: set<string>) returns (counter: nat, path: string)
    ensures counter >= 1 && path == Resolve(folder, ChainFileName(counter)) && path !in existing
    ensures forall m :: 1 <= m < counter ==> Resolve(folder, ChainFileName(m)) in existing
  {
    counter := 1;
    ghost var tried: set<string> := {};
    while Resolve(folder, ChainFileName(counter)) in existing
      invariant counter >= 1
      invariant forall m :: 1 <= m < counter ==> Resolve(folder, ChainFileName(m)) in existing
      invariant forall k :: k >= counter ==> Resolve(folder, ChainFileName(k)) !in tried
      invariant tried <= existing && |tried| == counter - 1
      decreases |existing| - |tried|
    {
      LaterFilesDiffer(folder, counter);
      tried := tried + {Resolve(folder, ChainFileName(counter))};
      counter := counter + 1;
      SubsetCard(tried, existing);
    }
    path := Resolve(folder, ChainFileName(counter));
  }

  lemma LaterFilesDiffer(folder: string, n: nat)
    requires n >= 1
    ensures forall k :: k > n ==> Resolve(folder, ChainFileName(k)) != Resolve(folder, ChainFileName(n))
  {
    forall k | k > n ensures Resolve(folder, ChainFileName(k)) != Resolve(folder, ChainFileName(n)) {
      var x, y := ChainFileName(k), ChainFileName(n);
      assert x[0] == 'r' && y[0] == 'r';
      if Resolve(folder, x) == Resolve(folder, y) {
        ResolveRelativeInjective(folder, x, y);
        ChainFileNameInjective(k, n);
      }
    }
  }
}
