/** `MarkovTemplateChanger`: adds the row and column of a cloned interface
    to a Markov template, and takes an interface's row and column out. An
    interface appears here only as its id. */
module MarkovTemplateChangers {
  import opened Outcomes
  import opened Sequences
  import opened MarkovTemplates

  /** `copyInterface(orig, new)` on the table, as the status it ends with
      and the rows it leaves: a copy of the original's row, renamed, goes
      to the end; then a copy of the original's column, which now covers
      the new row too, goes before the last column with the new id as its
      header. A missing row or column reaches a list constructor as null,
      which throws NullPointerException; a failure after `insertRow` leaves
      the new row in place, and a failing `insertColumn` leaves the rows it
      widened. */
  function InterfaceCopied(t: Table, origId: string, newId: string): (r: (Status, Table))
    ensures |r.1| == if RowOf(t, origId).Ok? && RowOf(t, origId).value.Some? then |t| + 1 else |t|
  {
    var found := RowOf(t, origId);
    if found.Err? then (Failed(found.failure), t)
    else if found.value.None? then (Failed(Crash(NullPointer)), t)
    else
      var widened := RowAdded(t, found.value.value[0 := newId]);
      var column := Column(widened, origId);
      if column.Err? then (Failed(column.failure), widened)
      else if column.value.None? then (Failed(Crash(NullPointer)), widened)
      else
        var newColumn := column.value.value[0 := newId];
        (if ColumnFits(widened, newColumn) then Done else Failed(Crash(IndexOutOfBounds)),
         PartlyWidened(widened, newColumn))
  }

  /** `removeInterface(id)` on the table: its row, then its column. A
      failing `removeRow` changes nothing; a failing `removeColumn` leaves
      the row removed and the rows it narrowed. */
  function InterfaceRemoved(t: Table, id: string): (r: (Status, Table))
    ensures |r.1| == if RowIndex(t, id).Ok? && RowIndex(t, id).value >= 0 then |t| - 1 else |t|
  {
    var narrowed := RowRemoved(t, id);
    if narrowed.Err? then (Failed(narrowed.failure), t)
    else
      (if ColumnRemoved(narrowed.value, id).Ok? then Done else Failed(Crash(IndexOutOfBounds)),
       PartlyNarrowed(narrowed.value, id))
  }

  /** What a failed `copyInterface` leaves: the template itself when the
      original has no row, the template with the renamed row added when
      its column is missing, and the rows widened before the failing one
      when `insertColumn` throws. */
  lemma CopyFailureState(t: Table, origId: string, newId: string)
    ensures RowOf(t, origId).Err? || RowOf(t, origId).value.None? ==>
      InterfaceCopied(t, origId, newId).0.Failed? && InterfaceCopied(t, origId, newId).1 == t
    ensures RowOf(t, origId).Ok? && RowOf(t, origId).value.Some? ==>
      var widened := RowAdded(t, RowOf(t, origId).value.value[0 := newId]);
      var (s, after) := InterfaceCopied(t, origId, newId);
      |after| == |t| + 1 &&
      (Column(widened, origId).Err? || Column(widened, origId).value.None? ==> s.Failed? && after == widened) &&
      (Column(widened, origId).Ok? && Column(widened, origId).value.Some? ==>
        var newColumn := Column(widened, origId).value.value[0 := newId];
        (s == Done <==> ColumnFits(widened, newColumn)) &&
        (s == Done ==> after == ColumnAdded(widened, newColumn).value))
  {
    if RowOf(t, origId).Ok? && RowOf(t, origId).value.Some? {
      var widened := RowAdded(t, RowOf(t, origId).value.value[0 := newId]);
      if Column(widened, origId).Ok? && Column(widened, origId).value.Some? {
        PartlyWidenedWhenFits(widened, Column(widened, origId).value.value[0 := newId]);
      }
    }
  }

  /** What `removeInterface` leaves: the template itself when `removeRow`
      throws; otherwise the template without that row, narrowed as far as
      `removeColumn` got, which is all of it exactly when it succeeds. */
  lemma RemoveFailureState(t: Table, id: string)
    ensures RowRemoved(t, id).Err? ==> InterfaceRemoved(t, id) == (Failed(RowRemoved(t, id).failure), t)
    ensures RowRemoved(t, id).Ok? ==>
      var narrowed := RowRemoved(t, id).value;
      var (s, after) := InterfaceRemoved(t, id);
      |after| == |narrowed| &&
      (s == Done <==> ColumnRemoved(narrowed, id).Ok?) &&
      (s == Done ==> after == ColumnRemoved(narrowed, id).value)
  {
    if RowRemoved(t, id).Ok? {
      PartlyNarrowedWhenReached(RowRemoved(t, id).value, id);
    }
  }

  class MarkovTemplateChanger {
    const template: MarkovTemplate

    constructor (template: MarkovTemplate)
      ensures this.template == template
    {
      this.template := template;
    }

    /** `copyInterface`. */
    method CopyInterface(origId: string, newId: string) returns (s: Status)
      modifies template
      ensures (s, template.rows) == InterfaceCopied(old(template.rows), origId, newId)
    {
      var orig := template.GetRow(origId);
      if orig.Err? {
        return Failed(orig.failure);
      }
      if orig.value.None? {
        return Failed(Crash(NullPointer));
      }
      var newRow := orig.value.value[0 := newId];
      template.InsertRow(newRow);
      var column := template.GetColumn(origId);
      if column.Err? {
        return Failed(column.failure);
      }
      if column.value.None? {
        return Failed(Crash(NullPointer));
      }
      var newColumn := column.value.value[0 := newId];
      s := template.InsertColumn(newColumn);
    }

    /** `removeInterface`. */
    method RemoveInterface(id: string) returns (s: Status)
      modifies template
      ensures (s, template.rows) == InterfaceRemoved(old(template.rows), id)
    {
      s := template.RemoveRow(id);
      if s.Failed? {
        return;
      }
      s := template.RemoveColumn(id);
    }
  }

  /** The first cell of every row. */
  function Names(t: Table): set<string> {
    set i | 0 <= i < |t| && |t[i]| > 0 :: t[i][0]
  }

  lemma FirstIndexInserted(h: seq<string>, at: nat, x: string)
    requires at <= |h| && x !in h
    ensures FirstIndex(InsertAt(h, at, x), x) == at
  {
    var xs := InsertAt(h, at, x);
    var r := FirstIndex(xs, x);
    assert r >= 0;
  }

  /** In a table whose rows all have at least two cells, the row index of
      a name that starts exactly one row, at k, is k. */
  lemma RowIndexUnique(t: Table, name: string, k: nat)
    requires k < |t| && forall i :: 0 <= i < |t| ==> |t[i]| >= 2
    requires t[k][0] == name && forall i :: 0 <= i < |t| && i != k ==> t[i][0] != name
    ensures RowIndex(t, name) == Ok(k)
  {
    var r := RowIndex(t, name);
  }

  /** The rows of a template widened at position w - 1 with the cells of
      column c, and one more row at the end: the original's row `orig`
      renamed to newId, widened with its own cell in column c. */
  predicate WidenedWithFresh(t: Table, copied: Table, newId: string, c: nat, orig: seq<string>)
    requires Rectangular(t) && |t[0]| >= 2
  {
    |copied| == |t| + 1 && Rectangular(copied) && |copied[0]| == |t[0]| + 1 &&
    copied[0] == InsertAt(t[0], |t[0]| - 1, newId) &&
    (forall i :: 0 < i < |t| ==> c < |t[i]| && copied[i] == InsertAt(t[i], |t[0]| - 1, t[i][c])) &&
    |orig| == |t[0]| && c < |orig| &&
    copied[|t|] == InsertAt(orig[0 := newId], |t[0]| - 1, orig[0 := newId][c])
  }

  lemma FoundRow(t: Table, origId: string)
    requires Rectangular(t) && |t[0]| >= 2 && origId in Names(t)
    ensures RowOf(t, origId).Ok? && RowOf(t, origId).value.Some?
    ensures |RowOf(t, origId).value.value| == |t[0]| && RowOf(t, origId).value.value[0] == origId
  {
    var k :| 0 <= k < |t| && |t[k]| > 0 && t[k][0] == origId;
    var ri := RowIndex(t, origId);
    assert ri.Ok?;
    assert ri.value >= 0;
  }

  lemma ColumnOfRectangular(t: Table, name: string)
    requires Rectangular(t) && name in t[0]
    ensures Column(t, name).Ok? && Column(t, name).value.Some?
    ensures ColumnIndex(t, name) == Ok(FirstIndex(t[0], name))
  {
    assert Reaches(t, FirstIndex(t[0], name));
  }

  /** The copy of `origId` taken in a rectangular template, for a fresh
      id: one row more, one column more, still rectangular; each old row
      gets its own cell of the original's column, and the header the new id. */
  lemma CopyShape(t: Table, origId: string, newId: string)
    requires Rectangular(t) && |t[0]| >= 2
    requires origId in Names(t) && origId in t[0]
    requires newId !in Names(t) && newId !in t[0]
    ensures RowOf(t, origId).Ok? && RowOf(t, origId).value.Some?
    ensures InterfaceCopied(t, origId, newId).0 == Done
    ensures WidenedWithFresh(t, InterfaceCopied(t, origId, newId).1, newId, FirstIndex(t[0], origId), RowOf(t, origId).value.value)
  {
    var w := |t[0]|;
    FoundRow(t, origId);
    var row := RowOf(t, origId).value.value;
    var widened := RowAdded(t, row[0 := newId]);
    assert widened[0] == t[0];
    assert Rectangular(widened);
    ColumnOfRectangular(widened, origId);
    var c := FirstIndex(t[0], origId);
    var column := Column(widened, origId).value.value;
    var newColumn := column[0 := newId];
    assert ColumnFits(widened, newColumn);
    var copied := ColumnAdded(widened, newColumn).value;
    PartlyWidenedWhenFits(widened, newColumn);
    assert InterfaceCopied(t, origId, newId) == (Done, copied);
    forall i | 0 < i < |t| ensures c < |t[i]| && copied[i] == InsertAt(t[i], w - 1, t[i][c]) {
      assert widened[i] == t[i];
    }
    assert copied[|t|] == InsertAt(row[0 := newId], w - 1, newColumn[|t|]);
  }

  lemma RemoveFreshRow(t: Table, copied: Table, newId: string, c: nat, orig: seq<string>)
    requires Rectangular(t) && |t[0]| >= 2 && newId !in Names(t)
    requires WidenedWithFresh(t, copied, newId, c, orig)
    ensures RowRemoved(copied, newId) == Ok(copied[..|t|])
  {
    var w := |t[0]|;
    forall i | 0 <= i < |t| ensures copied[i][0] == t[i][0] {
      assert t[i][0] in Names(t);
    }
    RowIndexUnique(copied, newId, |t|);
    assert RemoveAt(copied, |t|) == copied[..|t|];
  }

  lemma RemoveFreshColumn(t: Table, copied: Table, newId: string, c: nat, orig: seq<string>)
    requires Rectangular(t) && |t[0]| >= 2 && newId !in t[0]
    requires WidenedWithFresh(t, copied, newId, c, orig)
    ensures ColumnRemoved(copied[..|t|], newId) == Ok(t)
  {
    var w := |t[0]|;
    var narrowed := copied[..|t|];
    assert narrowed[0] == copied[0];
    FirstIndexInserted(t[0], w - 1, newId);
    assert ColumnIndex(narrowed, newId) == Ok(w - 1);
    assert Reaches(narrowed, w - 1);
    assert ColumnRemoved(narrowed, newId).Ok?;
    var back := ColumnRemoved(narrowed, newId).value;
    RemoveInserted(t[0], w - 1, newId);
    forall i | 0 <= i < |t| ensures back[i] == t[i] {
      if i > 0 {
        RemoveInserted(t[i], w - 1, t[i][c]);
      }
    }
    assert |back| == |t|;
    assert back == t;
  }

  /** Removing a freshly copied interface gives the template back, when
      the new id occurs nowhere in the template beforehand. */
  lemma CopyThenRemove(t: Table, origId: string, newId: string)
    requires Rectangular(t) && |t[0]| >= 2
    requires origId in Names(t) && origId in t[0]
    requires newId !in Names(t) && newId !in t[0]
    ensures InterfaceCopied(t, origId, newId).0 == Done
    ensures InterfaceRemoved(InterfaceCopied(t, origId, newId).1, newId) == (Done, t)
  {
    CopyShape(t, origId, newId);
    var copied := InterfaceCopied(t, origId, newId).1;
    var c := FirstIndex(t[0], origId);
    var orig := RowOf(t, origId).value.value;
    RemoveFreshRow(t, copied, newId, c, orig);
    RemoveFreshColumn(t, copied, newId, c, orig);
    PartlyNarrowedWhenReached(copied[..|t|], newId);
  }

  /** The same round trip through the changer's own methods. */
  method CopyThenRemoveInPlace(lines: seq<string>, origId: string, newId: string)
    returns (copied: Status, removed: Status, restored: bool)
    requires Rectangular(ReadTable(lines)) && |ReadTable(lines)[0]| >= 2
    requires origId in Names(ReadTable(lines)) && origId in ReadTable(lines)[0]
    requires newId !in Names(ReadTable(lines)) && newId !in ReadTable(lines)[0]
    ensures copied == Done && removed == Done && restored
  {
    var template := new MarkovTemplate(lines);
    var changer := new MarkovTemplateChanger(template);
    CopyThenRemove(template.rows, origId, newId);
    copied := changer.CopyInterface(origId, newId);
    removed := changer.RemoveInterface(newId);
    restored := template.rows == ReadTable(lines);
  }
}
