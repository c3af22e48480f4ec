/**
 * A capacity-one cache over a per-column store. Every column of a snapshot
 * gets its own disk slot holding that column as a single-column frame; at
 * most one column is resident in memory, and the resident column is written
 * back to its own slot whenever a different column is loaded in its place.
 */
module Columnar {
  import opened Wrappers
  import opened Faults
  import opened Json
  import opened Frames

  /** `df[[col]]`: the single-column frame a slot holds. */
  function Slot(df: Dataset, col: string): (r: Dataset)
    requires col in Keys(df)
    ensures Keys(r) == [col]
    ensures Select(df, [col]) == Success(r)
  {
    var c := Lookup(df, col).value;
    assert [col][0] == col && [col][1..] == [];
    assert Select(df, []) == Success([]);
    assert [(col, c)] + [] == [(col, c)];
    [(col, c)]
  }

  /** `df[[col]]` for a column the frame lacks raises a KeyError naming it. */
  lemma SlotMissing(df: Dataset, col: string)
    requires col !in Keys(df)
    ensures Select(df, [col]) == Failure(KeyError(col))
  {
  }

  /** The slots a store of `cols` writes: one per column `df` has, holding that column. */
  function Slots(df: Dataset, cols: seq<string>): map<string, Dataset> {
    map c | c in cols && c in Keys(df) :: Slot(df, c)
  }

  /** How many leading names of `cols` are columns of `df`: the index of the first missing one. */
  function Present(df: Dataset, cols: seq<string>): (k: nat)
    ensures k <= |cols|
    ensures forall i :: 0 <= i < k ==> cols[i] in Keys(df)
    ensures k < |cols| ==> cols[k] !in Keys(df)
  {
    if cols == [] || cols[0] !in Keys(df) then 0 else 1 + Present(df, cols[1..])
  }

  /** Storing one more column of the prefix adds exactly its slot. */
  lemma SlotsExtend(df: Dataset, cols: seq<string>, i: nat)
    requires i < Present(df, cols)
    ensures Slots(df, cols[..i + 1]) == Slots(df, cols[..i])[cols[i] := Slot(df, cols[i])]
  {
    var before, after, x := cols[..i], cols[..i + 1], cols[i];
    assert after == before + [x];
    var a, b := Slots(df, after), Slots(df, before)[x := Slot(df, x)];
    forall c ensures c in a <==> c in b {
      assert c in after <==> c in before || c == x;
    }
    forall c | c in a ensures a[c] == b[c] {
      if c != x {
        assert c in before;
      }
    }
  }

  /** Overwriting a slot of a union overwrites it in the right operand. */
  lemma UnionUpdate<K, V>(a: map<K, V>, b: map<K, V>, k: K, v: V)
    ensures (a + b)[k := v] == a + b[k := v]
  {
  }

  class ColumnarDataFrame {
    /** The kind of frame the snapshot came from ('pandas', 'polars' or 'pyspark'). */
    const dataType: string
    /** The column list, fixed at construction. */
    const columns: seq<string>
    /** The per-column files of the temporary directory, by column name. */
    var disk: map<string, Dataset>
    /** The name of the resident column, if any. */
    var currentName: Option<string>
    /** The resident column's frame; empty while nothing is resident. */
    var current: Dataset

    /** Every column has a slot, and the resident column is one of the slots. */
    ghost predicate Valid()
      reads this
    {
      (forall c :: c in columns ==> c in disk) &&
      (currentName.None? ==> current == []) &&
      (currentName.Some? ==> currentName.value in disk)
    }

    /** Nothing is waiting to be written back: the resident frame is what its slot holds. */
    ghost predicate Clean()
      reads this
    {
      Valid() && (currentName.Some? ==> current == disk[currentName.value])
    }

    constructor (df: Dataset, dataType: string)
      ensures this.dataType == dataType && columns == Keys(df)
      ensures currentName == None && current == []
      ensures disk == Slots(df, Keys(df))
      ensures Valid() && Clean()
    {
      this.dataType := dataType;
      columns := Keys(df);
      currentName := None;
      current := [];
      disk := map[];
      new;
      var stored := StoreData(df);
      assert columns[..|columns|] == columns;
    }

    /**
     * Writes one slot per column, in column order; a column the frame lacks
     * stops the store with a KeyError after the slots before it were written.
     */
    method StoreData(df: Dataset) returns (r: Outcome<Fault>)
      modifies this
      ensures currentName == old(currentName) && current == old(current)
      ensures var k := Present(df, columns);
        disk == old(disk) + Slots(df, columns[..k]) &&
        r == if k == |columns| then Pass else Fail(KeyError(columns[k]))
    {
      ghost var k := Present(df, columns);
      var i := 0;
      while i < |columns|
        invariant 0 <= i <= k
        invariant disk == old(disk) + Slots(df, columns[..i])
        invariant currentName == old(currentName) && current == old(current)
      {
        var col := columns[i];
        var frame := Select(df, [col]);
        if frame.Failure? {
          SlotMissing(df, col);
          assert i == k;
          return Fail(frame.error);
        }
        assert col in Keys(df) && i < k;
        assert frame.value == Slot(df, col);
        SlotsExtend(df, columns, i);
        UnionUpdate(old(disk), Slots(df, columns[..i]), col, frame.value);
        disk := disk[col := frame.value];
        i := i + 1;
      }
      assert columns[..i] == columns;
      return Pass;
    }

    /**
     * Makes `name` the resident column. A different resident column is first
     * written back to its own slot; the read fails if `name` has no slot.
     */
    method LoadColumn(name: string) returns (r: Result<Dataset, Fault>)
      requires Valid()
      modifies this
      ensures Valid()
      ensures disk == if old(currentName).Some? && old(currentName).value != name
                      then old(disk)[old(currentName).value := old(current)]
                      else old(disk)
      ensures r.Success? <==> name in old(disk)
      ensures r.Success? ==> r.value == old(disk)[name] && Clean()
                             && currentName == Some(name) && current == r.value
      ensures r.Failure? ==> r.error == FileNotFoundError(name)
                             && currentName == old(currentName) && current == old(current)
      ensures old(Clean()) ==> disk == old(disk)
    {
      if currentName.Some? && currentName.value != name {
        disk := disk[currentName.value := current];
      }
      if name !in disk {
        return Failure(FileNotFoundError(name));
      }
      current := disk[name];
      currentName := Some(name);
      return Success(current);
    }

    /** A caller's in-place edit of the frame it was handed: the resident frame becomes `edited`. */
    method EditResident(edited: Dataset)
      requires Valid() && currentName.Some?
      modifies this
      ensures Valid()
      ensures current == edited && currentName == old(currentName) && disk == old(disk)
    {
      current := edited;
    }

    /**
     * Loads every column in stored order and yields the frames. Only the
     * first load can write anything back; afterwards the cache is clean and
     * the last column is resident.
     */
    method Iterate() returns (frames: seq<Dataset>)
      requires Valid()
      modifies this
      ensures Valid()
      ensures |frames| == |columns|
      ensures forall i :: 0 <= i < |columns| ==> frames[i] == disk[columns[i]]
      ensures columns == [] ==> disk == old(disk) && currentName == old(currentName) && current == old(current)
      ensures columns != [] ==>
        Clean() && currentName == Some(columns[|columns| - 1]) &&
        disk == if old(currentName).Some? && old(currentName).value != columns[0]
                then old(disk)[old(currentName).value := old(current)]
                else old(disk)
      ensures old(Clean()) ==> disk == old(disk)
    {
      ghost var written := if currentName.Some? && columns != [] && currentName.value != columns[0]
                           then disk[currentName.value := current] else disk;
      frames := [];
      for i := 0 to |columns|
        invariant Valid()
        invariant |frames| == i
        invariant i == 0 ==> disk == old(disk) && currentName == old(currentName) && current == old(current)
        invariant i > 0 ==> Clean() && disk == written && currentName == Some(columns[i - 1])
        invariant forall j :: 0 <= j < i ==> frames[j] == disk[columns[j]]
      {
        var frame := LoadColumn(columns[i]);
        frames := frames + [frame.value];
      }
    }

    /** The column list, which no operation changes. */
    method GetColumns() returns (cols: seq<string>)
      ensures cols == columns
    {
      cols := columns;
    }
  }

  /**
   * Round trip: without edits of the resident frame, reloading a column after
   * any sequence of loads returns the frame stored for it at construction.
   */
  method ReloadAfterLoads(df: Dataset, dataType: string, loads: seq<string>, name: string)
    returns (r: Result<Dataset, Fault>)
    ensures name in Keys(df) ==> r == Success(Slot(df, name))
    ensures name !in Keys(df) ==> r == Failure(FileNotFoundError(name))
  {
    var store := new ColumnarDataFrame(df, dataType);
    for i := 0 to |loads|
      invariant store.Clean() && store.disk == Slots(df, Keys(df))
    {
      var loaded := store.LoadColumn(loads[i]);
    }
    r := store.LoadColumn(name);
  }

  /** Reloading the resident column re-reads its slot, so an edit of the resident frame is lost. */
  method ReloadDiscardsEdits(df: Dataset, dataType: string, name: string, edited: Dataset)
    returns (r: Result<Dataset, Fault>)
    requires name in Keys(df)
    ensures r == Success(Slot(df, name))
  {
    var store := new ColumnarDataFrame(df, dataType);
    var loaded := store.LoadColumn(name);
    store.EditResident(edited);
    r := store.LoadColumn(name);
  }

  /** Loading another column writes the edited resident frame back, so a later reload returns the edit. */
  method SwapKeepsEdits(df: Dataset, dataType: string, name: string, other: string, edited: Dataset)
    returns (r: Result<Dataset, Fault>)
    requires name in Keys(df) && other in Keys(df) && name != other
    ensures r == Success(edited)
  {
    var store := new ColumnarDataFrame(df, dataType);
    var loaded := store.LoadColumn(name);
    store.EditResident(edited);
    loaded := store.LoadColumn(other);
    r := store.LoadColumn(name);
  }
}
