/**
 * The two kinds of table the code handles. A `Dataset` is the data under
 * analysis, column by column (a pandas DataFrame read from disk). A `Frame`
 * is a report: a list of sparse rows whose column list is the union of the
 * rows' keys, a cell a row does not have being empty (NaN).
 */
module Frames {
  import opened Wrappers
  import opened Faults
  import opened Json

  type Column = seq<Atom>

  type Dataset = seq<(string, Column)>

  datatype Frame = Frame(columns: seq<string>, rows: seq<Mapping>)

  ghost function KeySet(m: Mapping): set<string> {
    set k | k in Keys(m)
  }

  /** Every key of every row. */
  ghost function RowKeys(rows: seq<Mapping>): set<string> {
    if rows == [] then {} else RowKeys(rows[..|rows| - 1]) + KeySet(rows[|rows| - 1])
  }

  /** A key belongs to some row exactly when it is in `RowKeys`. */
  lemma {:induction false} RowKeysMembers(rows: seq<Mapping>)
    ensures forall c :: c in RowKeys(rows) <==> exists i :: 0 <= i < |rows| && c in Keys(rows[i])
  {
    if rows != [] {
      var init := rows[..|rows| - 1];
      RowKeysMembers(init);
      forall c | exists i :: 0 <= i < |rows| && c in Keys(rows[i])
        ensures c in RowKeys(rows)
      {
        var i :| 0 <= i < |rows| && c in Keys(rows[i]);
        if i < |rows| - 1 {
          assert init[i] == rows[i];
        }
      }
    }
  }

  /** Column names are distinct and every key of every row is a column. */
  ghost predicate Valid(f: Frame) {
    Distinct(f.columns) && RowKeys(f.rows) <= set c | c in f.columns
  }

  /** One more record for a frame built from records: keys the frame lacks become new columns, after the old ones. */
  function AppendRow(f: Frame, row: Mapping): (g: Frame)
    ensures g.rows == f.rows + [row]
    ensures (set c | c in g.columns) == (set c | c in f.columns) + KeySet(row)
    ensures f.columns <= g.columns
    ensures Valid(f) ==> Valid(g)
  {
    assert (f.rows + [row])[..|f.rows|] == f.rows;
    Frame(MergeKeys(f.columns, Keys(row)), f.rows + [row])
  }

  /** The keys of the rows of two tables together are the keys of each. */
  lemma RowKeysAppend(a: seq<Mapping>, b: seq<Mapping>)
    ensures RowKeys(a + b) == RowKeys(a) + RowKeys(b)
  {
    RowKeysMembers(a);
    RowKeysMembers(b);
    RowKeysMembers(a + b);
    forall c | c in RowKeys(a + b) ensures c in RowKeys(a) || c in RowKeys(b) {
      var i :| 0 <= i < |a + b| && c in Keys((a + b)[i]);
      if i < |a| {
        assert (a + b)[i] == a[i];
      } else {
        assert (a + b)[i] == b[i - |a|];
      }
    }
    forall c | c in RowKeys(a) + RowKeys(b) ensures c in RowKeys(a + b) {
      if c in RowKeys(a) {
        var i :| 0 <= i < |a| && c in Keys(a[i]);
        assert (a + b)[i] == a[i];
      } else {
        var i :| 0 <= i < |b| && c in Keys(b[i]);
        assert (a + b)[|a| + i] == b[i];
      }
    }
  }

  /** `pd.concat([f, g], ignore_index=True)`: the rows of both; the columns of `f`, then those new in `g`. */
  function Concat(f: Frame, g: Frame): (h: Frame)
    ensures h.rows == f.rows + g.rows
    ensures (set c | c in h.columns) == (set c | c in f.columns) + (set c | c in g.columns)
    ensures f.columns <= h.columns
    ensures Valid(f) && Valid(g) ==> Valid(h)
  {
    RowKeysAppend(f.rows, g.rows);
    Frame(MergeKeys(f.columns, g.columns), f.rows + g.rows)
  }

  /** `pd.DataFrame(rows)` for a list of dicts: the columns in order of first appearance across the rows. */
  function FromRows(rows: seq<Mapping>): (f: Frame)
    ensures f.rows == rows
    ensures Valid(f)
    ensures (set c | c in f.columns) == RowKeys(rows)
  {
    if rows == [] then Frame([], [])
    else
      assert rows == rows[..|rows| - 1] + [rows[|rows| - 1]];
      AppendRow(FromRows(rows[..|rows| - 1]), rows[|rows| - 1])
  }

  /** `f.empty`: no rows or no columns. */
  predicate IsEmpty(f: Frame) {
    |f.rows| == 0 || |f.columns| == 0
  }

  /** `f.iloc[i].to_dict()`: every column of the frame, an empty cell read as NaN. */
  function RowDict(f: Frame, i: nat): (r: Mapping)
    requires i < |f.rows|
    ensures Keys(r) == f.columns
    ensures forall j :: 0 <= j < |r| ==> r[j].1 == Lookup(f.rows[i], f.columns[j]).GetOr(Leaf(Null))
  {
    var r := seq(|f.columns|, j requires 0 <= j < |f.columns| => (f.columns[j], Lookup(f.rows[i], f.columns[j]).GetOr(Leaf(Null))));
    KeysMatch(r, f.columns);
    r
  }

  /** `df[name]`. */
  function ColumnOf(ds: Dataset, name: string): (r: Result<Column, Fault>)
    ensures r.Success? <==> name in Keys(ds)
    ensures r.Failure? ==> r.error == KeyError(name)
  {
    match Lookup(ds, name)
    case Some(c) => Success(c)
    case None => Failure(KeyError(name))
  }

  /** `df[names]`: the named columns in the order asked for; KeyError for the first missing one. */
  function Select(ds: Dataset, names: seq<string>): (r: Result<Dataset, Fault>)
    ensures r.Success? <==> forall n :: n in names ==> n in Keys(ds)
    ensures r.Success? ==> Keys(r.value) == names
    ensures r.Success? ==> forall i :: 0 <= i < |names| ==> Lookup(ds, names[i]) == Some(r.value[i].1)
  {
    if names == [] then Success([])
    else
      match Lookup(ds, names[0])
      case None => assert names[0] in names; Failure(KeyError(names[0]))
      case Some(c) =>
        assert forall n :: n in names <==> n == names[0] || n in names[1..];
        var rest :- Select(ds, names[1..]);
        Success([(names[0], c)] + rest)
  }

  /** The lists joined end to end. */
  function Flatten(lists: seq<seq<string>>): seq<string> {
    if lists == [] then [] else lists[0] + Flatten(lists[1..])
  }

  /**
   * `union_indexes(lists, sort=False)`: every name of every list, each at
   * its first appearance, the lists taken in order.
   */
  function Union(lists: seq<seq<string>>): seq<string> {
    MergeKeys([], Flatten(lists))
  }

  lemma {:induction false} FlattenMembers(lists: seq<seq<string>>, n: string)
    ensures n in Flatten(lists) <==> exists j :: 0 <= j < |lists| && n in lists[j]
    decreases |lists|
  {
    if lists != [] {
      var rest := lists[1..];
      FlattenMembers(rest, n);
      if n in Flatten(rest) {
        var j :| 0 <= j < |rest| && n in rest[j];
        assert lists[j + 1] == rest[j];
      }
      if exists j :: 0 <= j < |lists| && n in lists[j] {
        var j :| 0 <= j < |lists| && n in lists[j];
        if j > 0 {
          assert rest[j - 1] == lists[j];
        }
      }
    }
  }

  lemma {:induction false} FlattenSplit(lists: seq<seq<string>>, k: nat)
    requires k <= |lists|
    ensures Flatten(lists) == Flatten(lists[..k]) + Flatten(lists[k..])
    decreases k
  {
    if k > 0 {
      FlattenSplit(lists[1..], k - 1);
      assert lists[1..][..k - 1] == lists[..k][1..];
      assert lists[1..][k - 1..] == lists[k..];
    } else {
      assert lists[k..] == lists;
    }
  }

  /** The union holds each name once, and a name exactly when some list holds it. */
  lemma UnionMembers(lists: seq<seq<string>>, n: string)
    ensures Distinct(Union(lists))
    ensures n in Union(lists) <==> exists j :: 0 <= j < |lists| && n in lists[j]
  {
    var none: seq<string> := [];
    assert Distinct(none);
    FlattenMembers(lists, n);
  }

  /** The first name of the first list comes first. */
  lemma UnionHead(lists: seq<seq<string>>)
    requires lists != [] && lists[0] != []
    ensures |Union(lists)| > 0 && Union(lists)[0] == lists[0][0]
  {
    var all := Flatten(lists);
    assert all != [] && all[0] == lists[0][0] by {
      assert all == lists[0] + Flatten(lists[1..]);
    }
    var none: seq<string> := [];
    assert MergeKeys(none, all) == MergeKeys([all[0]], all[1..]) by {
      assert all[0] !in none && none + [all[0]] == [all[0]];
    }
  }

  /** The union of the first `k` lists begins the union of them all. */
  lemma UnionPrefix(lists: seq<seq<string>>, k: nat)
    requires k <= |lists|
    ensures Union(lists[..k]) <= Union(lists)
  {
    FlattenSplit(lists, k);
    MergeKeysAppend([], Flatten(lists[..k]), Flatten(lists[k..]));
  }

  /** When the first list is a dict's keys and holds every other name, the union is that list. */
  lemma UnionCovered(lists: seq<seq<string>>)
    requires lists != [] && Distinct(lists[0])
    requires forall j, n :: 0 <= j < |lists| && n in lists[j] ==> n in lists[0]
    ensures Union(lists) == lists[0]
  {
    var rest := Flatten(lists[1..]);
    assert Flatten(lists) == lists[0] + rest;
    MergeKeysAppend([], lists[0], rest);
    assert [] + lists[0] == lists[0];
    MergeKeysFresh([], lists[0]);
    forall x | x in rest ensures x in lists[0] {
      FlattenMembers(lists[1..], x);
      var j :| 0 <= j < |lists[1..]| && x in lists[1..][j];
      assert lists[j + 1] == lists[1..][j];
    }
    MergeKeysCovered(lists[0], rest);
  }
}
