/**
 * JSON-like values as the Python code sees them: a profiling report, a record
 * and a row are dicts, and a Python dict is an association list that keeps
 * insertion order. Writing `d[k] = v` keeps the position of an existing key
 * and appends a new one; `dict(items)` and `d.update(items)` do that for each
 * pair in turn, so a later pair for the same key wins.
 */
module Json {
  import opened Wrappers

  /** A value that is not a dict. `Items` is a Python list; `Null` is None or NaN. */
  datatype Atom = Num(x: real) | Flag(b: bool) | Text(s: string) | Null | Items(elems: seq<Atom>)

  datatype Value = Leaf(atom: Atom) | Dict(entries: seq<(string, Value)>)

  type Mapping = seq<(string, Value)>

  function Keys<V>(m: seq<(string, V)>): (ks: seq<string>)
    ensures |ks| == |m|
  {
    if m == [] then [] else [m[0].0] + Keys(m[1..])
  }

  lemma {:induction false} KeysAppend<V>(a: seq<(string, V)>, b: seq<(string, V)>)
    ensures Keys(a + b) == Keys(a) + Keys(b)
    decreases |a|
  {
    if a != [] {
      assert (a + b)[1..] == a[1..] + b;
      KeysAppend(a[1..], b);
    } else {
      assert a + b == b;
    }
  }

  lemma {:induction false} KeysAt<V>(m: seq<(string, V)>, i: nat)
    requires i < |m|
    ensures Keys(m)[i] == m[i].0
    decreases i
  {
    if i > 0 {
      KeysAt(m[1..], i - 1);
    }
  }

  /** Pairs whose keys are `ks`, one by one, have the keys `ks`. */
  lemma {:induction false} KeysMatch<V>(m: seq<(string, V)>, ks: seq<string>)
    requires |m| == |ks| && forall j :: 0 <= j < |m| ==> m[j].0 == ks[j]
    ensures Keys(m) == ks
    decreases |m|
  {
    if m != [] {
      KeysMatch(m[1..], ks[1..]);
    }
  }

  ghost predicate Distinct<T>(s: seq<T>) {
    forall i, j :: 0 <= i < j < |s| ==> s[i] != s[j]
  }

  /** What every Python dict satisfies: no key twice. */
  ghost predicate UniqueKeys<V>(m: seq<(string, V)>) {
    Distinct(Keys(m))
  }

  /** `d.get(k)`: the value stored under `k`, if any. */
  function Lookup<V>(m: seq<(string, V)>, k: string): (r: Option<V>)
    ensures r.Some? <==> k in Keys(m)
    ensures r.Some? ==> (k, r.value) in m
  {
    if m == [] then None
    else if m[0].0 == k then Some(m[0].1)
    else Lookup(m[1..], k)
  }

  /** The value of the LAST pair for `k` in a list of pairs. */
  function LastLookup<V>(items: seq<(string, V)>, k: string): (r: Option<V>)
    ensures r.Some? <==> k in Keys(items)
  {
    if items == [] then None
    else
      match LastLookup(items[1..], k)
      case Some(v) => Some(v)
      case None => if items[0].0 == k then Some(items[0].1) else None
  }

  /** `d[k] = v`. */
  function Insert<V>(m: seq<(string, V)>, k: string, v: V): (r: seq<(string, V)>)
    ensures Lookup(r, k) == Some(v)
    ensures forall j :: j != k ==> Lookup(r, j) == Lookup(m, j)
    ensures Keys(r) == if k in Keys(m) then Keys(m) else Keys(m) + [k]
  {
    if m == [] then [(k, v)]
    else if m[0].0 == k then
      var r := [(k, v)] + m[1..];
      assert r[0] == (k, v) && r[1..] == m[1..];
      assert Keys(r) == Keys(m) by {
        assert Keys(r) == [k] + Keys(m[1..]);
        assert Keys(m) == [m[0].0] + Keys(m[1..]);
      }
      r
    else
      var rest := Insert(m[1..], k, v);
      var r := [m[0]] + rest;
      assert r[0] == m[0] && r[1..] == rest;
      assert Lookup(r, k) == Some(v);
      assert forall j :: j != k ==> Lookup(r, j) == Lookup(m, j) by {
        forall j | j != k ensures Lookup(r, j) == Lookup(m, j) {
          if m[0].0 != j {
            assert Lookup(r, j) == Lookup(rest, j);
          }
        }
      }
      assert Keys(r) == if k in Keys(m) then Keys(m) else Keys(m) + [k] by {
        assert Keys(m) == [m[0].0] + Keys(m[1..]);
        assert Keys(r) == [m[0].0] + Keys(rest);
        assert Keys(m) + [k] == [m[0].0] + (Keys(m[1..]) + [k]);
      }
      r
  }

  /** A new key is appended at the end. */
  lemma {:induction false} InsertFresh<V>(m: seq<(string, V)>, k: string, v: V)
    requires k !in Keys(m)
    ensures Insert(m, k, v) == m + [(k, v)]
  {
    if m != [] {
      assert k != m[0].0 && k !in Keys(m[1..]) by {
        assert Keys(m) == [m[0].0] + Keys(m[1..]);
      }
      InsertFresh(m[1..], k, v);
      assert Insert(m, k, v) == [m[0]] + Insert(m[1..], k, v);
      assert [m[0]] + (m[1..] + [(k, v)]) == m + [(k, v)];
    }
  }

  /** Assigning to a dict keeps it a dict. */
  lemma InsertUnique<V>(m: seq<(string, V)>, k: string, v: V)
    requires UniqueKeys(m)
    ensures UniqueKeys(Insert(m, k, v))
  {
    var ks := Keys(m);
    if k !in ks {
      var ks' := ks + [k];
      forall i, j | 0 <= i < j < |ks'| ensures ks'[i] != ks'[j] {
        if j < |ks| {
          assert ks'[i] == ks[i] && ks'[j] == ks[j];
        } else {
          assert ks'[i] == ks[i] && ks'[j] == k;
        }
      }
    }
  }

  /** `d.update(items)`: one `Insert` per pair, in order. */
  function UpdateWith<V>(m: seq<(string, V)>, items: seq<(string, V)>): seq<(string, V)>
    decreases |items|
  {
    if items == [] then m
    else UpdateWith(Insert(m, items[0].0, items[0].1), items[1..])
  }

  /** `dict(items)`. */
  function ToDict<V>(items: seq<(string, V)>): seq<(string, V)> {
    UpdateWith([], items)
  }

  /** The key order after an update: the old keys, then each new key at its first appearance. */
  function MergeKeys(ks: seq<string>, more: seq<string>): (r: seq<string>)
    ensures forall x :: x in r <==> x in ks || x in more
    ensures ks <= r
    ensures Distinct(ks) ==> Distinct(r)
    decreases |more|
  {
    if more == [] then ks
    else MergeKeys(if more[0] in ks then ks else ks + [more[0]], more[1..])
  }

  /** Merging in names that are all new appends them. */
  lemma {:induction false} MergeKeysFresh(ks: seq<string>, more: seq<string>)
    requires Distinct(ks + more)
    ensures MergeKeys(ks, more) == ks + more
    decreases |more|
  {
    if more != [] {
      var bigger := ks + [more[0]];
      assert more[0] !in ks by {
        var all := ks + more;
        forall i | 0 <= i < |ks| ensures ks[i] != more[0] {
          assert all[i] == ks[i] && all[|ks|] == more[0];
        }
      }
      assert bigger + more[1..] == ks + more by {
        assert more == [more[0]] + more[1..];
      }
      MergeKeysFresh(bigger, more[1..]);
    }
  }

  /** Merging in names that are all present changes nothing. */
  lemma {:induction false} MergeKeysCovered(ks: seq<string>, more: seq<string>)
    requires forall x :: x in more ==> x in ks
    ensures MergeKeys(ks, more) == ks
    decreases |more|
  {
    if more != [] {
      MergeKeysCovered(ks, more[1..]);
    }
  }

  /** Merging in two lists is merging in the first, then the second. */
  lemma {:induction false} MergeKeysAppend(ks: seq<string>, a: seq<string>, b: seq<string>)
    ensures MergeKeys(ks, a + b) == MergeKeys(MergeKeys(ks, a), b)
    decreases |a|
  {
    if a == [] {
      assert a + b == b;
    } else {
      var next := if a[0] in ks then ks else ks + [a[0]];
      assert (a + b)[0] == a[0] && (a + b)[1..] == a[1..] + b;
      MergeKeysAppend(next, a[1..], b);
    }
  }

  /** Merging in an already merged list is merging in the list itself. */
  lemma {:induction false} MergeKeysNested(ks: seq<string>, js: seq<string>, a: seq<string>)
    ensures MergeKeys(ks, MergeKeys(js, a)) == MergeKeys(MergeKeys(ks, js), a)
    decreases |a|
  {
    if a != [] {
      var x := a[0];
      if x in js {
        assert x in MergeKeys(ks, js);
        MergeKeysNested(ks, js, a[1..]);
      } else {
        MergeKeysNested(ks, js + [x], a[1..]);
        MergeKeysAppend(ks, js, [x]);
        MergeKeysAppend(MergeKeys(ks, js), [x], a[1..]);
        assert [x] + a[1..] == a;
      }
    }
  }

  /** After an update, a key holds its last value in `items`, or else its old value. */
  lemma {:induction false} UpdateWithLookup<V>(m: seq<(string, V)>, items: seq<(string, V)>, k: string)
    ensures Lookup(UpdateWith(m, items), k) ==
      match LastLookup(items, k)
      case Some(v) => Some(v)
      case None => Lookup(m, k)
    decreases |items|
  {
    if items != [] {
      UpdateWithLookup(Insert(m, items[0].0, items[0].1), items[1..], k);
    }
  }

  /** An update keeps the old keys in place and appends the new ones; no key appears twice. */
  lemma {:induction false} UpdateWithKeys<V>(m: seq<(string, V)>, items: seq<(string, V)>)
    ensures Keys(UpdateWith(m, items)) == MergeKeys(Keys(m), Keys(items))
    ensures UniqueKeys(m) ==> UniqueKeys(UpdateWith(m, items))
    decreases |items|
  {
    if items != [] {
      var m' := Insert(m, items[0].0, items[0].1);
      if UniqueKeys(m) {
        InsertUnique(m, items[0].0, items[0].1);
      }
      UpdateWithKeys(m', items[1..]);
      assert Keys(items) == [items[0].0] + Keys(items[1..]);
    }
  }

  /** `dict(items)` maps each key to its last value in `items`. */
  lemma ToDictLookup<V>(items: seq<(string, V)>, k: string)
    ensures Lookup(ToDict(items), k) == LastLookup(items, k)
  {
    UpdateWithLookup([], items, k);
  }

  lemma ToDictUnique<V>(items: seq<(string, V)>)
    ensures UniqueKeys(ToDict(items))
    ensures forall k :: k in Keys(ToDict(items)) <==> k in Keys(items)
  {
    UpdateWithKeys([], items);
  }

  /** Updating with pairs whose keys are all new appends them unchanged. */
  lemma FirstKeyFresh<V>(m: seq<(string, V)>, items: seq<(string, V)>)
    requires items != [] && UniqueKeys(m + items)
    ensures items[0].0 !in Keys(m)
  {
    var ks := Keys(m + items);
    KeysAppend(m, items);
    assert ks[|m|] == items[0].0;
    forall i | 0 <= i < |m| ensures Keys(m)[i] != items[0].0 {
      assert ks[i] == Keys(m)[i];
    }
  }

  lemma {:induction false} UpdateWithFresh<V>(m: seq<(string, V)>, items: seq<(string, V)>)
    requires UniqueKeys(m + items)
    ensures UpdateWith(m, items) == m + items
    decreases |items|
  {
    if items != [] {
      var e, rest := items[0], items[1..];
      var m' := m + [e];
      assert m' + rest == m + items;
      assert UpdateWith(m, items) == UpdateWith(m', rest) by {
        FirstKeyFresh(m, items);
        InsertFresh(m, e.0, e.1);
      }
      UpdateWithFresh(m', rest);
    }
  }

  /** `dict(d)` of a dict is the same dict. */
  lemma ToDictIdentity<V>(items: seq<(string, V)>)
    requires UniqueKeys(items)
    ensures ToDict(items) == items
  {
    assert [] + items == items;
    UpdateWithFresh([], items);
  }

  /** The last pair for a key in `a + b` comes from `b` when `b` has the key. */
  lemma {:induction false} LastLookupAppend<V>(a: seq<(string, V)>, b: seq<(string, V)>, k: string)
    ensures LastLookup(a + b, k) ==
      match LastLookup(b, k)
      case Some(v) => Some(v)
      case None => LastLookup(a, k)
    decreases |a|
  {
    if a != [] {
      assert (a + b)[1..] == a[1..] + b;
      LastLookupAppend(a[1..], b, k);
    } else {
      assert a + b == b;
    }
  }

  /** Every pair of `d[k] = v` was already in `d` or is the new pair. */
  lemma {:induction false} InsertFrom<V>(m: seq<(string, V)>, k: string, v: V)
    ensures forall e :: e in Insert(m, k, v) ==> e in m || e == (k, v)
  {
    if m != [] && m[0].0 != k {
      InsertFrom(m[1..], k, v);
    }
  }

  /** Every pair of `d.update(items)` comes from `d` or from `items`. */
  lemma {:induction false} UpdateWithFrom<V>(m: seq<(string, V)>, items: seq<(string, V)>)
    ensures forall e :: e in UpdateWith(m, items) ==> e in m || e in items
    decreases |items|
  {
    if items != [] {
      InsertFrom(m, items[0].0, items[0].1);
      UpdateWithFrom(Insert(m, items[0].0, items[0].1), items[1..]);
    }
  }

  /** In a dict the first and the last pair for a key are the same pair. */
  lemma {:induction false} UniqueLastLookup<V>(m: seq<(string, V)>, k: string)
    requires UniqueKeys(m)
    ensures LastLookup(m, k) == Lookup(m, k)
  {
    if m != [] {
      var ks := Keys(m);
      assert ks == [m[0].0] + Keys(m[1..]);
      assert m[0].0 !in Keys(m[1..]) by {
        forall i | 0 <= i < |Keys(m[1..])| ensures Keys(m[1..])[i] != m[0].0 {
          assert ks[0] == m[0].0 && ks[i + 1] == Keys(m[1..])[i];
        }
      }
      assert UniqueKeys(m[1..]) by {
        forall i, j | 0 <= i < j < |Keys(m[1..])| ensures Keys(m[1..])[i] != Keys(m[1..])[j] {
          assert ks[i + 1] == Keys(m[1..])[i] && ks[j + 1] == Keys(m[1..])[j];
        }
      }
      UniqueLastLookup(m[1..], k);
    }
  }

  /** In a dict, looking up the key of the pair at index `i` finds that pair's value. */
  lemma {:induction false} LookupAt<V>(m: seq<(string, V)>, i: nat)
    requires UniqueKeys(m) && i < |m|
    ensures Lookup(m, m[i].0) == Some(m[i].1)
  {
    if i > 0 {
      var ks := Keys(m);
      assert ks == [m[0].0] + Keys(m[1..]);
      KeysAt(m, 0);
      KeysAt(m, i);
      assert UniqueKeys(m[1..]) by {
        forall a, b | 0 <= a < b < |Keys(m[1..])| ensures Keys(m[1..])[a] != Keys(m[1..])[b] {
          assert ks[a + 1] == Keys(m[1..])[a] && ks[b + 1] == Keys(m[1..])[b];
        }
      }
      LookupAt(m[1..], i - 1);
    }
  }

  function Total(s: seq<nat>): nat {
    if s == [] then 0 else s[0] + Total(s[1..])
  }

  /** Number of leaves and dicts in a value: the measure that recursion into nested dicts decreases. */
  function Size(v: Value): nat {
    match v
    case Leaf(_) => 1
    case Dict(es) => 1 + Total(seq(|es|, i requires 0 <= i < |es| => Size(es[i].1)))
  }

  function EntriesSize(es: Mapping): nat {
    Size(Dict(es))
  }

  lemma SizeCons(es: Mapping)
    requires es != []
    ensures EntriesSize(es) == Size(es[0].1) + EntriesSize(es[1..])
    ensures es[0].1.Dict? ==> EntriesSize(es[0].1.entries) == Size(es[0].1)
  {
    var s := seq(|es|, i requires 0 <= i < |es| => Size(es[i].1));
    var t := seq(|es| - 1, i requires 0 <= i < |es| - 1 => Size(es[1..][i].1));
    assert s[1..] == t;
  }
}
