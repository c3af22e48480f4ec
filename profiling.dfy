/**
 * Reduction of a raw profiling report to one flat record per variable:
 * whitelist filtering of the nested statistics, key-path flattening,
 * assembly of the records into a frame, and the derived observability
 * metrics. Every step builds a fresh value and leaves its input alone.
 */
module Profiling {
  import opened Wrappers
  import opened Faults
  import opened Json
  import opened Frames

  /** A whitelist entry: `True` keeps the value whole; a dict filters a dict value by its own keys. */
  datatype Keep = Yes | Nested(fields: seq<(string, Keep)>)

  type Whitelist = seq<(string, Keep)>

  /** The keys of `ks` that `allowed` contains, in the order of `ks`. */
  function Selected(ks: seq<string>, allowed: seq<string>): (r: seq<string>)
    ensures forall k :: k in r <==> k in ks && k in allowed
    ensures Distinct(ks) ==> Distinct(r)
  {
    if ks == [] then []
    else if ks[0] in allowed then [ks[0]] + Selected(ks[1..], allowed)
    else Selected(ks[1..], allowed)
  }

  /**
   * `filter_nested_fields(details, fields_to_keep)`: keep the keys the whitelist
   * names; filter a kept dict again when its whitelist entry is a dict.
   */
  function FilterNested(details: Mapping, keep: Whitelist): Mapping
    decreases EntriesSize(details)
  {
    if details == [] then []
    else
      SizeCons(details);
      var k := details[0].0;
      var v := details[0].1;
      var rest := FilterNested(details[1..], keep);
      match Lookup(keep, k)
      case None => rest
      case Some(w) =>
        if v.Dict? && w.Nested? then [(k, Dict(FilterNested(v.entries, w.fields)))] + rest
        else [(k, v)] + rest
  }

  /** The output keys are the input keys the whitelist names, in input order: none is added. */
  lemma {:induction false} FilterNestedKeys(details: Mapping, keep: Whitelist)
    ensures Keys(FilterNested(details, keep)) == Selected(Keys(details), Keys(keep))
    decreases |details|
  {
    if details != [] {
      SizeCons(details);
      FilterNestedKeys(details[1..], keep);
    }
  }

  /**
   * Read as a dict, the output holds a key exactly when both the input and the
   * whitelist do; a dict value under a dict entry is filtered by that entry,
   * any other value (a dict under `True` included) is copied unchanged.
   */
  lemma {:induction false} FilterNestedLookup(details: Mapping, keep: Whitelist, k: string)
    ensures Lookup(FilterNested(details, keep), k) ==
      match (Lookup(details, k), Lookup(keep, k))
      case (Some(v), Some(w)) =>
        Some(if v.Dict? && w.Nested? then Dict(FilterNested(v.entries, w.fields)) else v)
      case _ => None
    decreases |details|
  {
    if details != [] {
      SizeCons(details);
      FilterNestedLookup(details[1..], keep, k);
    }
  }

  /** Filtering an already filtered mapping against the same whitelist changes nothing. */
  lemma {:induction false} FilterNestedIdempotent(details: Mapping, keep: Whitelist)
    ensures FilterNested(FilterNested(details, keep), keep) == FilterNested(details, keep)
    decreases EntriesSize(details)
  {
    if details != [] {
      SizeCons(details);
      var k := details[0].0;
      var v := details[0].1;
      var rest := FilterNested(details[1..], keep);
      FilterNestedIdempotent(details[1..], keep);
      match Lookup(keep, k)
      case None =>
      case Some(w) =>
        if v.Dict? && w.Nested? {
          FilterNestedIdempotent(v.entries, w.fields);
          var once := [(k, Dict(FilterNested(v.entries, w.fields)))] + rest;
          assert once[1..] == rest;
        } else {
          var once := [(k, v)] + rest;
          assert once[1..] == rest;
        }
    }
  }

  /** The key of a nested field: the parent key, the separator, the field name. */
  function JoinKey(parent: string, k: string, sep: string): string {
    if parent == "" then k else parent + sep + k
  }

  /**
   * The pairs `flatten_dict` hands to `dict(...)`: a leaf under its joined key,
   * a nested dict as the dict of its own flattened pairs.
   */
  function FlattenItems(data: Mapping, parent: string, sep: string): Mapping
    decreases EntriesSize(data)
  {
    if data == [] then []
    else
      SizeCons(data);
      var k := data[0].0;
      var v := data[0].1;
      var key := JoinKey(parent, k, sep);
      (if v.Dict? then ToDict(FlattenItems(v.entries, key, sep)) else [(key, v)])
        + FlattenItems(data[1..], parent, sep)
  }

  /** `flatten_dict(data, parent_key, sep)`. */
  function FlattenDict(data: Mapping, parent: string, sep: string): Mapping {
    ToDict(FlattenItems(data, parent, sep))
  }

  /** No value is a dict. */
  predicate IsFlat(m: Mapping) {
    forall e :: e in m ==> e.1.Leaf?
  }

  /** A path of keys from the top of a nested mapping down to a leaf. */
  type Path = seq<string>

  /** Every leaf with the path of keys leading to it, depth first in key order. */
  function LeafPaths(data: Mapping): (ps: seq<(Path, Value)>)
    ensures forall p :: p in ps ==> |p.0| >= 1 && p.0[0] in Keys(data) && p.1.Leaf?
    decreases EntriesSize(data)
  {
    if data == [] then []
    else
      SizeCons(data);
      var k := data[0].0;
      var v := data[0].1;
      (if v.Dict? then Under(k, LeafPaths(v.entries)) else [([k], v)]) + LeafPaths(data[1..])
  }

  /** The same leaves, one level deeper below `k`. */
  function Under(k: string, ps: seq<(Path, Value)>): (r: seq<(Path, Value)>)
    ensures |r| == |ps|
    ensures forall i :: 0 <= i < |r| ==> r[i] == ([k] + ps[i].0, ps[i].1)
  {
    seq(|ps|, i requires 0 <= i < |ps| => ([k] + ps[i].0, ps[i].1))
  }

  /** The key a path gets when its keys are joined one after the other below `parent`. */
  function JoinPath(parent: string, path: Path, sep: string): string
    decreases |path|
  {
    if path == [] then parent else JoinPath(JoinKey(parent, path[0], sep), path[1..], sep)
  }

  /** Each leaf under its joined key. */
  function Joined(parent: string, ps: seq<(Path, Value)>, sep: string): (r: Mapping)
    ensures |r| == |ps|
    ensures forall i :: 0 <= i < |r| ==> r[i] == (JoinPath(parent, ps[i].0, sep), ps[i].1)
  {
    seq(|ps|, i requires 0 <= i < |ps| => (JoinPath(parent, ps[i].0, sep), ps[i].1))
  }

  lemma JoinedAppend(parent: string, a: seq<(Path, Value)>, b: seq<(Path, Value)>, sep: string)
    ensures Joined(parent, a + b, sep) == Joined(parent, a, sep) + Joined(parent, b, sep)
  {
  }

  lemma JoinedUnder(parent: string, k: string, ps: seq<(Path, Value)>, sep: string)
    ensures Joined(parent, Under(k, ps), sep) == Joined(JoinKey(parent, k, sep), ps, sep)
  {
    forall i | 0 <= i < |ps|
      ensures JoinPath(parent, [k] + ps[i].0, sep) == JoinPath(JoinKey(parent, k, sep), ps[i].0, sep)
    {
      assert ([k] + ps[i].0)[1..] == ps[i].0;
    }
  }

  /**
   * Merged into any key list, the flattened pairs bring the keys the leaves'
   * joined paths bring, depth first in key order.
   */
  lemma {:induction false} FlattenItemsKeys(data: Mapping, parent: string, sep: string, ks: seq<string>)
    ensures MergeKeys(ks, Keys(FlattenItems(data, parent, sep)))
         == MergeKeys(ks, Keys(Joined(parent, LeafPaths(data), sep)))
    decreases EntriesSize(data)
  {
    if data != [] {
      SizeCons(data);
      var k := data[0].0;
      var v := data[0].1;
      var child := JoinKey(parent, k, sep);
      var head := if v.Dict? then ToDict(FlattenItems(v.entries, child, sep)) else [(child, v)];
      var headPaths := if v.Dict? then Under(k, LeafPaths(v.entries)) else [([k], v)];
      var rest := FlattenItems(data[1..], parent, sep);
      var restJoined := Joined(parent, LeafPaths(data[1..]), sep);
      assert MergeKeys(ks, Keys(head)) == MergeKeys(ks, Keys(Joined(parent, headPaths, sep))) by {
        if v.Dict? {
          var inner := FlattenItems(v.entries, child, sep);
          UpdateWithKeys([], inner);
          MergeKeysNested(ks, [], Keys(inner));
          FlattenItemsKeys(v.entries, child, sep, ks);
          JoinedUnder(parent, k, LeafPaths(v.entries), sep);
        } else {
          assert JoinPath(parent, [k], sep) == child;
        }
      }
      KeysAppend(head, rest);
      MergeKeysAppend(ks, Keys(head), Keys(rest));
      FlattenItemsKeys(data[1..], parent, sep, MergeKeys(ks, Keys(head)));
      JoinedAppend(parent, headPaths, LeafPaths(data[1..]), sep);
      KeysAppend(Joined(parent, headPaths, sep), restJoined);
      MergeKeysAppend(ks, Keys(Joined(parent, headPaths, sep)), Keys(restJoined));
    }
  }

  /**
   * The keys of `flatten_dict`: the leaves' joined paths, depth first in key
   * order, each at its first appearance.
   */
  lemma FlattenDictKeys(data: Mapping, parent: string, sep: string)
    ensures Keys(FlattenDict(data, parent, sep)) == MergeKeys([], Keys(Joined(parent, LeafPaths(data), sep)))
  {
    UpdateWithKeys([], FlattenItems(data, parent, sep));
    FlattenItemsKeys(data, parent, sep, []);
  }

  /** Every flattened pair holds a leaf. */
  lemma {:induction false} FlattenItemsFlat(data: Mapping, parent: string, sep: string)
    ensures IsFlat(FlattenItems(data, parent, sep))
    decreases EntriesSize(data)
  {
    if data != [] {
      SizeCons(data);
      var k := data[0].0;
      var v := data[0].1;
      FlattenItemsFlat(data[1..], parent, sep);
      if v.Dict? {
        var inner := FlattenItems(v.entries, JoinKey(parent, k, sep), sep);
        FlattenItemsFlat(v.entries, JoinKey(parent, k, sep), sep);
        UpdateWithFrom([], inner);
      }
    }
  }

  /**
   * The last pair for a key among the flattened pairs is the last leaf whose
   * joined path is that key.
   */
  lemma {:induction false} FlattenItemsLeaves(data: Mapping, parent: string, sep: string, key: string)
    ensures LastLookup(FlattenItems(data, parent, sep), key)
         == LastLookup(Joined(parent, LeafPaths(data), sep), key)
    decreases EntriesSize(data)
  {
    if data != [] {
      SizeCons(data);
      var k := data[0].0;
      var v := data[0].1;
      var child := JoinKey(parent, k, sep);
      var head := if v.Dict? then ToDict(FlattenItems(v.entries, child, sep)) else [(child, v)];
      var headPaths := if v.Dict? then Under(k, LeafPaths(v.entries)) else [([k], v)];
      FlattenItemsLeaves(data[1..], parent, sep, key);
      if v.Dict? {
        FlattenItemsLeaves(v.entries, child, sep, key);
      }
      HeadLeaves(k, v, parent, sep, key);
      JoinedAppend(parent, headPaths, LeafPaths(data[1..]), sep);
      LastLookupAppend(head, FlattenItems(data[1..], parent, sep), key);
      LastLookupAppend(Joined(parent, headPaths, sep), Joined(parent, LeafPaths(data[1..]), sep), key);
    }
  }

  /** The pairs one entry contributes agree with its leaves, given that they do one level down. */
  lemma HeadLeaves(k: string, v: Value, parent: string, sep: string, key: string)
    requires v.Dict? ==>
      LastLookup(FlattenItems(v.entries, JoinKey(parent, k, sep), sep), key)
      == LastLookup(Joined(JoinKey(parent, k, sep), LeafPaths(v.entries), sep), key)
    ensures var child := JoinKey(parent, k, sep);
      var head := if v.Dict? then ToDict(FlattenItems(v.entries, child, sep)) else [(child, v)];
      var headPaths := if v.Dict? then Under(k, LeafPaths(v.entries)) else [([k], v)];
      LastLookup(head, key) == LastLookup(Joined(parent, headPaths, sep), key)
  {
    var child := JoinKey(parent, k, sep);
    if v.Dict? {
      var inner := FlattenItems(v.entries, child, sep);
      ToDictUnique(inner);
      UniqueLastLookup(ToDict(inner), key);
      ToDictLookup(inner, key);
      JoinedUnder(parent, k, LeafPaths(v.entries), sep);
    } else {
      assert JoinPath(parent, [k], sep) == child;
    }
  }

  /**
   * `flatten_dict` maps each key to the value of the last leaf whose path
   * joins to that key: a later leaf wins over an earlier one with the same key.
   */
  lemma FlattenDictLookup(data: Mapping, parent: string, sep: string, key: string)
    ensures Lookup(FlattenDict(data, parent, sep), key)
         == LastLookup(Joined(parent, LeafPaths(data), sep), key)
  {
    ToDictLookup(FlattenItems(data, parent, sep), key);
    FlattenItemsLeaves(data, parent, sep, key);
  }

  /** The result is a dict of leaves. */
  lemma FlattenDictFlat(data: Mapping, parent: string, sep: string)
    ensures IsFlat(FlattenDict(data, parent, sep))
    ensures UniqueKeys(FlattenDict(data, parent, sep))
  {
    FlattenItemsFlat(data, parent, sep);
    UpdateWithFrom([], FlattenItems(data, parent, sep));
    ToDictUnique(FlattenItems(data, parent, sep));
  }

  /** At the top level a flat mapping flattens to itself, pair for pair. */
  lemma {:induction false} FlattenItemsOfFlat(m: Mapping, sep: string)
    requires IsFlat(m)
    ensures FlattenItems(m, "", sep) == m
  {
    if m != [] {
      SizeCons(m);
      assert m[0] in m;
      assert IsFlat(m[1..]) by {
        forall e | e in m[1..] ensures e.1.Leaf? {
          assert e in m;
        }
      }
      FlattenItemsOfFlat(m[1..], sep);
    }
  }

  /** Flattening a flattened report again changes nothing. */
  lemma FlattenDictIdempotent(data: Mapping, sep: string)
    ensures FlattenDict(FlattenDict(data, "", sep), "", sep) == FlattenDict(data, "", sep)
  {
    var once := FlattenDict(data, "", sep);
    FlattenDictFlat(data, "", sep);
    FlattenItemsOfFlat(once, sep);
    ToDictIdentity(once);
  }

  /** A non-empty parent key is a prefix of every key joined below it. */
  lemma {:induction false} JoinPathPrefix(parent: string, path: Path, sep: string)
    requires parent != ""
    ensures parent <= JoinPath(parent, path, sep)
    decreases |path|
  {
    if path != [] {
      JoinPathPrefix(JoinKey(parent, path[0], sep), path[1..], sep);
    }
  }

  /**
   * Every key of a flattened report begins with one of its top-level keys;
   * a top-level key that is empty makes no such promise.
   */
  lemma FlattenDictKeysFromTop(data: Mapping, sep: string, key: string)
    requires key in Keys(FlattenDict(data, "", sep))
    ensures exists top :: top in Keys(data) && (top == "" || top <= key)
  {
    var ps := LeafPaths(data);
    var joined := Joined("", ps, sep);
    assert key in Keys(joined) by {
      FlattenDictLookup(data, "", sep, key);
    }
    var i :| 0 <= i < |joined| && Keys(joined)[i] == key;
    var path := ps[i].0;
    assert key == JoinPath("", path, sep) by {
      KeysAt(joined, i);
    }
    assert ps[i] in ps;
    var top := path[0];
    assert top in Keys(data);
    if top != "" {
      assert JoinPath("", path, sep) == JoinPath(top, path[1..], sep);
      JoinPathPrefix(top, path[1..], sep);
    }
    assert top in Keys(data) && (top == "" || top <= key);
  }

  /** The three variable types whose statistics the report keeps. */
  datatype Family = Categorical | TimeSeries | Numeric

  /** Statistics kept whole, in the given order. */
  function Terminal(names: seq<string>): (w: Whitelist)
    ensures Keys(w) == names
  {
    var w := seq(|names|, i requires 0 <= i < |names| => (names[i], Yes));
    KeysMatch(w, names);
    w
  }

  /** The statistics every family keeps whole, first. */
  const CommonNames: seq<string> :=
      ["n", "n_distinct", "p_distinct", "is_unique", "n_unique", "p_unique", "ordering",
       "n_missing", "p_missing", "memory_size"]

  /** The statistics only a categorical variable keeps whole. */
  const CategoricalOwnNames: seq<string> :=
      ["imbalance", "max_length", "mean_length", "median_length", "min_length"]

  /** The statistics only a time series keeps whole. */
  const TimeSeriesOwnNames: seq<string> :=
      ["mean", "std", "variance", "min", "max", "kurtosis", "skewness", "sum", "mad", "range",
       "seasonal", "stationary"]

  /** The statistics only a numeric variable keeps whole. */
  const NumericOwnNames: seq<string> :=
      ["mean", "std", "variance", "min", "max", "kurtosis", "skewness", "sum", "mad", "range",
       "iqr", "cv", "p_zeros"]

  /** Of the chi-squared test every family keeps the statistic and the p-value. */
  const ChiSquared: (string, Keep) := ("chi_squared", Nested(Terminal(["statistic", "pvalue"])))

  /** Of the gap statistics a time series keeps the extremes, mean, spread and count. */
  const GapStats: (string, Keep) := ("gap_stats", Nested(Terminal(["min", "max", "mean", "std", "n_gaps"])))

  /** The statistics kept for a categorical variable. */
  const CategoricalFields: Whitelist := Terminal(CommonNames + CategoricalOwnNames) + [ChiSquared]

  /** The statistics kept for a time-series variable. */
  const TimeSeriesFields: Whitelist := Terminal(CommonNames + TimeSeriesOwnNames) + [ChiSquared, GapStats]

  /** The statistics kept for a numeric variable. */
  const NumericFields: Whitelist := Terminal(CommonNames + NumericOwnNames) + [ChiSquared]

  function Fields(f: Family): Whitelist {
    match f
    case Categorical => CategoricalFields
    case TimeSeries => TimeSeriesFields
    case Numeric => NumericFields
  }

  /** The per-variable records of a filtered report, by variable name. */
  type Records = seq<(string, Mapping)>

  /**
   * `details.get("type") in fields_to_keep`: the family a variable's type names,
   * none for any other type or when the type is missing; a list or a dict as the
   * type cannot be looked up in a dict.
   */
  function FamilyOf(details: Mapping): (r: Result<Option<Family>, Fault>)
    ensures r.Failure? <==> var t: Option<Value> := Lookup(details, "type");
                            t.Some? && (t.value.Dict? || t.value.atom.Items?)
  {
    var t: Option<Value> := Lookup(details, "type");
    match t
    case None => Success(None)
    case Some(Dict(_)) => Failure(TypeError("unhashable type: 'dict'"))
    case Some(Leaf(a)) =>
      if a.Items? then Failure(TypeError("unhashable type: 'list'"))
      else if a == Text("Categorical") then Success(Some(Categorical))
      else if a == Text("TimeSeries") then Success(Some(TimeSeries))
      else if a == Text("Numeric") then Success(Some(Numeric))
      else Success(None)
  }

  /** A variable entry the loop of `filter_profile_data` cannot get through. */
  predicate Malformed(details: Value) {
    !details.Dict? || FamilyOf(details.entries).Failure?
  }

  /** A variable entry whose type is one of the three families. */
  predicate Known(details: Value) {
    details.Dict? && FamilyOf(details.entries).Success? && FamilyOf(details.entries).value.Some?
  }

  /**
   * The loop of `filter_profile_data` over the `variables` dict, with the
   * whitelist of each family given by `fields` (the report uses `Fields`).
   */
  function FilterVariables(vars: Mapping, fields: Family -> Whitelist): Result<Records, Fault> {
    if vars == [] then Success([])
    else
      var details := vars[0].1;
      if !details.Dict? then Failure(AttributeError("get"))
      else
        var family :- FamilyOf(details.entries);
        var rest :- FilterVariables(vars[1..], fields);
        match family
        case None => Success(rest)
        case Some(f) => Success([(vars[0].0, FilterNested(details.entries, fields(f)))] + rest)
  }

  /** `filter_profile_data(profile_data)`. */
  function FilterProfileData(profile: Mapping): Result<Records, Fault> {
    var vars: Option<Value> := Lookup(profile, "variables");
    match vars
    case None => Success([])
    case Some(Leaf(_)) => Failure(AttributeError("items"))
    case Some(Dict(entries)) => FilterVariables(entries, Fields)
  }

  /** The names of the variables of a known family, in report order. */
  function KnownNames(vars: Mapping): (r: seq<string>)
    ensures forall n :: n in r ==> n in Keys(vars)
  {
    if vars == [] then []
    else if Known(vars[0].1) then [vars[0].0] + KnownNames(vars[1..])
    else KnownNames(vars[1..])
  }

  /** What the filtered report holds for one variable entry. */
  function KeptRecord(details: Option<Value>, fields: Family -> Whitelist): Option<Mapping> {
    match details
    case Some(Dict(d)) =>
      (match FamilyOf(d)
       case Success(Some(f)) => Some(FilterNested(d, fields(f)))
       case _ => None)
    case _ => None
  }

  /** Filtering fails exactly when some variable is not a dict or has an unhashable type. */
  lemma {:induction false} FilterVariablesFails(vars: Mapping, fields: Family -> Whitelist)
    ensures FilterVariables(vars, fields).Failure? <==> exists i :: 0 <= i < |vars| && Malformed(vars[i].1)
  {
    if vars != [] {
      FilterVariablesFails(vars[1..], fields);
      if !Malformed(vars[0].1) {
        forall i | 0 < i < |vars| && Malformed(vars[i].1)
          ensures exists i' :: 0 <= i' < |vars[1..]| && Malformed(vars[1..][i'].1)
        {
          assert vars[1..][i - 1] == vars[i];
        }
      }
    }
  }

  /** The filtered report lists the variables of a known family, in report order, and no other. */
  lemma {:induction false} FilterVariablesKeys(vars: Mapping, fields: Family -> Whitelist)
    ensures FilterVariables(vars, fields).Success? ==> Keys(FilterVariables(vars, fields).value) == KnownNames(vars)
  {
    if vars != [] {
      FilterVariablesKeys(vars[1..], fields);
    }
  }

  /** Each kept variable holds its statistics filtered by the whitelist of its family. */
  lemma {:induction false} FilterVariablesLookup(vars: Mapping, name: string, fields: Family -> Whitelist)
    requires UniqueKeys(vars)
    requires FilterVariables(vars, fields).Success?
    ensures Lookup(FilterVariables(vars, fields).value, name) == KeptRecord(Lookup(vars, name), fields)
  {
    if vars != [] {
      var ks := Keys(vars);
      assert ks == [vars[0].0] + Keys(vars[1..]);
      assert UniqueKeys(vars[1..]) by {
        forall i, j | 0 <= i < j < |Keys(vars[1..])| ensures Keys(vars[1..])[i] != Keys(vars[1..])[j] {
          assert ks[i + 1] == Keys(vars[1..])[i] && ks[j + 1] == Keys(vars[1..])[j];
        }
      }
      FilterVariablesLookup(vars[1..], name, fields);
      if vars[0].0 == name {
        assert name !in Keys(vars[1..]) by {
          forall i | 0 <= i < |Keys(vars[1..])| ensures Keys(vars[1..])[i] != name {
            assert ks[0] == name && ks[i + 1] == Keys(vars[1..])[i];
          }
        }
      }
    }
  }

  /** The keys a record of one of the families `fs` may hold. */
  ghost predicate WithinFields(rec: Mapping, fs: set<Family>, fields: Family -> Whitelist) {
    forall k :: k in Keys(rec) ==> exists f :: f in fs && k in Keys(fields(f))
  }

  /**
   * When every variable of a known family belongs to one of `fs`, every record
   * holds only top-level statistics whitelisted for a family in `fs`.
   */
  lemma {:induction false} FilterVariablesWithin(vars: Mapping, fs: set<Family>, fields: Family -> Whitelist)
    requires forall i :: 0 <= i < |vars| && Known(vars[i].1) ==> FamilyOf(vars[i].1.entries).value.value in fs
    requires FilterVariables(vars, fields).Success?
    ensures forall j :: 0 <= j < |FilterVariables(vars, fields).value| ==>
      WithinFields(FilterVariables(vars, fields).value[j].1, fs, fields)
  {
    if vars != [] {
      var d := vars[0].1;
      var rest := FilterVariables(vars[1..], fields).value;
      var out := FilterVariables(vars, fields).value;
      assert forall i :: 0 < i < |vars| ==> vars[1..][i - 1] == vars[i];
      FilterVariablesWithin(vars[1..], fs, fields);
      if Known(d) {
        var f := FamilyOf(d.entries).value.value;
        var rec := FilterNested(d.entries, fields(f));
        assert out == [(vars[0].0, rec)] + rest;
        assert WithinFields(rec, fs, fields) by {
          assert Known(vars[0].1);
          FilterNestedKeys(d.entries, fields(f));
        }
        forall j | 0 <= j < |out| ensures WithinFields(out[j].1, fs, fields) {
          if j > 0 {
            assert out[j] == rest[j - 1];
          }
        }
      } else {
        assert out == rest;
      }
    }
  }

  /** The row a record becomes once its name is moved from the index into `column_name`. */
  function IndexedRow(name: string, rec: Mapping): Mapping {
    [("column_name", Leaf(Text(name)))] + rec
  }

  /** The names of the records that hold `key`, in record order: the index of that column. */
  function Holders(records: Records, key: string): seq<string> {
    if records == [] then []
    else (if key in Keys(records[0].1) then [records[0].0] else []) + Holders(records[1..], key)
  }

  /** Each record's keys, in record order. */
  function KeyLists(records: Records): (r: seq<seq<string>>)
    ensures |r| == |records|
    ensures forall i :: 0 <= i < |records| ==> r[i] == Keys(records[i].1)
  {
    seq(|records|, i requires 0 <= i < |records| => Keys(records[i].1))
  }

  /** The columns `_from_nested_dict` builds: every key of every record, each at its first appearance. */
  function NestedKeys(records: Records): seq<string> {
    Union(KeyLists(records))
  }

  /**
   * The index `from_dict(orient='index')` builds from nested dicts: the
   * holders of each column, column by column, joined without repeats. A
   * record with no keys holds no column and gets no row.
   */
  function Index(records: Records): seq<string> {
    Union(HolderLists(records))
  }

  /** The holders of each column, in column order. */
  function HolderLists(records: Records): (r: seq<seq<string>>)
    ensures |r| == |NestedKeys(records)|
    ensures forall j :: 0 <= j < |r| ==> r[j] == Holders(records, NestedKeys(records)[j])
  {
    var columns := NestedKeys(records);
    seq(|columns|, j requires 0 <= j < |columns| => Holders(records, columns[j]))
  }

  /**
   * `DataFrame.from_dict(records, orient='index')`, `reset_index()` and the
   * rename of `index` to `column_name`: a row per name of the index holding
   * that record, `column_name` first, then the records' keys in order.
   */
  function FromIndex(records: Records): Frame {
    var index := Index(records);
    Frame(MergeKeys(["column_name"], NestedKeys(records)),
          seq(|index|, j requires 0 <= j < |index| => IndexedRow(index[j], Lookup(records, index[j]).GetOr([]))))
  }

  lemma {:induction false} HoldersMembers(records: Records, key: string, n: string)
    ensures n in Holders(records, key) <==>
      exists i :: 0 <= i < |records| && records[i].0 == n && key in Keys(records[i].1)
    decreases |records|
  {
    if records != [] {
      var rest := records[1..];
      HoldersMembers(rest, key, n);
      if n in Holders(rest, key) {
        var i :| 0 <= i < |rest| && rest[i].0 == n && key in Keys(rest[i].1);
        assert records[i + 1] == rest[i];
      }
      if exists i :: 0 <= i < |records| && records[i].0 == n && key in Keys(records[i].1) {
        var i :| 0 <= i < |records| && records[i].0 == n && key in Keys(records[i].1);
        if i > 0 {
          assert rest[i - 1] == records[i];
        }
      }
    }
  }

  /** When every record holds `key`, the column's index is every record in order. */
  lemma {:induction false} HoldersAll(records: Records, key: string)
    requires forall i :: 0 <= i < |records| ==> key in Keys(records[i].1)
    ensures Holders(records, key) == Keys(records)
    decreases |records|
  {
    if records != [] {
      assert forall i :: 0 <= i < |records[1..]| ==> records[1..][i] == records[i + 1];
      HoldersAll(records[1..], key);
    }
  }

  /** A key is a column of the nested dicts exactly when some record holds it. */
  lemma NestedKeysMembers(records: Records, c: string)
    ensures Distinct(NestedKeys(records))
    ensures c in NestedKeys(records) <==> exists i :: 0 <= i < |records| && c in Keys(records[i].1)
  {
    UnionMembers(KeyLists(records), c);
  }

  /** The first column is the first record's first key. */
  lemma NestedKeysHead(records: Records)
    requires records != [] && records[0].1 != []
    ensures |NestedKeys(records)| > 0 && NestedKeys(records)[0] == records[0].1[0].0
  {
    KeysAt(records[0].1, 0);
    UnionHead(KeyLists(records));
  }

  /**
   * The index holds each name once, and a name is in it exactly when a
   * record of that name has at least one key: a record without keys gets
   * no row.
   */
  lemma IndexMembers(records: Records, n: string)
    ensures Distinct(Index(records))
    ensures n in Index(records) <==> exists i :: 0 <= i < |records| && records[i].0 == n && records[i].1 != []
  {
    var columns := NestedKeys(records);
    var lists := HolderLists(records);
    UnionMembers(lists, n);
    assert n in Index(records) ==> exists i :: 0 <= i < |records| && records[i].0 == n && records[i].1 != [] by {
      if n in Index(records) {
        var j :| 0 <= j < |lists| && n in lists[j];
        HoldersMembers(records, columns[j], n);
        var i :| 0 <= i < |records| && records[i].0 == n && columns[j] in Keys(records[i].1);
        assert records[i].1 != [];
      }
    }
    assert (exists i :: 0 <= i < |records| && records[i].0 == n && records[i].1 != []) ==> n in Index(records) by {
      if exists i :: 0 <= i < |records| && records[i].0 == n && records[i].1 != [] {
        var i :| 0 <= i < |records| && records[i].0 == n && records[i].1 != [];
        var key := Keys(records[i].1)[0];
        NestedKeysMembers(records, key);
        var j :| 0 <= j < |columns| && columns[j] == key;
        HoldersMembers(records, key, n);
        assert n in lists[j];
      }
    }
  }

  /**
   * When every record holds the first record's first key (a report whose
   * variables all carry the same leading statistic), the index is the
   * records' names in order and row `i` is record `i`.
   */
  lemma FromIndexInOrder(records: Records, key: string)
    requires UniqueKeys(records)
    requires forall i :: 0 <= i < |records| ==> key in Keys(records[i].1)
    requires records != [] ==> records[0].1 != [] && records[0].1[0].0 == key
    ensures Index(records) == Keys(records)
    ensures |FromIndex(records).rows| == |records|
    ensures forall i :: 0 <= i < |records| ==> FromIndex(records).rows[i] == IndexedRow(records[i].0, records[i].1)
  {
    var columns := NestedKeys(records);
    var lists := HolderLists(records);
    if records != [] {
      NestedKeysHead(records);
      HoldersAll(records, key);
      forall j, n | 0 <= j < |lists| && n in lists[j] ensures n in lists[0] {
        HoldersMembers(records, columns[j], n);
        var i :| 0 <= i < |records| && records[i].0 == n && columns[j] in Keys(records[i].1);
        KeysAt(records, i);
      }
      UnionCovered(lists);
    }
    forall i | 0 <= i < |records| ensures FromIndex(records).rows[i] == IndexedRow(records[i].0, records[i].1) {
      KeysAt(records, i);
      LookupAt(records, i);
    }
  }

  /** In a dict of records the holders of a key are named once each. */
  lemma {:induction false} HoldersDistinct(records: Records, key: string)
    requires UniqueKeys(records)
    ensures Distinct(Holders(records, key))
    decreases |records|
  {
    if records != [] {
      var rest := records[1..];
      var ks := Keys(records);
      assert ks == [records[0].0] + Keys(rest);
      assert UniqueKeys(rest) by {
        forall a, b | 0 <= a < b < |Keys(rest)| ensures Keys(rest)[a] != Keys(rest)[b] {
          assert ks[a + 1] == Keys(rest)[a] && ks[b + 1] == Keys(rest)[b];
        }
      }
      HoldersDistinct(rest, key);
      assert records[0].0 !in Holders(rest, key) by {
        forall i | 0 <= i < |rest| ensures rest[i].0 != records[0].0 {
          KeysAt(rest, i);
          assert ks[i + 1] == rest[i].0 && ks[0] == records[0].0;
        }
        HoldersMembers(rest, key, records[0].0);
      }
    }
  }

  /**
   * Sparse records do not keep their order: the records that hold the
   * first column come first, in record order, and every other record with
   * a key comes after all of them.
   */
  lemma FromIndexFirstColumn(records: Records)
    requires UniqueKeys(records)
    requires records != [] && records[0].1 != []
    ensures Holders(records, records[0].1[0].0) <= Index(records)
  {
    var columns := NestedKeys(records);
    var lists := HolderLists(records);
    NestedKeysHead(records);
    HoldersDistinct(records, columns[0]);
    assert Union(lists[..1]) == lists[0] by {
      assert lists[..1][1..] == [];
      assert Flatten(lists[..1]) == lists[0] + [];
      assert [] + lists[0] == lists[0] + [] == lists[0];
      MergeKeysFresh([], lists[0]);
    }
    UnionPrefix(lists, 1);
  }

  /**
   * Row `j` is the record its index name looks up, and in a dict of records
   * that record has at least one key.
   */
  lemma FromIndexRow(records: Records, j: nat)
    requires j < |FromIndex(records).rows|
    ensures Index(records)[j] in Keys(records)
    ensures FromIndex(records).rows[j] == IndexedRow(Index(records)[j], Lookup(records, Index(records)[j]).value)
    ensures UniqueKeys(records) ==> Lookup(records, Index(records)[j]).value != []
  {
    var n := Index(records)[j];
    IndexMembers(records, n);
    var i :| 0 <= i < |records| && records[i].0 == n && records[i].1 != [];
    KeysAt(records, i);
    if UniqueKeys(records) {
      LookupAt(records, i);
    }
  }

  lemma IndexedRowKeys(name: string, rec: Mapping)
    ensures Keys(IndexedRow(name, rec)) == ["column_name"] + Keys(rec)
  {
    KeysAppend([("column_name", Leaf(Text(name)))], rec);
  }

  /**
   * Every key of a row is `column_name` or a key of some record; in a dict
   * of records, every key of every record and, when some record has a key,
   * `column_name` are keys of some row.
   */
  lemma FromIndexRowKeys(records: Records)
    ensures forall c :: c in RowKeys(FromIndex(records).rows) ==>
      c == "column_name" || exists i :: 0 <= i < |records| && c in Keys(records[i].1)
    ensures UniqueKeys(records) ==> forall c ::
      (c == "column_name" && exists i :: 0 <= i < |records| && records[i].1 != []) ||
      (exists i :: 0 <= i < |records| && c in Keys(records[i].1))
      ==> c in RowKeys(FromIndex(records).rows)
  {
    var index := Index(records);
    var rows := FromIndex(records).rows;
    RowKeysMembers(rows);
    forall c | c in RowKeys(rows)
      ensures c == "column_name" || exists i :: 0 <= i < |records| && c in Keys(records[i].1)
    {
      var j :| 0 <= j < |rows| && c in Keys(rows[j]);
      var found := Lookup(records, index[j]);
      IndexedRowKeys(index[j], found.GetOr([]));
      if c != "column_name" {
        var i :| 0 <= i < |records| && records[i] == (index[j], found.value);
      }
    }
    if UniqueKeys(records) {
      forall c, i | 0 <= i < |records| && records[i].1 != [] && (c == "column_name" || c in Keys(records[i].1))
        ensures c in RowKeys(rows)
      {
        IndexMembers(records, records[i].0);
        var j :| 0 <= j < |index| && index[j] == records[i].0;
        LookupAt(records, i);
        IndexedRowKeys(index[j], records[i].1);
        assert c in Keys(rows[j]);
      }
    }
  }

  /** The index becomes a column of its own beside the union of the records' keys. */
  lemma FromIndexColumns(records: Records)
    ensures Valid(FromIndex(records))
    ensures forall c :: c in FromIndex(records).columns <==>
      c == "column_name" || exists i :: 0 <= i < |records| && c in Keys(records[i].1)
  {
    var columns := FromIndex(records).columns;
    assert Distinct(["column_name"]);
    FromIndexRowKeys(records);
    forall c ensures c in columns <==> c == "column_name" || exists i :: 0 <= i < |records| && c in Keys(records[i].1) {
      NestedKeysMembers(records, c);
    }
  }

  /** A record with its statistics flattened under `_`-joined keys. */
  function FlatRecord(rec: (string, Mapping)): (string, Mapping) {
    (rec.0, FlattenDict(rec.1, "", "_"))
  }

  /** Every record flattened, in report order. */
  function FlatRecords(json: Records): (r: Records)
    ensures |r| == |json|
    ensures forall i :: 0 <= i < |json| ==> r[i] == FlatRecord(json[i])
  {
    seq(|json|, i requires 0 <= i < |json| => FlatRecord(json[i]))
  }

  /** The frame `json_to_flat_dataframe` returns for a filtered report. */
  function FlatFrame(json: Records): Frame {
    FromIndex(FlatRecords(json))
  }

  /** `json_to_flat_dataframe(json_data)`. */
  method JsonToFlatDataFrame(json: Records) returns (df: Frame)
    ensures df == FlatFrame(json)
  {
    var flattened: Records := [];
    for i := 0 to |json|
      invariant flattened == FlatRecords(json[..i])
    {
      flattened := flattened + [FlatRecord(json[i])];
    }
    assert json[..|json|] == json;
    df := FromIndex(flattened);
  }

  /** Flattening keeps every name, so looking a name up finds that record flattened. */
  lemma {:induction false} FlatRecordsLookup(json: Records, n: string)
    ensures Lookup(FlatRecords(json), n) == match Lookup(json, n)
      case Some(rec) => Some(FlattenDict(rec, "", "_"))
      case None => None
    decreases |json|
  {
    if json != [] {
      assert FlatRecords(json)[1..] == FlatRecords(json[1..]);
      FlatRecordsLookup(json[1..], n);
    }
  }

  /** Flattening keeps every name, in order. */
  lemma FlatRecordsKeys(json: Records)
    ensures Keys(FlatRecords(json)) == Keys(json)
  {
    forall k | 0 <= k < |json| ensures FlatRecords(json)[k].0 == Keys(json)[k] {
      KeysAt(json, k);
    }
    KeysMatch(FlatRecords(json), Keys(json));
  }

  /**
   * Row `j` is filed under a variable whose flattened statistics are not
   * empty: its name under `column_name`, and under every other column what
   * flattening that variable's statistics gives.
   */
  lemma FlatFrameRows(json: Records, j: nat, c: string)
    requires UniqueKeys(json)
    requires j < |FlatFrame(json).rows|
    ensures var n := Index(FlatRecords(json))[j];
      n in Keys(json) &&
      FlattenDict(Lookup(json, n).value, "", "_") != [] &&
      Lookup(FlatFrame(json).rows[j], "column_name") == Some(Leaf(Text(n))) &&
      (c != "column_name" ==>
        Lookup(FlatFrame(json).rows[j], c) == Lookup(FlattenDict(Lookup(json, n).value, "", "_"), c))
  {
    var records := FlatRecords(json);
    var n := Index(records)[j];
    FlatRecordsKeys(json);
    FromIndexRow(records, j);
    FlatRecordsLookup(json, n);
    var row := FlatFrame(json).rows[j];
    var flat := FlattenDict(Lookup(json, n).value, "", "_");
    assert row == [("column_name", Leaf(Text(n)))] + flat;
    assert row[1..] == flat;
  }

  /**
   * When every variable's flattened statistics hold the first variable's
   * first flattened key, there is one row per variable, in report order.
   */
  lemma FlatFrameInOrder(json: Records, key: string, i: nat, c: string)
    requires UniqueKeys(json)
    requires forall k :: 0 <= k < |json| ==> key in Keys(FlattenDict(json[k].1, "", "_"))
    requires json != [] ==> FlattenDict(json[0].1, "", "_") != [] && FlattenDict(json[0].1, "", "_")[0].0 == key
    requires i < |json|
    ensures |FlatFrame(json).rows| == |json|
    ensures Lookup(FlatFrame(json).rows[i], "column_name") == Some(Leaf(Text(json[i].0)))
    ensures c != "column_name" ==> Lookup(FlatFrame(json).rows[i], c) == Lookup(FlattenDict(json[i].1, "", "_"), c)
  {
    var records := FlatRecords(json);
    FlatRecordsKeys(json);
    FromIndexInOrder(records, key);
    var row := FlatFrame(json).rows[i];
    assert row == [("column_name", Leaf(Text(json[i].0)))] + FlattenDict(json[i].1, "", "_");
    assert row[1..] == FlattenDict(json[i].1, "", "_");
  }

  /**
   * The columns are `column_name` and every key of every flattened record,
   * each once, and every row holds only leaves.
   */
  lemma FlatFrameColumns(json: Records)
    ensures Valid(FlatFrame(json))
    ensures forall c :: c in FlatFrame(json).columns <==>
      c == "column_name" || exists i :: 0 <= i < |json| && c in Keys(FlattenDict(json[i].1, "", "_"))
    ensures forall j :: 0 <= j < |FlatFrame(json).rows| ==> IsFlat(FlatFrame(json).rows[j])
  {
    var records := FlatRecords(json);
    var index := Index(records);
    FromIndexColumns(records);
    forall j | 0 <= j < |FlatFrame(json).rows| ensures IsFlat(FlatFrame(json).rows[j]) {
      FromIndexRow(records, j);
      FlatRecordsLookup(json, index[j]);
      FlattenDictFlat(Lookup(json, index[j]).value, "", "_");
      assert FlatFrame(json).rows[j] == [("column_name", Leaf(Text(index[j])))] + FlattenDict(Lookup(json, index[j]).value, "", "_");
    }
  }

  /** The top-level statistics each family keeps, by name. */
  lemma FieldNames(f: Family)
    ensures Keys(Fields(f)) == match f
      case Categorical => CommonNames + CategoricalOwnNames + ["chi_squared"]
      case TimeSeries => CommonNames + TimeSeriesOwnNames + ["chi_squared", "gap_stats"]
      case Numeric => CommonNames + NumericOwnNames + ["chi_squared"]
  {
    match f
    case Categorical => KeysAppend(Terminal(CommonNames + CategoricalOwnNames), [ChiSquared]);
    case TimeSeries => KeysAppend(Terminal(CommonNames + TimeSeriesOwnNames), [ChiSquared, GapStats]);
    case Numeric => KeysAppend(Terminal(CommonNames + NumericOwnNames), [ChiSquared]);
  }

  lemma NotPrefix(k: string, s: string, i: nat)
    requires i < |k| && i < |s| && k[i] != s[i]
    ensures !(k <= s)
  {
  }

  /** No name in `names` is empty or begins `key`. */
  ghost predicate NoneBegins(names: seq<string>, key: string) {
    forall k :: k in names ==> k != "" && !(k <= key)
  }

  /** The name lists a whitelist is built from. */
  ghost predicate NameList(names: seq<string>) {
    names == CommonNames || names == CategoricalOwnNames || names == NumericOwnNames
    || names == TimeSeriesOwnNames || names == ["chi_squared"]
  }

  /** No listed name is `type` or begins the gap count's key; only the numeric ones begin the zero share's. */
  lemma NamesBeginNeither(names: seq<string>)
    requires NameList(names)
    ensures "type" !in names
    ensures NoneBegins(names, "gap_stats_n_gaps")
    ensures names != NumericOwnNames ==> NoneBegins(names, "p_zeros")
  {
    NamesBeginNoGap(names);
    if names != NumericOwnNames {
      NamesBeginNoZeroShare(names);
    }
  }

  lemma NamesBeginNoGap(names: seq<string>)
    requires NameList(names)
    ensures NoneBegins(names, "gap_stats_n_gaps")
  {
    if names == TimeSeriesOwnNames || names == NumericOwnNames {
      MomentsBeginNoGap(names);
    } else {
      ShareNamesBeginNoGap(names);
    }
  }

  lemma MomentsBeginNoGap(names: seq<string>)
    requires names == TimeSeriesOwnNames || names == NumericOwnNames
    ensures NoneBegins(names, "gap_stats_n_gaps")
  {
    forall k | k in names ensures k != "" && !(k <= "gap_stats_n_gaps") {
      NotPrefix(k, "gap_stats_n_gaps", 0);
    }
  }

  lemma ShareNamesBeginNoGap(names: seq<string>)
    requires names == CommonNames || names == CategoricalOwnNames || names == ["chi_squared"]
    ensures NoneBegins(names, "gap_stats_n_gaps")
  {
    forall k | k in names ensures k != "" && !(k <= "gap_stats_n_gaps") {
      NotPrefix(k, "gap_stats_n_gaps", 0);
    }
  }

  lemma NamesBeginNoZeroShare(names: seq<string>)
    requires NameList(names) && names != NumericOwnNames
    ensures NoneBegins(names, "p_zeros")
  {
    forall k | k in names ensures k != "" && !(k <= "p_zeros") {
      if k[0] == 'p' {
        NotPrefix(k, "p_zeros", 2);
      } else {
        NotPrefix(k, "p_zeros", 0);
      }
    }
  }

  /** The variable's own `type` is never among the statistics kept. */
  lemma TypeNotKept(f: Family)
    ensures "type" !in Keys(Fields(f))
  {
    FieldNames(f);
    NamesBeginNeither(CommonNames);
    NamesBeginNeither(CategoricalOwnNames);
    NamesBeginNeither(TimeSeriesOwnNames);
    NamesBeginNeither(NumericOwnNames);
  }

  /**
   * Only a time-series record keeps `gap_stats`: no statistic of a categorical
   * or numeric record flattens to a key that begins the gap count's key.
   */
  lemma GapCountOnlyTimeSeries(f: Family)
    requires f != TimeSeries
    ensures NoneBegins(Keys(Fields(f)), "gap_stats_n_gaps")
  {
    FieldNames(f);
    NamesBeginNeither(CommonNames);
    NamesBeginNeither(CategoricalOwnNames);
    NamesBeginNeither(NumericOwnNames);
    NamesBeginNeither(["chi_squared"]);
  }

  /** Only a numeric record keeps `p_zeros` or any key that begins it. */
  lemma ZeroShareOnlyNumeric(f: Family)
    requires f != Numeric
    ensures NoneBegins(Keys(Fields(f)), "p_zeros")
  {
    FieldNames(f);
    NamesBeginNeither(CommonNames);
    NamesBeginNeither(CategoricalOwnNames);
    NamesBeginNeither(TimeSeriesOwnNames);
    NamesBeginNeither(["chi_squared"]);
    assert NoneBegins(["gap_stats"], "p_zeros") by {
      NotPrefix("gap_stats", "p_zeros", 0);
    }
  }

  /** Filtered records never hold the variable's `type`. */
  lemma FilterVariablesDropsType(vars: Mapping)
    requires FilterVariables(vars, Fields).Success?
    ensures forall j :: 0 <= j < |FilterVariables(vars, Fields).value| ==> "type" !in Keys(FilterVariables(vars, Fields).value[j].1)
  {
    FilterVariablesWithin(vars, {Categorical, TimeSeries, Numeric}, Fields);
    TypeNotKept(Categorical);
    TypeNotKept(TimeSeries);
    TypeNotKept(Numeric);
  }

  /**
   * A key that no whitelisted statistic of the families `fs` begins never
   * becomes a column of the flat frame of records of those families.
   */
  lemma {:induction false} KeyNeverFlattened(json: Records, fs: set<Family>, fields: Family -> Whitelist, key: string)
    requires key != "column_name"
    requires forall j :: 0 <= j < |json| ==> WithinFields(json[j].1, fs, fields)
    requires forall f, k :: f in fs && k in Keys(fields(f)) ==> k != "" && !(k <= key)
    ensures key !in FlatFrame(json).columns
  {
    FlatFrameColumns(json);
    forall i | 0 <= i < |json| ensures key !in Keys(FlattenDict(json[i].1, "", "_")) {
      if key in Keys(FlattenDict(json[i].1, "", "_")) {
        FlattenDictKeysFromTop(json[i].1, "_", key);
        assert false;
      }
    }
  }

  /** How a derived column is computed from the statistics of its row. */
  datatype Formula =
    | Ratio(num: string, den: string)
    | Product(left: string, right: string)
    | Below(input: string, bound: real)
    | Copy(input: string)
    | Complement(input: string)

  /** A derived column of the report. */
  datatype Metric = Metric(name: string, formula: Formula)

  /** The derived columns, in the order they are assigned. */
  const Metrics: seq<Metric> := [
    Metric("categorical_cardinality_ratio", Ratio("n_distinct", "n")),
    Metric("categorical_missingness_impact", Product("p_missing", "n_distinct")),
    Metric("categorical_chi_squared_alert", Below("chi_squared_pvalue", 0.05)),
    Metric("timeseries_gap_ratio", Ratio("gap_stats_n_gaps", "n")),
    Metric("timeseries_volatility_index", Ratio("std", "mean")),
    Metric("timeseries_trend_consistency", Ratio("std", "mean")),
    Metric("numeric_zero_ratio", Copy("p_zeros")),
    Metric("numeric_outlier_indicator", Ratio("range", "std")),
    Metric("numeric_skewness_indicator", Copy("skewness")),
    Metric("numeric_cv", Copy("cv")),
    Metric("numeric_missing_impact", Product("p_missing", "mean")),
    Metric("data_completeness", Complement("p_missing"))
  ]

  /** The columns a formula reads, in the order it reads them. */
  function Inputs(f: Formula): seq<string> {
    match f
    case Ratio(a, b) => [a, b]
    case Product(a, b) => [a, b]
    case Below(c, _) => [c]
    case Copy(c) => [c]
    case Complement(c) => [c]
  }

  /** Every column the metrics read, in the order they are read. */
  function ReadOrder(ms: seq<Metric>): seq<string> {
    if ms == [] then [] else Inputs(ms[0].formula) + ReadOrder(ms[1..])
  }

  /** The names of the derived columns. */
  function Names(ms: seq<Metric>): (r: seq<string>)
    ensures |r| == |ms|
    ensures forall j :: 0 <= j < |ms| ==> r[j] == ms[j].name
  {
    seq(|ms|, j requires 0 <= j < |ms| => ms[j].name)
  }

  /** A cell as a number: none when it is missing (NaN) or holds no number. */
  function NumberAt(row: Mapping, c: string): Option<real> {
    var v: Option<Value> := Lookup(row, c);
    match v
    case Some(Leaf(Num(x))) => Some(x)
    case _ => None
  }

  /** The product of two numeric cells; `Null` (NaN) when either is not a number. */
  function ProductCell(x: Option<real>, y: Option<real>): Value {
    if x.Some? && y.Some? then Leaf(Num(x.value * y.value)) else Leaf(Null)
  }

  /** The value of a derived cell in a row; `Null` stands for NaN. */
  function Cell(row: Mapping, f: Formula): Value {
    match f
    case Ratio(a, b) =>
      if NumberAt(row, a).Some? && NumberAt(row, b).Some? && NumberAt(row, b).value != 0.0
      then Leaf(Num(NumberAt(row, a).value / NumberAt(row, b).value))
      else Leaf(Null)
    case Product(a, b) => ProductCell(NumberAt(row, a), NumberAt(row, b))
    case Below(c, bound) => Leaf(Flag(NumberAt(row, c).Some? && NumberAt(row, c).value < bound))
    case Copy(c) => Lookup(row, c).GetOr(Leaf(Null))
    case Complement(c) =>
      if NumberAt(row, c).Some? then Leaf(Num(1.0 - NumberAt(row, c).value)) else Leaf(Null)
  }

  /** The derived cells of a row, one per metric. */
  function MetricCells(row: Mapping, ms: seq<Metric>): (r: Mapping)
    ensures Keys(r) == Names(ms)
    ensures |r| == |ms|
    ensures forall j :: 0 <= j < |ms| ==> r[j] == (ms[j].name, Cell(row, ms[j].formula))
  {
    var r := seq(|ms|, j requires 0 <= j < |ms| => (ms[j].name, Cell(row, ms[j].formula)));
    KeysMatch(r, Names(ms));
    r
  }

  /** A row after `assign`: the derived cells set, each computed from the row as it was. */
  function WithMetrics(row: Mapping, ms: seq<Metric>): Mapping {
    UpdateWith(row, MetricCells(row, ms))
  }

  /** `df.assign(...)` of the metrics `ms`, every input present or not. */
  function AssignMetrics(df: Frame, ms: seq<Metric>): (r: Frame)
    ensures |r.rows| == |df.rows|
  {
    Frame(MergeKeys(df.columns, Names(ms)),
          seq(|df.rows|, i requires 0 <= i < |df.rows| => WithMetrics(df.rows[i], ms)))
  }

  /** The first of `wanted` that `columns` lacks. */
  function FirstMissing(columns: seq<string>, wanted: seq<string>): (r: Option<string>)
    ensures r.Some? <==> exists c :: c in wanted && c !in columns
    ensures r.Some? ==> r.value in wanted && r.value !in columns
  {
    if wanted == [] then None
    else if wanted[0] !in columns then Some(wanted[0])
    else FirstMissing(columns, wanted[1..])
  }

  /**
   * `df.assign(...)` of the metrics `ms` as written: indexing a column the frame
   * lacks raises `KeyError`, in the order the metrics read their inputs.
   */
  function CalculateMetrics(df: Frame, ms: seq<Metric>): (r: Result<Frame, Fault>)
    ensures r.Failure? <==> exists c :: c in ReadOrder(ms) && c !in df.columns
    ensures r.Failure? ==> r.error.KeyError? && r.error.key in ReadOrder(ms) && r.error.key !in df.columns
    ensures r.Success? ==> r.value == AssignMetrics(df, ms)
  {
    match FirstMissing(df.columns, ReadOrder(ms))
    case Some(c) => Failure(KeyError(c))
    case None => Success(AssignMetrics(df, ms))
  }

  /** `calculate_observability_metrics(df)` as written. */
  function CalculateObservabilityMetrics(df: Frame): Result<Frame, Fault> {
    CalculateMetrics(df, Metrics)
  }

  /**
   * `calculate_observability_metrics` as it was evidently meant to behave: a
   * statistic no variable has reads as NaN, like one a given variable lacks.
   */
  function ObservabilityMetrics(df: Frame): Frame {
    AssignMetrics(df, Metrics)
  }

  /** Among the columns the metrics read are the gap count and the zero share. */
  lemma MetricsRead()
    ensures "gap_stats_n_gaps" in ReadOrder(Metrics)
    ensures "p_zeros" in ReadOrder(Metrics)
  {
  }

  /** The metric names are distinct, so each derived column is assigned once. */
  lemma MetricNamesDistinct()
    ensures Distinct(Names(Metrics))
  {
  }

  /**
   * After `assign`, each metric's column holds that metric's cell and every
   * other column of the row is as it was.
   */
  lemma WithMetricsLookup(row: Mapping, ms: seq<Metric>, j: nat, c: string)
    requires Distinct(Names(ms)) && j < |ms|
    ensures Lookup(WithMetrics(row, ms), ms[j].name) == Some(Cell(row, ms[j].formula))
    ensures c !in Names(ms) ==> Lookup(WithMetrics(row, ms), c) == Lookup(row, c)
  {
    var cells := MetricCells(row, ms);
    UpdateWithLookup(row, cells, ms[j].name);
    UniqueLastLookup(cells, ms[j].name);
    LookupAt(cells, j);
    UpdateWithLookup(row, cells, c);
  }

  /** `assign` keeps every column, adds the metric columns, and keeps the frame well formed. */
  lemma AssignMetricsColumns(df: Frame, ms: seq<Metric>)
    requires Valid(df)
    ensures Valid(AssignMetrics(df, ms))
    ensures forall c :: c in AssignMetrics(df, ms).columns <==> c in df.columns || c in Names(ms)
  {
    var r := AssignMetrics(df, ms);
    RowKeysMembers(df.rows);
    RowKeysMembers(r.rows);
    forall c | c in RowKeys(r.rows) ensures c in r.columns {
      assert exists i :: 0 <= i < |r.rows| && c in Keys(r.rows[i]);
      var i :| 0 <= i < |r.rows| && c in Keys(r.rows[i]);
      assert r.rows[i] == WithMetrics(df.rows[i], ms);
      WithMetricsKeys(df.rows[i], ms);
      if c in Keys(df.rows[i]) {
        assert c in RowKeys(df.rows);
      }
    }
  }

  /** The keys of a row after `assign`: its own, then the metric names it lacked. */
  lemma WithMetricsKeys(row: Mapping, ms: seq<Metric>)
    ensures forall c :: c in Keys(WithMetrics(row, ms)) <==> c in Keys(row) || c in Names(ms)
  {
    UpdateWithKeys(row, MetricCells(row, ms));
  }

  /**
   * A metric whose input is missing from the row is NaN, except the
   * chi-squared alert, a comparison, which is false.
   */
  lemma MissingInputCell(row: Mapping, f: Formula, c: string)
    requires c in Inputs(f) && c !in Keys(row)
    ensures Cell(row, f) == if f.Below? then Leaf(Flag(false)) else Leaf(Null)
  {
  }

  /** A ratio metric, times its denominator, gives back its numerator. */
  lemma RatioInverse(row: Mapping, a: string, b: string, q: real)
    requires Cell(row, Ratio(a, b)) == Leaf(Num(q))
    ensures NumberAt(row, a).Some? && NumberAt(row, b).Some?
    ensures q * NumberAt(row, b).value == NumberAt(row, a).value
  {
  }

  /** Completeness and the share missing add up to one. */
  lemma ComplementSum(row: Mapping, c: string, x: real)
    requires Cell(row, Complement(c)) == Leaf(Num(x))
    ensures NumberAt(row, c).Some? && x + NumberAt(row, c).value == 1.0
  {
  }

  /** A derived cell depends on the row's inputs to its formula and nothing else. */
  lemma CellReadsInputs(row: Mapping, other: Mapping, f: Formula)
    requires forall c :: c in Inputs(f) ==> Lookup(row, c) == Lookup(other, c)
    ensures Cell(row, f) == Cell(other, f)
  {
    match f
    case Ratio(a, b) =>
      assert Lookup(row, a) == Lookup(other, a) && Lookup(row, b) == Lookup(other, b);
    case Product(a, b) =>
      assert Lookup(row, a) == Lookup(other, a) && Lookup(row, b) == Lookup(other, b);
    case Below(c, _) =>
      assert Lookup(row, c) == Lookup(other, c);
    case Copy(c) =>
      assert Lookup(row, c) == Lookup(other, c);
    case Complement(c) =>
      assert Lookup(row, c) == Lookup(other, c);
  }

  /** `extract_profile_data(data_dict)` as written. */
  function ExtractProfileDataAsWritten(profile: Mapping): Result<Frame, Fault> {
    var records :- FilterProfileData(profile);
    CalculateObservabilityMetrics(FlatFrame(records))
  }

  /** `extract_profile_data` with the metrics step as evidently intended. */
  function ProfileFrame(profile: Mapping): Result<Frame, Fault> {
    var records :- FilterProfileData(profile);
    Success(ObservabilityMetrics(FlatFrame(records)))
  }

  /** `extract_profile_data(data_dict)`: filter, flatten, derive the metrics. */
  method ExtractProfileData(profile: Mapping) returns (r: Result<Frame, Fault>)
    ensures r == ProfileFrame(profile)
  {
    var filtered := FilterProfileData(profile);
    if filtered.Failure? {
      return Failure(filtered.error);
    }
    var flat := JsonToFlatDataFrame(filtered.value);
    r := Success(ObservabilityMetrics(flat));
  }

  /**
   * The intended report fails only where filtering fails, and where the
   * as-written report succeeds the two agree.
   */
  lemma ProfileFrameAgrees(profile: Mapping)
    ensures ProfileFrame(profile).Success? <==> FilterProfileData(profile).Success?
    ensures ExtractProfileDataAsWritten(profile).Success? ==>
      ExtractProfileDataAsWritten(profile) == ProfileFrame(profile)
  {
  }

  /**
   * The intended report is a well-formed frame with a row for each row of
   * the flat frame: each kept variable whose flattened statistics are not empty.
   */
  lemma ProfileFrameWellFormed(profile: Mapping)
    requires FilterProfileData(profile).Success?
    ensures Valid(ProfileFrame(profile).value)
    ensures |ProfileFrame(profile).value.rows| == |FlatFrame(FilterProfileData(profile).value).rows|
  {
    var records := FilterProfileData(profile).value;
    FlatFrameColumns(records);
    AssignMetricsColumns(FlatFrame(records), Metrics);
  }

  /** No variable of the report is of family `f`. */
  ghost predicate Lacks(profile: Mapping, f: Family) {
    var vars: Option<Value> := Lookup(profile, "variables");
    vars.Some? && vars.value.Dict? ==>
      forall i :: 0 <= i < |vars.value.entries| && Known(vars.value.entries[i].1) ==>
        FamilyOf(vars.value.entries[i].1.entries).value.value != f
  }

  /** Every family but `f`. */
  function Others(f: Family): set<Family> {
    match f
    case Categorical => {TimeSeries, Numeric}
    case TimeSeries => {Categorical, Numeric}
    case Numeric => {Categorical, TimeSeries}
  }

  lemma OthersAll(f: Family)
    ensures forall g :: g in Others(f) <==> g != f
  {
    forall g ensures g in Others(f) <==> g != f {
      match g
      case Categorical =>
      case TimeSeries =>
      case Numeric =>
    }
  }

  /**
   * The as-written metrics step raises `KeyError` on every report whose
   * variables are all of families other than `missing`, when only `missing`
   * keeps a statistic the metrics read.
   */
  lemma AsWrittenNeedsFamily(profile: Mapping, missing: Family, key: string)
    requires FilterProfileData(profile).Success?
    requires Lacks(profile, missing)
    requires key != "column_name" && key in ReadOrder(Metrics)
    requires forall f :: f != missing ==> NoneBegins(Keys(Fields(f)), key)
    ensures ExtractProfileDataAsWritten(profile).Failure?
  {
    var records := FilterProfileData(profile).value;
    var fs := Others(missing);
    OthersAll(missing);
    var vars: Option<Value> := Lookup(profile, "variables");
    if vars.Some? {
      FilterVariablesWithin(vars.value.entries, fs, Fields);
    }
    KeyNeverFlattened(records, fs, Fields, key);
  }

  /** Every report without a time-series variable makes the as-written metrics step raise `KeyError`. */
  lemma AsWrittenNeedsTimeSeries(profile: Mapping)
    requires FilterProfileData(profile).Success?
    requires Lacks(profile, TimeSeries)
    ensures ExtractProfileDataAsWritten(profile).Failure?
  {
    MetricsRead();
    forall f | f != TimeSeries ensures NoneBegins(Keys(Fields(f)), "gap_stats_n_gaps") {
      GapCountOnlyTimeSeries(f);
    }
    AsWrittenNeedsFamily(profile, TimeSeries, "gap_stats_n_gaps");
  }

  /** Every report without a numeric variable makes the as-written metrics step raise `KeyError`. */
  lemma AsWrittenNeedsNumeric(profile: Mapping)
    requires FilterProfileData(profile).Success?
    requires Lacks(profile, Numeric)
    ensures ExtractProfileDataAsWritten(profile).Failure?
  {
    MetricsRead();
    forall f | f != Numeric ensures NoneBegins(Keys(Fields(f)), "p_zeros") {
      ZeroShareOnlyNumeric(f);
    }
    AsWrittenNeedsFamily(profile, Numeric, "p_zeros");
  }

  /** A report of a single variable, as one column's profile is, always fails as written. */
  lemma AsWrittenFailsOnOneVariable(profile: Mapping)
    requires FilterProfileData(profile).Success?
    requires var vars: Option<Value> := Lookup(profile, "variables");
      vars.Some? && vars.value.Dict? && |vars.value.entries| == 1
    ensures ExtractProfileDataAsWritten(profile).Failure?
  {
    var vars: Option<Value> := Lookup(profile, "variables");
    var only := vars.value.entries[0].1;
    if Known(only) && FamilyOf(only.entries).value.value == TimeSeries {
      OnlyVariableLacks(profile, Numeric);
      AsWrittenNeedsNumeric(profile);
    } else {
      OnlyVariableLacks(profile, TimeSeries);
      AsWrittenNeedsTimeSeries(profile);
    }
  }

  /** A report of a single variable lacks every family but that variable's. */
  lemma OnlyVariableLacks(profile: Mapping, f: Family)
    requires var vars: Option<Value> := Lookup(profile, "variables");
      vars.Some? && vars.value.Dict? && |vars.value.entries| == 1 &&
      (Known(vars.value.entries[0].1) ==> FamilyOf(vars.value.entries[0].1.entries).value.value != f)
    ensures Lacks(profile, f)
  {
    var entries := Lookup(profile, "variables").value.entries;
    forall i | 0 <= i < |entries| && Known(entries[i].1)
      ensures FamilyOf(entries[i].1.entries).value.value != f
    {
      assert i == 0;
    }
  }
}
