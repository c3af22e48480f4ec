/**
 * Drift detection between an original snapshot and newly appended rows:
 * categories that did not occur before, and a significance flag for a change
 * in a time series' trend. The seasonal decomposition and the signed-rank
 * test are foreign numeric routines and enter as parameters.
 */
module Trend {
  import opened Wrappers
  import opened Faults
  import opened Json
  import opened Frames

  /** `df.set_index(time_column)[column_name]`: the column's values in row order. */
  function SeriesOf(df: Dataset, time: string, column: string): (r: Result<Column, Fault>)
    ensures r.Success? <==> time in Keys(df) && column in Keys(df) && column != time
    ensures r.Success? ==> Lookup(df, column) == Some(r.value)
  {
    if time !in Keys(df) then Failure(KeyError(time))
    else if column == time || column !in Keys(df) then Failure(KeyError(column))
    else Success(Lookup(df, column).value)
  }

  /** `seasonal_decompose(series, period=period).trend`, NaN as `Null`; a failure is what it raises. */
  type Decomposition = (Column, int) -> Result<Column, Fault>

  /**
   * `wilcoxon(x, y).pvalue`: none when the p-value is NaN; a failure is what
   * the test raises (SciPy raises ValueError, for one, when every paired
   * difference is zero).
   */
  type SignedRankTest = (Column, Column) -> Result<Option<real>, Fault>

  /** `series.dropna()`: the defined values, in order. */
  function DropNa(s: Column): (r: Column)
    ensures forall a :: a in r <==> a in s && a != Null
    ensures |r| <= |s|
    ensures Null !in s ==> r == s
  {
    if s == [] then []
    else if s[0] == Null then DropNa(s[1..])
    else [s[0]] + DropNa(s[1..])
  }

  /**
   * Dropping NaN works piecewise: the defined values of a concatenation are
   * those of each part, in order. With `DropNa([Null]) == []` and the identity
   * on series without NaN, this fixes the order and the repetitions of the result.
   */
  lemma {:induction false} DropNaConcat(a: Column, b: Column)
    ensures DropNa(a + b) == DropNa(a) + DropNa(b)
  {
    if a != [] {
      assert (a + b)[0] == a[0] && (a + b)[1..] == a[1..] + b;
      DropNaConcat(a[1..], b);
    } else {
      assert a + b == b;
    }
  }

  /** A single NaN is dropped and a single defined value kept. */
  lemma DropNaSingle(x: Atom)
    ensures DropNa([x]) == if x == Null then [] else [x]
  {
    assert [x][1..] == [];
  }

  /** `trend[:-1]`. */
  function Previous(trend: Column): Column
    requires |trend| > 1
  {
    trend[..|trend| - 1]
  }

  /** `trend[1:]`. */
  function Next(trend: Column): Column
    requires |trend| > 1
  {
    trend[1..]
  }

  /**
   * The flag for a trend: tested only with two values or more, significant
   * below 0.05; an error of the test propagates.
   */
  function SignificantChange(trend: Column, wilcoxon: SignedRankTest): Result<bool, Fault> {
    if |trend| > 1 then
      var p :- wilcoxon(Previous(trend), Next(trend));
      Success(p.Some? && p.value < 0.05)
    else Success(false)
  }

  /** `analyze_trend_changes(original_df, new_df, column_name, time_column, period)`. */
  function TrendChanges(original: Dataset, added: Dataset, column: string, time: string, period: int,
                        decompose: Decomposition, wilcoxon: SignedRankTest): (r: Result<Mapping, Fault>)
    ensures r.Success? ==> Keys(r.value) == ["trend_significant_change"] && r.value[0].1.Leaf?
                           && r.value[0].1.atom.Flag?
  {
    var before :- SeriesOf(original, time, column);
    var after :- SeriesOf(added, time, column);
    var components :- decompose(before + after, period);
    var significant :- SignificantChange(DropNa(components), wilcoxon);
    Success([("trend_significant_change", Leaf(Flag(significant)))])
  }

  /**
   * The previous and next values pair each trend value with its successor:
   * both have one value fewer than the trend.
   */
  lemma ConsecutivePairs(trend: Column)
    requires |trend| > 1
    ensures |Previous(trend)| == |Next(trend)| == |trend| - 1
    ensures forall i :: 0 <= i < |trend| - 1 ==> Previous(trend)[i] == trend[i] && Next(trend)[i] == trend[i + 1]
  {
  }

  /** With one defined trend value or none the flag is false and the test is never consulted. */
  lemma ShortTrendUntested(trend: Column, wilcoxon: SignedRankTest, other: SignedRankTest)
    requires |trend| <= 1
    ensures SignificantChange(trend, wilcoxon) == Success(false)
    ensures SignificantChange(trend, wilcoxon) == SignificantChange(trend, other)
  {
  }

  /**
   * The decomposition sees exactly the original series followed by the new
   * one: two decompositions that agree there give the same result.
   */
  lemma DecomposesConcatenation(original: Dataset, added: Dataset, column: string, time: string, period: int,
                                decompose: Decomposition, other: Decomposition, wilcoxon: SignedRankTest)
    requires SeriesOf(original, time, column).Success? && SeriesOf(added, time, column).Success?
    requires var series := SeriesOf(original, time, column).value + SeriesOf(added, time, column).value;
      decompose(series, period) == other(series, period)
    ensures TrendChanges(original, added, column, time, period, decompose, wilcoxon)
         == TrendChanges(original, added, column, time, period, other, wilcoxon)
  {
  }

  /**
   * The result fails exactly when a snapshot lacks the time or the analysed
   * column, the decomposition fails, or the test fails on a trend of two
   * defined values or more; otherwise the flag is set exactly when the test's
   * p-value on consecutive trend values is below 0.05.
   */
  lemma TrendChangesOutcome(original: Dataset, added: Dataset, column: string, time: string, period: int,
                            decompose: Decomposition, wilcoxon: SignedRankTest)
    ensures var r := TrendChanges(original, added, column, time, period, decompose, wilcoxon);
      r.Success? <==>
        SeriesOf(original, time, column).Success? && SeriesOf(added, time, column).Success? &&
        var series := SeriesOf(original, time, column).value + SeriesOf(added, time, column).value;
        decompose(series, period).Success? &&
        var trend := DropNa(decompose(series, period).value);
        (|trend| > 1 ==> wilcoxon(trend[..|trend| - 1], trend[1..]).Success?)
    ensures var r := TrendChanges(original, added, column, time, period, decompose, wilcoxon);
      r.Success? ==>
        var series := SeriesOf(original, time, column).value + SeriesOf(added, time, column).value;
        var trend := DropNa(decompose(series, period).value);
        r.value[0].1.atom.b <==>
          |trend| > 1 && wilcoxon(trend[..|trend| - 1], trend[1..]).value.Some? &&
          wilcoxon(trend[..|trend| - 1], trend[1..]).value.value < 0.05
  {
  }

  /** The distinct values of `new` that `original` lacks, in order of first appearance. */
  function NewEntries(original: Column, added: Column): (r: seq<Atom>)
    ensures forall a :: a in r <==> a in added && a !in original
    ensures Distinct(r)
    decreases |added|
  {
    if added == [] then []
    else
      var rest := NewEntries(original, added[..|added| - 1]);
      var last := added[|added| - 1];
      assert forall a :: a in added <==> a in added[..|added| - 1] || a == last;
      if last in original || last in rest then rest else rest + [last]
  }

  /** `detect_new_categorical_values(original_df, new_df, column_name)`. */
  function DetectNewCategoricalValues(original: Dataset, added: Dataset, column: string): (r: Result<Mapping, Fault>)
    ensures r.Success? <==> column in Keys(original) && column in Keys(added)
  {
    var before :- ColumnOf(original, column);
    var after :- ColumnOf(added, column);
    var entries := NewEntries(before, after);
    if entries == [] then Success([]) else Success([("new_values", Leaf(Items(entries)))])
  }

  /**
   * The result is empty exactly when every value of the new rows already
   * occurs in the original; otherwise `new_values` lists each value the
   * original lacks, once.
   */
  lemma NewValuesReported(original: Dataset, added: Dataset, column: string)
    requires DetectNewCategoricalValues(original, added, column).Success?
    ensures var r := DetectNewCategoricalValues(original, added, column).value;
      var before := Lookup(original, column).value;
      var after := Lookup(added, column).value;
      (r == [] <==> forall a :: a in after ==> a in before) &&
      (r != [] ==> Keys(r) == ["new_values"] && r[0].1.Leaf? && r[0].1.atom.Items? &&
                   Distinct(r[0].1.atom.elems) &&
                   forall a :: a in r[0].1.atom.elems <==> a in after && a !in before)
  {
    var before := Lookup(original, column).value;
    var after := Lookup(added, column).value;
    var e := NewEntries(before, after);
    assert DetectNewCategoricalValues(original, added, column)
        == if e == [] then Success([]) else Success([("new_values", Leaf(Items(e)))]);
    if e != [] {
      assert e[0] in e;
    }
  }

  /** In a list without repetition each member counts once. */
  lemma {:induction false} DistinctCounts(s: seq<Atom>, a: Atom)
    requires Distinct(s)
    ensures multiset(s)[a] == if a in s then 1 else 0
  {
    if s != [] {
      assert Distinct(s[1..]) by {
        forall i, j | 0 <= i < j < |s[1..]| ensures s[1..][i] != s[1..][j] {
          assert s[1..][i] == s[i + 1] && s[1..][j] == s[j + 1];
        }
      }
      assert s[0] !in s[1..] by {
        forall i | 0 <= i < |s[1..]| ensures s[1..][i] != s[0] {
          assert s[1..][i] == s[i + 1];
        }
      }
      DistinctCounts(s[1..], a);
      assert s == [s[0]] + s[1..];
    }
  }

  /**
   * Only the sets of values matter: snapshots with the same values, whatever
   * their repetitions and order, report the same new values up to order.
   */
  lemma NewEntriesBySets(original: Column, added: Column, original': Column, added': Column)
    requires forall a :: a in original <==> a in original'
    requires forall a :: a in added <==> a in added'
    ensures multiset(NewEntries(original, added)) == multiset(NewEntries(original', added'))
    ensures NewEntries(original, added) == [] <==> NewEntries(original', added') == []
  {
    var e, e' := NewEntries(original, added), NewEntries(original', added');
    forall a ensures multiset(e)[a] == multiset(e')[a] {
      DistinctCounts(e, a);
      DistinctCounts(e', a);
    }
    assert multiset(e) == multiset(e');
  }
}
