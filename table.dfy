/**
 * Which day rows `print_timeline_table` prints, and in what order: with a
 * sort key, all days by cost or duration, heaviest first and ties in
 * insertion order, cut to the limit; without one, the days in ascending
 * date order that pass the filter. `_print_day_row` receives the filter
 * but does not use it, so the sorted path never filters.
 */
module Table {
  import opened Wrappers
  import opened Text
  import opened Loader
  import opened Aggregate
  import opened Sorting

  datatype SortKey = ByCost | ByDuration
  datatype FilterKind = All | HighUsage | HighCost

  /** One printed row: a date and its day entry. */
  type Row = (string, DayData)

  const HIGH_USAGE_MINUTES := 300
  const HIGH_COST_CENTS := 5000
  const DEFAULT_SORTED_LIMIT := 10

  function Weight(row: Row, key: SortKey): int {
    match key
    case ByCost => row.1.totalCost
    case ByDuration => row.1.totalDuration
  }

  /** The order of `sorted(..., key=weight, reverse=True)`. */
  function Heavier(key: SortKey): (Row, Row) -> bool {
    (a: Row, b: Row) => Weight(a, key) >= Weight(b, key)
  }

  /** The order of `sorted()` on date strings. */
  function DateOrder(): (string, string) -> bool {
    (a: string, b: string) => StrLe(a, b)
  }

  lemma HeavierPreorder(key: SortKey)
    ensures TotalPreorder(Heavier(key))
  {
  }

  lemma DateOrderPreorder()
    ensures TotalPreorder(DateOrder())
  {
    forall a, b ensures DateOrder()(a, b) || DateOrder()(b, a) {
      StrLeTotal(a, b);
    }
    forall a, b, c | DateOrder()(a, b) && DateOrder()(b, c) ensures DateOrder()(a, c) {
      StrLeTransitive(a, b, c);
    }
  }

  /** The weekday column, Monday first; the weekday number of a date comes from the date library. */
  const WEEKDAYS: seq<string> := ["月", "火", "水", "木", "金", "土", "日"]

  /** `_get_weekday` given `date.weekday()`: one symbol per weekday. */
  function WeekdaySymbol(weekday: int): (symbol: string)
    requires 0 <= weekday < 7
    ensures |symbol| == 1
  {
    WEEKDAYS[weekday]
  }

  /** Different weekdays get different symbols. */
  lemma WeekdaySymbolsDistinct(a: int, b: int)
    requires 0 <= a < 7 && 0 <= b < 7
    ensures WeekdaySymbol(a) == WeekdaySymbol(b) <==> a == b
  {
    assert forall i, j :: 0 <= i < j < 7 ==> WEEKDAYS[i][0] != WEEKDAYS[j][0];
  }

  /** The chronological path's filter: days under 300 minutes or under $50 are skipped. */
  predicate Passes(d: DayData, filter: FilterKind) {
    match filter
    case All => true
    case HighUsage => d.totalDuration >= HIGH_USAGE_MINUTES
    case HighCost => d.totalCost >= HIGH_COST_CENTS
  }

  /** `daily_data.items()`, in insertion order. */
  function Items(keys: seq<string>, data: map<string, DayData>): (rows: seq<Row>)
    requires forall k :: k in keys ==> k in data
    ensures |rows| == |keys|
    ensures forall i :: 0 <= i < |keys| ==> rows[i] == (keys[i], data[keys[i]])
  {
    if keys == [] then []
    else
      var last := keys[|keys| - 1];
      Items(keys[..|keys| - 1], data) + [(last, data[last])]
  }

  /** Python's `s[:n]`: a negative n counts from the end. */
  function SliceTo<T>(s: seq<T>, n: int): (r: seq<T>)
    ensures r <= s
    ensures n >= 0 ==> |r| == if n < |s| then n else |s|
    ensures n < 0 ==> |r| == if |s| + n > 0 then |s| + n else 0
  {
    if n >= 0 then (if n < |s| then s[..n] else s)
    else if |s| + n > 0 then s[..|s| + n]
    else []
  }

  /** `if limit: s = s[:limit]`: zero and None keep everything. */
  function Take<T>(s: seq<T>, limit: Option<int>): (r: seq<T>)
    ensures r <= s
    ensures limit.None? || limit.value == 0 ==> r == s
  {
    if limit.None? || limit.value == 0 then s else SliceTo(s, limit.value)
  }

  /** `args.limit if args.limit else (10 if sort_by else None)`. */
  function EffectiveLimit(arg: Option<int>, sorting: bool): (limit: Option<int>)
    ensures arg.Some? && arg.value != 0 ==> limit == arg
    ensures (arg.None? || arg.value == 0) ==> limit == if sorting then Some(DEFAULT_SORTED_LIMIT) else None
  {
    if arg.Some? && arg.value != 0 then arg
    else if sorting then Some(DEFAULT_SORTED_LIMIT)
    else None
  }

  /** The rows the chronological loop prints from the given dates. */
  function Chronological(dates: seq<string>, data: map<string, DayData>, filter: FilterKind): seq<Row>
    requires forall k :: k in dates ==> k in data
  {
    if dates == [] then []
    else
      var last := dates[|dates| - 1];
      Chronological(dates[..|dates| - 1], data, filter) + (if Passes(data[last], filter) then [(last, data[last])] else [])
  }

  /** The rows `print_timeline_table` prints, in order. */
  function SelectRows(keys: seq<string>, data: map<string, DayData>, filter: FilterKind,
                      sortBy: Option<SortKey>, limit: Option<int>): seq<Row>
    requires forall k :: k in keys ==> k in data
  {
    if sortBy.Some? then Take(Sort(Items(keys, data), Heavier(sortBy.value)), limit)
    else
      var dates := Sort(keys, DateOrder());
      SortedMembers(keys, DateOrder());
      Chronological(dates, data, filter)
  }

  lemma SortedMembers<T>(s: seq<T>, le: (T, T) -> bool)
    ensures forall x :: x in Sort(s, le) <==> x in s
  {
    forall x ensures x in Sort(s, le) <==> x in s {
      assert x in Sort(s, le) <==> x in multiset(Sort(s, le));
      assert x in s <==> x in multiset(s);
    }
  }

  /** Exactly the days passing the filter are printed, each with its own entry. */
  lemma {:induction false} ChronologicalMembers(dates: seq<string>, data: map<string, DayData>, filter: FilterKind)
    requires forall k :: k in dates ==> k in data
    ensures forall k, d :: (k, d) in Chronological(dates, data, filter) <==>
                           k in dates && d == data[k] && Passes(data[k], filter)
  {
    if dates != [] {
      var init, last := dates[..|dates| - 1], dates[|dates| - 1];
      ChronologicalMembers(init, data, filter);
      assert dates == init + [last];
      assert forall k :: k in dates <==> k in init || k == last;
    }
  }

  /** Strictly ascending by code point, as `sorted()` orders distinct dates. */
  predicate Ascending(dates: seq<string>) {
    forall i, j :: 0 <= i < j < |dates| ==> StrLe(dates[i], dates[j]) && dates[i] != dates[j]
  }

  function DatesOf(rows: seq<Row>): (dates: seq<string>)
    ensures |dates| == |rows| && forall i :: 0 <= i < |rows| ==> dates[i] == rows[i].0
  {
    if rows == [] then [] else DatesOf(rows[..|rows| - 1]) + [rows[|rows| - 1].0]
  }

  /** The chronological rows keep the order of the dates they come from:
      every row is a date of the input, and rows appear in the dates' order. */
  lemma {:induction false} ChronologicalOrder(dates: seq<string>, data: map<string, DayData>, filter: FilterKind)
    requires forall k :: k in dates ==> k in data
    requires Ascending(dates)
    ensures Ascending(DatesOf(Chronological(dates, data, filter)))
  {
    if dates != [] {
      var init, last := dates[..|dates| - 1], dates[|dates| - 1];
      ChronologicalOrder(init, data, filter);
      ChronologicalMembers(init, data, filter);
      var head := Chronological(init, data, filter);
      forall r | r in head ensures StrLe(r.0, last) && r.0 != last {
        var i :| 0 <= i < |init| && init[i] == r.0;
        assert dates[i] == r.0;
      }
      var rows := Chronological(dates, data, filter);
      var tail := if Passes(data[last], filter) then [(last, data[last])] else [];
      assert rows == head + tail;
      var hd, ds := DatesOf(head), DatesOf(rows);
      assert Ascending(hd);
      forall i, j | 0 <= i < j < |ds| ensures StrLe(ds[i], ds[j]) && ds[i] != ds[j] {
        if j < |head| {
          assert rows[i] == head[i] && rows[j] == head[j];
          assert ds[i] == hd[i] && ds[j] == hd[j];
        } else {
          assert rows[j] == (last, data[last]);
          assert rows[i] == head[i] && head[i] in head;
        }
      }
    }
  }

  /** Without a sort key: the rows are exactly the days passing the filter,
      each with its entry, in strictly ascending date order; no limit applies. */
  lemma ChronologicalPath(keys: seq<string>, data: map<string, DayData>, filter: FilterKind, limit: Option<int>)
    requires forall k :: k in keys ==> k in data
    requires NoDuplicates(keys)
    ensures var rows := SelectRows(keys, data, filter, None, limit);
      && (forall k, d :: (k, d) in rows <==> k in keys && d == data[k] && Passes(data[k], filter))
      && Ascending(DatesOf(rows))
  {
    var dates := Sort(keys, DateOrder());
    SortedMembers(keys, DateOrder());
    ChronologicalMembers(dates, data, filter);
    SortedDatesStrict(keys);
    ChronologicalOrder(dates, data, filter);
  }

  /** `sorted()` of distinct date strings is strictly ascending. */
  lemma SortedDatesStrict(keys: seq<string>)
    requires NoDuplicates(keys)
    ensures Ascending(Sort(keys, DateOrder()))
  {
    var dates := Sort(keys, DateOrder());
    DateOrderPreorder();
    SortSorted(keys, DateOrder());
    forall i, j | 0 <= i < j < |dates| ensures StrLe(dates[i], dates[j]) && dates[i] != dates[j] {
      assert DateOrder()(dates[i], dates[j]);
      DistinctAfterSort(keys, dates, i, j);
    }
  }

  /** A permutation of a duplicate-free sequence has no duplicates. */
  lemma DistinctAfterSort(keys: seq<string>, dates: seq<string>, i: int, j: int)
    requires NoDuplicates(keys) && multiset(dates) == multiset(keys)
    requires 0 <= i < j < |dates|
    ensures dates[i] != dates[j]
  {
    NoDuplicatesCount(keys, dates[i]);
    if dates[i] == dates[j] {
      RepeatedCount(dates, i, j);
    }
  }

  lemma RepeatedCount(s: seq<string>, i: int, j: int)
    requires 0 <= i < j < |s| && s[i] == s[j]
    ensures multiset(s)[s[i]] >= 2
  {
    assert s == s[..j] + [s[j]] + s[j + 1..];
    assert s[..j] == s[..i] + [s[i]] + s[i + 1..j];
  }

  lemma {:induction false} NoDuplicatesCount(s: seq<string>, x: string)
    requires NoDuplicates(s)
    ensures multiset(s)[x] <= 1
  {
    if s != [] {
      var init, last := s[..|s| - 1], s[|s| - 1];
      assert s == init + [last];
      NoDuplicatesCount(init, x);
      if last == x {
        assert x !in init;
      }
    }
  }

  /** With a sort key: the rows are days of the table, heaviest first, and
      no day left out outweighs a day shown; a positive limit shows that
      many days, or all of them when there are fewer. */
  lemma SortedPath(keys: seq<string>, data: map<string, DayData>, filter: FilterKind, key: SortKey, limit: Option<int>)
    requires forall k :: k in keys ==> k in data
    ensures var rows := SelectRows(keys, data, filter, Some(key), limit);
      && (forall i, j :: 0 <= i < j < |rows| ==> Weight(rows[i], key) >= Weight(rows[j], key))
      && (forall r :: r in rows ==> r in Items(keys, data))
      && (forall a, b :: a in rows && b in Items(keys, data) && b !in rows ==> Weight(a, key) >= Weight(b, key))
      && (limit.Some? && limit.value > 0 ==> |rows| == if limit.value < |keys| then limit.value else |keys|)
  {
    var items := Items(keys, data);
    HeavierPreorder(key);
    SortSorted(items, Heavier(key));
    TakeOfSorted(Sort(items, Heavier(key)), items, key, limit);
  }

  lemma TakeOfSorted(sorted: seq<Row>, items: seq<Row>, key: SortKey, limit: Option<int>)
    requires Sorted(sorted, Heavier(key)) && multiset(sorted) == multiset(items)
    ensures var rows := Take(sorted, limit);
      && (forall i, j :: 0 <= i < j < |rows| ==> Weight(rows[i], key) >= Weight(rows[j], key))
      && (forall r :: r in rows ==> r in items)
      && (forall a, b :: a in rows && b in items && b !in rows ==> Weight(a, key) >= Weight(b, key))
      && (limit.Some? && limit.value > 0 ==> |rows| == if limit.value < |items| then limit.value else |items|)
  {
    assert |sorted| == |items| by {
      assert |multiset(sorted)| == |multiset(items)|;
    }
    var rows := Take(sorted, limit);
    assert rows == sorted[..|rows|];
    PrefixHeavier(sorted, |rows|, key);
    forall r | r in rows ensures r in items {
      assert r in multiset(sorted);
    }
    forall b | b in items && b !in rows ensures b in sorted[|rows|..] {
      assert b in multiset(sorted);
      var j :| 0 <= j < |sorted| && sorted[j] == b;
      assert sorted[|rows|..][j - |rows|] == b;
    }
  }

  lemma PrefixHeavier(sorted: seq<Row>, n: nat, key: SortKey)
    requires Sorted(sorted, Heavier(key)) && n <= |sorted|
    ensures forall i, j :: 0 <= i < j < n ==> Weight(sorted[i], key) >= Weight(sorted[j], key)
    ensures forall a, b :: a in sorted[..n] && b in sorted[n..] ==> Weight(a, key) >= Weight(b, key)
  {
    forall i, j | 0 <= i < j < n ensures Weight(sorted[i], key) >= Weight(sorted[j], key) {
      assert Heavier(key)(sorted[i], sorted[j]);
    }
    forall a, b | a in sorted[..n] && b in sorted[n..] ensures Weight(a, key) >= Weight(b, key) {
      var i :| 0 <= i < n && sorted[..n][i] == a;
      var j :| 0 <= j < |sorted| - n && sorted[n..][j] == b;
      assert Heavier(key)(sorted[i], sorted[n + j]);
    }
  }

  /** With a sort key and no limit argument, `main` passes 10, so ten days
      are shown, or all of them when there are fewer. */
  lemma DefaultSortedLimit(keys: seq<string>, data: map<string, DayData>, filter: FilterKind, key: SortKey)
    requires forall k :: k in keys ==> k in data
    ensures |SelectRows(keys, data, filter, Some(key), EffectiveLimit(None, true))|
            == if DEFAULT_SORTED_LIMIT < |keys| then DEFAULT_SORTED_LIMIT else |keys|
  {
    SortedPath(keys, data, filter, key, EffectiveLimit(None, true));
  }

  /** Ties keep insertion order: among the shown days of one weight, those
      that come first in `daily_data` come first, and none is skipped. */
  lemma SortedPathStable(keys: seq<string>, data: map<string, DayData>, filter: FilterKind, key: SortKey,
                         limit: Option<int>, v: Row)
    requires forall k :: k in keys ==> k in data
    ensures Equivalents(SelectRows(keys, data, filter, Some(key), limit), v, Heavier(key))
            <= Equivalents(Items(keys, data), v, Heavier(key))
  {
    var items := Items(keys, data);
    var sorted := Sort(items, Heavier(key));
    var rows := Take(sorted, limit);
    assert SelectRows(keys, data, filter, Some(key), limit) == rows;
    assert rows == sorted[..|rows|];
    EquivalentsOfPrefix(sorted, |rows|, v, Heavier(key));
    HeavierSortStable(items, key, v);
  }

  lemma HeavierSortStable(items: seq<Row>, key: SortKey, v: Row)
    ensures Equivalents(Sort(items, Heavier(key)), v, Heavier(key)) == Equivalents(items, v, Heavier(key))
  {
    HeavierPreorder(key);
    SortStable(items, v, Heavier(key));
  }

  lemma {:induction false} EquivalentsOfPrefix<T>(s: seq<T>, n: nat, v: T, le: (T, T) -> bool)
    requires n <= |s|
    ensures Equivalents(s[..n], v, le) <= Equivalents(s, v, le)
    decreases |s|
  {
    if n == |s| {
      assert s[..n] == s;
    } else {
      var init := s[..|s| - 1];
      assert init[..n] == s[..n];
      EquivalentsOfPrefix(init, n, v, le);
    }
  }
}
