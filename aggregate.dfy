/**
 * The per-day aggregates `_group_by_date` builds, as functions of the block
 * list: the date key of a block, a day's blocks, its totals and models,
 * and the dates in the order they first appear (the dict's insertion order).
 * The loop that builds them is ClaudeCodeViewer.GroupByDate.
 */
module Aggregate {
  import opened Records
  import opened Loader

  /** `block.start_time.split(' ')[0]`: the date of the block's start. */
  function DateKey(b: Block): (k: string)
    ensures k == b.startTime.date
  {
    DatePartOfFormat(b.startTime);
    DatePart(Format(b.startTime))
  }

  /** The four totals kept per day. */
  datatype Metric = Duration | Cost | Tokens | Entries

  function Measure(b: Block, m: Metric): int {
    match m
    case Duration => b.durationMinutes
    case Cost => b.costCents
    case Tokens => b.totalTokens
    case Entries => b.entries
  }

  /** The sum of one metric over blocks. */
  function Sum(bs: seq<Block>, m: Metric): int {
    if bs == [] then 0 else Sum(bs[..|bs| - 1], m) + Measure(bs[|bs| - 1], m)
  }

  /** Every model name used by some block. */
  function ModelsOf(bs: seq<Block>): set<string> {
    if bs == [] then {}
    else
      var last := bs[|bs| - 1];
      ModelsOf(bs[..|bs| - 1]) + (set x | x in last.models)
  }

  /** The blocks whose start date is `date`, in list order. */
  function OnDate(bs: seq<Block>, date: string): seq<Block> {
    if bs == [] then []
    else
      var last := bs[|bs| - 1];
      OnDate(bs[..|bs| - 1], date) + (if DateKey(last) == date then [last] else [])
  }

  /** One entry of `daily_data`. Costs are in cents. */
  datatype DayData = DayData(
    blocks: seq<Block>,
    totalDuration: int,
    totalCost: int,
    totalTokens: int,
    totalEntries: int,
    models: set<string>)

  function DayTotal(d: DayData, m: Metric): int {
    match m
    case Duration => d.totalDuration
    case Cost => d.totalCost
    case Tokens => d.totalTokens
    case Entries => d.totalEntries
  }

  /** The entry created for a date seen for the first time. */
  const EMPTY_DAY := DayData([], 0, 0, 0, 0, {})

  /** One step of the aggregation: append the block, add its metrics and models. */
  function AddToDay(d: DayData, b: Block): (r: DayData)
    ensures forall m :: DayTotal(r, m) == DayTotal(d, m) + Measure(b, m)
  {
    DayData(d.blocks + [b],
            d.totalDuration + b.durationMinutes,
            d.totalCost + b.costCents,
            d.totalTokens + b.totalTokens,
            d.totalEntries + b.entries,
            d.models + (set x | x in b.models))
  }

  /** The entry for a day made of the blocks `bs`. */
  function DayOf(bs: seq<Block>): DayData {
    DayData(bs, Sum(bs, Duration), Sum(bs, Cost), Sum(bs, Tokens), Sum(bs, Entries), ModelsOf(bs))
  }

  /** The dates of the blocks, each once, in order of first appearance. */
  function DatesInOrder(bs: seq<Block>): seq<string> {
    if bs == [] then []
    else
      var dates := DatesInOrder(bs[..|bs| - 1]);
      var k := DateKey(bs[|bs| - 1]);
      if k in dates then dates else dates + [k]
  }

  /** The whole `daily_data` mapping, built one block at a time as the aggregation loop does. */
  function Grouped(bs: seq<Block>): map<string, DayData> {
    if bs == [] then map[]
    else
      var g := Grouped(bs[..|bs| - 1]);
      var b := bs[|bs| - 1];
      var k := DateKey(b);
      g[k := AddToDay(if k in g then g[k] else EMPTY_DAY, b)]
  }

  /** The entry for one date, defined directly from the blocks of that date. */
  function DayFor(bs: seq<Block>, date: string): DayData {
    DayOf(OnDate(bs, date))
  }

  lemma {:induction false} DayOfSnoc(bs: seq<Block>, b: Block)
    ensures DayOf(bs + [b]) == AddToDay(DayOf(bs), b)
  {
    assert (bs + [b])[..|bs|] == bs;
  }

  /** The dates are exactly the blocks' dates. */
  lemma {:induction false} DatesInOrderMembers(bs: seq<Block>)
    ensures forall k :: k in DatesInOrder(bs) <==> exists b :: b in bs && DateKey(b) == k
  {
    if bs != [] {
      var init := bs[..|bs| - 1];
      var last := bs[|bs| - 1];
      DatesInOrderMembers(init);
      assert bs == init + [last];
      assert forall b :: b in bs <==> b in init || b == last;
    }
  }

  /** No date is listed twice. */
  lemma {:induction false} DatesInOrderDistinct(bs: seq<Block>)
    ensures NoDuplicates(DatesInOrder(bs))
  {
    if bs != [] {
      DatesInOrderDistinct(bs[..|bs| - 1]);
    }
  }

  /** A date no block starts on has no blocks. */
  lemma {:induction false} OnDateUnseen(bs: seq<Block>, date: string)
    requires date !in DatesInOrder(bs)
    ensures OnDate(bs, date) == []
  {
    if bs != [] {
      OnDateUnseen(bs[..|bs| - 1], date);
    }
  }

  lemma {:induction false} OnDateSnoc(bs: seq<Block>, b: Block, date: string)
    ensures OnDate(bs + [b], date) == OnDate(bs, date) + (if DateKey(b) == date then [b] else [])
  {
    assert (bs + [b])[..|bs|] == bs;
  }

  /** The entry of one date after appending a block. */
  lemma {:induction false} GroupedSnocAt(bs: seq<Block>, b: Block, d: string)
    requires d in DatesInOrder(bs) || d == DateKey(b)
    ensures DayFor(bs + [b], d)
         == if d == DateKey(b) then AddToDay(if d in DatesInOrder(bs) then DayFor(bs, d) else EMPTY_DAY, b)
            else DayFor(bs, d)
  {
    OnDateSnoc(bs, b, d);
    if d == DateKey(b) {
      DayOfSnoc(OnDate(bs, d), b);
      if d !in DatesInOrder(bs) {
        OnDateUnseen(bs, d);
        assert DayOf([]) == EMPTY_DAY;
        assert DayOf(OnDate(bs + [b], d)) == AddToDay(EMPTY_DAY, b);
      }
    } else {
      assert OnDate(bs + [b], d) == OnDate(bs, d) + [];
      assert OnDate(bs, d) + [] == OnDate(bs, d);
    }
  }

  lemma {:induction false} DatesSnoc(bs: seq<Block>, b: Block)
    ensures DatesInOrder(bs + [b])
         == if DateKey(b) in DatesInOrder(bs) then DatesInOrder(bs) else DatesInOrder(bs) + [DateKey(b)]
  {
    assert (bs + [b])[..|bs|] == bs;
  }

  /** The mapping's keys are the listed dates. */
  lemma {:induction false} GroupedKeys(bs: seq<Block>, k: string)
    ensures k in Grouped(bs) <==> k in DatesInOrder(bs)
  {
    if bs != [] {
      GroupedKeys(bs[..|bs| - 1], k);
    }
  }

  /** What one pass of the aggregation loop relies on. */
  lemma {:induction false} GroupStep(bs: seq<Block>, i: nat)
    requires i < |bs|
    ensures var k := DateKey(bs[i]);
      && (k in Grouped(bs[..i]) <==> k in DatesInOrder(bs[..i]))
      && DatesInOrder(bs[..i + 1]) == (if k in DatesInOrder(bs[..i]) then DatesInOrder(bs[..i]) else DatesInOrder(bs[..i]) + [k])
      && var g := Grouped(bs[..i]);
         Grouped(bs[..i + 1]) == g[k := AddToDay(if k in g then g[k] else EMPTY_DAY, bs[i])]
  {
    assert bs[..i + 1] == bs[..i] + [bs[i]];
    GroupedKeys(bs[..i], DateKey(bs[i]));
    DatesSnoc(bs[..i], bs[i]);
  }

  /** The loop's mapping agrees with the direct definition: its keys are the
      blocks' dates and each entry holds exactly that date's blocks and totals. */
  lemma {:induction false} GroupedIsDayFor(bs: seq<Block>)
    ensures forall k :: k in Grouped(bs) <==> k in DatesInOrder(bs)
    ensures forall k :: k in Grouped(bs) ==> Grouped(bs)[k] == DayFor(bs, k)
  {
    if bs != [] {
      var init := bs[..|bs| - 1];
      var b := bs[|bs| - 1];
      assert bs == init + [b];
      GroupedIsDayFor(init);
      DatesSnoc(init, b);
      forall k | k in Grouped(bs)
        ensures Grouped(bs)[k] == DayFor(bs, k)
      {
        GroupedSnocAt(init, b, k);
      }
    }
  }

  /** `sum(d[total] for d in daily_data.values())`, with the values visited in key order. */
  function SumDays(keys: seq<string>, data: map<string, DayData>, m: Metric): int
    requires forall k :: k in keys ==> k in data
  {
    if keys == [] then 0
    else SumDays(keys[..|keys| - 1], data, m) + DayTotal(data[keys[|keys| - 1]], m)
  }

  /** Replacing one day's entry changes the sum by the difference of that entry's totals. */
  lemma {:induction false} SumDaysUpdate(keys: seq<string>, data: map<string, DayData>, k: string, d: DayData, m: Metric)
    requires forall x :: x in keys ==> x in data
    requires NoDuplicates(keys)
    ensures SumDays(keys, data[k := d], m)
         == SumDays(keys, data, m) + (if k in keys then DayTotal(d, m) - DayTotal(data[k], m) else 0)
  {
    if keys != [] {
      var init := keys[..|keys| - 1];
      assert forall x :: x in init ==> x in keys;
      SumDaysUpdate(init, data, k, d, m);
      assert k in keys <==> k in init || k == keys[|keys| - 1];
      assert keys[|keys| - 1] in init ==> false;
    }
  }

  /** The day totals add up to the totals over all blocks. */
  lemma {:induction false} DayTotalsAddUp(bs: seq<Block>, m: Metric)
    ensures forall k :: k in DatesInOrder(bs) ==> k in Grouped(bs)
    ensures SumDays(DatesInOrder(bs), Grouped(bs), m) == Sum(bs, m)
  {
    if bs != [] {
      var init := bs[..|bs| - 1];
      var b := bs[|bs| - 1];
      assert bs == init + [b];
      DayTotalsAddUp(init, m);
      DatesSnoc(init, b);
      DatesInOrderDistinct(init);
      var k := DateKey(b);
      GroupedKeys(init, k);
      var g := Grouped(init);
      var keys := DatesInOrder(init);
      var d := AddToDay(if k in g then g[k] else EMPTY_DAY, b);
      SumDaysUpdate(keys, g, k, d, m);
      if k !in keys {
        var keys' := keys + [k];
        assert keys'[..|keys'| - 1] == keys;
      }
    }
  }

  /** What a day's entry holds: the blocks of that date in list order,
      totals summed over them, and the union of their models. */
  lemma {:induction false} DayEntry(bs: seq<Block>, k: string)
    requires k in Grouped(bs)
    ensures Grouped(bs)[k].blocks == OnDate(bs, k)
    ensures forall m :: DayTotal(Grouped(bs)[k], m) == Sum(OnDate(bs, k), m)
    ensures forall x :: x in Grouped(bs)[k].models <==> exists i :: 0 <= i < |OnDate(bs, k)| && x in OnDate(bs, k)[i].models
  {
    GroupedIsDayFor(bs);
    DayOfFields(OnDate(bs, k));
  }

  lemma DayOfFields(xs: seq<Block>)
    ensures DayOf(xs).blocks == xs
    ensures forall m :: DayTotal(DayOf(xs), m) == Sum(xs, m)
    ensures forall x :: x in DayOf(xs).models <==> exists i :: 0 <= i < |xs| && x in xs[i].models
  {
    ModelsOfMembers(xs);
  }

  lemma {:induction false} ModelsOfMembers(bs: seq<Block>)
    ensures forall x :: x in ModelsOf(bs) <==> exists i :: 0 <= i < |bs| && x in bs[i].models
  {
    if bs != [] {
      var init := bs[..|bs| - 1];
      var last := bs[|bs| - 1];
      ModelsOfMembers(init);
      forall x ensures x in ModelsOf(bs) <==> exists i :: 0 <= i < |bs| && x in bs[i].models {
        if x in ModelsOf(init) {
          var i :| 0 <= i < |init| && x in init[i].models;
          assert bs[i] == init[i];
        }
        if exists i :: 0 <= i < |bs| && x in bs[i].models {
          var i :| 0 <= i < |bs| && x in bs[i].models;
          if i < |init| {
            assert bs[i] == init[i];
          } else {
            assert x in (set y | y in last.models);
          }
        }
      }
    }
  }

  /** A day's list holds exactly the blocks with that date, and every block is in its day's list. */
  lemma {:induction false} OnDateMembers(bs: seq<Block>, date: string)
    ensures forall b :: b in OnDate(bs, date) <==> b in bs && DateKey(b) == date
  {
    if bs != [] {
      var init := bs[..|bs| - 1];
      OnDateMembers(init, date);
      assert bs == init + [bs[|bs| - 1]];
    }
  }
}
