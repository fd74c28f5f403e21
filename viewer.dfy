/**
 * The viewer object: the loaded blocks and the per-day mapping, which
 * load_from_json and _group_by_date rebuild from scratch.
 */
module Viewer {
  import opened Wrappers
  import opened Records
  import opened Loader
  import opened Aggregate
  import opened Sorting
  import opened Table
  import opened Summary
  import opened Session
  import opened Text

  class ClaudeCodeViewer {
    var blocks: seq<Block>
    /** The keys of `daily_data` in insertion order (Python dicts keep it). */
    var dailyKeys: seq<string>
    var dailyData: map<string, DayData>

    /** No block lists a model twice, and the per-day mapping is up to date. */
    ghost predicate Valid()
      reads this
    {
      && (forall i :: 0 <= i < |blocks| ==> NoDuplicates(blocks[i].models))
      && GroupedValid()
    }

    /** The per-day mapping is the aggregation of the current blocks; its
        key order lists every key once. */
    ghost predicate GroupedValid()
      reads this
    {
      && dailyKeys == DatesInOrder(blocks) && dailyData == Grouped(blocks)
      && (forall k :: k in dailyKeys <==> k in dailyData)
      && NoDuplicates(dailyKeys)
    }

    constructor ()
      ensures blocks == [] && dailyKeys == [] && dailyData == map[]
      ensures Valid()
    {
      blocks := [];
      dailyKeys := [];
      dailyData := map[];
    }

    /** Replaces the blocks by the document's non-gap entries, then regroups. */
    method LoadFromJson(doc: Document)
      modifies this
      ensures blocks == Loaded(EntriesOf(doc))
      ensures Valid()
    {
      blocks := [];
      var entries := EntriesOf(doc);
      for i := 0 to |entries|
        invariant blocks == Loaded(entries[..i])
      {
        assert entries[..i + 1][..i] == entries[..i];
        var entry := entries[i];
        if entry.isGap {
          continue;
        }
        var startTime := entry.startTime;
        var endTime := if entry.actualEndTime.Some? then entry.actualEndTime.value else entry.endTime;
        var durationMinutes := TruncDiv(endTime.instant - startTime.instant, MICROS_PER_MINUTE);
        var models := SimplifyModels(entry.models);
        assert models == SimplifiedAll(entry.models);
        var block := Block(entry.id, startTime.wall, endTime.wall, entry.actualEndTime, entry.isActive,
                           entry.isGap, entry.entries, entry.totalTokens, entry.costCents,
                           Distinct(models), durationMinutes);
        blocks := blocks + [block];
      }
      assert entries[..|entries|] == entries;
      LoadedModelsDistinct(entries);
      GroupByDate();
    }

    /** Rebuilds `daily_data` from the blocks in one pass. */
    method GroupByDate()
      modifies this
      ensures blocks == old(blocks)
      ensures GroupedValid()
    {
      dailyKeys := [];
      dailyData := map[];
      var bs := blocks;
      for i := 0 to |bs|
        invariant blocks == bs
        invariant dailyKeys == DatesInOrder(bs[..i])
        invariant dailyData == Grouped(bs[..i])
      {
        GroupStep(bs, i);
        dailyKeys, dailyData := AddBlock(dailyKeys, dailyData, bs[i]);
      }
      assert bs[..|bs|] == bs;
      GroupedIsDayFor(bs);
      DatesInOrderDistinct(bs);
    }

    /** One pass of the grouping loop: the block's date gets a fresh entry
        the first time it is seen, then the block is added to its entry. */
    static method AddBlock(keys0: seq<string>, data0: map<string, DayData>, block: Block)
      returns (keys: seq<string>, data: map<string, DayData>)
      ensures var k := DateKey(block);
        && keys == (if k in data0 then keys0 else keys0 + [k])
        && data == data0[k := AddToDay(if k in data0 then data0[k] else EMPTY_DAY, block)]
    {
      keys, data := keys0, data0;
      var dateStr := DateKey(block);
      if dateStr !in data {
        data := data[dateStr := EMPTY_DAY];
        keys := keys + [dateStr];
      }
      var day := AddToEntry(data[dateStr], block);
      data := data[dateStr := day];
    }

    /** The in-place updates of one day's entry for one block: append it,
        add its four metrics, add each of its models to the day's set. */
    static method AddToEntry(entry: DayData, block: Block) returns (day: DayData)
      ensures day == AddToDay(entry, block)
    {
      day := entry;
      day := day.(blocks := day.blocks + [block]);
      day := day.(totalDuration := day.totalDuration + block.durationMinutes);
      day := day.(totalCost := day.totalCost + block.costCents);
      day := day.(totalTokens := day.totalTokens + block.totalTokens);
      day := day.(totalEntries := day.totalEntries + block.entries);
      ghost var before := day;
      for j := 0 to |block.models|
        invariant day == before.(models := day.models)
        invariant day.models == before.models + set x | x in block.models[..j]
      {
        assert block.models[..j + 1] == block.models[..j] + [block.models[j]];
        day := day.(models := day.models + {block.models[j]});
      }
      assert block.models[..|block.models|] == block.models;
    }

    /** The rows `print_timeline_table` prints, in order (nothing when there are no days). */
    method TimelineRows(filter: FilterKind, sortBy: Option<SortKey>, limit: Option<int>) returns (rows: seq<Row>)
      requires Valid()
      ensures rows == SelectRows(dailyKeys, dailyData, filter, sortBy, limit)
    {
      if |dailyData| == 0 {
        assert dailyKeys == [];
        return [];
      }
      if sortBy.Some? {
        rows := SortedRows(dailyKeys, dailyData, sortBy.value, limit);
      } else {
        var sortedDates := Sort(dailyKeys, DateOrder());
        SortedMembers(dailyKeys, DateOrder());
        rows := ChronologicalRows(sortedDates, dailyData, filter);
      }
    }

    /** The sorted path of `print_timeline_table`: every day, heaviest
        first, cut to the limit when there is one. */
    static method SortedRows(keys: seq<string>, dailyData: map<string, DayData>, key: SortKey, limit: Option<int>)
      returns (rows: seq<Row>)
      requires forall k :: k in keys ==> k in dailyData
      ensures rows == Take(Sort(Items(keys, dailyData), Heavier(key)), limit)
    {
      var datesToShow := Sort(Items(keys, dailyData), Heavier(key));
      if limit.Some? && limit.value != 0 {
        datesToShow := SliceTo(datesToShow, limit.value);
      }
      rows := datesToShow;
    }

    /** The chronological loop of `print_timeline_table`: each date in turn,
        skipping days below the filter's threshold. */
    static method ChronologicalRows(sortedDates: seq<string>, dailyData: map<string, DayData>, filter: FilterKind)
      returns (rows: seq<Row>)
      requires forall k :: k in sortedDates ==> k in dailyData
      ensures rows == Chronological(sortedDates, dailyData, filter)
    {
      rows := [];
      for i := 0 to |sortedDates|
        invariant rows == Chronological(sortedDates[..i], dailyData, filter)
      {
        assert sortedDates[..i + 1][..i] == sortedDates[..i];
        var dateStr := sortedDates[i];
        var data := dailyData[dateStr];
        if filter == HighUsage && data.totalDuration < HIGH_USAGE_MINUTES {
          continue;
        }
        if filter == HighCost && data.totalCost < HIGH_COST_CENTS {
          continue;
        }
        rows := rows + [(dateStr, data)];
      }
      assert sortedDates[..|sortedDates|] == sortedDates;
    }

    /** The rows `print_model_summary` prints: per model, its use count and
        totals, most expensive first. */
    method ModelSummary() returns (rows: seq<(string, ModelStat)>)
      requires Valid()
      ensures rows == SummaryRows(blocks)
      ensures forall i, j :: 0 <= i < j < |rows| ==> rows[i].1.cost >= rows[j].1.cost
      ensures forall m, st :: (m, st) in rows <==>
        (exists i :: 0 <= i < |blocks| && m in blocks[i].models) && st == StatOver(Using(blocks, m))
    {
      var modelStats := CollectModelStats(blocks);
      rows := Sort(StatRows(modelStats.order, modelStats.stats), Costlier());
      SummaryRowsCorrect(blocks);
    }

    /** `get_current_session_info` at the given current time. */
    method CurrentSessionInfo(now: Now) returns (info: SessionInfo)
      requires ValidNow(now)
      ensures var sessions := WindowBlocks(blocks, now);
        && info.sessionCount == |sessions|
        && info.totalTokens == Sum(sessions, Tokens)
        && info.totalCost == Sum(sessions, Cost)
        && info.maxTokens == MAX_TOKENS_5H
        && info.model == PrimaryModel(CountAll(sessions))
        && info.resetTime == ResetText(now)
        && info.timeRemaining == RemainingText(now)
    {
      var blockStartTime, resetTime, resetHour := CurrentWindow(now);
      var sessions := SelectSessions(blocks, blockStartTime, resetTime);
      var totalTokens := Sum(sessions, Tokens);
      var totalCost := Sum(sessions, Cost);
      var modelCounts := CountModels(sessions);
      var primaryModel := if |modelCounts.order| > 0
        then modelCounts.order[FirstMaxIndex(modelCounts.order, modelCounts.counts)]
        else "N/A";
      var timeRemaining := TimeRemainingText(now, resetTime);
      info := SessionInfo(primaryModel, totalCost, totalTokens, MAX_TOKENS_5H, Pad2(resetHour) + ":00",
                          timeRemaining, |sessions|);
    }

    /** `sum(d[total] for d in daily_data.values())`: the total of one metric over all days. */
    function TotalOf(m: Metric): (total: int)
      reads this
      requires Valid()
      ensures total == Sum(blocks, m)
    {
      DayTotalsAddUp(blocks, m);
      SumDays(dailyKeys, dailyData, m)
    }
  }
}
