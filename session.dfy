/**
 * `get_current_session_info`: the fixed five-hour window of the day that
 * holds the current time (00-05, 05-10, 10-15, 15-20, 20-01), the blocks
 * that start inside it, their totals, their most used model and the time
 * left until the window resets. The current time is a parameter.
 */
module Session {
  import opened Text
  import opened Records
  import opened Loader
  import opened Aggregate
  import opened Summary

  /** `datetime.now()`: wall-clock fields, `day` numbered as in WallTime. */
  datatype Now = Now(day: int, hour: Hour, minute: Minute, second: nat, micro: nat)

  predicate ValidNow(now: Now) {
    now.second < 60 && now.micro < 1_000_000
  }

  const MAX_TOKENS_5H := 58679737
  const WINDOW_HOURS := 5
  const MICROS_PER_HOUR := 3_600_000_000

  /** `(current_hour // 5) * 5`. */
  function WindowStartHour(hour: Hour): (h: Hour)
    ensures h % WINDOW_HOURS == 0 && h <= hour < h + WINDOW_HOURS
  {
    (hour / WINDOW_HOURS) * WINDOW_HOURS
  }

  /** The hour of the reset: `block_end_hour % 24`. */
  function ResetHour(now: Now): Hour {
    (WindowStartHour(now.hour) + WINDOW_HOURS) % 24
  }

  /** The day of the reset: the next day once the window ends at or after midnight. */
  function ResetDay(now: Now): int {
    if WindowStartHour(now.hour) + WINDOW_HOURS >= 24 then now.day + 1 else now.day
  }

  /** `block_start_time` and `reset_time`, in minutes since day 0 at 00:00. */
  function WindowStart(now: Now): int {
    now.day * 1440 + WindowStartHour(now.hour) * 60
  }

  function ResetAt(now: Now): int {
    ResetDay(now) * 1440 + ResetHour(now) * 60
  }

  /** The window is always five hours long and holds the current minute. */
  lemma WindowShape(now: Now)
    ensures ResetAt(now) == WindowStart(now) + WINDOW_HOURS * 60
    ensures WindowStart(now) <= now.day * 1440 + now.hour * 60 + now.minute < ResetAt(now)
  {
  }

  /** Only the last window of the day crosses midnight; it resets at 01:00. */
  lemma LateWindowResetsAtOne(now: Now)
    ensures ResetDay(now) == now.day + 1 <==> now.hour >= 20
    ensures now.hour >= 20 ==> ResetHour(now) == 1
  {
  }

  /** `block_time >= block_start_time and block_time < reset_time`, in minutes. */
  predicate StartsBetween(b: Block, lo: int, hi: int) {
    lo <= WallMinutes(b.startTime) < hi
  }

  predicate InWindow(b: Block, now: Now) {
    StartsBetween(b, WindowStart(now), ResetAt(now))
  }

  /** The window arithmetic of `get_current_session_info`, in minutes since day 0 at 00:00. */
  method CurrentWindow(now: Now) returns (blockStartTime: int, resetTime: int, resetHour: Hour)
    ensures blockStartTime == WindowStart(now) && resetTime == ResetAt(now) && resetHour == ResetHour(now)
  {
    var currentHour: int := now.hour;
    var blockStartHour := (currentHour / 5) * 5;
    var blockEndHour := blockStartHour + 5;
    resetHour := blockEndHour % 24;
    var resetDay := if blockEndHour >= 24 then now.day + 1 else now.day;
    resetTime := resetDay * 1440 + resetHour * 60;
    blockStartTime := now.day * 1440 + blockStartHour * 60;
  }

  /** The blocks starting in [lo, hi), in order. */
  function StartingBetween(bs: seq<Block>, lo: int, hi: int): seq<Block> {
    if bs == [] then []
    else
      var b := bs[|bs| - 1];
      StartingBetween(bs[..|bs| - 1], lo, hi) + (if StartsBetween(b, lo, hi) then [b] else [])
  }

  /** `current_block_sessions`. */
  function WindowBlocks(bs: seq<Block>, now: Now): seq<Block> {
    StartingBetween(bs, WindowStart(now), ResetAt(now))
  }

  lemma {:induction false} StartingBetweenMembers(bs: seq<Block>, lo: int, hi: int)
    ensures forall b :: b in StartingBetween(bs, lo, hi) <==> b in bs && StartsBetween(b, lo, hi)
  {
    if bs != [] {
      var init, last := bs[..|bs| - 1], bs[|bs| - 1];
      StartingBetweenMembers(init, lo, hi);
      assert bs == init + [last];
      assert forall b :: b in bs <==> b in init || b == last;
    }
  }

  /** Exactly the blocks that start inside the current window are selected,
      and each starts less than five hours before the reset. */
  lemma WindowBlocksMembers(bs: seq<Block>, now: Now)
    ensures forall b :: b in WindowBlocks(bs, now) <==> b in bs && InWindow(b, now)
    ensures forall b :: b in WindowBlocks(bs, now) ==> ResetAt(now) - WINDOW_HOURS * 60 <= WallMinutes(b.startTime)
  {
    StartingBetweenMembers(bs, WindowStart(now), ResetAt(now));
    WindowShape(now);
  }

  /** The last window of a day and the first of the next overlap for an
      hour: a block starting at 00:30 is counted both at 23:30 (window
      20:00 to 01:00) and at 00:30 the next day (window 00:00 to 05:00). */
  lemma LastWindowOverlapsNext(b: Block, d: int)
    requires WallMinutes(b.startTime) == (d + 1) * 1440 + 30
    ensures InWindow(b, Now(d, 23, 30, 0, 0)) && InWindow(b, Now(d + 1, 0, 30, 0, 0))
  {
  }

  /** The selection loop. */
  method SelectSessions(bs: seq<Block>, blockStart: int, resetTime: int) returns (sessions: seq<Block>)
    ensures sessions == StartingBetween(bs, blockStart, resetTime)
  {
    sessions := [];
    for i := 0 to |bs|
      invariant sessions == StartingBetween(bs[..i], blockStart, resetTime)
    {
      assert bs[..i + 1][..i] == bs[..i];
      var blockTime := WallMinutes(bs[i].startTime);
      if blockTime >= blockStart && blockTime < resetTime {
        sessions := sessions + [bs[i]];
      }
    }
    assert bs[..|bs|] == bs;
  }

  /** `model_counts` with its keys in insertion order. */
  datatype Counter = Counter(order: seq<string>, counts: map<string, int>)

  function CountOf(c: Counter, m: string): int {
    if m in c.counts then c.counts[m] else 0
  }

  /** `model_counts[model] = model_counts.get(model, 0) + 1`. */
  function Bump(c: Counter, m: string): (r: Counter)
    requires forall x :: x in c.order <==> x in c.counts
    ensures forall x :: x in r.order <==> x in r.counts
  {
    Counter(if m in c.counts then c.order else c.order + [m], c.counts[m := CountOf(c, m) + 1])
  }

  function CountModelsOf(c: Counter, ms: seq<string>): (r: Counter)
    requires forall x :: x in c.order <==> x in c.counts
    ensures forall x :: x in r.order <==> x in r.counts
  {
    if ms == [] then c else Bump(CountModelsOf(c, ms[..|ms| - 1]), ms[|ms| - 1])
  }

  /** The counting loops over the window's blocks, from an empty dict. */
  function CountAll(bs: seq<Block>): (r: Counter)
    ensures forall x :: x in r.order <==> x in r.counts
  {
    if bs == [] then Counter([], map[])
    else
      var b := bs[|bs| - 1];
      CountModelsOf(CountAll(bs[..|bs| - 1]), b.models)
  }

  /** The counter agrees with the model summary's tally: same keys in the
      same order, and each count is the summary's use count. */
  ghost predicate Agrees(c: Counter, t: Tally) {
    c.order == t.order
    && (forall m :: m in c.counts <==> m in t.stats)
    && (forall m :: m in c.counts ==> c.counts[m] == t.stats[m].count)
  }

  lemma {:induction false} CountModelsAgree(c: Counter, t: Tally, b: Block, ms: seq<string>)
    requires Agrees(c, t)
    requires forall x :: x in c.order <==> x in c.counts
    requires forall x :: x in t.order <==> x in t.stats
    ensures Agrees(CountModelsOf(c, ms), TallyModels(t, b, ms))
  {
    if ms != [] {
      CountModelsAgree(c, t, b, ms[..|ms| - 1]);
    }
  }

  /** Counting models gives the same counts as the summary's tally; with
      TallyCorrect, each count is the number of window blocks listing the model. */
  lemma {:induction false} CountAllAgrees(bs: seq<Block>)
    ensures Agrees(CountAll(bs), TallyBlocks(bs))
  {
    if bs != [] {
      var init, b := bs[..|bs| - 1], bs[|bs| - 1];
      CountAllAgrees(init);
      CountModelsAgree(CountAll(init), TallyBlocks(init), b, b.models);
    }
  }

  /** When no block repeats a model, each count is the number of blocks
      listing that model, and the counted models are exactly those used. */
  lemma CountsAreUses(bs: seq<Block>)
    requires forall i :: 0 <= i < |bs| ==> NoDuplicates(bs[i].models)
    ensures forall m :: CountOf(CountAll(bs), m) == |Using(bs, m)|
    ensures forall m :: m in CountAll(bs).counts <==> exists i :: 0 <= i < |bs| && m in bs[i].models
  {
    CountAllAgrees(bs);
    TallyCorrect(bs);
    forall m ensures CountOf(CountAll(bs), m) == |Using(bs, m)| {
      assert StatOf(TallyBlocks(bs), m) == StatOver(Using(bs, m));
    }
  }

  /** The counting loops. */
  method CountModels(sessions: seq<Block>) returns (c: Counter)
    ensures c == CountAll(sessions)
  {
    c := Counter([], map[]);
    for i := 0 to |sessions|
      invariant c == CountAll(sessions[..i])
    {
      assert sessions[..i + 1][..i] == sessions[..i];
      c := CountBlock(c, sessions[i]);
    }
    assert sessions[..|sessions|] == sessions;
  }

  /** The inner loop: `model_counts.get(model, 0) + 1` for each model of one block. */
  method CountBlock(c0: Counter, block: Block) returns (c: Counter)
    requires forall x :: x in c0.order <==> x in c0.counts
    ensures c == CountModelsOf(c0, block.models)
  {
    c := c0;
    for j := 0 to |block.models|
      invariant c == CountModelsOf(c0, block.models[..j])
    {
      assert block.models[..j + 1][..j] == block.models[..j];
      var model := block.models[j];
      var n := if model in c.counts then c.counts[model] else 0;
      c := Counter(if model in c.counts then c.order else c.order + [model], c.counts[model := n + 1]);
    }
    assert block.models[..|block.models|] == block.models;
  }

  /** `max(model_counts.items(), key=count)`: the position of the first
      key with the largest count. */
  function FirstMaxIndex(order: seq<string>, counts: map<string, int>): (k: nat)
    requires order != [] && forall m :: m in order ==> m in counts
    ensures k < |order|
    ensures forall i :: 0 <= i < |order| ==> counts[order[i]] <= counts[order[k]]
    ensures forall i :: 0 <= i < k ==> counts[order[i]] < counts[order[k]]
  {
    if |order| == 1 then 0
    else
      var n := |order| - 1;
      var k := FirstMaxIndex(order[..n], counts);
      assert order[..n][k] == order[k];
      if counts[order[n]] > counts[order[k]] then n else k
  }

  /** The primary model: the most used one, the earliest first used among
      equals, or "N/A" when the window has no models. */
  function PrimaryModel(c: Counter): string
    requires forall x :: x in c.order <==> x in c.counts
  {
    if c.order == [] then "N/A" else c.order[FirstMaxIndex(c.order, c.counts)]
  }

  /** The primary model is used at least as often as any other and strictly
      more often than every model first used before it. */
  lemma PrimaryModelIsMostUsed(c: Counter)
    requires forall x :: x in c.order <==> x in c.counts
    ensures c.order == [] <==> PrimaryModel(c) == "N/A" && "N/A" !in c.counts
    ensures c.order != [] ==> PrimaryModel(c) in c.counts
    ensures c.order != [] ==> forall m :: m in c.counts ==> c.counts[m] <= c.counts[PrimaryModel(c)]
    ensures c.order != [] ==>
      exists k :: 0 <= k < |c.order| && c.order[k] == PrimaryModel(c)
                  && forall i :: 0 <= i < k ==> c.counts[c.order[i]] < c.counts[PrimaryModel(c)]
  {
    if c.order != [] {
      var k := FirstMaxIndex(c.order, c.counts);
      assert c.order[k] == PrimaryModel(c);
      forall m | m in c.counts ensures c.counts[m] <= c.counts[PrimaryModel(c)] {
        var i :| 0 <= i < |c.order| && c.order[i] == m;
      }
    }
  }

  /** Microseconds from `now` to `reset_time`. */
  function RemainingMicros(now: Now): int {
    ResetAt(now) * 60_000_000
    - (((now.day * 1440 + now.hour * 60 + now.minute) * 60 + now.second) * 1_000_000 + now.micro)
  }

  /** The time left is positive and at most the window's five hours. */
  lemma RemainingBounds(now: Now)
    requires ValidNow(now)
    ensures 0 < RemainingMicros(now) <= WINDOW_HOURS * MICROS_PER_HOUR
  {
    WindowShape(now);
  }

  /** `int(total_seconds // 3600)` and `int((total_seconds % 3600) // 60)`. */
  function HoursRemaining(now: Now): int {
    RemainingMicros(now) / MICROS_PER_HOUR
  }

  function MinutesRemaining(now: Now): int {
    (RemainingMicros(now) % MICROS_PER_HOUR) / 60_000_000
  }

  /** The shown hours and minutes are the whole minutes left, split. */
  lemma RemainingSplit(now: Now)
    requires ValidNow(now)
    ensures 0 <= HoursRemaining(now) <= WINDOW_HOURS && 0 <= MinutesRemaining(now) < 60
    ensures HoursRemaining(now) == WINDOW_HOURS ==> MinutesRemaining(now) == 0
    ensures HoursRemaining(now) * 60 + MinutesRemaining(now) == RemainingMicros(now) / 60_000_000
  {
    RemainingBounds(now);
    var r := RemainingMicros(now);
    var h, rest := r / MICROS_PER_HOUR, r % MICROS_PER_HOUR;
    assert r == h * MICROS_PER_HOUR + rest;
    var m, sub := rest / 60_000_000, rest % 60_000_000;
    assert rest == m * 60_000_000 + sub;
    assert r == (h * 60 + m) * 60_000_000 + sub;
  }

  /** `reset_time - now`, split into the `<h>h<m>m` text. */
  method TimeRemainingText(now: Now, resetTime: int) returns (text: string)
    requires ValidNow(now) && resetTime == ResetAt(now)
    ensures text == RemainingText(now)
  {
    var nowMicros := ((now.day * 1440 + now.hour * 60 + now.minute) * 60 + now.second) * 1_000_000 + now.micro;
    var timeRemaining := resetTime * 60_000_000 - nowMicros;
    RemainingSplit(now);
    var hoursRemaining := timeRemaining / MICROS_PER_HOUR;
    var minutesRemaining := (timeRemaining % MICROS_PER_HOUR) / 60_000_000;
    text := Digits(hoursRemaining) + "h" + Digits(minutesRemaining) + "m";
  }

  /** The dictionary `get_current_session_info` returns, less the usage
      percentage; costs are in cents. */
  datatype SessionInfo = SessionInfo(
    model: string,
    totalCost: int,
    totalTokens: int,
    maxTokens: int,
    resetTime: string,
    timeRemaining: string,
    sessionCount: int)

  /** `reset_time.strftime('%H:%M')`. */
  function ResetText(now: Now): string {
    Pad2(ResetHour(now)) + ":00"
  }

  /** `f"{hours_remaining}h{minutes_remaining}m"`. */
  function RemainingText(now: Now): string
    requires ValidNow(now)
  {
    RemainingSplit(now);
    Digits(HoursRemaining(now)) + "h" + Digits(MinutesRemaining(now)) + "m"
  }
}
