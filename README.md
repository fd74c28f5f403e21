# ClaudeCodeViewer core, modelled in Dafny

`b.py` is a terminal viewer for Claude Code usage data. It reads a JSON
document of usage blocks. Each block is a session with a start time, an
end time, token and cost totals, and the models it used. The viewer turns
the document into a list of `Block` records and groups them by calendar
date. It then prints a day table with one 24-hour timeline bar per day, a
per-model summary, and a line about the current five-hour usage window.

The project models the computing core of that program:

- `load_from_json`: gap entries are skipped; the effective end time is
  `actualEndTime` when present, else `endTime`; the duration is in whole
  minutes; model names are simplified and de-duplicated.
- `_group_by_date`: the `daily_data` mapping and its insertion order.
- `_get_timeline_bar`: the 48 half-hour slots, last write wins, and the
  six-hour markers.
- The row selection of `print_timeline_table`: sorted by cost or duration
  and cut to the limit, or chronological and filtered. This includes the
  default limit of ten rows set in `main`.
- `_format_number`, `_get_cost_color` and the weekday lookup of `_get_weekday`.
- The accumulation and ordering of `print_model_summary`.
- The window arithmetic, block selection, totals, primary model and
  remaining time of `get_current_session_info`.

The parts that change state step by step are imperative Dafny:
- `ClaudeCodeViewer` is a class whose fields `blocks`, `dailyKeys` and `dailyData` its methods reassign.
- The timeline is an `array` filled by nested loops.
- The summary and session counters are loops over dictionaries.

Each such method is proved equal to a specification function, and the
properties are lemmas about those functions. The pure parts are functions
and lemmas.

Modelling choices:

- **Money** is integer cents. The source's costs are Python floats.
- **Timestamps** arrive parsed. A `Timestamp` holds its wall clock (date
  text, day number, hour, minute) and its instant in microseconds.
  - `Records.Format` is the `'%Y-%m-%d %H:%M'` text the source stores in a
    block.
  - `Records.DatePartOfFormat` and `Records.ParseClockOfFormat` prove that
    the source's re-reading of that text gives the fields back.
- **The current time** is a parameter of `CurrentSessionInfo`. It is read
  in the same naive wall-clock frame as the blocks' start times.
- **Python semantics** are written out where they matter:
  - `int()` of a quotient truncates toward zero (`Loader.TruncDiv`);
  - `s[:n]` accepts a negative `n` (`Table.SliceTo`);
  - `if limit:` treats 0 like `None` (`Table.Take`);
  - strings compare by code point (`Text.StrLe`);
  - `sorted(..., reverse=True)` is stable, so ties keep their original
    order (`Sorting.SortStable`);
  - `max()` returns the first maximal item (`Session.FirstMaxIndex`).

Points where the source behaves in a way its names or help text do not suggest:

- **Duration.** `int()` truncates toward zero, so a block that ends before
  it starts gets its negative minute count rounded up, not down; see
  `Loader.ToBlockFields`.
- **Filters on the sorted path.** With a sort key, the day table passes
  the filter to `_print_day_row`, which ignores it. So `--high-usage` and
  `--high-cost` have no effect on that path: every day is a candidate row.
  See `Table.SortedPath`.
- **Primary model ties.** A Python dict keeps insertion order and `max`
  returns the first maximum, so among equally used models the one that
  comes first in the counter's key order wins; see
  `Session.PrimaryModelIsMostUsed` and `Session.FirstMaxIndex`. That key
  order is the order in which the counting loop meets the models. Within
  one block it follows `block.models`, which is `list(set(...))`, and the
  source's set order for strings varies from run to run. The model fixes
  that order (see `Loader.Distinct` under "Left out").
- **Overlapping windows.** The last window of a day runs from 20:00 to
  01:00 the next day. It overlaps that day's first window (00:00 to
  05:00), so a block starting at 00:30 belongs to both. This is the
  source's own arithmetic; it is stated as `Session.LastWindowOverlapsNext`.

## Model

| member | source | states |
|---|---|---|
| Records.DatePartOfFormat | b.py:133 | the date key cut from the stored `'%Y-%m-%d %H:%M'` text before the blank is the block's start date |
| Records.ParseClockOfFormat | b.py:171-173 | splitting the stored start text on the blank and the colon and applying `int()` gives back the start hour and minute |
| Loader.SimplifyIdempotent | b.py:99-107 | simplifying a simplified name changes nothing |
| Loader.SimplifyRange | b.py:99-107 | a simplified name is opus-4, sonnet-4 or synthetic, or it is the original name, which contains none of the three substrings |
| Loader.SimplifyModels | b.py:98-107 | the model loop yields one name per raw name, in order, each the first-matching-substring simplification of its raw name |
| Loader.Distinct | b.py:119 | `list(set(...))` keeps exactly the same set of names, each once |
| Loader.TruncDiv | b.py:95 | `int(a / b)` rounds toward zero: from below for non-negative `a`, from above for negative `a` |
| Loader.SimplifiedMembers | b.py:99-119 | a name is in a block's model list exactly when it simplifies some raw name, and every listed name is a fixpoint of simplification |
| Loader.ToBlockFields | b.py:88-121 | a block takes its end from `actualEndTime` when present, else `endTime`; its models have no duplicates and are exactly the simplified raw names; its duration is the elapsed time in whole minutes, truncated toward zero |
| Loader.LoadedAppend | b.py:83-123 | loading a concatenation loads each part in turn, so input order is kept |
| Loader.LoadedExactlyNonGap | b.py:83-85 | every loaded block is the conversion of a non-gap entry, and every non-gap entry's conversion is loaded |
| Loader.LoadedModelsDistinct | b.py:119 | no loaded block lists a model twice |
| Loader.Simplify | b.py:99-107 | the first matching substring, opus, then sonnet, then synthetic, decides the short name, and other names stay as they are; `SimplifyIdempotent` and `SimplifyRange` state its properties |
| Loader.ToBlock | b.py:109-121 | one entry becomes one `Block`; `ToBlockFields` states its end time, models and duration |
| Loader.Loaded | b.py:81-123 | the blocks of the document's non-gap entries, in order; `LoadedExactlyNonGap`, `LoadedAppend` and `LoadedModelsDistinct` state its content |
| Aggregate.DateKey | b.py:133 | a block's grouping key is the date of its start time |
| Aggregate.AddToDay | b.py:145-152 | adding a block to a day raises each of the day's four totals by exactly the block's value |
| Aggregate.DatesInOrderMembers | b.py:132-143 | the keys of the per-day mapping are exactly the start dates of the blocks |
| Aggregate.DatesInOrderDistinct | b.py:135-143 | the key insertion order lists no date twice |
| Aggregate.GroupedIsDayFor | b.py:128-152 | the one-pass aggregation agrees with the direct definition: its keys are the listed dates, and each entry is built from exactly the blocks of that date |
| Aggregate.DayEntry | b.py:145-152 | a day's entry holds that date's blocks in input order; its totals are the sums over those blocks, and its model set is the union of their model lists |
| Aggregate.Grouped | b.py:128-152 | `daily_data` after the grouping loop; `GroupedIsDayFor` and `DayEntry` state each entry's content |
| Aggregate.DayTotalsAddUp | b.py:231-234 | summing one total over all days gives that total over all blocks |
| Viewer.ClaudeCodeViewer.constructor | b.py:43-45 | a new viewer has no blocks and an empty per-day mapping, which is consistent with them |
| Viewer.ClaudeCodeViewer.LoadFromJson | b.py:79-126 | loading replaces the blocks by the document's non-gap entries, whatever was loaded before, and leaves the per-day mapping rebuilt from them |
| Viewer.ClaudeCodeViewer.GroupByDate | b.py:128-152 | regrouping keeps the blocks and makes the per-day mapping and its key order the aggregation of the blocks, each key listed once |
| Viewer.ClaudeCodeViewer.AddBlock | b.py:133-152 | one pass of the grouping loop lists the block's date the first time it is seen, and adds the block to that date's entry, starting from an empty entry |
| Viewer.ClaudeCodeViewer.AddToEntry | b.py:145-152 | the in-place updates of a day's entry append the block, add its four totals and add its models to the set |
| Viewer.ClaudeCodeViewer.TotalOf | b.py:231-234 | a statistic summed over the per-day mapping equals the statistic summed over all blocks |
| Viewer.ClaudeCodeViewer.TimelineRows | b.py:260-302 | the day table prints exactly the rows the selection function gives, and no rows when there is no data |
| Viewer.ClaudeCodeViewer.SortedRows | b.py:273-283 | the sorted path takes all days, sorted heaviest first and cut by the limit |
| Viewer.ClaudeCodeViewer.ChronologicalRows | b.py:289-300 | the chronological loop prints the dates in order, skipping days below the filter's threshold |
| Viewer.ClaudeCodeViewer.ModelSummary | b.py:355-377 | the per-model summary lists the rows the summary function gives: in descending cost order, exactly the models the loaded blocks use, each with the count and totals of its blocks |
| Viewer.ClaudeCodeViewer.CurrentSessionInfo | b.py:385-442 | the session info counts and sums the window's blocks, names their primary model, and reports the limit constant, the reset time's `%H:%M` text and the remaining `<h>h<m>m` |
| Timeline.StartSlot | b.py:171-175 | the start slot of any time of day is one of the 48 slots |
| Timeline.StartSlotHalfHour | b.py:175 | the start slot's half hour holds the block's start minute of the day |
| Timeline.Span | b.py:176 | a block fills at least one slot |
| Timeline.SpanHalfHours | b.py:176 | a block of 30 or more minutes fills its whole half hours, and one under an hour fills one slot |
| Timeline.SlotGlyphIsLastCover | b.py:169-191 | a slot shows the glyph of the last block covering it, and is empty when no block covers it |
| Timeline.GlyphOf | b.py:179-186 | a block's glyph: mixed with several models, else synthetic, sonnet or opus by substring of its only model; `ChooseGlyph` is proved to agree with it |
| Timeline.SlotGlyph | b.py:169-191 | the glyph a slot holds after the fill loop; `SlotGlyphIsLastCover` states it is the last covering block's |
| Timeline.TimelineBar | b.py:164-202 | the bar exists exactly when every block has a model (otherwise `models[0]` fails); it has `width` slots; every twelfth slot is the marker, and every other slot shows the last covering block's glyph |
| Timeline.ChooseGlyph | b.py:179-186 | a block gets a glyph exactly when it has a model: mixed with several models, else by substring of its only model |
| Timeline.Paint | b.py:189-191 | the fill loop writes the glyph into the slots from the start for the span, clipped to the bar, and leaves every other slot as it was |
| Timeline.AddMarkers | b.py:194-202 | the marked bar has one entry per slot, the marker on every twelfth slot and the slot's glyph elsewhere |
| Timeline.MidnightOpusHour | b.py:175-191 | a one-hour Opus block starting at midnight fills slots 0 and 1 and no others |
| Timeline.OpusGlyph | b.py:179-186 | a block whose only model is opus-4 is drawn with the Opus glyph |
| Numbers.GroupCorrect | b.py:160-162 | grouping digits only inserts commas: removing them gives the digits back, and the result is well grouped, with a leading group of one to three digits and then groups of three |
| Numbers.FormatNumberRoundTrip | b.py:160-162 | a formatted number has a minus sign exactly when it is negative, is well grouped after the sign, and reads back as the number |
| Numbers.FormatNumber | b.py:160-162 | the `{:,}` text of an integer; `FormatNumberRoundTrip` states its sign, its grouping and that it reads back as the number |
| Numbers.FormatMillion | b.py:162 | -1234567 is written -1,234,567 |
| Numbers.CostColor | b.py:204-211 | the colour is red exactly from $50, yellow exactly from $20 to below $50, green exactly below $20 |
| Numbers.CostColorMonotone | b.py:204-211 | a larger cost never gets a milder colour |
| Table.WeekdaySymbol | b.py:154-158 | each weekday number maps to a one-character symbol |
| Table.WeekdaySymbolsDistinct | b.py:156-158 | two weekdays get the same symbol exactly when they are the same day |
| Sorting.Sort | b.py:276-280 | sorting returns a permutation of its input |
| Sorting.SortSorted | b.py:276-280 | the sorted list is ordered by the key |
| Sorting.SortStable | b.py:276-280 | items with equal keys keep their original relative order |
| Table.Items | b.py:276-277 | `daily_data.items()` pairs each key, in insertion order, with its entry |
| Table.SliceTo | b.py:282-283 | `s[:n]` is a prefix of `s`: of length `n` capped at the length for `n` at least 0; for negative `n`, `n` items shorter |
| Table.Take | b.py:282-283 | the limit keeps a prefix, and a zero or absent limit keeps everything |
| Table.EffectiveLimit | b.py:584 | a non-zero limit argument is used as given; otherwise the limit is 10 with a sort key and none without one |
| Table.Passes | b.py:295-298 | the chronological filter: high usage keeps days of at least 300 minutes, high cost days of at least $50, and no filter keeps every day; `ChronologicalPath` states its effect |
| Table.SelectRows | b.py:273-300 | the day rows in print order; `SortedPath`, `SortedPathStable`, `DefaultSortedLimit` and `ChronologicalPath` state both paths |
| Table.ChronologicalMembers | b.py:291-300 | the chronological rows are exactly the days passing the filter, each with its own entry |
| Table.ChronologicalOrder | b.py:289-300 | the chronological rows keep the strictly ascending order of the dates they come from |
| Table.ChronologicalPath | b.py:287-300 | without a sort key, the rows are exactly the days passing the filter, in strictly ascending date order, whatever the limit |
| Table.SortedDatesStrict | b.py:289 | `sorted()` of the distinct date keys is strictly ascending |
| Table.SortedPath | b.py:273-286 | with a sort key, the rows are days of the table, heaviest first; no day left out outweighs a day shown; a positive limit shows that many days, or all of them when there are fewer; no filter applies |
| Table.SortedPathStable | b.py:276-280 | among the shown days of equal weight, those first in `daily_data` come first, and none of them is skipped |
| Table.DefaultSortedLimit | b.py:584 | with a sort key and no limit argument, min(10, number of days) rows are shown |
| Summary.CollectModelStats | b.py:359-372 | the summary loops build the tally the specification function defines |
| Summary.CountBlockModels | b.py:360-372 | the inner loop creates an entry for a model seen for the first time, then adds one use and the block's duration, tokens and cost |
| Summary.CountUse | b.py:361-372 | one pass for one model creates a zero entry the first time the model appears, then adds one use and the block's totals |
| Summary.TallyModelsEffect | b.py:360-372 | a block without repeated models adds one use to each of its models and leaves every other model's statistics alone |
| Summary.TallyCorrect | b.py:357-372 | each model's statistics are the count, duration, tokens and cost of the blocks that list it; the keys are exactly the models used, each once |
| Summary.TallyFirstUse | b.py:359-372 | the keys of `model_stats` are the models used, in the order the loops first meet them: block by block, and within a block in the order of its model list |
| Summary.StatRows | b.py:377 | `model_stats.items()` pairs each model, in insertion order, with its statistics |
| Summary.SummaryRowsCorrect | b.py:357-377 | the summary rows are in descending cost order and are exactly the used models, each paired with the count and totals of its blocks |
| Summary.SummaryRowsStable | b.py:359-377 | models of equal cost keep the dict's key order, which is the order of their first use |
| Summary.SummaryRows | b.py:357-377 | the summary rows are the tally's items sorted by cost, descending; `SummaryRowsCorrect` and `SummaryRowsStable` state their content and order |
| Session.WindowStartHour | b.py:395-396 | the window starts at a multiple of five hours no later than the current hour, less than five hours before it |
| Session.CurrentWindow | b.py:395-406 | the computed window start, reset time and reset hour are those of the current hour's five-hour window |
| Session.WindowShape | b.py:395-406 | the window is five hours long and holds the current minute |
| Session.LateWindowResetsAtOne | b.py:397-402 | the reset moves to the next day exactly when the hour is 20 or later, and then it is at 01:00 |
| Session.WindowBlocksMembers | b.py:404-411 | exactly the blocks starting in [window start, reset) are selected, and each starts less than five hours before the reset |
| Session.LastWindowOverlapsNext | b.py:395-411 | a block starting at 00:30 is counted both at 23:30 the evening before and at 00:30 |
| Session.SelectSessions | b.py:405-411 | the selection loop keeps, in order, the blocks whose start lies in the interval |
| Session.StartingBetweenMembers | b.py:408-411 | a block is selected exactly when it is a loaded block starting in the interval |
| Session.CountModels | b.py:418-421 | the counting loops build the counter the specification function defines |
| Session.CountAllAgrees | b.py:418-421 | the counter has the model summary's keys, in the same order, and each count is the summary's use count |
| Session.CountBlock | b.py:420-421 | the inner counting loop adds one to each of the block's models, starting new models at zero |
| Session.CountsAreUses | b.py:418-421 | each model's count is the number of window blocks listing it, and the counted models are exactly those used |
| Session.FirstMaxIndex | b.py:423 | the chosen position holds a largest count, and every earlier position holds a strictly smaller one |
| Session.PrimaryModelIsMostUsed | b.py:423 | the primary model is "N/A" exactly when no model was counted; otherwise it is a counted model used at least as often as any other, and every model before it in the counter's key order is used strictly less often |
| Session.PrimaryModel | b.py:423 | the most used model, the first in key order among equals, or "N/A" for an empty counter; `PrimaryModelIsMostUsed` states it |
| Session.WindowBlocks | b.py:404-411 | the blocks starting in the current window, in order; `WindowBlocksMembers` states which |
| Session.RemainingBounds | b.py:429 | the time left until the reset is positive and at most five hours |
| Session.TimeRemainingText | b.py:429-440 | the remaining-time text is the hours and minutes left until the reset |
| Session.RemainingSplit | b.py:429-431 | the shown hours are at most five and the minutes below 60; at five hours the minutes are zero; together they are the whole minutes left |
| Scenarios.SingleOpusHour | b.py:79-202 | a claude-opus-4 block from 00:00 to 01:00 with 1000 tokens and $5.00: its duration is 60 minutes, its models are opus-4, it fills slots 0 and 1 and no others, its tokens print as 1,000, and its cost is green |
| Scenarios.TwoModelsOneDay | b.py:128-152 | two blocks on one date using opus and sonnet: the day holds both blocks and both short model names, and the summary lists both models, the costlier first |

## Left out

- Input and output: the whole of `main` except the limit default (b.py:465-590); argument parsing, reading the file or standard input, `json.load` and the exit codes; every `print_*` layout, the header, legend, statistics and day-detail views, and the locale setup (b.py:22-26).
- The JSON schema is not checked: a missing key raises `KeyError` in the source; here, decoding is outside the model, and entries arrive as typed records.
- ANSI colours (b.py:48-67): the bar is a sequence of glyph tokens and a colour is a `Color` value. In colour mode the source wraps each marker in escape codes, so its text is longer than `width` characters; the model's bar has exactly `width` glyphs.
- Date and time library calls: ISO-8601 parsing, `strftime`, `strptime`, `datetime.now()` and `date.weekday()` (b.py:88-93, b.py:157, b.py:392, b.py:409). Timestamps, day numbers, the weekday number and the current time are inputs.
- Time zones: the source compares block start times, in the input's UTC offset, with the local `now()`. The model treats both as one naive wall-clock frame.
- Floating point: costs are integer cents, so float rounding of the sums is not modelled. `usage_percent` (b.py:426) and its colour are left out. `MAX_COST_5H` (b.py:389) is never used by the source.
- Session.HoursRemaining: `total_seconds()` is a float in the source; the model divides exact microseconds, which ignores float rounding of the remaining time.
- Records.ParseClock: `int()` is modelled on plain digit strings only; a sign, blanks or `_` are not accepted.
- Loader.Distinct: the order of `list(set(...))` is not fixed in the source: string hashing, and with it the set order, changes from run to run. The model keeps first occurrences instead. `Distinct`'s own contract promises only the set and no duplicates, but these contracts depend on the order the model fixes:
  - `Viewer.ClaudeCodeViewer.CurrentSessionInfo`: its `model` is `PrimaryModel(CountAll(...))`. Two models first seen in the same block with equal counts give a run-dependent primary model in the source.
  - `Viewer.ClaudeCodeViewer.ModelSummary`: its rows equal `SummaryRows(blocks)`, whose ties follow the key order.
  - `Session.CountAllAgrees`: it equates the two counters' key orders.
  - `Summary.SummaryRowsStable` and `Summary.TallyFirstUse`: the tie order, and the key order within one block.
- Records.WallTime: `date` and `day` are given independently. Grouping keys on `date`, and the session window compares `day`. The model assumes that the date library gives the same date exactly for the same day number. No contract states that consistency.
- Table.SortedPath: only the two sort keys `main` can select ('cost' and 'duration') exist; the source's fallback to an empty list for another key is not reachable from the command line.
- The `models_str` truncation in `_print_day_row` (b.py:313-315) is computed but never printed, so it is not modelled.
