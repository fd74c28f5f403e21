/**
 * The records the viewer works on. Timestamps arrive already parsed (ISO-8601
 * parsing is done by the date library): a timestamp carries its wall-clock
 * fields and its instant, the latter used only for differences.
 */
module Records {
  import opened Wrappers
  import opened Text

  type Hour = h: nat | h < 24
  type Minute = m: nat | m < 60

  /** The `%Y-%m-%d` text of a date; it never contains a blank. */
  type DateText = s: string | ' ' !in s

  /** Wall-clock fields of a timestamp in its own UTC offset. `day` is the
      day number of `date` (consecutive dates have consecutive numbers). */
  datatype WallTime = WallTime(date: DateText, day: int, hour: Hour, minute: Minute)

  /** A parsed timestamp; `instant` counts microseconds since the epoch (UTC). */
  datatype Timestamp = Timestamp(wall: WallTime, instant: int)

  /** One entry of the input `blocks` array, with its timestamps parsed and
      its cost in integer cents. */
  datatype RawBlock = RawBlock(
    id: string,
    startTime: Timestamp,
    endTime: Timestamp,
    actualEndTime: Option<Timestamp>,
    isActive: bool,
    isGap: bool,
    entries: int,
    totalTokens: int,
    costCents: int,
    models: seq<string>)

  /** The input document; `blocks` is None when the key is absent. */
  datatype Document = Document(blocks: Option<seq<RawBlock>>)

  /** A loaded usage session (the `Block` dataclass). */
  datatype Block = Block(
    id: string,
    startTime: WallTime,
    endTime: WallTime,
    actualEndTime: Option<Timestamp>,
    isActive: bool,
    isGap: bool,
    entries: int,
    totalTokens: int,
    costCents: int,
    models: seq<string>,
    durationMinutes: int)

  /** `strftime('%Y-%m-%d %H:%M')`, the text a block keeps as its start and end time. */
  function Format(w: WallTime): string {
    w.date + " " + Clock(w)
  }

  /** The `%H:%M` part of Format. */
  function Clock(w: WallTime): (s: string)
    ensures ' ' !in s
  {
    Pad2(w.hour) + ":" + Pad2(w.minute)
  }

  /** `text.split(' ')[0]`. */
  function DatePart(text: string): string {
    Split(text, ' ')[0]
  }

  /** `text.split(' ')[1].split(':')` followed by `int()` on the first two
      fields; None where Python raises IndexError or ValueError. */
  function ParseClock(text: string): Option<(nat, nat)> {
    var fields := Split(text, ' ');
    if |fields| < 2 then None
    else
      var parts := Split(fields[1], ':');
      if |parts| < 2 then None
      else
        match (ParseNat(parts[0]), ParseNat(parts[1]))
        case (Some(h), Some(m)) => Some((h, m))
        case _ => None
  }

  /** Splitting the formatted text on its blank gives the date and the clock. */
  lemma FormatFields(w: WallTime)
    ensures Split(Format(w), ' ') == [w.date, Clock(w)]
  {
    assert Format(w) == w.date + [' '] + Clock(w);
    SplitAtFirst(w.date, ' ', Clock(w));
    SplitNoSep(Clock(w), ' ');
  }

  /** The date key the viewer cuts from a block's start text is the block's date. */
  lemma DatePartOfFormat(w: WallTime)
    ensures DatePart(Format(w)) == w.date
  {
    FormatFields(w);
  }

  /** Re-reading hour and minute from the formatted text gives them back. */
  lemma ParseClockOfFormat(w: WallTime)
    ensures ParseClock(Format(w)) == Some((w.hour, w.minute))
  {
    FormatFields(w);
    assert Clock(w) == Pad2(w.hour) + [':'] + Pad2(w.minute);
    SplitAtFirst(Pad2(w.hour), ':', Pad2(w.minute));
    SplitNoSep(Pad2(w.minute), ':');
    Pad2RoundTrip(w.hour);
    Pad2RoundTrip(w.minute);
  }

  /** Minutes since day number 0 at 00:00, for comparing naive wall times. */
  function WallMinutes(w: WallTime): int {
    w.day * 1440 + w.hour * 60 + w.minute
  }
}
