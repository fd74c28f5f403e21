/**
 * Two small end-to-end cases of the viewer, followed from the input
 * entries through loading, grouping, the timeline and the summary.
 */
module Scenarios {
  import opened Wrappers
  import opened Text
  import opened Records
  import opened Loader
  import opened Aggregate
  import opened Timeline
  import opened Numbers
  import opened Summary
  import opened Sorting

  lemma OpusNameSimplified()
    ensures Simplify("claude-opus-4") == "opus-4"
  {
    OpusFourNames();
    assert "claude-opus-4"[7..] == "opus-4";
    ContainsInSuffix("claude-opus-4", 7, "opus");
  }

  lemma ShortNamesSimplified()
    ensures Simplify("opus") == "opus-4" && Simplify("sonnet") == "sonnet-4"
  {
    assert StartsWith("opus", "opus");
    assert StartsWith("sonnet", "sonnet");
    if Contains("sonnet", "opus") {
      ContainsChars("sonnet", "opus", 'p');
    }
  }

  lemma ThousandGrouped()
    ensures FormatNumber(1000) == "1,000"
  {
    assert Digits(1) == "1";
    assert Digits(10) == "10";
    assert Digits(100) == "100";
    assert Digits(1000) == "1000";
    assert Group("1") == "1";
  }

  /** One block from midnight to one o'clock using claude-opus-4, with 1000
      tokens and $5.00: it lasts 60 minutes, fills the first two slots of
      its day's bar with the Opus glyph (the first under the marker), and
      its tokens print as 1,000 with a green cost. */
  lemma SingleOpusHour(r: RawBlock)
    requires !r.isGap && r.actualEndTime.None?
    requires r.startTime.wall.hour == 0 && r.startTime.wall.minute == 0
    requires r.endTime.instant - r.startTime.instant == 60 * MICROS_PER_MINUTE
    requires r.models == ["claude-opus-4"] && r.totalTokens == 1000 && r.costCents == 500
    ensures var bs := Loaded([r]);
      && |bs| == 1 && bs[0].durationMinutes == 60 && bs[0].models == ["opus-4"]
      && DatesInOrder(bs) == [r.startTime.wall.date]
      && SlotGlyph(bs, 0, DEFAULT_WIDTH) == Opus && SlotGlyph(bs, 1, DEFAULT_WIDTH) == Opus
      && (forall j :: 2 <= j < DEFAULT_WIDTH ==> SlotGlyph(bs, j, DEFAULT_WIDTH) == Empty)
      && FormatNumber(bs[0].totalTokens) == "1,000" && CostColor(bs[0].costCents) == Green
  {
    assert [r][..0] == [];
    var b := ToBlock(r);
    assert Loaded([r]) == [b];
    OpusNameSimplified();
    assert SimplifiedAll(r.models) == ["opus-4"];
    assert Distinct(["opus-4"]) == ["opus-4"] by {
      assert ["opus-4"][..0] == [];
    }
    assert [b][..0] == [];
    MidnightOpusHour(b);
    ThousandGrouped();
  }

  /** Two blocks on one day, one using "opus" and one "sonnet": the day's
      model set holds both short names, and the summary lists both, the
      costlier first. */
  lemma TwoModelsOneDay(r1: RawBlock, r2: RawBlock)
    requires !r1.isGap && !r2.isGap && r1.startTime.wall.date == r2.startTime.wall.date
    requires r1.models == ["opus"] && r2.models == ["sonnet"]
    ensures var bs := Loaded([r1, r2]); var d := r1.startTime.wall.date;
      && d in Grouped(bs) && Grouped(bs)[d].models == {"opus-4", "sonnet-4"}
      && Grouped(bs)[d].blocks == bs && |bs| == 2
      && var rows := SummaryRows(bs);
         && |rows| == 2 && rows[0].1.cost >= rows[1].1.cost
         && {rows[0].0, rows[1].0} == {"opus-4", "sonnet-4"}
  {
    var b1, b2 := LoadTwo(r1, r2);
    OneDayOfTwo(b1, b2);
    SummaryOfTwo(b1, b2);
  }

  lemma LoadTwo(r1: RawBlock, r2: RawBlock) returns (b1: Block, b2: Block)
    requires !r1.isGap && !r2.isGap
    requires r1.models == ["opus"] && r2.models == ["sonnet"]
    ensures Loaded([r1, r2]) == [b1, b2]
    ensures b1.startTime == r1.startTime.wall && b2.startTime == r2.startTime.wall
    ensures b1.models == ["opus-4"] && b2.models == ["sonnet-4"]
  {
    ShortNamesSimplified();
    b1, b2 := ToBlock(r1), ToBlock(r2);
    LoadedPair(r1, r2);
    SingleModel(r1);
    SingleModel(r2);
  }

  lemma LoadedPair(r1: RawBlock, r2: RawBlock)
    requires !r1.isGap && !r2.isGap
    ensures Loaded([r1, r2]) == [ToBlock(r1), ToBlock(r2)]
  {
    assert [r1, r2][..1] == [r1] && [r1][..0] == [];
    assert Loaded([r1]) == [ToBlock(r1)];
  }

  /** An entry with one raw model yields a block with that model's short name alone. */
  lemma SingleModel(r: RawBlock)
    requires |r.models| == 1
    ensures ToBlock(r).models == [Simplify(r.models[0])]
  {
    var x := Simplify(r.models[0]);
    assert r.models[..0] == [];
    assert SimplifiedAll(r.models) == [x];
    DistinctSingleton(x);
  }

  lemma DistinctSingleton(x: string)
    ensures Distinct([x]) == [x]
  {
    assert [x][..0] == [];
  }

  lemma OneDayOfTwo(b1: Block, b2: Block)
    requires b1.startTime.date == b2.startTime.date
    requires b1.models == ["opus-4"] && b2.models == ["sonnet-4"]
    ensures var d := b1.startTime.date;
      d in Grouped([b1, b2]) && Grouped([b1, b2])[d].models == {"opus-4", "sonnet-4"}
      && Grouped([b1, b2])[d].blocks == [b1, b2]
  {
    var bs := [b1, b2];
    var d := b1.startTime.date;
    assert bs[..1] == [b1] && [b1][..0] == [];
    assert DateKey(b1) == d && DateKey(b2) == d;
    assert Grouped([b1]) == map[d := AddToDay(EMPTY_DAY, b1)];
    assert Grouped(bs)[d] == AddToDay(AddToDay(EMPTY_DAY, b1), b2);
    assert (set x | x in b1.models) == {"opus-4"};
    assert (set x | x in b2.models) == {"sonnet-4"};
  }

  lemma SummaryOfTwo(b1: Block, b2: Block)
    requires b1.models == ["opus-4"] && b2.models == ["sonnet-4"]
    ensures var rows := SummaryRows([b1, b2]);
      && |rows| == 2 && rows[0].1.cost >= rows[1].1.cost
      && {rows[0].0, rows[1].0} == {"opus-4", "sonnet-4"}
  {
    var s1, s2 := AddUse(ZERO_STAT, b1), AddUse(ZERO_STAT, b2);
    TallyOfTwo(b1, b2);
    var t := TallyBlocks([b1, b2]);
    var i1: (string, ModelStat), i2: (string, ModelStat) := ("opus-4", s1), ("sonnet-4", s2);
    assert StatRows(t.order, t.stats) == [i1, i2];
    SortPair(i1, i2, Costlier());
  }

  lemma SortPair<T>(a: T, b: T, le: (T, T) -> bool)
    ensures Sort([a, b], le) == if le(a, b) then [a, b] else [b, a]
  {
    assert [a, b][..1] == [a] && [a][..0] == [];
    assert Sort([a], le) == Insert([], a, le) == [a];
    assert Sort([a, b], le) == Insert([a], b, le);
    assert Insert([a], b, le) == if le(a, b) then [a] + [b] else Insert([], b, le) + [a];
  }

  lemma TallyOfTwo(b1: Block, b2: Block)
    requires b1.models == ["opus-4"] && b2.models == ["sonnet-4"]
    ensures TallyBlocks([b1, b2]) == Tally(["opus-4", "sonnet-4"],
              map["opus-4" := AddUse(ZERO_STAT, b1), "sonnet-4" := AddUse(ZERO_STAT, b2)])
  {
    var t0 := Tally([], map[]);
    assert [b1, b2][..1] == [b1] && [b1][..0] == [];
    assert ["opus-4"][..0] == [] && ["sonnet-4"][..0] == [];
    var t1 := Record(t0, "opus-4", b1);
    assert TallyModels(t0, b1, b1.models) == Record(TallyModels(t0, b1, []), "opus-4", b1);
    assert TallyBlocks([b1]) == TallyModels(t0, b1, b1.models);
    assert "sonnet-4" != "opus-4";
    assert TallyModels(t1, b2, b2.models) == Record(TallyModels(t1, b2, []), "sonnet-4", b2);
    assert TallyBlocks([b1, b2]) == TallyModels(TallyBlocks([b1]), b2, b2.models);
  }
}
