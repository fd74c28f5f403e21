/**
 * The 24-hour timeline bar of one day: `width` half-hour slots, each
 * showing the glyph of the last block that covers it, with a marker on
 * every twelfth slot. Glyphs are tokens; their ANSI rendering is not modelled.
 */
module Timeline {
  import opened Wrappers
  import opened Text
  import opened Records
  import opened Loader

  datatype Glyph = Opus | Sonnet | Mixed | Synthetic | Empty | Marker

  const DEFAULT_WIDTH: nat := 48

  /** The glyph of a block: mixed for several models, else by substring of its only model. */
  function GlyphOf(b: Block): Glyph
    requires b.models != []
  {
    if |b.models| > 1 then Mixed
    else if Contains(b.models[0], "synthetic") then Synthetic
    else if Contains(b.models[0], "sonnet") then Sonnet
    else Opus
  }

  /** The half-hour slot the block starts in, computed from the hour and
      minute read back from its start text. */
  function StartSlot(b: Block): (slot: nat)
    ensures slot < DEFAULT_WIDTH
  {
    (b.startTime.hour * 60 + b.startTime.minute) / 30
  }

  /** The start slot's half hour holds the block's start minute of the day. */
  lemma StartSlotHalfHour(b: Block)
    ensures StartSlot(b) * 30 <= b.startTime.hour * 60 + b.startTime.minute < StartSlot(b) * 30 + 30
  {
  }

  /** The number of slots a block fills: whole half hours of its duration, at least one. */
  function Span(b: Block): (n: nat)
    ensures n >= 1
  {
    var halfHours := TruncDiv(b.durationMinutes, 30);
    if halfHours > 1 then halfHours else 1
  }

  /** A block of 30 minutes or more fills its whole half hours; one under an hour fills one slot. */
  lemma SpanHalfHours(b: Block)
    ensures b.durationMinutes >= 30 ==> Span(b) * 30 <= b.durationMinutes < Span(b) * 30 + 30
    ensures b.durationMinutes < 60 ==> Span(b) == 1
  {
  }

  /** Whether the block writes slot j of a bar of the given width. */
  predicate Covers(b: Block, j: int, width: nat) {
    StartSlot(b) <= j < StartSlot(b) + Span(b) && j < width
  }

  predicate AllHaveModels(bs: seq<Block>) {
    forall k :: 0 <= k < |bs| ==> bs[k].models != []
  }

  /** The data glyph of slot j: the last block's glyph if it covers j, else the earlier blocks'. */
  function SlotGlyph(bs: seq<Block>, j: int, width: nat): Glyph
    requires AllHaveModels(bs)
  {
    if bs == [] then Empty
    else
      var last := bs[|bs| - 1];
      if Covers(last, j, width) then GlyphOf(last) else SlotGlyph(bs[..|bs| - 1], j, width)
  }

  /** Later blocks win: a slot shows the glyph of the last block covering it, and is empty when none does. */
  lemma SlotGlyphIsLastCover(bs: seq<Block>, j: int, width: nat)
    requires AllHaveModels(bs)
    ensures (forall k :: 0 <= k < |bs| ==> !Covers(bs[k], j, width)) ==> SlotGlyph(bs, j, width) == Empty
    ensures forall k :: 0 <= k < |bs| && Covers(bs[k], j, width)
                        && (forall l :: k < l < |bs| ==> !Covers(bs[l], j, width))
                        ==> SlotGlyph(bs, j, width) == GlyphOf(bs[k])
  {
    if forall k :: 0 <= k < |bs| ==> !Covers(bs[k], j, width) {
      SlotGlyphUncovered(bs, j, width);
    }
    forall k | 0 <= k < |bs| && Covers(bs[k], j, width)
               && (forall l :: k < l < |bs| ==> !Covers(bs[l], j, width))
      ensures SlotGlyph(bs, j, width) == GlyphOf(bs[k])
    {
      SlotGlyphLastCover(bs, j, width, k);
    }
  }

  lemma AllHaveModelsPrefix(bs: seq<Block>, n: nat)
    requires AllHaveModels(bs) && n <= |bs|
    ensures AllHaveModels(bs[..n])
  {
    forall k | 0 <= k < n ensures bs[..n][k].models != [] {
      assert bs[..n][k] == bs[k];
    }
  }

  lemma {:induction false} SlotGlyphUncovered(bs: seq<Block>, j: int, width: nat)
    requires AllHaveModels(bs)
    requires forall k :: 0 <= k < |bs| ==> !Covers(bs[k], j, width)
    ensures SlotGlyph(bs, j, width) == Empty
  {
    if bs != [] {
      var n := |bs| - 1;
      AllHaveModelsPrefix(bs, n);
      forall k | 0 <= k < n ensures !Covers(bs[..n][k], j, width) {
        assert bs[..n][k] == bs[k];
      }
      SlotGlyphUncovered(bs[..n], j, width);
      assert !Covers(bs[n], j, width);
    }
  }

  lemma {:induction false} SlotGlyphLastCover(bs: seq<Block>, j: int, width: nat, k: int)
    requires AllHaveModels(bs)
    requires 0 <= k < |bs| && Covers(bs[k], j, width)
    requires forall l :: k < l < |bs| ==> !Covers(bs[l], j, width)
    ensures SlotGlyph(bs, j, width) == GlyphOf(bs[k])
    decreases |bs|
  {
    var n := |bs| - 1;
    if k < n {
      AllHaveModelsPrefix(bs, n);
      var init := bs[..n];
      assert !Covers(bs[n], j, width);
      assert init[k] == bs[k];
      forall l | k < l < |init| ensures !Covers(init[l], j, width) {
        assert init[l] == bs[l];
      }
      SlotGlyphLastCover(init, j, width, k);
    }
  }

  /** `_get_timeline_bar`. None models the IndexError raised on
      `block.models[0]` when a block has no models. */
  method TimelineBar(bs: seq<Block>, width: nat) returns (bar: Option<seq<Glyph>>)
    ensures bar.Some? <==> AllHaveModels(bs)
    ensures bar.Some? ==> |bar.value| == width
    ensures bar.Some? ==> forall j :: 0 <= j < width ==>
      bar.value[j] == if j % 12 == 0 then Marker else SlotGlyph(bs, j, width)
  {
    var timeline := new Glyph[width](_ => Empty);
    for k := 0 to |bs|
      invariant AllHaveModels(bs[..k])
      invariant forall j :: 0 <= j < width ==> timeline[j] == SlotGlyph(bs[..k], j, width)
    {
      var block := bs[k];
      ParseClockOfFormat(block.startTime);
      var clock := ParseClock(Format(block.startTime)).value;
      var hour, minute := clock.0, clock.1;
      var startPos := (hour * 60 + minute) / 30;
      var halfHours := TruncDiv(block.durationMinutes, 30);
      var durationBlocks := if halfHours > 1 then halfHours else 1;
      var glyph := ChooseGlyph(block);
      if glyph.None? {
        return None;
      }
      var count := if durationBlocks < width - startPos then durationBlocks else width - startPos;
      Paint(timeline, startPos, count, glyph.value);
      assert bs[..k + 1] == bs[..k] + [block];
      assert bs[..k + 1][..k] == bs[..k];
    }
    assert bs[..|bs|] == bs;
    var marked := AddMarkers(timeline);
    return Some(marked);
  }

  /** The glyph of one block; None where `block.models[0]` fails. */
  method ChooseGlyph(block: Block) returns (glyph: Option<Glyph>)
    ensures glyph.Some? <==> block.models != []
    ensures glyph.Some? ==> glyph.value == GlyphOf(block)
  {
    if |block.models| > 1 {
      glyph := Some(Mixed);
    } else if |block.models| == 0 {
      glyph := None;
    } else if Contains(block.models[0], "synthetic") {
      glyph := Some(Synthetic);
    } else if Contains(block.models[0], "sonnet") {
      glyph := Some(Sonnet);
    } else {
      glyph := Some(Opus);
    }
  }

  /** Writes the glyph into `count` slots from `startPos`, skipping slots past the end. */
  method Paint(timeline: array<Glyph>, startPos: nat, count: int, glyph: Glyph)
    modifies timeline
    ensures forall j :: 0 <= j < timeline.Length ==>
      timeline[j] == if startPos <= j < startPos + count then glyph else old(timeline[j])
  {
    var i := 0;
    while i < count
      invariant 0 <= i <= (if count >= 0 then count else 0)
      invariant forall j :: 0 <= j < timeline.Length ==>
        timeline[j] == if startPos <= j < startPos + i then glyph else old(timeline[j])
    {
      if startPos + i < timeline.Length {
        timeline[startPos + i] := glyph;
      }
      i := i + 1;
    }
  }

  /** The marker loop: every twelfth slot becomes the marker. */
  method AddMarkers(timeline: array<Glyph>) returns (marked: seq<Glyph>)
    ensures |marked| == timeline.Length
    ensures forall j :: 0 <= j < timeline.Length ==> marked[j] == if j % 12 == 0 then Marker else timeline[j]
  {
    marked := [];
    for i := 0 to timeline.Length
      invariant |marked| == i
      invariant forall j :: 0 <= j < i ==> marked[j] == if j % 12 == 0 then Marker else timeline[j]
    {
      if i % 12 == 0 {
        marked := marked + [Marker];
      } else {
        marked := marked + [timeline[i]];
      }
    }
  }

  /** A one-hour Opus block starting at midnight fills slots 0 and 1 and nothing else
      (on the rendered bar slot 0 then shows the marker). */
  lemma MidnightOpusHour(b: Block)
    requires b.startTime.hour == 0 && b.startTime.minute == 0
    requires b.durationMinutes == 60 && b.models == ["opus-4"]
    ensures SlotGlyph([b], 0, DEFAULT_WIDTH) == Opus && SlotGlyph([b], 1, DEFAULT_WIDTH) == Opus
    ensures forall j :: 2 <= j < DEFAULT_WIDTH ==> SlotGlyph([b], j, DEFAULT_WIDTH) == Empty
  {
    OpusGlyph(b);
    assert StartSlot(b) == 0;
    assert Span(b) == 2;
    assert [b][..0] == [];
  }

  /** The short Opus name is drawn as Opus. */
  lemma OpusGlyph(b: Block)
    requires b.models == ["opus-4"]
    ensures GlyphOf(b) == Opus
  {
    if Contains("opus-4", "synthetic") {
      ContainsChars("opus-4", "synthetic", 'y');
    }
    if Contains("opus-4", "sonnet") {
      ContainsChars("opus-4", "sonnet", 'n');
    }
  }
}
