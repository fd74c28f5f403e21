/**
 * How `load_from_json` turns one input entry into a Block: which end time
 * counts, the whole-minute duration, and the simplified, de-duplicated
 * model names. The loading loop itself is ClaudeCodeViewer.LoadFromJson.
 */
module Loader {
  import opened Wrappers
  import opened Text
  import opened Records

  /** Maps a raw model identifier to its short name; first matching substring wins. */
  function Simplify(model: string): string {
    if Contains(model, "opus") then "opus-4"
    else if Contains(model, "sonnet") then "sonnet-4"
    else if Contains(model, "synthetic") then "synthetic"
    else model
  }

  lemma OpusFourNames()
    ensures Contains("opus-4", "opus")
    ensures !Contains("sonnet-4", "opus") && Contains("sonnet-4", "sonnet")
    ensures !Contains("synthetic", "opus") && !Contains("synthetic", "sonnet") && Contains("synthetic", "synthetic")
  {
    OpusShortName();
    SonnetShortName();
    SyntheticShortName();
  }

  lemma OpusShortName()
    ensures Contains("opus-4", "opus")
  {
    assert StartsWith("opus-4", "opus");
  }

  lemma SonnetShortName()
    ensures !Contains("sonnet-4", "opus") && Contains("sonnet-4", "sonnet")
  {
    assert StartsWith("sonnet-4", "sonnet");
    if Contains("sonnet-4", "opus") {
      ContainsChars("sonnet-4", "opus", 'p');
    }
  }

  lemma SyntheticShortName()
    ensures !Contains("synthetic", "opus") && !Contains("synthetic", "sonnet") && Contains("synthetic", "synthetic")
  {
    assert StartsWith("synthetic", "synthetic");
    if Contains("synthetic", "opus") {
      ContainsChars("synthetic", "opus", 'o');
    }
    if Contains("synthetic", "sonnet") {
      ContainsChars("synthetic", "sonnet", 'o');
    }
  }

  /** Simplifying an already simplified name changes nothing. */
  lemma SimplifyIdempotent(model: string)
    ensures Simplify(Simplify(model)) == Simplify(model)
  {
    OpusFourNames();
    var short := Simplify(model);
    if Contains(model, "opus") {
      assert short == "opus-4";
    } else if Contains(model, "sonnet") {
      assert short == "sonnet-4";
    } else if Contains(model, "synthetic") {
      assert short == "synthetic";
    } else {
      assert short == model;
    }
  }

  /** Every simplified name is one of the three short names or a name none of the three rules touches. */
  lemma SimplifyRange(model: string)
    ensures Simplify(model) in {"opus-4", "sonnet-4", "synthetic"}
         || (Simplify(model) == model && !Contains(model, "opus") && !Contains(model, "sonnet") && !Contains(model, "synthetic"))
  {
  }

  /** The model loop of load_from_json: one simplified name per raw name, in order. */
  method SimplifyModels(raw: seq<string>) returns (models: seq<string>)
    ensures |models| == |raw|
    ensures forall i :: 0 <= i < |raw| ==> models[i] == Simplify(raw[i])
  {
    models := [];
    for i := 0 to |raw|
      invariant |models| == i
      invariant forall j :: 0 <= j < i ==> models[j] == Simplify(raw[j])
    {
      models := models + [Simplify(raw[i])];
    }
  }

  /** The same mapping as a function, for use in specifications. */
  function SimplifiedAll(raw: seq<string>): (models: seq<string>)
    ensures |models| == |raw|
    ensures forall i :: 0 <= i < |raw| ==> models[i] == Simplify(raw[i])
  {
    if raw == [] then [] else SimplifiedAll(raw[..|raw| - 1]) + [Simplify(raw[|raw| - 1])]
  }

  predicate NoDuplicates<T(==)>(s: seq<T>) {
    forall i, j :: 0 <= i < j < |s| ==> s[i] != s[j]
  }

  /** `list(set(names))`: the same names, each once. Python's set order is
      unspecified; this keeps first occurrences, and the contract promises
      nothing about order. */
  function Distinct<T(==)>(s: seq<T>): (r: seq<T>)
    ensures (set x | x in r) == (set x | x in s)
    ensures NoDuplicates(r)
  {
    if s == [] then []
    else
      var init := s[..|s| - 1];
      var r := Distinct(init);
      var last := s[|s| - 1];
      assert s == init + [last];
      assert (set x | x in s) == (set x | x in init) + {last};
      if last in r then r
      else
        assert (set x | x in r + [last]) == (set x | x in r) + {last};
        r + [last]
  }

  /** Python's `int(x)` on the quotient a / b: truncation toward zero. */
  function TruncDiv(a: int, b: int): (q: int)
    requires b > 0
    ensures a >= 0 ==> q * b <= a < q * b + b
    ensures a < 0 ==> q * b - b < a <= q * b
  {
    if a >= 0 then a / b else -((-a) / b)
  }

  /** `actualEndTime` when present, else `endTime`. */
  function EffectiveEnd(r: RawBlock): Timestamp {
    if r.actualEndTime.Some? then r.actualEndTime.value else r.endTime
  }

  const MICROS_PER_MINUTE := 60_000_000

  /** Whole minutes from start to the effective end, truncated toward zero. */
  function DurationMinutes(r: RawBlock): int {
    TruncDiv(EffectiveEnd(r).instant - r.startTime.instant, MICROS_PER_MINUTE)
  }

  /** The Block that load_from_json builds from one non-gap entry. */
  function ToBlock(r: RawBlock): Block {
    Block(r.id, r.startTime.wall, EffectiveEnd(r).wall, r.actualEndTime, r.isActive, r.isGap,
          r.entries, r.totalTokens, r.costCents, Distinct(SimplifiedAll(r.models)), DurationMinutes(r))
  }

  /** A name is among a raw list's simplified, de-duplicated names exactly
      when it simplifies some raw name; and such a name is a fixpoint of Simplify. */
  lemma SimplifiedMembers(raw: seq<string>, m: string)
    ensures m in Distinct(SimplifiedAll(raw)) <==> exists x :: x in raw && m == Simplify(x)
    ensures m in Distinct(SimplifiedAll(raw)) ==> Simplify(m) == m
  {
    var simplified := SimplifiedAll(raw);
    var names := Distinct(simplified);
    assert m in names <==> m in (set y | y in names);
    assert m in simplified <==> m in (set y | y in simplified);
    if m in simplified {
      SimplifiedFrom(raw, m);
    }
    if exists x :: x in raw && m == Simplify(x) {
      var x :| x in raw && m == Simplify(x);
      SimplifiedTo(raw, x);
    }
  }

  lemma SimplifiedFrom(raw: seq<string>, m: string)
    requires m in SimplifiedAll(raw)
    ensures exists x :: x in raw && m == Simplify(x)
    ensures Simplify(m) == m
  {
    var simplified := SimplifiedAll(raw);
    var i :| 0 <= i < |simplified| && simplified[i] == m;
    assert raw[i] in raw;
    SimplifyIdempotent(raw[i]);
  }

  lemma SimplifiedTo(raw: seq<string>, x: string)
    requires x in raw
    ensures Simplify(x) in SimplifiedAll(raw)
  {
    var i :| 0 <= i < |raw| && raw[i] == x;
    assert SimplifiedAll(raw)[i] == Simplify(x);
  }

  /** What ToBlock promises about the block it builds: the effective end, a
      duplicate-free list of simplified names of the entry's models, and a
      duration that is the elapsed time in whole minutes, truncated toward zero. */
  lemma ToBlockFields(r: RawBlock)
    ensures var b := ToBlock(r);
      && b.startTime == r.startTime.wall
      && b.endTime == (if r.actualEndTime.Some? then r.actualEndTime.value.wall else r.endTime.wall)
      && NoDuplicates(b.models)
      && (forall m :: m in b.models <==> exists x :: x in r.models && m == Simplify(x))
      && (forall m :: m in b.models ==> Simplify(m) == m)
      && var span := EffectiveEnd(r).instant - r.startTime.instant;
         (span >= 0 ==> 0 <= span - b.durationMinutes * MICROS_PER_MINUTE < MICROS_PER_MINUTE)
         && (span < 0 ==> -MICROS_PER_MINUTE < span - b.durationMinutes * MICROS_PER_MINUTE <= 0)
  {
    forall m {
      SimplifiedMembers(r.models, m);
    }
  }

  /** The blocks load_from_json keeps: the non-gap entries, converted, in input order. */
  function Loaded(raws: seq<RawBlock>): seq<Block> {
    if raws == [] then []
    else
      var last := raws[|raws| - 1];
      Loaded(raws[..|raws| - 1]) + (if last.isGap then [] else [ToBlock(last)])
  }

  /** Loading a concatenation loads each part in turn: input order is kept. */
  lemma {:induction false} LoadedAppend(a: seq<RawBlock>, b: seq<RawBlock>)
    ensures Loaded(a + b) == Loaded(a) + Loaded(b)
  {
    if b != [] {
      var init := b[..|b| - 1];
      assert (a + b)[..|a + b| - 1] == a + init;
      LoadedAppend(a, init);
    } else {
      assert a + b == a;
    }
  }

  /** Exactly the non-gap entries survive: every loaded block is the
      conversion of a non-gap entry, and every non-gap entry's conversion is loaded. */
  lemma {:induction false} LoadedExactlyNonGap(raws: seq<RawBlock>)
    ensures forall b :: b in Loaded(raws) ==> !b.isGap && exists r :: r in raws && !r.isGap && b == ToBlock(r)
    ensures forall r :: r in raws && !r.isGap ==> ToBlock(r) in Loaded(raws)
  {
    if raws != [] {
      var init := raws[..|raws| - 1];
      var last := raws[|raws| - 1];
      LoadedExactlyNonGap(init);
      assert raws == init + [last];
      assert forall r :: r in raws <==> r in init || r == last;
    }
  }

  /** No loaded block lists a model twice. */
  lemma LoadedModelsDistinct(raws: seq<RawBlock>)
    ensures forall i :: 0 <= i < |Loaded(raws)| ==> NoDuplicates(Loaded(raws)[i].models)
  {
    LoadedExactlyNonGap(raws);
    forall i | 0 <= i < |Loaded(raws)| ensures NoDuplicates(Loaded(raws)[i].models) {
      var b := Loaded(raws)[i];
      assert b in Loaded(raws);
      var r :| r in raws && !r.isGap && b == ToBlock(r);
      ToBlockFields(r);
    }
  }

  /** The sequence form of `for block_data in json_data.get('blocks', [])`. */
  function EntriesOf(doc: Document): seq<RawBlock> {
    if doc.blocks.Some? then doc.blocks.value else []
  }
}
