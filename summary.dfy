/**
 * `print_model_summary`: per model, the number of blocks that used it and
 * their total duration, tokens and cost, listed most expensive first.
 */
module Summary {
  import opened Records
  import opened Loader
  import opened Aggregate
  import opened Sorting

  datatype ModelStat = ModelStat(count: int, duration: int, tokens: int, cost: int)

  const ZERO_STAT := ModelStat(0, 0, 0, 0)

  /** `model_stats` with its keys in insertion order. */
  datatype Tally = Tally(order: seq<string>, stats: map<string, ModelStat>)

  /** The statistics of a model so far; a model not seen yet has zeroes. */
  function StatOf(t: Tally, m: string): ModelStat {
    if m in t.stats then t.stats[m] else ZERO_STAT
  }

  function AddUse(st: ModelStat, b: Block): ModelStat {
    ModelStat(st.count + 1, st.duration + b.durationMinutes, st.tokens + b.totalTokens, st.cost + b.costCents)
  }

  /** Counts one use of model m by block b. */
  function Record(t: Tally, m: string, b: Block): (r: Tally)
    requires forall x :: x in t.order <==> x in t.stats
    ensures forall x :: x in r.order <==> x in r.stats
  {
    Tally(if m in t.stats then t.order else t.order + [m], t.stats[m := AddUse(StatOf(t, m), b)])
  }

  /** The inner loop: every model of block b in turn. */
  function TallyModels(t: Tally, b: Block, ms: seq<string>): (r: Tally)
    requires forall x :: x in t.order <==> x in t.stats
    ensures forall x :: x in r.order <==> x in r.stats
  {
    if ms == [] then t else Record(TallyModels(t, b, ms[..|ms| - 1]), ms[|ms| - 1], b)
  }

  /** The outer loop: every block in turn, from an empty dict. */
  function TallyBlocks(bs: seq<Block>): (r: Tally)
    ensures forall x :: x in r.order <==> x in r.stats
  {
    if bs == [] then Tally([], map[])
    else
      var b := bs[|bs| - 1];
      TallyModels(TallyBlocks(bs[..|bs| - 1]), b, b.models)
  }

  /** The blocks that list model m, in order. */
  function Using(bs: seq<Block>, m: string): seq<Block> {
    if bs == [] then []
    else
      var b := bs[|bs| - 1];
      Using(bs[..|bs| - 1], m) + (if m in b.models then [b] else [])
  }

  /** The statistics a model should have: its blocks' count and totals. */
  function StatOver(us: seq<Block>): ModelStat {
    ModelStat(|us|, Sum(us, Duration), Sum(us, Tokens), Sum(us, Cost))
  }

  /** The dict's key order lists exactly its keys, each once. */
  ghost predicate WellOrdered(t: Tally) {
    (forall m :: m in t.order <==> m in t.stats) && NoDuplicates(t.order)
  }

  lemma RecordEffect(t: Tally, m: string, b: Block)
    requires WellOrdered(t)
    ensures WellOrdered(Record(t, m, b))
    ensures forall x :: StatOf(Record(t, m, b), x) == if x == m then AddUse(StatOf(t, x), b) else StatOf(t, x)
    ensures forall x :: x in Record(t, m, b).stats <==> x in t.stats || x == m
  {
    var r := Record(t, m, b);
    if m !in t.stats {
      forall i, j | 0 <= i < j < |r.order| ensures r.order[i] != r.order[j] {
        if j == |t.order| {
          assert r.order[i] == t.order[i] && t.order[i] in t.order;
        } else {
          assert r.order[i] == t.order[i] && r.order[j] == t.order[j];
        }
      }
    }
  }

  /** A block with no repeated model adds one use to each of its models and leaves the others alone. */
  lemma {:induction false} TallyModelsEffect(t: Tally, b: Block, ms: seq<string>)
    requires WellOrdered(t) && NoDuplicates(ms)
    ensures WellOrdered(TallyModels(t, b, ms))
    ensures forall x :: StatOf(TallyModels(t, b, ms), x) == if x in ms then AddUse(StatOf(t, x), b) else StatOf(t, x)
    ensures forall x :: x in TallyModels(t, b, ms).stats <==> x in t.stats || x in ms
  {
    if ms != [] {
      var init, last := ms[..|ms| - 1], ms[|ms| - 1];
      assert ms == init + [last];
      assert last !in init;
      TallyModelsEffect(t, b, init);
      RecordEffect(TallyModels(t, b, init), last, b);
    }
  }

  lemma UsingSnoc(bs: seq<Block>, b: Block, m: string)
    ensures StatOver(Using(bs + [b], m)) == if m in b.models then AddUse(StatOver(Using(bs, m)), b) else StatOver(Using(bs, m))
  {
    assert (bs + [b])[..|bs|] == bs;
    if m in b.models {
      var us := Using(bs, m);
      assert Using(bs + [b], m) == us + [b];
      assert (us + [b])[..|us|] == us;
      assert Sum(us + [b], Duration) == Sum(us, Duration) + b.durationMinutes;
      assert Sum(us + [b], Tokens) == Sum(us, Tokens) + b.totalTokens;
      assert Sum(us + [b], Cost) == Sum(us, Cost) + b.costCents;
      assert StatOver(us + [b]) == AddUse(StatOver(us), b);
    } else {
      assert Using(bs + [b], m) == Using(bs, m) + [];
      assert Using(bs, m) + [] == Using(bs, m);
    }
  }

  /** When no block repeats a model, each model's statistics are the count
      and totals of the blocks that list it, and the keys are exactly the
      models used, each once. */
  lemma {:induction false} TallyCorrect(bs: seq<Block>)
    requires forall i :: 0 <= i < |bs| ==> NoDuplicates(bs[i].models)
    ensures WellOrdered(TallyBlocks(bs))
    ensures forall m :: StatOf(TallyBlocks(bs), m) == StatOver(Using(bs, m))
    ensures forall m :: m in TallyBlocks(bs).stats <==> exists i :: 0 <= i < |bs| && m in bs[i].models
  {
    if bs != [] {
      var init, b := bs[..|bs| - 1], bs[|bs| - 1];
      assert bs == init + [b];
      TallyCorrect(init);
      TallyModelsEffect(TallyBlocks(init), b, b.models);
      forall m ensures StatOf(TallyBlocks(bs), m) == StatOver(Using(bs, m)) {
        UsingSnoc(init, b, m);
      }
      forall m ensures m in TallyBlocks(bs).stats <==> exists i :: 0 <= i < |bs| && m in bs[i].models {
        if exists i :: 0 <= i < |init| && m in init[i].models {
          var i :| 0 <= i < |init| && m in init[i].models;
          assert bs[i] == init[i];
        }
        if exists i :: 0 <= i < |bs| && m in bs[i].models {
          var i :| 0 <= i < |bs| && m in bs[i].models;
          if i < |init| {
            assert init[i] == bs[i];
          }
        }
      }
    }
  }

  /** Every model name the loops visit, block by block, each block's list in order. */
  function ModelUses(bs: seq<Block>): seq<string> {
    if bs == [] then [] else ModelUses(bs[..|bs| - 1]) + bs[|bs| - 1].models
  }

  /** The names of `order` are those of `uses`, in the order of their first
      use: of two listed names, the earlier one is used at a point where the
      later one has not been used yet. */
  ghost predicate FirstUseOrder(order: seq<string>, uses: seq<string>) {
    && (forall m :: m in order <==> m in uses)
    && (forall i, j :: 0 <= i < j < |order| ==>
          exists p :: 0 <= p < |uses| && uses[p] == order[i] && order[j] !in uses[..p])
  }

  lemma RecordFirstUse(t: Tally, m: string, b: Block, uses: seq<string>)
    requires forall x :: x in t.order <==> x in t.stats
    requires FirstUseOrder(t.order, uses)
    ensures FirstUseOrder(Record(t, m, b).order, uses + [m])
  {
    var r, u := Record(t, m, b).order, uses + [m];
    forall i, j | 0 <= i < j < |r|
      ensures exists p :: 0 <= p < |u| && u[p] == r[i] && r[j] !in u[..p]
    {
      if j < |t.order| {
        assert r[i] == t.order[i] && r[j] == t.order[j];
        var p :| 0 <= p < |uses| && uses[p] == t.order[i] && t.order[j] !in uses[..p];
        assert u[p] == uses[p] && u[..p] == uses[..p];
      } else {
        assert r[i] == t.order[i] && t.order[i] in t.order;
        var p :| 0 <= p < |uses| && uses[p] == t.order[i];
        assert u[p] == uses[p] && u[..p] == uses[..p];
        assert m !in uses;
      }
    }
    assert forall x :: x in r <==> x in u;
  }

  lemma {:induction false} TallyModelsFirstUse(t: Tally, b: Block, ms: seq<string>, uses: seq<string>)
    requires forall x :: x in t.order <==> x in t.stats
    requires FirstUseOrder(t.order, uses)
    ensures FirstUseOrder(TallyModels(t, b, ms).order, uses + ms)
  {
    if ms == [] {
      assert uses + ms == uses;
    } else {
      var init, last := ms[..|ms| - 1], ms[|ms| - 1];
      TallyModelsFirstUse(t, b, init, uses);
      RecordFirstUse(TallyModels(t, b, init), last, b, uses + init);
      assert uses + init + [last] == uses + ms;
    }
  }

  /** The keys of `model_stats` are the models used, in the order the loops
      first meet them. */
  lemma {:induction false} TallyFirstUse(bs: seq<Block>)
    ensures FirstUseOrder(TallyBlocks(bs).order, ModelUses(bs))
  {
    if bs != [] {
      var init, b := bs[..|bs| - 1], bs[|bs| - 1];
      TallyFirstUse(init);
      TallyModelsFirstUse(TallyBlocks(init), b, b.models, ModelUses(init));
    }
  }

  /** `model_stats.items()` in insertion order. */
  function StatRows(order: seq<string>, stats: map<string, ModelStat>): (rows: seq<(string, ModelStat)>)
    requires forall m :: m in order ==> m in stats
    ensures |rows| == |order| && forall i :: 0 <= i < |order| ==> rows[i] == (order[i], stats[order[i]])
  {
    if order == [] then []
    else
      var last := order[|order| - 1];
      StatRows(order[..|order| - 1], stats) + [(last, stats[last])]
  }

  /** The order of `sorted(..., key=cost, reverse=True)`. */
  function Costlier(): ((string, ModelStat), (string, ModelStat)) -> bool {
    (a: (string, ModelStat), b: (string, ModelStat)) => a.1.cost >= b.1.cost
  }

  /** The rows `print_model_summary` prints, in order. */
  function SummaryRows(bs: seq<Block>): seq<(string, ModelStat)> {
    var t := TallyBlocks(bs);
    Sort(StatRows(t.order, t.stats), Costlier())
  }

  /** The outer loop of `print_model_summary`, over the blocks. */
  method CollectModelStats(bs: seq<Block>) returns (t: Tally)
    ensures t == TallyBlocks(bs)
  {
    t := Tally([], map[]);
    for i := 0 to |bs|
      invariant t == TallyBlocks(bs[..i])
    {
      assert bs[..i + 1][..i] == bs[..i];
      t := CountBlockModels(t, bs[i]);
    }
    assert bs[..|bs|] == bs;
  }

  /** The inner loop: creates the entry of a model seen for the first time,
      then adds one use and the block's duration, tokens and cost. */
  method CountBlockModels(t0: Tally, block: Block) returns (t: Tally)
    requires forall x :: x in t0.order <==> x in t0.stats
    ensures t == TallyModels(t0, block, block.models)
  {
    var order, stats := t0.order, t0.stats;
    for j := 0 to |block.models|
      invariant Tally(order, stats) == TallyModels(t0, block, block.models[..j])
    {
      assert block.models[..j + 1][..j] == block.models[..j];
      order, stats := CountUse(order, stats, block.models[j], block);
    }
    assert block.models[..|block.models|] == block.models;
    t := Tally(order, stats);
  }

  /** One pass of the inner loop for one model. */
  method CountUse(order0: seq<string>, stats0: map<string, ModelStat>, model: string, block: Block)
    returns (order: seq<string>, stats: map<string, ModelStat>)
    requires forall x :: x in order0 <==> x in stats0
    ensures Tally(order, stats) == Record(Tally(order0, stats0), model, block)
  {
    order, stats := order0, stats0;
    if model !in stats {
      stats := stats[model := ZERO_STAT];
      order := order + [model];
    }
    var st := stats[model];
    stats := stats[model := ModelStat(st.count + 1, st.duration + block.durationMinutes,
                                      st.tokens + block.totalTokens, st.cost + block.costCents)];
  }

  /** The summary lists every model used exactly once, with the count and
      totals of the blocks that list it, most expensive first. */
  lemma SummaryRowsCorrect(bs: seq<Block>)
    requires forall i :: 0 <= i < |bs| ==> NoDuplicates(bs[i].models)
    ensures var rows := SummaryRows(bs);
      && (forall i, j :: 0 <= i < j < |rows| ==> rows[i].1.cost >= rows[j].1.cost)
      && (forall m, st :: (m, st) in rows <==>
            (exists i :: 0 <= i < |bs| && m in bs[i].models) && st == StatOver(Using(bs, m)))
  {
    var t := TallyBlocks(bs);
    TallyCorrect(bs);
    var items := StatRows(t.order, t.stats);
    var rows := Sort(items, Costlier());
    assert TotalPreorder(Costlier());
    SortSorted(items, Costlier());
    forall i, j | 0 <= i < j < |rows| ensures rows[i].1.cost >= rows[j].1.cost {
      assert Costlier()(rows[i], rows[j]);
    }
    forall m, st ensures (m, st) in rows <==> (m, st) in items {
      assert (m, st) in rows <==> (m, st) in multiset(rows);
      assert (m, st) in items <==> (m, st) in multiset(items);
    }
    StatRowsMembers(t.order, t.stats);
  }

  lemma StatRowsMembers(order: seq<string>, stats: map<string, ModelStat>)
    requires forall m :: m in order <==> m in stats
    ensures forall m, st :: (m, st) in StatRows(order, stats) <==> m in stats && st == stats[m]
  {
    var items := StatRows(order, stats);
    forall m, st ensures (m, st) in items <==> m in stats && st == stats[m] {
      if m in stats {
        var i :| 0 <= i < |order| && order[i] == m;
        assert items[i] == (m, stats[m]);
      }
    }
  }

  /** Python's stable sort keeps models of equal cost in the dict's key
      order, which is the order of first use. */
  lemma SummaryRowsStable(bs: seq<Block>, v: (string, ModelStat))
    ensures var t := TallyBlocks(bs);
      && Equivalents(SummaryRows(bs), v, Costlier()) == Equivalents(StatRows(t.order, t.stats), v, Costlier())
      && FirstUseOrder(t.order, ModelUses(bs))
  {
    var t := TallyBlocks(bs);
    TallyFirstUse(bs);
    assert TotalPreorder(Costlier());
    SortStable(StatRows(t.order, t.stats), v, Costlier());
  }
}
