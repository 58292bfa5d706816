/**
 * `analyze_grid_blocks` (test_canvas_dpg.py): the sidebar statistics of the canvas grid.
 * Cells are grouped by base name (the id without its directional suffix); each group counts
 * its cells, counts them per variant, and keeps the first cell met of each variant. The
 * outer dictionary keeps its groups in order of first appearance, and so does each group's
 * example dictionary (the sidebar shows the first example when there is no "normal" one);
 * the per-variant counts are only read sorted, so they are a map.
 */
module BlockStats {
  import opened Wrappers
  import opened Models
  import opened BlockNames
  import opened CanvasModel
  import opened CanvasWidget

  /** One group: `total`, `variants` and `blocks` (variant -> first example, in insertion
      order). */
  datatype BaseStats = BaseStats(total: int, variants: map<string, int>, examples: seq<(string, BlockTexture)>)

  /** The returned dictionary: its keys in insertion order and the group of each key. */
  datatype GridStats = GridStats(order: seq<string>, byBase: map<string, BaseStats>)

  const NoStats: GridStats := GridStats([], map[])

  /** The variant names in a fixed order. */
  const VariantList: seq<string> := ["normal", "top", "side", "front", "back", "bottom", "end"]

  /** A cell together with the base name and the variant the loop computes for it. */
  datatype Tagged = Tagged(base: string, variant: string, block: BlockTexture)

  function Tag(b: BlockTexture): Tagged
  {
    Tagged(BaseBlockName(b.blockId), BlockVariant(b.blockId), b)
  }

  /** The tagged cells of a row-major list of cells. */
  function Tags(cells: seq<BlockTexture>): seq<Tagged>
  {
    if cells == [] then [] else Tags(cells[..|cells| - 1]) + [Tag(cells[|cells| - 1])]
  }

  /** One more cell, one more tag. */
  lemma TagsSnoc(cells: seq<BlockTexture>, c: BlockTexture)
    ensures Tags(cells + [c]) == Tags(cells) + [Tag(c)]
  {
    assert (cells + [c])[..|cells|] == cells;
  }

  /** One more cell of a row, one more tag. */
  lemma TagsStep(done: seq<BlockTexture>, row: seq<BlockTexture>, x: nat)
    requires x < |row|
    ensures Tags(done + row[..x + 1]) == Tags(done + row[..x]) + [Tag(row[x])]
  {
    assert done + row[..x + 1] == (done + row[..x]) + [row[x]];
    TagsSnoc(done + row[..x], row[x]);
  }

  /** Every tag's variant is one of the seven variant names. */
  lemma {:induction false} TagsVariants(cells: seq<BlockTexture>)
    ensures forall i :: 0 <= i < |Tags(cells)| ==> Tags(cells)[i].variant in VariantNames
  {
    if cells != [] {
      var init := cells[..|cells| - 1];
      TagsVariants(init);
      var ts := Tags(cells);
      assert ts == Tags(init) + [Tag(cells[|cells| - 1])];
      forall i | 0 <= i < |ts|
        ensures ts[i].variant in VariantNames
      {
        if i < |Tags(init)| {
          assert ts[i] == Tags(init)[i];
        }
      }
    }
  }

  /** The grid's cells row by row. */
  function Flatten(grid: Grid): seq<BlockTexture>
  {
    if grid == [] then [] else Flatten(grid[..|grid| - 1]) + grid[|grid| - 1]
  }

  /** The example stored for variant `v`, if any. */
  function Lookup(examples: seq<(string, BlockTexture)>, v: string): Option<BlockTexture>
  {
    if examples == [] then None
    else if examples[0].0 == v then Some(examples[0].1)
    else Lookup(examples[1..], v)
  }

  lemma {:induction false} LookupAppend(examples: seq<(string, BlockTexture)>, v: string, b: BlockTexture, w: string)
    ensures Lookup(examples + [(v, b)], w) == if Lookup(examples, w).Some? then Lookup(examples, w) else if w == v then Some(b) else None
  {
    if examples != [] {
      assert (examples + [(v, b)])[1..] == examples[1..] + [(v, b)];
      LookupAppend(examples[1..], v, b, w);
    }
  }

  /** A variant's count in a group (0 when the variant never occurred). */
  function VariantCountIn(e: BaseStats, v: string): int
  {
    if v in e.variants then e.variants[v] else 0
  }

  /** One iteration of the inner loop: count the cell in its group, creating the group on
      first sight, and store it as its variant's example if it is the first of that variant. */
  function AddCell(st: GridStats, t: Tagged): GridStats
  {
    var e := if t.base in st.byBase then st.byBase[t.base] else BaseStats(0, map[], []);
    var e' := BaseStats(
      e.total + 1,
      e.variants[t.variant := VariantCountIn(e, t.variant) + 1],
      if Lookup(e.examples, t.variant).Some? then e.examples else e.examples + [(t.variant, t.block)]);
    GridStats(if t.base in st.byBase then st.order else st.order + [t.base], st.byBase[t.base := e'])
  }

  /** The statistics of a row-major list of tagged cells. */
  function StatsOf(ts: seq<Tagged>): GridStats
  {
    if ts == [] then NoStats else AddCell(StatsOf(ts[..|ts| - 1]), ts[|ts| - 1])
  }

  /** How many cells have base name `base`. */
  function CountBase(ts: seq<Tagged>, base: string): (n: nat)
    ensures n <= |ts|
  {
    if ts == [] then 0
    else CountBase(ts[..|ts| - 1], base) + if ts[|ts| - 1].base == base then 1 else 0
  }

  /** Cell `t` has base name `base` and variant `v`. */
  predicate Is(t: Tagged, base: string, v: string)
  {
    t.base == base && t.variant == v
  }

  /** How many cells have base name `base` and variant `v`. */
  function CountVariant(ts: seq<Tagged>, base: string, v: string): (n: nat)
    ensures n <= CountBase(ts, base)
  {
    if ts == [] then 0
    else CountVariant(ts[..|ts| - 1], base, v) + if Is(ts[|ts| - 1], base, v) then 1 else 0
  }

  /** The first cell with base name `base` and variant `v`. */
  function FirstOf(ts: seq<Tagged>, base: string, v: string): (r: Option<BlockTexture>)
    ensures r.Some? ==> Tagged(base, v, r.value) in ts
  {
    if ts == [] then None
    else
      var first := FirstOf(ts[..|ts| - 1], base, v);
      if first.Some? then first
      else if Is(ts[|ts| - 1], base, v) then Some(ts[|ts| - 1].block)
      else None
  }

  /** `FirstOf` finds the earliest cell of that base name and variant, and finds none exactly
      when there is none. */
  lemma {:induction false} FirstOfEarliest(ts: seq<Tagged>, base: string, v: string)
    ensures FirstOf(ts, base, v).None? <==> forall j :: 0 <= j < |ts| ==> !Is(ts[j], base, v)
    ensures FirstOf(ts, base, v).Some? ==>
      exists i :: 0 <= i < |ts| && ts[i] == Tagged(base, v, FirstOf(ts, base, v).value)
        && forall j :: 0 <= j < i ==> !Is(ts[j], base, v)
  {
    if ts != [] {
      var init := ts[..|ts| - 1];
      var last := ts[|ts| - 1];
      FirstOfEarliest(init, base, v);
      var first := FirstOf(init, base, v);
      if first.Some? {
        var i :| 0 <= i < |init| && init[i] == Tagged(base, v, first.value)
          && forall j :: 0 <= j < i ==> !Is(init[j], base, v);
        assert FirstOf(ts, base, v) == first;
        assert ts[i] == init[i];
        forall j | 0 <= j < i
          ensures !Is(ts[j], base, v)
        {
          assert ts[j] == init[j];
        }
      } else if Is(last, base, v) {
        assert FirstOf(ts, base, v) == Some(last.block);
        assert last == Tagged(base, v, last.block);
        forall j | 0 <= j < |ts| - 1
          ensures !Is(ts[j], base, v)
        {
          assert ts[j] == init[j];
        }
      } else {
        assert FirstOf(ts, base, v).None?;
        forall j | 0 <= j < |ts|
          ensures !Is(ts[j], base, v)
        {
          if j < |init| {
            assert ts[j] == init[j];
          }
        }
      }
    }
  }

  /** A cell adds its base name to the keys, and to the end of the key order when it is new. */
  lemma AddCellKeys(st: GridStats, t: Tagged)
    ensures var r := AddCell(st, t);
      && r.byBase.Keys == st.byBase.Keys + {t.base}
      && r.order == if t.base in st.byBase then st.order else st.order + [t.base]
  {
  }

  /** A cell raises its group's total and its variant's count by one and leaves every other
      group as it was. */
  lemma AddCellEntry(st: GridStats, t: Tagged)
    ensures var r := AddCell(st, t);
      var e := if t.base in st.byBase then st.byBase[t.base] else BaseStats(0, map[], []);
      && t.base in r.byBase
      && r.byBase[t.base].total == e.total + 1
      && VariantCountIn(r.byBase[t.base], t.variant) == VariantCountIn(e, t.variant) + 1
      && (forall w :: w != t.variant ==> VariantCountIn(r.byBase[t.base], w) == VariantCountIn(e, w))
      && (forall k :: k in r.byBase && k != t.base ==> k in st.byBase && r.byBase[k] == st.byBase[k])
  {
  }

  /** No group without a cell; the keys are listed once each. */
  lemma {:induction false} StatsOfKeys(ts: seq<Tagged>)
    ensures var st := StatsOf(ts);
      && (forall k :: k in st.order <==> k in st.byBase)
      && (forall k :: k in st.byBase <==> CountBase(ts, k) > 0)
      && (forall i, j :: 0 <= i < j < |st.order| ==> st.order[i] != st.order[j])
  {
    if ts != [] {
      var init := ts[..|ts| - 1];
      var t := ts[|ts| - 1];
      var st := StatsOf(init);
      var r := StatsOf(ts);
      StatsOfKeys(init);
      AddCellKeys(st, t);
      forall k
        ensures k in r.order <==> k in r.byBase
        ensures k in r.byBase <==> CountBase(ts, k) > 0
      {
        assert CountBase(ts, k) == CountBase(init, k) + if t.base == k then 1 else 0;
      }
      forall i, j | 0 <= i < j < |r.order|
        ensures r.order[i] != r.order[j]
      {
        if j < |st.order| {
          assert r.order[i] == st.order[i] && r.order[j] == st.order[j];
        } else {
          assert r.order[i] == st.order[i] && st.order[i] in st.order;
          assert r.order[j] == t.base && t.base !in st.byBase;
        }
      }
    }
  }

  /** The keys are in order of first occurrence: of two keys, the earlier one occurs in a cell
      before any cell of the later one. */
  lemma {:induction false} StatsOfOrder(ts: seq<Tagged>, i: nat, j: nat)
    requires i < j < |StatsOf(ts).order|
    ensures exists p ::
      && 0 <= p < |ts|
      && ts[p].base == StatsOf(ts).order[i]
      && forall q :: 0 <= q <= p ==> ts[q].base != StatsOf(ts).order[j]
  {
    var init := ts[..|ts| - 1];
    var t := ts[|ts| - 1];
    var st := StatsOf(init);
    AddCellKeys(st, t);
    StatsOfKeys(init);
    if j < |st.order| {
      StatsOfOrder(init, i, j);
      var p :| 0 <= p < |init| && init[p].base == st.order[i]
        && forall q :: 0 <= q <= p ==> init[q].base != st.order[j];
      assert ts[p] == init[p];
      assert forall q :: 0 <= q <= p ==> ts[q] == init[q];
    } else {
      assert StatsOf(ts).order[i] == st.order[i] && st.order[i] in st.order;
      assert StatsOf(ts).order[j] == t.base;
      var p := CountedAt(init, st.order[i]);
      NotCounted(init, t.base);
      assert ts[p] == init[p];
      assert forall q :: 0 <= q <= p ==> ts[q] == init[q];
    }
  }

  /** A base name that is counted occurs somewhere. */
  lemma {:induction false} CountedAt(ts: seq<Tagged>, base: string) returns (p: nat)
    requires CountBase(ts, base) > 0
    ensures p < |ts| && ts[p].base == base
  {
    var init := ts[..|ts| - 1];
    if ts[|ts| - 1].base == base {
      p := |ts| - 1;
    } else {
      p := CountedAt(init, base);
      assert ts[p] == init[p];
    }
  }

  /** A base name that is not counted occurs nowhere. */
  lemma {:induction false} NotCounted(ts: seq<Tagged>, base: string)
    requires CountBase(ts, base) == 0
    ensures forall q :: 0 <= q < |ts| ==> ts[q].base != base
  {
    if ts != [] {
      var init := ts[..|ts| - 1];
      NotCounted(init, base);
      assert forall q :: 0 <= q < |init| ==> ts[q] == init[q];
    }
  }

  /** Each group's total is the number of cells with its base name, and each variant count is
      the number of those cells with that variant (a variant is a key only when it occurs). */
  lemma {:induction false} StatsOfCounts(ts: seq<Tagged>)
    ensures var st := StatsOf(ts);
      && (forall k :: k in st.byBase ==> st.byBase[k].total == CountBase(ts, k))
      && (forall k, v :: k in st.byBase ==> VariantCountIn(st.byBase[k], v) == CountVariant(ts, k, v))
      && (forall k, v :: k in st.byBase && v in st.byBase[k].variants ==> st.byBase[k].variants[v] > 0)
  {
    if ts != [] {
      var init := ts[..|ts| - 1];
      StatsOfKeys(init);
      StatsOfCounts(init);
      AddCellEntry(StatsOf(init), ts[|ts| - 1]);
    }
  }

  /** Each group's example of a variant is the first cell of that base name and variant in
      row-major order. */
  lemma {:induction false} StatsOfExamples(ts: seq<Tagged>)
    ensures var st := StatsOf(ts);
      forall k, v :: k in st.byBase ==> Lookup(st.byBase[k].examples, v) == FirstOf(ts, k, v)
  {
    if ts != [] {
      var init := ts[..|ts| - 1];
      var t := ts[|ts| - 1];
      StatsOfKeys(init);
      StatsOfExamples(init);
      var st := StatsOf(init);
      if t.base in st.byBase {
        forall v
          ensures Lookup(StatsOf(ts).byBase[t.base].examples, v) == FirstOf(ts, t.base, v)
        {
          LookupAppend(st.byBase[t.base].examples, t.variant, t.block, v);
        }
      } else {
        forall v
          ensures Lookup(StatsOf(ts).byBase[t.base].examples, v) == FirstOf(ts, t.base, v)
        {
          assert FirstOf(init, t.base, v).None? by {
            if FirstOf(init, t.base, v).Some? {
              FirstInCount(init, t.base, v);
            }
          }
        }
      }
    }
  }

  /** A first cell of a base name means the base name occurs. */
  lemma {:induction false} FirstInCount(ts: seq<Tagged>, base: string, v: string)
    requires FirstOf(ts, base, v).Some?
    ensures CountBase(ts, base) > 0
  {
    var init := ts[..|ts| - 1];
    if FirstOf(init, base, v).Some? {
      FirstInCount(init, base, v);
    }
  }

  /** A group's total (0 for a base name with no group). */
  function TotalOf(st: GridStats, k: string): int
  {
    if k in st.byBase then st.byBase[k].total else 0
  }

  /** The totals of the groups listed in `keys`. */
  function SumTotals(st: GridStats, keys: seq<string>): int
  {
    if keys == [] then 0 else SumTotals(st, keys[..|keys| - 1]) + TotalOf(st, keys[|keys| - 1])
  }

  /** The counts of the variants listed in `vs` within one group. */
  function SumVariants(e: BaseStats, vs: seq<string>): int
  {
    if vs == [] then 0 else SumVariants(e, vs[..|vs| - 1]) + VariantCountIn(e, vs[|vs| - 1])
  }

  /** Raising one group's total by one raises the sum by the number of times it is listed. */
  lemma {:induction false} SumTotalsBump(st: GridStats, st': GridStats, keys: seq<string>, b: string)
    requires forall k :: k != b ==> TotalOf(st', k) == TotalOf(st, k)
    requires TotalOf(st', b) == TotalOf(st, b) + 1
    ensures SumTotals(st', keys) == SumTotals(st, keys) + multiset(keys)[b]
  {
    if keys != [] {
      var init := keys[..|keys| - 1];
      SumTotalsBump(st, st', init, b);
      assert keys == init + [keys[|keys| - 1]];
    }
  }

  /** Raising one variant's count by one raises the sum by the number of times it is listed. */
  lemma {:induction false} SumVariantsBump(e: BaseStats, e': BaseStats, vs: seq<string>, v: string)
    requires forall w :: w != v ==> VariantCountIn(e', w) == VariantCountIn(e, w)
    requires VariantCountIn(e', v) == VariantCountIn(e, v) + 1
    ensures SumVariants(e', vs) == SumVariants(e, vs) + multiset(vs)[v]
  {
    if vs != [] {
      var init := vs[..|vs| - 1];
      SumVariantsBump(e, e', init, v);
      assert vs == init + [vs[|vs| - 1]];
    }
  }

  lemma {:induction false} SumVariantsNone(e: BaseStats, vs: seq<string>)
    requires e.variants == map[]
    ensures SumVariants(e, vs) == 0
  {
    if vs != [] {
      SumVariantsNone(e, vs[..|vs| - 1]);
    }
  }

  lemma VariantListOnce(v: string)
    requires v in VariantNames
    ensures multiset(VariantList)[v] == 1
  {
  }

  lemma {:induction false} DistinctOnce(keys: seq<string>, b: string)
    requires b in keys
    requires forall i, j :: 0 <= i < j < |keys| ==> keys[i] != keys[j]
    ensures multiset(keys)[b] == 1
  {
    var init := keys[..|keys| - 1];
    assert keys == init + [keys[|keys| - 1]];
    if b == keys[|keys| - 1] {
      assert b !in init;
    } else {
      DistinctOnce(init, b);
    }
  }

  /** The group totals, over the keys in order, add up to the number of cells. */
  lemma {:induction false} TotalsSum(ts: seq<Tagged>)
    ensures SumTotals(StatsOf(ts), StatsOf(ts).order) == |ts|
  {
    if ts != [] {
      var init := ts[..|ts| - 1];
      var t := ts[|ts| - 1];
      var st := StatsOf(init);
      var st' := StatsOf(ts);
      StatsOfKeys(init);
      AddCellKeys(st, t);
      AddCellEntry(st, t);
      TotalsSum(init);
      SumTotalsBump(st, st', st.order, t.base);
      if t.base in st.byBase {
        DistinctOnce(st.order, t.base);
      } else {
        assert multiset(st.order)[t.base] == 0;
        assert (st.order + [t.base])[..|st.order|] == st.order;
      }
    }
  }

  /** In each group the variant counts, over the seven variant names, add up to the group's
      total. */
  lemma {:induction false} VariantsSum(ts: seq<Tagged>)
    requires forall i :: 0 <= i < |ts| ==> ts[i].variant in VariantNames
    ensures forall k :: k in StatsOf(ts).byBase ==> SumVariants(StatsOf(ts).byBase[k], VariantList) == StatsOf(ts).byBase[k].total
  {
    if ts != [] {
      var init := ts[..|ts| - 1];
      var t := ts[|ts| - 1];
      forall i | 0 <= i < |init|
        ensures init[i].variant in VariantNames
      {
        assert init[i] == ts[i];
      }
      VariantsSum(init);
      var st := StatsOf(init);
      var st' := AddCell(st, t);
      assert StatsOf(ts) == st';
      AddCellEntry(st, t);
      var e := if t.base in st.byBase then st.byBase[t.base] else BaseStats(0, map[], []);
      if t.base !in st.byBase {
        SumVariantsNone(e, VariantList);
      }
      GroupSumBump(e, st'.byBase[t.base], t.variant);
      forall k | k in st'.byBase
        ensures SumVariants(st'.byBase[k], VariantList) == st'.byBase[k].total
      {
        if k != t.base {
          assert st'.byBase[k] == st.byBase[k];
        }
      }
    }
  }

  /** Counting one more cell of variant `v` in a group keeps its variant counts adding up to
      its total. */
  lemma GroupSumBump(e: BaseStats, e': BaseStats, v: string)
    requires v in VariantNames && SumVariants(e, VariantList) == e.total
    requires e'.total == e.total + 1
    requires VariantCountIn(e', v) == VariantCountIn(e, v) + 1
    requires forall w :: w != v ==> VariantCountIn(e', w) == VariantCountIn(e, w)
    ensures SumVariants(e', VariantList) == e'.total
  {
    VariantListOnce(v);
    SumVariantsBump(e, e', VariantList, v);
  }

  /** What the sidebar shows of a grid: the group totals add up to the number of cells, and in
      each group the variant counts add up to the group's total. */
  lemma GridStatsAddUp(grid: Grid)
    ensures var st := StatsOf(Tags(Flatten(grid)));
      && SumTotals(st, st.order) == |Tags(Flatten(grid))|
      && forall k :: k in st.byBase ==> SumVariants(st.byBase[k], VariantList) == st.byBase[k].total
  {
    var cells := Flatten(grid);
    TagsVariants(cells);
    TotalsSum(Tags(cells));
    VariantsSum(Tags(cells));
  }

  /** One more tagged cell: one more `AddCell`. */
  lemma StatsOfSnoc(ts: seq<Tagged>, t: Tagged)
    ensures StatsOf(ts + [t]) == AddCell(StatsOf(ts), t)
  {
    assert (ts + [t])[..|ts|] == ts;
  }

  /** One more row: the flattened prefix grows by that row. */
  lemma FlattenStep(grid: Grid, y: nat)
    requires y < |grid|
    ensures Flatten(grid[..y + 1]) == Flatten(grid[..y]) + grid[y]
  {
    assert grid[..y + 1][..y] == grid[..y];
  }

  /** The body of the inner loop of `analyze_grid_blocks`: tag the cell, then count it. */
  method CountBlock(order: seq<string>, byBase: map<string, BaseStats>, block: BlockTexture)
    returns (order': seq<string>, byBase': map<string, BaseStats>)
    ensures GridStats(order', byBase') == AddCell(GridStats(order, byBase), Tag(block))
  {
    var baseName := BaseBlockName(block.blockId);
    var variant := BlockVariant(block.blockId);
    order', byBase' := CountTagged(order, byBase, Tagged(baseName, variant, block));
  }

  /** The defaultdict updates for one cell of base name `t.base` and variant `t.variant`. */
  method CountTagged(order: seq<string>, byBase: map<string, BaseStats>, t: Tagged)
    returns (order': seq<string>, byBase': map<string, BaseStats>)
    ensures GridStats(order', byBase') == AddCell(GridStats(order, byBase), t)
  {
    order', byBase' := order, byBase;
    if t.base !in byBase' {
      order' := order' + [t.base];
      byBase' := byBase'[t.base := BaseStats(0, map[], [])];
    }
    var entry := byBase'[t.base];
    var count := if t.variant in entry.variants then entry.variants[t.variant] else 0;
    entry := entry.(total := entry.total + 1, variants := entry.variants[t.variant := count + 1]);
    if Lookup(entry.examples, t.variant).None? {
      entry := entry.(examples := entry.examples + [(t.variant, t.block)]);
    }
    byBase' := byBase'[t.base := entry];
  }

  /** The inner loop of `analyze_grid_blocks`: count the cells of one row after those already
      counted. */
  method CountRow(order: seq<string>, byBase: map<string, BaseStats>, ghost done: seq<BlockTexture>, row: seq<BlockTexture>)
    returns (order': seq<string>, byBase': map<string, BaseStats>)
    requires GridStats(order, byBase) == StatsOf(Tags(done))
    ensures GridStats(order', byBase') == StatsOf(Tags(done + row))
  {
    order', byBase' := order, byBase;
    assert done + row[..0] == done;
    for x := 0 to |row|
      invariant GridStats(order', byBase') == StatsOf(Tags(done + row[..x]))
    {
      TagsStep(done, row, x);
      StatsOfSnoc(Tags(done + row[..x]), Tag(row[x]));
      order', byBase' := CountBlock(order', byBase', row[x]);
    }
    assert row[..|row|] == row;
  }

  /** `analyze_grid_blocks`: nothing without a canvas or with an empty grid; otherwise the
      statistics of the grid's cells in row-major order. */
  method AnalyzeGridBlocks(canvas: Option<Canvas>) returns (stats: GridStats)
    ensures canvas.None? ==> stats == NoStats
    ensures canvas.Some? ==> stats == StatsOf(Tags(Flatten(canvas.value.grid)))
  {
    if canvas.None? || canvas.value.grid == [] {
      return NoStats;
    }
    var grid := canvas.value.grid;
    var order: seq<string> := [];
    var byBase: map<string, BaseStats> := map[];
    for y := 0 to |grid|
      invariant GridStats(order, byBase) == StatsOf(Tags(Flatten(grid[..y])))
    {
      order, byBase := CountRow(order, byBase, Flatten(grid[..y]), grid[y]);
      FlattenStep(grid, y);
    }
    assert grid[..|grid|] == grid;
    stats := GridStats(order, byBase);
  }
}
