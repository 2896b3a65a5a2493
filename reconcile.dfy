/** The per-(location, material) coverage report (`procesar_datos` up to the
    roll-up): the four tier tables merged onto the base table, the gaps
    filled with 0, total stock, surplus and shortage, the daily consumption
    merged in and the coverage computed. */
module Reconcile {
  import opened Wrappers
  import opened Num
  import Tables
  import Keys
  import opened StockTiers
  import BaseTable
  import Consumption
  import opened Coverage

  /** The four tier stock columns while merging; a column the merge left
      empty is absent. */
  datatype TierSlots = TierSlots(production: Option<real>, transit: Option<real>, hub: Option<real>, general: Option<real>)

  function Slot(s: TierSlots, t: Tier): Option<real> {
    match t
    case Production => s.production
    case Transit => s.transit
    case Hub => s.hub
    case General => s.general
  }

  function SetSlot(s: TierSlots, t: Tier, x: Option<real>): (r: TierSlots)
    ensures Slot(r, t) == x
    ensures forall u :: u != t ==> Slot(r, u) == Slot(s, u)
  {
    match t
    case Production => s.(production := x)
    case Transit => s.(transit := x)
    case Hub => s.(hub := x)
    case General => s.(general := x)
  }

  const NoStock := TierSlots(None, None, None, None)

  /** A row of `df_base` while the tier tables are merged onto it. */
  datatype MergedRow = MergedRow(base: BaseTable.BaseRow, key: string, slots: TierSlots)

  /** `id_localidad_insumo` of a base row. */
  function BaseKey(b: BaseTable.BaseRow): string {
    Keys.CompositeKey(b.item.idLocalidad, b.item.idInsumo)
  }

  /** The base table with its key column and no stock column yet. */
  function Keyed(base: seq<BaseTable.BaseRow>): (rows: seq<MergedRow>)
    ensures |rows| == |base|
  {
    seq(|base|, i requires 0 <= i < |base| => MergedRow(base[i], BaseKey(base[i]), NoStock))
  }

  function MergedKey(r: MergedRow): string {
    r.key
  }

  function StockKey(g: StockGroup): string {
    g.key
  }

  function Qty(g: Option<StockGroup>): Option<real> {
    if g.Some? then Some(g.value.qty) else None
  }

  /** One tier merge: a left merge on `id_localidad_insumo` that fills the
      tier's stock column from the matching group. */
  function MergeTier(rows: seq<MergedRow>, tier: Tier, table: seq<StockGroup>): (out: seq<MergedRow>)
    ensures |out| == |Tables.LeftJoin(rows, table, MergedKey, StockKey)|
  {
    var j := Tables.LeftJoin(rows, table, MergedKey, StockKey);
    seq(|j|, k requires 0 <= k < |j| => j[k].0.(slots := SetSlot(j[k].0.slots, tier, Qty(j[k].1))))
  }

  function TierTable(t: Mb52Tiers, tier: Tier): seq<StockGroup> {
    match tier
    case Production => t.production
    case Transit => t.transit
    case Hub => t.hub
    case General => t.general
  }

  /** The order of the merges. */
  const MergeOrder: seq<Tier> := [Production, Transit, Hub, General]

  /** `df_base` after the first `k` tier merges. */
  function MergedUpTo(base: seq<BaseTable.BaseRow>, tiers: Mb52Tiers, k: nat): seq<MergedRow>
    requires k <= 4
  {
    if k == 0 then Keyed(base)
    else MergeTier(MergedUpTo(base, tiers, k - 1), MergeOrder[k - 1], TierTable(tiers, MergeOrder[k - 1]))
  }

  /** The key column, then the merge loop rebinding the base table once per
      tier table. */
  method MergeStocks(base: seq<BaseTable.BaseRow>, tiers: Mb52Tiers) returns (rows: seq<MergedRow>)
    ensures rows == MergedUpTo(base, tiers, 4)
  {
    rows := Keyed(base);
    for k := 0 to 4
      invariant rows == MergedUpTo(base, tiers, k)
    {
      rows := MergeTier(rows, MergeOrder[k], TierTable(tiers, MergeOrder[k]));
    }
  }

  // ---------------------------------------------------------------------
  // Properties of one tier merge

  /** A tier merge makes `Copies` rows: a base row matching n groups of the
      tier comes out n times, and an unmatched one once; none is dropped. */
  lemma MergeTierSize(rows: seq<MergedRow>, tier: Tier, table: seq<StockGroup>)
    ensures |MergeTier(rows, tier, table)| == Tables.Copies(rows, table, MergedKey, StockKey)
    ensures |MergeTier(rows, tier, table)| >= |rows|
  {
    Tables.LeftJoinSize(rows, table, MergedKey, StockKey);
    Tables.LeftJoinKeepsLeft(rows, table, MergedKey, StockKey);
  }

  /** Row `i` of the input survives the merge with its base row and key. */
  lemma MergeTierKeepsRow(rows: seq<MergedRow>, tier: Tier, table: seq<StockGroup>, i: int)
    requires 0 <= i < |rows|
    ensures exists k :: 0 <= k < |MergeTier(rows, tier, table)| &&
              MergeTier(rows, tier, table)[k].base == rows[i].base &&
              MergeTier(rows, tier, table)[k].key == rows[i].key
  {
    Tables.LeftJoinKeepsRow(rows, table, MergedKey, StockKey, i);
    var j := Tables.LeftJoin(rows, table, MergedKey, StockKey);
    var k :| 0 <= k < |j| && j[k].0 == rows[i];
    assert MergeTier(rows, tier, table)[k].base == rows[i].base;
  }

  /** The tier column of a merged row is empty exactly when no group of the
      tier has the row's key, and otherwise holds the quantity of one that
      has. */
  ghost predicate SlotMatches(slots: TierSlots, key: string, tier: Tier, table: seq<StockGroup>) {
    (Slot(slots, tier).None? <==> forall x :: 0 <= x < |table| ==> table[x].key != key) &&
    (Slot(slots, tier).Some? ==>
       exists x :: 0 <= x < |table| && table[x].key == key && table[x].qty == Slot(slots, tier).value)
  }

  /** Output row `k` of a merge is input row `q` with only the tier column
      set, and set as `SlotMatches` says. */
  lemma MergeTierRow(rows: seq<MergedRow>, tier: Tier, table: seq<StockGroup>, k: int) returns (q: int)
    requires 0 <= k < |MergeTier(rows, tier, table)|
    ensures 0 <= q < |rows|
    ensures var o := MergeTier(rows, tier, table)[k];
      o.base == rows[q].base && o.key == rows[q].key &&
      (forall u :: u != tier ==> Slot(o.slots, u) == Slot(rows[q].slots, u)) &&
      SlotMatches(o.slots, o.key, tier, table)
  {
    var j := Tables.LeftJoin(rows, table, MergedKey, StockKey);
    q := Tables.LeftJoinRow(rows, table, MergedKey, StockKey, k);
    if j[k].1.Some? {
      var x :| 0 <= x < |table| && table[x] == j[k].1.value;
    }
  }

  /** With one group per key in the tier table the merge keeps the rows one
      to one, setting each row's tier column from its group. */
  lemma MergeTierOneToOne(rows: seq<MergedRow>, tier: Tier, table: seq<StockGroup>)
    requires Tables.KeysDistinct(table, StockKey)
    ensures |MergeTier(rows, tier, table)| == |rows|
    ensures forall i :: 0 <= i < |rows| ==>
              MergeTier(rows, tier, table)[i] ==
                rows[i].(slots := SetSlot(rows[i].slots, tier, Qty(Tables.FirstMatch(table, StockKey, rows[i].key))))
  {
    forall i | 0 <= i < |rows| ensures |Tables.Matches(table, StockKey, MergedKey(rows[i]))| <= 1 {
      Tables.MatchesAtMostOne(table, StockKey, MergedKey(rows[i]));
    }
    Tables.LeftJoinAtMostOne(rows, table, MergedKey, StockKey);
  }

  /** The general tier holds one group per warehouse code, so a key stocked
      in two general warehouses repeats its row: with production stock 100
      and general stock 10 and 20 in two warehouses, the merge yields two
      rows that both carry the production stock, and their totals add up to
      230 rather than the 130 on hand. */
  lemma GeneralTierRepeatsRow(b: BaseTable.BaseRow)
    ensures var key := BaseKey(b);
      var r := MergedRow(b, key, TierSlots(Some(100.0), None, None, None));
      var general := [StockGroup(b.item.idLocalidad, "A001", b.item.idInsumo, key, 10.0),
                      StockGroup(b.item.idLocalidad, "A002", b.item.idInsumo, key, 20.0)];
      var out := MergeTier([r], General, general);
      |out| == 2 && out[0].base == b && out[1].base == b &&
      out[0].slots == TierSlots(Some(100.0), None, None, Some(10.0)) &&
      out[1].slots == TierSlots(Some(100.0), None, None, Some(20.0)) &&
      Filled(out[0]).total + Filled(out[1]).total == 230.0
  {
    var key := BaseKey(b);
    var r := MergedRow(b, key, TierSlots(Some(100.0), None, None, None));
    var g0 := StockGroup(b.item.idLocalidad, "A001", b.item.idInsumo, key, 10.0);
    var g1 := StockGroup(b.item.idLocalidad, "A002", b.item.idInsumo, key, 20.0);
    TwoMatchJoin(r, g0, g1);
    var out := MergeTier([r], General, [g0, g1]);
    assert out[0] == r.(slots := SetSlot(r.slots, General, Some(10.0)));
    assert out[1] == r.(slots := SetSlot(r.slots, General, Some(20.0)));
  }

  /** A row whose key two groups carry comes out of the left merge twice. */
  lemma TwoMatchJoin(r: MergedRow, g0: StockGroup, g1: StockGroup)
    requires StockKey(g0) == MergedKey(r) && StockKey(g1) == MergedKey(r)
    ensures Tables.LeftJoin([r], [g0, g1], MergedKey, StockKey) == [(r, Some(g0)), (r, Some(g1))]
  {
    var general := [g0, g1];
    var p := (x: StockGroup) => StockKey(x) == MergedKey(r);
    assert Tables.Matches(general, StockKey, MergedKey(r)) == general by {
      assert general[1..][1..] == [];
      assert Tables.Filter(general[1..][1..], p) == [];
      assert Tables.Filter(general[1..], p) == [general[1]] + Tables.Filter(general[1..][1..], p);
      assert Tables.Filter(general, p) == [general[0]] + Tables.Filter(general[1..], p);
    }
    assert Tables.LeftJoin([r], general, MergedKey, StockKey)
        == Tables.Expand(r, general, MergedKey, StockKey) + Tables.LeftJoin([], general, MergedKey, StockKey);
  }

  // ---------------------------------------------------------------------
  // Properties of the four merges

  /** The position of a tier in the merge order. */
  function Position(t: Tier): nat {
    match t
    case Production => 0
    case Transit => 1
    case Hub => 2
    case General => 3
  }

  /** `SlotMatches` depends on the one tier column only. */
  lemma SlotMatchesSame(s1: TierSlots, s2: TierSlots, key: string, t: Tier, table: seq<StockGroup>)
    requires Slot(s1, t) == Slot(s2, t) && SlotMatches(s1, key, t, table)
    ensures SlotMatches(s2, key, t, table)
  {
  }

  /** A row after the first `k` merges, seen from tier `t`: a base row with
      its key, whose column for `t` is set as `SlotMatches` says once `t` is
      merged, and absent before. */
  ghost predicate RowFact(base: seq<BaseTable.BaseRow>, tiers: Mb52Tiers, k: nat, o: MergedRow, t: Tier) {
    o.base in base && o.key == BaseKey(o.base) &&
    (Position(t) < k ==> SlotMatches(o.slots, o.key, t, TierTable(tiers, t))) &&
    (Position(t) >= k ==> Slot(o.slots, t).None?)
  }

  /** Every row of `rows` satisfies `RowFact` for `k` merges. */
  ghost predicate RowsFact(base: seq<BaseTable.BaseRow>, tiers: Mb52Tiers, k: nat, rows: seq<MergedRow>) {
    forall p, t :: 0 <= p < |rows| ==> RowFact(base, tiers, k, rows[p], t)
  }

  /** Base row `b` is the base of some row of `rows`. */
  ghost predicate HasBase(rows: seq<MergedRow>, b: BaseTable.BaseRow) {
    exists p :: 0 <= p < |rows| && rows[p].base == b
  }

  /** Every base row is the base of some row of `rows`. */
  ghost predicate KeepsBase(base: seq<BaseTable.BaseRow>, rows: seq<MergedRow>) {
    forall i :: 0 <= i < |base| ==> HasBase(rows, base[i])
  }

  /** Row `p` of `MergedUpTo(base, tiers, k)` is a base row with its key; the
      column of tier `t` is set as `SlotMatches` says once `t` is merged, and
      absent before. */
  lemma MergedRowAt(base: seq<BaseTable.BaseRow>, tiers: Mb52Tiers, k: nat, p: int, t: Tier)
    requires k <= 4 && 0 <= p < |MergedUpTo(base, tiers, k)|
    ensures var o := MergedUpTo(base, tiers, k)[p];
      o.base in base && o.key == BaseKey(o.base) &&
      (Position(t) < k ==> SlotMatches(o.slots, o.key, t, TierTable(tiers, t))) &&
      (Position(t) >= k ==> Slot(o.slots, t).None?)
  {
    MergedRowsFact(base, tiers, k);
    assert RowFact(base, tiers, k, MergedUpTo(base, tiers, k)[p], t);
  }

  lemma {:induction false} MergedRowsFact(base: seq<BaseTable.BaseRow>, tiers: Mb52Tiers, k: nat)
    requires k <= 4
    ensures RowsFact(base, tiers, k, MergedUpTo(base, tiers, k))
  {
    if k == 0 {
      forall p, t | 0 <= p < |Keyed(base)| ensures RowFact(base, tiers, 0, Keyed(base)[p], t) {
        KeyedRowAt(base, p, t);
      }
    } else {
      MergedRowsFact(base, tiers, k - 1);
      MergeKeepsRowsFact(base, tiers, k, MergedUpTo(base, tiers, k - 1));
    }
  }

  /** Before any merge, row `p` is base row `p` with its key and no stock. */
  lemma KeyedRowAt(base: seq<BaseTable.BaseRow>, p: int, t: Tier)
    requires 0 <= p < |base|
    ensures Keyed(base)[p].base in base && Keyed(base)[p].key == BaseKey(Keyed(base)[p].base)
    ensures Slot(Keyed(base)[p].slots, t).None?
  {
    assert Keyed(base)[p] == MergedRow(base[p], BaseKey(base[p]), NoStock);
  }

  /** Merging tier `k - 1` into rows that satisfy `RowFact` for `k - 1`
      merges gives rows that satisfy it for `k`. */
  lemma MergeKeepsRowsFact(base: seq<BaseTable.BaseRow>, tiers: Mb52Tiers, k: nat, prev: seq<MergedRow>)
    requires 1 <= k <= 4 && RowsFact(base, tiers, k - 1, prev)
    ensures RowsFact(base, tiers, k, MergeTier(prev, MergeOrder[k - 1], TierTable(tiers, MergeOrder[k - 1])))
  {
    var tier := MergeOrder[k - 1];
    var table := TierTable(tiers, tier);
    var out := MergeTier(prev, tier, table);
    forall p, t | 0 <= p < |out| ensures RowFact(base, tiers, k, out[p], t) {
      var q := MergeTierRow(prev, tier, table, p);
      MergedRowStep(base, tiers, k, tier, table, prev[q], out[p], t);
    }
  }

  /** One merge: what row `o`, made from `r` by merging tier `k - 1`,
      inherits from `r` and gains from the merge. */
  lemma MergedRowStep(base: seq<BaseTable.BaseRow>, tiers: Mb52Tiers, k: nat, tier: Tier, table: seq<StockGroup>,
                      r: MergedRow, o: MergedRow, t: Tier)
    requires 1 <= k <= 4 && tier == MergeOrder[k - 1] && table == TierTable(tiers, tier)
    requires RowFact(base, tiers, k - 1, r, t)
    requires o.base == r.base && o.key == r.key
    requires forall u :: u != tier ==> Slot(o.slots, u) == Slot(r.slots, u)
    requires SlotMatches(o.slots, o.key, tier, table)
    ensures RowFact(base, tiers, k, o, t)
  {
    assert Position(tier) == k - 1;
    if t != tier {
      assert Slot(o.slots, t) == Slot(r.slots, t);
      if Position(t) < k - 1 {
        SlotMatchesSame(r.slots, o.slots, o.key, t, TierTable(tiers, t));
      }
    }
  }

  /** No base row is lost by the four merges. */
  lemma MergedKeepsBase(base: seq<BaseTable.BaseRow>, tiers: Mb52Tiers, k: nat, i: int)
    requires k <= 4 && 0 <= i < |base|
    ensures exists p :: 0 <= p < |MergedUpTo(base, tiers, k)| && MergedUpTo(base, tiers, k)[p].base == base[i]
  {
    MergedKeepsAll(base, tiers, k);
    assert HasBase(MergedUpTo(base, tiers, k), base[i]);
  }

  lemma {:induction false} MergedKeepsAll(base: seq<BaseTable.BaseRow>, tiers: Mb52Tiers, k: nat)
    requires k <= 4
    ensures KeepsBase(base, MergedUpTo(base, tiers, k))
  {
    if k == 0 {
      var rows := Keyed(base);
      forall i | 0 <= i < |base| ensures HasBase(rows, base[i]) {
        assert rows[i] == MergedRow(base[i], BaseKey(base[i]), NoStock);
      }
      assert MergedUpTo(base, tiers, 0) == rows;
    } else {
      MergedKeepsAll(base, tiers, k - 1);
      MergeKeepsBase(base, MergedUpTo(base, tiers, k - 1), MergeOrder[k - 1], TierTable(tiers, MergeOrder[k - 1]));
    }
  }

  /** A merge keeps every base row its input has. */
  lemma MergeKeepsBase(base: seq<BaseTable.BaseRow>, prev: seq<MergedRow>, tier: Tier, table: seq<StockGroup>)
    requires KeepsBase(base, prev)
    ensures KeepsBase(base, MergeTier(prev, tier, table))
  {
    forall i | 0 <= i < |base| ensures HasBase(MergeTier(prev, tier, table), base[i]) {
      assert HasBase(prev, base[i]);
      var q :| 0 <= q < |prev| && prev[q].base == base[i];
      MergeTierKeepsRow(prev, tier, table, q);
      var out := MergeTier(prev, tier, table);
      var p :| 0 <= p < |out| && out[p].base == prev[q].base && out[p].key == prev[q].key;
      assert out[p].base == base[i];
    }
  }

  // ---------------------------------------------------------------------
  // Filling the gaps; total stock, surplus and shortage

  /** `fillna(0)` of a merged stock column. */
  function Zeroed(x: Option<real>): real {
    if x.Some? then x.value else 0.0
  }

  /** `fillna(0)` of a catalog column, which holds a number or a gap. */
  function ZeroedValue(v: Value): real {
    if v.Fin? then v.v else 0.0
  }

  /** A row of the report before the consumption merge. */
  datatype Detail = Detail(
    base: BaseTable.BaseRow, key: string,
    ratio: real, maxima: real, rend: real, cob: real, target: Value,
    stocks: TierStocks, total: real, excedentes: Value, faltantes: Value)

  /** `excedentes`: the stock above the target, never below 0. */
  function Surplus(total: real, target: Value): Value {
    Max(Sub(Fin(total), target), Fin(0.0))
  }

  /** `faltantes`: the stock missing to reach the target, never below 0. */
  function Shortage(total: real, target: Value): Value {
    Max(Sub(target, Fin(total)), Fin(0.0))
  }

  /** A merged row after `fillna(0)`, with total stock, surplus and shortage. */
  function Filled(r: MergedRow): Detail {
    var stocks := TierStocks(Zeroed(r.slots.production), Zeroed(r.slots.transit),
                             Zeroed(r.slots.hub), Zeroed(r.slots.general));
    var total := stocks.production + stocks.transit + stocks.hub + stocks.general;
    var target := FillNaN(r.base.target, 0.0);
    Detail(r.base, r.key,
           ZeroedValue(BaseTable.RatioNominal(r.base.ratio)),
           ZeroedValue(BaseTable.MaximaDescarga(r.base.capacity)),
           ZeroedValue(BaseTable.Rendimiento(r.base.capacity)),
           ZeroedValue(BaseTable.CoberturaIdeal(r.base.capacity)),
           target, stocks, total, Surplus(total, target), Shortage(total, target))
  }

  function Details(rows: seq<MergedRow>): (ds: seq<Detail>)
    ensures |ds| == |rows|
    ensures forall i :: 0 <= i < |rows| ==> ds[i] == Filled(rows[i])
  {
    seq(|rows|, i requires 0 <= i < |rows| => Filled(rows[i]))
  }

  /** A value that is a non-negative number or +infinity. */
  predicate NonNegative(v: Value) {
    v == PosInf || (v.Fin? && v.v >= 0.0)
  }

  /** Surplus and shortage are never negative and never both positive; on a
      finite target their difference is total minus target; an infinite
      target leaves one of them infinite and the other 0. */
  lemma SurplusShortage(total: real, target: Value)
    requires !target.NaN?
    ensures NonNegative(Surplus(total, target)) && NonNegative(Shortage(total, target))
    ensures Surplus(total, target) == Fin(0.0) || Shortage(total, target) == Fin(0.0)
    ensures target.Fin? ==>
              Surplus(total, target).Fin? && Shortage(total, target).Fin? &&
              Surplus(total, target).v - Shortage(total, target).v == total - target.v
    ensures target == PosInf ==> Surplus(total, target) == Fin(0.0) && Shortage(total, target) == PosInf
    ensures target == NegInf ==> Surplus(total, target) == PosInf && Shortage(total, target) == Fin(0.0)
  {
  }

  /** After the fill every tier column holds the merged quantity or 0, the
      total is their sum, the target is never NaN (a missing one is 0), and
      surplus and shortage obey `SurplusShortage`. */
  lemma FilledRow(r: MergedRow)
    ensures var d := Filled(r);
      (forall t :: StockOf(d.stocks, t) == Zeroed(Slot(r.slots, t))) &&
      d.total == StockOf(d.stocks, Production) + StockOf(d.stocks, Transit) +
                 StockOf(d.stocks, Hub) + StockOf(d.stocks, General) &&
      !d.target.NaN? && (r.base.target.NaN? ==> d.target == Fin(0.0)) &&
      NonNegative(d.excedentes) && NonNegative(d.faltantes) &&
      (d.excedentes == Fin(0.0) || d.faltantes == Fin(0.0))
  {
    var d := Filled(r);
    assert d.excedentes == Surplus(d.total, d.target) && d.faltantes == Shortage(d.total, d.target);
    SurplusShortage(d.total, d.target);
  }

  // ---------------------------------------------------------------------
  // The consumption merge and the coverage

  /** A row of the report. `coverage.target` is the recomputed target that
      replaces the base target in the final table. */
  datatype ReportRow = ReportRow(
    detail: Detail, cantidad: Value, dias: Value, consumo: Value, coverage: CoverageCols)

  function DetailKey(d: Detail): string {
    d.key
  }

  function RateKey(c: Consumption.ConsumptionRow): string {
    c.key
  }

  /** The merged consumption columns; a row with no consumption gets NaN. */
  function Consumo(c: Option<Consumption.ConsumptionRow>): Value {
    if c.Some? then c.value.consumo else NaN
  }

  function Cantidad(c: Option<Consumption.ConsumptionRow>): Value {
    if c.Some? then Fin(c.value.cantidad) else NaN
  }

  function Dias(c: Option<Consumption.ConsumptionRow>): Value {
    if c.Some? && c.value.dias.Some? then Fin(c.value.dias.value as real) else NaN
  }

  /** The columns of a report row the coverage calculator reads. */
  function InputOf(d: Detail, consumo: Value): CoverageInput {
    CoverageInput(d.ratio, d.maxima, d.rend, d.cob, d.stocks, consumo)
  }

  /** The consumption merge on `id_localidad_insumo`. */
  function WithRates(base: seq<BaseTable.BaseRow>, tiers: Mb52Tiers, rates: seq<Consumption.ConsumptionRow>)
    : seq<(Detail, Option<Consumption.ConsumptionRow>)>
  {
    Tables.LeftJoin(Details(MergedUpTo(base, tiers, 4)), rates, DetailKey, RateKey)
  }

  /** The coverage report `procesar_datos` returns first. */
  function Report(base: seq<BaseTable.BaseRow>, tiers: Mb52Tiers, rates: seq<Consumption.ConsumptionRow>)
    : (rs: seq<ReportRow>)
    ensures |rs| == |WithRates(base, tiers, rates)|
  {
    var j := WithRates(base, tiers, rates);
    seq(|j|, k requires 0 <= k < |j| =>
      ReportRow(j[k].0, Cantidad(j[k].1), Dias(j[k].1), Consumo(j[k].1),
                CoverageOf(InputOf(j[k].0, Consumo(j[k].1)))))
  }

  /** The report: the tier merges, the fill and the three stock columns, the
      consumption merge and `calcular_cobertura`. */
  method ProcessDetail(base: seq<BaseTable.BaseRow>, tiers: Mb52Tiers, rates: seq<Consumption.ConsumptionRow>)
    returns (report: seq<ReportRow>)
    ensures report == Report(base, tiers, rates)
  {
    var rows := MergeStocks(base, tiers);
    var details := Details(rows);
    var j := Tables.LeftJoin(details, rates, DetailKey, RateKey);
    var inputs := seq(|j|, k requires 0 <= k < |j| => InputOf(j[k].0, Consumo(j[k].1)));
    var coverage := CalcularCobertura(inputs);
    report := seq(|j|, k requires 0 <= k < |j| && k < |coverage| =>
                ReportRow(j[k].0, Cantidad(j[k].1), Dias(j[k].1), Consumo(j[k].1), coverage[k]));
  }

  /** Every base row reaches the report. */
  lemma ReportKeepsBase(base: seq<BaseTable.BaseRow>, tiers: Mb52Tiers, rates: seq<Consumption.ConsumptionRow>, i: int)
    requires 0 <= i < |base|
    ensures exists k :: 0 <= k < |Report(base, tiers, rates)| && Report(base, tiers, rates)[k].detail.base == base[i]
  {
    var rows := MergedUpTo(base, tiers, 4);
    MergedKeepsBase(base, tiers, 4, i);
    var p :| 0 <= p < |rows| && rows[p].base == base[i];
    var ds := Details(rows);
    Tables.LeftJoinKeepsRow(ds, rates, DetailKey, RateKey, p);
    var j := WithRates(base, tiers, rates);
    var k :| 0 <= k < |j| && j[k].0 == ds[p];
    ReportRowAt(base, tiers, rates, k);
  }

  /** Row `k` of the report is made from row `k` of the consumption merge. */
  lemma ReportRowAt(base: seq<BaseTable.BaseRow>, tiers: Mb52Tiers, rates: seq<Consumption.ConsumptionRow>, k: int)
    requires 0 <= k < |WithRates(base, tiers, rates)|
    ensures var j := WithRates(base, tiers, rates)[k];
      Report(base, tiers, rates)[k] ==
        ReportRow(j.0, Cantidad(j.1), Dias(j.1), Consumo(j.1), CoverageOf(InputOf(j.0, Consumo(j.1))))
  {
  }

  /** Every report row stems from a base row with its key; the column of tier
      `t` holds the quantity of a group of that tier with the row's key, or 0
      when the tier has no such group; the total is the sum of the four. */
  lemma ReportRowStocks(base: seq<BaseTable.BaseRow>, tiers: Mb52Tiers, rates: seq<Consumption.ConsumptionRow>,
                        k: int, t: Tier)
    requires 0 <= k < |Report(base, tiers, rates)|
    ensures var d := Report(base, tiers, rates)[k].detail;
      d.base in base && d.key == BaseKey(d.base) &&
      d.total == d.stocks.production + d.stocks.transit + d.stocks.hub + d.stocks.general &&
      ((forall x :: 0 <= x < |TierTable(tiers, t)| ==> TierTable(tiers, t)[x].key != d.key) ==>
         StockOf(d.stocks, t) == 0.0) &&
      ((exists x :: 0 <= x < |TierTable(tiers, t)| && TierTable(tiers, t)[x].key == d.key) ==>
         exists x :: 0 <= x < |TierTable(tiers, t)| && TierTable(tiers, t)[x].key == d.key &&
                     TierTable(tiers, t)[x].qty == StockOf(d.stocks, t))
  {
    var rows := MergedUpTo(base, tiers, 4);
    var ds := Details(rows);
    var p := Tables.LeftJoinRow(ds, rates, DetailKey, RateKey, k);
    MergedRowAt(base, tiers, 4, p, t);
    var d := Report(base, tiers, rates)[k].detail;
    assert d == Filled(rows[p]);
    assert StockOf(d.stocks, t) == Zeroed(Slot(rows[p].slots, t));
  }

  /** Every report row carries the consumption of its key: the rate, quantity
      and days of a consumption row with that key, or NaN in all three when
      there is none; its coverage is the coverage of its own columns. */
  lemma ReportRowConsumption(base: seq<BaseTable.BaseRow>, tiers: Mb52Tiers, rates: seq<Consumption.ConsumptionRow>, k: int)
    requires 0 <= k < |Report(base, tiers, rates)|
    ensures var r := Report(base, tiers, rates)[k];
      r.coverage == CoverageOf(InputOf(r.detail, r.consumo)) &&
      ((forall x :: 0 <= x < |rates| ==> rates[x].key != r.detail.key) ==>
         r.consumo == NaN && r.cantidad == NaN && r.dias == NaN) &&
      ((exists x :: 0 <= x < |rates| && rates[x].key == r.detail.key) ==>
         exists x :: 0 <= x < |rates| && rates[x].key == r.detail.key &&
                     r.consumo == rates[x].consumo && r.cantidad == Fin(rates[x].cantidad))
  {
    var ds := Details(MergedUpTo(base, tiers, 4));
    var j := WithRates(base, tiers, rates);
    var p := Tables.LeftJoinRow(ds, rates, DetailKey, RateKey, k);
    if j[k].1.Some? {
      var x :| 0 <= x < |rates| && rates[x] == j[k].1.value;
    }
  }
}
