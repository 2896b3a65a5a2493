/** The per-material roll-up of the coverage report (the tail of
    `procesar_datos`): one row per material with summed, averaged and first
    columns, and its coverage recomputed from those aggregates. */
module MaterialView {
  import opened Wrappers
  import opened Num
  import Tables
  import opened StockTiers
  import BaseTable
  import Consumption
  import opened Coverage
  import opened Reconcile

  function RowMaterial(r: ReportRow): string {
    r.detail.base.item.idInsumo
  }

  /** The group-by column. */
  function Materials(report: seq<ReportRow>): (ids: seq<string>)
    ensures |ids| == |report|
    ensures forall i :: 0 <= i < |report| ==> ids[i] == RowMaterial(report[i])
  {
    seq(|report|, i requires 0 <= i < |report| => RowMaterial(report[i]))
  }

  /** A column of the report. */
  function Col<T>(report: seq<ReportRow>, f: ReportRow -> T): (c: seq<T>)
    ensures |c| == |report|
    ensures forall i :: 0 <= i < |report| ==> c[i] == f(report[i])
  {
    seq(|report|, i requires 0 <= i < |report| => f(report[i]))
  }

  function RowTotal(r: ReportRow): real { r.detail.total }
  function RowProduction(r: ReportRow): real { r.detail.stocks.production }
  function RowTransit(r: ReportRow): real { r.detail.stocks.transit }
  function RowHub(r: ReportRow): real { r.detail.stocks.hub }
  function RowGeneral(r: ReportRow): real { r.detail.stocks.general }
  function RowRatio(r: ReportRow): real { r.detail.ratio }
  function RowRend(r: ReportRow): real { r.detail.rend }
  function RowCob(r: ReportRow): real { r.detail.cob }
  function RowMaxima(r: ReportRow): real { r.detail.maxima }
  function RowSurplus(r: ReportRow): Value { r.detail.excedentes }
  function RowShortage(r: ReportRow): Value { r.detail.faltantes }
  function RowCantidad(r: ReportRow): Value { r.cantidad }
  function RowConsumo(r: ReportRow): Value { r.consumo }

  /** `sum` of one material's values in a column that may hold NaN: the NaN
      are skipped, so a material with no number sums to 0. */
  function SumSkipWhere(keys: seq<string>, vals: seq<Value>, k: string): Value
    requires |keys| == |vals|
  {
    if keys == [] then Fin(0.0)
    else
      var acc := SumSkipWhere(keys[..|keys| - 1], vals[..|vals| - 1], k);
      var v := vals[|vals| - 1];
      if keys[|keys| - 1] == k && !v.NaN? then Add(acc, v) else acc
  }

  /** `sum` of one material's values. */
  function SumOf(report: seq<ReportRow>, f: ReportRow -> real, m: string): real {
    Tables.SumWhere(Materials(report), Col(report, f), m)
  }

  /** `mean` of one material's values (0 for a material with no row). */
  function MeanOf(report: seq<ReportRow>, f: ReportRow -> real, m: string): real {
    var n := Tables.Count(Materials(report), m);
    if n == 0 then 0.0 else SumOf(report, f, m) / n as real
  }

  function SumSkipOf(report: seq<ReportRow>, f: ReportRow -> Value, m: string): Value {
    SumSkipWhere(Materials(report), Col(report, f), m)
  }

  /** The descriptive columns taken from a material's first row. */
  datatype Descriptors = Descriptors(nombre: string, familia: Option<string>, familia2: Option<string>)

  function DescriptorsOf(r: ReportRow): Descriptors {
    var ratio := r.detail.base.ratio;
    Descriptors(r.detail.base.item.nombre,
                if ratio.Some? then Some(ratio.value.familia) else None,
                if ratio.Some? then Some(ratio.value.familia2) else None)
  }

  /** The aggregated columns of one material, before the recomputation. */
  datatype Aggregate = Aggregate(
    idInsumo: string, total: real, excedentes: Value, faltantes: Value,
    cantidad: Value, consumo: Value, stocks: TierStocks,
    ratio: real, rend: real, cob: real, maxima: real, descriptors: Option<Descriptors>)

  function AggregateOf(report: seq<ReportRow>, m: string): Aggregate {
    var first := Tables.FirstMatch(report, RowMaterial, m);
    Aggregate(
      m, SumOf(report, RowTotal, m),
      SumSkipOf(report, RowSurplus, m), SumSkipOf(report, RowShortage, m),
      SumSkipOf(report, RowCantidad, m), SumSkipOf(report, RowConsumo, m),
      TierStocks(SumOf(report, RowProduction, m), SumOf(report, RowTransit, m),
                 SumOf(report, RowHub, m), SumOf(report, RowGeneral, m)),
      MeanOf(report, RowRatio, m), MeanOf(report, RowRend, m),
      MeanOf(report, RowCob, m), MeanOf(report, RowMaxima, m),
      if first.Some? then Some(DescriptorsOf(first.value)) else None)
  }

  /** The columns the recomputation reads from an aggregated row. */
  function AggregateInput(a: Aggregate): CoverageInput {
    CoverageInput(a.ratio, a.maxima, a.rend, a.cob, a.stocks, a.consumo)
  }

  /** A row of the per-material view; `coverage.target` is the recomputed
      target, which replaces the summed one. */
  datatype MaterialRow = MaterialRow(aggregate: Aggregate, coverage: CoverageCols)

  /** The view's row for material `m`: its aggregates and the coverage
      recomputed from them. */
  function RollUp(report: seq<ReportRow>, m: string): MaterialRow {
    var a := AggregateOf(report, m);
    MaterialRow(a, CoverageOf(AggregateInput(a)))
  }

  /** `df_vista_por_insumo`. */
  function View(report: seq<ReportRow>): (view: seq<MaterialRow>)
    ensures |view| == |Tables.Dedup(Materials(report))|
    ensures forall j :: 0 <= j < |view| ==> view[j] == RollUp(report, Tables.Dedup(Materials(report))[j])
  {
    var d := Tables.Dedup(Materials(report));
    seq(|d|, j requires 0 <= j < |d| => RollUp(report, d[j]))
  }

  /** The group-by with its aggregations, then `calcular_cobertura` on the
      aggregated table. */
  method BuildView(report: seq<ReportRow>) returns (view: seq<MaterialRow>)
    ensures view == View(report)
  {
    var aggs := Aggregates(report);
    var coverage := CalcularCobertura(Inputs(aggs));
    view := Rows(aggs, coverage);
    RowsAreView(report, aggs, coverage);
  }

  /** The aggregated rows, one per material in order of first appearance. */
  function Aggregates(report: seq<ReportRow>): (aggs: seq<Aggregate>)
    ensures |aggs| == |Tables.Dedup(Materials(report))|
    ensures forall j :: 0 <= j < |aggs| ==> aggs[j] == AggregateOf(report, Tables.Dedup(Materials(report))[j])
  {
    var d := Tables.Dedup(Materials(report));
    seq(|d|, j requires 0 <= j < |d| => AggregateOf(report, d[j]))
  }

  function Inputs(aggs: seq<Aggregate>): (ins: seq<CoverageInput>)
    ensures |ins| == |aggs|
    ensures forall j :: 0 <= j < |aggs| ==> ins[j] == AggregateInput(aggs[j])
  {
    seq(|aggs|, j requires 0 <= j < |aggs| => AggregateInput(aggs[j]))
  }

  function Rows(aggs: seq<Aggregate>, coverage: seq<CoverageCols>): (rows: seq<MaterialRow>)
    requires |coverage| == |aggs|
    ensures |rows| == |aggs|
    ensures forall j :: 0 <= j < |aggs| ==> rows[j] == MaterialRow(aggs[j], coverage[j])
  {
    seq(|aggs|, j requires 0 <= j < |aggs| => MaterialRow(aggs[j], coverage[j]))
  }

  /** Pairing the aggregates with their recomputed coverage gives the view. */
  lemma RowsAreView(report: seq<ReportRow>, aggs: seq<Aggregate>, coverage: seq<CoverageCols>)
    requires aggs == Aggregates(report)
    requires |coverage| == |aggs|
    requires forall j :: 0 <= j < |aggs| ==> coverage[j] == CoverageOf(Inputs(aggs)[j])
    ensures Rows(aggs, coverage) == View(report)
  {
    var d := Tables.Dedup(Materials(report));
    forall j | 0 <= j < |aggs| ensures Rows(aggs, coverage)[j] == View(report)[j] {
      assert aggs[j] == AggregateOf(report, d[j]);
      assert coverage[j] == CoverageOf(AggregateInput(aggs[j]));
    }
  }

  /** `procesar_datos`: the coverage report and its per-material view. */
  method ProcessData(base: seq<BaseTable.BaseRow>, tiers: Mb52Tiers, rates: seq<Consumption.ConsumptionRow>)
    returns (report: seq<ReportRow>, view: seq<MaterialRow>)
    ensures report == Report(base, tiers, rates)
    ensures view == View(report)
  {
    report := ProcessDetail(base, tiers, rates);
    view := BuildView(report);
  }

  // ---------------------------------------------------------------------
  // Properties of the view

  /** The view has one row per material of the report, no two alike, every
      row of the report has its material's row, and each row is the roll-up
      of its material. */
  lemma ViewOneRowPerMaterial(report: seq<ReportRow>)
    ensures var view := View(report);
      (forall a, b :: 0 <= a < b < |view| ==> view[a].aggregate.idInsumo != view[b].aggregate.idInsumo) &&
      (forall j :: 0 <= j < |view| ==>
         view[j].aggregate.idInsumo in Materials(report) &&
         view[j] == RollUp(report, view[j].aggregate.idInsumo)) &&
      (forall i :: 0 <= i < |report| ==>
         exists j :: 0 <= j < |view| && view[j].aggregate.idInsumo == RowMaterial(report[i]))
  {
    var ids := Materials(report);
    var d := Tables.Dedup(ids);
    var view := View(report);
    assert forall j :: 0 <= j < |view| ==> view[j].aggregate.idInsumo == d[j] by {
      forall j | 0 <= j < |view| ensures view[j].aggregate.idInsumo == d[j] {
        RollUpMaterial(report, d[j]);
      }
    }
    forall i | 0 <= i < |report|
      ensures exists j :: 0 <= j < |view| && view[j].aggregate.idInsumo == RowMaterial(report[i])
    {
      assert ids[i] in d;
      var j :| 0 <= j < |d| && d[j] == ids[i];
      assert view[j].aggregate.idInsumo == RowMaterial(report[i]);
    }
  }

  /** The per-material sums of a column, in view order. */
  function GroupSums(report: seq<ReportRow>, f: ReportRow -> real): (sums: seq<real>)
    ensures |sums| == |Tables.Dedup(Materials(report))|
    ensures forall j :: 0 <= j < |sums| ==> sums[j] == SumOf(report, f, Tables.Dedup(Materials(report))[j])
  {
    var d := Tables.Dedup(Materials(report));
    seq(|d|, j requires 0 <= j < |d| => SumOf(report, f, d[j]))
  }

  /** Summing a column per material and then over the materials gives the
      column's total over the report. */
  lemma {:induction false} SumsConserved(report: seq<ReportRow>, f: ReportRow -> real)
    ensures Tables.Sum(GroupSums(report, f)) == Tables.Sum(Col(report, f))
  {
    var ids, vs := Materials(report), Col(report, f);
    var d := Tables.Dedup(ids);
    Tables.GroupConservation(ids, vs);
    Tables.GroupTotalIsSum(d, ids, vs);
    assert GroupSums(report, f) == seq(|d|, j requires 0 <= j < |d| => Tables.SumWhere(ids, vs, d[j]));
  }

  function ViewTotals(view: seq<MaterialRow>): (c: seq<real>)
    ensures |c| == |view|
    ensures forall j :: 0 <= j < |view| ==> c[j] == view[j].aggregate.total
  {
    seq(|view|, j requires 0 <= j < |view| => view[j].aggregate.total)
  }

  function ViewStocks(view: seq<MaterialRow>, t: Tier): (c: seq<real>)
    ensures |c| == |view|
    ensures forall j :: 0 <= j < |view| ==> c[j] == StockOf(view[j].aggregate.stocks, t)
  {
    seq(|view|, j requires 0 <= j < |view| => StockOf(view[j].aggregate.stocks, t))
  }

  lemma RollUpMaterial(report: seq<ReportRow>, m: string)
    ensures RollUp(report, m).aggregate.idInsumo == m
  {
  }

  lemma RollUpSums(report: seq<ReportRow>, m: string, t: Tier)
    ensures RollUp(report, m).aggregate.total == SumOf(report, RowTotal, m)
    ensures StockOf(RollUp(report, m).aggregate.stocks, t) == SumOf(report, TierColumn(t), m)
  {
  }

  /** The roll-up loses and adds no stock: the view's total stock adds up to
      the report's. */
  lemma ViewConservesTotal(report: seq<ReportRow>)
    ensures Tables.Sum(ViewTotals(View(report))) == Tables.Sum(Col(report, RowTotal))
  {
    var view, sums := View(report), GroupSums(report, RowTotal);
    assert ViewTotals(view) == sums by {
      forall j | 0 <= j < |view| ensures ViewTotals(view)[j] == sums[j] {
        RollUpSums(report, Tables.Dedup(Materials(report))[j], General);
      }
    }
    SumsConserved(report, RowTotal);
  }

  /** Nor the stock of any tier: the view's stock of tier `t` adds up to the
      report's. */
  lemma ViewConservesTier(report: seq<ReportRow>, t: Tier)
    ensures Tables.Sum(ViewStocks(View(report), t)) == Tables.Sum(Col(report, TierColumn(t)))
  {
    var view, sums := View(report), GroupSums(report, TierColumn(t));
    assert ViewStocks(view, t) == sums by {
      forall j | 0 <= j < |view| ensures ViewStocks(view, t)[j] == sums[j] {
        RollUpSums(report, Tables.Dedup(Materials(report))[j], t);
      }
    }
    SumsConserved(report, TierColumn(t));
  }

  function TierColumn(t: Tier): ReportRow -> real {
    match t
    case Production => RowProduction
    case Transit => RowTransit
    case Hub => RowHub
    case General => RowGeneral
  }

  /** The mean of a column in which every row of the material holds `c` is
      `c`. */
  lemma MeanOfEqualRows(report: seq<ReportRow>, f: ReportRow -> real, m: string, c: real)
    requires m in Materials(report)
    requires forall i :: 0 <= i < |report| && RowMaterial(report[i]) == m ==> f(report[i]) == c
    ensures MeanOf(report, f, m) == c
  {
    var ids := Materials(report);
    Tables.CountPositive(ids, m);
    var n := Tables.Count(ids, m) as real;
    assert SumOf(report, f, m) == c * n by {
      forall i | 0 <= i < |ids| && ids[i] == m ensures Col(report, f)[i] == c {
        assert RowMaterial(report[i]) == m;
      }
      Tables.SumWhereConst(ids, Col(report, f), m, c);
    }
    DivCancel(c, n);
  }

  lemma DivCancel(c: real, n: real)
    requires n >= 1.0
    ensures c * n / n == c
  {
  }

  /** The view's target is recomputed from averaged inputs, not summed: when
      every row of a material has the same ratio, discharge, yield and ideal
      days, the view's target for it is the target of each of its rows,
      however many rows (locations) it has. */
  lemma ViewTargetOfEqualRows(report: seq<ReportRow>, i: int)
    requires 0 <= i < |report|
    requires forall x :: 0 <= x < |report| && RowMaterial(report[x]) == RowMaterial(report[i]) ==>
               report[x].detail.ratio == report[i].detail.ratio &&
               report[x].detail.maxima == report[i].detail.maxima &&
               report[x].detail.rend == report[i].detail.rend &&
               report[x].detail.cob == report[i].detail.cob
    ensures RollUp(report, RowMaterial(report[i])).coverage.target == Target(InputOf(report[i].detail, report[i].consumo))
  {
    var m := RowMaterial(report[i]);
    assert m in Materials(report) by { assert Materials(report)[i] == m; }
    MeanOfEqualRows(report, RowRatio, m, report[i].detail.ratio);
    MeanOfEqualRows(report, RowMaxima, m, report[i].detail.maxima);
    MeanOfEqualRows(report, RowRend, m, report[i].detail.rend);
    MeanOfEqualRows(report, RowCob, m, report[i].detail.cob);
  }

  lemma {:induction false} SumSkipSingle(keys: seq<string>, vals: seq<Value>, k: string, i: int)
    requires |keys| == |vals| && 0 <= i < |keys| && keys[i] == k
    requires forall x :: 0 <= x < |keys| && x != i ==> keys[x] != k
    ensures SumSkipWhere(keys, vals, k) == FillNaN(vals[i], 0.0)
  {
    var n := |keys| - 1;
    var init, vinit := keys[..n], vals[..n];
    if i == n {
      SumSkipAbsent(init, vinit, k);
    } else {
      assert forall x :: 0 <= x < n ==> init[x] == keys[x] && vinit[x] == vals[x];
      SumSkipSingle(init, vinit, k, i);
    }
  }

  lemma {:induction false} SumSkipAbsent(keys: seq<string>, vals: seq<Value>, k: string)
    requires |keys| == |vals|
    requires forall x :: 0 <= x < |keys| ==> keys[x] != k
    ensures SumSkipWhere(keys, vals, k) == Fin(0.0)
  {
    if keys != [] {
      var n := |keys| - 1;
      assert forall x :: 0 <= x < n ==> keys[..n][x] == keys[x];
      SumSkipAbsent(keys[..n], vals[..n], k);
    }
  }

  /** Sums and means of a material with the single row `i`. */
  lemma SingleSum(report: seq<ReportRow>, f: ReportRow -> real, i: int)
    requires 0 <= i < |report|
    requires forall x :: 0 <= x < |report| && x != i ==> RowMaterial(report[x]) != RowMaterial(report[i])
    ensures SumOf(report, f, RowMaterial(report[i])) == f(report[i])
    ensures MeanOf(report, f, RowMaterial(report[i])) == f(report[i])
  {
    Tables.SumWhereSingle(Materials(report), Col(report, f), RowMaterial(report[i]), i);
  }

  lemma SingleSkip(report: seq<ReportRow>, f: ReportRow -> Value, i: int)
    requires 0 <= i < |report|
    requires forall x :: 0 <= x < |report| && x != i ==> RowMaterial(report[x]) != RowMaterial(report[i])
    ensures SumSkipOf(report, f, RowMaterial(report[i])) == FillNaN(f(report[i]), 0.0)
  {
    SumSkipSingle(Materials(report), Col(report, f), RowMaterial(report[i]), i);
  }

  /** A material with a single report row keeps that row's stock, surplus,
      shortage and reference columns in the view; its consumption becomes 0
      when the row had none (NaN is skipped by the sum); when it had one, the
      view's coverage is the row's coverage (which `ReportRowConsumption`
      shows every report row carries). */
  lemma SingleRowMaterial(report: seq<ReportRow>, i: int)
    requires 0 <= i < |report|
    requires forall x :: 0 <= x < |report| && x != i ==> RowMaterial(report[x]) != RowMaterial(report[i])
    requires report[i].coverage == CoverageOf(InputOf(report[i].detail, report[i].consumo))
    ensures var a, r := RollUp(report, RowMaterial(report[i])).aggregate, report[i];
      a.total == r.detail.total && a.stocks == r.detail.stocks &&
      a.ratio == r.detail.ratio && a.maxima == r.detail.maxima &&
      a.rend == r.detail.rend && a.cob == r.detail.cob &&
      a.excedentes == FillNaN(r.detail.excedentes, 0.0) &&
      a.faltantes == FillNaN(r.detail.faltantes, 0.0) &&
      a.consumo == FillNaN(r.consumo, 0.0)
    ensures !report[i].consumo.NaN? ==> RollUp(report, RowMaterial(report[i])).coverage == report[i].coverage
  {
    SingleSum(report, RowTotal, i);
    SingleSum(report, RowProduction, i);
    SingleSum(report, RowTransit, i);
    SingleSum(report, RowHub, i);
    SingleSum(report, RowGeneral, i);
    SingleSum(report, RowRatio, i);
    SingleSum(report, RowMaxima, i);
    SingleSum(report, RowRend, i);
    SingleSum(report, RowCob, i);
    SingleSkip(report, RowSurplus, i);
    SingleSkip(report, RowShortage, i);
    SingleSkip(report, RowConsumo, i);
  }
}
