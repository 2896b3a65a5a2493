/** The earlier revision of the reconciliation helpers (`funciones.py`). Its
    location id, tier split and coverage step are the ones the current
    revision uses; it differs in taking the material id straight from the
    SAP code, in skipping the SAP-coded key, in ending the processing with a
    merge of the catalog descriptors on the material id (and no per-material
    view), and it adds the split of the purchase-order extract by item
    type. */
module Legacy {
  import opened Wrappers
  import Tables
  import Keys
  import Catalog
  import SapFrame
  import opened StockTiers
  import BaseTable
  import Consumption
  import Reconcile

  // ---------------------------------------------------------------------
  // Ids and stock

  /** The columns a frame has after the earlier id generation: no SAP id and
      no SAP-coded key. */
  function LegacyIdColumns(cols: set<SapFrame.Column>, tipo: string): set<SapFrame.Column> {
    cols + {SapFrame.IdLocalidad, SapFrame.Insumo, SapFrame.Key}
    + (if SapFrame.StockApplies(cols, tipo) then {SapFrame.Stock} else {})
  }

  lemma LegacyIdColumnsHas(c: SapFrame.Column, cols: set<SapFrame.Column>, tipo: string)
    ensures c in LegacyIdColumns(cols, tipo) <==>
              c in cols || c == SapFrame.IdLocalidad || c == SapFrame.Insumo || c == SapFrame.Key ||
              (c == SapFrame.Stock && SapFrame.StockApplies(cols, tipo))
  {
  }

  /** A row after the earlier id generation: the material id is always the
      SAP code, overwriting any mapped one. */
  function LegacyWithIds(r: SapFrame.SapRow, cols: set<SapFrame.Column>, tipo: string): SapFrame.SapRow {
    var loc := Keys.LocationId(r.centro, r.almacen);
    r.(idLocalidad := loc, insumo := Some(r.material),
       stock := if SapFrame.StockApplies(cols, tipo) then r.libre + r.calidad else r.stock,
       key := Some(Keys.CompositeKey(loc, r.material)))
  }

  function LegacyWithIdsAll(rows: seq<SapFrame.SapRow>, cols: set<SapFrame.Column>, tipo: string): (out: seq<SapFrame.SapRow>)
    ensures |out| == |rows|
    ensures forall i :: 0 <= i < |rows| ==> out[i] == LegacyWithIds(rows[i], cols, tipo)
  {
    seq(|rows|, i requires 0 <= i < |rows| => LegacyWithIds(rows[i], cols, tipo))
  }

  function SetMaterial(r: SapFrame.SapRow): SapFrame.SapRow {
    r.(insumo := Some(r.material))
  }

  /** The earlier `generar_ids_y_stock`, in place. Fails (the source raises)
      when the frame has no SAP code column; the location column is written
      before that happens. */
  method LegacyAddIdsAndStock(f: SapFrame.Frame, tipo: string) returns (ok: bool)
    modifies f
    ensures ok <==> SapFrame.Material in old(f.cols)
    ensures ok ==> f.cols == LegacyIdColumns(old(f.cols), tipo) &&
                   f.rows == LegacyWithIdsAll(old(f.rows), old(f.cols), tipo)
    ensures !ok ==> f.cols == old(f.cols) + {SapFrame.IdLocalidad} &&
                    f.rows == seq(|old(f.rows)|, i requires 0 <= i < |old(f.rows)| => SapFrame.SetLocation(old(f.rows)[i]))
  {
    var cols0, rows0 := f.cols, f.rows;
    var cs := cols0 + {SapFrame.IdLocalidad};
    var rs := seq(|rows0|, i requires 0 <= i < |rows0| => SapFrame.SetLocation(rows0[i]));
    if SapFrame.Material !in cs {
      f.rows, f.cols := rs, cs;
      return false;
    }
    rs := seq(|rs|, i requires 0 <= i < |rs| => SetMaterial(rs[i]));
    cs := cs + {SapFrame.Insumo};
    if SapFrame.Libre in cs && SapFrame.Calidad in cs && tipo == "general" {
      rs := seq(|rs|, i requires 0 <= i < |rs| => SapFrame.SetStock(rs[i]));
      cs := cs + {SapFrame.Stock};
    }
    rs := seq(|rs|, i requires 0 <= i < |rs| => SapFrame.SetKey(rs[i]));
    cs := cs + {SapFrame.Key};
    assert cs == LegacyIdColumns(cols0, tipo) by {
      forall c ensures c in cs <==> c in LegacyIdColumns(cols0, tipo) {
        LegacyIdColumnsHas(c, cols0, tipo);
      }
    }
    assert rs == LegacyWithIdsAll(rows0, cols0, tipo) by {
      forall i | 0 <= i < |rows0| ensures rs[i] == LegacyWithIds(rows0[i], cols0, tipo) {
        LegacyWithIdsBySteps(rows0[i], cols0, tipo);
      }
    }
    f.rows, f.cols := rs, cs;
    ok := true;
  }

  /** The column writes, in the order the earlier source makes them, give
      `LegacyWithIds`. */
  lemma LegacyWithIdsBySteps(r: SapFrame.SapRow, cols: set<SapFrame.Column>, tipo: string)
    ensures var b := SetMaterial(SapFrame.SetLocation(r));
            var c := if SapFrame.StockApplies(cols, tipo) then SapFrame.SetStock(b) else b;
            LegacyWithIds(r, cols, tipo) == SapFrame.SetKey(c)
  {
  }

  /** Both revisions agree on a frame that has no material id yet, except
      for the SAP id and the SAP-coded key the earlier one does not write.
      On a frame whose material ids were already mapped from SAP codes, the
      earlier revision replaces every mapped id by the SAP code again. */
  lemma LegacyAgreesOnUnmappedFrames(r: SapFrame.SapRow, cols: set<SapFrame.Column>, tipo: string)
    requires SapFrame.Material in cols
    ensures SapFrame.Insumo !in cols ==>
      LegacyWithIds(r, cols, tipo) == SapFrame.WithIds(r, cols, tipo).(sap := r.sap, keySap := r.keySap)
    ensures SapFrame.Insumo in cols ==>
      LegacyWithIds(r, cols, tipo).insumo == Some(r.material) &&
      (r.insumo != Some(r.material) ==> LegacyWithIds(r, cols, tipo).insumo != SapFrame.WithIds(r, cols, tipo).insumo)
    ensures SapFrame.Sap !in LegacyIdColumns(cols, tipo) - cols && SapFrame.KeySap !in LegacyIdColumns(cols, tipo) - cols
  {
  }

  // ---------------------------------------------------------------------
  // Tier split and valuation

  /** The earlier `generar_y_separar_mb52`: the same grouping and split over
      the earlier ids. */
  method LegacySplitMb52(f: SapFrame.Frame, tipo: string) returns (res: Result<Mb52Tiers>)
    modifies f
    ensures res.Success? <==>
              SapFrame.Material in old(f.cols) &&
              (SapFrame.Stock in old(f.cols) || SapFrame.StockApplies(old(f.cols), tipo))
    ensures res.Success? ==>
              f.cols == LegacyIdColumns(old(f.cols), tipo) &&
              f.rows == LegacyWithIdsAll(old(f.rows), old(f.cols), tipo) &&
              res.value == Split(Grouped(f.rows))
  {
    ghost var cols0 := f.cols;
    var ok := LegacyAddIdsAndStock(f, tipo);
    if !ok {
      return Failure("KeyError: 'Material'");
    }
    LegacyIdColumnsHas(SapFrame.Stock, cols0, tipo);
    if SapFrame.Stock !in f.cols {
      return Failure("KeyError: 'stock_libre_mas_calidad'");
    }
    var groups := GroupStock(f.rows);
    res := Success(Split(groups));
  }

  /** Every row has a material under the earlier ids, so no row is dropped
      by the group-by: the four tier tables hold the whole snapshot's
      stock. */
  lemma LegacySplitConservesStock(rows: seq<SapFrame.SapRow>, cols: set<SapFrame.Column>, tipo: string)
    ensures var w := LegacyWithIdsAll(rows, cols, tipo);
      var t := Split(Grouped(w));
      Total(t.production) + Total(t.transit) + Total(t.hub) + Total(t.general)
        == Tables.Sum(SapFrame.Stocks(w))
  {
    var w := LegacyWithIdsAll(rows, cols, tipo);
    Tables.FilterAll(w, HasGroupKey);
    assert GroupStocks(w) == SapFrame.Stocks(w);
    GroupedConservesStock(w);
    SplitPartitions(Grouped(w));
  }

  /** The earlier `generar_ids_y_stock_valor`: stock and value per location
      over the earlier ids. */
  method LegacyValueByLocation(f: SapFrame.Frame, tipo: string) returns (res: Result<seq<SapFrame.LocationValue>>)
    modifies f
    ensures res.Success? ==> res.value == SapFrame.ByLocation(f.rows)
    ensures res.Success? <==>
      SapFrame.Material in old(f.cols) &&
      (SapFrame.Stock in old(f.cols) || SapFrame.StockApplies(old(f.cols), tipo)) &&
      (SapFrame.Valor in old(f.cols) || SapFrame.ValueApplies(old(f.cols), tipo))
    ensures SapFrame.Material in old(f.cols) ==>
      f.cols == LegacyIdColumns(old(f.cols), tipo) +
                (if SapFrame.ValueApplies(old(f.cols), tipo) then {SapFrame.Valor} else {}) &&
      f.rows == SapFrame.WithValueAll(LegacyWithIdsAll(old(f.rows), old(f.cols), tipo), old(f.cols), tipo)
    ensures SapFrame.Material !in old(f.cols) ==>
      f.cols == old(f.cols) + {SapFrame.IdLocalidad} &&
      f.rows == seq(|old(f.rows)|, i requires 0 <= i < |old(f.rows)| => SapFrame.SetLocation(old(f.rows)[i]))
  {
    ghost var cols0 := f.cols;
    var ok := LegacyAddIdsAndStock(f, tipo);
    if !ok {
      return Failure("KeyError: 'Material'");
    }
    LegacyIdColumnsHas(SapFrame.Stock, cols0, tipo);
    LegacyIdColumnsHas(SapFrame.Valor, cols0, tipo);
    LegacyIdColumnsHas(SapFrame.ValorLibre, cols0, tipo);
    LegacyIdColumnsHas(SapFrame.ValorCalidad, cols0, tipo);
    assert SapFrame.ValueApplies(f.cols, tipo) == SapFrame.ValueApplies(cols0, tipo);
    ghost var rows1 := f.rows;
    res := f.AddValueAndSum(tipo);
    assert f.rows == SapFrame.WithValueAll(rows1, cols0, tipo);
  }

  // ---------------------------------------------------------------------
  // Purchase orders by item type

  /** The item-type code of the purchase-order lines kept apart. */
  const ServiceType := "V"

  /** `filtrar_por_tipo_posicion`: the lines whose item type is `V`, and the
      rest, each in the extract's order. */
  function SplitByType<T>(rows: seq<T>, tipo: T -> string): (r: (seq<T>, seq<T>))
    ensures forall i :: 0 <= i < |r.0| ==> r.0[i] in rows && tipo(r.0[i]) == ServiceType
    ensures forall i :: 0 <= i < |r.1| ==> r.1[i] in rows && tipo(r.1[i]) != ServiceType
    ensures forall i :: 0 <= i < |rows| ==> rows[i] in (if tipo(rows[i]) == ServiceType then r.0 else r.1)
  {
    (Tables.Filter(rows, (x: T) => tipo(x) == ServiceType), Tables.Filter(rows, (x: T) => tipo(x) != ServiceType))
  }

  /** The two parts partition the extract: together they hold every line
      exactly as often as the extract does. */
  lemma {:induction false} SplitByTypePartition<T>(rows: seq<T>, tipo: T -> string)
    ensures var r := SplitByType(rows, tipo);
      multiset(r.0) + multiset(r.1) == multiset(rows) && |r.0| + |r.1| == |rows|
  {
    if rows != [] {
      SplitByTypePartition(rows[1..], tipo);
      assert rows == [rows[0]] + rows[1..];
    }
  }

  // ---------------------------------------------------------------------
  // Processing

  function ReportMaterial(r: Reconcile.ReportRow): string {
    r.detail.base.item.idInsumo
  }

  function ItemMaterial(i: Catalog.Item): string {
    i.idInsumo
  }

  /** The earlier `procesar_datos`: the coverage report, merged with the
      catalog's name, final id and rounding on the material id alone. */
  function LegacyReport(base: seq<BaseTable.BaseRow>, tiers: Mb52Tiers, rates: seq<Consumption.ConsumptionRow>,
                        items: seq<Catalog.Item>): seq<(Reconcile.ReportRow, Option<Catalog.Item>)>
  {
    Tables.LeftJoin(Reconcile.Report(base, tiers, rates), items, ReportMaterial, ItemMaterial)
  }

  method LegacyProcessData(base: seq<BaseTable.BaseRow>, tiers: Mb52Tiers, rates: seq<Consumption.ConsumptionRow>,
                           items: seq<Catalog.Item>)
    returns (out: seq<(Reconcile.ReportRow, Option<Catalog.Item>)>)
    ensures out == LegacyReport(base, tiers, rates, items)
  {
    var report := Reconcile.ProcessDetail(base, tiers, rates);
    out := Tables.LeftJoin(report, items, ReportMaterial, ItemMaterial);
  }

  /** The final merge keeps every report row and repeats it once per catalog
      row of its material: the catalog lists a material once per location,
      so a material stocked at n locations comes out n times per report row.
      Each row's descriptor is a catalog row of its material, and it is
      absent only when the catalog does not list the material. */
  lemma LegacyReportRows(base: seq<BaseTable.BaseRow>, tiers: Mb52Tiers, rates: seq<Consumption.ConsumptionRow>,
                         items: seq<Catalog.Item>, k: int)
    requires 0 <= k < |LegacyReport(base, tiers, rates, items)|
    ensures var report, out := Reconcile.Report(base, tiers, rates), LegacyReport(base, tiers, rates, items);
      |out| == Tables.Copies(report, items, ReportMaterial, ItemMaterial) && |out| >= |report| &&
      out[k].0 in report &&
      (out[k].1.Some? ==> out[k].1.value in items && out[k].1.value.idInsumo == out[k].0.detail.base.item.idInsumo) &&
      (out[k].1.None? ==> forall x :: 0 <= x < |items| ==> items[x].idInsumo != out[k].0.detail.base.item.idInsumo)
  {
    var report := Reconcile.Report(base, tiers, rates);
    Tables.LeftJoinSize(report, items, ReportMaterial, ItemMaterial);
    Tables.LeftJoinKeepsLeft(report, items, ReportMaterial, ItemMaterial);
    var i := Tables.LeftJoinRow(report, items, ReportMaterial, ItemMaterial, k);
  }

  /** Only a catalog that lists each material once leaves the report's rows
      as they are. */
  lemma LegacyReportOneRowPerMaterial(base: seq<BaseTable.BaseRow>, tiers: Mb52Tiers,
                                      rates: seq<Consumption.ConsumptionRow>, items: seq<Catalog.Item>)
    requires Tables.KeysDistinct(items, ItemMaterial)
    ensures var report, out := Reconcile.Report(base, tiers, rates), LegacyReport(base, tiers, rates, items);
      |out| == |report| && forall i :: 0 <= i < |report| ==> out[i].0 == report[i]
  {
    var report := Reconcile.Report(base, tiers, rates);
    forall i | 0 <= i < |report| ensures |Tables.Matches(items, ItemMaterial, ReportMaterial(report[i]))| <= 1 {
      Tables.MatchesAtMostOne(items, ItemMaterial, ReportMaterial(report[i]));
    }
    Tables.LeftJoinAtMostOne(report, items, ReportMaterial, ItemMaterial);
  }
}
