/** The stock tiering splitter: the stock snapshot grouped by (location,
    warehouse, material, key) and split into production, transit, hub and
    general stock by warehouse code. */
module StockTiers {
  import opened Wrappers
  import Tables
  import SapFrame

  /** The warehouse code of production stock. */
  const ProductionStore := "PI01"
  /** The (empty) warehouse code of stock in transit. */
  const TransitStore := ""
  /** The warehouse code of hub stock. */
  const HubStore := "L003"

  datatype Tier = Production | Transit | Hub | General

  /** The tier a warehouse code belongs to; every code not named is general. */
  function TierOf(almacen: string): Tier {
    if almacen == ProductionStore then Production
    else if almacen == TransitStore then Transit
    else if almacen == HubStore then Hub
    else General
  }

  /** The key of one group of the snapshot. */
  datatype GroupKey = GroupKey(idLocalidad: string, almacen: string, insumo: string, key: string)

  /** One group of the snapshot with its summed free + quality stock. */
  datatype StockGroup = StockGroup(idLocalidad: string, almacen: string, insumo: string, key: string, qty: real)

  function KeyOfGroup(g: StockGroup): GroupKey {
    GroupKey(g.idLocalidad, g.almacen, g.insumo, g.key)
  }

  /** A row takes part in the group-by only when its material (and so its key)
      is known: the group-by drops rows with a missing group key. */
  predicate HasGroupKey(r: SapFrame.SapRow) {
    r.insumo.Some? && r.key.Some?
  }

  function Groupable(rows: seq<SapFrame.SapRow>): (g: seq<SapFrame.SapRow>)
    ensures forall i :: 0 <= i < |g| ==> HasGroupKey(g[i])
  {
    Tables.Filter(rows, HasGroupKey)
  }

  function GroupKeys(rows: seq<SapFrame.SapRow>): (ks: seq<GroupKey>)
    ensures |ks| == |Groupable(rows)|
  {
    var g := Groupable(rows);
    seq(|g|, i requires 0 <= i < |g| => GroupKey(g[i].idLocalidad, g[i].almacen, g[i].insumo.value, g[i].key.value))
  }

  function GroupStocks(rows: seq<SapFrame.SapRow>): (vs: seq<real>)
    ensures |vs| == |Groupable(rows)|
  {
    var g := Groupable(rows);
    seq(|g|, i requires 0 <= i < |g| => g[i].stock)
  }

  /** The grouped snapshot: one group per distinct key, in order of first
      appearance, holding the sum of its rows' stock. */
  function Grouped(rows: seq<SapFrame.SapRow>): (gs: seq<StockGroup>)
    ensures |gs| == |Tables.Dedup(GroupKeys(rows))|
  {
    var ks, vs := GroupKeys(rows), GroupStocks(rows);
    var d := Tables.Dedup(ks);
    seq(|d|, j requires 0 <= j < |d| =>
      StockGroup(d[j].idLocalidad, d[j].almacen, d[j].insumo, d[j].key, Tables.SumWhere(ks, vs, d[j])))
  }

  /** `groupby([...])['stock_libre_mas_calidad'].sum()`. */
  method GroupStock(rows: seq<SapFrame.SapRow>) returns (groups: seq<StockGroup>)
    ensures groups == Grouped(rows)
  {
    var ks, sums := Tables.GroupSum(GroupKeys(rows), GroupStocks(rows));
    groups := seq(|ks|, j requires 0 <= j < |ks| && j < |sums| =>
                StockGroup(ks[j].idLocalidad, ks[j].almacen, ks[j].insumo, ks[j].key, sums[j]));
  }

  function Quantities(gs: seq<StockGroup>): (qs: seq<real>)
    ensures |qs| == |gs|
  {
    seq(|gs|, i requires 0 <= i < |gs| => gs[i].qty)
  }

  function Total(gs: seq<StockGroup>): real {
    Tables.Sum(Quantities(gs))
  }

  /** The grouped snapshot has one group per (location, warehouse, material,
      key): no two groups share a key. */
  lemma GroupedKeysDistinct(rows: seq<SapFrame.SapRow>)
    ensures var gs := Grouped(rows);
      forall i, j :: 0 <= i < j < |gs| ==> KeyOfGroup(gs[i]) != KeyOfGroup(gs[j])
  {
    var d := Tables.Dedup(GroupKeys(rows));
    var gs := Grouped(rows);
    assert forall j :: 0 <= j < |gs| ==> KeyOfGroup(gs[j]) == d[j];
  }

  /** Every row with a known material falls in a group, and each group holds
      the sum of the stock of the rows with its key. */
  lemma GroupedCoversRows(rows: seq<SapFrame.SapRow>)
    ensures var gs, ks := Grouped(rows), GroupKeys(rows);
      (forall i :: 0 <= i < |ks| ==> exists j :: 0 <= j < |gs| && KeyOfGroup(gs[j]) == ks[i]) &&
      (forall j :: 0 <= j < |gs| ==> gs[j].qty == Tables.SumWhere(ks, GroupStocks(rows), KeyOfGroup(gs[j])))
  {
    var ks := GroupKeys(rows);
    var d := Tables.Dedup(ks);
    var gs := Grouped(rows);
    assert forall j :: 0 <= j < |gs| ==> KeyOfGroup(gs[j]) == d[j];
    forall i | 0 <= i < |ks| ensures exists j :: 0 <= j < |gs| && KeyOfGroup(gs[j]) == ks[i] {
      var j :| 0 <= j < |d| && d[j] == ks[i];
      assert KeyOfGroup(gs[j]) == ks[i];
    }
  }

  /** Grouping conserves the total stock of the rows that have a key. */
  lemma GroupedConservesStock(rows: seq<SapFrame.SapRow>)
    ensures Total(Grouped(rows)) == Tables.Sum(GroupStocks(rows))
  {
    var ks, vs := GroupKeys(rows), GroupStocks(rows);
    var d := Tables.Dedup(ks);
    Tables.GroupConservation(ks, vs);
    Tables.GroupTotalIsSum(d, ks, vs);
    GroupedQuantities(rows);
  }

  /** The quantity column of the grouped snapshot is the per-key sum. */
  lemma GroupedQuantities(rows: seq<SapFrame.SapRow>)
    ensures var ks, vs := GroupKeys(rows), GroupStocks(rows);
      var d := Tables.Dedup(ks);
      Quantities(Grouped(rows)) == seq(|d|, j requires 0 <= j < |d| => Tables.SumWhere(ks, vs, d[j]))
  {
    var ks, vs := GroupKeys(rows), GroupStocks(rows);
    var d := Tables.Dedup(ks);
    var qs := Quantities(Grouped(rows));
    forall j | 0 <= j < |d| ensures qs[j] == Tables.SumWhere(ks, vs, d[j]) {
      assert qs[j] == Grouped(rows)[j].qty;
    }
  }

  /** The four tier tables of the snapshot (their quantity column is renamed
      per tier; the model keeps it as `qty`). */
  datatype Mb52Tiers = Mb52Tiers(
    production: seq<StockGroup>, transit: seq<StockGroup>,
    hub: seq<StockGroup>, general: seq<StockGroup>)

  /** The groups of one tier, in order. For the three named warehouse codes
      this is `filter_and_rename`; the general tier is every other code. */
  function TierRows(gs: seq<StockGroup>, tier: Tier): (r: seq<StockGroup>)
    ensures forall i :: 0 <= i < |r| ==> r[i] in gs && TierOf(r[i].almacen) == tier
    ensures forall i :: 0 <= i < |gs| && TierOf(gs[i].almacen) == tier ==> gs[i] in r
    ensures |r| <= |gs|
  {
    if gs == [] then []
    else (if TierOf(gs[0].almacen) == tier then [gs[0]] else []) + TierRows(gs[1..], tier)
  }

  function Split(gs: seq<StockGroup>): Mb52Tiers {
    Mb52Tiers(TierRows(gs, Production), TierRows(gs, Transit), TierRows(gs, Hub), TierRows(gs, General))
  }

  /** The production table holds the groups of warehouse PI01, the transit
      table those of the empty code, the hub table those of L003, and the
      general table every group of any other code. */
  lemma SplitByWarehouse(gs: seq<StockGroup>)
    ensures var t := Split(gs);
      (forall i :: 0 <= i < |gs| ==>
        (gs[i] in t.production <==> gs[i].almacen == ProductionStore) &&
        (gs[i] in t.transit <==> gs[i].almacen == TransitStore) &&
        (gs[i] in t.hub <==> gs[i].almacen == HubStore) &&
        (gs[i] in t.general <==> gs[i].almacen !in {ProductionStore, TransitStore, HubStore}))
  {
    var t := Split(gs);
    forall i | 0 <= i < |gs|
      ensures gs[i] in t.production <==> gs[i].almacen == ProductionStore
      ensures gs[i] in t.transit <==> gs[i].almacen == TransitStore
      ensures gs[i] in t.hub <==> gs[i].almacen == HubStore
      ensures gs[i] in t.general <==> gs[i].almacen !in {ProductionStore, TransitStore, HubStore}
    {
      InTierRows(gs, gs[i], Production);
      InTierRows(gs, gs[i], Transit);
      InTierRows(gs, gs[i], Hub);
      InTierRows(gs, gs[i], General);
    }
  }

  lemma InTierRows(gs: seq<StockGroup>, g: StockGroup, tier: Tier)
    requires g in gs
    ensures g in TierRows(gs, tier) <==> TierOf(g.almacen) == tier
  {
    var r := TierRows(gs, tier);
    if g in r {
      var i :| 0 <= i < |r| && r[i] == g;
    } else {
      var i :| 0 <= i < |gs| && gs[i] == g;
    }
  }

  lemma TotalCons(g: StockGroup, s: seq<StockGroup>)
    ensures Total([g] + s) == g.qty + Total(s)
  {
    assert Quantities([g] + s) == [g.qty] + Quantities(s);
    Tables.SumAppend([g.qty], Quantities(s));
    assert Tables.Sum([g.qty]) == Tables.Sum([]) + g.qty;
  }

  /** One step of a tier table: its size and total over the first group and
      the rest. */
  lemma TierRowsStep(gs: seq<StockGroup>, tier: Tier)
    requires gs != []
    ensures var r, rest := TierRows(gs, tier), TierRows(gs[1..], tier);
      if TierOf(gs[0].almacen) == tier
      then |r| == 1 + |rest| && Total(r) == gs[0].qty + Total(rest)
      else r == rest
  {
    if TierOf(gs[0].almacen) == tier {
      TotalCons(gs[0], TierRows(gs[1..], tier));
    } else {
      assert TierRows(gs, tier) == [] + TierRows(gs[1..], tier);
    }
  }

  /** The sizes of the four tier tables add up to the number of groups, and
      their quantities to the grouped total: the split loses and repeats
      nothing. */
  lemma {:induction false} SplitPartitions(gs: seq<StockGroup>)
    ensures var t := Split(gs);
      |t.production| + |t.transit| + |t.hub| + |t.general| == |gs| &&
      Total(t.production) + Total(t.transit) + Total(t.hub) + Total(t.general) == Total(gs)
  {
    if gs != [] {
      SplitPartitions(gs[1..]);
      SplitStep(gs);
      assert gs == [gs[0]] + gs[1..];
      TotalCons(gs[0], gs[1..]);
    } else {
      assert Quantities(gs) == [];
    }
  }

  function SplitSize(t: Mb52Tiers): nat {
    |t.production| + |t.transit| + |t.hub| + |t.general|
  }

  function SplitTotal(t: Mb52Tiers): real {
    Total(t.production) + Total(t.transit) + Total(t.hub) + Total(t.general)
  }

  /** The first group lands in exactly one tier table. */
  lemma SplitStep(gs: seq<StockGroup>)
    requires gs != []
    ensures SplitSize(Split(gs)) == SplitSize(Split(gs[1..])) + 1
    ensures SplitTotal(Split(gs)) == SplitTotal(Split(gs[1..])) + gs[0].qty
  {
    TierRowsStep(gs, Production);
    TierRowsStep(gs, Transit);
    TierRowsStep(gs, Hub);
    TierRowsStep(gs, General);
  }

  /** `generar_y_separar_mb52`: ids and stock are generated in place, the
      snapshot is grouped and split into the four tiers. Fails when the frame
      has no material column or no stock can be computed (the source raises
      on the missing column). */
  method SplitMb52(f: SapFrame.Frame, tipo: string) returns (res: Result<Mb52Tiers>)
    modifies f
    ensures res.Success? <==>
              (SapFrame.Insumo in old(f.cols) || SapFrame.Material in old(f.cols)) &&
              (SapFrame.Stock in old(f.cols) || SapFrame.StockApplies(old(f.cols), tipo))
    ensures res.Success? ==>
              f.cols == SapFrame.IdColumns(old(f.cols), tipo) &&
              f.rows == SapFrame.WithIdsAll(old(f.rows), old(f.cols), tipo) &&
              res.value == Split(Grouped(f.rows))
  {
    ghost var cols0 := f.cols;
    var ok := f.AddIdsAndStock(tipo);
    if !ok {
      return Failure("KeyError: 'Material'");
    }
    SapFrame.IdColumnsHas(SapFrame.Stock, cols0, tipo);
    if SapFrame.Stock !in f.cols {
      return Failure("KeyError: 'stock_libre_mas_calidad'");
    }
    var groups := GroupStock(f.rows);
    res := Success(Split(groups));
  }
}
