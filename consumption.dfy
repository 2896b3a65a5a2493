/** The consumption estimator: the net ledger quantity per (location,
    material), the number of distinct fishing days per plant, and the daily
    consumption rate that divides one by the other. */
module Consumption {
  import opened Wrappers
  import opened Num
  import Tables
  import Keys
  import Catalog
  import SapFrame
  import BaseTable

  function Abs(x: real): real {
    if x < 0.0 then -x else x
  }

  /** The key of a ledger group. */
  datatype LedgerKey = LedgerKey(idLocalidad: string, idInsumo: string)

  /** `df_consumo_total` before the day count: the absolute net quantity
      consumed of one material at one location. */
  datatype ConsumptionTotal = ConsumptionTotal(idLocalidad: string, idInsumo: string, cantidad: real)

  /** The group-by drops ledger rows whose material is missing. */
  predicate HasMaterial(r: SapFrame.SapRow) {
    r.insumo.Some?
  }

  function LedgerRows(rows: seq<SapFrame.SapRow>): (g: seq<SapFrame.SapRow>)
    ensures forall i :: 0 <= i < |g| ==> g[i].insumo.Some?
  {
    Tables.Filter(rows, HasMaterial)
  }

  function LedgerKeys(rows: seq<SapFrame.SapRow>): (ks: seq<LedgerKey>)
    ensures |ks| == |LedgerRows(rows)|
  {
    var g := LedgerRows(rows);
    seq(|g|, i requires 0 <= i < |g| => LedgerKey(g[i].idLocalidad, g[i].insumo.value))
  }

  function LedgerQtys(rows: seq<SapFrame.SapRow>): (vs: seq<real>)
    ensures |vs| == |LedgerRows(rows)|
  {
    var g := LedgerRows(rows);
    seq(|g|, i requires 0 <= i < |g| => g[i].cantidad)
  }

  /** `groupby(['id_localidad', 'id_insumo'])['Cantidad'].sum().abs()`: one
      row per distinct key, holding the absolute value of the signed sum. */
  function Totals(rows: seq<SapFrame.SapRow>): (ts: seq<ConsumptionTotal>)
    ensures |ts| == |Tables.Dedup(LedgerKeys(rows))|
  {
    var ks, vs := LedgerKeys(rows), LedgerQtys(rows);
    var d := Tables.Dedup(ks);
    seq(|d|, j requires 0 <= j < |d| =>
      ConsumptionTotal(d[j].idLocalidad, d[j].idInsumo, Abs(Tables.SumWhere(ks, vs, d[j]))))
  }

  /** The ledger's consumption totals; the group-by raises when the frame
      lacks the location, material or quantity column. */
  method TotalConsumption(f: SapFrame.Frame) returns (res: Result<seq<ConsumptionTotal>>)
    ensures res.Success? <==> {SapFrame.IdLocalidad, SapFrame.Insumo, SapFrame.Cantidad} <= f.cols
    ensures res.Success? ==> res.value == Totals(f.rows)
  {
    if !(SapFrame.IdLocalidad in f.cols && SapFrame.Insumo in f.cols && SapFrame.Cantidad in f.cols) {
      return Failure("KeyError: 'Cantidad'");
    }
    var ks, sums := Tables.GroupSum(LedgerKeys(f.rows), LedgerQtys(f.rows));
    var ts := seq(|ks|, j requires 0 <= j < |ks| && j < |sums| =>
                ConsumptionTotal(ks[j].idLocalidad, ks[j].idInsumo, Abs(sums[j])));
    return Success(ts);
  }

  function AbsAll(vs: seq<real>): (r: seq<real>)
    ensures |r| == |vs|
  {
    seq(|vs|, i requires 0 <= i < |vs| => Abs(vs[i]))
  }

  /** The absolute value of a net sum is at most the sum of the absolute
      movements. */
  lemma {:induction false} NetAtMostGross<K>(ks: seq<K>, vs: seq<real>, k: K)
    requires |ks| == |vs|
    ensures Abs(Tables.SumWhere(ks, vs, k)) <= Tables.SumWhere(ks, AbsAll(vs), k)
    ensures Tables.SumWhere(ks, AbsAll(vs), k) >= 0.0
  {
    if ks != [] {
      var n := |ks| - 1;
      assert AbsAll(vs)[..n] == AbsAll(vs[..n]);
      NetAtMostGross(ks[..n], vs[..n], k);
    }
  }

  /** When every movement of the ledger is a withdrawal (non-positive), the
      net absolute sum is the gross sum. */
  lemma {:induction false} WithdrawalsOnlyNetIsGross<K>(ks: seq<K>, vs: seq<real>, k: K)
    requires |ks| == |vs|
    requires forall i :: 0 <= i < |vs| ==> vs[i] <= 0.0
    ensures Abs(Tables.SumWhere(ks, vs, k)) == Tables.SumWhere(ks, AbsAll(vs), k)
    ensures Tables.SumWhere(ks, vs, k) <= 0.0
  {
    if ks != [] {
      var n := |ks| - 1;
      assert AbsAll(vs)[..n] == AbsAll(vs[..n]);
      WithdrawalsOnlyNetIsGross(ks[..n], vs[..n], k);
    }
  }

  /** The consumption totals have one row per (location, material) of the
      ledger; each is non-negative and at most the gross movement of its key. */
  lemma TotalsAreNetPerKey(rows: seq<SapFrame.SapRow>)
    ensures var ts, ks, vs := Totals(rows), LedgerKeys(rows), LedgerQtys(rows);
      (forall i, j :: 0 <= i < j < |ts| ==>
         LedgerKey(ts[i].idLocalidad, ts[i].idInsumo) != LedgerKey(ts[j].idLocalidad, ts[j].idInsumo)) &&
      (forall j :: 0 <= j < |ts| ==>
         LedgerKey(ts[j].idLocalidad, ts[j].idInsumo) in ks &&
         0.0 <= ts[j].cantidad <= Tables.SumWhere(ks, AbsAll(vs), LedgerKey(ts[j].idLocalidad, ts[j].idInsumo)))
  {
    var ts, ks, vs := Totals(rows), LedgerKeys(rows), LedgerQtys(rows);
    var d := Tables.Dedup(ks);
    assert forall j :: 0 <= j < |ts| ==> LedgerKey(ts[j].idLocalidad, ts[j].idInsumo) == d[j];
    forall j | 0 <= j < |ts|
      ensures ts[j].cantidad <= Tables.SumWhere(ks, AbsAll(vs), LedgerKey(ts[j].idLocalidad, ts[j].idInsumo))
    {
      NetAtMostGross(ks, vs, d[j]);
    }
  }

  /** Every ledger row with a known material is counted in some total. */
  lemma TotalsCoverLedger(rows: seq<SapFrame.SapRow>, i: int)
    requires 0 <= i < |LedgerKeys(rows)|
    ensures exists j :: 0 <= j < |Totals(rows)| &&
              LedgerKey(Totals(rows)[j].idLocalidad, Totals(rows)[j].idInsumo) == LedgerKeys(rows)[i]
  {
    var ks := LedgerKeys(rows);
    var d := Tables.Dedup(ks);
    var j :| 0 <= j < |d| && d[j] == ks[i];
    assert LedgerKey(Totals(rows)[j].idLocalidad, Totals(rows)[j].idInsumo) == ks[i];
  }

  /** A return cancels a withdrawal: a ledger holding -5 and +5 of one
      material at one location consumes 0, where summing absolute values
      would give 10. */
  lemma ReturnCancelsWithdrawal(r: SapFrame.SapRow)
    requires r.insumo.Some?
    ensures var rows := [r.(cantidad := -5.0), r.(cantidad := 5.0)];
      Totals(rows) == [ConsumptionTotal(r.idLocalidad, r.insumo.value, 0.0)] &&
      Tables.SumWhere(LedgerKeys(rows), AbsAll(LedgerQtys(rows)), LedgerKey(r.idLocalidad, r.insumo.value)) == 10.0
  {
    var rows := [r.(cantidad := -5.0), r.(cantidad := 5.0)];
    var k := LedgerKey(r.idLocalidad, r.insumo.value);
    TwoRowLedger(r);
    OpposedMovements(k);
    assert Totals(rows)[0] == ConsumptionTotal(r.idLocalidad, r.insumo.value, 0.0);
  }

  lemma TwoRowLedger(r: SapFrame.SapRow)
    requires r.insumo.Some?
    ensures var rows := [r.(cantidad := -5.0), r.(cantidad := 5.0)];
      LedgerKeys(rows) == [LedgerKey(r.idLocalidad, r.insumo.value), LedgerKey(r.idLocalidad, r.insumo.value)] &&
      LedgerQtys(rows) == [-5.0, 5.0]
  {
    var rows := [r.(cantidad := -5.0), r.(cantidad := 5.0)];
    assert Tables.Filter(rows[1..], HasMaterial) == [rows[1]] by {
      assert rows[1..][0] == rows[1] && rows[1..][1..] == [];
    }
    assert LedgerRows(rows) == rows;
  }

  lemma OpposedMovements(k: LedgerKey)
    ensures Tables.Dedup([k, k]) == [k]
    ensures Tables.SumWhere([k, k], [-5.0, 5.0], k) == 0.0
    ensures AbsAll([-5.0, 5.0]) == [5.0, 5.0]
    ensures Tables.SumWhere([k, k], [5.0, 5.0], k) == 10.0
  {
    assert [k, k][..1] == [k] && [k][..0] == [];
    assert [-5.0, 5.0][..1] == [-5.0] && [5.0, 5.0][..1] == [5.0] && [-5.0][..0] == [] && [5.0][..0] == [];
    assert Tables.SumWhere([k], [-5.0], k) == -5.0;
    assert Tables.SumWhere([k], [5.0], k) == 5.0;
  }

  // ---------------------------------------------------------------------
  // Fishing days

  datatype Date = Date(year: int, month: int, day: int)

  /** One record of the fishing report: a plant and a landing date. */
  datatype FishingEvent = FishingEvent(plant: string, date: Date)

  /** `df_dias_produccion`: a plant and its number of distinct fishing days. */
  datatype PlantDays = PlantDays(plant: string, days: nat)

  function PlantEvents(events: seq<FishingEvent>, p: string): (r: seq<FishingEvent>)
    ensures forall i :: 0 <= i < |r| ==> r[i] in events && r[i].plant == p
    ensures forall i :: 0 <= i < |events| && events[i].plant == p ==> events[i] in r
  {
    Tables.Filter(events, (e: FishingEvent) => e.plant == p)
  }

  function Plants(events: seq<FishingEvent>): (ps: seq<string>)
    ensures |ps| == |events|
  {
    seq(|events|, i requires 0 <= i < |events| => events[i].plant)
  }

  function Dates(events: seq<FishingEvent>): (ds: seq<Date>)
    ensures |ds| == |events|
  {
    seq(|events|, i requires 0 <= i < |events| => events[i].date)
  }

  /** `drop_duplicates()` on (plant, date), then `value_counts()` on the
      plant: one row per plant of the report with its number of distinct
      (plant, date) records. */
  function DaysTable(events: seq<FishingEvent>): (t: seq<PlantDays>)
    ensures |t| == |Tables.Dedup(Plants(Tables.Dedup(events)))|
  {
    var d := Tables.Dedup(events);
    var ps := Tables.Dedup(Plants(d));
    seq(|ps|, i requires 0 <= i < |ps| => PlantDays(ps[i], |PlantEvents(d, ps[i])|))
  }

  function DaysPlant(r: PlantDays): string {
    r.plant
  }

  /** The days table lists each plant at most once. */
  lemma DaysPlantsDistinct(events: seq<FishingEvent>)
    ensures Tables.KeysDistinct(DaysTable(events), DaysPlant)
  {
    var t := DaysTable(events);
    var ps := Tables.Dedup(Plants(Tables.Dedup(events)));
    assert forall j :: 0 <= j < |t| ==> DaysPlant(t[j]) == ps[j];
  }

  /** Every plant of the report is listed in the days table. */
  lemma PlantListed(events: seq<FishingEvent>, i: int)
    requires 0 <= i < |events|
    ensures exists j :: 0 <= j < |DaysTable(events)| && DaysTable(events)[j].plant == events[i].plant
  {
    var d := Tables.Dedup(events);
    var ps := Tables.Dedup(Plants(d));
    var t := DaysTable(events);
    assert events[i] in d;
    var x :| 0 <= x < |d| && d[x] == events[i];
    assert Plants(d)[x] == events[i].plant;
    var j :| 0 <= j < |ps| && ps[j] == events[i].plant;
    assert t[j].plant == events[i].plant;
  }

  /** Every plant listed in the days table comes from the report. */
  lemma ListedPlantReported(events: seq<FishingEvent>, j: int)
    requires 0 <= j < |DaysTable(events)|
    ensures exists i :: 0 <= i < |events| && events[i].plant == DaysTable(events)[j].plant
  {
    var d := Tables.Dedup(events);
    var ps := Tables.Dedup(Plants(d));
    assert DaysTable(events)[j].plant == ps[j];
    var x :| 0 <= x < |d| && Plants(d)[x] == ps[j];
    var i :| 0 <= i < |events| && events[i] == d[x];
  }

  /** The dates of a plant's distinct records. */
  function PlantDates(events: seq<FishingEvent>, p: string): seq<Date> {
    Dates(PlantEvents(Tables.Dedup(events), p))
  }

  /** A plant's day count is the number of its distinct records, which carry
      pairwise different dates, and is at least one. */
  lemma {:induction false} DaysAreDistinctDates(events: seq<FishingEvent>, j: int)
    requires 0 <= j < |DaysTable(events)|
    ensures var row := DaysTable(events)[j];
      row.days == |PlantDates(events, row.plant)| && row.days >= 1 &&
      Tables.Distinct(PlantDates(events, row.plant))
  {
    var d := Tables.Dedup(events);
    var ps := Tables.Dedup(Plants(d));
    var p := ps[j];
    var pe := PlantEvents(d, p);
    var ds := Dates(pe);
    assert Tables.Distinct(pe) by {
      Tables.FilterDistinct(d, (e: FishingEvent) => e.plant == p);
    }
    forall x, y | 0 <= x < y < |ds| ensures ds[x] != ds[y] {
      assert pe[x].plant == p == pe[y].plant;
      assert pe[x] != pe[y];
    }
    var x :| 0 <= x < |d| && Plants(d)[x] == p;
    assert d[x] in pe;
  }

  /** Every date the report gives for a plant is among the plant's counted
      dates. */
  lemma {:induction false} DaysCoverDates(events: seq<FishingEvent>, i: int)
    requires 0 <= i < |events|
    ensures events[i].date in PlantDates(events, events[i].plant)
  {
    var d := Tables.Dedup(events);
    var pe := PlantEvents(d, events[i].plant);
    assert events[i] in d;
    var y :| 0 <= y < |d| && d[y] == events[i];
    assert events[i] in pe;
    var z :| 0 <= z < |pe| && pe[z] == events[i];
    assert Dates(pe)[z] == events[i].date;
  }

  /** Every counted date of a plant was reported for that plant. */
  lemma {:induction false} CountedDatesReported(events: seq<FishingEvent>, p: string, z: int)
    requires 0 <= z < |PlantDates(events, p)|
    ensures exists i :: 0 <= i < |events| && events[i].plant == p && events[i].date == PlantDates(events, p)[z]
  {
    var pe := PlantEvents(Tables.Dedup(events), p);
    assert pe[z] in Tables.Dedup(events);
    var i :| 0 <= i < |events| && events[i] == pe[z];
  }

  // ---------------------------------------------------------------------
  // Daily rate

  /** A row of `df_consumo_total` after the day merge. */
  datatype ConsumptionRow = ConsumptionRow(
    idLocalidad: string, idInsumo: string, cantidad: real,
    dias: Option<nat>, consumo: Value, key: string)

  function TotalLocation(t: ConsumptionTotal): string {
    t.idLocalidad
  }

  /** `Cantidad / dias_de_pesca.fillna(1)`. */
  function DailyRate(cantidad: real, dias: Option<nat>): Value {
    Div(Fin(cantidad), Fin(if dias.Some? then dias.value as real else 1.0))
  }

  /** The day merge on `id_localidad`, the daily rate and the key
      `id_localidad_insumo`. */
  function Rates(totals: seq<ConsumptionTotal>, days: seq<PlantDays>): (rs: seq<ConsumptionRow>)
    ensures |rs| == |Tables.LeftJoin(totals, days, TotalLocation, DaysPlant)|
  {
    var j := Tables.LeftJoin(totals, days, TotalLocation, DaysPlant);
    seq(|j|, k requires 0 <= k < |j| =>
      var t, d := j[k].0, if j[k].1.Some? then Some(j[k].1.value.days) else None;
      ConsumptionRow(t.idLocalidad, t.idInsumo, t.cantidad, d, DailyRate(t.cantidad, d),
                     Keys.CompositeKey(t.idLocalidad, t.idInsumo)))
  }

  /** A location has at most one row in the days table of a report; it has
      one exactly when the report has an event of that plant, and then at
      least one day. */
  lemma {:induction false} DaysMatch(events: seq<FishingEvent>, loc: string)
    ensures var m := Tables.Matches(DaysTable(events), DaysPlant, loc);
      |m| <= 1 &&
      (m == [] <==> forall e :: 0 <= e < |events| ==> events[e].plant != loc) &&
      (m != [] ==> m[0].plant == loc && m[0].days >= 1)
  {
    var days := DaysTable(events);
    var m := Tables.Matches(days, DaysPlant, loc);
    DaysPlantsDistinct(events);
    Tables.MatchesAtMostOne(days, DaysPlant, loc);
    if m == [] {
      forall e | 0 <= e < |events| ensures events[e].plant != loc {
        PlantListed(events, e);
      }
    } else {
      assert m[0] in days;
      var j :| 0 <= j < |days| && days[j] == m[0];
      DaysAreDistinctDates(events, j);
      ListedPlantReported(events, j);
    }
  }

  /** Dividing a non-negative total by at least one day never exceeds it. */
  lemma RateAtMostTotal(c: real, n: real)
    requires c >= 0.0 && n >= 1.0
    ensures c / n <= c
  {
    assert c / n * n == c;
  }

  /** Against the days table of a fishing report the day merge keeps every
      consumption row, in order; a location the report does not list gets the
      total as its rate; a listed one gets the total divided by its (at least
      one) days, so the rate never exceeds the total. */
  lemma {:induction false} RatesKeepTotals(totals: seq<ConsumptionTotal>, events: seq<FishingEvent>)
    requires forall i :: 0 <= i < |totals| ==> totals[i].cantidad >= 0.0
    ensures |Rates(totals, DaysTable(events))| == |totals|
    ensures forall i :: 0 <= i < |totals| ==> RateRowHolds(totals, events, i)
  {
    var days := DaysTable(events);
    assert forall i :: 0 <= i < |totals| ==> |Tables.Matches(days, DaysPlant, TotalLocation(totals[i]))| <= 1 by {
      forall i | 0 <= i < |totals| ensures |Tables.Matches(days, DaysPlant, TotalLocation(totals[i]))| <= 1 {
        DaysMatch(events, totals[i].idLocalidad);
      }
    }
    Tables.LeftJoinAtMostOne(totals, days, TotalLocation, DaysPlant);
    forall i | 0 <= i < |totals| ensures RateRowHolds(totals, events, i) {
      RateRow(totals, events, i);
    }
  }

  /** What the day merge makes of consumption row `i`. */
  ghost predicate RateRowHolds(totals: seq<ConsumptionTotal>, events: seq<FishingEvent>, i: int)
    requires 0 <= i < |totals|
    requires |Rates(totals, DaysTable(events))| == |totals|
  {
    RateOf(Rates(totals, DaysTable(events))[i], totals[i], events)
  }

  /** Row `r` is total `t` with the days of its location in the report and
      the daily rate. */
  ghost predicate RateOf(r: ConsumptionRow, t: ConsumptionTotal, events: seq<FishingEvent>) {
    r.idLocalidad == t.idLocalidad && r.idInsumo == t.idInsumo &&
    r.cantidad == t.cantidad &&
    r.key == Keys.CompositeKey(t.idLocalidad, t.idInsumo) &&
    (r.dias.None? <==> forall e :: 0 <= e < |events| ==> events[e].plant != t.idLocalidad) &&
    (r.dias.None? ==> r.consumo == Fin(t.cantidad)) &&
    (r.dias.Some? ==>
       r.dias.value >= 1 &&
       r.consumo == Fin(t.cantidad / r.dias.value as real) &&
       r.consumo.v <= t.cantidad)
  }

  lemma RateRow(totals: seq<ConsumptionTotal>, events: seq<FishingEvent>, i: int)
    requires 0 <= i < |totals| && totals[i].cantidad >= 0.0
    requires |Rates(totals, DaysTable(events))| == |totals|
    requires Tables.LeftJoin(totals, DaysTable(events), TotalLocation, DaysPlant)[i]
               == (totals[i], Tables.FirstMatch(DaysTable(events), DaysPlant, totals[i].idLocalidad))
    ensures RateRowHolds(totals, events, i)
  {
    var t := totals[i];
    var m := Tables.Matches(DaysTable(events), DaysPlant, t.idLocalidad);
    var d := if m == [] then None else Some(m[0].days);
    var r := Rates(totals, DaysTable(events))[i];
    assert r == ConsumptionRow(t.idLocalidad, t.idInsumo, t.cantidad, d, DailyRate(t.cantidad, d),
                               Keys.CompositeKey(t.idLocalidad, t.idInsumo));
    RateOfMatch(t, events, d);
  }

  /** The row the day merge makes of total `t` satisfies `RateOf`. */
  lemma RateOfMatch(t: ConsumptionTotal, events: seq<FishingEvent>, d: Option<nat>)
    requires t.cantidad >= 0.0
    requires var m := Tables.Matches(DaysTable(events), DaysPlant, t.idLocalidad);
      d == if m == [] then None else Some(m[0].days)
    ensures RateOf(ConsumptionRow(t.idLocalidad, t.idInsumo, t.cantidad, d, DailyRate(t.cantidad, d),
                                  Keys.CompositeKey(t.idLocalidad, t.idInsumo)), t, events)
  {
    DaysMatch(events, t.idLocalidad);
    var c := t.cantidad;
    if d.Some? {
      var n := d.value as real;
      assert n >= 1.0;
      assert DailyRate(c, d) == Fin(c / n);
      RateAtMostTotal(c, n);
    } else {
      assert DailyRate(c, d) == Fin(c / 1.0);
    }
  }

  // ---------------------------------------------------------------------
  // The principal data of an analysis run

  /** `procesar_datos_principales`' results: the base table, the consumption
      table with its daily rate, the fishing report and its days table. */
  datatype Principal = Principal(
    base: seq<BaseTable.BaseRow>, consumption: seq<ConsumptionRow>,
    report: seq<FishingEvent>, days: seq<PlantDays>)

  /** The base table from the catalog, the ratios and the capacities; the
      ledger's consumption totals; the fishing report of the period (absent
      when the reporting service answered with an error, which makes the
      day merge raise; an empty report has no date column, so reading it
      raises) and the daily rates. */
  method PrincipalData(items: seq<Catalog.Item>, ratios: seq<Catalog.Ratio>, caps: seq<Catalog.Capacity>,
                       ledger: SapFrame.Frame, report: Option<seq<FishingEvent>>)
    returns (res: Result<Principal>)
    ensures res.Success? <==>
              {SapFrame.IdLocalidad, SapFrame.Insumo, SapFrame.Cantidad} <= ledger.cols &&
              report.Some? && report.value != []
    ensures res.Success? ==>
              res.value.base == BaseTable.Base(items, ratios, caps) &&
              res.value.report == report.value &&
              res.value.days == DaysTable(report.value) &&
              res.value.consumption == Rates(Totals(ledger.rows), DaysTable(report.value))
  {
    var base := BaseTable.Base(items, ratios, caps);
    var totals := TotalConsumption(ledger);
    if totals.Failure? {
      return Failure(totals.error);
    }
    if report.None? {
      return Failure("TypeError: 'NoneType' object is not subscriptable");
    }
    if report.value == [] {
      return Failure("KeyError: 'FCSAZ'");
    }
    var days := DaysTable(report.value);
    res := Success(Principal(base, Rates(totals.value, days), report.value, days));
  }
}
