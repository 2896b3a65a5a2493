/** The coverage calculator (`calcular_cobertura`): the ideal target, the
    cumulative stock per tier, and the theoretical and real coverage of every
    tier with the zero-ratio, zero-target and infinity guards. */
module Coverage {
  import opened Wrappers
  import opened Num
  import opened StockTiers
  import BaseTable
  import Catalog

  /** The four tier stock columns of a row, after the gaps are filled. */
  datatype TierStocks = TierStocks(production: real, transit: real, hub: real, general: real)

  function StockOf(s: TierStocks, t: Tier): real {
    match t
    case Production => s.production
    case Transit => s.transit
    case Hub => s.hub
    case General => s.general
  }

  /** One value per tier: the coverage columns of a row. */
  datatype TierValues = TierValues(production: Value, transit: Value, hub: Value, general: Value)

  function Get(v: TierValues, t: Tier): Value {
    match t
    case Production => v.production
    case Transit => v.transit
    case Hub => v.hub
    case General => v.general
  }

  function Set(v: TierValues, t: Tier, x: Value): (r: TierValues)
    ensures Get(r, t) == x
    ensures forall u :: u != t ==> Get(r, u) == Get(v, u)
  {
    match t
    case Production => v.(production := x)
    case Transit => v.(transit := x)
    case Hub => v.(hub := x)
    case General => v.(general := x)
  }

  // ---------------------------------------------------------------------
  // Cumulative stock: chosen by the string order of the column names

  const StockPrefix := "stock_libre_mas_calidad_"

  function Suffix(t: Tier): string {
    match t
    case Production => "produccion"
    case Transit => "transito"
    case Hub => "hub"
    case General => "general"
  }

  /** The name of a tier's stock column. */
  function ColumnName(t: Tier): string {
    StockPrefix + Suffix(t)
  }

  /** Python's `<=` on strings: lexicographic by code point. */
  predicate LexLe(a: string, b: string) {
    if a == [] then true
    else if b == [] then false
    else if a[0] != b[0] then a[0] < b[0]
    else LexLe(a[1..], b[1..])
  }

  lemma {:induction false} LexLeRefl(a: string)
    ensures LexLe(a, a)
  {
    if a != [] {
      LexLeRefl(a[1..]);
    }
  }

  lemma {:induction false} LexLePrefix(p: string, a: string, b: string)
    ensures LexLe(p + a, p + b) == LexLe(a, b)
  {
    if p != [] {
      assert (p + a)[1..] == p[1..] + a && (p + b)[1..] == p[1..] + b;
      LexLePrefix(p[1..], a, b);
    } else {
      assert p + a == a && p + b == b;
    }
  }

  /** The place of a tier's column in string order. */
  function Rank(t: Tier): nat {
    match t
    case General => 0
    case Hub => 1
    case Production => 2
    case Transit => 3
  }

  /** The column names compare as general < hub < produccion < transito. */
  lemma ColumnOrder(u: Tier, t: Tier)
    ensures LexLe(ColumnName(u), ColumnName(t)) <==> Rank(u) <= Rank(t)
  {
    LexLePrefix(StockPrefix, Suffix(u), Suffix(t));
    if u == t {
      LexLeRefl(Suffix(u));
    }
  }

  /** `acumulado` for tier `t`: the sum of the stock columns whose names sort
      at most `t`'s column name; `ColumnOrder` shows that this is the order of
      `Rank`, and `CumulativeByColumnName` restates the sum in terms of the
      names themselves. */
  function Cumulative(s: TierStocks, t: Tier): real {
    (if Rank(Production) <= Rank(t) then s.production else 0.0) +
    (if Rank(Transit) <= Rank(t) then s.transit else 0.0) +
    (if Rank(Hub) <= Rank(t) then s.hub else 0.0) +
    (if Rank(General) <= Rank(t) then s.general else 0.0)
  }

  /** The cumulative stock sums, over the stock columns in frame order, every
      column whose name is at most `t`'s column name. */
  lemma CumulativeByColumnName(s: TierStocks, t: Tier)
    ensures Cumulative(s, t) ==
      (if LexLe(ColumnName(Production), ColumnName(t)) then s.production else 0.0) +
      (if LexLe(ColumnName(Transit), ColumnName(t)) then s.transit else 0.0) +
      (if LexLe(ColumnName(Hub), ColumnName(t)) then s.hub else 0.0) +
      (if LexLe(ColumnName(General), ColumnName(t)) then s.general else 0.0)
  {
    ColumnOrder(Production, t);
    ColumnOrder(Transit, t);
    ColumnOrder(Hub, t);
    ColumnOrder(General, t);
  }

  /** The cumulative stock of each tier: general alone; hub adds hub;
      produccion adds production; transito holds all four, production
      included, because "produccion" sorts before "transito". */
  lemma CumulativeByName(s: TierStocks)
    ensures Cumulative(s, General) == s.general
    ensures Cumulative(s, Hub) == s.general + s.hub
    ensures Cumulative(s, Production) == s.general + s.hub + s.production
    ensures Cumulative(s, Transit) == s.general + s.hub + s.production + s.transit
  {
  }

  /** With production 100, transit 0, hub 0 and general 50 the cumulative
      stock of transit is 150, not the 50 that a production-last layering
      would give. */
  lemma TransitIncludesProduction()
    ensures Cumulative(TierStocks(100.0, 0.0, 0.0, 50.0), Transit) == 150.0
    ensures Cumulative(TierStocks(100.0, 0.0, 0.0, 50.0), Production) == 150.0
    ensures Cumulative(TierStocks(100.0, 0.0, 0.0, 50.0), Hub) == 50.0
  {
    CumulativeByName(TierStocks(100.0, 0.0, 0.0, 50.0));
  }

  // ---------------------------------------------------------------------
  // Coverage of one row

  /** The columns `calcular_cobertura` reads from one row. */
  datatype CoverageInput = CoverageInput(
    ratio: real, maxima: real, rend: real, cob: real,
    stocks: TierStocks, consumo: Value)

  /** The columns it writes. */
  datatype CoverageCols = CoverageCols(target: Value, theoretical: TierValues, actual: TierValues)

  /** `stock_cobertura_ideal`, recomputed from the row. */
  function Target(c: CoverageInput): Value {
    BaseTable.IdealTarget(Fin(c.ratio), Fin(c.maxima), Fin(c.rend), Fin(c.cob))
  }

  /** `cobertura_teorica_con_stock_<t>`. */
  function Theoretical(c: CoverageInput, t: Tier): Value {
    if c.ratio != 0.0
    then Div(Mul(Fin(Cumulative(c.stocks, t)), Fin(c.cob)), ZeroToOne(Target(c)))
    else Fin(0.0)
  }

  /** `cobertura_real_<t>` before the infinity replacement. */
  function RawReal(c: CoverageInput, t: Tier): Value {
    if c.ratio != 0.0 then Div(Fin(Cumulative(c.stocks, t)), c.consumo) else Fin(0.0)
  }

  /** `cobertura_real_<t>` as the table ends up. */
  function Real(c: CoverageInput, t: Tier): (r: Value)
    ensures !r.PosInf? && !r.NegInf?
  {
    InfToZero(RawReal(c, t))
  }

  function CoverageOf(c: CoverageInput): CoverageCols {
    CoverageCols(
      Target(c),
      TierValues(Theoretical(c, Production), Theoretical(c, Transit), Theoretical(c, Hub), Theoretical(c, General)),
      TierValues(Real(c, Production), Real(c, Transit), Real(c, Hub), Real(c, General)))
  }

  /** The order of the tier loop. */
  const CoverageOrder: seq<Tier> := [General, Hub, Transit, Production]

  lemma CoverageOrderCovers(t: Tier)
    ensures exists m :: 0 <= m < 4 && CoverageOrder[m] == t
  {
    match t
    case General => assert CoverageOrder[0] == t;
    case Hub => assert CoverageOrder[1] == t;
    case Transit => assert CoverageOrder[2] == t;
    case Production => assert CoverageOrder[3] == t;
  }

  function InfToZeroAll(v: TierValues): TierValues {
    TierValues(InfToZero(v.production), InfToZero(v.transit), InfToZero(v.hub), InfToZero(v.general))
  }

  /** `calcular_cobertura` over a table: the target column, then the two
      coverage columns of each tier in loop order, then the infinity
      replacement on the real coverage columns. */
  method CalcularCobertura(rows: seq<CoverageInput>) returns (out: seq<CoverageCols>)
    ensures |out| == |rows|
    ensures forall i :: 0 <= i < |rows| ==> out[i] == CoverageOf(rows[i])
  {
    var targets := seq(|rows|, i requires 0 <= i < |rows| => Target(rows[i]));
    var nan := TierValues(NaN, NaN, NaN, NaN);
    var theo := seq(|rows|, i requires 0 <= i < |rows| => nan);
    var raw := seq(|rows|, i requires 0 <= i < |rows| => nan);
    for k := 0 to 4
      invariant |theo| == |rows| && |raw| == |rows|
      invariant forall i, m :: 0 <= i < |rows| && 0 <= m < k ==>
                  Get(theo[i], CoverageOrder[m]) == Theoretical(rows[i], CoverageOrder[m]) &&
                  Get(raw[i], CoverageOrder[m]) == RawReal(rows[i], CoverageOrder[m])
    {
      var tier := CoverageOrder[k];
      theo := seq(|rows|, i requires 0 <= i < |rows| && i < |theo| => Set(theo[i], tier, Theoretical(rows[i], tier)));
      raw := seq(|rows|, i requires 0 <= i < |rows| && i < |raw| => Set(raw[i], tier, RawReal(rows[i], tier)));
    }
    out := seq(|rows|, i requires 0 <= i < |rows| => CoverageCols(targets[i], theo[i], InfToZeroAll(raw[i])));
    forall i | 0 <= i < |rows| ensures out[i] == CoverageOf(rows[i]) {
      forall t ensures Get(theo[i], t) == Theoretical(rows[i], t) && Get(raw[i], t) == RawReal(rows[i], t) {
        CoverageOrderCovers(t);
      }
      assert Get(theo[i], Production) == Theoretical(rows[i], Production);
      assert Get(raw[i], Production) == RawReal(rows[i], Production);
    }
  }

  /** A zero nominal ratio zeroes every coverage column. */
  lemma ZeroRatioZeroCoverage(c: CoverageInput, t: Tier)
    requires c.ratio == 0.0
    ensures Theoretical(c, t) == Fin(0.0) && Real(c, t) == Fin(0.0)
  {
  }

  /** With a non-zero ratio the theoretical coverage is cumulative stock times
      ideal days over the target, except that a zero target counts as 1. */
  lemma TheoreticalGuard(c: CoverageInput, t: Tier)
    requires c.ratio != 0.0
    ensures Target(c) == Fin(0.0) ==> Theoretical(c, t) == Fin(Cumulative(c.stocks, t) * c.cob)
    ensures Target(c).Fin? && Target(c).v != 0.0 ==>
              Theoretical(c, t) == Fin(Cumulative(c.stocks, t) * c.cob / Target(c).v)
  {
  }

  /** With a non-zero ratio the real coverage is cumulative stock over daily
      consumption; a division by zero gives 0 (the infinity is replaced) unless
      the stock is zero too, which gives NaN (0/0 is not replaced); a missing
      consumption gives NaN. */
  lemma RealCoverageCases(c: CoverageInput, t: Tier)
    requires c.ratio != 0.0
    ensures c.consumo.Fin? && c.consumo.v != 0.0 ==> Real(c, t) == Fin(Cumulative(c.stocks, t) / c.consumo.v)
    ensures c.consumo == Fin(0.0) && Cumulative(c.stocks, t) != 0.0 ==> Real(c, t) == Fin(0.0)
    ensures c.consumo == Fin(0.0) && Cumulative(c.stocks, t) == 0.0 ==> Real(c, t) == NaN
    ensures c.consumo.NaN? ==> Real(c, t) == NaN
  {
  }

  /** The recomputed target agrees with the base table's target on a row
      whose ratio and capacity were found; on a row whose capacity is
      missing (its capacity columns filled with 0) it is NaN, whatever the
      filled base target was. */
  lemma RecomputedTarget(c: CoverageInput, r: Catalog.Ratio, cap: Catalog.Capacity)
    ensures c.ratio == r.ratioNominal && c.maxima == cap.maximaDescarga && c.rend == cap.rendimiento &&
            c.cob == cap.coberturaIdeal ==>
              Target(c) == BaseTable.RowTarget(Some(r), Some(cap))
    ensures c.maxima == 0.0 && c.rend == 0.0 && c.cob == 0.0 ==> Target(c) == NaN
  {
  }
}
