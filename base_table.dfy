/** The catalog base of the coverage report: every material-catalog row with
    its nominal ratio (matched on `id_mix`) and its location's installed
    capacity, and the ideal stock target computed from them. */
module BaseTable {
  import opened Wrappers
  import opened Num
  import Tables
  import Keys
  import Catalog

  /** `id_mix` of a material-catalog row: its location followed by its material. */
  function ItemMix(i: Catalog.Item): string {
    Keys.CompositeKey(i.idLocalidad, i.idInsumo)
  }

  /** `id_mix` of a ratio row, built the same way. */
  function RatioMix(r: Catalog.Ratio): string {
    Keys.CompositeKey(r.idLocalidad, r.idInsumo)
  }

  function HomologLocation(h: (Catalog.Item, Option<Catalog.Ratio>)): string {
    h.0.idLocalidad
  }

  function CapacityLocation(c: Catalog.Capacity): string {
    c.idLocalidad
  }

  /** A row of the base table: the catalog row, its ratio and capacity rows
      (absent when the merge found none) and the ideal stock target. */
  datatype BaseRow = BaseRow(
    item: Catalog.Item, ratio: Option<Catalog.Ratio>, capacity: Option<Catalog.Capacity>,
    target: Value)

  /** The numeric columns of a base row; a column the merge left empty is NaN. */
  function RatioNominal(r: Option<Catalog.Ratio>): Value {
    if r.Some? then Fin(r.value.ratioNominal) else NaN
  }

  function MaximaDescarga(c: Option<Catalog.Capacity>): Value {
    if c.Some? then Fin(c.value.maximaDescarga) else NaN
  }

  function Rendimiento(c: Option<Catalog.Capacity>): Value {
    if c.Some? then Fin(c.value.rendimiento) else NaN
  }

  function CoberturaIdeal(c: Option<Catalog.Capacity>): Value {
    if c.Some? then Fin(c.value.coberturaIdeal) else NaN
  }

  /** `stock_cobertura_ideal = ratio_nominal * maxima_descarga / rendimiento
      * cobertura_ideal`, evaluated left to right with no guard. */
  function IdealTarget(ratio: Value, maxima: Value, rend: Value, cob: Value): (t: Value)
    ensures (ratio.NaN? || maxima.NaN? || rend.NaN? || cob.NaN?) ==> t.NaN?
  {
    Mul(Div(Mul(ratio, maxima), rend), cob)
  }

  /** On present values with a non-zero yield the target is the exact ratio. */
  lemma IdealTargetFinite(ratio: real, maxima: real, rend: real, cob: real)
    requires rend != 0.0
    ensures IdealTarget(Fin(ratio), Fin(maxima), Fin(rend), Fin(cob)) == Fin(ratio * maxima / rend * cob)
  {
  }

  /** The yield is not guarded: a zero yield makes the target infinite (or NaN
      when the numerator is zero too), and a missing catalog value makes it
      NaN. */
  lemma IdealTargetUnguarded(ratio: real, maxima: real, cob: real)
    ensures ratio * maxima > 0.0 && cob > 0.0 ==> IdealTarget(Fin(ratio), Fin(maxima), Fin(0.0), Fin(cob)) == PosInf
    ensures ratio * maxima == 0.0 ==> IdealTarget(Fin(ratio), Fin(maxima), Fin(0.0), Fin(cob)) == NaN
  {
  }

  /** The target of a base row from its ratio and capacity rows. */
  function RowTarget(r: Option<Catalog.Ratio>, c: Option<Catalog.Capacity>): Value {
    IdealTarget(RatioNominal(r), MaximaDescarga(c), Rendimiento(c), CoberturaIdeal(c))
  }

  /** The ratio merge on `id_mix`. */
  function Homologation(items: seq<Catalog.Item>, ratios: seq<Catalog.Ratio>): seq<(Catalog.Item, Option<Catalog.Ratio>)> {
    Tables.LeftJoin(items, ratios, ItemMix, RatioMix)
  }

  /** `df_base`: the ratio merge, then the capacity merge on `id_localidad`,
      then the ideal target. */
  function Base(items: seq<Catalog.Item>, ratios: seq<Catalog.Ratio>, caps: seq<Catalog.Capacity>): (base: seq<BaseRow>)
    ensures |base| == |Tables.LeftJoin(Homologation(items, ratios), caps, HomologLocation, CapacityLocation)|
  {
    var j := Tables.LeftJoin(Homologation(items, ratios), caps, HomologLocation, CapacityLocation);
    seq(|j|, k requires 0 <= k < |j| => BaseRow(j[k].0.0, j[k].0.1, j[k].1, RowTarget(j[k].0.1, j[k].1)))
  }

  /** The base table keeps every catalog row: no catalog row is dropped by
      either merge. */
  lemma BaseKeepsCatalog(items: seq<Catalog.Item>, ratios: seq<Catalog.Ratio>, caps: seq<Catalog.Capacity>)
    ensures var base := Base(items, ratios, caps);
      |base| >= |items| &&
      forall i :: 0 <= i < |items| ==> exists k :: 0 <= k < |base| && base[k].item == items[i]
  {
    var h := Homologation(items, ratios);
    var j := Tables.LeftJoin(h, caps, HomologLocation, CapacityLocation);
    var base := Base(items, ratios, caps);
    assert |h| >= |items| by { Tables.LeftJoinKeepsLeft(items, ratios, ItemMix, RatioMix); }
    assert |j| >= |h| by { Tables.LeftJoinKeepsLeft(h, caps, HomologLocation, CapacityLocation); }
    forall i | 0 <= i < |items| ensures exists k :: 0 <= k < |base| && base[k].item == items[i] {
      Tables.LeftJoinKeepsRow(items, ratios, ItemMix, RatioMix, i);
      var m :| 0 <= m < |h| && h[m].0 == items[i];
      Tables.LeftJoinKeepsRow(h, caps, HomologLocation, CapacityLocation, m);
      var k :| 0 <= k < |j| && j[k].0 == h[m];
      assert base[k].item == items[i];
    }
  }

  /** Every base row comes from a catalog row, carries a ratio exactly when
      one with its `id_mix` exists (and then a matching one), carries a
      capacity exactly when one for its location exists, and holds the ideal
      target of the two. */
  lemma BaseRowsMatch(items: seq<Catalog.Item>, ratios: seq<Catalog.Ratio>, caps: seq<Catalog.Capacity>, k: int)
    requires 0 <= k < |Base(items, ratios, caps)|
    ensures var b := Base(items, ratios, caps)[k];
      b.item in items &&
      b.target == RowTarget(b.ratio, b.capacity) &&
      (b.ratio.Some? ==> b.ratio.value in ratios && RatioMix(b.ratio.value) == ItemMix(b.item)) &&
      (b.ratio.None? ==> forall x :: 0 <= x < |ratios| ==> RatioMix(ratios[x]) != ItemMix(b.item)) &&
      (b.capacity.Some? ==> b.capacity.value in caps && b.capacity.value.idLocalidad == b.item.idLocalidad) &&
      (b.capacity.None? ==> forall x :: 0 <= x < |caps| ==> caps[x].idLocalidad != b.item.idLocalidad)
  {
    var h := Homologation(items, ratios);
    var j := Tables.LeftJoin(h, caps, HomologLocation, CapacityLocation);
    var b := Base(items, ratios, caps)[k];
    Tables.LeftJoinKeepsLeft(items, ratios, ItemMix, RatioMix);
    Tables.LeftJoinKeepsLeft(h, caps, HomologLocation, CapacityLocation);
    assert j[k] in j;
    assert j[k].0 in h;
    assert b.item == j[k].0.0 && b.ratio == j[k].0.1 && b.capacity == j[k].1;
  }

  /** With one ratio row per `id_mix` and one capacity row per location the
      base table has exactly the catalog's rows, in order. */
  lemma BaseOneRowPerItem(items: seq<Catalog.Item>, ratios: seq<Catalog.Ratio>, caps: seq<Catalog.Capacity>)
    requires Tables.KeysDistinct(ratios, RatioMix)
    requires Tables.KeysDistinct(caps, CapacityLocation)
    ensures var base := Base(items, ratios, caps);
      |base| == |items| &&
      forall i :: 0 <= i < |items| ==> base[i].item == items[i]
  {
    var h := Homologation(items, ratios);
    forall i | 0 <= i < |items| ensures |Tables.Matches(ratios, RatioMix, ItemMix(items[i]))| <= 1 {
      Tables.MatchesAtMostOne(ratios, RatioMix, ItemMix(items[i]));
    }
    Tables.LeftJoinAtMostOne(items, ratios, ItemMix, RatioMix);
    forall i | 0 <= i < |h| ensures |Tables.Matches(caps, CapacityLocation, HomologLocation(h[i]))| <= 1 {
      Tables.MatchesAtMostOne(caps, CapacityLocation, HomologLocation(h[i]));
    }
    Tables.LeftJoinAtMostOne(h, caps, HomologLocation, CapacityLocation);
  }
}
