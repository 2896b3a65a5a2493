/** The stock snapshot (MB52) and movement ledger (MB51) extracts as frames
    whose columns are added in place: location, material, keys and the
    free + quality stock. */
module SapFrame {
  import opened Wrappers
  import Keys
  import Tables

  /** The columns a frame may or may not have. `Centro` and `Almacén` are in
      every extract and are not listed. */
  datatype Column =
    | Material        // 'Material'
    | Insumo          // 'id_insumo'
    | Sap             // 'id_sap'
    | Libre           // 'Libre utilización'
    | Calidad         // 'Inspecc.de calidad'
    | ValorLibre      // 'Valor libre util.'
    | ValorCalidad    // 'Valor en insp.cal.'
    | Cantidad        // 'Cantidad'
    | IdLocalidad     // 'id_localidad'
    | Key             // 'id_localidad_insumo'
    | KeySap          // 'id_localidad_sap'
    | Stock           // 'stock_libre_mas_calidad'
    | Valor           // 'valor_libre_mas_calidad'

  /** One row of an extract, with a slot for every column; a slot's value
      means something only while its column is in the frame. A missing
      material (a SAP code the catalog does not map) is `None`; its key is
      `None` too. */
  datatype SapRow = SapRow(
    centro: string, almacen: string, material: string,
    insumo: Option<string>, sap: string,
    cantidad: real, libre: real, calidad: real, valorLibre: real, valorCalidad: real,
    idLocalidad: string, key: Option<string>, keySap: Option<string>,
    stock: real, valor: real)

  /** The key of a row whose material may be missing. */
  function KeyOf(location: string, material: Option<string>): (k: Option<string>)
    ensures k.Some? <==> material.Some?
    ensures k.Some? ==> k.value == Keys.CompositeKey(location, material.value)
  {
    match material
    case Some(m) => Some(Keys.CompositeKey(location, m))
    case None => None
  }

  /** Free + quality stock is computed only for the general kind of frame and
      only when both quantity columns are there. */
  predicate StockApplies(cols: set<Column>, tipo: string) {
    Libre in cols && Calidad in cols && tipo == "general"
  }

  /** The same for the value columns. */
  predicate ValueApplies(cols: set<Column>, tipo: string) {
    ValorLibre in cols && ValorCalidad in cols && tipo == "general"
  }

  /** The columns of a frame after ids and stock are generated. */
  function IdColumns(cols: set<Column>, tipo: string): set<Column> {
    cols + {IdLocalidad, Insumo, Key, KeySap}
    + (if Insumo !in cols then {Sap} else {})
    + (if StockApplies(cols, tipo) then {Stock} else {})
  }

  lemma IdColumnsHas(c: Column, cols: set<Column>, tipo: string)
    ensures c in IdColumns(cols, tipo) <==>
              c in cols || c == IdLocalidad || c == Insumo || c == Key || c == KeySap ||
              (c == Sap && Insumo !in cols) || (c == Stock && StockApplies(cols, tipo))
  {
  }

  /** A row after ids and stock are generated in a frame with columns `cols`:
      when the frame has no material id yet, the SAP code is both the SAP id
      and the material id. */
  function WithIds(r: SapRow, cols: set<Column>, tipo: string): SapRow
    requires Insumo in cols || Material in cols
  {
    var loc := Keys.LocationId(r.centro, r.almacen);
    var fromSap := Insumo !in cols;
    var ins := if fromSap then Some(r.material) else r.insumo;
    var sap := if fromSap then r.material else r.sap;
    var key := KeyOf(loc, ins);
    r.(idLocalidad := loc, insumo := ins, sap := sap,
       stock := if StockApplies(cols, tipo) then r.libre + r.calidad else r.stock,
       key := key,
       keySap := if fromSap || Sap in cols then KeyOf(loc, Some(sap)) else key)
  }

  function WithIdsAll(rows: seq<SapRow>, cols: set<Column>, tipo: string): (out: seq<SapRow>)
    requires Insumo in cols || Material in cols
    ensures |out| == |rows|
  {
    seq(|rows|, i requires 0 <= i < |rows| => WithIds(rows[i], cols, tipo))
  }

  // The column writes of the id generation, one row at a time.

  function SetLocation(r: SapRow): SapRow {
    r.(idLocalidad := Keys.LocationId(r.centro, r.almacen))
  }

  function SetMaterialFromSap(r: SapRow): SapRow {
    r.(sap := r.material, insumo := Some(r.material))
  }

  function SetStock(r: SapRow): SapRow {
    r.(stock := r.libre + r.calidad)
  }

  function SetKey(r: SapRow): SapRow {
    r.(key := KeyOf(r.idLocalidad, r.insumo))
  }

  function SetKeySap(r: SapRow, hasSap: bool): SapRow {
    r.(keySap := if hasSap then KeyOf(r.idLocalidad, Some(r.sap)) else r.key)
  }

  /** The column writes, in the order the source makes them, give `WithIds`. */
  lemma WithIdsBySteps(r: SapRow, cols: set<Column>, tipo: string)
    requires Insumo in cols || Material in cols
    ensures var a := SetLocation(r);
            var b := if Insumo !in cols then SetMaterialFromSap(a) else a;
            var c := if StockApplies(cols, tipo) then SetStock(b) else b;
            WithIds(r, cols, tipo) == SetKeySap(SetKey(c), Insumo !in cols || Sap in cols)
  {
  }

  /** A pandas frame of an extract, changed in place by the id generation. */
  class Frame {
    var cols: set<Column>
    var rows: seq<SapRow>

    constructor (cols: set<Column>, rows: seq<SapRow>)
      ensures this.cols == cols && this.rows == rows
    {
      this.cols := cols;
      this.rows := rows;
    }

    /** Adds the location, material, key and stock columns. Fails (the source
        raises) when there is neither a material id nor a SAP code column;
        the location column is written before that happens. */
    method AddIdsAndStock(tipo: string) returns (ok: bool)
      modifies this
      ensures ok <==> Insumo in old(cols) || Material in old(cols)
      ensures ok ==> cols == IdColumns(old(cols), tipo) && rows == WithIdsAll(old(rows), old(cols), tipo)
      ensures !ok ==> cols == old(cols) + {IdLocalidad} &&
                      rows == seq(|old(rows)|, i requires 0 <= i < |old(rows)| => SetLocation(old(rows)[i]))
    {
      ghost var cols0 := cols;
      var rows0 := rows;
      var cs := cols + {IdLocalidad};
      var rs := seq(|rows0|, i requires 0 <= i < |rows0| => SetLocation(rows0[i]));
      if Insumo !in cs {
        if Material !in cs {
          rows, cols := rs, cs;
          return false;
        }
        rs := seq(|rs|, i requires 0 <= i < |rs| => SetMaterialFromSap(rs[i]));
        cs := cs + {Sap, Insumo};
      }
      if Libre in cs && Calidad in cs && tipo == "general" {
        rs := seq(|rs|, i requires 0 <= i < |rs| => SetStock(rs[i]));
        cs := cs + {Stock};
      }
      rs := seq(|rs|, i requires 0 <= i < |rs| => SetKey(rs[i]));
      var hasSap := Sap in cs;
      rs := seq(|rs|, i requires 0 <= i < |rs| => SetKeySap(rs[i], hasSap));
      cs := cs + {Key, KeySap};
      assert cs == IdColumns(cols0, tipo) by {
        forall c ensures c in cs <==> c in IdColumns(cols0, tipo) {
          IdColumnsHas(c, cols0, tipo);
        }
      }
      assert rs == WithIdsAll(rows0, cols0, tipo) by {
        forall i | 0 <= i < |rows0| ensures rs[i] == WithIds(rows0[i], cols0, tipo) {
          WithIdsBySteps(rows0[i], cols0, tipo);
        }
      }
      rows, cols := rs, cs;
      ok := true;
    }

    /** The tail of the valuation, once ids and stock are in place: the value
        column is written when both value parts are present in a frame of the
        general kind, then stock and value are summed per location. Fails
        when the stock or the value column is missing. */
    method AddValueAndSum(tipo: string) returns (res: Result<seq<LocationValue>>)
      modifies this
      ensures res.Success? <==> Stock in old(cols) && (Valor in old(cols) || ValueApplies(old(cols), tipo))
      ensures cols == old(cols) + (if ValueApplies(old(cols), tipo) then {Valor} else {})
      ensures rows == WithValueAll(old(rows), old(cols), tipo)
      ensures res.Success? ==> res.value == ByLocation(rows)
    {
      if ValorLibre in cols && ValorCalidad in cols && tipo == "general" {
        var rs := rows;
        rows := seq(|rs|, i requires 0 <= i < |rs| => SetValue(rs[i]));
        cols := cols + {Valor};
      }
      if Stock !in cols || Valor !in cols {
        return Failure("KeyError: missing stock or value column");
      }
      var ls := Locations(rows);
      var groups, stocks := Tables.GroupSum(ls, Stocks(rows));
      var groups2, values := Tables.GroupSum(ls, Values(rows));
      res := Success(seq(|groups|, j requires 0 <= j < |groups| => LocationValue(groups[j], stocks[j], values[j])));
    }
  }

  /** Generating ids gives every row its location and, when its material is
      known, the key made of the location followed by the material; the stock
      is free + quality exactly when the frame has both columns and is of the
      general kind. */
  lemma WithIdsColumns(r: SapRow, cols: set<Column>, tipo: string)
    requires Insumo in cols || Material in cols
    ensures var w := WithIds(r, cols, tipo);
      w.idLocalidad == Keys.LocationId(r.centro, r.almacen) &&
      (Insumo !in cols ==> w.insumo == Some(r.material) && w.sap == r.material) &&
      (Insumo in cols ==> w.insumo == r.insumo) &&
      (w.key.Some? <==> w.insumo.Some?) &&
      (w.key.Some? ==> |w.idLocalidad| <= |w.key.value| && w.key.value[..|w.idLocalidad|] == w.idLocalidad
                       && w.key.value[|w.idLocalidad|..] == w.insumo.value) &&
      (StockApplies(cols, tipo) ==> w.stock == r.libre + r.calidad) &&
      (Stock in IdColumns(cols, tipo) <==> Stock in cols || StockApplies(cols, tipo)) &&
      (Sap !in cols && Insumo in cols ==> w.keySap == w.key) &&
      w.centro == r.centro && w.almacen == r.almacen && w.material == r.material &&
      w.cantidad == r.cantidad && w.libre == r.libre && w.calidad == r.calidad
  {
  }

  /** Generating ids twice is the same as once: the stock snapshot goes through
      it once for its valuation and again for the tier split. */
  lemma WithIdsIdempotent(r: SapRow, cols: set<Column>, tipo: string)
    requires Insumo in cols || Material in cols
    ensures WithIds(WithIds(r, cols, tipo), IdColumns(cols, tipo), tipo) == WithIds(r, cols, tipo)
    ensures IdColumns(IdColumns(cols, tipo), tipo) == IdColumns(cols, tipo)
  {
  }

  /** Stock and value summed per location. */
  datatype LocationValue = LocationValue(idLocalidad: string, stock: real, valor: real)

  function Locations(rows: seq<SapRow>): (ls: seq<string>)
    ensures |ls| == |rows|
  {
    seq(|rows|, i requires 0 <= i < |rows| => rows[i].idLocalidad)
  }

  function Stocks(rows: seq<SapRow>): (vs: seq<real>)
    ensures |vs| == |rows|
  {
    seq(|rows|, i requires 0 <= i < |rows| => rows[i].stock)
  }

  function Values(rows: seq<SapRow>): (vs: seq<real>)
    ensures |vs| == |rows|
  {
    seq(|rows|, i requires 0 <= i < |rows| => rows[i].valor)
  }

  /** Stock and value summed per location, one entry per location in order
      of first appearance. */
  function ByLocation(rows: seq<SapRow>): (vs: seq<LocationValue>)
    ensures var ls := Locations(rows);
      |vs| == |Tables.Dedup(ls)| &&
      forall j :: 0 <= j < |vs| ==>
        vs[j].idLocalidad == Tables.Dedup(ls)[j] &&
        vs[j].stock == Tables.SumWhere(ls, Stocks(rows), vs[j].idLocalidad) &&
        vs[j].valor == Tables.SumWhere(ls, Values(rows), vs[j].idLocalidad)
  {
    var ls := Locations(rows);
    var d := Tables.Dedup(ls);
    seq(|d|, j requires 0 <= j < |d| =>
      LocationValue(d[j], Tables.SumWhere(ls, Stocks(rows), d[j]), Tables.SumWhere(ls, Values(rows), d[j])))
  }

  function SetValue(r: SapRow): SapRow {
    r.(valor := r.valorLibre + r.valorCalidad)
  }

  /** The value column write of the valuation. */
  function WithValueAll(rows: seq<SapRow>, cols: set<Column>, tipo: string): (out: seq<SapRow>)
    ensures |out| == |rows|
    ensures forall i :: 0 <= i < |rows| ==> out[i] == if ValueApplies(cols, tipo) then SetValue(rows[i]) else rows[i]
  {
    if ValueApplies(cols, tipo) then seq(|rows|, i requires 0 <= i < |rows| => SetValue(rows[i])) else rows
  }

  /** The columns of the snapshot after the valuation. */
  function ValuedColumns(cols: set<Column>, tipo: string): set<Column> {
    IdColumns(cols, tipo) + (if ValueApplies(cols, tipo) then {Valor} else {})
  }

  /** The valuation of the stock snapshot: ids and stock are generated in
      place, the value column is added, and stock and value are summed per
      location. Fails when a column the source reads is missing. */
  method ValueByLocation(f: Frame, tipo: string) returns (res: Result<seq<LocationValue>>)
    modifies f
    ensures res.Success? ==> res.value == ByLocation(f.rows)
    ensures res.Success? <==>
      (Insumo in old(f.cols) || Material in old(f.cols)) &&
      (Stock in old(f.cols) || StockApplies(old(f.cols), tipo)) &&
      (Valor in old(f.cols) || ValueApplies(old(f.cols), tipo))
    ensures Insumo in old(f.cols) || Material in old(f.cols) ==>
      f.cols == ValuedColumns(old(f.cols), tipo) &&
      f.rows == WithValueAll(WithIdsAll(old(f.rows), old(f.cols), tipo), old(f.cols), tipo)
    ensures Insumo !in old(f.cols) && Material !in old(f.cols) ==>
      f.cols == old(f.cols) + {IdLocalidad} &&
      f.rows == seq(|old(f.rows)|, i requires 0 <= i < |old(f.rows)| => SetLocation(old(f.rows)[i]))
  {
    ghost var cols0 := f.cols;
    var ok := f.AddIdsAndStock(tipo);
    if !ok {
      return Failure("KeyError: 'Material'");
    }
    IdColumnsHas(Stock, cols0, tipo);
    IdColumnsHas(Valor, cols0, tipo);
    IdColumnsHas(ValorLibre, cols0, tipo);
    IdColumnsHas(ValorCalidad, cols0, tipo);
    assert ValueApplies(f.cols, tipo) == ValueApplies(cols0, tipo);
    ghost var rows1 := f.rows;
    res := f.AddValueAndSum(tipo);
    assert f.rows == WithValueAll(rows1, cols0, tipo);
  }

  /** The valuation leaves the snapshot in a state the id generation does not
      change again: the tier split that follows it sees the same rows and
      columns. */
  lemma ValuedIdsStable(rows: seq<SapRow>, cols: set<Column>, tipo: string)
    requires Insumo in cols || Material in cols
    ensures var c1 := ValuedColumns(cols, tipo);
      var w := WithValueAll(WithIdsAll(rows, cols, tipo), cols, tipo);
      IdColumns(c1, tipo) == c1 && WithIdsAll(w, c1, tipo) == w
  {
    var c1 := ValuedColumns(cols, tipo);
    var w := WithValueAll(WithIdsAll(rows, cols, tipo), cols, tipo);
    assert StockApplies(c1, tipo) == StockApplies(cols, tipo);
    forall i | 0 <= i < |w| ensures WithIds(w[i], c1, tipo) == w[i] {
      WithIdsIdempotent(rows[i], cols, tipo);
    }
  }

  /** The per-location sums add up to the frame's total stock and value. */
  lemma ValueByLocationConserves(rows: seq<SapRow>)
    ensures var ls := Locations(rows);
      Tables.GroupTotal(Tables.Dedup(ls), ls, Stocks(rows)) == Tables.Sum(Stocks(rows)) &&
      Tables.GroupTotal(Tables.Dedup(ls), ls, Values(rows)) == Tables.Sum(Values(rows))
  {
    Tables.GroupConservation(Locations(rows), Stocks(rows));
    Tables.GroupConservation(Locations(rows), Values(rows));
  }
}
