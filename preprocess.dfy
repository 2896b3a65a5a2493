/** The preprocessing of the two SAP extracts: the movement ledger (MB51)
    and the stock snapshot (MB52) get their catalog material id from the
    SAP code, then the snapshot is valued per location and split into tiers
    and the ledger gets its ids. */
module Preprocess {
  import opened Wrappers
  import Tables
  import Catalog
  import SapFrame
  import opened StockTiers

  /** One pair of the SAP-code-to-material mapping. */
  datatype SapMapping = SapMapping(idSap: string, idInsumo: string)

  function MappingOf(i: Catalog.Item): SapMapping {
    SapMapping(i.idSap, i.idInsumo)
  }

  function MappingSap(p: SapMapping): string {
    p.idSap
  }

  function RowMaterial(r: SapFrame.SapRow): string {
    r.material
  }

  /** The distinct (SAP code, material id) pairs of the catalog. */
  function Mapping(items: seq<Catalog.Item>): (m: seq<SapMapping>)
    ensures Tables.Distinct(m)
    ensures forall j :: 0 <= j < |m| ==> exists i :: 0 <= i < |items| && MappingOf(items[i]) == m[j]
    ensures forall i :: 0 <= i < |items| ==> MappingOf(items[i]) in m
  {
    var pairs := seq(|items|, i requires 0 <= i < |items| => MappingOf(items[i]));
    assert forall i :: 0 <= i < |items| ==> pairs[i] == MappingOf(items[i]);
    Tables.Dedup(pairs)
  }

  /** A merged row takes the material id of its pair, or none when its SAP
      code has no pair. */
  function MapRow(j: (SapFrame.SapRow, Option<SapMapping>)): SapFrame.SapRow {
    j.0.(insumo := if j.1.Some? then Some(j.1.value.idInsumo) else None)
  }

  /** The left merge of an extract with the mapping on the SAP code. */
  function Mapped(rows: seq<SapFrame.SapRow>, mapping: seq<SapMapping>): (out: seq<SapFrame.SapRow>)
    ensures |out| == |Tables.LeftJoin(rows, mapping, RowMaterial, MappingSap)|
  {
    var j := Tables.LeftJoin(rows, mapping, RowMaterial, MappingSap);
    seq(|j|, k requires 0 <= k < |j| => MapRow(j[k]))
  }

  /** The state of one extract after the mapping step: merged when it has the
      SAP code column, untouched otherwise. */
  ghost predicate IsMapped(cols0: set<SapFrame.Column>, rows0: seq<SapFrame.SapRow>,
                           cols: set<SapFrame.Column>, rows: seq<SapFrame.SapRow>, mapping: seq<SapMapping>)
  {
    if SapFrame.Material in cols0
    then cols == cols0 + {SapFrame.Insumo} && rows == Mapped(rows0, mapping)
    else cols == cols0 && rows == rows0
  }

  /** One step of the mapping loop. */
  method MapMaterials(f: SapFrame.Frame, mapping: seq<SapMapping>)
    modifies f
    ensures IsMapped(old(f.cols), old(f.rows), f.cols, f.rows, mapping)
  {
    if SapFrame.Material in f.cols {
      var j := Tables.LeftJoin(f.rows, mapping, RowMaterial, MappingSap);
      f.rows := seq(|j|, k requires 0 <= k < |j| => MapRow(j[k]));
      f.cols := f.cols + {SapFrame.Insumo};
    }
  }

  /** The mapping loop over the ledger and the snapshot. */
  method MapExtracts(mb51: SapFrame.Frame, mb52: SapFrame.Frame, items: seq<Catalog.Item>)
    requires mb51 != mb52
    modifies mb51, mb52
    ensures IsMapped(old(mb51.cols), old(mb51.rows), mb51.cols, mb51.rows, Mapping(items))
    ensures IsMapped(old(mb52.cols), old(mb52.rows), mb52.cols, mb52.rows, Mapping(items))
  {
    var mapping := Mapping(items);
    var extracts := [mb51, mb52];
    ghost var cols0, rows0 := [mb51.cols, mb52.cols], [mb51.rows, mb52.rows];
    for k := 0 to 2
      invariant forall j :: 0 <= j < k ==> IsMapped(cols0[j], rows0[j], extracts[j].cols, extracts[j].rows, mapping)
      invariant forall j :: k <= j < 2 ==> extracts[j].cols == cols0[j] && extracts[j].rows == rows0[j]
    {
      MapMaterials(extracts[k], mapping);
    }
    assert IsMapped(cols0[0], rows0[0], extracts[0].cols, extracts[0].rows, mapping);
    assert IsMapped(cols0[1], rows0[1], extracts[1].cols, extracts[1].rows, mapping);
  }

  /** Every merged row is a row of the extract with only its material id
      changed: the id is one the catalog pairs with the row's SAP code, and
      it is absent only when the catalog has no pair for the code. A code
      paired with several material ids repeats its row once per pair. */
  lemma MappedRows(rows: seq<SapFrame.SapRow>, mapping: seq<SapMapping>, k: int)
    requires 0 <= k < |Mapped(rows, mapping)|
    ensures var out := Mapped(rows, mapping);
      |out| == Tables.Copies(rows, mapping, RowMaterial, MappingSap) && |out| >= |rows| &&
      (exists i :: 0 <= i < |rows| && out[k] == rows[i].(insumo := out[k].insumo)) &&
      (out[k].insumo.Some? ==> SapMapping(out[k].material, out[k].insumo.value) in mapping) &&
      (out[k].insumo.None? ==> forall x :: 0 <= x < |mapping| ==> mapping[x].idSap != out[k].material)
  {
    Tables.LeftJoinSize(rows, mapping, RowMaterial, MappingSap);
    Tables.LeftJoinKeepsLeft(rows, mapping, RowMaterial, MappingSap);
    var i := Tables.LeftJoinRow(rows, mapping, RowMaterial, MappingSap, k);
    var out := Mapped(rows, mapping);
    assert out[k] == rows[i].(insumo := out[k].insumo);
  }

  /** When every SAP code has at most one pair the merge keeps the extract's
      rows one for one, in order. */
  lemma MappedOneToOne(rows: seq<SapFrame.SapRow>, mapping: seq<SapMapping>)
    requires Tables.KeysDistinct(mapping, MappingSap)
    ensures var out := Mapped(rows, mapping);
      |out| == |rows| && forall i :: 0 <= i < |rows| ==> out[i] == rows[i].(insumo := out[i].insumo)
  {
    forall i | 0 <= i < |rows| ensures |Tables.Matches(mapping, MappingSap, RowMaterial(rows[i]))| <= 1 {
      Tables.MatchesAtMostOne(mapping, MappingSap, RowMaterial(rows[i]));
    }
    Tables.LeftJoinAtMostOne(rows, mapping, RowMaterial, MappingSap);
  }

  /** A row whose SAP code the catalog does not map keeps no material id
      through the id generation, so it has no key and no group takes it. */
  lemma UnmappedRowHasNoGroup(r: SapFrame.SapRow, cols: set<SapFrame.Column>, tipo: string)
    requires SapFrame.Insumo in cols && r.insumo.None?
    ensures !HasGroupKey(SapFrame.WithIds(r, cols, tipo))
    ensures SapFrame.WithIds(r, cols, tipo).key.None?
  {
  }

  function MappedColumns(cols: set<SapFrame.Column>): set<SapFrame.Column> {
    if SapFrame.Material in cols then cols + {SapFrame.Insumo} else cols
  }

  function MappedRowsOf(cols: set<SapFrame.Column>, rows: seq<SapFrame.SapRow>, mapping: seq<SapMapping>): seq<SapFrame.SapRow> {
    if SapFrame.Material in cols then Mapped(rows, mapping) else rows
  }

  /** What the preprocessing hands on: the per-location valuation of the
      snapshot and its four tier tables. */
  datatype Prepared = Prepared(valor: seq<SapFrame.LocationValue>, tiers: Mb52Tiers)

  /** `preprocesar_datos` on the two extracts: the mapping loop, the
      valuation of the snapshot, the ids of the ledger and the tier split of
      the snapshot, each in place. Fails where the source raises on a
      missing column. */
  method Preprocess(mb51: SapFrame.Frame, mb52: SapFrame.Frame, items: seq<Catalog.Item>)
    returns (res: Result<Prepared>)
    requires mb51 != mb52
    modifies mb51, mb52
    ensures res.Success? <==>
      (SapFrame.Insumo in old(mb52.cols) || SapFrame.Material in old(mb52.cols)) &&
      (SapFrame.Stock in old(mb52.cols) || SapFrame.StockApplies(old(mb52.cols), "general")) &&
      (SapFrame.Valor in old(mb52.cols) || SapFrame.ValueApplies(old(mb52.cols), "general")) &&
      (SapFrame.Insumo in old(mb51.cols) || SapFrame.Material in old(mb51.cols))
    ensures res.Success? ==>
      var c51, c52 := MappedColumns(old(mb51.cols)), MappedColumns(old(mb52.cols));
      mb51.cols == SapFrame.IdColumns(c51, "general") &&
      mb51.rows == SapFrame.WithIdsAll(MappedRowsOf(old(mb51.cols), old(mb51.rows), Mapping(items)), c51, "general") &&
      mb52.cols == SapFrame.ValuedColumns(c52, "general") &&
      mb52.rows == SapFrame.WithValueAll(
        SapFrame.WithIdsAll(MappedRowsOf(old(mb52.cols), old(mb52.rows), Mapping(items)), c52, "general"),
        c52, "general") &&
      res.value.valor == SapFrame.ByLocation(mb52.rows) &&
      res.value.tiers == Split(Grouped(mb52.rows))
  {
    ghost var o51, o52 := mb51.cols, mb52.cols;
    MapExtracts(mb51, mb52, items);
    ghost var c51, r51 := mb51.cols, mb51.rows;
    ghost var c52, r52 := mb52.cols, mb52.rows;
    MappedColumnsKeep(o51);
    MappedColumnsKeep(o52);
    assert c52 == MappedColumns(o52) && r52 == MappedRowsOf(o52, old(mb52.rows), Mapping(items));
    assert c51 == MappedColumns(o51) && r51 == MappedRowsOf(o51, old(mb51.rows), Mapping(items));
    var valor := SapFrame.ValueByLocation(mb52, "general");
    if valor.Failure? {
      return Failure(valor.error);
    }
    ghost var w52 := mb52.rows;
    var ok := mb51.AddIdsAndStock("general");
    if !ok {
      return Failure("KeyError: 'Material'");
    }
    assert mb52.rows == w52 && mb52.cols == SapFrame.ValuedColumns(c52, "general");
    SapFrame.ValuedIdsStable(r52, c52, "general");
    SapFrame.IdColumnsHas(SapFrame.Insumo, c52, "general");
    SapFrame.IdColumnsHas(SapFrame.Stock, c52, "general");
    var tiers := SplitMb52(mb52, "general");
    assert mb52.rows == w52;
    res := Success(Prepared(valor.value, tiers.value));
  }

  /** The mapping step adds only the material id column. */
  lemma MappedColumnsKeep(cols: set<SapFrame.Column>)
    ensures SapFrame.Insumo in MappedColumns(cols) || SapFrame.Material in MappedColumns(cols)
            <==> SapFrame.Insumo in cols || SapFrame.Material in cols
    ensures forall c :: c != SapFrame.Insumo ==> (c in MappedColumns(cols) <==> c in cols)
    ensures SapFrame.StockApplies(MappedColumns(cols), "general") == SapFrame.StockApplies(cols, "general")
    ensures SapFrame.ValueApplies(MappedColumns(cols), "general") == SapFrame.ValueApplies(cols, "general")
  {
  }
}
