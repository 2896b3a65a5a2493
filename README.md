# Supply-coverage reconciliation, modelled in Dafny

This project models the reconciliation engine of the supply-management tool
(`gestion de insumos`). The engine takes these inputs:

- the SAP stock snapshot (MB52);
- the SAP movement ledger (MB51);
- the material catalog, the nominal-ratio catalog and the installed-capacity catalog;
- the fishing report of the period.

From them it builds a per-(location, material) coverage report and a
per-material roll-up of that report. The model follows the source step by
step:

- **Keys** (`keys.dfy`). The location id collapses centre `TCNO` with warehouse
  `HUB` into `TCNO-HUB`. The composite key `id_localidad_insumo` is the location
  followed by the material id.
- **SAP frames** (`sap_frame.dfy`). A pandas frame is a `class Frame` whose
  column set and rows are updated in place by the id generation
  (`generar_ids_y_stock`). The valuation per location
  (`generar_ids_y_stock_valor`) is built on the same frame.
- **Preprocessing** (`preprocess.dfy`). The SAP-code-to-material mapping loop
  over the ledger and the snapshot. Then the valuation, the ledger ids and the
  tier split, each applied to the same frames in the order the source uses.
- **Stock tiers** (`stock_tiers.dfy`). The snapshot is grouped by (location,
  warehouse, material, key). It is then split by warehouse code: `PI01` is
  production, `''` is transit, `L003` is hub, and every other code is general.
- **Base table and consumption** (`base_table.dfy`, `consumption.dfy`). These
  model `procesar_datos_principales`:
  - the ratio merge on `id_mix` and the capacity merge on `id_localidad`;
  - the unguarded ideal target;
  - the absolute net ledger quantity per (location, material);
  - the distinct fishing days per plant;
  - the daily rate with missing days counted as 1.
- **Coverage** (`coverage.dfy`). This models `calcular_cobertura`:
  - the cumulative stock per tier, chosen by the string order of the column names;
  - the theoretical and real coverage;
  - the zero-ratio, zero-target and infinity guards.
- **Report** (`reconcile.dfy`). `procesar_datos` up to the roll-up:
  - the four tier merges;
  - `fillna(0)`;
  - total stock, surplus and shortage;
  - the consumption merge and the coverage.
- **Per-material view** (`material_view.dfy`). The group-by on the material
  with sums, means and first values, then coverage recomputed on the
  aggregates.
- **Earlier revision** (`legacy.dfy`). The variants in `funciones.py`:
  - the material id is always the SAP code;
  - there is no SAP-coded key;
  - a final descriptor merge replaces the view;
  - the purchase-order split by item type is added.

  Its location id and its coverage step are the same code as the current
  revision, so `Keys.LocationId` and `Coverage.CalcularCobertura` model both.
- `tables.dfy` holds the table operations the steps share:
  - group-by sums in order of first appearance;
  - filters;
  - the pandas left merge (each left row repeated once per matching right row, kept once with an empty right side when nothing matches).
- `num.dfy` holds float column values: an exact real, ±infinity or NaN. The
  source divides without guards and replaces only infinities, so those
  outcomes are part of its behaviour.

The order of the cumulative coverage follows the code, not the prose
description of the tool. The prose lists production before transit. The code
sums every stock column whose name sorts at most the tier's own column name.
As a result:

- `transito` includes production stock;
- `produccion` excludes transit stock;
- with production 100, hub 0, transit 0 and general 50, the transit cumulative is 150, not 50.

The main lemmas for each area:

- **Tier split and view.** The tier split is a partition that conserves
  stock. The view keeps each tier's stock total.
- **Tier merges.**
  - They never drop a base row.
  - A row matching n groups comes out n times. So one key in two general
    warehouses repeats its row, and its other tiers' stock is counted twice
    (`Reconcile.GeneralTierRepeatsRow`).
- **Surplus and shortage.** Neither is negative, at most one is positive, and
  their difference is total minus target.
- **Daily rates.** The consumption merge keeps every row, and the daily rate
  is at most the total.

## Model

| member | source | states |
|---|---|---|
| Keys.LocationId | modules/utils_gestion_de_insumos.py:8-19 | `TCNO`/`HUB` gives `TCNO-HUB`; every other pair gives the centre, for all inputs |
| Keys.CompositeKey | modules/utils_gestion_de_insumos.py:45 | the key is the location followed by the material: the location is its prefix, the material the rest |
| Keys.LocationIgnoresStoreOutsideHub | modules/utils_gestion_de_insumos.py:19 | outside the hub centre the warehouse never changes the location |
| Keys.HubCentreSplits | modules/utils_gestion_de_insumos.py:19 | the hub centre maps to exactly two locations, `TCNO-HUB` for warehouse `HUB` and `TCNO` otherwise |
| Keys.KeyDeterminesMaterial | modules/utils_gestion_de_insumos.py:45 | for one location, equal keys mean equal materials |
| Keys.KeyDeterminesPair | modules/utils_gestion_de_insumos.py:45 | for locations of equal length, the key determines location and material |
| Keys.KeyIsAmbiguousAcrossLocations | modules/utils_gestion_de_insumos.py:45 | with no separator, `TCNO-HUB`+`1` and `TCNO`+`-HUB1` share a key |
| SapFrame.KeyOf | modules/utils_gestion_de_insumos.py:45-46 | a key exists exactly when the material is known, and it is location + material |
| SapFrame.IdColumnsHas | modules/utils_gestion_de_insumos.py:33-46 | the id generation adds location, material, key and SAP-coded key; it adds SAP id only when there was no material id, and stock only when free, quality and `general` all apply |
| SapFrame.WithIdsBySteps | modules/utils_gestion_de_insumos.py:33-46 | the column writes applied one by one, in source order, give the row-level id generation |
| SapFrame.Frame.AddIdsAndStock | modules/utils_gestion_de_insumos.py:21-48 | succeeds iff the frame has a material id or SAP code column; the new columns and rows are the id generation of the old ones; on failure only the location has been written |
| SapFrame.WithIdsColumns | modules/utils_gestion_de_insumos.py:33-46 | location id; material from the SAP code only when missing; key exists iff the material does, with the location as prefix; stock = free + quality when it applies; other fields unchanged |
| SapFrame.WithIdsIdempotent | modules/utils_gestion_de_insumos.py:80 | generating ids twice equals once, on rows and on columns |
| SapFrame.ByLocation | modules/utils_gestion_de_insumos.py:67 | one entry per distinct location in first-appearance order, holding the sums of stock and of value over that location's rows |
| SapFrame.Frame.AddValueAndSum | modules/utils_gestion_de_insumos.py:63-67 | writes value = free value + quality value exactly when both parts exist and tipo is `general`; succeeds iff stock and value columns are then present; the result is `ByLocation` of the new rows |
| SapFrame.ValueByLocation | modules/utils_gestion_de_insumos.py:50-67 | succeeds iff material, stock and value columns are present or computable; the new frame is the ids followed by the value column, or only the location when no material column exists; the result is `ByLocation` of that frame |
| SapFrame.ValuedIdsStable | app_gestion_de_insumos.py:132-136 | after the valuation, a second id generation (the one in the tier split) changes neither rows nor columns |
| SapFrame.ValueByLocationConserves | modules/utils_gestion_de_insumos.py:67 | the per-location sums add up to the frame's total stock and total value |
| SapFrame.WithValueAll | modules/utils_gestion_de_insumos.py:64-65 | value = free value + quality value on every row, exactly when both columns exist and tipo is `general` |
| Tables.GroupSum | modules/utils_gestion_de_insumos.py:83 | the loop yields each distinct key once, in order of first appearance, with the sum of the values of that key's rows |
| Tables.GroupConservation | modules/utils_gestion_de_insumos.py:83 | the group sums add up to the sum of all rows: grouping neither loses nor counts twice |
| Tables.LeftJoinKeepsLeft | modules/utils_gestion_de_insumos.py:169-170 | a left merge keeps every left row; an output row has an empty right side iff no right row matches, otherwise a matching right row |
| Tables.LeftJoinSize | modules/utils_gestion_de_insumos.py:169-170 | a left merge has one row per match of each left row, and one for a row with no match |
| Tables.LeftJoinAtMostOne | modules/utils_gestion_de_insumos.py:183-184 | when no left row has two matches, output row i is left row i with its match or nothing |
| StockTiers.GroupStock | modules/utils_gestion_de_insumos.py:83 | the method's groups equal `Grouped`: one per distinct (location, warehouse, material, key), holding the stock sum of its rows |
| StockTiers.Groupable | modules/utils_gestion_de_insumos.py:83 | only rows with a material and a key take part in the group-by |
| StockTiers.GroupedKeysDistinct | modules/utils_gestion_de_insumos.py:83 | no two groups share a (location, warehouse, material, key) |
| StockTiers.GroupedCoversRows | modules/utils_gestion_de_insumos.py:83 | every keyed row falls in a group, and each group's quantity is the sum over its rows |
| StockTiers.GroupedConservesStock | modules/utils_gestion_de_insumos.py:83 | the groups' total equals the keyed rows' total stock |
| StockTiers.GroupedQuantities | modules/utils_gestion_de_insumos.py:83 | the grouped quantity column is, key by key in order of first appearance, the sum of that key's stock |
| StockTiers.TierRows | modules/utils_gestion_de_insumos.py:85-95 | a tier table holds exactly the groups whose warehouse code maps to that tier |
| StockTiers.SplitByWarehouse | modules/utils_gestion_de_insumos.py:91-95 | `PI01` goes to production, `''` to transit, `L003` to hub, and every other code to general, as iff's |
| StockTiers.InTierRows | modules/utils_gestion_de_insumos.py:85-88 | a group is in a tier table iff its warehouse code maps to that tier |
| StockTiers.SplitPartitions | modules/utils_gestion_de_insumos.py:91-97 | the four tier tables' sizes add up to the number of groups, and their quantities to the grouped total |
| StockTiers.SplitStep | modules/utils_gestion_de_insumos.py:91-97 | splitting one more group adds exactly one row, and its quantity, across the four tier tables |
| StockTiers.SplitMb52 | modules/utils_gestion_de_insumos.py:69-97 | succeeds iff a material column and the stock exist or can be computed; the frame's new state is its id generation; the result is the split of the grouped frame |
| BaseTable.IdealTarget | app_gestion_de_insumos.py:177-179 | any missing input makes the target NaN |
| BaseTable.IdealTargetFinite | app_gestion_de_insumos.py:177-179 | on present values with non-zero yield, the target is ratio × discharge / yield × ideal days |
| BaseTable.IdealTargetUnguarded | app_gestion_de_insumos.py:177-179 | a zero yield gives +infinity, or NaN when the numerator is also 0 |
| BaseTable.Base | app_gestion_de_insumos.py:156-179 | the base table has one row per row of the two chained left merges |
| BaseTable.BaseKeepsCatalog | app_gestion_de_insumos.py:162-174 | every catalog row survives both merges |
| BaseTable.BaseRowsMatch | app_gestion_de_insumos.py:157-179 | each base row: its catalog row; a ratio iff one with its `id_mix` exists (and it matches); a capacity iff one for its location exists; the target of the two |
| BaseTable.BaseOneRowPerItem | app_gestion_de_insumos.py:162-174 | with unique ratio and capacity keys, the base table is the catalog, row for row |
| Consumption.Totals | app_gestion_de_insumos.py:182 | one total per distinct (location, material) of the ledger |
| Consumption.TotalConsumption | app_gestion_de_insumos.py:182 | succeeds iff location, material and quantity columns exist; the result is `Totals` |
| Consumption.NetAtMostGross | app_gestion_de_insumos.py:182 | the absolute net sum is at most the gross absolute sum |
| Consumption.WithdrawalsOnlyNetIsGross | app_gestion_de_insumos.py:182 | when all movements are withdrawals, net equals gross |
| Consumption.TotalsAreNetPerKey | app_gestion_de_insumos.py:182 | each total is \|Σ signed quantity\| of its key: non-negative and at most the gross |
| Consumption.TotalsCoverLedger | app_gestion_de_insumos.py:182 | every ledger row with a material is counted in some total |
| Consumption.ReturnCancelsWithdrawal | app_gestion_de_insumos.py:182 | -5 and +5 give a total of 0, whereas the sum of absolute values would be 10 |
| Consumption.DaysTable | modules/utils_gestion_de_insumos.py:270-272 | one row per plant of the report, holding its count of distinct (plant, date) records |
| Consumption.DaysPlantsDistinct | modules/utils_gestion_de_insumos.py:271-272 | each plant is listed at most once |
| Consumption.PlantListed | modules/utils_gestion_de_insumos.py:270-272 | every plant of the report is listed |
| Consumption.ListedPlantReported | modules/utils_gestion_de_insumos.py:270-272 | every listed plant comes from the report |
| Consumption.DaysAreDistinctDates | modules/utils_gestion_de_insumos.py:270-272 | a plant's count is the number of its pairwise-different dates, and it is ≥ 1 |
| Consumption.DaysCoverDates | modules/utils_gestion_de_insumos.py:270 | every reported date of a plant is among its counted dates |
| Consumption.CountedDatesReported | modules/utils_gestion_de_insumos.py:270 | every counted date was reported for that plant |
| Consumption.Rates | app_gestion_de_insumos.py:188-195 | one consumption row per row of the left merge with the days table |
| Consumption.DaysMatch | app_gestion_de_insumos.py:188-193 | a location has at most one days row, which exists iff the plant has events, and then has ≥ 1 day |
| Consumption.RateAtMostTotal | app_gestion_de_insumos.py:194 | dividing a non-negative total by ≥ 1 day never exceeds it |
| Consumption.RatesKeepTotals | app_gestion_de_insumos.py:188-195 | every consumption row survives the day merge, in order; an unlisted location's rate is the total; a listed one's rate is total / days ≤ total; key = location + material |
| Consumption.RateRow | app_gestion_de_insumos.py:188-195 | the per-row form of `RatesKeepTotals` |
| Consumption.PrincipalData | app_gestion_de_insumos.py:148-197 | succeeds iff the ledger has its columns and the report is present and non-empty (a failed fishing query makes the day merge raise; an empty report has no `FCSAZ` column, so reading it raises `KeyError`); base, consumption, report and days are the functions above |
| Coverage.Set | modules/utils_gestion_de_insumos.py:122-132 | writing one tier's coverage column leaves the other tiers' columns unchanged |
| Coverage.ColumnOrder | modules/utils_gestion_de_insumos.py:119 | in string order the column names sort as general < hub < produccion < transito |
| Coverage.CumulativeByColumnName | modules/utils_gestion_de_insumos.py:114-119 | the cumulative stock is the sum of the stock columns whose name is ≤ the tier's column name |
| Coverage.CumulativeByName | modules/utils_gestion_de_insumos.py:113-119 | general = g; hub = g+h; produccion = g+h+p; transito = all four |
| Coverage.TransitIncludesProduction | modules/utils_gestion_de_insumos.py:119 | production 100 and general 50 give a transit cumulative of 150 |
| Coverage.Real | modules/utils_gestion_de_insumos.py:128-136 | real coverage is never ±infinity after the replacement |
| Coverage.CalcularCobertura | modules/utils_gestion_de_insumos.py:99-138 | the tier loop in order general, hub, transito, produccion produces, for every row, the target, theoretical and real coverage of every tier |
| Coverage.CoverageOrderCovers | modules/utils_gestion_de_insumos.py:113 | the tier loop visits every tier |
| Coverage.ZeroRatioZeroCoverage | modules/utils_gestion_de_insumos.py:122-132 | a zero ratio gives 0 theoretical and 0 real coverage for every tier |
| Coverage.TheoreticalGuard | modules/utils_gestion_de_insumos.py:122-126 | cumulative × ideal days / target, with a zero target counted as 1 |
| Coverage.RealCoverageCases | modules/utils_gestion_de_insumos.py:128-136 | cumulative / consumption; x/0 gives 0 after the replacement; 0/0 stays NaN; missing consumption gives NaN |
| Coverage.RecomputedTarget | modules/utils_gestion_de_insumos.py:110 | the recomputed target equals the base target when ratio and capacity were found, and is NaN on filled-zero capacity |
| Reconcile.SetSlot | modules/utils_gestion_de_insumos.py:170 | a merge sets one tier column and leaves the other three unchanged |
| Reconcile.MergeStocks | modules/utils_gestion_de_insumos.py:159-170 | the merge loop's result equals the four merges applied in order production, transit, hub, general |
| Reconcile.MergeTierSize | modules/utils_gestion_de_insumos.py:170 | a row matching n groups comes out n times, an unmatched row once; no row is dropped |
| Reconcile.MergeTierKeepsRow | modules/utils_gestion_de_insumos.py:170 | every input row survives with its base row and key |
| Reconcile.MergeTierRow | modules/utils_gestion_de_insumos.py:170 | an output row is an input row with only its tier column set: empty iff no group has its key, otherwise a matching group's quantity |
| Reconcile.MergeTierOneToOne | modules/utils_gestion_de_insumos.py:170 | with one group per key, the merge is one to one |
| Reconcile.GeneralTierRepeatsRow | modules/utils_gestion_de_insumos.py:169-176 | two general warehouses repeat a row carrying production 100, so the totals sum to 230 instead of 130 |
| Reconcile.TwoMatchJoin | modules/utils_gestion_de_insumos.py:169-176 | a row whose key is carried by two groups comes out of a left merge twice, once with each group |
| Reconcile.MergedRowAt | modules/utils_gestion_de_insumos.py:169-170 | after k merges, each row is a base row with its key; merged tiers are set as in `MergeTierRow`, unmerged tiers are empty |
| Reconcile.MergedKeepsBase | modules/utils_gestion_de_insumos.py:169-170 | no base row is lost by the four merges |
| Reconcile.MergedRowsFact | modules/utils_gestion_de_insumos.py:169-170 | the row shape of `MergedRowAt` holds for every row after each of the k merges |
| Reconcile.MergeKeepsRowsFact | modules/utils_gestion_de_insumos.py:169-170 | one more tier merge keeps the row shape of `MergedRowAt`, with the new tier filled |
| Reconcile.MergedKeepsAll | modules/utils_gestion_de_insumos.py:169-170 | after k merges every base row still has a row built on it |
| Reconcile.MergeKeepsBase | modules/utils_gestion_de_insumos.py:169-170 | one tier merge keeps a row for every base row that had one before |
| Reconcile.Details | modules/utils_gestion_de_insumos.py:173-180 | every row is filled |
| Reconcile.SurplusShortage | modules/utils_gestion_de_insumos.py:179-180 | both values are ≥ 0 and at most one is positive; surplus − shortage = total − target on a finite target; an infinite target leaves one of them infinite |
| Reconcile.FilledRow | modules/utils_gestion_de_insumos.py:173-180 | tier columns hold the merged quantity or 0, the total is their sum, the target is never NaN, and surplus/shortage are as above |
| Reconcile.Report | modules/utils_gestion_de_insumos.py:183-187 | one report row per row of the consumption left merge |
| Reconcile.ProcessDetail | modules/utils_gestion_de_insumos.py:158-187 | the merges, fill, totals, consumption merge and coverage produce `Report` |
| Reconcile.ReportKeepsBase | modules/utils_gestion_de_insumos.py:169-184 | every base row appears in the report |
| Reconcile.ReportRowStocks | modules/utils_gestion_de_insumos.py:169-176 | each report row's tier stock is 0 when no group matches, otherwise a matching group's quantity; the total is their sum |
| Reconcile.ReportRowConsumption | modules/utils_gestion_de_insumos.py:183-187 | the coverage is computed from the row; with no rate key, consumption, quantity and days are NaN, otherwise they come from a matching rate row |
| MaterialView.View | modules/utils_gestion_de_insumos.py:213-217 | one row per distinct material, each the roll-up of its material |
| MaterialView.BuildView | modules/utils_gestion_de_insumos.py:189-217 | the group-by, then `calcular_cobertura`, produces `View` |
| MaterialView.RowsAreView | modules/utils_gestion_de_insumos.py:189-217 | pairing each aggregated row with the coverage recomputed from it gives `View` |
| MaterialView.ProcessData | modules/utils_gestion_de_insumos.py:140-219 | returns the report and its view |
| MaterialView.ViewOneRowPerMaterial | modules/utils_gestion_de_insumos.py:213 | materials are distinct, each comes from the report, and every report row has its material's row |
| MaterialView.SumsConserved | modules/utils_gestion_de_insumos.py:190-203 | per-material sums add up to the column total |
| MaterialView.ViewConservesTotal | modules/utils_gestion_de_insumos.py:190-213 | the view's total stock equals the report's |
| MaterialView.ViewConservesTier | modules/utils_gestion_de_insumos.py:190-213 | the view's stock of each tier equals the report's |
| MaterialView.MeanOfEqualRows | modules/utils_gestion_de_insumos.py:199-204 | the mean of equal values is that value |
| MaterialView.ViewTargetOfEqualRows | modules/utils_gestion_de_insumos.py:199-217 | the view target comes from means and overwrites the summed target: equal inputs give each row's own target, whatever the number of locations |
| MaterialView.SingleRowMaterial | modules/utils_gestion_de_insumos.py:190-217 | a material with one row rolls up to that row's values, with the same coverage when consumption is known |
| MaterialView.SumSkipSingle | modules/utils_gestion_de_insumos.py:203 | a NaN-skipping sum over one row is that row's value, or 0 when it is NaN |
| Preprocess.Mapping | app_gestion_de_insumos.py:119 | distinct (SAP code, material) pairs, exactly those of the catalog |
| Preprocess.MapMaterials | app_gestion_de_insumos.py:123-129 | with a SAP code column: merge, and add the material column; without one: no change |
| Preprocess.MapExtracts | app_gestion_de_insumos.py:122-129 | the loop maps both the ledger and the snapshot |
| Preprocess.MappedRows | app_gestion_de_insumos.py:124-129 | no row is dropped and a code with n pairs repeats its row n times; only the material changes, and it is paired with the SAP code, or absent iff the code has no pair |
| Preprocess.MappedOneToOne | app_gestion_de_insumos.py:124-129 | with one pair per SAP code, the merge is one to one and in order |
| Preprocess.UnmappedRowHasNoGroup | app_gestion_de_insumos.py:124-136 | a SAP code absent from the catalog leaves no key, so no group takes its row |
| Preprocess.MappedColumnsKeep | app_gestion_de_insumos.py:123-129 | the mapping adds only the material column |
| Preprocess.Preprocess | app_gestion_de_insumos.py:107-143 | succeeds exactly when no column the source reads is missing; states the new rows and columns of both frames, the per-location valuation, and the tiers of the snapshot |
| Legacy.LegacyWithIdsAll | funciones.py:11-20 | every row gets the location, material = SAP code, key, and stock where it applies |
| Legacy.LegacyAddIdsAndStock | funciones.py:11-20 | succeeds iff there is a SAP code column; the new state is `LegacyWithIdsAll`; on failure only the location has been written |
| Legacy.LegacyAgreesOnUnmappedFrames | funciones.py:13-19 | agrees with the current revision except for SAP id and SAP-coded key; on mapped frames it overwrites a different mapped material |
| Legacy.LegacySplitMb52 | funciones.py:31-48 | succeeds iff the SAP code column and stock exist or can be computed; the result is the split of the grouped frame |
| Legacy.LegacySplitConservesStock | funciones.py:33-48 | every row has a key, so the four tiers hold the whole snapshot's stock |
| Legacy.LegacyValueByLocation | funciones.py:22-29 | succeeds iff material, stock and value exist or can be computed; the new frame is the earlier ids followed by the value column, or only the location when the SAP code is missing; the result is `ByLocation` of that frame |
| Legacy.SplitByType | funciones.py:50-52 | the first part is the `V` lines of the input, the second the rest; every line lands in its part |
| Legacy.SplitByTypePartition | funciones.py:50-52 | the two parts' multisets add up to the input's, so they are disjoint and cover it |
| Legacy.LegacyProcessData | funciones.py:81-112 | the report left-merged with the catalog on the material id |
| Legacy.LegacyReportRows | funciones.py:111-112 | the size is `Copies` ≥ the report; every row comes from the report; a descriptor is a catalog row of the row's material, absent iff none exists |
| Legacy.LegacyReportOneRowPerMaterial | funciones.py:111-112 | only a catalog listing each material once keeps the report row for row |

## Left out

- **Network, UI, storage and forecasting.**
  - The HTTP call of `consultar_pesca` is left out. The fishing report is a parameter, and `None` stands for a failed request. An empty report fails as reading its date column does (modules/utils_gestion_de_insumos.py:266-267).
  - Also left out: the API module, the Prophet forecast, Excel writing, SharePoint upload, the Streamlit UI, parallel loading, timestamps, season tags and the tolerance slider. None of them feeds the computation.
- **Floating-point rounding.** Quantities are exact reals. Only infinities and NaN are modelled, and signed zero is not.
- **Display formatting.** The `astype(str)` rendering of missing or numeric ids (`'nan'`, `'123.0'`) is not modelled. Ids are strings and a missing material id is `None`.
- **Row order in group-bys.** pandas sorts group-by and `value_counts` results. The model keeps first-appearance order, so only the set of rows and their values match.
- **Merge suffixes.** Columns that pandas renames `_x`/`_y` on a clash (for example the catalog columns in the earlier revision's final merge) are kept as separate fields.
- **Pre-existing material id column.** The mapping merge is modelled only on extracts without an `id_insumo` column, which is the case for the SAP exports.
- **`descripcion`.** The view's `first` aggregate of `descripcion` is left out, because the base table never has that column.
- **`df_insumos` is unused.** `procesar_datos` in the current revision ignores its `df_insumos` argument, so the model has no such parameter there.
- **Descriptor columns after `fillna(0)`.** `fillna(0)` also fills missing `familia`/`familia_2` with 0. The model keeps them as absent descriptors.
- **Dictionary rebinding.** `preprocesar_datos` rebinds the `dfs` entries to new merged frames. The model updates the two frame objects in place, which is the same thing, because nothing else holds the old frames.
- **Forgiving column choice.** The purchase-order split takes the item type as a function parameter. A missing type column (a `KeyError`) is not modelled.
