/** Rows of the reference catalogs read from the datasets workbook. */
module Catalog {

  /** A row of the material catalog (sheet db_insumos): one material at one
      location, with its SAP code and descriptors. */
  datatype Item = Item(
    idLocalidad: string, idInsumo: string, idSap: string,
    nombre: string, idFinal: string, valorRedondeo: real)

  /** A row of the nominal-ratio catalog (sheet db_ratios_planta_insumo). */
  datatype Ratio = Ratio(
    idLocalidad: string, idInsumo: string, ratioNominal: real,
    familia: string, familia2: string)

  /** A row of the installed-capacity catalog (sheet db_capacidad_instalada). */
  datatype Capacity = Capacity(
    idLocalidad: string, cip: real, rendimiento: real, coberturaIdeal: real,
    maximaDescarga: real, coberturaMeta: real)
}
