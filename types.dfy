/**
 * The records shared by the extraction engine, the application state and the
 * configuration panel, with the default configuration the application ships.
 */
module Types {

  datatype Option<+T> = None | Some(value: T)

  /** A cell value as the spreadsheet library hands it over, or a formatted value. */
  datatype Value = Null | Number(n: real) | Text(s: string) | Boolean(b: bool)

  /** One row of the configuration table: where to read, for which registers, how to format, where to put it. */
  datatype FieldMapping = FieldMapping(
    id: string,
    fieldName: string,
    sourceCell: string,
    minReg: int,
    maxReg: int,
    format: string,
    colIndex: int)

  datatype GlobalConfig = GlobalConfig(
    filePattern: string,
    sheetName: string,
    idCell: string,
    prefix: string)

  datatype ConfigProfile = ConfigProfile(
    id: string,
    name: string,
    config: GlobalConfig,
    mappings: seq<FieldMapping>)

  /**
   * The dictionary built for one file. The source keeps both kinds of entry in
   * one object: `values` holds the keys `<colIndex>`, `names` the keys
   * `__name_<colIndex>`.
   */
  datatype RowData = RowData(values: map<int, Value>, names: map<int, string>)

  datatype ProcessedRow = ProcessedRow(fileName: string, regId: nat, order: nat, data: RowData)

  datatype ExcelError = ExcelError(fileName: string, error: string)

  datatype UserPlan = Free | Pro | Enterprise

  datatype PlanLimits = PlanLimits(maxFilesPerBatch: nat, allowAI: bool, maxProfiles: nat)

  const DEFAULT_CONFIG := GlobalConfig("*Densidade real MGR*.xlsx", "DENS.REAL", "J7", "MGR-")

  const DEFAULT_MAPPINGS: seq<FieldMapping> := [
    FieldMapping("1", "DATA", "B7", 1, 9999, "dd/mm/yyyy", 2),
    FieldMapping("2", "HORA", "L8", 1, 9999, "hh:mm", 3),
    FieldMapping("3", "REGISTRO", "J7", 1, 9999, "@", 4),
    FieldMapping("4", "MATERIAL", "G5", 1, 9999, "@", 5),
    FieldMapping("5", "LOCAL", "B36", 38, 9999, "@", 6),
    FieldMapping("6", "MASSA ESP.", "E32", 1, 181, "0.000", 7)
  ]
}
