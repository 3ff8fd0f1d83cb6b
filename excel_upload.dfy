/**
 * The Excel upload: the column-name aliases of each project field, the
 * case- and space-insensitive header search over the first data row, the
 * date conversion, the "some field has data" check, and the file-name check
 * before a file is read. The workbook reader and the date functions are
 * parameters.
 */
module ExcelUpload {
  import opened JsValues
  import JsStrings
  import Seqs

  /** A cell value as `sheet_to_json` returns it, plus the `Date` the conversion produces. */
  datatype Cell = Undefined | Null | Text(s: string) | Number(n: int) | Boolean(b: bool) | DateValue(time: int)

  /** A row object: its keys in `Object.keys` order, with their values. */
  type Row = seq<(string, Cell)>

  /** The project fields that have a column mapping. */
  const FieldNames: seq<string> := ["ProjectCode", "Title", "Customer", "ProjectManager", "Status", "StartDate", "EndDate", "Notes"]

  /** `columnMappings[fieldName] || []`: the headers accepted for a field, in the order they are tried. */
  function Aliases(fieldName: string): (names: seq<string>)
    ensures fieldName !in FieldNames ==> names == []
  {
    match fieldName
    case "ProjectCode" => ["PROJECT CODE", "PROJECT_CODE", "Project Code", "ProjectCode", "Codice Progetto"]
    case "Title" => ["TITLE", "TITLE", "Project Title", "Titolo", "Title"]
    case "Customer" => ["CUSTOMER", "CUSTOMER", "Customer Name", "Cliente", "Customer"]
    case "ProjectManager" => [
      "PROJECT MANAGER", "PROJECT_MANAGER", "Project Manager", "Responsabile", "Manager",
      "Project Manager Email", "ProjectManagerEmail", "Manager Email", "Responsabile Email",
      "Email Project Manager", "Email Responsabile"]
    case "Status" => ["STATUS", "STATUS", "Stato", "Status"]
    case "StartDate" => ["START DATE", "START_DATE", "Data Inizio", "StartDate"]
    case "EndDate" => ["END DATE", "END_DATE", "Data Fine", "EndDate"]
    case "Notes" => ["NOTES", "NOTES", "Note", "Notes"]
    case _ => []
  }

  /** `k.toLowerCase().trim() === colName.toLowerCase().trim()`. */
  predicate KeyMatches(key: string, colName: string) {
    JsStrings.Normalize(key) == JsStrings.Normalize(colName)
  }

  /** The test `find` applies to each key of the row. */
  function HeaderTest(colName: string): ((string, Cell)) -> bool {
    (entry: (string, Cell)) => KeyMatches(entry.0, colName)
  }

  /** `Object.keys(row).find(...)`, as the key's position, or -1 when no key matches. */
  function KeyIndex(row: Row, colName: string): int {
    Seqs.FindFrom(row, HeaderTest(colName), 0)
  }

  /** A header matches an alias exactly when the two agree once lower-cased and trimmed; the first such header is used. */
  lemma KeyIndexSpec(row: Row, colName: string)
    ensures KeyIndex(row, colName) == -1 || 0 <= KeyIndex(row, colName) < |row|
    ensures KeyIndex(row, colName) >= 0 ==>
      KeyMatches(row[KeyIndex(row, colName)].0, colName)
      && forall m :: 0 <= m < KeyIndex(row, colName) ==> !KeyMatches(row[m].0, colName)
    ensures KeyIndex(row, colName) == -1 <==> forall m :: 0 <= m < |row| ==> !KeyMatches(row[m].0, colName)
  {
    Seqs.FindFromSpec(row, HeaderTest(colName), 0);
  }

  /** `!== undefined && !== null && !== ''`. */
  predicate Filled(c: Cell) {
    c != Undefined && c != Null && c != Text("")
  }

  /** The alias names a header whose value is filled. */
  predicate FilledAt(row: Row, colName: string) {
    0 <= KeyIndex(row, colName) < |row| && Filled(row[KeyIndex(row, colName)].1)
  }

  /** The test applied to each alias in turn. */
  function AliasTest(row: Row): string -> bool {
    (colName: string) => FilledAt(row, colName)
  }

  /** The value of the first alias, in order, whose header holds a filled value. */
  function FirstFilled(row: Row, names: seq<string>): Option<Cell> {
    var j := Seqs.FindFrom(names, AliasTest(row), 0);
    if 0 <= j < |names| && FilledAt(row, names[j]) then Some(row[KeyIndex(row, names[j])].1) else None
  }

  /** What `findColumnValue` returns for a field. */
  function ColumnValue(row: Row, fieldName: string): Option<Cell> {
    FirstFilled(row, Aliases(fieldName))
  }

  /**
   * Aliases are tried in order, a header holding `undefined`, `null` or `''`
   * is passed over, and the value returned is the first filled one; with
   * none, the result is `undefined`.
   */
  lemma FirstFilledSpec(row: Row, names: seq<string>)
    ensures FirstFilled(row, names).None? <==> forall j :: 0 <= j < |names| ==> !FilledAt(row, names[j])
    ensures FirstFilled(row, names).Some? ==> Filled(FirstFilled(row, names).value)
    ensures FirstFilled(row, names).Some? ==>
      exists j :: 0 <= j < |names| && FilledAt(row, names[j])
        && FirstFilled(row, names).value == row[KeyIndex(row, names[j])].1
        && forall j' :: 0 <= j' < j ==> !FilledAt(row, names[j'])
  {
    Seqs.FindFromSpec(names, AliasTest(row), 0);
  }

  /** A field without a mapping entry never has a value. */
  lemma UnmappedFieldHasNoValue(row: Row, fieldName: string)
    requires fieldName !in FieldNames
    ensures ColumnValue(row, fieldName).None?
  {
  }

  /** `Object.keys(row).find(...)`: the position of the first key matching `colName`, or -1. */
  method FindKey(row: Row, colName: string) returns (key: int)
    ensures key == KeyIndex(row, colName)
    ensures key == -1 || 0 <= key < |row|
  {
    KeyIndexSpec(row, colName);
    key := -1;
    var k := 0;
    while k < |row| && key == -1
      invariant 0 <= k <= |row|
      invariant key == -1 ==> Seqs.FindFrom(row, HeaderTest(colName), k) == KeyIndex(row, colName)
      invariant key != -1 ==> key == KeyIndex(row, colName)
      decreases |row| - k
    {
      if KeyMatches(row[k].0, colName) {
        key := k;
      }
      k := k + 1;
    }
  }

  /** The alias loop of `findColumnValue`: the value of the first alias whose header is filled. */
  method FirstFilledValue(row: Row, possibleNames: seq<string>) returns (v: Option<Cell>)
    ensures v == FirstFilled(row, possibleNames)
  {
    var j := 0;
    while j < |possibleNames|
      invariant 0 <= j <= |possibleNames|
      invariant Seqs.FindFrom(possibleNames, AliasTest(row), j) == Seqs.FindFrom(possibleNames, AliasTest(row), 0)
      decreases |possibleNames| - j
    {
      var colName := possibleNames[j];
      var key := FindKey(row, colName);
      AliasStep(row, possibleNames, j, key);
      if key != -1 && Filled(row[key].1) {
        return Some(row[key].1);
      }
      j := j + 1;
    }
    assert Seqs.FindFrom(possibleNames, AliasTest(row), j) == -1;
    return None;
  }

  /** One alias of the loop: its header found at `key` decides whether the search stops there. */
  lemma AliasStep(row: Row, names: seq<string>, j: nat, key: int)
    requires j < |names| && key == KeyIndex(row, names[j]) && (key == -1 || 0 <= key < |row|)
    ensures key != -1 && Filled(row[key].1) ==>
      Seqs.FindFrom(names, AliasTest(row), j) == j && FirstFilled(row, names[j..]) == Some(row[key].1)
    ensures !(key != -1 && Filled(row[key].1)) ==>
      Seqs.FindFrom(names, AliasTest(row), j) == Seqs.FindFrom(names, AliasTest(row), j + 1)
  {
    assert AliasTest(row)(names[j]) <==> key != -1 && Filled(row[key].1);
  }

  /** `findColumnValue`: the field's aliases, tried in order. */
  method FindColumnValue(row: Row, fieldName: string) returns (v: Option<Cell>)
    ensures v == ColumnValue(row, fieldName)
  {
    var possibleNames := Aliases(fieldName);
    v := FirstFilledValue(row, possibleNames);
  }

  /** The values read from the first data row, before and after the date conversion. */
  datatype ExcelData = ExcelData(
    ProjectCode: Option<Cell>,
    Title: Option<Cell>,
    Customer: Option<Cell>,
    ProjectManager: Option<Cell>,
    Status: Option<Cell>,
    StartDate: Option<Cell>,
    EndDate: Option<Cell>,
    Notes: Option<Cell>)

  /** Every mapped field looked up in the row. */
  function Extract(row: Row): ExcelData {
    ExcelData(
      ColumnValue(row, "ProjectCode"), ColumnValue(row, "Title"), ColumnValue(row, "Customer"),
      ColumnValue(row, "ProjectManager"), ColumnValue(row, "Status"), ColumnValue(row, "StartDate"),
      ColumnValue(row, "EndDate"), ColumnValue(row, "Notes"))
  }

  /** JavaScript truthiness of a cell. */
  predicate CellTruthy(c: Cell) {
    match c
    case Undefined => false
    case Null => false
    case Text(s) => s != ""
    case Number(n) => n != 0
    case Boolean(b) => b
    case DateValue(_) => true
  }

  /**
   * A truthy date cell becomes a `Date`: a serial number through the
   * spreadsheet date code, a string when it parses; anything else is kept.
   */
  function ConvertDate(v: Option<Cell>, serialToDate: int -> int, parseDate: string -> Option<int>): (r: Option<Cell>)
    ensures r.Some? <==> v.Some?
    ensures v.Some? && v.value.Number? && v.value.n != 0 ==> r == Some(DateValue(serialToDate(v.value.n)))
    ensures v.Some? && v.value.Text? && v.value.s != "" && parseDate(v.value.s).Some? ==>
      r == Some(DateValue(parseDate(v.value.s).value))
    ensures v.Some? && !(v.value.Number? || v.value.Text?) ==> r == v
    ensures v.Some? && v.value.Text? && parseDate(v.value.s).None? ==> r == v
  {
    if v.Some? && CellTruthy(v.value) then
      match v.value
      case Number(n) => Some(DateValue(serialToDate(n)))
      case Text(s) => if parseDate(s).Some? then Some(DateValue(parseDate(s).value)) else v
      case _ => v
    else v
  }

  /** The record handed to `onDataExtracted`: the row's values with both dates converted. */
  function Prepare(row: Row, serialToDate: int -> int, parseDate: string -> Option<int>): ExcelData {
    var d := Extract(row);
    d.(StartDate := ConvertDate(d.StartDate, serialToDate, parseDate), EndDate := ConvertDate(d.EndDate, serialToDate, parseDate))
  }

  /** `v !== undefined && v !== ''`. */
  predicate HasValue(v: Option<Cell>) {
    v.Some? && v.value != Undefined && v.value != Text("")
  }

  /** `Object.values(extractedData).some(...)`. */
  predicate HasData(d: ExcelData) {
    HasValue(d.ProjectCode) || HasValue(d.Title) || HasValue(d.Customer) || HasValue(d.ProjectManager)
    || HasValue(d.Status) || HasValue(d.StartDate) || HasValue(d.EndDate) || HasValue(d.Notes)
  }

  /** A looked-up value that is present is filled, so it counts as data, before and after the date conversion. */
  lemma PresentIsData(row: Row, fieldName: string, serialToDate: int -> int, parseDate: string -> Option<int>)
    ensures HasValue(ColumnValue(row, fieldName)) <==> ColumnValue(row, fieldName).Some?
    ensures HasValue(ConvertDate(ColumnValue(row, fieldName), serialToDate, parseDate)) <==> ColumnValue(row, fieldName).Some?
  {
    FirstFilledSpec(row, Aliases(fieldName));
  }

  /** Some mapped field was found in the row. */
  predicate AnyPresent(d: ExcelData) {
    d.ProjectCode.Some? || d.Title.Some? || d.Customer.Some? || d.ProjectManager.Some?
    || d.Status.Some? || d.StartDate.Some? || d.EndDate.Some? || d.Notes.Some?
  }

  /** The prepared record has data exactly when some mapped field has a filled header. */
  lemma HasDataIff(row: Row, serialToDate: int -> int, parseDate: string -> Option<int>)
    ensures HasData(Prepare(row, serialToDate, parseDate)) <==> AnyPresent(Extract(row))
  {
    PresentIsData(row, "ProjectCode", serialToDate, parseDate);
    PresentIsData(row, "Title", serialToDate, parseDate);
    PresentIsData(row, "Customer", serialToDate, parseDate);
    PresentIsData(row, "ProjectManager", serialToDate, parseDate);
    PresentIsData(row, "Status", serialToDate, parseDate);
    PresentIsData(row, "StartDate", serialToDate, parseDate);
    PresentIsData(row, "EndDate", serialToDate, parseDate);
    PresentIsData(row, "Notes", serialToDate, parseDate);
  }

  const EmptySheetMessage: string := "The Excel file is empty or does not contain valid data"
  const NoDataMessage: string := "No valid data found in the Excel file. Check the column names."
  const ReadErrorMessage: string := "Error reading the Excel file"
  const UnsupportedMessage: string := "Unsupported file format. Use .xlsx or .xls files"

  /** What reading the workbook gives: the first sheet's rows, or an error with its message. */
  datatype SheetRead = Rows(rows: seq<Row>) | ReadError(message: string)

  /** How parsing a file ends. */
  datatype Outcome = Extracted(data: ExcelData) | Failed(message: string)

  /** `parseExcelFile`'s outcome: only the first data row is read, and it must hold some data. */
  function ParseOutcome(read: SheetRead, serialToDate: int -> int, parseDate: string -> Option<int>): Outcome {
    match read
    case ReadError(message) => Failed(if message != "" then message else ReadErrorMessage)
    case Rows(rows) =>
      if rows == [] then Failed(EmptySheetMessage)
      else
        var d := Prepare(rows[0], serialToDate, parseDate);
        if HasData(d) then Extracted(d) else Failed(NoDataMessage)
  }

  /** An empty sheet, and a first row with no mapped header filled, both fail; otherwise the first row is what is extracted. */
  lemma ParseOutcomeSpec(read: SheetRead, serialToDate: int -> int, parseDate: string -> Option<int>)
    ensures read == Rows([]) ==> ParseOutcome(read, serialToDate, parseDate) == Failed(EmptySheetMessage)
    ensures read.Rows? && read.rows != [] ==>
      (ParseOutcome(read, serialToDate, parseDate).Failed? <==> !AnyPresent(Extract(read.rows[0])))
    ensures ParseOutcome(read, serialToDate, parseDate).Extracted? ==>
      read.Rows? && ParseOutcome(read, serialToDate, parseDate).data == Prepare(read.rows[0], serialToDate, parseDate)
  {
    if read.Rows? && read.rows != [] {
      HasDataIff(read.rows[0], serialToDate, parseDate);
    }
  }

  /** `fileName.endsWith('.xlsx') || fileName.endsWith('.xls')` on the lower-cased name. */
  predicate AcceptedName(name: string) {
    var lower := JsStrings.ToLower(name);
    JsStrings.EndsWith(lower, ".xlsx") || JsStrings.EndsWith(lower, ".xls")
  }

  /** The check ignores letter case. */
  lemma AcceptedNameIgnoresCase(name: string)
    ensures AcceptedName(name) <==> AcceptedName(JsStrings.ToLower(name))
  {
    JsStrings.ToLowerIdempotent(name);
  }

  /** A chosen file: its name, and what reading it would give. */
  datatype ChosenFile = ChosenFile(name: string, read: SheetRead)

  /** The component's `loading`/`error`/`success` state, and the records it has handed to `onDataExtracted`. */
  class UploadState {
    var loading: bool
    var error: Option<string>
    var success: bool
    var delivered: seq<ExcelData>

    constructor()
      ensures !loading && error.None? && !success && delivered == []
    {
      loading := false;
      error := None;
      success := false;
      delivered := [];
    }

    /** `parseExcelFile`: on success the record is handed on once and `success` set; on failure the message is shown. */
    method ParseExcelFile(read: SheetRead, serialToDate: int -> int, parseDate: string -> Option<int>)
      modifies this
      ensures !loading
      ensures ParseOutcome(read, serialToDate, parseDate).Extracted? ==>
        delivered == old(delivered) + [ParseOutcome(read, serialToDate, parseDate).data] && success && error.None?
      ensures ParseOutcome(read, serialToDate, parseDate).Failed? ==>
        delivered == old(delivered) && !success && error == Some(ParseOutcome(read, serialToDate, parseDate).message)
    {
      loading := true;
      error := None;
      success := false;
      if read.ReadError? {
        error := Some(if read.message != "" then read.message else ReadErrorMessage);
        loading := false;
        return;
      }
      var rows := read.rows;
      if |rows| == 0 {
        error := Some(EmptySheetMessage);
        loading := false;
        return;
      }
      var firstRow := rows[0];
      var projectCode := FindColumnValue(firstRow, "ProjectCode");
      var title := FindColumnValue(firstRow, "Title");
      var customer := FindColumnValue(firstRow, "Customer");
      var projectManager := FindColumnValue(firstRow, "ProjectManager");
      var status := FindColumnValue(firstRow, "Status");
      var startDate := FindColumnValue(firstRow, "StartDate");
      var endDate := FindColumnValue(firstRow, "EndDate");
      var notes := FindColumnValue(firstRow, "Notes");
      var extracted := ExcelData(projectCode, title, customer, projectManager, status, startDate, endDate, notes);
      assert extracted == Extract(firstRow);
      if extracted.StartDate.Some? && CellTruthy(extracted.StartDate.value) {
        var dateValue := extracted.StartDate.value;
        if dateValue.Number? {
          extracted := extracted.(StartDate := Some(DateValue(serialToDate(dateValue.n))));
        } else if dateValue.Text? && parseDate(dateValue.s).Some? {
          extracted := extracted.(StartDate := Some(DateValue(parseDate(dateValue.s).value)));
        }
      }
      if extracted.EndDate.Some? && CellTruthy(extracted.EndDate.value) {
        var dateValue := extracted.EndDate.value;
        if dateValue.Number? {
          extracted := extracted.(EndDate := Some(DateValue(serialToDate(dateValue.n))));
        } else if dateValue.Text? && parseDate(dateValue.s).Some? {
          extracted := extracted.(EndDate := Some(DateValue(parseDate(dateValue.s).value)));
        }
      }
      assert extracted == Prepare(firstRow, serialToDate, parseDate);
      if !HasData(extracted) {
        error := Some(NoDataMessage);
        loading := false;
        return;
      }
      delivered := delivered + [extracted];
      success := true;
      loading := false;
    }

    /** `handleFileChange`: no file does nothing; a name that is not `.xlsx`/`.xls` sets the error and reads nothing. */
    method HandleFileChange(file: Option<ChosenFile>, serialToDate: int -> int, parseDate: string -> Option<int>)
      modifies this
      ensures file.None? ==> loading == old(loading) && error == old(error) && success == old(success) && delivered == old(delivered)
      ensures file.Some? && !AcceptedName(file.value.name) ==>
        error == Some(UnsupportedMessage) && delivered == old(delivered) && loading == old(loading) && success == old(success)
      ensures file.Some? && AcceptedName(file.value.name) ==> !loading
      ensures file.Some? && AcceptedName(file.value.name) && ParseOutcome(file.value.read, serialToDate, parseDate).Extracted? ==>
        delivered == old(delivered) + [ParseOutcome(file.value.read, serialToDate, parseDate).data] && success && error.None?
      ensures file.Some? && AcceptedName(file.value.name) && ParseOutcome(file.value.read, serialToDate, parseDate).Failed? ==>
        delivered == old(delivered) && !success && error == Some(ParseOutcome(file.value.read, serialToDate, parseDate).message)
    {
      if file.Some? {
        var fileName := JsStrings.ToLower(file.value.name);
        if !JsStrings.EndsWith(fileName, ".xlsx") && !JsStrings.EndsWith(fileName, ".xls") {
          error := Some(UnsupportedMessage);
          return;
        }
        ParseExcelFile(file.value.read, serialToDate, parseDate);
      }
    }

    /** The Clear button: error and success cleared, nothing else. */
    method Clear()
      modifies this
      ensures error.None? && !success && loading == old(loading) && delivered == old(delivered)
    {
      error := None;
      success := false;
    }
  }
}
