/** gas_aggregation_script.js, the spreadsheet side of the Apps Script job:
    `getProp_`, `getConfigData_`, `getEmployeeShifts_` and the employee loop of
    `aggregateShiftsAndPostToSlack`. Cells are text here; a row object built from a
    header row is a map from header to cell, and a key the object does not have is
    JavaScript's `undefined` (None). The Apps Script services are inputs: the sheets
    arrive as values and `SpreadsheetApp.openById` is a function from id to book. */
module GasSheets {
  import opened Wrappers
  import opened Text

  /** A row object such as `{employee_id: "E1", status: "Active", ...}`. */
  type Record = map<string, string>

  /** One row of `getDataRange().getValues()`. */
  type Row = seq<string>

  /** A sheet's data range: `data[0]` (the header row) and `data.slice(1)`. The
      range of a sheet always has a first row, so `headers` always exists. */
  datatype Sheet = Sheet(headers: Row, rows: seq<Row>)

  /** `obj[key]`: undefined (None) when the object has no such key. */
  function Get(r: Record, key: string): (v: Option<string>)
    ensures v.Some? <==> key in r
  {
    if key in r then Some(r[key]) else None
  }

  /** JavaScript truthiness of a text value: defined and not "". */
  predicate Truthy(v: Option<string>) {
    v.Some? && v.value != ""
  }

  /** `${value}` in a template literal: undefined prints as "undefined". */
  function Show(v: Option<string>): string {
    v.GetOr("undefined")
  }

  /** `row[index]`: undefined past the end of the row. */
  function Cell(row: Row, i: nat): Option<string> {
    if i < |row| then Some(row[i]) else None
  }

  // ----- getProp_ -----

  /** `getProp_(key, required)`: the script property, or the error
      "Missing property: key" when it is required and absent or empty. */
  function GetProp(props: map<string, string>, key: string, required: bool): (r: Result<Option<string>, string>)
    ensures r.Err? <==> required && !Truthy(Get(props, key))
    ensures r.Err? ==> r.error == "Missing property: " + key
    ensures r.Ok? ==> r.value == Get(props, key) && (required ==> Truthy(r.value))
  {
    var v := Get(props, key);
    if required && !Truthy(v) then Err("Missing property: " + key) else Ok(v)
  }

  // ----- building row objects -----

  /** `headers.forEach((header, index) => { obj[header] = row[index]; })`: headers
      are assigned left to right, so a repeated header keeps its last column, and a
      cell past the end of the row sets the key to undefined. */
  function ZipRow(headers: Row, row: Row): (r: Record)
    ensures forall k :: k in r ==> k in headers
  {
    if |headers| == 0 then map[]
    else
      var k := |headers| - 1;
      var m := ZipRow(headers[..k], row);
      if k < |row| then m[headers[k] := row[k]] else m - {headers[k]}
  }

  /** The object holds, under each header, the cell of the last column with that
      header. */
  lemma {:induction false} ZipRowGet(headers: Row, row: Row, i: nat)
    requires i < |headers|
    requires forall j :: i < j < |headers| ==> headers[j] != headers[i]
    ensures Get(ZipRow(headers, row), headers[i]) == Cell(row, i)
  {
    var k := |headers| - 1;
    if i < k {
      assert headers[..k][i] == headers[i];
      ZipRowGet(headers[..k], row, i);
    }
  }

  /** A key that is no header reads as undefined. */
  lemma ZipRowOther(headers: Row, row: Row, key: string)
    requires key !in headers
    ensures Get(ZipRow(headers, row), key) == None
  {
  }

  // ----- getConfigData_ -----

  /** `rows.map(toObject).filter(row => row.employee_id)`. */
  function ConfigRecords(headers: Row, rows: seq<Row>): (r: seq<Record>)
    ensures |r| <= |rows|
  {
    if |rows| == 0 then []
    else
      var obj := ZipRow(headers, rows[0]);
      (if Truthy(Get(obj, "employee_id")) then [obj] else []) + ConfigRecords(headers, rows[1..])
  }

  /** A record is in the config exactly when some row builds it and its
      employee_id is truthy. */
  lemma {:induction false} ConfigRecordsMember(headers: Row, rows: seq<Row>, obj: Record)
    ensures obj in ConfigRecords(headers, rows) <==>
            exists i :: 0 <= i < |rows| && obj == ZipRow(headers, rows[i]) && Truthy(Get(obj, "employee_id"))
  {
    if |rows| > 0 {
      ConfigRecordsMember(headers, rows[1..], obj);
      if obj in ConfigRecords(headers, rows[1..]) {
        var i :| 0 <= i < |rows[1..]| && obj == ZipRow(headers, rows[1..][i]) && Truthy(Get(obj, "employee_id"));
        assert rows[i + 1] == rows[1..][i];
      }
      if exists i :: 0 <= i < |rows| && obj == ZipRow(headers, rows[i]) && Truthy(Get(obj, "employee_id")) {
        var i :| 0 <= i < |rows| && obj == ZipRow(headers, rows[i]) && Truthy(Get(obj, "employee_id"));
        if i > 0 { assert rows[1..][i - 1] == rows[i]; }
      }
    }
  }

  /** The filter keeps row order: the rows of a + b give the records of a, then b. */
  lemma {:induction false} ConfigRecordsAppend(headers: Row, a: seq<Row>, b: seq<Row>)
    ensures ConfigRecords(headers, a + b) == ConfigRecords(headers, a) + ConfigRecords(headers, b)
  {
    if |a| > 0 {
      assert (a + b)[1..] == a[1..] + b;
      ConfigRecordsAppend(headers, a[1..], b);
    } else {
      assert a + b == b;
    }
  }

  /** `getConfigData_()`: the error 'configシートが見つかりません' without a config
      sheet, else the records of its rows that have an employee_id. */
  function GetConfigData(config: Option<Sheet>): (r: Result<seq<Record>, string>)
    ensures config.None? <==> r.Err?
    ensures r.Err? ==> r.error == "configシートが見つかりません"
    ensures r.Ok? ==> forall e :: e in r.value ==> Truthy(Get(e, "employee_id"))
  {
    match config
    case None => Err("configシートが見つかりません")
    case Some(sheet) =>
      var records := ConfigRecords(sheet.headers, sheet.rows);
      assert forall e :: e in records ==> Truthy(Get(e, "employee_id")) by {
        forall e | e in records ensures Truthy(Get(e, "employee_id")) {
          ConfigRecordsMember(sheet.headers, sheet.rows, e);
        }
      }
      Ok(records)
  }

  // ----- getEmployeeShifts_ -----

  const Approved: string := "承認"

  /** `!row[0]`: the first cell is missing or empty. */
  predicate BlankKey(row: Row) {
    !Truthy(Cell(row, 0))
  }

  /** The shift objects of the rows with a non-blank first cell whose status is
      '承認', in sheet order. */
  function ApprovedShifts(headers: Row, rows: seq<Row>): (r: seq<Record>)
    ensures |r| <= |rows|
  {
    if |rows| == 0 then []
    else
      var rest := ApprovedShifts(headers, rows[..|rows| - 1]);
      var row := rows[|rows| - 1];
      if BlankKey(row) then rest
      else
        var shift := ZipRow(headers, row);
        if Get(shift, "status") == Some(Approved) then rest + [shift] else rest
  }

  /** A shift is kept exactly when some row with a non-blank first cell builds it
      and its status is '承認'. */
  lemma {:induction false} ApprovedShiftsMember(headers: Row, rows: seq<Row>, shift: Record)
    ensures shift in ApprovedShifts(headers, rows) <==>
            exists i :: 0 <= i < |rows| && !BlankKey(rows[i]) && shift == ZipRow(headers, rows[i])
                        && Get(shift, "status") == Some(Approved)
  {
    if |rows| > 0 {
      var init := rows[..|rows| - 1];
      ApprovedShiftsMember(headers, init, shift);
      if exists i :: 0 <= i < |init| && !BlankKey(init[i]) && shift == ZipRow(headers, init[i])
                     && Get(shift, "status") == Some(Approved) {
        var i :| 0 <= i < |init| && !BlankKey(init[i]) && shift == ZipRow(headers, init[i])
                 && Get(shift, "status") == Some(Approved);
        assert rows[i] == init[i];
      }
      if exists i :: 0 <= i < |rows| && !BlankKey(rows[i]) && shift == ZipRow(headers, rows[i])
                     && Get(shift, "status") == Some(Approved) {
        var i :| 0 <= i < |rows| && !BlankKey(rows[i]) && shift == ZipRow(headers, rows[i])
                 && Get(shift, "status") == Some(Approved);
        if i < |init| { assert init[i] == rows[i]; }
      }
    }
  }

  /** Sheet order is kept: the rows of a + b give the shifts of a, then of b. */
  lemma {:induction false} ApprovedShiftsAppend(headers: Row, a: seq<Row>, b: seq<Row>)
    ensures ApprovedShifts(headers, a + b) == ApprovedShifts(headers, a) + ApprovedShifts(headers, b)
    decreases |b|
  {
    if |b| == 0 {
      assert a + b == a;
    } else {
      var b' := b[..|b| - 1];
      assert (a + b)[..|a + b| - 1] == a + b';
      assert (a + b)[|a + b| - 1] == b[|b| - 1];
      ApprovedShiftsAppend(headers, a, b');
    }
  }

  /** What `SpreadsheetApp.openById(id)` gives: an error with its message, or a
      book that may or may not have a 'request' sheet. */
  datatype Book = OpenFailed(message: string) | Opened(request: Option<Sheet>)

  /** What `getEmployeeShifts_` returns or throws. */
  function EmployeeShifts(book: Book): Result<seq<Record>, string> {
    match book
    case OpenFailed(message) => Err(message)
    case Opened(None) => Err("requestシートが見つかりません")
    case Opened(Some(sheet)) => Ok(ApprovedShifts(sheet.headers, sheet.rows))
  }

  /** `getEmployeeShifts_(spreadsheetId, employeeId)`: walks the request sheet and
      pushes each approved shift; the employee id is not used by the function. */
  method GetEmployeeShifts(book: Book) returns (r: Result<seq<Record>, string>)
    ensures r == EmployeeShifts(book)
    ensures r.Ok? ==> forall s :: s in r.value ==> Get(s, "status") == Some(Approved)
  {
    if book.OpenFailed? {
      return Err(book.message);
    }
    if book.request.None? {
      return Err("requestシートが見つかりません");
    }
    var sheet := book.request.value;
    var shifts: seq<Record> := [];
    var i := 0;
    while i < |sheet.rows|
      invariant 0 <= i <= |sheet.rows|
      invariant shifts == ApprovedShifts(sheet.headers, sheet.rows[..i])
      invariant forall s :: s in shifts ==> Get(s, "status") == Some(Approved)
    {
      var row := sheet.rows[i];
      assert sheet.rows[..i + 1][..i] == sheet.rows[..i];
      if !BlankKey(row) {
        var shift := ZipRow(sheet.headers, row);
        if Get(shift, "status") == Some(Approved) {
          shifts := shifts + [shift];
        }
      }
      i := i + 1;
    }
    assert sheet.rows[..i] == sheet.rows;
    r := Ok(shifts);
  }

  // ----- the employee loop of aggregateShiftsAndPostToSlack -----

  /** `employee.status === 'Active' && employee.spreadsheet_id`. */
  predicate Eligible(e: Record) {
    Get(e, "status") == Some("Active") && Truthy(Get(e, "spreadsheet_id"))
  }

  /** The state the loop builds: `allShifts`, `processedEmployees` and
      `logData.error_details`. */
  datatype Aggregate = Aggregate(shifts: seq<Record>, processed: nat, errors: string)

  /** The error line for one employee: `${employee_name}: ${error.message}; `. */
  function ErrorLine(e: Record, message: string): string {
    Show(Get(e, "employee_name")) + ": " + message + "; "
  }

  /** The effect of one employee on the loop state. */
  function Step(a: Aggregate, e: Record, open: string -> Book): Aggregate {
    if !Eligible(e) then a
    else match EmployeeShifts(open(e["spreadsheet_id"]))
      case Ok(shifts) => Aggregate(a.shifts + shifts, a.processed + 1, a.errors)
      case Err(message) => Aggregate(a.shifts, a.processed, a.errors + ErrorLine(e, message))
  }

  /** The loop state after the employees of `config`, in config order. */
  function Aggregated(config: seq<Record>, open: string -> Book): (r: Aggregate)
    ensures r.processed <= |config|
  {
    if |config| == 0 then Aggregate([], 0, "")
    else Step(Aggregated(config[..|config| - 1], open), config[|config| - 1], open)
  }

  /** The loop over the employees of `config`: ineligible employees are skipped,
      the others' shifts are appended, and a failing employee only adds an error
      line. */
  method AggregateEmployees(config: seq<Record>, open: string -> Book)
    returns (allShifts: seq<Record>, processedEmployees: nat, errorDetails: string)
    ensures Aggregate(allShifts, processedEmployees, errorDetails) == Aggregated(config, open)
  {
    allShifts, processedEmployees, errorDetails := [], 0, "";
    var i := 0;
    while i < |config|
      invariant 0 <= i <= |config|
      invariant Aggregate(allShifts, processedEmployees, errorDetails) == Aggregated(config[..i], open)
    {
      var employee := config[i];
      assert config[..i + 1][..i] == config[..i];
      if Eligible(employee) {
        var shifts := GetEmployeeShifts(open(employee["spreadsheet_id"]));
        match shifts
        case Ok(s) =>
          allShifts := allShifts + s;
          processedEmployees := processedEmployees + 1;
        case Err(message) =>
          errorDetails := errorDetails + ErrorLine(employee, message);
      }
      i := i + 1;
    }
    assert config[..i] == config;
  }

  /** Adding one aggregate to another: shifts and errors concatenate, counts add. */
  function Combine(x: Aggregate, y: Aggregate): Aggregate {
    Aggregate(x.shifts + y.shifts, x.processed + y.processed, x.errors + y.errors)
  }

  /** Employees are independent: the result for a + b is the result for a followed
      by the result for b, so an employee's failure or skip leaves every other
      employee's shifts and errors as they would be on their own. */
  lemma {:induction false} AggregatedAppend(a: seq<Record>, b: seq<Record>, open: string -> Book)
    ensures Aggregated(a + b, open) == Combine(Aggregated(a, open), Aggregated(b, open))
    decreases |b|
  {
    if |b| == 0 {
      assert a + b == a;
    } else {
      var b' := b[..|b| - 1];
      var e := b[|b| - 1];
      assert (a + b)[..|a + b| - 1] == a + b';
      assert (a + b)[|a + b| - 1] == e;
      AggregatedAppend(a, b', open);
      var x, y := Aggregated(a, open), Aggregated(b', open);
      assert x.shifts + (y.shifts + []) == x.shifts + y.shifts;
      if Eligible(e) {
        match EmployeeShifts(open(e["spreadsheet_id"]))
        case Ok(s) =>
          assert (x.shifts + y.shifts) + s == x.shifts + (y.shifts + s);
        case Err(m) =>
          assert (x.errors + y.errors) + ErrorLine(e, m) == x.errors + (y.errors + ErrorLine(e, m));
      }
    }
  }

  /** A single employee on their own: skipped, fetched, or logged as an error. */
  lemma AggregatedOne(e: Record, open: string -> Book)
    ensures !Eligible(e) ==> Aggregated([e], open) == Aggregate([], 0, "")
    ensures Eligible(e) && EmployeeShifts(open(e["spreadsheet_id"])).Ok? ==>
              Aggregated([e], open) == Aggregate(EmployeeShifts(open(e["spreadsheet_id"])).value, 1, "")
    ensures Eligible(e) && EmployeeShifts(open(e["spreadsheet_id"])).Err? ==>
              Aggregated([e], open) == Aggregate([], 0, ErrorLine(e, EmployeeShifts(open(e["spreadsheet_id"])).error))
  {
    assert [e][..0] == [];
  }

  /** An employee whose sheet cannot be read contributes an error line and no
      shifts, and the employees after it are still processed. */
  lemma FailureIsIsolated(a: seq<Record>, e: Record, b: seq<Record>, open: string -> Book)
    requires Eligible(e) && EmployeeShifts(open(e["spreadsheet_id"])).Err?
    ensures Aggregated(a + [e] + b, open).shifts == Aggregated(a, open).shifts + Aggregated(b, open).shifts
    ensures Aggregated(a + [e] + b, open).processed == Aggregated(a, open).processed + Aggregated(b, open).processed
    ensures Aggregated(a + [e] + b, open).errors
         == Aggregated(a, open).errors + ErrorLine(e, EmployeeShifts(open(e["spreadsheet_id"])).error)
            + Aggregated(b, open).errors
  {
    AggregatedAppend(a + [e], b, open);
    AggregatedAppend(a, [e], open);
    AggregatedOne(e, open);
  }
}
