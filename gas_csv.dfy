/** gas_aggregation_script.js, `escapeCsv_` and `createCsvBlob_`: the CSV file of
    the aggregated shifts. A field holding a double quote, a comma or a line feed
    is enclosed in double quotes with every inner double quote written twice; a
    carriage return alone does not cause quoting (RFC 4180 would quote it too), and
    records are separated by a line feed. The reader given here ends fields at
    commas and records at line feeds only, so a carriage return is data to it; the
    escaping is proved to round-trip through this reader. */
module GasCsv {
  import opened Wrappers
  import opened Text
  import opened GasSheets
  import opened GasTime

  // ----- escapeCsv_ -----

  /** `/[",\n]/.test(value)` */
  predicate NeedsQuote(v: string) {
    '"' in v || ',' in v || '\n' in v
  }

  /** `String(value).replace(/"/g, '""')` */
  function DoubleQuotes(v: string): (r: string)
    ensures '"' !in v ==> r == v
  {
    if |v| == 0 then ""
    else (if v[0] == '"' then "\"\"" else [v[0]]) + DoubleQuotes(v[1..])
  }

  /** `escapeCsv_(value)`: null and undefined become ''; a value with a double
      quote, comma or line feed is quoted with its quotes doubled; any other value is
      returned unchanged. */
  function EscapeCsv(value: Option<string>): (r: string)
    ensures value.None? ==> r == ""
    ensures !NeedsQuote(value.GetOr("")) ==> r == value.GetOr("")
    ensures NeedsQuote(value.GetOr("")) ==> |r| >= 2 && r[0] == '"' && r[|r| - 1] == '"'
  {
    var v := value.GetOr("");
    var escaped := DoubleQuotes(v);
    if NeedsQuote(v) then "\"" + escaped + "\"" else escaped
  }

  /** A carriage return alone is not quoted: the test is `/[",\n]/`. */
  lemma CarriageReturnUnquoted(v: string)
    requires '\r' in v && !NeedsQuote(v)
    ensures EscapeCsv(Some(v)) == v && '\r' in EscapeCsv(Some(v))
  {
  }

  // ----- a reader for the format -----

  /** The end of an unquoted field: a comma, a line feed, or the end of the text. */
  predicate AtFieldEnd(s: string) {
    |s| == 0 || s[0] == ',' || s[0] == '\n'
  }

  /** The rest of a quoted field after its opening quote: characters up to the
      closing quote, with `""` standing for one quote; the closing quote must be
      followed by a field end. Returns the field and the text after the quote. */
  function DecodeQuoted(s: string, acc: string): (r: Option<(string, string)>)
    ensures r.Some? ==> |r.value.1| < |s|
    decreases |s|
  {
    if |s| == 0 then None
    else if s[0] == '"' then
      if |s| > 1 && s[1] == '"' then DecodeQuoted(s[2..], acc + "\"")
      else if AtFieldEnd(s[1..]) then Some((acc, s[1..]))
      else None
    else DecodeQuoted(s[1..], acc + [s[0]])
  }

  /** The length of the run of characters before the next comma or line feed. */
  function UnquotedRun(s: string): (n: nat)
    ensures n <= |s|
  {
    if AtFieldEnd(s) then 0 else 1 + UnquotedRun(s[1..])
  }

  /** One field at the start of s: quoted, or a run without quotes, commas and line
      feeds. Returns the field's value and the text after it (which starts at a
      comma, a line feed, or is empty). */
  function DecodeField(s: string): (r: Option<(string, string)>)
    ensures r.Some? ==> |r.value.1| <= |s| && AtFieldEnd(r.value.1)
  {
    if |s| > 0 && s[0] == '"' then
      match DecodeQuoted(s[1..], "")
      case None => None
      case Some(p) => if AtFieldEnd(p.1) then Some(p) else None
    else
      var n := UnquotedRun(s);
      if '"' in s[..n] then None else
      UnquotedRunEnd(s);
      Some((s[..n], s[n..]))
  }

  lemma {:induction false} UnquotedRunEnd(s: string)
    ensures AtFieldEnd(s[UnquotedRun(s)..])
  {
    if !AtFieldEnd(s) {
      UnquotedRunEnd(s[1..]);
      assert s[UnquotedRun(s)..] == s[1..][UnquotedRun(s[1..])..];
    }
  }

  /** Reading one escaped character inside a quoted field: a doubled quote is one
      quote, any other character is itself. */
  lemma DecodeQuotedOne(c: char, tail: string, acc: string)
    ensures DecodeQuoted((if c == '"' then "\"\"" else [c]) + tail, acc) == DecodeQuoted(tail, acc + [c])
  {
    if c == '"' {
      var s := "\"\"" + tail;
      assert s[0] == '"' && s[1] == '"' && s[2..] == tail;
      assert acc + "\"" == acc + [c];
    } else {
      var s := [c] + tail;
      assert s[0] == c && s[1..] == tail;
    }
  }

  /** The closing quote followed by a field end ends the field. */
  lemma DecodeQuotedClose(acc: string, rest: string)
    requires AtFieldEnd(rest)
    ensures DecodeQuoted("\"" + rest, acc) == Some((acc, rest))
  {
    assert ("\"" + rest)[1..] == rest;
  }

  /** The first escaped character of v is read back as itself. */
  lemma DecodeQuotedCons(v: string, acc: string, rest: string)
    requires |v| > 0
    ensures DecodeQuoted(DoubleQuotes(v) + "\"" + rest, acc)
         == DecodeQuoted(DoubleQuotes(v[1..]) + "\"" + rest, acc + [v[0]])
  {
    var tail := DoubleQuotes(v[1..]) + "\"" + rest;
    DecodeQuotedOne(v[0], tail, acc);
    assert DoubleQuotes(v) + "\"" + rest == (if v[0] == '"' then "\"\"" else [v[0]]) + tail;
  }

  /** Reading doubled quotes, a closing quote and a field end back. */
  lemma {:induction false} DecodeQuotedRoundTrip(v: string, acc: string, rest: string)
    requires AtFieldEnd(rest)
    ensures DecodeQuoted(DoubleQuotes(v) + "\"" + rest, acc) == Some((acc + v, rest))
  {
    if |v| == 0 {
      assert DoubleQuotes(v) + "\"" + rest == "\"" + rest;
      DecodeQuotedClose(acc, rest);
      assert acc + v == acc;
    } else {
      DecodeQuotedRoundTrip(v[1..], acc + [v[0]], rest);
      DecodeQuotedCons(v, acc, rest);
      assert acc + [v[0]] + v[1..] == acc + v;
    }
  }

  lemma {:induction false} UnquotedRunOf(v: string, rest: string)
    requires ',' !in v && '\n' !in v && AtFieldEnd(rest)
    ensures UnquotedRun(v + rest) == |v|
  {
    if |v| > 0 {
      assert v[0] in v;
      assert (v + rest)[1..] == v[1..] + rest;
      assert forall c :: c in v[1..] ==> c in v;
      UnquotedRunOf(v[1..], rest);
    } else {
      assert v + rest == rest;
    }
  }

  /** Round trip of one field: reading back an escaped value followed by a field end
      gives the value (undefined reads back as the empty field) and the same rest. */
  lemma FieldRoundTrip(value: Option<string>, rest: string)
    requires AtFieldEnd(rest)
    ensures DecodeField(EscapeCsv(value) + rest) == Some((value.GetOr(""), rest))
  {
    var v := value.GetOr("");
    if NeedsQuote(v) {
      assert EscapeCsv(value) == "\"" + DoubleQuotes(v) + "\"";
      QuotedFieldRoundTrip(v, rest);
    } else {
      PlainFieldRoundTrip(v, rest);
    }
  }

  lemma QuotedFieldRoundTrip(v: string, rest: string)
    requires AtFieldEnd(rest)
    ensures DecodeField("\"" + DoubleQuotes(v) + "\"" + rest) == Some((v, rest))
  {
    var s := "\"" + DoubleQuotes(v) + "\"" + rest;
    assert s == "\"" + (DoubleQuotes(v) + "\"" + rest);
    assert s[1..] == DoubleQuotes(v) + "\"" + rest;
    DecodeQuotedRoundTrip(v, "", rest);
    assert "" + v == v;
  }

  lemma PlainFieldRoundTrip(v: string, rest: string)
    requires AtFieldEnd(rest) && !NeedsQuote(v)
    ensures DecodeField(v + rest) == Some((v, rest))
  {
    var s := v + rest;
    UnquotedRunOf(v, rest);
    assert s[..|v|] == v && s[|v|..] == rest;
    if |v| > 0 {
      assert v[0] in v;
      assert s[0] == v[0];
    }
  }

  /** `fields.map(escapeCsv_).join(',')` */
  function EncodeRecord(fields: seq<Option<string>>): string {
    Join(Escaped(fields), ",")
  }

  function Escaped(fields: seq<Option<string>>): (r: seq<string>)
    ensures |r| == |fields| && forall i :: 0 <= i < |fields| ==> r[i] == EscapeCsv(fields[i])
  {
    if |fields| == 0 then [] else [EscapeCsv(fields[0])] + Escaped(fields[1..])
  }

  /** The values read back: undefined becomes the empty field. */
  function Values(fields: seq<Option<string>>): (r: seq<string>)
    ensures |r| == |fields| && forall i :: 0 <= i < |fields| ==> r[i] == fields[i].GetOr("")
  {
    if |fields| == 0 then [] else [fields[0].GetOr("")] + Values(fields[1..])
  }

  /** One record at the start of s: fields separated by commas, up to a line feed
      or the end. Returns the fields and the text from the line feed on. */
  function DecodeRecord(s: string): (r: Option<(seq<string>, string)>)
    ensures r.Some? ==> |r.value.1| <= |s|
    decreases |s|
  {
    match DecodeField(s)
    case None => None
    case Some((field, rest)) =>
      if |rest| > 0 && rest[0] == ',' then
        match DecodeRecord(rest[1..])
        case None => None
        case Some((fields, after)) => Some(([field] + fields, after))
      else Some(([field], rest))
  }

  /** Round trip of a record: an encoded non-empty record followed by a line feed or
      the end reads back as its values. */
  lemma {:induction false} RecordRoundTrip(fields: seq<Option<string>>, rest: string)
    requires |fields| > 0 && (|rest| == 0 || rest[0] == '\n')
    ensures DecodeRecord(EncodeRecord(fields) + rest) == Some((Values(fields), rest))
  {
    if |fields| == 1 {
      RecordRoundTripOne(fields, rest);
    } else {
      var tail := EncodeRecord(fields[1..]) + rest;
      RecordRoundTrip(fields[1..], rest);
      DecodeRecordCons(fields[0], tail, Values(fields[1..]), rest);
      EncodeRecordCons(fields, rest);
      ValuesCons(fields);
    }
  }

  lemma RecordRoundTripOne(fields: seq<Option<string>>, rest: string)
    requires |fields| == 1 && (|rest| == 0 || rest[0] == '\n')
    ensures DecodeRecord(EncodeRecord(fields) + rest) == Some((Values(fields), rest))
  {
    assert EncodeRecord(fields) == EscapeCsv(fields[0]);
    FieldRoundTrip(fields[0], rest);
    assert Values(fields) == [fields[0].GetOr("")];
  }

  /** An escaped field and a comma in front of a record read back as one more
      field in front of that record's fields. */
  lemma DecodeRecordCons(first: Option<string>, tail: string, values: seq<string>, rest: string)
    requires DecodeRecord(tail) == Some((values, rest))
    ensures DecodeRecord(EscapeCsv(first) + ("," + tail)) == Some(([first.GetOr("")] + values, rest))
  {
    FieldRoundTrip(first, "," + tail);
    assert ("," + tail)[1..] == tail;
  }

  /** A record of two or more fields is its first escaped field, a comma and the
      rest of the record. */
  lemma EncodeRecordCons(fields: seq<Option<string>>, rest: string)
    requires |fields| > 1
    ensures EncodeRecord(fields) + rest == EscapeCsv(fields[0]) + ("," + (EncodeRecord(fields[1..]) + rest))
  {
    var first := EscapeCsv(fields[0]);
    var others := Escaped(fields[1..]);
    assert Escaped(fields) == [first] + others;
    JoinCons(first, others, ",");
  }

  lemma ValuesCons(fields: seq<Option<string>>)
    requires |fields| > 0
    ensures Values(fields) == [fields[0].GetOr("")] + Values(fields[1..])
  {
  }

  /** Records separated by line feeds, up to the end of the text; a final line
      feed ends the last record. */
  function DecodeRecords(s: string): Option<seq<seq<string>>>
    decreases |s|
  {
    match DecodeRecord(s)
    case None => None
    case Some((fields, rest)) =>
      if |rest| == 0 || rest == "\n" then Some([fields])
      else if rest[0] == '\n' then
        match DecodeRecords(rest[1..])
        case None => None
        case Some(records) => Some([fields] + records)
      else None
  }

  // ----- createCsvBlob_ -----

  /** The byte order mark `'﻿'` put in front for Excel. */
  const Bom: string := "\U{FEFF}"

  /** The header line as written in the script. */
  const HeaderLine: string :=
    "日付,店舗,従業員ID,従業員名,役職,開始時間,終了時間,休憩時間(時間),総労働時間(時間),シフトタイプ,業務内容,備考,承認者,承認日時"

  /** `value || ''` */
  function OrEmpty(v: Option<string>): Option<string> {
    if Truthy(v) then v else Some("")
  }

  /** `calculateTotalHour_(start_time, end_time, break_hour)` as text: '' when it
      throws, "NaN" when a time does not parse, otherwise the hours rendered by
      `render` (which stands for `(minutes / 60).toFixed(2)`). */
  function TotalHourText(shift: Record, render: real -> string): string {
    match CalculateTotalMinutes(Get(shift, "start_time"), Get(shift, "end_time"), Get(shift, "break_hour"))
    case Blank => ""
    case Minutes(None) => "NaN"
    case Minutes(Some(m)) => render(m / 60.0)
  }

  /** The 14 cells of one shift's CSV line, in the order of the header line. */
  function RowFields(shift: Record, render: real -> string): (r: seq<Option<string>>)
    ensures |r| == 14
  {
    [Get(shift, "date"), Get(shift, "store"), Get(shift, "employee_id"), Get(shift, "employee_name"),
     Get(shift, "role"), Get(shift, "start_time"), Get(shift, "end_time"),
     OrEmpty(Get(shift, "break_hour")), Some(TotalHourText(shift, render)), Get(shift, "shift_type"),
     OrEmpty(Get(shift, "work_content")), Get(shift, "notes"), Get(shift, "manager"), Get(shift, "approved_at")]
  }

  function RowLine(shift: Record, render: real -> string): string {
    EncodeRecord(RowFields(shift, render))
  }

  function RowLines(shifts: seq<Record>, render: real -> string): (r: seq<string>)
    ensures |r| == |shifts|
  {
    if |shifts| == 0 then [] else RowLines(shifts[..|shifts| - 1], render) + [RowLine(shifts[|shifts| - 1], render)]
  }

  /** The text of the file `createCsvBlob_` makes. */
  function CsvDocument(shifts: seq<Record>, render: real -> string): string {
    if |shifts| == 0 then HeaderLine + "\n"
    else Bom + Join([HeaderLine] + RowLines(shifts, render), "\n")
  }

  /** One push of the loop: the lines of the first i + 1 shifts. */
  lemma RowLinesStep(shifts: seq<Record>, i: nat, render: real -> string, before: seq<string>)
    requires i < |shifts| && before == [HeaderLine] + RowLines(shifts[..i], render)
    ensures before + [RowLine(shifts[i], render)] == [HeaderLine] + RowLines(shifts[..i + 1], render)
  {
    var done := shifts[..i + 1];
    assert done[..i] == shifts[..i] && done[i] == shifts[i];
    assert RowLines(done, render) == RowLines(shifts[..i], render) + [RowLine(shifts[i], render)];
  }

  /** `createCsvBlob_(shifts)`: the lines are collected in `csvLines` and joined. */
  method CreateCsvBlob(shifts: seq<Record>, render: real -> string) returns (content: string)
    ensures content == CsvDocument(shifts, render)
  {
    if |shifts| == 0 {
      return HeaderLine + "\n";
    }
    var csvLines := [HeaderLine];
    var i := 0;
    while i < |shifts|
      invariant 0 <= i <= |shifts|
      invariant csvLines == [HeaderLine] + RowLines(shifts[..i], render)
    {
      RowLinesStep(shifts, i, render, csvLines);
      csvLines := csvLines + [RowLine(shifts[i], render)];
      i := i + 1;
    }
    assert shifts[..i] == shifts;
    content := Bom + Join(csvLines, "\n");
  }

  // ----- reading the document back -----

  function EncodedLines(records: seq<seq<Option<string>>>): (r: seq<string>)
    ensures |r| == |records| && forall i :: 0 <= i < |records| ==> r[i] == EncodeRecord(records[i])
  {
    if |records| == 0 then [] else [EncodeRecord(records[0])] + EncodedLines(records[1..])
  }

  function DecodedValues(records: seq<seq<Option<string>>>): (r: seq<seq<string>>)
    ensures |r| == |records| && forall i :: 0 <= i < |records| ==> r[i] == Values(records[i])
  {
    if |records| == 0 then [] else [Values(records[0])] + DecodedValues(records[1..])
  }

  /** A record of two or more fields has at least its comma. */
  lemma EncodeRecordNonEmpty(fields: seq<Option<string>>)
    requires |fields| >= 2
    ensures |EncodeRecord(fields)| > 0
  {
    assert EncodeRecord(fields) == EscapeCsv(fields[0]) + "," + Join(Escaped(fields)[1..], ",");
  }

  lemma JoinNonEmpty(parts: seq<string>, sep: string)
    requires |parts| > 0 && |parts[0]| > 0
    ensures |Join(parts, sep)| > 0
  {
  }

  /** Round trip of a file body: records of two or more fields, encoded and joined
      by line feeds, read back as their values, in order. */
  lemma {:induction false} RecordsRoundTrip(records: seq<seq<Option<string>>>)
    requires |records| > 0 && forall i :: 0 <= i < |records| ==> |records[i]| >= 2
    ensures DecodeRecords(Join(EncodedLines(records), "\n")) == Some(DecodedValues(records))
  {
    var lines := EncodedLines(records);
    if |records| == 1 {
      assert Join(lines, "\n") == EncodeRecord(records[0]) + "";
      RecordRoundTrip(records[0], "");
      assert DecodedValues(records) == [Values(records[0])];
    } else {
      var tail := records[1..];
      var j := Join(EncodedLines(tail), "\n");
      assert lines[1..] == EncodedLines(tail);
      assert Join(lines, "\n") == EncodeRecord(records[0]) + ("\n" + j);
      RecordRoundTrip(records[0], "\n" + j);
      EncodeRecordNonEmpty(tail[0]);
      JoinNonEmpty(EncodedLines(tail), "\n");
      assert ("\n" + j)[1..] == j;
      RecordsRoundTrip(tail);
      assert DecodedValues(records) == [Values(records[0])] + DecodedValues(tail);
    }
  }

  function RowRecords(shifts: seq<Record>, render: real -> string): (r: seq<seq<Option<string>>>)
    ensures |r| == |shifts| && forall i :: 0 <= i < |shifts| ==> r[i] == RowFields(shifts[i], render)
  {
    if |shifts| == 0 then [] else [RowFields(shifts[0], render)] + RowRecords(shifts[1..], render)
  }

  lemma {:induction false} RowLinesAt(shifts: seq<Record>, render: real -> string, i: nat)
    requires i < |shifts|
    ensures RowLines(shifts, render)[i] == RowLine(shifts[i], render)
  {
    if i < |shifts| - 1 {
      assert shifts[..|shifts| - 1][i] == shifts[i];
      RowLinesAt(shifts[..|shifts| - 1], render, i);
    }
  }

  lemma RowLinesEncoded(shifts: seq<Record>, render: real -> string)
    ensures RowLines(shifts, render) == EncodedLines(RowRecords(shifts, render))
  {
    var a := RowLines(shifts, render);
    var b := EncodedLines(RowRecords(shifts, render));
    forall i | 0 <= i < |a| ensures a[i] == b[i] {
      RowLinesAt(shifts, render, i);
    }
  }

  /** With no shifts the file is the header line and a line feed (no byte order
      mark); otherwise it is the byte order mark, the header line, a line feed and
      the shifts' lines joined by line feeds. */
  lemma CsvDocumentLayout(shifts: seq<Record>, render: real -> string)
    ensures |shifts| == 0 ==> CsvDocument(shifts, render) == HeaderLine + "\n"
    ensures |shifts| > 0 ==>
              CsvDocument(shifts, render) == Bom + (HeaderLine + "\n" + Join(RowLines(shifts, render), "\n"))
  {
    if |shifts| > 0 {
      JoinCons(HeaderLine, RowLines(shifts, render), "\n");
    }
  }

  lemma JoinCons(first: string, rest: seq<string>, sep: string)
    requires |rest| > 0
    ensures Join([first] + rest, sep) == first + sep + Join(rest, sep)
  {
    assert ([first] + rest)[1..] == rest;
  }

  /** The shifts' lines read back as one record per shift in input order, each of
      14 fields holding the shift's cell values (undefined cells read back empty). */
  lemma CsvRowsReadBack(shifts: seq<Record>, render: real -> string)
    requires |shifts| > 0
    ensures DecodeRecords(Join(RowLines(shifts, render), "\n")) == Some(DecodedValues(RowRecords(shifts, render)))
    ensures forall i :: 0 <= i < |shifts| ==>
              DecodedValues(RowRecords(shifts, render))[i] == Values(RowFields(shifts[i], render))
              && |DecodedValues(RowRecords(shifts, render))[i]| == 14
  {
    RowLinesEncoded(shifts, render);
    RecordsRoundTrip(RowRecords(shifts, render));
  }

  /** s does not end with a line feed. */
  predicate NoFinalLineFeed(s: string) {
    |s| == 0 || s[|s| - 1] != '\n'
  }

  /** Joining parts none of which ends with a line feed, with such a separator,
      gives a text that does not end with one. */
  lemma {:induction false} JoinNoFinalLineFeed(parts: seq<string>, sep: string)
    requires |parts| > 0 && NoFinalLineFeed(sep)
    requires forall i :: 0 <= i < |parts| ==> NoFinalLineFeed(parts[i])
    ensures NoFinalLineFeed(Join(parts, sep))
  {
    if |parts| > 1 {
      JoinNoFinalLineFeed(parts[1..], sep);
      var j := Join(parts[1..], sep);
      assert Join(parts, sep) == (parts[0] + sep) + j;
    }
  }

  /** A joined text ends with its last part. */
  lemma {:induction false} JoinEndsWithLast(parts: seq<string>, sep: string)
    requires |parts| > 0
    ensures var j := Join(parts, sep); var last := parts[|parts| - 1];
            |j| >= |last| && j[|j| - |last|..] == last
  {
    if |parts| > 1 {
      JoinEndsWithLast(parts[1..], sep);
      var j := Join(parts[1..], sep);
      assert Join(parts, sep) == (parts[0] + sep) + j;
    }
  }

  /** An escaped field never ends with a line feed. */
  lemma EscapeNoFinalLineFeed(value: Option<string>)
    ensures NoFinalLineFeed(EscapeCsv(value))
  {
    var v := value.GetOr("");
    if !NeedsQuote(v) && |v| > 0 {
      assert v[|v| - 1] in v;
    }
  }

  lemma RowLineNoFinalLineFeed(shift: Record, render: real -> string)
    ensures |RowLine(shift, render)| > 0 && NoFinalLineFeed(RowLine(shift, render))
  {
    var f := RowFields(shift, render);
    forall k | 0 <= k < |Escaped(f)| ensures NoFinalLineFeed(Escaped(f)[k]) {
      EscapeNoFinalLineFeed(f[k]);
    }
    JoinNoFinalLineFeed(Escaped(f), ",");
    EncodeRecordNonEmpty(f);
  }

  /** The last line of a file with shifts is not followed by a line feed. */
  lemma CsvDocumentNoFinalLineFeed(shifts: seq<Record>, render: real -> string)
    requires |shifts| > 0
    ensures |CsvDocument(shifts, render)| > 0 && NoFinalLineFeed(CsvDocument(shifts, render))
  {
    var lines := [HeaderLine] + RowLines(shifts, render);
    var last := RowLine(shifts[|shifts| - 1], render);
    RowLinesAt(shifts, render, |shifts| - 1);
    assert lines[|lines| - 1] == last;
    RowLineNoFinalLineFeed(shifts[|shifts| - 1], render);
    JoinEndsWithLast(lines, "\n");
    var body := Join(lines, "\n");
    assert body[|body| - 1] == last[|last| - 1];
    assert CsvDocument(shifts, render) == Bom + body;
  }
}
