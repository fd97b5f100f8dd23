/** csv_direct_slack.py, class CSVToSlackDirect: read the rows of one day from the
    schedule CSV, format them as a Slack message and post it to the webhook. The
    pandas parser, the clock and the HTTP client are not part of this model: the
    rows arrive already parsed, the date is a parameter and the HTTP result is an
    input. */
module CsvDirect {
  import opened Wrappers
  import opened Text
  import opened Agenda
  import Sorting
  import Webhook

  /** A cell as pandas hands it over: a string, or the float NaN it puts in an
      empty cell (and in one holding a missing-value marker such as `NA`). */
  datatype Cell = Str(s: string) | NaN

  /** `f"{cell}"`: a string prints as itself, NaN as `nan`. */
  function Show(c: Cell): string {
    match c
    case Str(s) => s
    case NaN => "nan"
  }

  /** One parsed CSV row: columns 日付, 名前, タスク内容, 開始時間, 終了時間. */
  datatype CsvRow = CsvRow(date: Cell, name: Cell, task: Cell, start: Cell, end: Cell)

  /** The CSV file as the reader finds it: absent, unreadable (pandas raised, or a
      column the reader indexes is missing), or parsed into rows. */
  datatype CsvFile = Missing | Unreadable | Parsed(rows: seq<CsvRow>)

  /** A `{'title', 'start_time', 'end_time'}` dictionary as `read_csv_schedule`
      builds it: the title is text, the times are the cells themselves. */
  datatype Item = Item(title: string, start: Cell, end: Cell)

  const Greeting: string := "🌅 おはようございます！\n"
  const NoSchedule: string := "📝 今日の予定はありません。\n\n"

  function DateHeader(date: string): string {
    "📅 " + date + "の予定 📅\n\n"
  }

  /** The item built from a row: title `f"{名前}: {タスク内容}"`, times copied. */
  function ToItem(row: CsvRow): Item {
    Item(Show(row.name) + ": " + Show(row.task), row.start, row.end)
  }

  /** The row is dated `date`: `df['日付'] == target_date` (NaN equals no string). */
  predicate OnDate(row: CsvRow, date: string) {
    row.date == Str(date)
  }

  /** The items of the rows dated `date`, in file order. */
  function DayItems(rows: seq<CsvRow>, date: string): (r: seq<Item>)
    ensures |r| <= |rows|
  {
    if |rows| == 0 then []
    else (if OnDate(rows[0], date) then [ToItem(rows[0])] else []) + DayItems(rows[1..], date)
  }

  /** Filtering distributes over concatenation: the result keeps file order. */
  lemma {:induction false} DayItemsAppend(a: seq<CsvRow>, b: seq<CsvRow>, date: string)
    ensures DayItems(a + b, date) == DayItems(a, date) + DayItems(b, date)
  {
    if |a| > 0 {
      assert (a + b)[1..] == a[1..] + b;
      DayItemsAppend(a[1..], b, date);
    } else {
      assert a + b == b;
    }
  }

  /** An item is listed exactly when some row of that date produces it. */
  lemma {:induction false} DayItemsMember(rows: seq<CsvRow>, date: string, it: Item)
    ensures it in DayItems(rows, date) <==>
            exists i :: 0 <= i < |rows| && OnDate(rows[i], date) && ToItem(rows[i]) == it
  {
    if |rows| > 0 {
      DayItemsMember(rows[1..], date, it);
      if it in DayItems(rows[1..], date) {
        var i :| 0 <= i < |rows[1..]| && OnDate(rows[1..][i], date) && ToItem(rows[1..][i]) == it;
        assert rows[i + 1] == rows[1..][i];
      }
      if exists i :: 0 <= i < |rows| && OnDate(rows[i], date) && ToItem(rows[i]) == it {
        var i :| 0 <= i < |rows| && OnDate(rows[i], date) && ToItem(rows[i]) == it;
        if i > 0 { assert rows[1..][i - 1] == rows[i]; }
      }
    }
  }

  /** What `read_csv_schedule(csv_file, target_date)` returns: a missing or
      unreadable file gives the empty list. */
  function ScheduleOf(file: CsvFile, date: string): seq<Item> {
    match file
    case Parsed(rows) => DayItems(rows, date)
    case _ => []
  }

  /** `read_csv_schedule`: appends one item per matching row, in file order. */
  method ReadCsvSchedule(file: CsvFile, date: string) returns (list: seq<Item>)
    ensures list == ScheduleOf(file, date)
  {
    if !file.Parsed? {
      return [];
    }
    var rows := file.rows;
    list := [];
    var i := 0;
    while i < |rows|
      invariant 0 <= i <= |rows|
      invariant list == DayItems(rows[..i], date)
    {
      DayItemsAppend(rows[..i], [rows[i]], date);
      assert rows[..i + 1] == rows[..i] + [rows[i]];
      if OnDate(rows[i], date) {
        list := list + [ToItem(rows[i])];
      }
      i := i + 1;
    }
    assert rows[..i] == rows;
  }

  // ----- format_schedule_message -----

  /** The entry an item prints as: NaN times print as `nan`. */
  function AsEntry(it: Item): Entry {
    Entry(it.title, Show(it.start), Show(it.end))
  }

  function AsEntries(items: seq<Item>): (r: seq<Entry>)
    ensures |r| == |items| && forall i :: 0 <= i < |items| ==> r[i] == AsEntry(items[i])
  {
    if |items| == 0 then [] else [AsEntry(items[0])] + AsEntries(items[1..])
  }

  /** Some start time is a string and another is NaN: `sorted` then compares a str
      with a float, and Python raises TypeError. (Sorting compares every element
      with a neighbour in the growing sorted run, so a list holding both kinds
      always meets such a pair; strings among themselves and NaNs among
      themselves compare without error.) */
  predicate MixedStarts(items: seq<Item>) {
    (exists i :: 0 <= i < |items| && items[i].start.Str?) &&
    (exists j :: 0 <= j < |items| && items[j].start.NaN?)
  }

  /** The message `format_schedule_message(schedule_list, target_date)` returns,
      or None when it raises. */
  function DirectMessage(list: seq<Item>, date: string): Option<string> {
    if |list| == 0 then Some(Greeting + DateHeader(date) + NoSchedule + Footer)
    else if MixedStarts(list) then None
    else Some(Greeting + DateHeader(date) + Lines(SortByStart(AsEntries(list))) + "\n" + Footer)
  }

  /** Formatting raises exactly when the start times mix strings and NaN; a
      message, when there is one, opens with the greeting and the date header and
      ends with the footer, and an empty list gives the "no schedule" message. */
  lemma DirectMessageFrame(list: seq<Item>, date: string)
    ensures DirectMessage(list, date).None? <==> MixedStarts(list)
    ensures var m := DirectMessage(list, date);
      m.Some? ==> IsPrefix(Greeting + DateHeader(date), m.value) &&
                  |m.value| >= |Footer| && m.value[|m.value| - |Footer|..] == Footer
    ensures list == [] ==> DirectMessage(list, date) == Some(Greeting + DateHeader(date) + NoSchedule + Footer)
  {
    if |list| == 0 {
      assert !MixedStarts(list);
    }
    if DirectMessage(list, date).Some? {
      var head := Greeting + DateHeader(date);
      var m := DirectMessage(list, date).value;
      var body := if list == [] then NoSchedule else Lines(SortByStart(AsEntries(list))) + "\n";
      assert m == head + body + Footer;
      assert m[..|head|] == head;
      assert m[|m| - |Footer|..] == Footer;
    }
  }

  /** For a non-empty list whose start times do not mix kinds, the body lists
      every item exactly once, ordered by start time, items with equal start times
      in their given order, then the footer. */
  lemma DirectMessageNonEmpty(list: seq<Item>, date: string)
    requires |list| > 0 && !MixedStarts(list)
    ensures var sorted := SortByStart(AsEntries(list));
      && DirectMessage(list, date) == Some(Greeting + DateHeader(date) + Lines(sorted) + "\n" + Footer)
      && multiset(sorted) == multiset(AsEntries(list))
      && (forall i, j :: 0 <= i < j < |sorted| ==> StrLe(sorted[i].start, sorted[j].start))
      && (forall x :: Sorting.Ties(sorted, x, StartLe) == Sorting.Ties(AsEntries(list), x, StartLe))
  {
    SortByStartSpec(AsEntries(list));
  }

  /** When every start time is NaN, no comparison says "less", so the stable sort
      keeps the file order: the lines come in the order the rows were read. */
  lemma {:induction false} AllNaNKeepsOrder(list: seq<Item>)
    requires forall i :: 0 <= i < |list| ==> list[i].start.NaN?
    ensures SortByStart(AsEntries(list)) == AsEntries(list)
  {
    var es := AsEntries(list);
    var sorted := SortByStart(es);
    var x := Entry("", "nan", "");
    StrLeTotal("nan", "nan");
    SortByStartSpec(es);
    forall i | 0 <= i < |sorted| ensures StartLe(sorted[i], x) && StartLe(x, sorted[i]) {
      assert sorted[i] in multiset(es);
      var k :| 0 <= k < |es| && es[k] == sorted[i];
      assert es[k].start == "nan";
    }
    Sorting.TiesAll(sorted, x, StartLe);
    Sorting.TiesAll(es, x, StartLe);
  }

  /** `format_schedule_message`: greeting and date header, then either the
      "no schedule" line or one line per item in start-time order, then the
      footer; None when `sorted` raises. */
  method FormatScheduleMessage(list: seq<Item>, date: string) returns (message: Option<string>)
    ensures message == DirectMessage(list, date)
  {
    var text := Greeting;
    text := text + DateHeader(date);
    if |list| == 0 {
      text := text + NoSchedule;
      text := text + Footer;
      return Some(text);
    }
    if MixedStarts(list) {
      return None;
    }
    var sorted := SortByStart(AsEntries(list));
    text := AppendEach(text, sorted, EntryLine);
    text := text + "\n" + Footer;
    message := Some(text);
  }

  /** `send_daily_schedule(csv_file, target_date, channel)`: read, format, post.
      A day without items still posts the "no schedule" message; when formatting
      raises, the `except` returns False and nothing is posted. */
  method SendDailySchedule(file: CsvFile, date: string, channel: Option<string>,
                           http: Webhook.HttpOutcome) returns (a: Webhook.Attempt)
    ensures DirectMessage(ScheduleOf(file, date), date).None? ==> a == Webhook.Attempt(None, false)
    ensures DirectMessage(ScheduleOf(file, date), date).Some? ==>
              var d := Webhook.SendMessage(DirectMessage(ScheduleOf(file, date), date).value, channel, http);
              a == Webhook.Attempt(Some(d.payload), d.ok)
    ensures a.ok <==> a.posted.Some? && http == Webhook.Response(200)
    ensures ScheduleOf(file, date) == [] ==>
              a.posted.Some? && a.posted.value.text == Greeting + DateHeader(date) + NoSchedule + Footer
  {
    var list := ReadCsvSchedule(file, date);
    var message := FormatScheduleMessage(list, date);
    if message.None? {
      return Webhook.Attempt(None, false);
    }
    var d := Webhook.SendMessage(message.value, channel, http);
    a := Webhook.Attempt(Some(d.payload), d.ok);
  }
}
