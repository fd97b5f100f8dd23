/** The schedule entries both Python senders format, and the pieces of message text
    they share: one line per entry, ordered by start time with Python's stable
    `sorted(..., key=lambda x: x['start_time'])`, which compares strings by code point. */
module Agenda {
  import opened Text
  import opened Sorting

  /** A `{'title', 'start_time', 'end_time'}` dictionary. */
  datatype Entry = Entry(title: string, start: string, end: string)

  const Footer: string := "💪 今日も一日頑張りましょう！"

  /** Entry a sorts no later than entry b. */
  predicate StartLe(a: Entry, b: Entry) {
    StrLe(a.start, b.start)
  }

  lemma StartLePreorder()
    ensures TotalPreorder(StartLe)
  {
    forall a: Entry, b: Entry ensures StartLe(a, b) || StartLe(b, a) {
      StrLeTotal(a.start, b.start);
    }
    forall a: Entry, b: Entry, c: Entry | StartLe(a, b) && StartLe(b, c) ensures StartLe(a, c) {
      StrLeTrans(a.start, b.start, c.start);
    }
  }

  function SortByStart(entries: seq<Entry>): seq<Entry> {
    Sort(entries, StartLe)
  }

  /** The sort keeps every entry exactly as often as it was given, orders them by
      start time, and keeps entries with equal start times in their given order. */
  lemma SortByStartSpec(entries: seq<Entry>)
    ensures multiset(SortByStart(entries)) == multiset(entries)
    ensures forall i, j :: 0 <= i < j < |SortByStart(entries)| ==>
              StrLe(SortByStart(entries)[i].start, SortByStart(entries)[j].start)
    ensures forall x :: Ties(SortByStart(entries), x, StartLe) == Ties(entries, x, StartLe)
  {
    StartLePreorder();
    SortSorted(entries, StartLe);
    forall x ensures Ties(SortByStart(entries), x, StartLe) == Ties(entries, x, StartLe) {
      SortStable(entries, x, StartLe);
    }
  }

  /** `f"🕐 *{start_time}-{end_time}*: {title}\n"` */
  function EntryLine(e: Entry): string {
    "🕐 *" + e.start + "-" + e.end + "*: " + e.title + "\n"
  }

  /** The lines of a list of entries, in list order: what the
      `for schedule in sorted_schedule: message += f"..."` loop both senders run
      appends (`AppendEach` with `EntryLine`). */
  function Lines(entries: seq<Entry>): string {
    ConcatMap(entries, EntryLine)
  }
}
