/** slack_notifier.py: class SlackNotifier (format and post the day's schedule) and
    class CalendarSlackIntegration (its callers, which skip the post when there is
    nothing to send). The calendar manager is not part of this model: what it
    returns, or that it raised, is an input. */
module Notifier {
  import opened Wrappers
  import opened Agenda
  import Text
  import Webhook

  /** The whole message for an empty schedule: no header, no footer. */
  const NoScheduleMessage: string := "📅 今日の予定はありません。"

  /** `f"🌅 おはようございます！\n📅 *{today}の予定* 📅\n\n"`, today as `%Y年%m月%d日`. */
  function Header(today: string): string {
    "🌅 おはようございます！\n📅 *" + today + "の予定* 📅\n\n"
  }

  /** The message `format_schedule_message(schedule_data)` builds. */
  function NotifierMessage(data: seq<Entry>, today: string): string {
    if |data| == 0 then NoScheduleMessage
    else Header(today) + Lines(SortByStart(data)) + "\n" + Footer
  }

  /** For a non-empty schedule: the dated header, every entry exactly once ordered by
      start time (ties in their given order), then the footer. */
  lemma NotifierMessageNonEmpty(data: seq<Entry>, today: string)
    requires |data| > 0
    ensures var sorted := SortByStart(data);
      && NotifierMessage(data, today) == Header(today) + Lines(sorted) + "\n" + Footer
      && multiset(sorted) == multiset(data)
      && (forall i, j :: 0 <= i < j < |sorted| ==> Text.StrLe(sorted[i].start, sorted[j].start))
      && (forall x :: Sorting.Ties(sorted, x, StartLe) == Sorting.Ties(data, x, StartLe))
  {
    SortByStartSpec(data);
  }

  /** `SlackNotifier.format_schedule_message`. */
  method FormatScheduleMessage(data: seq<Entry>, today: string) returns (message: string)
    ensures message == NotifierMessage(data, today)
  {
    if |data| == 0 {
      return NoScheduleMessage;
    }
    message := Header(today);
    var sorted := SortByStart(data);
    message := Text.AppendEach(message, sorted, EntryLine);
    message := message + "\n" + Footer;
  }

  /** `SlackNotifier.send_daily_schedule`: post the formatted message. */
  method SendDailySchedule(data: seq<Entry>, today: string, channel: Option<string>,
                           http: Webhook.HttpOutcome) returns (d: Webhook.Delivery)
    ensures d == Webhook.SendMessage(NotifierMessage(data, today), channel, http)
    ensures d.ok <==> http == Webhook.Response(200)
  {
    var message := FormatScheduleMessage(data, today);
    d := Webhook.SendMessage(message, channel, http);
  }

  /** What `calendar_manager.get_today_schedule()` did. */
  datatype Fetch = Fetched(entries: seq<Entry>) | FetchRaised

  /** What `calendar_manager.create_events_from_csv(path)` did: the events it
      created, or an exception. */
  datatype Import = Created(events: nat) | ImportRaised

  /** `send_today_schedule_to_slack(channel)`: nothing is posted and false is
      returned when fetching raised or today has no entries; otherwise the post's
      result is returned. */
  method SendTodayScheduleToSlack(fetch: Fetch, today: string, channel: Option<string>,
                                  http: Webhook.HttpOutcome) returns (a: Webhook.Attempt)
    ensures (fetch.FetchRaised? || fetch.entries == []) ==> a == Webhook.Attempt(None, false)
    ensures fetch.Fetched? && fetch.entries != [] ==>
              a.posted == Some(Webhook.BuildPayload(NotifierMessage(fetch.entries, today), channel)) &&
              (a.ok <==> http == Webhook.Response(200))
  {
    if fetch.FetchRaised? {
      return Webhook.Attempt(None, false);
    }
    if |fetch.entries| == 0 {
      return Webhook.Attempt(None, false);
    }
    var d := SendDailySchedule(fetch.entries, today, channel, http);
    a := Webhook.Attempt(Some(d.payload), d.ok);
  }

  /** `import_csv_and_send_notification(csv_file_path, channel)`: nothing is posted
      and false is returned unless the import created at least one event; then it
      is `send_today_schedule_to_slack`. */
  method ImportCsvAndSendNotification(imported: Import, fetch: Fetch, today: string,
                                      channel: Option<string>, http: Webhook.HttpOutcome)
    returns (a: Webhook.Attempt)
    ensures (imported.ImportRaised? || imported.events == 0) ==> a == Webhook.Attempt(None, false)
    ensures a.posted.Some? <==>
              imported.Created? && imported.events > 0 && fetch.Fetched? && fetch.entries != []
    ensures a.posted.Some? ==>
              a.posted == Some(Webhook.BuildPayload(NotifierMessage(fetch.entries, today), channel))
    ensures a.ok <==> a.posted.Some? && http == Webhook.Response(200)
  {
    if imported.ImportRaised? || imported.events == 0 {
      return Webhook.Attempt(None, false);
    }
    a := SendTodayScheduleToSlack(fetch, today, channel, http);
  }
}
