/** The Slack incoming-webhook call both Python senders make (`send_message` in
    csv_direct_slack.py and in slack_notifier.py have the same logic): a JSON payload
    with the text, plus the channel only when one is given, POSTed to the webhook;
    success is exactly an HTTP 200 answer, and a raised exception is a failure. */
module Webhook {
  import opened Wrappers

  /** The JSON object `{"text": ..., ["channel": ...]}`. */
  datatype Payload = Payload(text: string, channel: Option<string>)

  /** What `requests.post` did: answered with a status code, or raised. */
  datatype HttpOutcome = Response(status: int) | Raised

  /** One POST: the payload that was sent and the boolean the sender returned. */
  datatype Delivery = Delivery(payload: Payload, ok: bool)

  /** How a sender call ended: the payload it posted, if it got as far as posting,
      and the boolean it returned. */
  datatype Attempt = Attempt(posted: Option<Payload>, ok: bool)

  /** Python truthiness of an optional channel name: not None and not "". */
  predicate Truthy(channel: Option<string>) {
    channel.Some? && channel.value != ""
  }

  /** The payload always carries the message; it names a channel exactly when the
      caller passed a truthy one, and then it is that channel. */
  function BuildPayload(message: string, channel: Option<string>): (p: Payload)
    ensures p.text == message
    ensures p.channel.Some? <==> Truthy(channel)
    ensures p.channel.Some? ==> p.channel == channel
  {
    if Truthy(channel) then Payload(message, channel) else Payload(message, None)
  }

  /** `send_message(message, channel)`: true exactly when the webhook answered 200;
      any other status and any exception give false. */
  function SendMessage(message: string, channel: Option<string>, http: HttpOutcome): (d: Delivery)
    ensures d.payload == BuildPayload(message, channel)
    ensures d.ok <==> http.Response? && http.status == 200
  {
    Delivery(BuildPayload(message, channel),
             match http
             case Response(status) => status == 200
             case Raised => false)
  }
}
