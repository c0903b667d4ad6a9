/** Event envelopes and the analytics facts extracted from them.
    Both fact sinks (the Postgres consumer and the batched ClickHouse store)
    route and extract in the same way, so the extraction is stated once here. */
module Facts {

  /** A JSON value carried in an envelope's data. Only strings and numbers are
      ever read by the code modelled here. */
  datatype Value = Text(text: string) | Number(number: real) | Opaque

  datatype Topic =
    | ConversationOpened
    | ConversationClosed
    | InteractionCreated
    | InteractionUpdated
    | InteractionAssigned
    | InteractionCompleted
    | UsageRecorded
    | Unrelated(name: string)

  datatype Envelope = Envelope(
    id: string,
    topic: Topic,
    subject: string,
    tenantId: string,
    time: int,
    data: map<string, Value>)

  /** One row of interaction_fact or usage_fact. */
  datatype Row =
    | InteractionRow(eventId: string, tenantId: string, interactionId: string,
                     channel: string, direction: string, status: string, occurredAt: int)
    | UsageRow(eventId: string, tenantId: string, metric: string, amount: int, occurredAt: int)

  datatype Extraction = Ignored | Fact(row: Row)

  function TextAt(data: map<string, Value>, key: string): string {
    if key in data && data[key].Text? then data[key].text else ""
  }

  /** Go's conversion of a number to an integer drops the fraction. */
  function Truncated(x: real): int {
    if x >= 0.0 then x.Floor else -(-x).Floor
  }

  function NumberAt(data: map<string, Value>, key: string): int {
    if key in data && data[key].Number? then Truncated(data[key].number) else 0
  }

  /** The interaction an event is about: its subject, or the id inside data. */
  function SubjectOf(env: Envelope): string {
    if env.subject == "" then TextAt(env.data, "interaction_id") else env.subject
  }

  /** The row an envelope contributes, if any. */
  function Extract(env: Envelope): Extraction {
    match env.topic
    case InteractionCreated | InteractionUpdated | InteractionCompleted =>
      if SubjectOf(env) == "" then Ignored
      else
        var status := TextAt(env.data, "status");
        Fact(InteractionRow(env.id, env.tenantId, SubjectOf(env),
                            TextAt(env.data, "channel"), TextAt(env.data, "direction"),
                            if status == "" then "unknown" else status, env.time))
    case UsageRecorded =>
      Fact(UsageRow(env.id, env.tenantId, TextAt(env.data, "metric"),
                    NumberAt(env.data, "output_tokens"), env.time))
    case _ => Ignored
  }
}
