/** The shared tables, and what one committed webhook transaction or workflow run does to them. */
module Database {
  import opened Domain
  import opened Text
  import opened Policy
  import opened Workflow
  import opened Conversation

  /** Settings that a run of the system does not change. */
  datatype Config = Config(lex: Lexicon, maxAttempts: int, retryDelay: int, replyDelay: int, ttl: int)

  /** How many sends an action may get. */
  function AttemptLimit(cfg: Config): nat {
    if cfg.maxAttempts >= 1 then cfg.maxAttempts else 1
  }

  /** The tables: raw events by provider event id, messages, conversation rows, one entry per
      agent run, and the outbox. */
  datatype Db = Db(
    rawEvents: set<string>,
    messages: seq<Message>,
    conversations: map<ConversationKey, ConversationRow>,
    runs: seq<MessageKey>,
    outbox: seq<Row>)

  // ---- Webhook deliveries --------------------------------------------------------------------

  datatype Payload =
    | MessagePayload(message: Message)
    | ChannelPayload(where: ConversationKey, meta: ChannelMeta)
    | OtherPayload

  datatype Delivery = Delivery(eventId: string, payload: Payload)

  function FindMessage(messages: seq<Message>, key: MessageKey): (r: Option<Message>)
    ensures r.Some? ==> r.value in messages && KeyOf(r.value) == key
    ensures r.None? ==> forall m :: m in messages ==> KeyOf(m) != key
  {
    if messages == [] then None
    else if KeyOf(messages[0]) == key then Some(messages[0])
    else FindMessage(messages[1..], key)
  }

  function RowAt(db: Db, where: ConversationKey): ConversationRow {
    if where in db.conversations then db.conversations[where] else FRESH_CONVERSATION
  }

  /** The event a new delivery adds to a conversation. A message that is already stored counts
      as the stored one, not as the copy just delivered. */
  function EventOf(db: Db, d: Delivery): Option<(ConversationKey, ConversationEvent)> {
    if d.eventId in db.rawEvents then None
    else
      match d.payload
      case OtherPayload => None
      case ChannelPayload(where, meta) => Some((where, ChannelChanged(meta)))
      case MessagePayload(m) =>
        var found := FindMessage(db.messages, KeyOf(m));
        var stored := if found.Some? then found.value else m;
        Some((ConversationOf(stored), MessageSeen(stored)))
  }

  /** The conversation row the event leaves behind. */
  function RowAfter(cfg: Config, db: Db, e: (ConversationKey, ConversationEvent)): ConversationRow {
    AfterEvent(cfg.ttl, RowAt(db, e.0), e.1)
  }

  /** The first transaction of a delivery raises, and is rolled back, when the row it would
      write has an unknown status. */
  predicate DeliveryRaises(cfg: Config, db: Db, d: Delivery) {
    EventOf(db, d).Some? && !KnownStatus(RowAfter(cfg, db, EventOf(db, d).value).status)
  }

  /** A message nobody has stored yet. */
  predicate IsNewMessage(db: Db, d: Delivery) {
    && d.eventId !in db.rawEvents
    && d.payload.MessagePayload?
    && FindMessage(db.messages, KeyOf(d.payload.message)).None?
  }

  /** The first transaction of a delivery, up to its commit. */
  function Delivered(cfg: Config, db: Db, d: Delivery): Db
    requires !DeliveryRaises(cfg, db, d)
  {
    var event := EventOf(db, d);
    db.(rawEvents := db.rawEvents + {d.eventId},
        messages := if IsNewMessage(db, d) then db.messages + [d.payload.message] else db.messages,
        conversations := if event.Some?
          then db.conversations[event.value.0 := RowAfter(cfg, db, event.value)] else db.conversations)
  }

  /** Only a new message that is an eligible customer turn goes on to the workflow. */
  predicate StartsWorkflow(cfg: Config, db: Db, d: Delivery) {
    IsNewMessage(db, d) && Eligible(cfg.lex, d.payload.message)
  }

  /** The conversation state the workflow is given: the row as just written. */
  function StateGiven(cfg: Config, db: Db, d: Delivery): ConversationState
    requires !DeliveryRaises(cfg, db, d) && EventOf(db, d).Some?
  {
    RowToState(RowAfter(cfg, db, EventOf(db, d).value)).value
  }

  // ---- Workflow runs -------------------------------------------------------------------------

  /** Insert under the unique idempotency key: a second row with the same key is refused. */
  function InsertRow(rows: seq<Row>, row: Row): seq<Row> {
    if exists r :: r in rows && r.key == row.key then rows else rows + [row]
  }

  /** The second transaction: one agent run, and the row its decision queues, if any. */
  function RunRecorded(cfg: Config, db: Db, m: Message, conversation: ConversationState, mode: AutomationMode,
                       catalog: Catalog, reply: ModelResult, at: int): Db {
    var decision := Decide(cfg.lex, m, conversation, catalog, mode, at, reply);
    var row := QueuedRow(mode, m, decision, catalog, at);
    db.(runs := db.runs + [KeyOf(m)],
        outbox := if row.Some? then InsertRow(db.outbox, row.value) else db.outbox)
  }
}
