/** What webhook deliveries come to over whole runs: deduplication, the conversation rows, the
    queue inserts, and which public actions a conversation's messages leave standing. */
module Ingress {
  import opened Domain
  import opened Text
  import opened Workflow
  import opened Conversation
  import opened MessageOrder
  import opened Database
  import opened Protocol
  import opened Invariants

  // ---- Deduplication -----------------------------------------------------------------------------

  /** Nothing of a delivery is forgotten: its id and its message stay in the tables. */
  lemma {:induction false} DeliveriesAreKept(cfg: Config, early: Run, run: Run)
    requires IsRun(cfg, early) && IsRun(cfg, run) && IsPrefix(early, run)
    ensures Last(cfg, early).db.rawEvents <= Last(cfg, run).db.rawEvents
    ensures forall m :: m in Last(cfg, early).db.messages ==> m in Last(cfg, run).db.messages
  {
    hide Next, Enabled;
    if early != run {
      DeliveriesAreKept(cfg, early, run.before);
      StepKeepsDeliveries(cfg, Last(cfg, run.before), run.act, run.at);
    }
  }

  lemma StepKeepsDeliveries(cfg: Config, s: Sys, act: Act, at: int)
    requires Enabled(cfg, s, act, at)
    ensures s.db.rawEvents <= Next(cfg, s, act, at).db.rawEvents
    ensures forall m :: m in s.db.messages ==> m in Next(cfg, s, act, at).db.messages
  {
    hide Decide, StageAfter, MarkedRow;
  }

  /** A delivery id in the tables changes nothing. A stored message under a new delivery id adds
      that id to the raw events and changes the row of the stored message's conversation. */
  lemma DuplicateStep(cfg: Config, s: Sys, d: Delivery, at: int)
    requires Enabled(cfg, s, Deliver(d), at)
    requires d.eventId in s.db.rawEvents
             || (d.payload.MessagePayload? && FindMessage(s.db.messages, KeyOf(d.payload.message)).Some?)
    ensures OnlyRefreshes(s, d, Next(cfg, s, Deliver(d), at))
  {
    assert d.eventId in s.db.rawEvents ==> s.db.rawEvents + {d.eventId} == s.db.rawEvents;
  }

  /** Between the two states no message, agent run, outbox row, handler or worker has changed,
      nothing at all if the delivery id was known, and otherwise, besides the raw events, only
      the row of one conversation: that of the message as it was first stored. */
  predicate OnlyRefreshes(s: Sys, d: Delivery, s': Sys) {
    && s'.handlers == s.handlers && s'.workers == s.workers
    && (d.eventId in s.db.rawEvents ==> s'.db == s.db)
    && (d.eventId !in s.db.rawEvents ==>
          && d.payload.MessagePayload?
          && var stored := FindMessage(s.db.messages, KeyOf(d.payload.message));
          && stored.Some?
          && var where := ConversationOf(stored.value);
          && where in s'.db.conversations
          && s'.db == s.db.(rawEvents := s.db.rawEvents + {d.eventId},
                            conversations := s.db.conversations[where := s'.db.conversations[where]]))
  }

  /** Both levels of deduplication over whole runs. Once a delivery has committed, at whatever
      earlier point of the run, another with its id, or with its message under any id, starts no
      workflow and at most refreshes the row of the conversation. */
  lemma RedeliveryStartsNothing(cfg: Config, early: Run, run: Run)
    requires IsRun(cfg, run) && run.Then? && run.act.Deliver?
    requires IsRun(cfg, early) && IsPrefix(early, run.before) && early.Then? && early.act.Deliver?
    requires var d, d' := early.act.delivery, run.act.delivery;
             || d'.eventId == d.eventId
             || (d.eventId !in Last(cfg, early.before).db.rawEvents && d.payload.MessagePayload? && d'.payload.MessagePayload?
                 && KeyOf(d'.payload.message) == KeyOf(d.payload.message))
    ensures OnlyRefreshes(Last(cfg, run.before), run.act.delivery, Last(cfg, run))
  {
    hide OnlyRefreshes;
    CommittedDelivery(cfg, early);
    DeliveriesAreKept(cfg, early, run.before);
    DuplicateStep(cfg, Last(cfg, run.before), run.act.delivery, run.at);
  }

  lemma CommittedDelivery(cfg: Config, early: Run)
    requires IsRun(cfg, early) && early.Then? && early.act.Deliver?
    ensures early.act.delivery.eventId in Last(cfg, early).db.rawEvents
    ensures var d := early.act.delivery;
            d.eventId !in Last(cfg, early.before).db.rawEvents && d.payload.MessagePayload? ==>
              exists m :: m in Last(cfg, early).db.messages && KeyOf(m) == KeyOf(early.act.delivery.payload.message)
  {
    var db, d := Last(cfg, early.before).db, early.act.delivery;
    if d.payload.MessagePayload? && d.eventId !in db.rawEvents {
      var found := FindMessage(db.messages, KeyOf(d.payload.message));
      if found.Some? {
        assert found.value in Last(cfg, early).db.messages;
      } else {
        assert d.payload.message in Last(cfg, early).db.messages;
      }
    }
  }

  // ---- What a delivery writes ----------------------------------------------------------------------

  /** The row of a conversation, or the row a new conversation starts from. */
  function StoredRow(db: Db, where: ConversationKey): ConversationRow {
    if where in db.conversations then db.conversations[where]
    else ConversationRow(None, None, None, None, None, None, true, false)
  }

  /** The tables with this event of a new delivery in them. */
  function WithEvent(cfg: Config, db: Db, eventId: string, where: ConversationKey, e: ConversationEvent): Db {
    db.(rawEvents := db.rawEvents + {eventId},
        conversations := db.conversations[where := AfterEvent(cfg.ttl, StoredRow(db, where), e)])
  }

  /** What the first transaction of a delivery leaves behind, case by case: nothing for a known
      delivery id; only the id for a payload that is neither a message nor a channel event; the
      folded event of a channel payload; for a stored message the event of the message as stored;
      and for a new one the message as well, with a handler for it exactly if it is a customer
      turn with some text. */
  lemma DeliverWrites(cfg: Config, s: Sys, d: Delivery, at: int)
    requires MessagesOk(s.db) && Enabled(cfg, s, Deliver(d), at)
    ensures var s' := Next(cfg, s, Deliver(d), at);
            if d.eventId in s.db.rawEvents then s'.db == s.db && s'.handlers == s.handlers
            else
              match d.payload
              case OtherPayload => s'.db == s.db.(rawEvents := s.db.rawEvents + {d.eventId}) && s'.handlers == s.handlers
              case ChannelPayload(where, meta) =>
                s'.db == WithEvent(cfg, s.db, d.eventId, where, ChannelChanged(meta)) && s'.handlers == s.handlers
              case MessagePayload(m) =>
                && (forall o :: o in s.db.messages && o.tenant == m.tenant && o.channel == m.channel && o.id == m.id ==>
                      var where := ConversationKey(o.tenant, o.channel, o.conversation);
                      && s'.db == WithEvent(cfg, s.db, d.eventId, where, MessageSeen(o))
                      && s'.handlers == s.handlers)
                && ((forall o :: o in s.db.messages ==> !(o.tenant == m.tenant && o.channel == m.channel && o.id == m.id)) ==>
                      var where := ConversationKey(m.tenant, m.channel, m.conversation);
                      var db := WithEvent(cfg, s.db, d.eventId, where, MessageSeen(m));
                      && s'.db == db.(messages := s.db.messages + [m])
                      && s'.handlers == s.handlers
                           + if m.direction == Inbound && m.visibility == Public && m.author == Customer
                                && exists i :: 0 <= i < |m.content| && !cfg.lex.space(m.content[i])
                             then [Admitted(m, RowToState(db.conversations[where]).value)] else [])
  {
    hide AfterEvent, RunRecorded, StageAfter, MarkedRow;
    var db := s.db;
    assert d.eventId in db.rawEvents ==> db.rawEvents + {d.eventId} == db.rawEvents;
    if d.payload.MessagePayload? && d.eventId !in db.rawEvents {
      var found := FindMessage(db.messages, KeyOf(d.payload.message));
      assert forall o :: o in db.messages && KeyOf(o) == KeyOf(d.payload.message) ==> found == Some(o);
    }
  }

  /** The first transaction goes through exactly if the delivery id is known, or the payload is
      neither a message nor a channel event, or the status it leaves in the row can be read. */
  lemma DeliverGoesThrough(cfg: Config, s: Sys, d: Delivery, at: int)
    ensures Enabled(cfg, s, Deliver(d), at) <==>
              || d.eventId in s.db.rawEvents
              || d.payload.OtherPayload?
              || (d.payload.ChannelPayload? && Readable(s.db, d.payload.where, d.payload.meta))
              || (d.payload.MessagePayload?
                  && var known := FindMessage(s.db.messages, KeyOf(d.payload.message));
                     var m := if known.Some? then known.value else d.payload.message;
                     Readable(s.db, ConversationOf(m), m.meta))
  {
    hide RunRecorded, Delivered;
    if EventOf(s.db, d).Some? {
      ReadBack(RowAfter(cfg, s.db, EventOf(s.db, d).value));
    }
  }

  predicate Readable(db: Db, where: ConversationKey, meta: ChannelMeta) {
    var status := if meta.status.Some? then meta.status
                  else if where in db.conversations then db.conversations[where].status else None;
    status in {None, Some(""), Some("open"), Some("pending"), Some("resolved")}
  }

  /** What the second transaction leaves behind: one agent run for the message, and the row its
      decision asks for unless one with the same key is there. */
  lemma RunWrites(cfg: Config, s: Sys, act: Act, at: int)
    requires act.RunWorkflow? && Enabled(cfg, s, act, at)
    ensures var s' := Next(cfg, s, act, at);
            var p := s.handlers[act.h];
            var m := p.message;
            var d := Decide(cfg.lex, m, p.conversation, act.catalog, act.mode, at, act.reply);
            var asked := QueuedRow(act.mode, m, d, act.catalog, at);
            && s'.handlers == s.handlers[act.h := Finished] && s'.workers == s.workers
            && s'.db.runs == s.db.runs + [MessageKey(m.tenant, m.channel, m.id)]
            && s'.db.outbox == (if asked.Some? && forall i :: 0 <= i < |s.db.outbox| ==> s.db.outbox[i].key != asked.value.key
                                then s.db.outbox + [asked.value] else s.db.outbox)
            && s'.db.rawEvents == s.db.rawEvents && s'.db.messages == s.db.messages
            && s'.db.conversations == s.db.conversations
  {
    hide Decide, QueuedRow;
  }

  // ---- Conversation rows -------------------------------------------------------------------------

  /** The event, if any, that a step adds to the conversation: a channel event or a message under
      a new delivery id; a message that is already stored counts as it was stored. */
  function EventAt(db: Db, act: Act, where: ConversationKey): Option<ConversationEvent> {
    if !act.Deliver? || act.delivery.eventId in db.rawEvents then None
    else
      match act.delivery.payload
      case OtherPayload => None
      case ChannelPayload(of, meta) => if of == where then Some(ChannelChanged(meta)) else None
      case MessagePayload(m) =>
        var known := FindMessage(db.messages, KeyOf(m));
        if known.Some? then if ConversationOf(known.value) == where then Some(MessageSeen(known.value)) else None
        else if ConversationOf(m) == where then Some(MessageSeen(m)) else None
  }

  /** The events of one conversation, in the order their deliveries committed. */
  function Events(cfg: Config, run: Run, where: ConversationKey): seq<ConversationEvent>
    requires IsRun(cfg, run)
  {
    if run.Begin? then []
    else
      var event := EventAt(Last(cfg, run.before).db, run.act, where);
      Events(cfg, run.before, where) + if event.Some? then [event.value] else []
  }

  /** One step: the row takes the event, or stays as it is. */
  lemma RowTakesEvent(cfg: Config, s: Sys, act: Act, at: int, where: ConversationKey)
    requires Enabled(cfg, s, act, at)
    ensures var db', event := Next(cfg, s, act, at).db, EventAt(s.db, act, where);
            if event.None? then
              && (where in db'.conversations <==> where in s.db.conversations)
              && (where in db'.conversations ==> db'.conversations[where] == s.db.conversations[where])
            else
              where in db'.conversations
              && db'.conversations[where] == AfterEvent(cfg.ttl, RowAt(s.db, where), event.value)
  {
    hide Decide, StageAfter, MarkedRow;
  }

  lemma FoldNext(ttl: int, events: seq<ConversationEvent>, event: ConversationEvent)
    ensures FoldEvents(ttl, events + [event]) == AfterEvent(ttl, FoldEvents(ttl, events), event)
  {
    assert (events + [event])[..|events|] == events;
  }

  /** In every reachable state a conversation's row is the fold of its events, and there is a
      row exactly when there was an event. */
  lemma {:induction false} RowIsFold(cfg: Config, run: Run, where: ConversationKey)
    requires IsRunFromStart(cfg, run)
    ensures where in Last(cfg, run).db.conversations <==> Events(cfg, run, where) != []
    ensures where in Last(cfg, run).db.conversations ==>
              Last(cfg, run).db.conversations[where] == FoldEvents(cfg.ttl, Events(cfg, run, where))
  {
    hide Next, Enabled, AfterEvent;
    if run.Then? {
      RowIsFold(cfg, run.before, where);
      RowTakesEvent(cfg, Last(cfg, run.before), run.act, run.at, where);
      var event := EventAt(Last(cfg, run.before).db, run.act, where);
      assert RowAt(Last(cfg, run.before).db, where) == FoldEvents(cfg.ttl, Events(cfg, run.before, where));
      if event.None? {
        assert Events(cfg, run, where) == Events(cfg, run.before, where);
      } else {
        assert Events(cfg, run, where) == Events(cfg, run.before, where) + [event.value];
        FoldNext(cfg.ttl, Events(cfg, run.before, where), event.value);
      }
    }
  }

  /** So every reachable row has a readable status and a takeover window in step with the last
      human reply, with the values the last events gave it. */
  lemma ReachableRow(cfg: Config, run: Run, where: ConversationKey)
    requires IsRunFromStart(cfg, run) && where in Last(cfg, run).db.conversations
    ensures var row, events := Last(cfg, run).db.conversations[where], Events(cfg, run, where);
            && events != []
            && KnownStatus(row.status) && WindowMatches(cfg.ttl, row)
            && var last := MetaOf(events[|events| - 1]);
            && (row.paused <==> last.paused || "wootpilot-paused" in last.labels || last.attributePaused)
            && row.agent == last.agent && row.team == last.team
            && (row.replyable <==> LastDeciderAt(events) < 0 || DecidesOpen(events[LastDeciderAt(events)]))
            && row.status == (if LastStatusAt(events) < 0 then None else MetaOf(events[LastStatusAt(events)]).status)
  {
    InvHolds(cfg, run);
    RowIsFold(cfg, run, where);
    FoldSummary(cfg.ttl, Events(cfg, run, where));
    ReplyableSummary(cfg.ttl, Events(cfg, run, where));
  }

  /** The human replies among the events come in the order of their time stamps. */
  predicate RepliesInOrder(events: seq<ConversationEvent>) {
    forall j, k :: 0 <= j < k < |events| && SentByHuman(events[j]) && SentByHuman(events[k]) ==>
      events[j].message.createdAt <= events[k].message.createdAt
  }

  lemma {:induction false} EventsGrow(cfg: Config, early: Run, run: Run, where: ConversationKey)
    requires IsRun(cfg, early) && IsRun(cfg, run) && IsPrefix(early, run)
    ensures Events(cfg, early, where) <= Events(cfg, run, where)
  {
    hide Next, Enabled;
    if early != run {
      EventsGrow(cfg, early, run.before, where);
    }
  }

  /** When the human replies of a conversation are handled in the order of their time stamps,
      its takeover window, once open, only ever moves later. */
  lemma WindowNeverMovesBack(cfg: Config, early: Run, run: Run, where: ConversationKey)
    requires IsRunFromStart(cfg, run) && IsRun(cfg, early) && IsPrefix(early, run)
    requires RepliesInOrder(Events(cfg, run, where))
    requires where in Last(cfg, early).db.conversations
    requires Last(cfg, early).db.conversations[where].humanActiveUntil.Some?
    ensures where in Last(cfg, run).db.conversations
    ensures var row, row' := Last(cfg, early).db.conversations[where], Last(cfg, run).db.conversations[where];
            row'.humanActiveUntil.Some? && row'.humanActiveUntil.value >= row.humanActiveUntil.value
  {
    hide Next, Enabled, FoldEvents, RepliesInOrder;
    PrefixIsRun(cfg, early, run);
    RowIsFold(cfg, early, where);
    RowIsFold(cfg, run, where);
    EventsGrow(cfg, early, run, where);
    WindowMovesOn(cfg.ttl, Events(cfg, early, where), Events(cfg, run, where));
  }

  lemma WindowMovesOn(ttl: int, before: seq<ConversationEvent>, after: seq<ConversationEvent>)
    requires before != [] && before <= after && RepliesInOrder(after)
    requires FoldEvents(ttl, before).humanActiveUntil.Some?
    ensures FoldEvents(ttl, after).humanActiveUntil.Some?
    ensures FoldEvents(ttl, after).humanActiveUntil.value >= FoldEvents(ttl, before).humanActiveUntil.value
  {
    FoldSummary(ttl, before);
    FoldSummary(ttl, after);
    var h, h' := LastHumanReplyAt(before), LastHumanReplyAt(after);
    assert after[h] == before[h] && SentByHuman(after[h]) && SentByHuman(after[h']);
  }

  // ---- Queue inserts -----------------------------------------------------------------------------

  predicate ColonFreeIds(m: Message) {
    ColonFree(m.tenant) && ColonFree(m.channel) && ColonFree(m.conversation) && ColonFree(m.id)
  }

  /** The unique key never refuses the action of a message whose own ids are colon-free: what
      its workflow run asks for is queued, whatever ids other messages have. */
  lemma QueueRefusesNothing(cfg: Config, run: Run)
    requires IsRunFromStart(cfg, run) && run.Then? && run.act.RunWorkflow?
    requires ColonFreeIds(Last(cfg, run.before).handlers[run.act.h].message)
    ensures var s := Last(cfg, run.before);
            var p := s.handlers[run.act.h];
            var decision := Decide(cfg.lex, p.message, p.conversation, run.act.catalog, run.act.mode, run.at, run.act.reply);
            var row := QueuedRow(run.act.mode, p.message, decision, run.act.catalog, run.at);
            Last(cfg, run).db.outbox == s.db.outbox + if row.Some? then [row.value] else []
  {
    InvHolds(cfg, run.before);
    var s := Last(cfg, run.before);
    var m := s.handlers[run.act.h].message;
    var given := s.handlers[run.act.h].conversation;
    var decision := Decide(cfg.lex, m, given, run.act.catalog, run.act.mode, run.at, run.act.reply);
    var row := QueuedRow(run.act.mode, m, decision, run.act.catalog, run.at);
    if row.Some? {
      forall i | 0 <= i < |s.db.outbox| ensures s.db.outbox[i].key != row.value.key {
        NoSharedKey(cfg, s, i, m, row.value.kind);
      }
    }
  }

  lemma NoSharedKey(cfg: Config, s: Sys, i: nat, m: Message, kind: ActionKind)
    requires RowsOk(cfg, s) && SourcesOk(s.db) && i < |s.db.outbox|
    requires KeyOf(m) !in s.db.runs && ColonFreeIds(m)
    ensures s.db.outbox[i].key != IdempotencyKey(m.tenant, m.channel, m.conversation, m.id, kind)
  {
    var r := s.db.outbox[i];
    assert RowOk(cfg, r, s.now);
    assert SourceKey(r) in s.db.runs;
    if r.key == IdempotencyKey(m.tenant, m.channel, m.conversation, m.id, kind) {
      KeysAreInjective(m.tenant, m.channel, m.conversation, m.id, kind,
                       r.tenant, r.channel, r.conversation, r.source, r.kind);
    }
  }

  // ---- Supersession ------------------------------------------------------------------------------

  /** In every reachable state whose conversation has canonical message ids, at most one of its
      public actions is not superseded, and one that answers the newest customer message is not. */
  lemma OnePublicActionStands(cfg: Config, run: Run, where: ConversationKey)
    requires IsRunFromStart(cfg, run)
    requires forall m :: m in Last(cfg, run).db.messages && ConversationOf(m) == where ==>
               Canonical(m.id) && cfg.lex.number(m.id) == Some(NumericValue(m.id))
    ensures var db := Last(cfg, run).db;
            forall i, j :: 0 <= i < j < |db.outbox| && db.outbox[i].kind == db.outbox[j].kind == PublicMessage
                           && RowConversation(db.outbox[i]) == RowConversation(db.outbox[j]) == where ==>
                             IsSuperseded(cfg, db, db.outbox[i]) || IsSuperseded(cfg, db, db.outbox[j])
    ensures var db := Last(cfg, run).db;
            forall i :: 0 <= i < |db.outbox| && RowConversation(db.outbox[i]) == where
                        && (exists m :: Newest(db.messages, where, m) && m.id == db.outbox[i].source) ==>
                          !IsSuperseded(cfg, db, db.outbox[i])
  {
    hide Next, Enabled, HasNewerCustomerMessage, Stands, Newest, IsSuperseded;
    InvHolds(cfg, run);
    var db := Last(cfg, run).db;
    ConversationHasDistinctIds(db, where);
    forall i, j | 0 <= i < j < |db.outbox| && db.outbox[i].kind == db.outbox[j].kind == PublicMessage
                  && RowConversation(db.outbox[i]) == RowConversation(db.outbox[j]) == where
      ensures IsSuperseded(cfg, db, db.outbox[i]) || IsSuperseded(cfg, db, db.outbox[j])
    {
      OneOfTwoIsSuperseded(cfg, db, where, i, j);
    }
    forall i | 0 <= i < |db.outbox| && RowConversation(db.outbox[i]) == where
               && exists m :: Newest(db.messages, where, m) && m.id == db.outbox[i].source
      ensures !IsSuperseded(cfg, db, db.outbox[i])
    {
      NewestActionStands(cfg, db, where, i);
    }
  }

  lemma NewestActionStands(cfg: Config, db: Db, where: ConversationKey, i: nat)
    requires WellNumbered(cfg.lex.number, db.messages, where)
    requires i < |db.outbox| && RowConversation(db.outbox[i]) == where
    requires exists m :: Newest(db.messages, where, m) && m.id == db.outbox[i].source
    ensures !IsSuperseded(cfg, db, db.outbox[i])
  {
    hide HasNewerCustomerMessage, Newest, WellNumbered;
    var m :| Newest(db.messages, where, m) && m.id == db.outbox[i].source;
    NewestIsNotSuperseded(cfg.lex.number, db.messages, where, m);
  }

  lemma OneOfTwoIsSuperseded(cfg: Config, db: Db, where: ConversationKey, i: nat, j: nat)
    requires SourcesOk(db) && WellNumbered(cfg.lex.number, db.messages, where)
    requires i < j < |db.outbox| && db.outbox[i].kind == db.outbox[j].kind == PublicMessage
    requires RowConversation(db.outbox[i]) == RowConversation(db.outbox[j]) == where
    ensures IsSuperseded(cfg, db, db.outbox[i]) || IsSuperseded(cfg, db, db.outbox[j])
  {
    hide HasNewerCustomerMessage, Stands, Newest, IsSuperseded;
    var a := AnsweredMessage(db, i);
    var b := AnsweredMessage(db, j);
    var newest := OnlyNewestSurvives(cfg.lex.number, db.messages, where);
    AnswerStands(cfg, db, i, a);
    AnswerStands(cfg, db, j, b);
    assert SourceKey(db.outbox[i]) != SourceKey(db.outbox[j]);
  }

  lemma AnswerStands(cfg: Config, db: Db, i: nat, m: Message)
    requires SourcesOk(db) && i < |db.outbox| && db.outbox[i].kind == PublicMessage
    requires m in db.messages && AnsweredBy(m, db.outbox[i])
    ensures !IsSuperseded(cfg, db, db.outbox[i]) <==> Stands(cfg.lex.number, db.messages, RowConversation(db.outbox[i]), m)
  {
  }

  lemma NewestIsNotSuperseded(number: Reading, messages: seq<Message>, where: ConversationKey, m: Message)
    requires WellNumbered(number, messages, where) && Newest(messages, where, m)
    ensures !HasNewerCustomerMessage(number, messages, where, m.id)
  {
    CheckRefinesOrder(number, messages, where, m);
  }

  /** Whatever the ids look like, in every reachable state a public action is not superseded
      exactly when the message it answers is last among the latest of its conversation. */
  lemma ActionStandsIffLast(cfg: Config, run: Run, i: nat) returns (m: Message)
    requires IsRunFromStart(cfg, run)
    requires i < |Last(cfg, run).db.outbox| && Last(cfg, run).db.outbox[i].kind == PublicMessage
    ensures m in Last(cfg, run).db.messages && AnsweredBy(m, Last(cfg, run).db.outbox[i])
    ensures var db := Last(cfg, run).db;
            var where := RowConversation(db.outbox[i]);
            !IsSuperseded(cfg, db, db.outbox[i])
            <==> IsLast(cfg.lex.number, db.messages, where, m)
  {
    InvHolds(cfg, run);
    var db := Last(cfg, run).db;
    m := AnsweredMessage(db, i);
    ConversationHasDistinctIds(db, RowConversation(db.outbox[i]));
    StandsIffLast(cfg.lex.number, db.messages, RowConversation(db.outbox[i]), m);
  }

  /** In every reachable state, for every action and the message it answers: it is superseded
      exactly if it is public and a customer message of its conversation came in later, by time
      stamp, or at the same time with an id that reads as a greater number or, unless both read
      as numbers, comes after as text. A private note never is. */
  lemma SupersededIff(cfg: Config, run: Run, i: nat) returns (answered: Message)
    requires IsRunFromStart(cfg, run) && i < |Last(cfg, run).db.outbox|
    ensures var db := Last(cfg, run).db;
            var row := db.outbox[i];
            && answered in db.messages
            && answered.tenant == row.tenant && answered.channel == row.channel
            && answered.conversation == row.conversation && answered.id == row.source
            && (IsSuperseded(cfg, db, row) <==>
                  row.kind == PublicMessage
                  && exists m :: m in db.messages && ComesLater(cfg.lex.number, m, answered))
  {
    InvHolds(cfg, run);
    var db := Last(cfg, run).db;
    answered := AnsweredMessage(db, i);
    ConversationHasDistinctIds(db, RowConversation(db.outbox[i]));
    SupersededByLater(cfg, db, db.outbox[i], answered);
  }

  predicate ComesLater(number: Reading, m: Message, than: Message) {
    && m.tenant == than.tenant && m.channel == than.channel && m.conversation == than.conversation
    && m.direction == Inbound && m.visibility == Public && m.author == Customer
    && (m.createdAt > than.createdAt
        || (m.createdAt == than.createdAt && m.id != than.id
            && match (number(m.id), number(than.id))
               case (Some(a), Some(b)) => a > b
               case _ => TextAfter(m.id, than.id)))
  }

  lemma SupersededByLater(cfg: Config, db: Db, row: Row, answered: Message)
    requires DistinctIds(db.messages, RowConversation(row))
    requires answered in db.messages && ConversationOf(answered) == RowConversation(row) && answered.id == row.source
    ensures IsSuperseded(cfg, db, row) <==>
              row.kind == PublicMessage && exists m :: m in db.messages && ComesLater(cfg.lex.number, m, answered)
  {
    assert SourceMessage(db.messages, RowConversation(row), row.source) == Some(answered);
    var where, number := RowConversation(row), cfg.lex.number;
    assert forall m :: ComesLater(number, m, answered) <==>
             CustomerTurnIn(m, where)
             && (m.createdAt > answered.createdAt
                 || (m.createdAt == answered.createdAt && m.id != answered.id && IdIsAfter(number, m.id, answered.id)));
  }

  lemma AnsweredMessage(db: Db, i: nat) returns (m: Message)
    requires SourcesOk(db) && i < |db.outbox|
    ensures m in db.messages && AnsweredBy(m, db.outbox[i]) && m.id == db.outbox[i].source
    ensures CustomerTurnIn(m, RowConversation(db.outbox[i]))
  {
    assert SourceKey(db.outbox[i]) in db.runs;
    m :| m in db.messages && AnsweredBy(m, db.outbox[i]);
  }

  lemma ConversationHasDistinctIds(db: Db, where: ConversationKey)
    requires MessagesOk(db)
    ensures DistinctIds(db.messages, where)
  {
  }
}
