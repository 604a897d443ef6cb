/** The conversation row: updated in place by message and channel webhooks, and described by a
    fold over the events of the conversation. */
module Conversation {
  import opened Domain

  datatype ConversationEvent =
    | MessageSeen(message: Message)
    | ChannelChanged(meta: ChannelMeta)

  function MetaOf(e: ConversationEvent): ChannelMeta {
    match e
    case MessageSeen(m) => m.meta
    case ChannelChanged(meta) => meta
  }

  predicate PausedBy(meta: ChannelMeta) {
    meta.paused || "wootpilot-paused" in meta.labels || meta.attributePaused
  }

  // ---- One event, as a function ---------------------------------------------------------------

  /** The replyable flag after an event. A "resolved" status clears it first. A message's own
      `can_reply` then always wins; a channel event's only while the row is not resolved. */
  function ReplyableAfter(row: ConversationRow, e: ConversationEvent): bool {
    var meta := MetaOf(e);
    var status := if meta.status.Some? then meta.status else row.status;
    var cleared := if meta.status == Some(RESOLVED) then false else row.replyable;
    if meta.canReply.Some? && (e.MessageSeen? || status != Some(RESOLVED)) then meta.canReply.value else cleared
  }

  function AfterEvent(ttl: int, row: ConversationRow, e: ConversationEvent): ConversationRow {
    var meta := MetaOf(e);
    var human := e.MessageSeen? && IsHumanPublicReply(e.message);
    ConversationRow(
      if human then Some(e.message.createdAt + ttl) else row.humanActiveUntil,
      if human then Some(e.message.createdAt) else row.lastHumanAt,
      if e.MessageSeen? && e.message.direction == Inbound && e.message.author == Customer
        then Some(e.message.createdAt) else row.lastCustomerAt,
      meta.agent,
      meta.team,
      if meta.status.Some? then meta.status else row.status,
      ReplyableAfter(row, e),
      PausedBy(meta))
  }

  function FoldEvents(ttl: int, events: seq<ConversationEvent>): ConversationRow {
    if events == [] then FRESH_CONVERSATION
    else AfterEvent(ttl, FoldEvents(ttl, events[..|events| - 1]), events[|events| - 1])
  }

  // ---- The same, in place ----------------------------------------------------------------------

  class ConversationRecord {
    var humanActiveUntil: Option<int>
    var lastHumanAt: Option<int>
    var lastCustomerAt: Option<int>
    var agent: Option<string>
    var team: Option<string>
    var status: Option<string>
    var replyable: bool
    var paused: bool

    constructor (row: ConversationRow)
      ensures Row() == row
    {
      humanActiveUntil, lastHumanAt, lastCustomerAt := row.humanActiveUntil, row.lastHumanAt, row.lastCustomerAt;
      agent, team, status := row.agent, row.team, row.status;
      replyable, paused := row.replyable, row.paused;
    }

    function Row(): ConversationRow
      reads this
    {
      ConversationRow(humanActiveUntil, lastHumanAt, lastCustomerAt, agent, team, status, replyable, paused)
    }

    /** `_apply_channel_metadata`. */
    method ApplyChannelMetadata(meta: ChannelMeta)
      modifies this`paused, this`status, this`replyable, this`agent, this`team
      ensures paused <==> meta.paused || "wootpilot-paused" in meta.labels || meta.attributePaused
      ensures agent == meta.agent && team == meta.team
      ensures status == if meta.status.Some? then meta.status else old(status)
      ensures replyable == (old(replyable) && meta.status != Some(RESOLVED))
    {
      paused := meta.paused || "wootpilot-paused" in meta.labels || meta.attributePaused;
      if meta.status.Some? {
        status := meta.status;
        if status == Some(RESOLVED) {
          replyable := false;
        }
      }
      agent := meta.agent;
      team := meta.team;
    }

    /** `_update_conversation_state`. Reading the row back raises on an unknown status text. */
    method UpdateConversationState(ttl: int, m: Message) returns (state: Option<ConversationState>)
      modifies this
      ensures Row() == AfterEvent(ttl, old(Row()), MessageSeen(m))
      ensures state == RowToState(Row())
    {
      ApplyChannelMetadata(m.meta);
      if m.meta.canReply.Some? {
        replyable := m.meta.canReply.value;
      }
      if m.direction == Inbound && m.author == Customer {
        lastCustomerAt := Some(m.createdAt);
      }
      if IsHumanPublicReply(m) {
        lastHumanAt := Some(m.createdAt);
        humanActiveUntil := Some(m.createdAt + ttl);
      }
      state := RowToState(Row());
    }

    /** `_update_channel_state`. */
    method UpdateChannelState(ttl: int, meta: ChannelMeta) returns (state: Option<ConversationState>)
      modifies this
      ensures Row() == AfterEvent(ttl, old(Row()), ChannelChanged(meta))
      ensures state == RowToState(Row())
    {
      ApplyChannelMetadata(meta);
      if meta.canReply.Some? && status != Some(RESOLVED) {
        replyable := meta.canReply.value;
      }
      state := RowToState(Row());
    }
  }

  // ---- What the fold comes to ------------------------------------------------------------------

  /** The last event that carries a status, or -1. */
  function LastStatusAt(events: seq<ConversationEvent>): (k: int)
    ensures -1 <= k < |events|
    ensures k >= 0 ==> MetaOf(events[k]).status.Some?
    ensures forall j :: k < j < |events| ==> MetaOf(events[j]).status.None?
  {
    if events == [] then -1
    else if MetaOf(events[|events| - 1]).status.Some? then |events| - 1
    else LastStatusAt(events[..|events| - 1])
  }

  /** The last human public reply, or -1. */
  function LastHumanReplyAt(events: seq<ConversationEvent>): (k: int)
    ensures -1 <= k < |events|
    ensures k >= 0 ==> SentByHuman(events[k])
    ensures forall j :: k < j < |events| ==> !SentByHuman(events[j])
  {
    if events == [] then -1
    else
      var last := events[|events| - 1];
      if last.MessageSeen? && IsHumanPublicReply(last.message) then |events| - 1
      else LastHumanReplyAt(events[..|events| - 1])
  }

  /** The last message a customer sent in, or -1. */
  function LastCustomerAt(events: seq<ConversationEvent>): (k: int)
    ensures -1 <= k < |events|
    ensures k >= 0 ==> SentByCustomer(events[k])
    ensures forall j :: k < j < |events| ==> !SentByCustomer(events[j])
  {
    if events == [] then -1
    else if SentByCustomer(events[|events| - 1]) then |events| - 1
    else LastCustomerAt(events[..|events| - 1])
  }

  predicate SentByCustomer(e: ConversationEvent) {
    e.MessageSeen? && e.message.direction == Inbound && e.message.author == Customer
  }

  predicate SentByHuman(e: ConversationEvent) {
    e.MessageSeen? && e.message.direction == Outbound && e.message.visibility == Public && e.message.author == HumanAgent
  }

  /** After any events the pause flag and both assignments are those of the last event, the
      status is that of the last event carrying one, the takeover window is that of the last
      human reply handled, and the last customer message is the last one handled. */
  lemma {:induction false} FoldSummary(ttl: int, events: seq<ConversationEvent>)
    requires events != []
    ensures var row, last := FoldEvents(ttl, events), MetaOf(events[|events| - 1]);
            var k, h, c := LastStatusAt(events), LastHumanReplyAt(events), LastCustomerAt(events);
            && (row.paused <==> last.paused || "wootpilot-paused" in last.labels || last.attributePaused)
            && row.agent == last.agent && row.team == last.team
            && row.lastCustomerAt == (if c < 0 then None else Some(events[c].message.createdAt))
            && row.status == (if k < 0 then None else MetaOf(events[k]).status)
            && row.lastHumanAt == (if h < 0 then None else Some(events[h].message.createdAt))
            && row.humanActiveUntil == (if h < 0 then None else Some(events[h].message.createdAt + ttl))
  {
    if |events| > 1 {
      FoldSummary(ttl, events[..|events| - 1]);
    }
  }

  /** What one event does to the replyable flag. A message that says whether it can be replied to
      decides; so does a channel event that says so, unless the row is resolved after it. Any
      other event clears the flag if it reports the conversation resolved, and else keeps it. */
  lemma ReplyableStep(ttl: int, row: ConversationRow, e: ConversationEvent)
    ensures var row' := AfterEvent(ttl, row, e);
            match e
            case MessageSeen(m) =>
              row'.replyable == (if m.meta.canReply == Some(true) then true
                                 else if m.meta.canReply == Some(false) || m.meta.status == Some("resolved") then false
                                 else row.replyable)
            case ChannelChanged(meta) =>
              && (row'.status != Some("resolved") && meta.canReply.Some? ==> row'.replyable == meta.canReply.value)
              && (row'.status != Some("resolved") && meta.canReply.None? ==> row'.replyable == row.replyable)
              && (row'.status == Some("resolved") ==>
                    row'.replyable == (meta.status.None? && row.replyable))
  {
  }

  /** Event `k` decides the replyable flag: it reports the conversation resolved, or it says
      whether it can be replied to and is a message or leaves the conversation unresolved. */
  predicate Decides(events: seq<ConversationEvent>, k: nat)
    requires k < |events|
  {
    var meta, j := MetaOf(events[k]), LastStatusAt(events[..k + 1]);
    || meta.status == Some("resolved")
    || (meta.canReply.Some? && (events[k].MessageSeen? || j < 0 || MetaOf(events[j]).status != Some("resolved")))
  }

  /** What it decides: what it says, except that a channel event reporting the conversation
      resolved closes it. */
  predicate DecidesOpen(e: ConversationEvent) {
    MetaOf(e).canReply == Some(true) && (e.MessageSeen? || MetaOf(e).status != Some("resolved"))
  }

  lemma DecidersPersist(events: seq<ConversationEvent>, n: nat)
    requires n <= |events|
    ensures forall j: nat :: j < n ==> (Decides(events[..n], j) <==> Decides(events, j))
  {
    forall j: nat | j < n ensures Decides(events[..n], j) <==> Decides(events, j) {
      assert events[..n][..j + 1] == events[..j + 1];
    }
  }

  /** The last event that decides the replyable flag, or -1. */
  function LastDeciderAt(events: seq<ConversationEvent>): (k: int)
    ensures -1 <= k < |events|
    ensures k >= 0 ==> Decides(events, k)
    ensures forall j :: k < j < |events| ==> !Decides(events, j)
  {
    if events == [] then -1
    else
      var n := |events| - 1;
      DecidersPersist(events, n);
      if Decides(events, n) then n else LastDeciderAt(events[..n])
  }

  /** After any events a conversation is replyable exactly when no event has decided that, or
      the last one that did left it open. */
  lemma {:induction false} ReplyableSummary(ttl: int, events: seq<ConversationEvent>)
    ensures var k := LastDeciderAt(events);
            FoldEvents(ttl, events).replyable <==> k < 0 || DecidesOpen(events[k])
  {
    if events != [] {
      var n := |events| - 1;
      ReplyableSummary(ttl, events[..n]);
      FoldSummary(ttl, events);
      assert events[..n + 1] == events;
      ReplyableStep(ttl, FoldEvents(ttl, events[..n]), events[n]);
    }
  }

  predicate ResolvedIsClosed(row: ConversationRow) {
    row.status == Some(RESOLVED) ==> !row.replyable
  }

  /** Channel events keep "resolved implies not replyable"; a message breaks it exactly when it
      leaves the row resolved while its own `can_reply` is true. */
  lemma ResolvedStaysClosed(ttl: int, row: ConversationRow, e: ConversationEvent)
    requires ResolvedIsClosed(row)
    ensures ResolvedIsClosed(AfterEvent(ttl, row, e))
            <==> !(e.MessageSeen? && MetaOf(e).canReply == Some(true)
                   && (MetaOf(e).status == Some(RESOLVED) || (MetaOf(e).status.None? && row.status == Some(RESOLVED))))
  {
  }

  /** `human_active_until` is the last human reply plus the time to live, and both are null
      together. */
  predicate WindowMatches(ttl: int, row: ConversationRow) {
    row.humanActiveUntil == if row.lastHumanAt.Some? then Some(row.lastHumanAt.value + ttl) else None
  }


  /** An event keeps the window in step with the last human reply, and moves it back only if it
      is a human reply older than the last one handled. */
  lemma WindowStep(ttl: int, row: ConversationRow, e: ConversationEvent)
    requires WindowMatches(ttl, row)
    ensures WindowMatches(ttl, AfterEvent(ttl, row, e))
    ensures row.humanActiveUntil.Some? ==>
              AfterEvent(ttl, row, e).humanActiveUntil.Some?
              && (AfterEvent(ttl, row, e).humanActiveUntil.value < row.humanActiveUntil.value
                  <==> e.MessageSeen? && IsHumanPublicReply(e.message) && e.message.createdAt < row.lastHumanAt.value)
  {
  }
}
