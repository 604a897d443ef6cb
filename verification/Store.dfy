/** The repository: the tables as mutable fields and the statements the services run on them. */
module Store {
  import opened Domain
  import opened Outbox
  import opened Database

  /** What the dequeue query may return: at most `limit` due rows, oldest first, and none left
      out that is older than one taken. */
  predicate IsDequeue(rows: seq<Row>, ids: seq<nat>, limit: nat, now: int, replyDelay: int) {
    && |ids| <= limit
    && (forall k :: 0 <= k < |ids| ==> ids[k] < |rows| && Due(rows[ids[k]], now, replyDelay))
    && (forall j, k :: 0 <= j < k < |ids| ==>
          ids[j] != ids[k] && rows[ids[j]].createdAt <= rows[ids[k]].createdAt)
    && (forall i :: 0 <= i < |rows| && Due(rows[i], now, replyDelay) && i !in ids ==>
          |ids| == limit && forall k :: 0 <= k < |ids| ==> rows[ids[k]].createdAt <= rows[i].createdAt)
  }

  class Repository {
    var rawEvents: set<string>
    var messages: seq<Message>
    var conversations: map<ConversationKey, ConversationRow>
    var runs: seq<MessageKey>
    var outbox: seq<Row>

    constructor (db: Db)
      ensures Snapshot() == db
    {
      rawEvents, messages, conversations := db.rawEvents, db.messages, db.conversations;
      runs, outbox := db.runs, db.outbox;
    }

    function Snapshot(): Db
      reads this
    {
      Db(rawEvents, messages, conversations, runs, outbox)
    }

    /** Undo everything since the snapshot was taken. */
    method Rollback(db: Db)
      modifies this
      ensures Snapshot() == db
    {
      rawEvents, messages, conversations := db.rawEvents, db.messages, db.conversations;
      runs, outbox := db.runs, db.outbox;
    }

    /** `insert_raw_event`: refused when the provider event id is taken. */
    method InsertRawEvent(eventId: string) returns (inserted: bool)
      modifies this`rawEvents
      ensures inserted <==> eventId !in old(rawEvents)
      ensures rawEvents == old(rawEvents) + {eventId}
    {
      inserted := eventId !in rawEvents;
      rawEvents := rawEvents + {eventId};
    }

    /** `insert_message`: the stored message comes back when the identity is taken. */
    method InsertMessage(m: Message) returns (stored: Message, inserted: bool)
      modifies this`messages
      ensures inserted <==> forall o :: o in old(messages) ==> KeyOf(o) != KeyOf(m)
      ensures inserted ==> stored == m && messages == old(messages) + [m]
      ensures !inserted ==> FindMessage(old(messages), KeyOf(m)) == Some(stored) && messages == old(messages)
    {
      var found := FindMessage(messages, KeyOf(m));
      inserted := found.None?;
      if inserted {
        messages := messages + [m];
        stored := m;
      } else {
        stored := found.value;
      }
    }

    /** The dequeue query: repeatedly the oldest due row not yet taken. */
    method QueuedOutboundActions(limit: nat, now: int, replyDelay: int) returns (ids: seq<nat>)
      ensures IsDequeue(outbox, ids, limit, now, replyDelay)
    {
      ids := [];
      var exhausted := false;
      while |ids| < limit && !exhausted
        invariant |ids| <= limit
        invariant forall k :: 0 <= k < |ids| ==> ids[k] < |outbox| && Due(outbox[ids[k]], now, replyDelay)
        invariant forall j, k :: 0 <= j < k < |ids| ==>
                    ids[j] != ids[k] && outbox[ids[j]].createdAt <= outbox[ids[k]].createdAt
        invariant forall i, k :: 0 <= i < |outbox| && Due(outbox[i], now, replyDelay) && i !in ids && 0 <= k < |ids| ==>
                    outbox[ids[k]].createdAt <= outbox[i].createdAt
        invariant exhausted ==> forall i :: 0 <= i < |outbox| && Due(outbox[i], now, replyDelay) ==> i in ids
        decreases limit - |ids|, if exhausted then 0 else 1
      {
        var next := OldestDue(ids, now, replyDelay);
        if next.None? {
          exhausted := true;
        } else {
          ids := ids + [next.value];
        }
      }
    }

    method OldestDue(taken: seq<nat>, now: int, replyDelay: int) returns (best: Option<nat>)
      ensures best.Some? ==>
                && best.value < |outbox| && Due(outbox[best.value], now, replyDelay) && best.value !in taken
                && forall i :: 0 <= i < |outbox| && Due(outbox[i], now, replyDelay) && i !in taken ==>
                     outbox[best.value].createdAt <= outbox[i].createdAt
      ensures best.None? ==> forall i :: 0 <= i < |outbox| && Due(outbox[i], now, replyDelay) ==> i in taken
    {
      best := None;
      for i := 0 to |outbox|
        invariant best.Some? ==>
                    && best.value < i && Due(outbox[best.value], now, replyDelay) && best.value !in taken
                    && forall j :: 0 <= j < i && Due(outbox[j], now, replyDelay) && j !in taken ==>
                         outbox[best.value].createdAt <= outbox[j].createdAt
        invariant best.None? ==> forall j :: 0 <= j < i && Due(outbox[j], now, replyDelay) ==> j in taken
      {
        if Due(outbox[i], now, replyDelay) && i !in taken
           && (best.None? || outbox[i].createdAt < outbox[best.value].createdAt) {
          best := Some(i);
        }
      }
    }

    /** `claim_queued_outbound_actions`: the rows of the dequeue query become executing; all
        others stay as they are. */
    method ClaimQueuedOutboundActions(limit: nat, now: int, replyDelay: int) returns (ids: seq<nat>)
      modifies this`outbox
      ensures IsDequeue(old(outbox), ids, limit, now, replyDelay)
      ensures |outbox| == |old(outbox)|
      ensures forall i :: 0 <= i < |outbox| ==>
                outbox[i] == if i in ids then Claimed(old(outbox)[i]) else old(outbox)[i]
    {
      ids := QueuedOutboundActions(limit, now, replyDelay);
      for k := 0 to |ids|
        invariant |outbox| == |old(outbox)|
        invariant forall i :: 0 <= i < |outbox| ==>
                    outbox[i] == if i in ids[..k] then Claimed(old(outbox)[i]) else old(outbox)[i]
      {
        var row := outbox[ids[k]];
        outbox := outbox[ids[k] := row.(status := Executing, nextAttemptAt := None)];
        assert ids[..k + 1] == ids[..k] + [ids[k]];
      }
      assert ids[..|ids|] == ids;
    }

    /** `mark_outbound_action`: nothing happens when there is no such row. */
    method MarkOutboundAction(i: nat, status: OutboundStatus, providerMessageId: Option<string>,
                              failureReason: Option<string>, attempts: Option<nat>, nextAttemptAt: Option<int>,
                              clearNextAttempt: bool, errorCode: Option<string>)
      modifies this`outbox
      ensures outbox == if i < |old(outbox)|
                        then old(outbox)[i := Marked(old(outbox)[i], status, providerMessageId, failureReason,
                                                     attempts, nextAttemptAt, clearNextAttempt, errorCode)]
                        else old(outbox)
    {
      if i >= |outbox| {
        return;
      }
      var row := outbox[i];
      row := row.(status := status);
      if providerMessageId.Some? { row := row.(providerMessageId := providerMessageId); }
      if failureReason.Some? { row := row.(failureReason := failureReason); }
      if attempts.Some? { row := row.(attempts := attempts.value); }
      if clearNextAttempt {
        row := row.(nextAttemptAt := None);
      } else if nextAttemptAt.Some? {
        row := row.(nextAttemptAt := nextAttemptAt);
      }
      if errorCode.Some? { row := row.(errorCode := errorCode); }
      outbox := outbox[i := row];
    }

    /** `insert_outbound_action`: refused when the idempotency key is taken. */
    method InsertOutboundAction(row: Row) returns (inserted: bool)
      modifies this`outbox
      ensures inserted <==> forall r :: r in old(outbox) ==> r.key != row.key
      ensures outbox == if inserted then old(outbox) + [row] else old(outbox)
    {
      inserted := !exists r :: r in outbox && r.key == row.key;
      if inserted {
        outbox := outbox + [row];
      }
    }
  }
}
