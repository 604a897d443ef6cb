/** The outbox queue: which rows are due, what claiming and marking do to a row, and when the
    next row falls due. */
module Outbox {
  import opened Domain

  // ---- Due rows ----------------------------------------------------------------------------

  /** A queued row is due at once, a public one after the reply delay; a row that failed
      retryably is due at its next attempt. */
  predicate Due(row: Row, now: int, replyDelay: int) {
    || (row.status == Queued && (row.kind != PublicMessage || row.createdAt <= now - replyDelay))
    || (row.status == RetryableFailure && row.nextAttemptAt.Some? && row.nextAttemptAt.value <= now)
  }

  /** By status: a queued note is due at once, a queued public reply once it is as old as the
      reply delay, a row that failed retryably from its next attempt on, and no other ever. */
  lemma DueIff(row: Row, now: int, replyDelay: int)
    ensures row.status == Queued && row.kind != PublicMessage ==> Due(row, now, replyDelay)
    ensures row.status == Queued && row.kind == PublicMessage ==>
              (Due(row, now, replyDelay) <==> now - row.createdAt >= replyDelay)
    ensures row.status == RetryableFailure ==>
              (Due(row, now, replyDelay) <==> exists t :: row.nextAttemptAt == Some(t) && t <= now)
    ensures row.status in {Executing, Sent, PermanentFailure, BlockedByPolicy, Superseded} ==> !Due(row, now, replyDelay)
  {
  }

  /** A row the dequeue query may return first: due, and none due was created earlier. */
  predicate IsHead(rows: seq<Row>, i: nat, now: int, replyDelay: int) {
    && i < |rows| && Due(rows[i], now, replyDelay)
    && forall j :: 0 <= j < |rows| && Due(rows[j], now, replyDelay) ==> rows[i].createdAt <= rows[j].createdAt
  }

  function Claimed(row: Row): Row {
    row.(status := Executing, nextAttemptAt := None)
  }

  predicate IsLive(row: Row) {
    row.status == Queued || row.status == RetryableFailure
  }

  predicate IsTerminal(row: Row) {
    row.status in {Sent, PermanentFailure, BlockedByPolicy, Superseded}
  }

  // ---- Marking -----------------------------------------------------------------------------

  /** `mark_outbound_action` on the row it names. The old status is not looked at; a field whose
      argument is null keeps its value. */
  function Marked(row: Row, status: OutboundStatus, providerMessageId: Option<string>, failureReason: Option<string>,
                  attempts: Option<nat>, nextAttemptAt: Option<int>, clearNextAttempt: bool,
                  errorCode: Option<string>): Row {
    row.(status := status,
         providerMessageId := if providerMessageId.Some? then providerMessageId else row.providerMessageId,
         failureReason := if failureReason.Some? then failureReason else row.failureReason,
         attempts := if attempts.Some? then attempts.value else row.attempts,
         nextAttemptAt := if clearNextAttempt then None
                          else if nextAttemptAt.Some? then nextAttemptAt else row.nextAttemptAt,
         errorCode := if errorCode.Some? then errorCode else row.errorCode)
  }

  function MarkedBlocked(row: Row, reason: string): Row {
    Marked(row, BlockedByPolicy, None, Some(reason), None, None, true, None)
  }

  function MarkedSuperseded(row: Row): Row {
    Marked(row, Superseded, None, Some(RuleId(ConversationSuperseded)), None, None, true, None)
  }

  function FailureStatus(retryable: bool, attempts: nat, maxAttempts: int): OutboundStatus {
    if retryable && attempts < maxAttempts then RetryableFailure else PermanentFailure
  }

  /** `_mark_send_failure`, counting from the attempts read when the row was claimed. */
  function MarkedFailed(row: Row, attemptsRead: nat, code: string, retryable: bool, now: int,
                        maxAttempts: int, retryDelay: int): Row {
    var status := FailureStatus(retryable, attemptsRead + 1, maxAttempts);
    var next := if status == RetryableFailure then Some(now + retryDelay) else None;
    Marked(row, status, None, Some(code), Some(attemptsRead + 1), next, next.None?, Some(code))
  }

  function MarkedSent(row: Row, providerMessageId: string, postSendFailure: Option<string>): Row {
    Marked(row, Sent, Some(providerMessageId), postSendFailure, None, None, true, None)
  }

  /** What a row keeps for good. */
  predicate SameAction(a: Row, b: Row) {
    && a.tenant == b.tenant && a.channel == b.channel && a.conversation == b.conversation
    && a.source == b.source && a.kind == b.kind && a.content == b.content && a.safety == b.safety
    && a.key == b.key && a.createdAt == b.createdAt
  }

  // ---- Counting rows -----------------------------------------------------------------------

  function StatusCount(rows: seq<Row>, status: OutboundStatus): nat {
    if rows == [] then 0
    else StatusCount(rows[..|rows| - 1], status) + if rows[|rows| - 1].status == status then 1 else 0
  }

  lemma {:induction false} StatusCountUpdate(rows: seq<Row>, i: nat, row: Row, status: OutboundStatus)
    requires i < |rows|
    ensures StatusCount(rows[i := row], status)
            == StatusCount(rows, status) - (if rows[i].status == status then 1 else 0)
               + (if row.status == status then 1 else 0)
  {
    var n := |rows| - 1;
    if i == n {
      assert rows[i := row][..n] == rows[..n];
    } else {
      StatusCountUpdate(rows[..n], i, row, status);
      assert rows[i := row][..n] == rows[..n][i := row];
    }
  }

  // ---- The next wakeup ---------------------------------------------------------------------

  function Earlier(a: Option<int>, b: Option<int>): Option<int> {
    if a.None? then b else if b.None? then a else if a.value <= b.value then a else b
  }

  /** `select min(...)` over the rows for which `time` yields one. */
  function MinTime(rows: seq<Row>, time: Row -> Option<int>): (r: Option<int>)
    ensures r.Some? ==> exists row :: row in rows && time(row) == r
    ensures forall row :: row in rows && time(row).Some? ==> r.Some? && r.value <= time(row).value
  {
    if rows == [] then None
    else
      var rest := MinTime(rows[1..], time);
      assert rows == [rows[0]] + rows[1..];
      Earlier(time(rows[0]), rest)
  }

  function PrivateQueuedAt(row: Row): Option<int> {
    if row.status == Queued && row.kind != PublicMessage then Some(row.createdAt) else None
  }

  function PublicQueuedAt(row: Row): Option<int> {
    if row.status == Queued && row.kind == PublicMessage then Some(row.createdAt) else None
  }

  function RetryAt(row: Row): Option<int> {
    if row.status == RetryableFailure then row.nextAttemptAt else None
  }

  /** `next_outbound_action_due_at`: the least of three separate minima. */
  function NextDueAt(rows: seq<Row>, now: int, replyDelay: int): Option<int> {
    var private := if MinTime(rows, PrivateQueuedAt).Some? then Some(now) else None;
    var publicMin := MinTime(rows, PublicQueuedAt);
    var public := if publicMin.Some? then Some(publicMin.value + replyDelay) else None;
    Earlier(Earlier(private, public), MinTime(rows, RetryAt))
  }

  /** From `now` on, some row is claimable at `t` exactly when `NextDueAt` is set and not after
      `t`: it is the earliest such instant, and null only if there never is one. */
  lemma WakeupIsExact(rows: seq<Row>, now: int, replyDelay: int, t: int)
    requires now <= t
    ensures (exists i :: 0 <= i < |rows| && Due(rows[i], t, replyDelay))
            <==> (NextDueAt(rows, now, replyDelay).Some? && NextDueAt(rows, now, replyDelay).value <= t)
  {
    var due := NextDueAt(rows, now, replyDelay);
    var private, public, retry :=
      MinTime(rows, PrivateQueuedAt), MinTime(rows, PublicQueuedAt), MinTime(rows, RetryAt);
    if i :| 0 <= i < |rows| && Due(rows[i], t, replyDelay) {
      assert rows[i] in rows;
      assert PrivateQueuedAt(rows[i]).Some? || PublicQueuedAt(rows[i]).Some? || RetryAt(rows[i]).Some?;
    }
    if due.Some? && due.value <= t {
      var row: Row;
      if private.Some? {
        row :| row in rows && PrivateQueuedAt(row) == private;
      } else if public.Some? && public.value + replyDelay <= t {
        row :| row in rows && PublicQueuedAt(row) == public;
      } else {
        row :| row in rows && RetryAt(row) == retry;
      }
      assert Due(row, t, replyDelay);
    }
  }

  /** `_outbound_wait_seconds`: with notifications the worker sleeps until the next due time but
      never longer than the fallback; when polling it always sleeps the fallback. */
  function WaitTime(notified: bool, rows: seq<Row>, now: int, replyDelay: int, fallback: int): (wait: int)
    ensures fallback >= 0 ==> 0 <= wait <= fallback
    ensures !notified ==> wait == fallback
  {
    var due := NextDueAt(rows, now, replyDelay);
    if !notified || due.None? then fallback
    else
      var wait := if fallback <= due.value - now then fallback else due.value - now;
      if wait < 0 then 0 else wait
  }

  /** As long as the outbox stays as it was, nothing is due while a notified worker sleeps: it
      wakes no later than the next due time. */
  lemma SleepMissesNothing(rows: seq<Row>, now: int, replyDelay: int, fallback: int, t: int)
    requires now <= t < now + WaitTime(true, rows, now, replyDelay, fallback)
    ensures forall i :: 0 <= i < |rows| ==> !Due(rows[i], t, replyDelay)
  {
    WakeupIsExact(rows, now, replyDelay, t);
  }

  /** It sleeps no shorter either: if it wakes before the fallback, some row is due. */
  lemma EarlyWakeFindsWork(rows: seq<Row>, now: int, replyDelay: int, fallback: int)
    requires 0 <= WaitTime(true, rows, now, replyDelay, fallback) < fallback
    ensures exists i :: 0 <= i < |rows| && Due(rows[i], now + WaitTime(true, rows, now, replyDelay, fallback), replyDelay)
  {
    WakeupIsExact(rows, now, replyDelay, now + WaitTime(true, rows, now, replyDelay, fallback));
  }
}
