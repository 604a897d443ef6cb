/** How often and when an action is sent: at most one delivery per stored message, at most the
    configured number of calls, and the configured distance between them. */
module Delivery {
  import opened Domain
  import opened Policy
  import opened Workflow
  import opened MessageOrder
  import opened Outbox
  import opened Database
  import opened Protocol
  import opened Invariants

  // ---- Calls and deliveries of one row -------------------------------------------------------------

  /** The calls a holder's stage implies, given the attempts recorded in its row. */
  ghost predicate StageCounts(stage: Stage, attempts: nat, calls: nat, delivered: nat) {
    && calls == attempts + (if stage.SendFailed? || stage.SendAccepted? || stage.Updated? then 1 else 0)
    && delivered == if stage.SendAccepted? || stage.Updated? then 1 else 0
  }

  /** The calls made for row `i` so far, against what its fields and its holder say. */
  ghost predicate CountsOk(cfg: Config, s: Sys, i: nat, calls: nat, delivered: nat) {
    if i >= |s.db.outbox| then calls == delivered == 0
    else
      var row := s.db.outbox[i];
      && delivered <= 1
      && calls <= AttemptLimit(cfg)
      && row.attempts <= calls <= row.attempts + 1
      && (IsLive(row) ==> calls == row.attempts && delivered == 0)
      && (IsTerminal(row) ==> (delivered == 1 <==> row.status == Sent))
      && (forall w: nat :: Holds(s, w, i) ==> StageCounts(s.workers[w].stage, row.attempts, calls, delivered))
  }

  lemma UntouchedRowStep(cfg: Config, s: Sys, act: Act, at: int, i: nat, calls: nat, delivered: nat)
    requires Inv(cfg, s) && Enabled(cfg, s, act, at) && Target(s, act) != Some(i)
    requires CountsOk(cfg, s, i, calls, delivered)
    ensures CountsOk(cfg, Next(cfg, s, act, at), i, calls, delivered)
  {
    hide Next, Enabled, RowsOk, SourcesOk, HandlersOk, RunsOk, MessagesOk, ConversationsOk;
    HoldersAgree(s, i);
    OtherHolders(cfg, s, act, at, i);
    InsertedRow(cfg, s, act, at);
    if i < |s.db.outbox| {
      RowStep(cfg, s, act, at, i);
    }
  }

  lemma ClaimedRowStep(cfg: Config, s: Sys, act: Act, at: int, i: nat, calls: nat, delivered: nat)
    requires Inv(cfg, s) && Enabled(cfg, s, act, at) && act.Claim? && act.row == i
    requires CountsOk(cfg, s, i, calls, delivered)
    ensures CountsOk(cfg, Next(cfg, s, act, at), i, calls, delivered)
  {
    HoldersAgree(s, i);
    assert forall w: nat :: Holds(Next(cfg, s, act, at), w, i) ==> w == act.w || Holds(s, w, i);
  }

  lemma MarkedRowStep(cfg: Config, s: Sys, act: Act, at: int, i: nat, calls: nat, delivered: nat)
    requires Inv(cfg, s) && Enabled(cfg, s, act, at) && act.Mark? && Target(s, act) == Some(i)
    requires CountsOk(cfg, s, i, calls, delivered)
    ensures CountsOk(cfg, Next(cfg, s, act, at), i, calls, delivered)
  {
    hide RunRecorded, Delivered, StageAfter;
    HoldersAgree(s, i);
    assert Holds(s, act.w, i) && RowOk(cfg, s.db.outbox[i], s.now);
    assert forall w: nat :: Holds(Next(cfg, s, act, at), w, i) ==> Holds(s, w, i);
  }

  lemma HolderStep(cfg: Config, s: Sys, act: Act, at: int, i: nat, calls: nat, delivered: nat)
    requires Inv(cfg, s) && Enabled(cfg, s, act, at) && !act.Claim? && !act.Mark? && Target(s, act) == Some(i)
    requires CountsOk(cfg, s, i, calls, delivered)
    ensures CountsOk(cfg, Next(cfg, s, act, at), i, calls + OneCall(s, act, i), delivered + OneDelivery(s, act, i))
  {
    hide RunRecorded, Delivered, MarkedRow, HasNewerCustomerMessage;
    hide StaticBlockedReason, ChannelBlockedReason, StoredVerdict;
    HoldersAgree(s, i);
    assert Holds(s, act.w, i) && RowOk(cfg, s.db.outbox[i], s.now);
    assert forall w: nat :: Holds(Next(cfg, s, act, at), w, i) ==> Holds(s, w, i);
  }

  lemma CountsStep(cfg: Config, s: Sys, act: Act, at: int, i: nat, calls: nat, delivered: nat)
    requires Inv(cfg, s) && Enabled(cfg, s, act, at)
    requires CountsOk(cfg, s, i, calls, delivered)
    ensures CountsOk(cfg, Next(cfg, s, act, at), i, calls + OneCall(s, act, i), delivered + OneDelivery(s, act, i))
  {
    hide Next, Enabled, CountsOk;
    if Target(s, act) != Some(i) {
      UntouchedRowStep(cfg, s, act, at, i, calls, delivered);
    } else if act.Claim? {
      ClaimedRowStep(cfg, s, act, at, i, calls, delivered);
    } else if act.Mark? {
      MarkedRowStep(cfg, s, act, at, i, calls, delivered);
    } else {
      HolderStep(cfg, s, act, at, i, calls, delivered);
    }
  }

  lemma {:induction false} CountsHold(cfg: Config, run: Run, i: nat)
    requires IsRunFromStart(cfg, run)
    ensures CountsOk(cfg, Last(cfg, run), i, Calls(cfg, run, i), Deliveries(cfg, run, i))
  {
    hide Next, Enabled;
    if run.Then? {
      CountsHold(cfg, run.before, i);
      InvHolds(cfg, run.before);
      CountsStep(cfg, Last(cfg, run.before), run.act, run.at, i, Calls(cfg, run.before, i), Deliveries(cfg, run.before, i));
    }
  }

  /** Over any run, whatever crashes and interleavings it contains, an action gets at most
      `max(1, outbound_max_attempts)` calls, of which at most one returned an id; a row marked
      sent got exactly one. */
  lemma AttemptBound(cfg: Config, run: Run, i: nat)
    requires IsRunFromStart(cfg, run)
    ensures Calls(cfg, run, i) <= if cfg.maxAttempts >= 1 then cfg.maxAttempts else 1
    ensures Deliveries(cfg, run, i) <= 1
    ensures i < |Last(cfg, run).db.outbox| && Last(cfg, run).db.outbox[i].status == Sent ==> Deliveries(cfg, run, i) == 1
  {
    CountsHold(cfg, run, i);
  }

  // ---- Once per stored message ---------------------------------------------------------------------

  function OneMessageDelivery(s: Sys, act: Act, key: MessageKey): nat {
    var i := Target(s, act);
    if act.Send? && act.send.Accepted? && i.Some? && i.value < |s.db.outbox|
       && SourceKey(s.db.outbox[i.value]) == key then 1 else 0
  }

  /** Calls that returned an id, over all rows that answer the message `key`. */
  function MessageDeliveries(cfg: Config, run: Run, key: MessageKey): nat
    requires IsRun(cfg, run)
  {
    if run.Begin? then 0
    else MessageDeliveries(cfg, run.before, key) + OneMessageDelivery(Last(cfg, run.before), run.act, key)
  }

  /** Steps that run the workflow for the message `key`. */
  function WorkflowRuns(cfg: Config, run: Run, key: MessageKey): nat
    requires IsRun(cfg, run)
  {
    if run.Begin? then 0
    else WorkflowRuns(cfg, run.before, key)
         + if run.act.RunWorkflow? && KeyOf(Last(cfg, run.before).handlers[run.act.h].message) == key then 1 else 0
  }

  /** Deliveries that start a workflow for the message `key`, whatever becomes of it. */
  function Admissions(cfg: Config, run: Run, key: MessageKey): nat
    requires IsRun(cfg, run)
  {
    if run.Begin? then 0
    else Admissions(cfg, run.before, key) + OneAdmission(cfg, Last(cfg, run.before), run.act, key)
  }

  function OneAdmission(cfg: Config, s: Sys, act: Act, key: MessageKey): nat {
    if act.Deliver? && StartsWorkflow(cfg, s.db, act.delivery) && KeyOf(act.delivery.payload.message) == key then 1 else 0
  }

  /** A workflow for the message is under way or was recorded. */
  ghost predicate Underway(s: Sys, key: MessageKey) {
    key in s.db.runs || exists h :: 0 <= h < |s.handlers| && s.handlers[h].Admitted? && KeyOf(s.handlers[h].message) == key
  }

  /** The admissions so far against what the tables and handlers say. */
  ghost predicate AdmissionsOk(s: Sys, key: MessageKey, admissions: nat) {
    && admissions <= 1
    && (admissions == 1 ==> exists m :: m in s.db.messages && KeyOf(m) == key)
    && (admissions == 0 ==> !Underway(s, key))
  }

  lemma AdmissionStep(cfg: Config, s: Sys, act: Act, at: int, key: MessageKey, admissions: nat)
    requires HandlersOk(s) && RunsOk(s.db) && Enabled(cfg, s, act, at)
    requires AdmissionsOk(s, key, admissions)
    ensures AdmissionsOk(Next(cfg, s, act, at), key, admissions + OneAdmission(cfg, s, act, key))
  {
    hide Decide, StageAfter, MarkedRow;
    var s' := Next(cfg, s, act, at);
    assert forall m :: m in s.db.messages ==> m in s'.db.messages;
    if act.Deliver? && StartsWorkflow(cfg, s.db, act.delivery) {
      var m := act.delivery.payload.message;
      assert s'.db.messages == s.db.messages + [m] && m in s'.db.messages;
    }
    if act.RunWorkflow? {
      assert s'.db.runs == s.db.runs + [KeyOf(s.handlers[act.h].message)];
    }
  }

  lemma {:induction false} AdmissionsHold(cfg: Config, run: Run, key: MessageKey)
    requires IsRunFromStart(cfg, run)
    ensures AdmissionsOk(Last(cfg, run), key, Admissions(cfg, run, key))
  {
    hide Next, Enabled, AdmissionsOk;
    if run.Then? {
      AdmissionsHold(cfg, run.before, key);
      InvHolds(cfg, run.before);
      AdmissionStep(cfg, Last(cfg, run.before), run.act, run.at, key, Admissions(cfg, run.before, key));
    } else {
      NothingAdmitted(First(run), key);
    }
  }

  lemma NothingAdmitted(s: Sys, key: MessageKey)
    requires Initial(s)
    ensures AdmissionsOk(s, key, 0)
  {
  }

  /** Rows that answer the message `key`. */
  function RowsFor(rows: seq<Row>, key: MessageKey): nat {
    if rows == [] then 0
    else RowsFor(rows[..|rows| - 1], key) + if SourceKey(rows[|rows| - 1]) == key then 1 else 0
  }

  lemma {:induction false} RowsForDistinct(rows: seq<Row>, key: MessageKey)
    requires forall i, j :: 0 <= i < j < |rows| ==> SourceKey(rows[i]) != SourceKey(rows[j])
    ensures RowsFor(rows, key) <= 1
    ensures RowsFor(rows, key) == 1 <==> exists i :: 0 <= i < |rows| && SourceKey(rows[i]) == key
  {
    if rows != [] {
      RowsForDistinct(rows[..|rows| - 1], key);
      if RowsFor(rows[..|rows| - 1], key) == 1 {
        var i :| 0 <= i < |rows| - 1 && SourceKey(rows[..|rows| - 1][i]) == key;
        assert SourceKey(rows[i]) == key;
      }
    }
  }

  /** The one row that answers `key`, or the length of the outbox if there is none. */
  function AnswerTo(rows: seq<Row>, key: MessageKey): (i: nat)
    ensures i <= |rows|
    ensures i < |rows| ==> SourceKey(rows[i]) == key
    ensures i == |rows| ==> forall j :: 0 <= j < |rows| ==> SourceKey(rows[j]) != key
  {
    if rows == [] then 0
    else if SourceKey(rows[0]) == key then 0
    else AnswerTo(rows[1..], key) + 1
  }

  lemma KeysPersist(cfg: Config, s: Sys, act: Act, at: int)
    requires Inv(cfg, s) && Enabled(cfg, s, act, at)
    ensures |s.db.outbox| <= |Next(cfg, s, act, at).db.outbox|
    ensures forall i: nat :: i < |s.db.outbox| ==>
              SourceKey(Next(cfg, s, act, at).db.outbox[i]) == SourceKey(s.db.outbox[i])
  {
    forall i: nat | i < |s.db.outbox|
      ensures SourceKey(Next(cfg, s, act, at).db.outbox[i]) == SourceKey(s.db.outbox[i])
    {
      RowStep(cfg, s, act, at, i);
    }
  }

  lemma AnswerStep(cfg: Config, s: Sys, act: Act, at: int, key: MessageKey)
    requires Enabled(cfg, s, act, at) && Inv(cfg, s) && Inv(cfg, Next(cfg, s, act, at))
    ensures var i, i' := AnswerTo(s.db.outbox, key), AnswerTo(Next(cfg, s, act, at).db.outbox, key);
            if i < |s.db.outbox| then i' == i else i' >= |s.db.outbox|
  {
    hide Next, Enabled, RowsOk, OwnershipOk, HandlersOk, RunsOk, MessagesOk, ConversationsOk;
    KeysPersist(cfg, s, act, at);
  }

  lemma SendAnswers(cfg: Config, s: Sys, act: Act, at: int, key: MessageKey)
    requires Enabled(cfg, s, act, at) && OwnershipOk(s) && SourcesOk(s.db) && act.Send?
    ensures OneMessageDelivery(s, act, key) == OneDelivery(s, act, AnswerTo(s.db.outbox, key))
    ensures Next(cfg, s, act, at).db.outbox == s.db.outbox
  {
    hide RunRecorded, Delivered;
    assert HolderOk(s, act.w);
  }

  lemma {:induction false} MessageDeliveriesAreRowDeliveries(cfg: Config, run: Run, key: MessageKey)
    requires IsRunFromStart(cfg, run)
    ensures MessageDeliveries(cfg, run, key) == Deliveries(cfg, run, AnswerTo(Last(cfg, run).db.outbox, key))
  {
    hide Next, Enabled, Inv, AnswerTo;
    if run.Then? {
      MessageDeliveriesAreRowDeliveries(cfg, run.before, key);
      InvHolds(cfg, run.before);
      InvHolds(cfg, run);
      var s := Last(cfg, run.before);
      if run.act.Send? {
        SendAnswers(cfg, s, run.act, run.at, key);
      } else {
        AnswerStep(cfg, s, run.act, run.at, key);
        CountsHold(cfg, run.before, AnswerTo(s.db.outbox, key));
        CountsHold(cfg, run.before, AnswerTo(Last(cfg, run).db.outbox, key));
      }
    }
  }

  lemma {:induction false} WorkflowRunsAreRecorded(cfg: Config, run: Run, key: MessageKey)
    requires IsRunFromStart(cfg, run)
    ensures WorkflowRuns(cfg, run, key) == if key in Last(cfg, run).db.runs then 1 else 0
  {
    if run.Then? {
      WorkflowRunsAreRecorded(cfg, run.before, key);
      InvHolds(cfg, run.before);
      var s, s' := Last(cfg, run.before), Last(cfg, run);
      assert run.act.RunWorkflow? ==> s'.db.runs == s.db.runs + [KeyOf(s.handlers[run.act.h].message)];
    }
  }

  /** End to end: over every interleaving of deliveries (repeated delivery ids, the same message
      under new ids), handler crashes, and workers, each message identity has its workflow started
      at most once and recorded at most once, gets at most one outbox row, and at most one call
      that returned an id; each only after the one before. */
  lemma AtMostOncePerMessage(cfg: Config, run: Run, key: MessageKey)
    requires IsRunFromStart(cfg, run)
    ensures Admissions(cfg, run, key) <= 1
    ensures WorkflowRuns(cfg, run, key) <= Admissions(cfg, run, key)
    ensures RowsFor(Last(cfg, run).db.outbox, key) <= WorkflowRuns(cfg, run, key)
    ensures MessageDeliveries(cfg, run, key) <= RowsFor(Last(cfg, run).db.outbox, key)
  {
    AdmissionsHold(cfg, run, key);
    InvHolds(cfg, run);
    WorkflowRunsAreRecorded(cfg, run, key);
    var rows := Last(cfg, run).db.outbox;
    RowsForDistinct(rows, key);
    MessageDeliveriesAreRowDeliveries(cfg, run, key);
    AttemptBound(cfg, run, AnswerTo(rows, key));
    CountsHold(cfg, run, AnswerTo(rows, key));
  }

  // ---- Spacing -----------------------------------------------------------------------------------

  /** The earliest time the call after `attempts` failed ones may start. */
  function EarliestCall(cfg: Config, row: Row, attempts: nat): int {
    row.createdAt + (if row.kind == PublicMessage then cfg.replyDelay else 0) + attempts * cfg.retryDelay
  }

  ghost predicate OnSchedule(cfg: Config, s: Sys, i: nat) {
    i < |s.db.outbox| ==>
      var row := s.db.outbox[i];
      && (row.status == RetryableFailure && row.nextAttemptAt.Some? ==>
            row.nextAttemptAt.value >= EarliestCall(cfg, row, row.attempts))
      && (forall w: nat :: Holds(s, w, i) ==> s.now >= EarliestCall(cfg, row, row.attempts))
  }

  lemma ScheduleClaim(cfg: Config, s: Sys, act: Act, at: int)
    requires Inv(cfg, s) && s.now <= at && Enabled(cfg, s, act, at) && act.Claim?
    requires OnSchedule(cfg, s, act.row)
    ensures OnSchedule(cfg, Next(cfg, s, act, at), act.row)
  {
    HoldersAgree(s, act.row);
    assert RowOk(cfg, s.db.outbox[act.row], s.now);
    assert forall w: nat :: Holds(Next(cfg, s, act, at), w, act.row) ==> w == act.w || Holds(s, w, act.row);
  }

  lemma ScheduleMark(cfg: Config, s: Sys, act: Act, at: int, i: nat)
    requires Inv(cfg, s) && s.now <= at && Enabled(cfg, s, act, at) && act.Mark? && Holds(s, act.w, i)
    requires OnSchedule(cfg, s, i)
    ensures OnSchedule(cfg, Next(cfg, s, act, at), i)
  {
    HoldersAgree(s, i);
    assert forall w: nat :: Holds(Next(cfg, s, act, at), w, i) ==> Holds(s, w, i);
  }

  lemma ScheduleIdle(cfg: Config, s: Sys, act: Act, at: int, i: nat)
    requires Inv(cfg, s) && s.now <= at && Enabled(cfg, s, act, at)
    requires !act.Claim? || act.row != i
    requires !act.Mark? || !Holds(s, act.w, i)
    requires OnSchedule(cfg, s, i)
    ensures OnSchedule(cfg, Next(cfg, s, act, at), i)
  {
    hide RunRecorded, Delivered, StageAfter, MarkedRow;
    HoldersAgree(s, i);
    InsertedRow(cfg, s, act, at);
    if i < |s.db.outbox| {
      RowStep(cfg, s, act, at, i);
    }
    assert forall w: nat :: Holds(Next(cfg, s, act, at), w, i) ==> Holds(s, w, i);
  }

  lemma ScheduleStep(cfg: Config, s: Sys, act: Act, at: int, i: nat)
    requires Inv(cfg, s) && s.now <= at && Enabled(cfg, s, act, at)
    requires OnSchedule(cfg, s, i)
    ensures OnSchedule(cfg, Next(cfg, s, act, at), i)
  {
    hide Next, Enabled, OnSchedule;
    if act.Claim? && act.row == i {
      ScheduleClaim(cfg, s, act, at);
    } else if act.Mark? && Holds(s, act.w, i) {
      ScheduleMark(cfg, s, act, at, i);
    } else {
      ScheduleIdle(cfg, s, act, at, i);
    }
  }

  lemma {:induction false} ScheduleHolds(cfg: Config, run: Run, i: nat)
    requires IsRunFromStart(cfg, run)
    ensures OnSchedule(cfg, Last(cfg, run), i)
  {
    if run.Then? {
      ScheduleHolds(cfg, run.before, i);
      InvHolds(cfg, run.before);
      ScheduleStep(cfg, Last(cfg, run.before), run.act, run.at, i);
    }
  }

  /** The k-th call for an action starts no earlier than its creation, plus the reply delay if
      it is public, plus k-1 retry delays. */
  lemma CallsAreSpaced(cfg: Config, run: Run, i: nat)
    requires IsRunFromStart(cfg, run)
    requires run.Then? && run.act.Send? && RowOf(cfg, run) == Some(i)
    ensures i < |Last(cfg, run.before).db.outbox|
    ensures var row := Last(cfg, run.before).db.outbox[i];
            run.at >= row.createdAt + (if row.kind == PublicMessage then cfg.replyDelay else 0)
                      + (Calls(cfg, run, i) - 1) * cfg.retryDelay
  {
    hide RunRecorded;
    InvHolds(cfg, run.before);
    ScheduleHolds(cfg, run.before, i);
    CountsHold(cfg, run.before, i);
    assert Holds(Last(cfg, run.before), run.act.w, i) && HolderOk(Last(cfg, run.before), run.act.w);
  }

  // ---- The last call -----------------------------------------------------------------------------

  /** Row `i` is sent or has failed for good, or whoever holds it is about to mark it so. */
  ghost predicate IsSettled(s: Sys, i: nat) {
    && i < |s.db.outbox|
    && (s.db.outbox[i].status in {Sent, PermanentFailure, Executing})
    && (s.db.outbox[i].status == Executing ==>
          forall w: nat :: Holds(s, w, i) ==>
            var stage := s.workers[w].stage;
            stage.SendAccepted? || stage.Updated? || (stage.SendFailed? && !stage.retryable))
  }

  lemma SettledStep(cfg: Config, s: Sys, act: Act, at: int, i: nat)
    requires OwnershipOk(s) && Enabled(cfg, s, act, at) && IsSettled(s, i)
    ensures IsSettled(Next(cfg, s, act, at), i)
    ensures OneCall(s, act, i) == 0 && !(act.Claim? && act.row == i)
    ensures s.db.outbox[i].status == PermanentFailure ==> Next(cfg, s, act, at).db.outbox[i] == s.db.outbox[i]
  {
    hide RunRecorded, Delivered, HasNewerCustomerMessage, StaticBlockedReason, ChannelBlockedReason, StoredVerdict;
    HoldersAgree(s, i);
    RowStep(cfg, s, act, at, i);
    if Target(s, act) != Some(i) {
      OtherHolders(cfg, s, act, at, i);
    } else {
      assert act.Claim? || Holds(s, act.w, i);
      assert forall w: nat :: Holds(Next(cfg, s, act, at), w, i) ==> Holds(s, w, i) || w == act.w;
    }
  }

  /** A call that returned an id, or was refused for good, is the last one for its row: through
      every continuation no other is made and the row is not claimed again. */
  lemma {:induction false} SettledForGood(cfg: Config, early: Run, run: Run, i: nat)
    requires IsRunFromStart(cfg, run) && IsRun(cfg, early) && IsPrefix(early, run)
    requires early.Then? && early.act.Send? && RowOf(cfg, early) == Some(i)
    requires early.act.send.Accepted? || (early.act.send.Refused? && !early.act.send.retryable)
    ensures Calls(cfg, run, i) == Calls(cfg, early, i) && IsSettled(Last(cfg, run), i)
    ensures run != early ==> !(run.act.Claim? && run.act.row == i)
  {
    hide Next, Enabled, IsSettled;
    if early == run {
      InvHolds(cfg, run.before);
      AnswerSettles(cfg, run, i);
    } else {
      SettledForGood(cfg, early, run.before, i);
      InvHolds(cfg, run.before);
      SettledStep(cfg, Last(cfg, run.before), run.act, run.at, i);
    }
  }

  lemma AnswerSettles(cfg: Config, run: Run, i: nat)
    requires IsRun(cfg, run) && run.Then? && run.act.Send? && RowOf(cfg, run) == Some(i)
    requires OwnershipOk(Last(cfg, run.before))
    requires run.act.send.Accepted? || (run.act.send.Refused? && !run.act.send.retryable)
    ensures IsSettled(Last(cfg, run), i)
  {
    hide RunRecorded, Delivered, MarkedRow;
    HoldersAgree(Last(cfg, run.before), i);
    assert Holds(Last(cfg, run.before), run.act.w, i);
    assert forall w: nat :: Holds(Last(cfg, run), w, i) ==> Holds(Last(cfg, run.before), w, i);
  }
}
