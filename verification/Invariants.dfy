/** What holds in every reachable state: row fields, exclusive ownership, deduplicated ingress
    and readable conversation rows. */
module Invariants {
  import opened Domain
  import opened Text
  import opened Policy
  import opened MessageOrder
  import opened Workflow
  import opened Conversation
  import opened Outbox
  import opened Database
  import opened Protocol

  // ---- The invariants --------------------------------------------------------------------------

  /** The reason is what is noted of a failed update after an action of this kind was sent. */
  predicate NotesUpdate(kind: ActionKind, reason: Option<string>) {
    reason.Some?
    && StartsWith(reason.value, if kind == PublicMessage then "status_update_failed:" else "label_update_failed:")
  }

  /** The fields of a row agree with its status. */
  ghost predicate RowOk(cfg: Config, row: Row, now: int) {
    && (row.nextAttemptAt.Some? <==> row.status == RetryableFailure)
    && (row.providerMessageId.Some? <==> row.status == Sent)
    && (row.errorCode.Some? <==> row.attempts > 0)
    && row.attempts <= AttemptLimit(cfg)
    && (!IsTerminal(row) ==> row.attempts < AttemptLimit(cfg))
    && (row.status == Queued ==> row.attempts == 0)
    && (!IsTerminal(row) || row.status == PermanentFailure ==> row.failureReason == row.errorCode)
    && (row.status == Sent ==> row.failureReason == row.errorCode || NotesUpdate(row.kind, row.failureReason))
    && (row.status == BlockedByPolicy ==> row.failureReason.Some?)
    && (row.status == OutboundStatus.Superseded ==>
          row.kind == PublicMessage && row.failureReason == Some("conversation.superseded_by_new_customer_message"))
    && row.createdAt <= now
    && row.key == IdempotencyKey(row.tenant, row.channel, row.conversation, row.source, row.kind)
    && row.kind != NoAction
  }

  ghost predicate RowsOk(cfg: Config, s: Sys) {
    forall i :: 0 <= i < |s.db.outbox| ==> RowOk(cfg, s.db.outbox[i], s.now)
  }

  predicate HolderOk(s: Sys, w: nat)
    requires w < |s.workers|
  {
    s.workers[w].Holding? ==>
      && s.workers[w].row < |s.db.outbox|
      && s.db.outbox[s.workers[w].row].status == Executing
      && s.db.outbox[s.workers[w].row].attempts == s.workers[w].attempts
      && StageOk(s.db.outbox[s.workers[w].row], s.workers[w].stage)
  }

  /** A failed update is noted for the kind of the row it followed, and only a public action is
      found superseded. */
  predicate StageOk(row: Row, stage: Stage) {
    && (stage.Updated? && stage.failure.Some? ==> NotesUpdate(row.kind, stage.failure))
    && (stage.ToSupersede? ==> row.kind == PublicMessage)
  }

  /** Every held row is executing, and no two workers hold the same one. */
  ghost predicate OwnershipOk(s: Sys) {
    && (forall w :: 0 <= w < |s.workers| ==> HolderOk(s, w))
    && (forall v, w :: 0 <= v < w < |s.workers| && s.workers[v].Holding? && s.workers[w].Holding? ==>
          s.workers[v].row != s.workers[w].row)
  }

  predicate Distinct<T(==)>(xs: seq<T>) {
    forall i, j :: 0 <= i < j < |xs| ==> xs[i] != xs[j]
  }

  ghost predicate MessagesOk(db: Db) {
    forall i, j :: 0 <= i < j < |db.messages| ==> KeyOf(db.messages[i]) != KeyOf(db.messages[j])
  }

  /** A handler between its transactions works on a stored message no one else runs. */
  ghost predicate HandlersOk(s: Sys) {
    && (forall h :: 0 <= h < |s.handlers| && s.handlers[h].Admitted? ==>
          && s.handlers[h].message in s.db.messages
          && IsCustomerTurn(s.handlers[h].message)
          && KeyOf(s.handlers[h].message) !in s.db.runs)
    && (forall g, h :: 0 <= g < h < |s.handlers| && s.handlers[g].Admitted? && s.handlers[h].Admitted? ==>
          KeyOf(s.handlers[g].message) != KeyOf(s.handlers[h].message))
  }

  ghost predicate RunsOk(db: Db) {
    && Distinct(db.runs)
    && (forall r :: r in db.runs ==> exists m :: m in db.messages && KeyOf(m) == r)
  }

  /** The row answers this message, a customer turn of the row's conversation. */
  predicate AnsweredBy(m: Message, row: Row) {
    KeyOf(m) == SourceKey(row) && ConversationOf(m) == RowConversation(row) && IsCustomerTurn(m)
  }

  ghost predicate SourcesOk(db: Db) {
    && (forall i :: 0 <= i < |db.outbox| ==>
          && SourceKey(db.outbox[i]) in db.runs
          && exists m :: m in db.messages && AnsweredBy(m, db.outbox[i]))
    && (forall i, j :: 0 <= i < j < |db.outbox| ==> SourceKey(db.outbox[i]) != SourceKey(db.outbox[j]))
  }

  ghost predicate ConversationsOk(cfg: Config, db: Db) {
    forall where :: where in db.conversations ==>
      KnownStatus(db.conversations[where].status) && WindowMatches(cfg.ttl, db.conversations[where])
  }

  ghost predicate Inv(cfg: Config, s: Sys) {
    && RowsOk(cfg, s)
    && OwnershipOk(s)
    && MessagesOk(s.db)
    && HandlersOk(s)
    && RunsOk(s.db)
    && SourcesOk(s.db)
    && ConversationsOk(cfg, s.db)
  }

  // ---- Each is kept ----------------------------------------------------------------------------

  lemma MarkedRowOk(cfg: Config, row: Row, h: Worker, now: int, at: int)
    requires RowOk(cfg, row, now) && row.status == Executing && now <= at
    requires h.Holding? && h.attempts == row.attempts && StageAllows(h.stage, Mark(0)) && StageOk(row, h.stage)
    ensures RowOk(cfg, MarkedRow(cfg, row, h, at), at)
  {
    hide NotesUpdate, IdempotencyKey;
    if !h.stage.ToSupersede? {
      hide RuleId;
    }
  }

  lemma QueuedRowOk(cfg: Config, mode: AutomationMode, m: Message, d: Decision, catalog: Catalog, at: int)
    requires QueuedRow(mode, m, d, catalog, at).Some?
    ensures RowOk(cfg, QueuedRow(mode, m, d, catalog, at).value, at)
  {
  }

  lemma RowsKept(cfg: Config, s: Sys, act: Act, at: int)
    requires RowsOk(cfg, s) && OwnershipOk(s) && s.now <= at && Enabled(cfg, s, act, at)
    ensures RowsOk(cfg, Next(cfg, s, act, at))
  {
    hide Decide, StageAfter, MarkedRow, QueuedRow;
    if act.Mark? {
      var h := s.workers[act.w];
      assert HolderOk(s, act.w) && RowOk(cfg, s.db.outbox[h.row], s.now);
      MarkedRowOk(cfg, s.db.outbox[h.row], h, s.now, at);
    } else if act.RunWorkflow? {
      var p := s.handlers[act.h];
      var decision := Decide(cfg.lex, p.message, p.conversation, act.catalog, act.mode, at, act.reply);
      if QueuedRow(act.mode, p.message, decision, act.catalog, at).Some? {
        QueuedRowOk(cfg, act.mode, p.message, decision, act.catalog, at);
      }
    }
  }

  lemma StageKept(cfg: Config, db: Db, h: Worker, act: Act, at: int)
    requires h.Holding? && h.row < |db.outbox| && StageAllows(h.stage, act) && !act.Mark?
    requires StageOk(db.outbox[h.row], h.stage)
    ensures var stage := StageAfter(cfg, db, h, act, at);
            stage.Some? ==> StageOk(db.outbox[h.row], stage.value)
  {
    hide HasNewerCustomerMessage, StaticBlockedReason, ChannelBlockedReason, StoredVerdict;
  }

  lemma HolderKept(cfg: Config, s: Sys, act: Act, at: int, w: nat)
    requires OwnershipOk(s) && Enabled(cfg, s, act, at) && w < |Next(cfg, s, act, at).workers|
    ensures w < |s.workers| && HolderOk(Next(cfg, s, act, at), w)
  {
    hide StageAfter, MarkedRow, Decide;
    assert HolderOk(s, w);
    if act.Mark? {
      assert HolderOk(s, act.w);
    } else if ByWorker(act, w) && !act.Claim? {
      StageKept(cfg, s.db, s.workers[w], act, at);
    }
  }

  lemma OwnershipKept(cfg: Config, s: Sys, act: Act, at: int)
    requires OwnershipOk(s) && Enabled(cfg, s, act, at)
    ensures OwnershipOk(Next(cfg, s, act, at))
  {
    hide StageAfter, MarkedRow, Delivered, RunRecorded;
    var s' := Next(cfg, s, act, at);
    forall w | 0 <= w < |s'.workers| ensures HolderOk(s', w) {
      HolderKept(cfg, s, act, at, w);
    }
    if act.Claim? {
      forall v | 0 <= v < |s.workers| && s.workers[v].Holding? ensures s.workers[v].row != act.row {
        assert HolderOk(s, v);
      }
    }
  }

  lemma MessagesKept(cfg: Config, s: Sys, act: Act, at: int)
    requires MessagesOk(s.db) && Enabled(cfg, s, act, at)
    ensures MessagesOk(Next(cfg, s, act, at).db)
  {
    if act.Deliver? && IsNewMessage(s.db, act.delivery) {
      forall m | m in s.db.messages ensures KeyOf(m) != KeyOf(act.delivery.payload.message) {}
    }
  }

  lemma HandlersKept(cfg: Config, s: Sys, act: Act, at: int)
    requires HandlersOk(s) && RunsOk(s.db) && Enabled(cfg, s, act, at)
    ensures HandlersOk(Next(cfg, s, act, at))
  {
    hide Decide;
    var s' := Next(cfg, s, act, at);
    if act.Deliver? && StartsWorkflow(cfg, s.db, act.delivery) {
      var m := act.delivery.payload.message;
      assert KeyOf(m) !in s.db.runs;
      assert s'.db.messages == s.db.messages + [m];
    } else if act.RunWorkflow? {
      assert s'.db.runs == s.db.runs + [KeyOf(s.handlers[act.h].message)];
    }
  }

  lemma RunsKept(cfg: Config, s: Sys, act: Act, at: int)
    requires HandlersOk(s) && RunsOk(s.db) && Enabled(cfg, s, act, at)
    ensures RunsOk(Next(cfg, s, act, at).db)
  {
    var db, db' := s.db, Next(cfg, s, act, at).db;
    if act.RunWorkflow? {
      var m := s.handlers[act.h].message;
      assert m in db.messages && db'.messages == db.messages;
    } else {
      assert forall m :: m in db.messages ==> m in db'.messages;
    }
  }

  lemma SourcesCarryOver(db: Db, db': Db)
    requires SourcesOk(db) && |db'.outbox| == |db.outbox|
    requires forall i :: 0 <= i < |db.outbox| ==> SameAction(db.outbox[i], db'.outbox[i])
    requires forall m :: m in db.messages ==> m in db'.messages
    requires forall r :: r in db.runs ==> r in db'.runs
    ensures SourcesOk(db')
  {
    forall i | 0 <= i < |db'.outbox|
      ensures SourceKey(db'.outbox[i]) in db'.runs
      ensures exists m :: m in db'.messages && AnsweredBy(m, db'.outbox[i])
    {
      assert SameAction(db.outbox[i], db'.outbox[i]) && SourceKey(db.outbox[i]) in db.runs;
      var m :| m in db.messages && AnsweredBy(m, db.outbox[i]);
      assert m in db'.messages && AnsweredBy(m, db'.outbox[i]);
    }
  }

  lemma SourcesExtend(db: Db, m: Message, row: Row)
    requires SourcesOk(db) && m in db.messages && KeyOf(m) !in db.runs && AnsweredBy(m, row)
    ensures SourcesOk(db.(runs := db.runs + [KeyOf(m)], outbox := db.outbox + [row]))
  {
    assert forall i :: 0 <= i < |db.outbox| ==> SourceKey(db.outbox[i]) != KeyOf(m);
  }

  lemma SourcesKept(cfg: Config, s: Sys, act: Act, at: int)
    requires HandlersOk(s) && SourcesOk(s.db) && Enabled(cfg, s, act, at)
    ensures SourcesOk(Next(cfg, s, act, at).db)
  {
    var db, db' := s.db, Next(cfg, s, act, at).db;
    if act.RunWorkflow? && |db'.outbox| > |db.outbox| {
      SourcesExtend(db, s.handlers[act.h].message, db'.outbox[|db.outbox|]);
    } else {
      SourcesCarryOver(db, db');
    }
  }

  lemma ConversationsKept(cfg: Config, s: Sys, act: Act, at: int)
    requires ConversationsOk(cfg, s.db) && Enabled(cfg, s, act, at)
    ensures ConversationsOk(cfg, Next(cfg, s, act, at).db)
  {
    if act.Deliver? && EventOf(s.db, act.delivery).Some? {
      var e := EventOf(s.db, act.delivery).value;
      WindowStep(cfg.ttl, RowAt(s.db, e.0), e.1);
    }
  }

  /** Every step keeps the whole invariant. */
  lemma InvKept(cfg: Config, s: Sys, act: Act, at: int)
    requires Inv(cfg, s) && s.now <= at && Enabled(cfg, s, act, at)
    ensures Inv(cfg, Next(cfg, s, act, at))
  {
    RowsKept(cfg, s, act, at);
    OwnershipKept(cfg, s, act, at);
    MessagesKept(cfg, s, act, at);
    HandlersKept(cfg, s, act, at);
    RunsKept(cfg, s, act, at);
    SourcesKept(cfg, s, act, at);
    ConversationsKept(cfg, s, act, at);
  }

  /** The invariant holds at the end of every run that starts in it, so in every reachable state. */
  lemma {:induction false} InvHolds(cfg: Config, run: Run)
    requires IsRun(cfg, run) && (Inv(cfg, First(run)) || Initial(First(run)))
    ensures Inv(cfg, Last(cfg, run))
  {
    if run.Then? {
      InvHolds(cfg, run.before);
      InvKept(cfg, Last(cfg, run.before), run.act, run.at);
    }
  }

  // ---- What a step may do to a row ---------------------------------------------------------------

  predicate Holds(s: Sys, w: nat, i: nat) {
    w < |s.workers| && s.workers[w].Holding? && s.workers[w].row == i
  }

  /** A held row is in the outbox, executing, as read at the claim, and has one holder. */
  lemma HoldersAgree(s: Sys, i: nat)
    requires OwnershipOk(s)
    ensures forall w: nat :: Holds(s, w, i) ==>
              i < |s.db.outbox| && s.db.outbox[i].status == Executing
              && s.db.outbox[i].attempts == s.workers[w].attempts
    ensures forall v: nat, w: nat :: Holds(s, v, i) && Holds(s, w, i) ==> v == w
  {
    forall w: nat | Holds(s, w, i)
      ensures i < |s.db.outbox| && s.db.outbox[i].status == Executing
              && s.db.outbox[i].attempts == s.workers[w].attempts
    {
      assert HolderOk(s, w);
    }
  }

  /** A row changes only by being claimed while live, or by its holder marking it while it is
      executing; its action never changes, and a terminal row not at all. */
  lemma RowStep(cfg: Config, s: Sys, act: Act, at: int, i: nat)
    requires OwnershipOk(s) && Enabled(cfg, s, act, at) && i < |s.db.outbox|
    ensures var row := s.db.outbox[i];
            && i < |Next(cfg, s, act, at).db.outbox|
            && var row' := Next(cfg, s, act, at).db.outbox[i];
            && SameAction(row, row')
            && (row' != row ==>
                  || (act.Claim? && act.row == i && IsLive(row) && row' == Claimed(row))
                  || (act.Mark? && Holds(s, act.w, i) && row.status == Executing
                      && row' == MarkedRow(cfg, row, s.workers[act.w], at)))
            && (IsTerminal(row) ==> row' == row)
  {
    if act.Mark? {
      assert HolderOk(s, act.w);
    }
  }

  lemma MarkedStatus(cfg: Config, row: Row, h: Worker, at: int)
    requires h.Holding? && StageAllows(h.stage, Mark(0))
    ensures MarkedRow(cfg, row, h, at).status == RetryableFailure || IsTerminal(MarkedRow(cfg, row, h, at))
  {
  }

  /** A row that has changed is live only if its holder has just marked it as failed retryably. */
  lemma LiveAgain(cfg: Config, s: Sys, act: Act, at: int, i: nat)
    requires OwnershipOk(s) && Enabled(cfg, s, act, at) && i < |s.db.outbox|
    ensures i < |Next(cfg, s, act, at).db.outbox|
    ensures var row' := Next(cfg, s, act, at).db.outbox[i];
            row' == s.db.outbox[i] || !IsLive(row')
            || (act.Mark? && Target(s, act) == Some(i) && row'.status == RetryableFailure)
  {
    hide RunRecorded, Delivered, StageAfter, MarkedRow;
    RowStep(cfg, s, act, at, i);
    if act.Mark? {
      MarkedStatus(cfg, s.db.outbox[i], s.workers[act.w], at);
    }
  }

  /** What a claim and a mark write, field by field. A claim takes the row out of the queue. A
      failed send is counted from the attempts read with the claim; it is tried again after the
      retry delay exactly if it may be and attempts are left, and is otherwise permanent. */
  lemma StepWrites(cfg: Config, s: Sys, act: Act, at: int)
    requires Enabled(cfg, s, act, at)
    ensures var s' := Next(cfg, s, act, at);
            match act
            case Claim(w, i, mode) =>
              var row := s.db.outbox[i];
              && s'.db.outbox == s.db.outbox[i := row.(status := Executing, nextAttemptAt := None)]
              && s'.workers == s.workers[w := Holding(i, row.attempts, mode, JustClaimed)]
            case Mark(w) =>
              var h := s.workers[w];
              var row := s.db.outbox[h.row];
              && s'.workers == s.workers[w := Idle]
              && s'.db.outbox == s.db.outbox[h.row :=
                   match h.stage
                   case ToBlock(reason) => row.(status := BlockedByPolicy, failureReason := Some(reason), nextAttemptAt := None)
                   case ToSupersede =>
                     row.(status := OutboundStatus.Superseded, nextAttemptAt := None,
                          failureReason := Some("conversation.superseded_by_new_customer_message"))
                   case SendFailed(code, retryable) =>
                     var again := retryable && h.attempts + 1 < cfg.maxAttempts;
                     row.(status := if again then RetryableFailure else PermanentFailure, attempts := h.attempts + 1,
                          nextAttemptAt := if again then Some(at + cfg.retryDelay) else None,
                          failureReason := Some(code), errorCode := Some(code))
                   case SendAccepted(id) => row.(status := Sent, providerMessageId := Some(id), nextAttemptAt := None)
                   case Updated(id, failure) =>
                     row.(status := Sent, providerMessageId := Some(id), nextAttemptAt := None,
                          failureReason := if failure.Some? then failure else row.failureReason)
                   case _ => row]
            case _ => true
  {
    hide RunRecorded, Delivered, StageAfter;
  }

  /** The outbox grows only by the row of a workflow run, queued and stamped with its time. */
  lemma InsertedRow(cfg: Config, s: Sys, act: Act, at: int)
    requires Enabled(cfg, s, act, at)
    ensures var rows, rows' := s.db.outbox, Next(cfg, s, act, at).db.outbox;
            && |rows| <= |rows'| <= |rows| + 1
            && (|rows'| > |rows| ==>
                  && act.RunWorkflow? && rows' == rows + [rows'[|rows|]]
                  && rows'[|rows|].createdAt == at && rows'[|rows|].status == Queued && rows'[|rows|].attempts == 0)
            && (|rows'| == |rows| && !act.Claim? && !act.Mark? ==> rows' == rows)
  {
    hide Decide;
  }

  /** A step leaves the holder of every row but its own as it was. */
  lemma OtherHolders(cfg: Config, s: Sys, act: Act, at: int, i: nat)
    requires Enabled(cfg, s, act, at) && Target(s, act) != Some(i)
    ensures forall w: nat :: Holds(Next(cfg, s, act, at), w, i) ==>
              Holds(s, w, i) && Next(cfg, s, act, at).workers[w] == s.workers[w]
  {
    hide RunRecorded, Delivered;
  }

  /** Once terminal, a row stays as it is through any run. */
  lemma {:induction false} TerminalForever(cfg: Config, run: Run, i: nat)
    requires IsRun(cfg, run) && Inv(cfg, First(run))
    requires i < |First(run).db.outbox| && IsTerminal(First(run).db.outbox[i])
    ensures i < |Last(cfg, run).db.outbox| && Last(cfg, run).db.outbox[i] == First(run).db.outbox[i]
  {
    if run.Then? {
      TerminalForever(cfg, run.before, i);
      InvHolds(cfg, run.before);
      RowStep(cfg, Last(cfg, run.before), run.act, run.at, i);
    }
  }

  /** A row left executing with no holder is never touched again: nothing reclaims it. */
  lemma {:induction false} AbandonedForever(cfg: Config, early: Run, run: Run, i: nat)
    requires IsRun(cfg, early) && IsRun(cfg, run) && IsPrefix(early, run)
    requires Inv(cfg, First(run)) || Initial(First(run))
    requires i < |Last(cfg, early).db.outbox| && Last(cfg, early).db.outbox[i].status == Executing
    requires forall w: nat :: !Holds(Last(cfg, early), w, i)
    ensures i < |Last(cfg, run).db.outbox| && Last(cfg, run).db.outbox[i] == Last(cfg, early).db.outbox[i]
    ensures forall w: nat :: !Holds(Last(cfg, run), w, i)
  {
    hide Next, Enabled;
    if early != run {
      AbandonedForever(cfg, early, run.before, i);
      InvHolds(cfg, run.before);
      AbandonedStep(cfg, Last(cfg, run.before), run.act, run.at, i);
    }
  }

  lemma AbandonedStep(cfg: Config, s: Sys, act: Act, at: int, i: nat)
    requires OwnershipOk(s) && Enabled(cfg, s, act, at)
    requires i < |s.db.outbox| && s.db.outbox[i].status == Executing
    requires forall w: nat :: !Holds(s, w, i)
    ensures i < |Next(cfg, s, act, at).db.outbox| && Next(cfg, s, act, at).db.outbox[i] == s.db.outbox[i]
    ensures forall w: nat :: !Holds(Next(cfg, s, act, at), w, i)
  {
    hide RunRecorded, Delivered, StageAfter, MarkedRow;
    RowStep(cfg, s, act, at, i);
    assert !act.Claim? && Target(s, act).Some? ==> Holds(s, act.w, Target(s, act).value);
    OtherHolders(cfg, s, act, at, i);
  }

  // ---- How a held row leaves executing -----------------------------------------------------------

  /** The steps a worker still has to take, at most, to mark the row it holds. */
  function StepsLeft(stage: Stage): nat {
    match stage
    case JustClaimed => 7
    case NotSuperseded => 6
    case StaticPassed => 5
    case StoredPassed => 4
    case Cleared => 3
    case Ready => 2
    case _ => 1
  }

  /** A step that brings a worker on, with some answer from Chatwoot. */
  function StepOn(w: nat, stage: Stage): Act {
    match stage
    case JustClaimed => CheckNewer(w)
    case NotSuperseded => CheckContent(w)
    case StaticPassed => ReadStored(w)
    case StoredPassed => ReadChannel(w, SafetyRead(ChannelSafety("", None, false, None, None, None)))
    case Cleared => CheckNewer(w)
    case Ready => Send(w, Refused("", false))
    case _ => Mark(w)
  }

  lemma StepsOn(cfg: Config, s: Sys, w: nat, i: nat)
    requires OwnershipOk(s) && ConversationsOk(cfg, s.db) && Holds(s, w, i)
    ensures Enabled(cfg, s, StepOn(w, s.workers[w].stage), s.now)
    ensures var s' := Next(cfg, s, StepOn(w, s.workers[w].stage), s.now);
            && s'.now == s.now && i < |s'.db.outbox|
            && if StepsLeft(s.workers[w].stage) == 1 then s'.db.outbox[i].status != Executing
               else Holds(s', w, i) && StepsLeft(s'.workers[w].stage) < StepsLeft(s.workers[w].stage)
  {
    hide RunRecorded, Delivered, HasNewerCustomerMessage, StaticBlockedReason, ChannelBlockedReason;
    assert HolderOk(s, w);
  }

  /** From any reachable state a worker can mark the row it holds, within seven steps of its own. */
  lemma {:induction false} HeldRowCanBeMarked(cfg: Config, run: Run, w: nat, i: nat) returns (more: Run)
    requires IsRun(cfg, run) && (Inv(cfg, First(run)) || Initial(First(run)))
    requires Holds(Last(cfg, run), w, i)
    ensures IsPrefix(run, more) && IsRun(cfg, more)
    ensures Steps(more) <= Steps(run) + StepsLeft(Last(cfg, run).workers[w].stage) && Steps(more) <= Steps(run) + 7
    ensures i < |Last(cfg, more).db.outbox| && Last(cfg, more).db.outbox[i].status != Executing
    decreases StepsLeft(Last(cfg, run).workers[w].stage)
  {
    hide Next, Enabled, StepOn, Inv;
    InvHolds(cfg, run);
    InvParts(cfg, Last(cfg, run));
    var s := Last(cfg, run);
    StepsOn(cfg, s, w, i);
    more := Then(run, StepOn(w, s.workers[w].stage), s.now);
    if StepsLeft(s.workers[w].stage) > 1 {
      var step := more;
      more := HeldRowCanBeMarked(cfg, step, w, i);
      PrefixChain(run, step, more);
    }
  }

  lemma InvParts(cfg: Config, s: Sys)
    requires Inv(cfg, s)
    ensures OwnershipOk(s) && ConversationsOk(cfg, s.db)
  {
  }

  ghost predicate CanLeaveExecuting(cfg: Config, run: Run, i: nat) {
    exists more :: IsPrefix(run, more) && IsRun(cfg, more)
                   && i < |Last(cfg, more).db.outbox| && Last(cfg, more).db.outbox[i].status != Executing
  }

  /** In every reachable state an executing row can still leave that status exactly when some
      worker holds it. */
  lemma LeavesExecutingIffHeld(cfg: Config, run: Run, i: nat)
    requires IsRun(cfg, run) && (Inv(cfg, First(run)) || Initial(First(run)))
    requires i < |Last(cfg, run).db.outbox| && Last(cfg, run).db.outbox[i].status == Executing
    ensures CanLeaveExecuting(cfg, run, i) <==> exists w: nat :: Holds(Last(cfg, run), w, i)
  {
    hide Next, Enabled, Inv, Initial;
    if w: nat :| Holds(Last(cfg, run), w, i) {
      var more := HeldRowCanBeMarked(cfg, run, w, i);
    } else {
      forall more | IsPrefix(run, more) && IsRun(cfg, more) && i < |Last(cfg, more).db.outbox|
        ensures Last(cfg, more).db.outbox[i].status == Executing
      {
        PrefixIsRun(cfg, run, more);
        AbandonedForever(cfg, run, more, i);
      }
    }
  }
}
