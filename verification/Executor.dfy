/** The outbound executor, step by step over the shared tables. Its work is recorded as a run of
    the protocol whose calls are those in the log of its Chatwoot client, so that what is proved
    of every run holds of the rows it writes and of the calls it makes. */
module Executor {
  import opened Domain
  import opened Text
  import opened Policy
  import opened Workflow
  import opened MessageOrder
  import opened Outbox
  import opened Database
  import opened Store
  import opened Time
  import opened Protocol
  import opened Progress
  import opened Chatwoot

  datatype PostSend = PostSend(updateStatus: bool, status: string, markNeedsHuman: bool, needsHumanLabel: string)

  /** Whether a sent action is followed by a status change or a label: a public reply by the
      configured status, a human-review note by the configured label. */
  predicate IsFollowedUp(lex: Lexicon, settings: PostSend, row: Row) {
    match row.kind
    case PublicMessage => settings.updateStatus && !Blank(lex, settings.status)
    case PrivateNote => settings.markNeedsHuman && !Blank(lex, settings.needsHumanLabel) && IsHumanReview(row.safety)
    case NoAction => false
  }

  /** A public reply is followed by a status change exactly if that is switched on and a status is
      configured; a note by a label exactly if that is switched on, a label is configured, and a
      rule id or risk reason of the note begins with "public." or "intent.". */
  lemma FollowedUpIff(lex: Lexicon, settings: PostSend, row: Row)
    ensures row.kind == PublicMessage ==>
              (IsFollowedUp(lex, settings, row) <==>
                 settings.updateStatus && exists i :: 0 <= i < |settings.status| && !lex.space(settings.status[i]))
    ensures row.kind == PrivateNote ==>
              (IsFollowedUp(lex, settings, row) <==>
                 && settings.markNeedsHuman
                 && (exists i :: 0 <= i < |settings.needsHumanLabel| && !lex.space(settings.needsHumanLabel[i]))
                 && exists marker :: (marker in row.safety.ruleIds || marker in row.safety.riskReasons)
                                     && |marker| >= 7 && (marker[..7] == "public." || marker[..7] == "intent."))
  {
    hide IsHumanReview;
    HumanReviewIff(row.safety);
  }

  datatype Counts = Counts(sent: nat, blocked: nat, failed: nat, superseded: nat)

  function Total(c: Counts): nat {
    c.sent + c.blocked + c.failed + c.superseded
  }

  /** What one turn of the loop came to. */
  datatype Outcome = NothingDue | WasSent | WasBlocked | WasFailed | WasSuperseded | Raised

  function StatusOf(outcome: Outcome): set<OutboundStatus> {
    match outcome
    case NothingDue => {}
    case WasSent => {Sent}
    case WasBlocked => {BlockedByPolicy}
    case WasFailed => {RetryableFailure, PermanentFailure}
    case WasSuperseded => {OutboundStatus.Superseded}
    case Raised => {Executing}
  }

  /** The row claimed last in a run. */
  function LastClaimed(run: Run): Option<nat> {
    if run.Begin? then None
    else if run.act.Claim? then Some(run.act.row)
    else LastClaimed(run.before)
  }

  /** `run` goes on from `early` without another claim. */
  ghost predicate Continues(cfg: Config, early: Run, run: Run) {
    && IsPrefix(early, run) && IsRun(cfg, early) && IsRun(cfg, run)
    && Claims(cfg, run, None) == Claims(cfg, early, None)
    && LastClaimed(run) == LastClaimed(early)
  }

  lemma ContinuesChain(cfg: Config, a: Run, b: Run, c: Run)
    requires Continues(cfg, a, b) && Continues(cfg, b, c)
    ensures Continues(cfg, a, c)
  {
    PrefixChain(a, b, c);
  }

  lemma ContinuesStep(cfg: Config, a: Run, b: Run, act: Act, at: int)
    requires Continues(cfg, a, b) && IsRun(cfg, Then(b, act, at)) && !act.Claim?
    ensures Continues(cfg, a, Then(b, act, at))
  {
  }

  function Counted(c: Counts, outcome: Outcome): Counts {
    match outcome
    case WasSent => c.(sent := c.sent + 1)
    case WasBlocked => c.(blocked := c.blocked + 1)
    case WasFailed => c.(failed := c.failed + 1)
    case WasSuperseded => c.(superseded := c.superseded + 1)
    case _ => c
  }

  /** The counters account for the change from the rows `before` to the rows `after`; a raising
      run leaves one more row executing. */
  predicate Tallied(before: seq<Row>, after: seq<Row>, c: Counts, raised: bool) {
    && StatusCount(after, Sent) == StatusCount(before, Sent) + c.sent
    && StatusCount(after, BlockedByPolicy) == StatusCount(before, BlockedByPolicy) + c.blocked
    && StatusCount(after, OutboundStatus.Superseded) == StatusCount(before, OutboundStatus.Superseded) + c.superseded
    && StatusCount(after, Executing) == StatusCount(before, Executing) + if raised then 1 else 0
  }

  lemma TallyTurn(before: seq<Row>, rows: seq<Row>, i: nat, row: Row, c: Counts, outcome: Outcome)
    requires Tallied(before, rows, c, false) && outcome != NothingDue
    requires i < |rows| && IsLive(rows[i]) && row.status in StatusOf(outcome)
    ensures Tallied(before, rows[i := row], Counted(c, outcome), outcome == Raised)
  {
    StatusCountUpdate(rows, i, row, Sent);
    StatusCountUpdate(rows, i, row, BlockedByPolicy);
    StatusCountUpdate(rows, i, row, OutboundStatus.Superseded);
    StatusCountUpdate(rows, i, row, Executing);
  }

  /** The `create_message` calls of one turn: one for a send, which returned an id exactly when
      the row counts as sent, and none for a row that is blocked or superseded. A turn that
      raises may have raised in its call or after it. */
  predicate CallsFit(before: seq<Call>, after: seq<Call>, outcome: Outcome) {
    match outcome
    case WasSent => Created(after) == Created(before) + 1 && Answered(after) == Answered(before) + 1
    case WasFailed => Created(after) == Created(before) + 1 && Answered(after) == Answered(before)
    case Raised =>
      && Created(before) <= Created(after) <= Created(before) + 1
      && Answered(before) <= Answered(after) <= Answered(before) + 1
    case _ => Created(after) == Created(before) && Answered(after) == Answered(before)
  }

  lemma CountedUpdate(before: seq<Call>, after: seq<Call>)
    requires after == before
             || (|after| == |before| + 1 && after == before + [after[|before|]] && after[|before|].UpdateCall?)
    ensures Created(after) == Created(before) && Answered(after) == Answered(before)
  {
    if after != before {
      CountedCall(before, after[|before|]);
    }
  }

  /** The counters account for the calls made; at most one more was made by a turn that raised. */
  predicate CallsTallied(before: seq<Call>, after: seq<Call>, c: Counts, raised: bool) {
    var open := if raised then 1 else 0;
    && Created(before) + c.sent + c.failed <= Created(after) <= Created(before) + c.sent + c.failed + open
    && Answered(before) + c.sent <= Answered(after) <= Answered(before) + c.sent + open
  }

  class ExecuteOutboundActions {
    const cfg: Config
    const mode: AutomationMode
    const postSend: PostSend
    const w: nat
    const repo: Repository
    const chatwoot: ChatwootClient
    const clock: Clock
    ghost const since: nat
    ghost const heard: seq<Call>
    ghost var run: Run

    constructor (cfg: Config, mode: AutomationMode, postSend: PostSend, w: nat, repo: Repository,
                 chatwoot: ChatwootClient, clock: Clock, ghost run: Run)
      requires IsRun(cfg, run) && Last(cfg, run).db == repo.Snapshot()
      requires w < |Last(cfg, run).workers| && Last(cfg, run).workers[w] == Idle
      requires Last(cfg, run).now <= clock.reading
      ensures Valid() && AtRest()
      ensures this.cfg == cfg && this.mode == mode && this.w == w && this.repo == repo && this.chatwoot == chatwoot
      ensures this.run == run
    {
      this.cfg, this.mode, this.postSend, this.w := cfg, mode, postSend, w;
      this.repo, this.chatwoot, this.clock, this.run := repo, chatwoot, clock, run;
      this.since, this.heard := Steps(run), chatwoot.log;
    }

    /** The recorded run ends in the present state of the tables, and what was asked of Chatwoot
        since this executor was set up is exactly what its steps in that run stand for. */
    ghost predicate Valid()
      reads this, repo, clock, chatwoot
    {
      && IsRun(cfg, run)
      && Last(cfg, run).db == repo.Snapshot()
      && w < |Last(cfg, run).workers|
      && Last(cfg, run).now <= clock.reading
      && since <= Steps(run) && chatwoot.log == heard + CallsSince(cfg, run, w, since)
    }

    ghost predicate AtRest()
      requires Valid()
      reads this, repo, clock, chatwoot
    {
      Last(cfg, run).workers[w] == Idle
    }

    /** This worker holds row `i` and stands at the given stage. */
    ghost predicate At(i: nat, attempts: nat, stage: Stage)
      requires Valid()
      reads this, repo, clock, chatwoot
    {
      i < |repo.outbox| && Last(cfg, run).workers[w] == Holding(i, attempts, mode, stage)
    }

    method IsSuperseded(i: nat, ghost attempts: nat, ghost stage: Stage) returns (superseded: bool)
      requires Valid() && At(i, attempts, stage) && (stage == JustClaimed || stage == Cleared)
      modifies this`run
      ensures Valid() && Continues(cfg, old(run), run)
      ensures At(i, attempts, if superseded then ToSupersede else if stage == JustClaimed then NotSuperseded else Ready)
    {
      superseded := Protocol.IsSuperseded(cfg, repo.Snapshot(), repo.outbox[i]);
      run := Then(run, CheckNewer(w), clock.reading);
    }

    /** `_blocked_reason`. */
    method BlockedReason(i: nat, ghost attempts: nat) returns (reason: Option<string>, raised: bool)
      requires Valid() && At(i, attempts, NotSuperseded)
      modifies this`run, clock, chatwoot
      ensures Valid() && Continues(cfg, old(run), run)
      ensures Created(chatwoot.log) == Created(old(chatwoot.log)) && Answered(chatwoot.log) == Answered(old(chatwoot.log))
      ensures raised ==> AtRest()
      ensures !raised ==> At(i, attempts, if reason.Some? then ToBlock(reason.value) else Cleared)
    {
      var row := repo.outbox[i];
      reason, raised := None, false;
      ghost var start := run;
      match row.kind {
        case PrivateNote =>
          if Blank(cfg.lex, row.content) {
            reason := Some(RuleId(ContentEmpty));
          }
          run := Then(run, CheckContent(w), clock.reading);
        case PublicMessage =>
          var fixed := StaticBlockedReason(cfg.lex, mode, row.content, row.safety);
          run := Then(run, CheckContent(w), clock.reading);
          if fixed.Some? {
            reason := Some(RuleId(fixed.value));
            return;
          }
          ghost var checked := run;
          reason, raised := ChannelChecks(i, attempts);
          ContinuesChain(cfg, start, checked, run);
        case NoAction =>
          reason := Some(RuleId(UnknownActionKind));
          run := Then(run, CheckContent(w), clock.reading);
      }
    }

    /** The two reads of `_blocked_reason` that follow a passed static check: the stored state,
        and, if that is safe, Chatwoot's own. */
    method ChannelChecks(i: nat, ghost attempts: nat) returns (reason: Option<string>, raised: bool)
      requires Valid() && At(i, attempts, StaticPassed)
      modifies this`run, clock, chatwoot
      ensures Valid() && Continues(cfg, old(run), run)
      ensures Created(chatwoot.log) == Created(old(chatwoot.log)) && Answered(chatwoot.log) == Answered(old(chatwoot.log))
      ensures raised ==> AtRest()
      ensures !raised ==> At(i, attempts, if reason.Some? then ToBlock(reason.value) else Cleared)
    {
      hide Next, Enabled, CallsSince, Claims, LastClaimed, Created, Answered;
      ghost var start := run;
      reason, raised := StoredStateCheck(i, attempts);
      ghost var read := run;
      if raised || reason.Some? {
        return;
      }
      reason, raised := ChannelStateCheck(i, attempts);
      ContinuesChain(cfg, start, read, run);
    }

    method StoredStateCheck(i: nat, ghost attempts: nat) returns (reason: Option<string>, raised: bool)
      requires Valid() && At(i, attempts, StaticPassed)
      modifies this`run, clock
      ensures Valid() && Continues(cfg, old(run), run)
      ensures raised ==> AtRest()
      ensures !raised ==> At(i, attempts, if reason.Some? then ToBlock(reason.value) else StoredPassed)
    {
      hide RunRecorded, Delivered, MarkedRow;
      var now := clock.Now();
      var verdict := StoredVerdict(repo.Snapshot(), RowConversation(repo.outbox[i]), now);
      ghost var start := run;
      run := Then(run, ReadStored(w), now);
      ContinuesStep(cfg, start, start, ReadStored(w), now);
      raised := verdict.None?;
      reason := if !raised && verdict.value.Some? then Some(RuleId(verdict.value.value)) else None;
    }

    method ChannelStateCheck(i: nat, ghost attempts: nat) returns (reason: Option<string>, raised: bool)
      requires Valid() && At(i, attempts, StoredPassed)
      modifies this`run, chatwoot
      ensures Valid() && Continues(cfg, old(run), run)
      ensures Created(chatwoot.log) == Created(old(chatwoot.log)) && Answered(chatwoot.log) == Answered(old(chatwoot.log))
      ensures |chatwoot.log| == |old(chatwoot.log)| + 1 && chatwoot.log[|old(chatwoot.log)|].SafetyCall?
      ensures var reply := chatwoot.log[|old(chatwoot.log)|].safety;
              && chatwoot.log == old(chatwoot.log) + [SafetyCall(repo.outbox[i].conversation, reply)]
              && (raised <==> reply.SafetyFails?)
      ensures raised ==> AtRest()
      ensures !raised ==> At(i, attempts, if reason.Some? then ToBlock(reason.value) else Cleared)
    {
      hide RunRecorded, Delivered, MarkedRow;
      var where := repo.outbox[i].conversation;
      ghost var start, earlier := run, chatwoot.log;
      var reply := chatwoot.GetConversationSafety(where);
      CountedCall(earlier, SafetyCall(where, reply));
      run := Then(run, ReadChannel(w, reply), clock.reading);
      ContinuesStep(cfg, start, start, ReadChannel(w, reply), clock.reading);
      raised := reply.SafetyFails?;
      reason := None;
      if !raised {
        var verdict := ChannelBlockedReason(where, reply.safety);
        reason := if verdict.Some? then Some(RuleId(verdict.value)) else None;
      }
    }

    method MarkBlocked(i: nat, reason: string, ghost attempts: nat)
      requires Valid() && At(i, attempts, ToBlock(reason))
      modifies this`run, repo`outbox
      ensures Valid() && AtRest() && Continues(cfg, old(run), run)
      ensures repo.outbox == old(repo.outbox)[i := MarkedBlocked(old(repo.outbox)[i], reason)]
    {
      hide RunRecorded, Delivered, StageAfter;
      ghost var start := run;
      repo.MarkOutboundAction(i, BlockedByPolicy, None, Some(reason), None, None, true, None);
      run := Then(run, Mark(w), clock.reading);
      ContinuesStep(cfg, start, start, Mark(w), clock.reading);
    }

    method MarkSuperseded(i: nat, ghost attempts: nat)
      requires Valid() && At(i, attempts, ToSupersede)
      modifies this`run, repo`outbox
      ensures Valid() && AtRest() && Continues(cfg, old(run), run)
      ensures repo.outbox == old(repo.outbox)[i := MarkedSuperseded(old(repo.outbox)[i])]
    {
      hide RunRecorded, Delivered, StageAfter;
      ghost var start := run;
      var reason := RuleId(ConversationSuperseded);
      repo.MarkOutboundAction(i, OutboundStatus.Superseded, None, Some(reason), None, None, true, None);
      run := Then(run, Mark(w), clock.reading);
      ContinuesStep(cfg, start, start, Mark(w), clock.reading);
    }

    method MarkSendFailure(i: nat, attempts: nat, code: string, retryable: bool)
      requires Valid() && At(i, attempts, SendFailed(code, retryable))
      modifies this`run, repo`outbox, clock
      ensures Valid() && AtRest() && Continues(cfg, old(run), run)
      ensures |repo.outbox| == |old(repo.outbox)|
      ensures repo.outbox == old(repo.outbox)[i := repo.outbox[i]]
      ensures repo.outbox[i] == old(repo.outbox)[i].(
                status := if retryable && attempts + 1 < cfg.maxAttempts then RetryableFailure else PermanentFailure,
                nextAttemptAt := if retryable && attempts + 1 < cfg.maxAttempts
                                 then Some(clock.reading + cfg.retryDelay) else None,
                attempts := attempts + 1, failureReason := Some(code), errorCode := Some(code))
    {
      hide RunRecorded, Delivered, StageAfter;
      ghost var start := run;
      var status := FailureStatus(retryable, attempts + 1, cfg.maxAttempts);
      var now := clock.Now();
      var next := if status == RetryableFailure then Some(now + cfg.retryDelay) else None;
      repo.MarkOutboundAction(i, status, None, Some(code), Some(attempts + 1), next, next.None?, Some(code));
      run := Then(run, Mark(w), now);
      ContinuesStep(cfg, start, start, Mark(w), now);
    }

    /** `_apply_post_send_updates`: the one update a sent row asks for, if any. A failing one is
        noted; one that escapes raises. */
    method ApplyPostSendUpdates(i: nat, id: string, ghost attempts: nat) returns (failure: Option<string>, raised: bool)
      requires Valid() && At(i, attempts, SendAccepted(id))
      modifies this`run, chatwoot
      ensures Valid() && Continues(cfg, old(run), run)
      ensures raised ==> AtRest()
      ensures !raised ==> (At(i, attempts, SendAccepted(id)) && failure.None?) || At(i, attempts, Updated(id, failure))
      ensures UpdateLogged(old(chatwoot.log), chatwoot.log, repo.outbox[i], failure, raised)
    {
      hide RunRecorded, Delivered, MarkedRow, HasNewerCustomerMessage;
      hide StaticBlockedReason, StoredVerdict, ChannelBlockedReason;
      var row := repo.outbox[i];
      failure, raised := None, false;
      if IsFollowedUp(cfg.lex, postSend, row) {
        var reply := chatwoot.UpdateAfterSend(row.conversation, row.kind);
        ghost var start := run;
        run := Then(run, FollowUp(w, reply), clock.reading);
        ContinuesStep(cfg, start, start, FollowUp(w, reply), clock.reading);
        if reply.UpdateEscapes? {
          raised := true;
          return;
        }
        if reply.UpdateFails? {
          failure := Some(UpdateFailure(row.kind, reply.code));
        }
      }
    }

    /** The log after the follow-up of a sent row: one update exactly if the row is followed up,
        and what it answered decides what is noted or raised. */
    ghost predicate UpdateLogged(before: seq<Call>, after: seq<Call>, row: Row, failure: Option<string>, raised: bool) {
      if !IsFollowedUp(cfg.lex, postSend, row) then after == before && failure == None && !raised
      else
        && |after| == |before| + 1 && after[|before|].UpdateCall?
        && var reply := after[|before|].update;
           && after == before + [UpdateCall(row.conversation, row.kind, reply)]
           && (raised <==> reply.UpdateEscapes?)
           && failure == if reply.UpdateFails?
                         then Some((if row.kind == PublicMessage then "status_update_failed:" else "label_update_failed:")
                                   + reply.code)
                         else None
    }

    /** The message is out: the row is marked sent with what was noted of the update. If the
        update raised, the row stays executing. */
    method MarkSent(i: nat, id: string, ghost attempts: nat) returns (raised: bool)
      requires Valid() && At(i, attempts, SendAccepted(id))
      modifies this`run, repo`outbox, chatwoot
      ensures Valid() && AtRest() && Continues(cfg, old(run), run)
      ensures exists failure ::
                && UpdateLogged(old(chatwoot.log), chatwoot.log, old(repo.outbox)[i], failure, raised)
                && repo.outbox == if raised then old(repo.outbox)
                                  else old(repo.outbox)[i := MarkedSent(old(repo.outbox)[i], id, failure)]
    {
      hide RunRecorded, Delivered, StageAfter;
      ghost var start := run;
      var failure;
      failure, raised := ApplyPostSendUpdates(i, id, attempts);
      assert UpdateLogged(old(chatwoot.log), chatwoot.log, old(repo.outbox)[i], failure, raised);
      if raised {
        return;
      }
      ghost var updated := run;
      repo.MarkOutboundAction(i, Sent, Some(id), failure, None, None, true, None);
      run := Then(run, Mark(w), clock.reading);
      ContinuesStep(cfg, start, updated, Mark(w), clock.reading);
    }

    /** Claim the oldest due row. */
    method ClaimNext() returns (claimed: Option<nat>)
      requires Valid() && AtRest()
      modifies this`run, repo`outbox, clock
      ensures Valid() && IsPrefix(old(run), run)
      ensures claimed.None? ==>
                && AtRest() && Continues(cfg, old(run), run) && repo.outbox == old(repo.outbox)
                && forall i :: 0 <= i < |repo.outbox| ==> !Due(repo.outbox[i], clock.reading, cfg.replyDelay)
      ensures claimed.Some? ==>
                && claimed.value < |old(repo.outbox)| && IsLive(old(repo.outbox)[claimed.value])
                && repo.outbox == old(repo.outbox)[claimed.value := Claimed(old(repo.outbox)[claimed.value])]
                && At(claimed.value, repo.outbox[claimed.value].attempts, JustClaimed)
                && Claims(cfg, run, None) == Claims(cfg, old(run), None) + 1
                && LastClaimed(run) == claimed
    {
      var now := clock.Now();
      var ids := repo.ClaimQueuedOutboundActions(1, now, cfg.replyDelay);
      if ids == [] {
        claimed := None;
        assert repo.outbox == old(repo.outbox);
      } else {
        claimed := Some(ids[0]);
        assert repo.outbox == old(repo.outbox)[ids[0] := Claimed(old(repo.outbox)[ids[0]])];
        assert IsHead(old(repo.outbox), ids[0], now, cfg.replyDelay);
        run := Then(run, Claim(w, ids[0], mode), now);
      }
    }

    /** One turn of the loop of `run_once`. */
    method ExecuteNext() returns (outcome: Outcome, ghost touched: nat)
      requires Valid() && AtRest()
      modifies this`run, repo`outbox, clock, chatwoot
      ensures Valid() && AtRest() && IsPrefix(old(run), run) && CallsFit(old(chatwoot.log), chatwoot.log, outcome)
      ensures outcome == NothingDue ==>
                && repo.outbox == old(repo.outbox) && Claims(cfg, run, None) == Claims(cfg, old(run), None)
                && forall i :: 0 <= i < |repo.outbox| ==> !Due(repo.outbox[i], clock.reading, cfg.replyDelay)
      ensures outcome != NothingDue ==>
                && touched < |old(repo.outbox)| && IsLive(old(repo.outbox)[touched])
                && |repo.outbox| == |old(repo.outbox)|
                && repo.outbox == old(repo.outbox)[touched := repo.outbox[touched]]
                && repo.outbox[touched].status in StatusOf(outcome)
                && Claims(cfg, run, None) == Claims(cfg, old(run), None) + 1
                && LastClaimed(run) == Some(touched)
    {
      var claimed := ClaimNext();
      touched := 0;
      if claimed.None? {
        outcome := NothingDue;
        return;
      }
      var i := claimed.value;
      touched := i;
      var attempts := repo.outbox[i].attempts;
      ghost var before := run;
      outcome := ExecuteClaimed(i, attempts);
      PrefixChain(old(run), before, run);
    }

    /** The body of the loop after the claim. */
    method ExecuteClaimed(i: nat, attempts: nat) returns (outcome: Outcome)
      requires Valid() && At(i, attempts, JustClaimed) && repo.outbox[i].status == Executing
      modifies this`run, repo`outbox, clock, chatwoot
      ensures CallsFit(old(chatwoot.log), chatwoot.log, outcome)
      ensures Valid() && AtRest() && Continues(cfg, old(run), run) && outcome != NothingDue
      ensures |repo.outbox| == |old(repo.outbox)| && repo.outbox == old(repo.outbox)[i := repo.outbox[i]]
      ensures repo.outbox[i].status in StatusOf(outcome)
    {
      hide Next, Enabled, CallsSince, Claims, LastClaimed, Created, Answered;
      ghost var start := run;
      var superseded := IsSuperseded(i, attempts, JustClaimed);
      ghost var now := run;
      if superseded {
        MarkSuperseded(i, attempts);
        ContinuesChain(cfg, start, now, run);
        outcome := WasSuperseded;
        return;
      }
      outcome := ExecuteCurrent(i, attempts);
      ContinuesChain(cfg, start, now, run);
    }

    /** The rest of it, for a row that was not superseded when claimed. */
    method ExecuteCurrent(i: nat, attempts: nat) returns (outcome: Outcome)
      requires Valid() && At(i, attempts, NotSuperseded) && repo.outbox[i].status == Executing
      modifies this`run, repo`outbox, clock, chatwoot
      ensures CallsFit(old(chatwoot.log), chatwoot.log, outcome)
      ensures Valid() && AtRest() && Continues(cfg, old(run), run) && outcome != NothingDue
      ensures |repo.outbox| == |old(repo.outbox)| && repo.outbox == old(repo.outbox)[i := repo.outbox[i]]
      ensures repo.outbox[i].status in StatusOf(outcome)
    {
      hide Next, Enabled, CallsSince, Claims, LastClaimed, Created, Answered;
      ghost var start := run;
      var reason, raised := BlockedReason(i, attempts);
      ghost var checked := run;
      if raised {
        outcome := Raised;
        return;
      }
      if reason.Some? {
        MarkBlocked(i, reason.value, attempts);
        ContinuesChain(cfg, start, checked, run);
        outcome := WasBlocked;
        return;
      }
      var superseded := IsSuperseded(i, attempts, Cleared);
      ghost var checkedAgain := run;
      ContinuesChain(cfg, start, checked, checkedAgain);
      if superseded {
        MarkSuperseded(i, attempts);
        ContinuesChain(cfg, start, checkedAgain, run);
        outcome := WasSuperseded;
        return;
      }
      outcome := SendClaimed(i, attempts);
      ContinuesChain(cfg, start, checkedAgain, run);
    }

    /** The call itself. */
    method CallChatwoot(i: nat, ghost attempts: nat) returns (reply: SendReply)
      requires Valid() && At(i, attempts, Ready)
      modifies this`run, chatwoot
      ensures Valid() && Continues(cfg, old(run), run)
      ensures var row := repo.outbox[i];
              chatwoot.log == old(chatwoot.log) + [CreateCall(row.conversation, row.content, row.kind == PrivateNote, reply)]
      ensures Created(chatwoot.log) == Created(old(chatwoot.log)) + 1
      ensures Answered(chatwoot.log) == Answered(old(chatwoot.log)) + if reply.Accepted? then 1 else 0
      ensures match reply
              case Accepted(id) => At(i, attempts, SendAccepted(id))
              case Refused(code, retryable) => At(i, attempts, SendFailed(code, retryable))
              case SendEscapes => AtRest()
    {
      hide RunRecorded, Delivered, MarkedRow;
      ghost var earlier := chatwoot.log;
      var row := repo.outbox[i];
      reply := chatwoot.CreateMessage(row.conversation, row.content, row.kind == PrivateNote);
      CountedCall(earlier, CreateCall(row.conversation, row.content, row.kind == PrivateNote, reply));
      ghost var start := run;
      run := Then(run, Send(w, reply), clock.reading);
      ContinuesStep(cfg, start, start, Send(w, reply), clock.reading);
    }

    /** The call, and what is recorded of it. */
    method SendClaimed(i: nat, attempts: nat) returns (outcome: Outcome)
      requires Valid() && At(i, attempts, Ready) && repo.outbox[i].status == Executing
      modifies this`run, repo`outbox, clock, chatwoot
      ensures CallsFit(old(chatwoot.log), chatwoot.log, outcome)
      ensures Valid() && AtRest() && Continues(cfg, old(run), run) && outcome in {WasSent, WasFailed, Raised}
      ensures |repo.outbox| == |old(repo.outbox)| && repo.outbox == old(repo.outbox)[i := repo.outbox[i]]
      ensures repo.outbox[i].status in StatusOf(outcome)
    {
      hide Next, Enabled, CallsSince, Claims, LastClaimed, Created, Answered;
      ghost var start := run;
      var reply := CallChatwoot(i, attempts);
      ghost var called := run;
      match reply {
        case SendEscapes => outcome := Raised;
        case Refused(code, retryable) =>
          MarkSendFailure(i, attempts, code, retryable);
          ContinuesChain(cfg, start, called, run);
          outcome := WasFailed;
        case Accepted(id) =>
          ghost var sent := chatwoot.log;
          var raised := MarkSent(i, id, attempts);
          ContinuesChain(cfg, start, called, run);
          CountedUpdate(sent, chatwoot.log);
          outcome := if raised then Raised else WasSent;
      }
    }

    // ---- run_once ------------------------------------------------------------------------------

    /** What the counters `c` say about the work since the run was `start` and the rows were
        `before`: one claim for each of them, one more if the loop has raised. */
    ghost predicate Accounted(start: Run, before: seq<Row>, earlier: seq<Call>, c: Counts, raised: bool)
      reads this, repo, clock, chatwoot
    {
      && Valid() && AtRest() && IsRun(cfg, start) && IsPrefix(start, run)
      && |repo.outbox| == |before| && Tallied(before, repo.outbox, c, raised)
      && CallsTallied(earlier, chatwoot.log, c, raised)
      && Claims(cfg, run, None) == Claims(cfg, start, None) + Total(c) + if raised then 1 else 0
    }

    predicate NothingIsDue()
      reads this, repo, clock, chatwoot
    {
      forall i :: 0 <= i < |repo.outbox| ==> !Due(repo.outbox[i], clock.reading, cfg.replyDelay)
    }

    /** One turn, counted. */
    method TakeTurn(counts: Counts, ghost start: Run, ghost before: seq<Row>, ghost earlier: seq<Call>)
      returns (counts': Counts, outcome: Outcome, ghost touched: nat)
      requires Accounted(start, before, earlier, counts, false)
      modifies this`run, repo`outbox, clock, chatwoot
      ensures Accounted(start, before, earlier, counts', outcome == Raised)
      ensures Total(counts') == Total(counts) + if outcome in {NothingDue, Raised} then 0 else 1
      ensures outcome == NothingDue ==> NothingIsDue()
      ensures outcome == Raised ==>
                touched < |repo.outbox| && repo.outbox[touched].status == Executing && LastClaimed(run) == Some(touched)
    {
      hide Next, Enabled;
      ghost var rows, sofar := repo.outbox, run;
      outcome, touched := ExecuteNext();
      PrefixChain(start, sofar, run);
      counts' := Counted(counts, outcome);
      if outcome != NothingDue {
        TallyTurn(before, rows, touched, repo.outbox[touched], counts, outcome);
      }
    }

    lemma LogSince(start: Run, earlier: seq<Call>)
      requires Valid() && IsRun(cfg, start) && IsPrefix(start, run)
      requires since <= Steps(start) && earlier == heard + CallsSince(cfg, start, w, since)
      ensures chatwoot.log == earlier + CallsSince(cfg, run, w, Steps(start))
    {
      hide Next, Enabled;
      CallsCompose(cfg, start, run, w, since);
    }

    /** Each counted turn has used up one of the attempts the rows had left. */
    lemma TurnsUsePotential(start: Run, before: seq<Row>, earlier: seq<Call>, c: Counts)
      requires Accounted(start, before, earlier, c, false)
      requires IsRunFromStart(cfg, run) && Last(cfg, start).db.outbox == before
      ensures Total(c) <= Potential(cfg, before, None)
    {
      hide Next, Enabled;
      ClaimsSince(cfg, start, run);
    }

    /** `run_once`. If it returns, its counters add up to its claims, at most `limit`; the sent,
        blocked and superseded ones are the changes in the numbers of such rows, the sent and
        failed ones the `create_message` calls made, the sent ones those that returned an id; no
        row is newly left executing, and no row is added or removed. If it stopped before the
        limit, or the limit exceeds the attempts that the rows had left, nothing is due. If it
        raises, exactly one more row, the last one claimed, is left executing and counted nowhere,
        though its call may have been made, and even have returned an id. All of it is a
        continuation of the protocol run, and its steps there stand for exactly the calls made. */
    method RunOnce(limit: nat) returns (counts: Counts, raised: bool, ghost last: nat)
      requires Valid() && AtRest()
      modifies this`run, repo`outbox, clock, chatwoot
      ensures Accounted(old(run), old(repo.outbox), old(chatwoot.log), counts, raised)
      ensures chatwoot.log == old(chatwoot.log) + CallsSince(cfg, run, w, Steps(old(run)))
      ensures Total(counts) + (if raised then 1 else 0) <= limit
      ensures raised ==> last < |repo.outbox| && repo.outbox[last].status == Executing && LastClaimed(run) == Some(last)
      ensures !raised && Total(counts) < limit ==> NothingIsDue()
      ensures !raised && IsRunFromStart(cfg, run) && limit > Potential(cfg, old(repo.outbox), None) ==> NothingIsDue()
    {
      hide Next, Enabled, CallsSince, Created, Answered, StatusCount, Claims, Potential;
      counts, raised, last := Counts(0, 0, 0, 0), false, 0;
      var outcome := WasSent;
      for k := 0 to limit
        invariant Accounted(old(run), old(repo.outbox), old(chatwoot.log), counts, false)
        invariant Total(counts) == k && outcome !in {NothingDue, Raised}
      {
        counts, outcome, last := TakeTurn(counts, old(run), old(repo.outbox), old(chatwoot.log));
        if outcome == NothingDue || outcome == Raised {
          break;
        }
      }
      raised := outcome == Raised;
      LogSince(old(run), old(chatwoot.log));
      if !raised && IsRunFromStart(cfg, run) {
        TurnsUsePotential(old(run), old(repo.outbox), old(chatwoot.log), counts);
      }
    }
  }
}
