/** Which checks stand behind a public send, in which order, and what they read; and what the
    automation modes allow over whole runs. */
module TraceSafety {
  import opened Domain
  import opened Text
  import opened Pricing
  import opened Policy
  import opened Workflow
  import opened MessageOrder
  import opened Outbox
  import opened Database
  import opened Protocol
  import opened Invariants

  // ---- Looking back along a run ----------------------------------------------------------------

  /** `early` is `run` or a beginning of it, and worker `w` took no step in between. */
  predicate QuietSince(early: Run, run: Run, w: nat) {
    early == run || (run.Then? && !ByWorker(run.act, w) && QuietSince(early, run.before, w))
  }

  /** A worker's stage is the work of its own last step. */
  lemma {:induction false} LastOwnStep(cfg: Config, run: Run, w: nat) returns (step: Run)
    requires IsRunFromStart(cfg, run)
    requires w < |Last(cfg, run).workers| && Last(cfg, run).workers[w].Holding?
    ensures step.Then? && ByWorker(step.act, w) && QuietSince(step, run, w)
    ensures IsRunFromStart(cfg, step) && w < |Last(cfg, step).workers|
    ensures Last(cfg, step).workers[w] == Last(cfg, run).workers[w]
    ensures w < |Last(cfg, step.before).workers|
  {
    hide RunRecorded, Delivered, StageAfter, MarkedRow;
    if ByWorker(run.act, w) {
      step := run;
    } else {
      step := LastOwnStep(cfg, run.before, w);
    }
  }

  // ---- The six steps behind a public send ------------------------------------------------------

  /** A conversation may be answered: replyable, not resolved or paused, no human active at the
      time, nobody assigned. */
  predicate StateIsSafe(state: ConversationState, now: int) {
    && state.replyable && state.status != Some(Resolved) && !state.paused
    && (state.humanActiveUntil.Some? ==> state.humanActiveUntil.value <= now)
    && !Named(state.agent) && !Named(state.team)
  }

  /** Chatwoot's own view: about this conversation, not closed to replies, not resolved or
      paused, nobody assigned. */
  predicate ChannelIsSafe(conversation: string, reply: ChannelSafety) {
    && reply.conversation == conversation
    && reply.replyable != Some(false) && reply.status != Some(Resolved) && !reply.paused
    && !Named(reply.agent) && !Named(reply.team)
  }

  /** The text is not blank, leaks no internal reasoning, and if it claims a price it quotes a
      mentionable product of the saved catalog. */
  predicate TextIsSafe(lex: Lexicon, row: Row) {
    && (exists i :: 0 <= i < |row.content| && !lex.space(row.content[i]))
    && !lex.leaks(Searchable(lex, row.content))
    && (MentionsExactPrice(lex, row.content) ==>
          exists product :: product in row.safety.catalog.products && QuotesProduct(lex, row.content, product))
  }

  ghost predicate ClaimStep(cfg: Config, step: Run, w: nat, i: nat) {
    && IsRun(cfg, step) && step.Then? && step.act.Claim? && step.act.w == w && step.act.row == i
    && step.act.mode == PublicReply
  }

  ghost predicate NotSupersededStep(cfg: Config, step: Run, w: nat, i: nat) {
    && IsRun(cfg, step) && step.Then? && step.act == CheckNewer(w)
    && i < |Last(cfg, step.before).db.outbox|
    && !IsSuperseded(cfg, Last(cfg, step.before).db, Last(cfg, step.before).db.outbox[i])
  }

  ghost predicate StaticStep(cfg: Config, step: Run, w: nat, i: nat) {
    && IsRun(cfg, step) && step.Then? && step.act == CheckContent(w)
    && i < |Last(cfg, step.before).db.outbox|
    && TextIsSafe(cfg.lex, Last(cfg, step.before).db.outbox[i])
  }

  ghost predicate StoredStep(cfg: Config, step: Run, w: nat, i: nat) {
    && IsRun(cfg, step) && step.Then? && step.act == ReadStored(w)
    && var db := Last(cfg, step.before).db;
       && i < |db.outbox|
       && RowConversation(db.outbox[i]) in db.conversations
       && var state := RowToState(db.conversations[RowConversation(db.outbox[i])]);
          state.Some? && StateIsSafe(state.value, step.at)
  }

  ghost predicate ChannelStep(cfg: Config, step: Run, w: nat, i: nat) {
    && IsRun(cfg, step) && step.Then? && step.act.ReadChannel? && step.act.w == w
    && i < |Last(cfg, step.before).db.outbox|
    && step.act.safety.SafetyRead?
    && ChannelIsSafe(Last(cfg, step.before).db.outbox[i].conversation, step.act.safety.safety)
  }

  lemma StepFrom(cfg: Config, step: Run, w: nat)
    requires IsRunFromStart(cfg, step) && step.Then? && ByWorker(step.act, w)
    requires w < |Last(cfg, step).workers| && Last(cfg, step).workers[w].Holding?
    ensures w < |Last(cfg, step.before).workers|
    ensures !step.act.Claim? ==>
              && Last(cfg, step.before).workers[w].Holding?
              && Last(cfg, step).workers[w].row == Last(cfg, step.before).workers[w].row < |Last(cfg, step.before).db.outbox|
              && Last(cfg, step).workers[w].mode == Last(cfg, step.before).workers[w].mode
              && StageAllows(Last(cfg, step.before).workers[w].stage, step.act)
              && !step.act.Mark?
              && StageAfter(cfg, Last(cfg, step.before).db, Last(cfg, step.before).workers[w], step.act, step.at)
                 == Some(Last(cfg, step).workers[w].stage)
  {
  }

  /** A row's action is the same all along a run. */
  lemma {:induction false} ActionPersists(cfg: Config, early: Run, run: Run, w: nat, i: nat)
    requires IsRunFromStart(cfg, run) && QuietSince(early, run, w)
    requires IsRunFromStart(cfg, early) && i < |Last(cfg, early).db.outbox|
    ensures i < |Last(cfg, run).db.outbox|
    ensures SameAction(Last(cfg, early).db.outbox[i], Last(cfg, run).db.outbox[i])
  {
    if early != run {
      ActionPersists(cfg, early, run.before, w, i);
      InvHolds(cfg, run.before);
      RowStep(cfg, Last(cfg, run.before), run.act, run.at, i);
    }
  }

  /** At the end of the run worker `w` holds row `i`, a public one, in public-reply mode or not,
      at the given stage. */
  ghost predicate AtStage(cfg: Config, run: Run, w: nat, i: nat, mode: AutomationMode, stage: Stage) {
    && IsRunFromStart(cfg, run)
    && w < |Last(cfg, run).workers|
    && i < |Last(cfg, run).db.outbox|
    && Last(cfg, run).db.outbox[i].kind == PublicMessage
    && Last(cfg, run).workers[w].Holding? && Last(cfg, run).workers[w].row == i
    && Last(cfg, run).workers[w].mode == mode
    && Last(cfg, run).workers[w].stage == stage
  }

  /** The step that brought a worker to its stage, and where it stood before it. */
  lemma StepBehind(cfg: Config, run: Run, w: nat, i: nat, mode: AutomationMode, stage: Stage) returns (step: Run)
    requires AtStage(cfg, run, w, i, mode, stage)
    ensures step.Then? && IsRun(cfg, step) && QuietSince(step, run, w) && ByWorker(step.act, w)
    ensures step.act.Claim? ==> step.act.row == i && step.act.mode == mode && stage == JustClaimed
    ensures !step.act.Claim? ==>
              exists from :: AtStage(cfg, step.before, w, i, mode, from)
                             && StageAllows(from, step.act) && !step.act.Mark?
                             && StageAfter(cfg, Last(cfg, step.before).db, Last(cfg, step.before).workers[w], step.act, step.at)
                                == Some(stage)
  {
    hide RunRecorded, Delivered, StageAfter, MarkedRow;
    step := LastOwnStep(cfg, run, w);
    StepFrom(cfg, step, w);
    if !step.act.Claim? {
      InvHolds(cfg, step.before);
      RowStep(cfg, Last(cfg, step.before), step.act, step.at, i);
      ActionPersists(cfg, step, run, w, i);
      assert AtStage(cfg, step.before, w, i, mode, Last(cfg, step.before).workers[w].stage);
    }
  }

  lemma BehindReady(cfg: Config, run: Run, w: nat, i: nat, mode: AutomationMode) returns (step: Run)
    requires AtStage(cfg, run, w, i, mode, Ready)
    ensures step.Then? && QuietSince(step, run, w) && NotSupersededStep(cfg, step, w, i)
    ensures AtStage(cfg, step.before, w, i, mode, Cleared)
  {
    hide Next, Enabled, HasNewerCustomerMessage, RunRecorded, Delivered;
    step := StepBehind(cfg, run, w, i, mode, Ready);
  }

  lemma BehindCleared(cfg: Config, run: Run, w: nat, i: nat, mode: AutomationMode) returns (step: Run)
    requires AtStage(cfg, run, w, i, mode, Cleared)
    ensures step.Then? && QuietSince(step, run, w) && ChannelStep(cfg, step, w, i)
    ensures AtStage(cfg, step.before, w, i, mode, StoredPassed)
  {
    hide Next, Enabled, HasNewerCustomerMessage, RunRecorded, Delivered;
    step := StepBehind(cfg, run, w, i, mode, Cleared);
  }

  lemma BehindStored(cfg: Config, run: Run, w: nat, i: nat, mode: AutomationMode) returns (step: Run)
    requires AtStage(cfg, run, w, i, mode, StoredPassed)
    ensures step.Then? && QuietSince(step, run, w) && StoredStep(cfg, step, w, i)
    ensures AtStage(cfg, step.before, w, i, mode, StaticPassed)
  {
    hide Next, Enabled, HasNewerCustomerMessage, RunRecorded, Delivered;
    step := StepBehind(cfg, run, w, i, mode, StoredPassed);
  }

  lemma BehindStatic(cfg: Config, run: Run, w: nat, i: nat, mode: AutomationMode) returns (step: Run)
    requires AtStage(cfg, run, w, i, mode, StaticPassed)
    ensures step.Then? && QuietSince(step, run, w) && StaticStep(cfg, step, w, i)
    ensures mode == PublicReply && AtStage(cfg, step.before, w, i, mode, NotSuperseded)
  {
    hide Next, Enabled, HasNewerCustomerMessage, RunRecorded, Delivered;
    step := StepBehind(cfg, run, w, i, mode, StaticPassed);
  }

  lemma BehindNotSuperseded(cfg: Config, run: Run, w: nat, i: nat, mode: AutomationMode) returns (step: Run)
    requires AtStage(cfg, run, w, i, mode, NotSuperseded)
    ensures step.Then? && QuietSince(step, run, w) && NotSupersededStep(cfg, step, w, i)
    ensures AtStage(cfg, step.before, w, i, mode, JustClaimed)
  {
    hide Next, Enabled, HasNewerCustomerMessage, RunRecorded, Delivered;
    step := StepBehind(cfg, run, w, i, mode, NotSuperseded);
  }

  lemma BehindClaimed(cfg: Config, run: Run, w: nat, i: nat) returns (step: Run)
    requires AtStage(cfg, run, w, i, PublicReply, JustClaimed)
    ensures step.Then? && QuietSince(step, run, w) && ClaimStep(cfg, step, w, i)
  {
    hide Next, Enabled, HasNewerCustomerMessage, RunRecorded, Delivered;
    step := StepBehind(cfg, run, w, i, PublicReply, JustClaimed);
  }

  /** The runs that end in the six steps behind a public call. */
  datatype Checks = Checks(claim: Run, newer1: Run, fixed: Run, stored: Run, channel: Run, newer2: Run)

  /** The claim, a supersession read that found no newer customer message, a passed static check
      in public-reply mode, a stored-state read that was safe when it was made, a fresh channel
      read that was safe and about the right conversation, and a second supersession read that
      found nothing newer: in this order, all of the call's worker for the same row, and with no
      other step of that worker between them or before the call. */
  ghost predicate StandBehind(cfg: Config, checks: Checks, run: Run, w: nat, i: nat) {
    && ClaimStep(cfg, checks.claim, w, i) && Follows(checks.claim, checks.newer1, w)
    && NotSupersededStep(cfg, checks.newer1, w, i) && Follows(checks.newer1, checks.fixed, w)
    && StaticStep(cfg, checks.fixed, w, i) && Follows(checks.fixed, checks.stored, w)
    && StoredStep(cfg, checks.stored, w, i) && Follows(checks.stored, checks.channel, w)
    && ChannelStep(cfg, checks.channel, w, i) && Follows(checks.channel, checks.newer2, w)
    && NotSupersededStep(cfg, checks.newer2, w, i) && Follows(checks.newer2, run, w)
  }

  /** The last step of `run` is the next one of worker `w` after the last step of `early`. */
  predicate Follows(early: Run, run: Run, w: nat) {
    run.Then? && QuietSince(early, run.before, w)
  }

  /** The six checks stand behind every public `create_message` call of every run. Other workers
      and webhooks may do anything in between. */
  lemma PublicSendIsChecked(cfg: Config, run: Run, i: nat) returns (checks: Checks)
    requires IsRunFromStart(cfg, run) && run.Then? && run.act.Send? && RowOf(cfg, run) == Some(i)
    requires i < |Last(cfg, run.before).db.outbox| && Last(cfg, run.before).db.outbox[i].kind == PublicMessage
    ensures StandBehind(cfg, checks, run, run.act.w, i)
  {
    var w := run.act.w;
    var mode := Last(cfg, run.before).workers[w].mode;
    var newer2 := BehindReady(cfg, run.before, w, i, mode);
    var channel := BehindCleared(cfg, newer2.before, w, i, mode);
    var stored := BehindStored(cfg, channel.before, w, i, mode);
    var fixed := BehindStatic(cfg, stored.before, w, i, mode);
    var newer1 := BehindNotSuperseded(cfg, fixed.before, w, i, mode);
    var claim := BehindClaimed(cfg, newer1.before, w, i);
    checks := Checks(claim, newer1, fixed, stored, channel, newer2);
  }

  // ---- What each check comes to --------------------------------------------------------------------

  /** After a check the worker goes on, at the given stage, exactly if no rule objects; otherwise
      it is about to block the row with the id of the first rule that does. */
  ghost predicate GoesOnUnless(stage: Stage, on: Stage, objects: PolicyRule -> bool) {
    if forall rule :: !objects(rule) then stage == on
    else exists first :: stage == ToBlock(RuleId(first)) && FirstOf(Some(first), objects)
  }

  /** The four checks of a held row. A private note is checked only for having some text. A public
      reply passes the static check, the stored read and the channel read exactly if none of the
      rules of that check objects; a read that raises ends the worker's run. */
  lemma ChecksDecide(cfg: Config, s: Sys, act: Act, at: int, w: nat, i: nat)
    requires Enabled(cfg, s, act, at) && ByWorker(act, w) && Holds(s, w, i) && i < |s.db.outbox|
    ensures var row, h, h' := s.db.outbox[i], s.workers[w], Next(cfg, s, act, at).workers[w];
            match act
            case CheckNewer(_) =>
              h' == h.(stage := if IsSuperseded(cfg, s.db, row) then ToSupersede
                                else if h.stage == JustClaimed then NotSuperseded else Ready)
            case CheckContent(_) =>
              && (row.kind == PrivateNote ==>
                    h' == h.(stage := if forall j :: 0 <= j < |row.content| ==> cfg.lex.space(row.content[j])
                                      then ToBlock("content.empty") else Cleared))
              && (row.kind == PublicMessage ==>
                    h'.Holding? && h'.(stage := h.stage) == h
                    && GoesOnUnless(h'.stage, StaticPassed,
                                    rule => StopsText(rule, cfg.lex, h.mode, row.content, row.safety.catalog)))
            case ReadStored(_) =>
              var where := RowConversation(row);
              if where in s.db.conversations && RowToState(s.db.conversations[where]).None? then h' == Idle
              else
                var state := if where in s.db.conversations then RowToState(s.db.conversations[where]) else None;
                h'.Holding? && h'.(stage := h.stage) == h
                && GoesOnUnless(h'.stage, StoredPassed, rule => StopsState(rule, state, at))
            case ReadChannel(_, SafetyFails) => h' == Idle
            case ReadChannel(_, SafetyRead(safety)) =>
              h'.Holding? && h'.(stage := h.stage) == h
              && GoesOnUnless(h'.stage, Cleared, rule => StopsChannel(rule, row.conversation, safety))
            case _ => true
  {
    hide RunRecorded, Delivered, MarkedRow, HasNewerCustomerMessage;
    hide StopsText, StopsState, StopsChannel, StaticBlockedReason, StoredBlockedReason, ChannelBlockedReason;
    var row, h := s.db.outbox[i], s.workers[w];
    match act
    case CheckContent(_) =>
      StaticGate(cfg.lex, h.mode, row.content, row.safety);
    case ReadStored(_) =>
      var where := RowConversation(row);
      StoredGate(if where in s.db.conversations then RowToState(s.db.conversations[where]) else None, at);
    case ReadChannel(_, SafetyRead(safety)) =>
      ChannelGate(row.conversation, safety);
    case _ =>
  }

  // ---- Notes ---------------------------------------------------------------------------------------

  predicate IsEmptyText(lex: Lexicon, text: string) {
    forall j :: 0 <= j < |text| ==> lex.space(text[j])
  }

  /** How far a note may have come, given its text. */
  ghost predicate NoteStage(stage: Stage, empty: bool) {
    match stage
    case JustClaimed => true
    case NotSuperseded => true
    case ToBlock(reason) => empty && reason == "content.empty"
    case ToSupersede => false
    case StaticPassed => false
    case StoredPassed => false
    case _ => !empty
  }

  ghost predicate NoteOk(cfg: Config, s: Sys, i: nat) {
    i < |s.db.outbox| && s.db.outbox[i].kind == PrivateNote ==>
      var row, empty := s.db.outbox[i], IsEmptyText(cfg.lex, s.db.outbox[i].content);
      && row.status != OutboundStatus.Superseded
      && (row.status == BlockedByPolicy ==> empty && row.failureReason == Some("content.empty"))
      && (row.status in {Sent, PermanentFailure, RetryableFailure} ==> !empty)
      && (forall w: nat :: Holds(s, w, i) ==> NoteStage(s.workers[w].stage, empty))
  }

  lemma NoteStep(cfg: Config, s: Sys, act: Act, at: int, i: nat)
    requires Inv(cfg, s) && Enabled(cfg, s, act, at) && NoteOk(cfg, s, i)
    ensures NoteOk(cfg, Next(cfg, s, act, at), i)
  {
    hide Next, Enabled, NoteOk, Inv;
    InvParts(cfg, s);
    if Target(s, act) != Some(i) {
      OtherNoteStep(cfg, s, act, at, i);
    } else {
      OwnNoteStep(cfg, s, act, at, i);
    }
  }

  lemma OtherNoteStep(cfg: Config, s: Sys, act: Act, at: int, i: nat)
    requires OwnershipOk(s) && Enabled(cfg, s, act, at) && NoteOk(cfg, s, i) && Target(s, act) != Some(i)
    ensures NoteOk(cfg, Next(cfg, s, act, at), i)
  {
    hide Next, Enabled, IsEmptyText, NoteStage;
    OtherHolders(cfg, s, act, at, i);
    InsertedRow(cfg, s, act, at);
    HoldersAgree(s, i);
    if i < |s.db.outbox| {
      RowStep(cfg, s, act, at, i);
    }
  }

  lemma OwnNoteStep(cfg: Config, s: Sys, act: Act, at: int, i: nat)
    requires OwnershipOk(s) && Enabled(cfg, s, act, at) && NoteOk(cfg, s, i) && Target(s, act) == Some(i)
    ensures NoteOk(cfg, Next(cfg, s, act, at), i)
  {
    hide RunRecorded, Delivered, HasNewerCustomerMessage, StaticBlockedReason, ChannelBlockedReason, StoredVerdict;
    HoldersAgree(s, i);
    assert act.Claim? || Holds(s, act.w, i);
    assert forall w: nat :: Holds(Next(cfg, s, act, at), w, i) ==> w == act.w;
  }

  /** In every reachable state a private note that was blocked is an empty one, blocked as such,
      and one that was sent, or whose sending was tried, is not empty; none was superseded. */
  lemma {:induction false} NotesAreSentUnlessEmpty(cfg: Config, run: Run, i: nat)
    requires IsRunFromStart(cfg, run)
    ensures NoteOk(cfg, Last(cfg, run), i)
  {
    hide Next, Enabled, NoteOk;
    if run.Then? {
      NotesAreSentUnlessEmpty(cfg, run.before, i);
      InvHolds(cfg, run.before);
      NoteStep(cfg, Last(cfg, run.before), run.act, run.at, i);
    } else {
      NoNoteYet(cfg, First(run), i);
    }
  }

  lemma NoNoteYet(cfg: Config, s: Sys, i: nat)
    requires Initial(s)
    ensures NoteOk(cfg, s, i)
  {
  }

  // ---- Superseded for good -----------------------------------------------------------------------

  lemma SupersededStep(cfg: Config, s: Sys, act: Act, at: int, i: nat)
    requires OwnershipOk(s) && Enabled(cfg, s, act, at)
    requires i < |s.db.outbox| && IsSuperseded(cfg, s.db, s.db.outbox[i])
    ensures var db := Next(cfg, s, act, at).db;
            i < |db.outbox| && IsSuperseded(cfg, db, db.outbox[i])
  {
    hide HasNewerCustomerMessage;
    RowStep(cfg, s, act, at, i);
    var row := s.db.outbox[i];
    if act.Deliver? && IsNewMessage(s.db, act.delivery) {
      NewerForGood(cfg.lex.number, s.db.messages, [act.delivery.payload.message], RowConversation(row), row.source);
    }
  }

  /** An action that is superseded at one point of a run is superseded at every later one. */
  lemma {:induction false} SupersededForGood(cfg: Config, early: Run, run: Run, i: nat)
    requires IsRunFromStart(cfg, run) && IsRun(cfg, early) && IsPrefix(early, run)
    requires i < |Last(cfg, early).db.outbox| && IsSuperseded(cfg, Last(cfg, early).db, Last(cfg, early).db.outbox[i])
    ensures i < |Last(cfg, run).db.outbox| && IsSuperseded(cfg, Last(cfg, run).db, Last(cfg, run).db.outbox[i])
  {
    hide Next, Enabled, IsSuperseded;
    if early != run {
      SupersededForGood(cfg, early, run.before, i);
      InvHolds(cfg, run.before);
      SupersededStep(cfg, Last(cfg, run.before), run.act, run.at, i);
    }
  }

  /** At no point of the run was row `i` superseded. */
  ghost predicate NeverSuperseded(cfg: Config, run: Run, i: nat) {
    forall early :: IsPrefix(early, run) && IsRun(cfg, early) && i < |Last(cfg, early).db.outbox| ==>
      !IsSuperseded(cfg, Last(cfg, early).db, Last(cfg, early).db.outbox[i])
  }

  /** A public call is made only for a row that was superseded at no earlier point of the whole
      run, up to the second supersession read just before the call. */
  lemma PublicSendWasNeverSuperseded(cfg: Config, run: Run, i: nat) returns (checks: Checks)
    requires IsRunFromStart(cfg, run) && run.Then? && run.act.Send? && RowOf(cfg, run) == Some(i)
    requires i < |Last(cfg, run.before).db.outbox| && Last(cfg, run.before).db.outbox[i].kind == PublicMessage
    ensures StandBehind(cfg, checks, run, run.act.w, i)
    ensures NeverSuperseded(cfg, checks.newer2.before, i)
  {
    hide Next, Enabled, IsSuperseded;
    checks := PublicSendIsChecked(cfg, run, i);
    var read := checks.newer2;
    FollowsPrefix(read, run, run, run.act.w);
    PrefixIsRun(cfg, read, run);
    forall early | IsPrefix(early, read.before) && IsRun(cfg, early) && i < |Last(cfg, early).db.outbox|
      ensures !IsSuperseded(cfg, Last(cfg, early).db, Last(cfg, early).db.outbox[i])
    {
      if IsSuperseded(cfg, Last(cfg, early).db, Last(cfg, early).db.outbox[i]) {
        SupersededForGood(cfg, early, read.before, i);
      }
    }
  }

  // ---- Where a row comes from ----------------------------------------------------------------------

  /** The run's last step is a workflow run that asks for this action, for the message of its
      handler. */
  ghost predicate AsksFor(cfg: Config, step: Run, row: Row) {
    && IsRun(cfg, step) && step.Then? && step.act.RunWorkflow?
    && step.act.h < |Last(cfg, step.before).handlers| && Last(cfg, step.before).handlers[step.act.h].Admitted?
    && var p := Last(cfg, step.before).handlers[step.act.h];
       var decision := Decide(cfg.lex, p.message, p.conversation, step.act.catalog, step.act.mode, step.at, step.act.reply);
       var asked := QueuedRow(step.act.mode, p.message, decision, step.act.catalog, step.at);
       asked.Some? && SameAction(asked.value, row)
  }

  lemma InsertIsAskedFor(cfg: Config, run: Run)
    requires IsRun(cfg, run) && run.Then?
    requires |Last(cfg, run).db.outbox| > |Last(cfg, run.before).db.outbox|
    ensures AsksFor(cfg, run, Last(cfg, run).db.outbox[|Last(cfg, run.before).db.outbox|])
  {
    hide Decide, QueuedRow;
    InsertedRow(cfg, Last(cfg, run.before), run.act, run.at);
  }

  /** Every outbox row of a reachable state is, as an action, what one workflow run of the run
      asked for. */
  lemma {:induction false} RowOrigin(cfg: Config, run: Run, i: nat) returns (origin: Run)
    requires IsRunFromStart(cfg, run) && i < |Last(cfg, run).db.outbox|
    ensures IsPrefix(origin, run) && AsksFor(cfg, origin, Last(cfg, run).db.outbox[i])
  {
    hide Next, Enabled, Decide, QueuedRow;
    var s := Last(cfg, run.before);
    InsertedRow(cfg, s, run.act, run.at);
    if i < |s.db.outbox| {
      origin := RowOrigin(cfg, run.before, i);
      InvHolds(cfg, run.before);
      RowStep(cfg, s, run.act, run.at, i);
    } else {
      origin := run;
      InsertIsAskedFor(cfg, run);
    }
  }

  /** The workflow run behind a public row: in public-reply mode, for an eligible turn that
      neither gate objected to, its text the one the model proposed, with the catalog the gate
      saw. */
  ghost predicate Allowed(cfg: Config, origin: Run, row: Row) {
    && AsksFor(cfg, origin, row) && origin.act.mode == PublicReply
    && var p, reply := Last(cfg, origin.before).handlers[origin.act.h], origin.act.reply;
       var signals := Triage(cfg.lex, p.message);
       && KeyOf(p.message) == SourceKey(row) && ConversationOf(p.message) == RowConversation(row) && Eligible(cfg.lex, p.message)
       && PreModelRules(cfg.lex, p.message, p.conversation, signals, PublicReply, origin.at) == []
       && reply.proposal.Some? && row.content == PublicText(reply.proposal.value)
       && ProposalRules(cfg.lex, reply.proposal, PublicReply, signals, origin.act.catalog) == []
       && row.safety.catalog == origin.act.catalog
  }

  /** Every public row of a reachable state was allowed by both gates. */
  lemma PublicRowWasAllowed(cfg: Config, run: Run, i: nat) returns (origin: Run)
    requires IsRunFromStart(cfg, run)
    requires i < |Last(cfg, run).db.outbox| && Last(cfg, run).db.outbox[i].kind == PublicMessage
    ensures IsPrefix(origin, run) && Allowed(cfg, origin, Last(cfg, run).db.outbox[i])
  {
    hide Next, Enabled, PreModelRules, ProposalRules;
    origin := RowOrigin(cfg, run, i);
    var p := Last(cfg, origin.before).handlers[origin.act.h];
    DecisionShape(cfg.lex, p.message, p.conversation, origin.act.catalog, origin.act.mode, origin.at, origin.act.reply);
  }

  // ---- Human takeover ----------------------------------------------------------------------------

  /** No stored-state check passes before the last human reply is `ttl` old. */
  lemma TakeoverHoldsBackSends(cfg: Config, step: Run, w: nat, i: nat)
    requires IsRunFromStart(cfg, step) && StoredStep(cfg, step, w, i)
    ensures var db := Last(cfg, step.before).db;
            var row := db.conversations[RowConversation(db.outbox[i])];
            row.lastHumanAt.Some? ==> row.lastHumanAt.value + cfg.ttl <= step.at
  {
    InvHolds(cfg, step.before);
  }

  /** Nor does the pre-model gate in public-reply mode let a turn through in that time, counted
      on the conversation row the turn's own delivery left behind. */
  lemma TakeoverHoldsBackProposals(cfg: Config, run: Run, now: int)
    requires IsRunFromStart(cfg, run) && run.Then? && run.act.Deliver?
    requires StartsWorkflow(cfg, Last(cfg, run.before).db, run.act.delivery)
    requires var m := run.act.delivery.payload.message;
             PreModelRules(cfg.lex, m, StateGiven(cfg, Last(cfg, run.before).db, run.act.delivery),
                           Triage(cfg.lex, m), PublicReply, now) == []
    ensures var m := run.act.delivery.payload.message;
            ConversationOf(m) in Last(cfg, run).db.conversations
    ensures var row := Last(cfg, run).db.conversations[ConversationOf(run.act.delivery.payload.message)];
            row.lastHumanAt.Some? ==> row.lastHumanAt.value + cfg.ttl <= now
  {
    InvHolds(cfg, run);
  }

  // ---- The mode ladder ---------------------------------------------------------------------------

  /** The mode of the process that takes a step, where the step depends on it. */
  predicate InMode(act: Act, mode: AutomationMode) {
    (act.Claim? ==> act.mode == mode) && (act.RunWorkflow? ==> act.mode == mode)
  }

  predicate AllInMode(run: Run, mode: AutomationMode) {
    run.Then? ==> InMode(run.act, mode) && AllInMode(run.before, mode)
  }

  /** A run entirely in observe mode queues nothing and calls nothing. */
  lemma {:induction false} ObserveSendsNothing(cfg: Config, run: Run)
    requires IsRunFromStart(cfg, run) && AllInMode(run, Observe)
    ensures Last(cfg, run).db.outbox == []
    ensures forall w :: 0 <= w < |Last(cfg, run).workers| ==> Last(cfg, run).workers[w] == Idle
    ensures run.Then? ==> !run.act.Send?
  {
    if run.Then? {
      ObserveSendsNothing(cfg, run.before);
      if run.act.RunWorkflow? {
        var p := Last(cfg, run.before).handlers[run.act.h];
        DecisionShape(cfg.lex, p.message, p.conversation, run.act.catalog, Observe, run.at, run.act.reply);
      }
    }
  }

  lemma AssistQueuesNotes(cfg: Config, s: Sys, act: Act, at: int)
    requires Enabled(cfg, s, act, at) && InMode(act, Assist)
    ensures var rows, rows' := s.db.outbox, Next(cfg, s, act, at).db.outbox;
            |rows'| > |rows| ==> rows'[|rows|].kind == PrivateNote
  {
    hide Decide, ProposalRules, PreModelRules;
    InsertedRow(cfg, s, act, at);
    if act.RunWorkflow? {
      var p := s.handlers[act.h];
      DecisionShape(cfg.lex, p.message, p.conversation, act.catalog, Assist, at, act.reply);
    }
  }

  predicate OnlyNotes(rows: seq<Row>) {
    forall i :: 0 <= i < |rows| ==> rows[i].kind == PrivateNote
  }

  lemma NotesStayNotes(cfg: Config, s: Sys, act: Act, at: int)
    requires Inv(cfg, s) && Enabled(cfg, s, act, at) && InMode(act, Assist) && OnlyNotes(s.db.outbox)
    ensures OnlyNotes(Next(cfg, s, act, at).db.outbox)
  {
    hide Next, Enabled;
    InsertedRow(cfg, s, act, at);
    AssistQueuesNotes(cfg, s, act, at);
    forall i: nat | i < |s.db.outbox| ensures i < |Next(cfg, s, act, at).db.outbox|
                                              && Next(cfg, s, act, at).db.outbox[i].kind == PrivateNote {
      RowStep(cfg, s, act, at, i);
    }
  }

  /** A run entirely in assist mode queues, and so sends, private notes only. */
  lemma {:induction false} AssistSendsOnlyNotes(cfg: Config, run: Run)
    requires IsRunFromStart(cfg, run) && AllInMode(run, Assist)
    ensures OnlyNotes(Last(cfg, run).db.outbox)
    ensures run.Then? && run.act.Send? ==>
              RowOf(cfg, run).Some? && RowOf(cfg, run).value < |Last(cfg, run.before).db.outbox|
              && Last(cfg, run.before).db.outbox[RowOf(cfg, run).value].kind == PrivateNote
  {
    hide Next;
    if run.Then? {
      AssistSendsOnlyNotes(cfg, run.before);
      InvHolds(cfg, run.before);
      NotesStayNotes(cfg, Last(cfg, run.before), run.act, run.at);
    }
  }

  /** Every claim of `run` that comes after `switch` is made by a process not in public-reply mode. */
  predicate SwitchedAway(switch: Run, run: Run) {
    run == switch || (run.Then? && SwitchedAway(switch, run.before) && (run.act.Claim? ==> run.act.mode != PublicReply))
  }

  /** After a switch away from public-reply mode a public call can only finish work that was
      claimed before the switch, whatever public rows are still queued. */
  lemma SwitchStopsPublicSends(cfg: Config, switch: Run, run: Run, i: nat) returns (claim: Run)
    requires IsRunFromStart(cfg, run) && SwitchedAway(switch, run)
    requires run.Then? && run.act.Send? && RowOf(cfg, run) == Some(i) && run != switch
    requires i < |Last(cfg, run.before).db.outbox| && Last(cfg, run.before).db.outbox[i].kind == PublicMessage
    ensures ClaimStep(cfg, claim, run.act.w, i)
    ensures IsPrefix(claim, switch)
  {
    var checks := PublicSendIsChecked(cfg, run, i);
    var w := run.act.w;
    claim := checks.claim;
    FollowsPrefix(checks.newer2, run, run, w);
    FollowsPrefix(checks.channel, checks.newer2, run, w);
    FollowsPrefix(checks.stored, checks.channel, run, w);
    FollowsPrefix(checks.fixed, checks.stored, run, w);
    FollowsPrefix(checks.newer1, checks.fixed, run, w);
    FollowsPrefix(claim, checks.newer1, run, w);
    PublicClaimsAreOld(switch, run, claim);
  }

  lemma FollowsPrefix(early: Run, mid: Run, run: Run, w: nat)
    requires Follows(early, mid, w) && IsPrefix(mid, run)
    ensures IsPrefix(early, run)
  {
    QuietIsPrefix(early, mid.before, w);
    PrefixChain(early, mid, run);
  }

  lemma {:induction false} QuietIsPrefix(early: Run, run: Run, w: nat)
    requires QuietSince(early, run, w)
    ensures IsPrefix(early, run)
  {
    if early != run {
      QuietIsPrefix(early, run.before, w);
    }
  }

  lemma {:induction false} PublicClaimsAreOld(switch: Run, run: Run, claim: Run)
    requires SwitchedAway(switch, run) && IsPrefix(claim, run)
    requires claim.Then? && claim.act.Claim? && claim.act.mode == PublicReply
    ensures IsPrefix(claim, switch)
  {
    if run != switch {
      PublicClaimsAreOld(switch, run.before, claim);
    }
  }
}
