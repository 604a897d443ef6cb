/** The pipeline as one transition system: webhook handlers and outbound workers that share the
    tables. Every committed transaction, every read and every Chatwoot call is one atomic step,
    so any interleaving of them is a run. A crash may fall between any two steps. */
module Protocol {
  import opened Domain
  import opened Text
  import opened Policy
  import opened MessageOrder
  import opened Outbox
  import opened Database

  // ---- State ---------------------------------------------------------------------------------

  /** How far a worker has come with the row it claimed. */
  datatype Stage =
    | JustClaimed
    | NotSuperseded
    | StaticPassed
    | StoredPassed
    | Cleared
    | Ready
    | ToBlock(reason: string)
    | ToSupersede
    | SendFailed(code: string, retryable: bool)
    | SendAccepted(providerMessageId: string)
    | Updated(providerMessageId: string, failure: Option<string>)

  /** A worker holds at most one row. It remembers the attempts it read with the claim and the
      mode of its settings. */
  datatype Worker =
    | Idle
    | Holding(row: nat, attempts: nat, mode: AutomationMode, stage: Stage)

  /** A webhook handler between its two transactions. */
  datatype Handler =
    | Admitted(message: Message, conversation: ConversationState)
    | Finished

  datatype Sys = Sys(now: int, db: Db, handlers: seq<Handler>, workers: seq<Worker>)

  datatype SafetyReply = SafetyRead(safety: ChannelSafety) | SafetyFails
  datatype SendReply = Accepted(id: string) | Refused(code: string, retryable: bool) | SendEscapes
  datatype UpdateReply = UpdateDone | UpdateFails(code: string) | UpdateEscapes

  /** The steps. Whatever the system does not decide itself is part of the step. */
  datatype Act =
    | Claim(w: nat, row: nat, mode: AutomationMode)
    | CheckNewer(w: nat)
    | CheckContent(w: nat)
    | ReadStored(w: nat)
    | ReadChannel(w: nat, safety: SafetyReply)
    | Send(w: nat, send: SendReply)
    | FollowUp(w: nat, update: UpdateReply)
    | Mark(w: nat)
    | Crash(w: nat)
    | Deliver(delivery: Delivery)
    | RunWorkflow(h: nat, mode: AutomationMode, catalog: Catalog, reply: ModelResult)
    | DropWorkflow(h: nat)

  predicate ByWorker(act: Act, w: nat) {
    !act.Deliver? && !act.RunWorkflow? && !act.DropWorkflow? && act.w == w
  }

  // ---- Steps ---------------------------------------------------------------------------------

  predicate IsSuperseded(cfg: Config, db: Db, row: Row) {
    row.kind == PublicMessage && HasNewerCustomerMessage(cfg.lex.number, db.messages, RowConversation(row), row.source)
  }

  predicate StageAllows(stage: Stage, act: Act) {
    match act
    case CheckNewer(_) => stage.JustClaimed? || stage.Cleared?
    case CheckContent(_) => stage.NotSuperseded?
    case ReadStored(_) => stage.StaticPassed?
    case ReadChannel(_, _) => stage.StoredPassed?
    case Send(_, _) => stage.Ready?
    case FollowUp(_, _) => stage.SendAccepted?
    case Mark(_) =>
      stage.ToBlock? || stage.ToSupersede? || stage.SendFailed? || stage.SendAccepted? || stage.Updated?
    case Crash(_) => true
    case _ => false
  }

  function BlockOr(reason: Option<PolicyRule>, otherwise: Stage): Stage {
    if reason.Some? then ToBlock(RuleId(reason.value)) else otherwise
  }

  /** Reading the stored state: `None` when the read raises. */
  function StoredVerdict(db: Db, where: ConversationKey, now: int): Option<Option<PolicyRule>> {
    if where !in db.conversations then Some(StoredBlockedReason(None, now))
    else
      var state := RowToState(db.conversations[where]);
      if state.None? then None else Some(StoredBlockedReason(state, now))
  }

  /** What is noted of a failed status or label update. */
  function UpdateFailure(kind: ActionKind, code: string): string {
    UpdatePrefix(kind) + code
  }

  function UpdatePrefix(kind: ActionKind): string {
    if kind == PublicMessage then "status_update_failed:" else "label_update_failed:"
  }

  /** Where a step that does not write the row takes the worker; `None` ends its run with the
      row as it is. */
  function StageAfter(cfg: Config, db: Db, h: Worker, act: Act, at: int): Option<Stage>
    requires h.Holding? && h.row < |db.outbox| && StageAllows(h.stage, act) && !act.Mark?
  {
    var row := db.outbox[h.row];
    match act
    case CheckNewer(_) =>
      if IsSuperseded(cfg, db, row) then Some(ToSupersede)
      else if h.stage.JustClaimed? then Some(NotSuperseded) else Some(Ready)
    case CheckContent(_) =>
      (match row.kind
       case PrivateNote =>
         Some(BlockOr(if Blank(cfg.lex, row.content) then Some(ContentEmpty) else None, Cleared))
       case PublicMessage =>
         Some(BlockOr(StaticBlockedReason(cfg.lex, h.mode, row.content, row.safety), StaticPassed))
       case NoAction => Some(ToBlock(RuleId(UnknownActionKind))))
    case ReadStored(_) =>
      var verdict := StoredVerdict(db, RowConversation(row), at);
      if verdict.None? then None else Some(BlockOr(verdict.value, StoredPassed))
    case ReadChannel(_, reply) =>
      (match reply
       case SafetyRead(safety) => Some(BlockOr(ChannelBlockedReason(row.conversation, safety), Cleared))
       case SafetyFails => None)
    case Send(_, reply) =>
      (match reply
       case Accepted(id) => Some(SendAccepted(id))
       case Refused(code, retryable) => Some(SendFailed(code, retryable))
       case SendEscapes => None)
    case FollowUp(_, reply) =>
      (match reply
       case UpdateDone => Some(Updated(h.stage.providerMessageId, None))
       case UpdateFails(code) => Some(Updated(h.stage.providerMessageId, Some(UpdateFailure(row.kind, code))))
       case UpdateEscapes => None)
    case _ => None
  }

  /** What marking writes to the held row. */
  function MarkedRow(cfg: Config, row: Row, h: Worker, at: int): Row
    requires h.Holding? && StageAllows(h.stage, Mark(0))
  {
    match h.stage
    case ToBlock(reason) => MarkedBlocked(row, reason)
    case ToSupersede => MarkedSuperseded(row)
    case SendFailed(code, retryable) =>
      MarkedFailed(row, h.attempts, code, retryable, at, cfg.maxAttempts, cfg.retryDelay)
    case SendAccepted(id) => MarkedSent(row, id, None)
    case Updated(id, failure) => MarkedSent(row, id, failure)
  }

  predicate Enabled(cfg: Config, s: Sys, act: Act, at: int) {
    match act
    case Claim(w, row, _) =>
      w < |s.workers| && s.workers[w].Idle? && IsHead(s.db.outbox, row, at, cfg.replyDelay)
    case Deliver(d) => !DeliveryRaises(cfg, s.db, d)
    case RunWorkflow(h, _, _, _) => h < |s.handlers| && s.handlers[h].Admitted?
    case DropWorkflow(h) => h < |s.handlers| && s.handlers[h].Admitted?
    case _ =>
      && act.w < |s.workers| && s.workers[act.w].Holding?
      && s.workers[act.w].row < |s.db.outbox| && StageAllows(s.workers[act.w].stage, act)
  }

  function WithRow(s: Sys, i: nat, row: Row): Db
    requires i < |s.db.outbox|
  {
    s.db.(outbox := s.db.outbox[i := row])
  }

  /** The state after a step at time `at`. */
  function Next(cfg: Config, s: Sys, act: Act, at: int): Sys
    requires Enabled(cfg, s, act, at)
  {
    match act
    case Claim(w, i, mode) =>
      var row := s.db.outbox[i];
      Sys(at, WithRow(s, i, Claimed(row)), s.handlers,
          s.workers[w := Holding(i, row.attempts, mode, JustClaimed)])
    case Mark(w) =>
      var h := s.workers[w];
      Sys(at, WithRow(s, h.row, MarkedRow(cfg, s.db.outbox[h.row], h, at)), s.handlers,
          s.workers[w := Idle])
    case Deliver(d) =>
      Sys(at, Delivered(cfg, s.db, d),
          if StartsWorkflow(cfg, s.db, d)
            then s.handlers + [Admitted(d.payload.message, StateGiven(cfg, s.db, d))] else s.handlers,
          s.workers)
    case RunWorkflow(h, mode, catalog, reply) =>
      var p := s.handlers[h];
      Sys(at, RunRecorded(cfg, s.db, p.message, p.conversation, mode, catalog, reply, at),
          s.handlers[h := Finished], s.workers)
    case DropWorkflow(h) => Sys(at, s.db, s.handlers[h := Finished], s.workers)
    case _ =>
      var h := s.workers[act.w];
      var stage := StageAfter(cfg, s.db, h, act, at);
      Sys(at, s.db, s.handlers,
          s.workers[act.w := if stage.Some? then h.(stage := stage.value) else Idle])
  }

  // ---- Runs ----------------------------------------------------------------------------------

  /** A run: a first state and the steps taken from it, each with its time. */
  datatype Run =
    | Begin(first: Sys)
    | Then(before: Run, act: Act, at: int)

  /** Time does not run backwards and every step is possible where it is taken. */
  predicate IsRun(cfg: Config, run: Run)
    decreases run, 0
  {
    match run
    case Begin(_) => true
    case Then(before, act, at) =>
      IsRun(cfg, before) && Last(cfg, before).now <= at && Enabled(cfg, Last(cfg, before), act, at)
  }

  function Last(cfg: Config, run: Run): Sys
    requires IsRun(cfg, run)
    decreases run, 1
  {
    match run
    case Begin(first) => first
    case Then(before, act, at) => Next(cfg, Last(cfg, before), act, at)
  }

  function First(run: Run): Sys {
    match run
    case Begin(first) => first
    case Then(before, _, _) => First(before)
  }

  /** `run` goes on from `early`. */
  predicate IsPrefix(early: Run, run: Run) {
    early == run || (run.Then? && IsPrefix(early, run.before))
  }

  /** The number of steps. */
  function Steps(run: Run): nat {
    if run.Begin? then 0 else Steps(run.before) + 1
  }

  lemma {:induction false} PrefixChain(a: Run, b: Run, c: Run)
    requires IsPrefix(a, b) && IsPrefix(b, c)
    ensures IsPrefix(a, c)
  {
    if b != c {
      PrefixChain(a, b, c.before);
    }
  }

  /** Empty tables, no handler at work and every worker idle. */
  predicate Initial(s: Sys) {
    && s.db == Db({}, [], map[], [], [])
    && s.handlers == []
    && forall w :: 0 <= w < |s.workers| ==> s.workers[w] == Idle
  }

  predicate IsRunFromStart(cfg: Config, run: Run) {
    IsRun(cfg, run) && Initial(First(run))
  }

  /** A beginning of a run is a run from the same first state. */
  lemma {:induction false} PrefixIsRun(cfg: Config, early: Run, run: Run)
    requires IsRun(cfg, run) && IsPrefix(early, run)
    ensures IsRun(cfg, early) && First(early) == First(run) && Steps(early) <= Steps(run)
  {
    if early != run {
      PrefixIsRun(cfg, early, run.before);
    }
  }

  // ---- Counting steps ------------------------------------------------------------------------

  /** The row a worker's step is about. */
  function Target(s: Sys, act: Act): Option<nat> {
    if act.Deliver? || act.RunWorkflow? || act.DropWorkflow? then None
    else if act.Claim? then Some(act.row)
    else if act.w < |s.workers| && s.workers[act.w].Holding? then Some(s.workers[act.w].row)
    else None
  }

  function RowOf(cfg: Config, run: Run): Option<nat>
    requires IsRun(cfg, run)
  {
    if run.Begin? then None else Target(Last(cfg, run.before), run.act)
  }

  function OneCall(s: Sys, act: Act, i: nat): nat {
    if act.Send? && Target(s, act) == Some(i) then 1 else 0
  }

  function OneDelivery(s: Sys, act: Act, i: nat): nat {
    if act.Send? && act.send.Accepted? && Target(s, act) == Some(i) then 1 else 0
  }

  /** `create_message` calls for row `i`. */
  function Calls(cfg: Config, run: Run, i: nat): nat
    requires IsRun(cfg, run)
  {
    if run.Begin? then 0
    else Calls(cfg, run.before, i) + OneCall(Last(cfg, run.before), run.act, i)
  }

  /** Those of them that returned an id. */
  function Deliveries(cfg: Config, run: Run, i: nat): nat
    requires IsRun(cfg, run)
  {
    if run.Begin? then 0
    else Deliveries(cfg, run.before, i) + OneDelivery(Last(cfg, run.before), run.act, i)
  }
}
