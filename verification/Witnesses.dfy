/** Runs that show what can happen: a public reply that is sent, a message that is delivered and
    its row never marked, and a resolved conversation that counts as replyable. */
module Witnesses {
  import opened Domain
  import opened Text
  import opened Pricing
  import opened Policy
  import opened Workflow
  import opened Conversation
  import opened MessageOrder
  import opened Outbox
  import opened Database
  import opened Protocol
  import opened Invariants

  // ---- From an empty system to a queued row --------------------------------------------------------

  /** The start of a system with one worker, time 0 and empty tables. */
  function OneWorker(): Sys {
    Sys(0, Db({}, [], map[], [], []), [], [Idle])
  }

  /** An ordinary customer message: eligible, asking for no human, with nothing unusual about its
      conversation. */
  predicate Ordinary(lex: Lexicon, m: Message) {
    Eligible(lex, m) && !HumanRequested(Triage(lex, m)) && m.meta == ChannelMeta(false, [], false, None, None, None, None)
  }

  const OPEN := ConversationState(None, None, None, None, true, false)

  /** The tables after the first transaction for the message. */
  function AdmittedDb(m: Message): Db {
    var row := FRESH_CONVERSATION.(lastCustomerAt := Some(m.createdAt));
    Db({""}, [m], map[ConversationOf(m) := row], [], [])
  }

  function NewRow(m: Message, kind: ActionKind, content: string): Row {
    Row(m.tenant, m.channel, m.conversation, m.id, kind, content, SafetyContext(Catalog([]), [], []),
        IdempotencyKey(m.tenant, m.channel, m.conversation, m.id, kind), 0, Queued, 0, None, None, None, None)
  }

  function WithOutbox(m: Message, row: Row): Db {
    AdmittedDb(m).(runs := [KeyOf(m)], outbox := [row])
  }

  /** The run ends at this time with the one worker and the tables as given, after so many
      deliveries for the row. */
  ghost predicate Reaches(cfg: Config, run: Run, at: int, worker: Worker, db: Db, delivered: nat) {
    && IsRunFromStart(cfg, run) && Last(cfg, run) == Sys(at, db, [Finished], [worker])
    && Deliveries(cfg, run, 0) == delivered
  }

  lemma Admits(cfg: Config, m: Message) returns (run: Run)
    requires Ordinary(cfg.lex, m)
    ensures IsRunFromStart(cfg, run) && Deliveries(cfg, run, 0) == 0
    ensures Last(cfg, run) == Sys(0, AdmittedDb(m), [Admitted(m, OPEN)], [Idle])
  {
    hide Triage;
    var start := Begin(OneWorker());
    var d := Delivery("", MessagePayload(m));
    var db := OneWorker().db;
    assert IsRun(cfg, start) && Last(cfg, start) == OneWorker() && Deliveries(cfg, start, 0) == 0;
    assert RowAfter(cfg, db, EventOf(db, d).value).status == None;
    assert Enabled(cfg, OneWorker(), Deliver(d), 0);
    run := Then(start, Deliver(d), 0);
    assert First(run) == OneWorker() && Initial(First(run));
  }

  lemma Queues(cfg: Config, m: Message, mode: AutomationMode, p: Proposal, kind: ActionKind, content: string)
    returns (run: Run)
    requires Ordinary(cfg.lex, m) && kind != NoAction && (kind == PublicMessage ==> mode == PublicReply) && content != ""
    requires Decide(cfg.lex, m, OPEN, Catalog([]), mode, 0, ModelResult(Some(p), None, None))
             == Decision(QueuedAction, kind, Some(content), p.summary, [], [])
    ensures Reaches(cfg, run, 0, Idle, WithOutbox(m, NewRow(m, kind, content)), 0)
  {
    hide Triage, Decide;
    var admitted := Admits(cfg, m);
    assert RuleIds([]) == [];
    run := Then(admitted, RunWorkflow(0, mode, Catalog([]), ModelResult(Some(p), None, None)), 0);
  }

  lemma ClaimsIt(cfg: Config, run: Run, m: Message, row: Row, mode: AutomationMode, at: int) returns (on: Run)
    requires Reaches(cfg, run, 0, Idle, WithOutbox(m, row), 0) && 0 <= at
    requires row.attempts == 0 && Due(row, at, cfg.replyDelay)
    ensures Reaches(cfg, on, at, Holding(0, 0, mode, JustClaimed), WithOutbox(m, Claimed(row)), 0)
  {
    assert IsHead([row], 0, at, cfg.replyDelay);
    on := Then(run, Claim(0, 0, mode), at);
  }

  lemma MovesOn(cfg: Config, run: Run, at: int, db: Db, mode: AutomationMode, stage: Stage, act: Act, next: Stage)
    returns (on: Run)
    requires Reaches(cfg, run, at, Holding(0, 0, mode, stage), db, 0) && |db.outbox| == 1
    requires ByWorker(act, 0) && StageAllows(stage, act) && !act.Mark?
    requires StageAfter(cfg, db, Holding(0, 0, mode, stage), act, at) == Some(next)
    ensures on == Then(run, act, at)
    ensures Reaches(cfg, on, at, Holding(0, 0, mode, next), db, if act.Send? && act.send.Accepted? then 1 else 0)
  {
    hide StageAfter, RunRecorded, Delivered;
    on := Then(run, act, at);
  }

  // ---- A public reply ------------------------------------------------------------------------------

  /** A message and a reply to it that both gates allow: no risk signal, and a text that is not
      blank, leaks nothing and claims no price. */
  predicate Answerable(lex: Lexicon, m: Message, text: string) {
    && Ordinary(lex, m) && Triage(lex, m) == []
    && !Blank(lex, text) && !LeaksReasoning(lex, text) && !MentionsExactPrice(lex, text)
  }

  lemma NothingNewer(cfg: Config, m: Message, row: Row)
    requires row.source == m.id && RowConversation(row) == ConversationOf(m)
    ensures !IsSuperseded(cfg, WithOutbox(m, row), row)
  {
  }

  lemma QueuesReply(cfg: Config, m: Message, text: string) returns (run: Run)
    requires Answerable(cfg.lex, m, text)
    ensures Reaches(cfg, run, 0, Idle, WithOutbox(m, NewRow(m, PublicMessage, text)), 0)
  {
    hide Triage, MentionsExactPrice, LeaksReasoning;
    var p := Proposal(PublicMessage, "", Some(text), None, []);
    assert Blank(cfg.lex, "");
    assert PublicMessageDecision(p) == Decision(QueuedAction, PublicMessage, Some(text), "", [], []);
    var reply := ModelResult(Some(p), None, None);
    assert Decide(cfg.lex, m, OPEN, Catalog([]), PublicReply, 0, reply) == PublicMessageDecision(p);
    run := Queues(cfg, m, PublicReply, p, PublicMessage, text);
  }

  /** When the reply to the message falls due. */
  function ReplyTime(cfg: Config): int {
    if cfg.replyDelay > 0 then cfg.replyDelay else 0
  }

  lemma PassesStoredChecks(cfg: Config, m: Message, text: string) returns (run: Run)
    requires Answerable(cfg.lex, m, text)
    ensures Reaches(cfg, run, ReplyTime(cfg), Holding(0, 0, PublicReply, StoredPassed),
                    WithOutbox(m, Claimed(NewRow(m, PublicMessage, text))), 0)
  {
    hide Next, Enabled, HasNewerCustomerMessage, IsSuperseded, Triage, MentionsExactPrice, LeaksReasoning, Reaches;
    var row, at := NewRow(m, PublicMessage, text), ReplyTime(cfg);
    var db := WithOutbox(m, Claimed(row));
    NothingNewer(cfg, m, Claimed(row));
    run := QueuesReply(cfg, m, text);
    run := ClaimsIt(cfg, run, m, row, PublicReply, at);
    run := MovesOn(cfg, run, at, db, PublicReply, JustClaimed, CheckNewer(0), NotSuperseded);
    run := MovesOn(cfg, run, at, db, PublicReply, NotSuperseded, CheckContent(0), StaticPassed);
    run := MovesOn(cfg, run, at, db, PublicReply, StaticPassed, ReadStored(0), StoredPassed);
  }

  /** For every such message and text, whatever the settings, some run sends the text publicly in
      reply: what is proved of public calls is not proved of nothing. */
  lemma PublicReplyCanBeSent(cfg: Config, m: Message, text: string) returns (run: Run)
    requires Answerable(cfg.lex, m, text)
    ensures IsRunFromStart(cfg, run) && run.Then? && run.act == Send(0, Accepted("1")) && RowOf(cfg, run) == Some(0)
    ensures Last(cfg, run.before).db.outbox == [Claimed(NewRow(m, PublicMessage, text))]
  {
    hide Next, Enabled, HasNewerCustomerMessage, IsSuperseded, Triage, MentionsExactPrice, LeaksReasoning;
    var row, at := Claimed(NewRow(m, PublicMessage, text)), ReplyTime(cfg);
    var db := WithOutbox(m, row);
    NothingNewer(cfg, m, row);
    run := PassesStoredChecks(cfg, m, text);
    var safe := ChannelSafety(m.conversation, None, false, None, None, None);
    run := MovesOn(cfg, run, at, db, PublicReply, StoredPassed, ReadChannel(0, SafetyRead(safe)), Cleared);
    run := MovesOn(cfg, run, at, db, PublicReply, Cleared, CheckNewer(0), Ready);
    run := MovesOn(cfg, run, at, db, PublicReply, Ready, Send(0, Accepted("1")), SendAccepted("1"));
  }

  // ---- Delivered and abandoned ---------------------------------------------------------------------

  lemma QueuesNote(cfg: Config, m: Message) returns (run: Run)
    requires Ordinary(cfg.lex, m)
    ensures Reaches(cfg, run, 0, Idle, WithOutbox(m, NewRow(m, PrivateNote, m.content)), 0)
  {
    hide Triage;
    var p := Proposal(PrivateNote, "", None, Some(m.content), []);
    assert PrivateNoteDecision(p) == Decision(QueuedAction, PrivateNote, Some(m.content), "", [], []);
    assert Decide(cfg.lex, m, OPEN, Catalog([]), Assist, 0, ModelResult(Some(p), None, None)) == PrivateNoteDecision(p);
    run := Queues(cfg, m, Assist, p, PrivateNote, m.content);
  }

  /** A message can be delivered and its row never be marked so. Every ordinary customer message
      has a run in which a note for it is sent and got its id, after which the worker died: the
      row is left executing, held by no one, and so for good. */
  lemma DeliveredRowCanBeAbandoned(cfg: Config, m: Message) returns (run: Run)
    requires Ordinary(cfg.lex, m)
    ensures IsRunFromStart(cfg, run) && Deliveries(cfg, run, 0) == 1
    ensures Last(cfg, run).db.outbox == [Claimed(NewRow(m, PrivateNote, m.content))]
    ensures !CanLeaveExecuting(cfg, run, 0)
  {
    hide Next, Enabled, HasNewerCustomerMessage, StaticBlockedReason, Triage, CanLeaveExecuting;
    var row := NewRow(m, PrivateNote, m.content);
    var db := WithOutbox(m, Claimed(row));
    run := QueuesNote(cfg, m);
    run := ClaimsIt(cfg, run, m, row, Assist, 0);
    run := MovesOn(cfg, run, 0, db, Assist, JustClaimed, CheckNewer(0), NotSuperseded);
    run := MovesOn(cfg, run, 0, db, Assist, NotSuperseded, CheckContent(0), Cleared);
    run := MovesOn(cfg, run, 0, db, Assist, Cleared, CheckNewer(0), Ready);
    run := MovesOn(cfg, run, 0, db, Assist, Ready, Send(0, Accepted("1")), SendAccepted("1"));
    run := Dies(cfg, run, 0, db, Assist, SendAccepted("1"), 1);
    LeavesExecutingIffHeld(cfg, run, 0);
  }

  lemma Dies(cfg: Config, run: Run, at: int, db: Db, mode: AutomationMode, stage: Stage, delivered: nat) returns (dead: Run)
    requires Reaches(cfg, run, at, Holding(0, 0, mode, stage), db, delivered) && |db.outbox| == 1
    ensures Reaches(cfg, dead, at, Idle, db, delivered)
  {
    dead := Then(run, Crash(0), at);
  }

  // ---- Resolved and replyable ----------------------------------------------------------------------

  /** One delivery of a message that reports a resolved conversation and that it can be replied
      to leaves a resolved row that counts as replyable. */
  lemma ResolvedCanBeReplyable(cfg: Config, m: Message) returns (run: Run)
    requires m.meta.status == Some(RESOLVED) && m.meta.canReply == Some(true)
    ensures IsRunFromStart(cfg, run)
    ensures ConversationOf(m) in Last(cfg, run).db.conversations
    ensures !ResolvedIsClosed(Last(cfg, run).db.conversations[ConversationOf(m)])
  {
    hide Triage, Blank;
    var start := Begin(OneWorker());
    var d := Delivery("", MessagePayload(m));
    var db := OneWorker().db;
    assert IsRun(cfg, start) && Last(cfg, start) == OneWorker();
    assert RowAfter(cfg, db, EventOf(db, d).value).status == Some(RESOLVED);
    assert Enabled(cfg, OneWorker(), Deliver(d), 0);
    run := Then(start, Deliver(d), 0);
    assert First(run) == OneWorker() && Initial(First(run));
  }
}
