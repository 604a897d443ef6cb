/** The webhook use case: two transactions around a commit, the first storing the delivery and
    folding it into the conversation row, the second recording one workflow run. What it does
    is recorded as a run of the protocol. */
module Webhooks {
  import opened Domain
  import opened Policy
  import opened Workflow
  import opened Conversation
  import opened Database
  import opened Store
  import opened Time
  import opened Protocol

  datatype WebhookStatus = Duplicate | Ignored | Processed

  /** How a delivery ended: with a status, or by an exception before or after the commit. */
  datatype HandleResult =
    | Returned(status: WebhookStatus)
    | RaisedBeforeCommit
    | RaisedAfterCommit

  lemma DeliverStep(cfg: Config, run: Run, d: Delivery, at: int)
    requires IsRun(cfg, run) && Last(cfg, run).now <= at && !DeliveryRaises(cfg, Last(cfg, run).db, d)
    ensures IsRun(cfg, Then(run, Deliver(d), at))
    ensures var s, s' := Last(cfg, run), Last(cfg, Then(run, Deliver(d), at));
            && s'.now == at && s'.db == Delivered(cfg, s.db, d)
            && (StartsWorkflow(cfg, s.db, d) ==>
                  |s'.handlers| > |s.handlers|
                  && s'.handlers[|s.handlers|] == Admitted(d.payload.message, StateGiven(cfg, s.db, d)))
  {
  }

  lemma WorkflowStep(cfg: Config, run: Run, h: nat, mode: AutomationMode, catalog: Catalog, reply: ModelResult, at: int)
    requires IsRun(cfg, run) && Last(cfg, run).now <= at
    requires h < |Last(cfg, run).handlers| && Last(cfg, run).handlers[h].Admitted?
    ensures IsRun(cfg, Then(run, RunWorkflow(h, mode, catalog, reply), at))
    ensures var s, s' := Last(cfg, run), Last(cfg, Then(run, RunWorkflow(h, mode, catalog, reply), at));
            && s'.now == at
            && s'.db == RunRecorded(cfg, s.db, s.handlers[h].message, s.handlers[h].conversation, mode, catalog, reply, at)
    ensures IsRun(cfg, Then(run, DropWorkflow(h), at))
    ensures Last(cfg, Then(run, DropWorkflow(h), at)).now == at
    ensures Last(cfg, Then(run, DropWorkflow(h), at)).db == Last(cfg, run).db
  {
    hide Decide;
  }

  class HandleWebhookEvent {
    const cfg: Config
    const mode: AutomationMode
    const repo: Repository
    const clock: Clock
    ghost var run: Run

    constructor (cfg: Config, mode: AutomationMode, repo: Repository, clock: Clock, ghost run: Run)
      requires IsRun(cfg, run) && Last(cfg, run).db == repo.Snapshot() && Last(cfg, run).now <= clock.reading
      ensures Valid()
      ensures this.cfg == cfg && this.mode == mode && this.repo == repo && this.clock == clock && this.run == run
    {
      this.cfg, this.mode, this.repo, this.clock, this.run := cfg, mode, repo, clock, run;
    }

    /** The recorded run ends in the present state of the tables. */
    ghost predicate Valid()
      reads this, repo, clock
    {
      IsRun(cfg, run) && Last(cfg, run).db == repo.Snapshot() && Last(cfg, run).now <= clock.reading
    }

    /** Load the row of a conversation, or a new one, as a record to update. */
    method LoadRecord(where: ConversationKey) returns (record: ConversationRecord)
      ensures fresh(record) && record.Row() == RowAt(repo.Snapshot(), where)
    {
      record := new ConversationRecord(RowAt(repo.Snapshot(), where));
    }

    /** The answer to a delivery that does not raise: a duplicate at either level, or processed
        when it was a channel event or a message for the workflow, or else ignored. */
    function AnswerTo(db: Db, d: Delivery): WebhookStatus {
      if d.eventId in db.rawEvents || (d.payload.MessagePayload? && !IsNewMessage(db, d)) then Duplicate
      else if d.payload.ChannelPayload? || StartsWorkflow(cfg, db, d) then Processed
      else WebhookStatus.Ignored
    }

    /** What each answer means. Duplicate: the delivery id is known, or the message is stored.
        Processed: a new channel event, or a new message that is a customer turn with some text.
        Ignored: anything else. */
    ghost predicate Answers(db: Db, d: Delivery, status: WebhookStatus) {
      var stored := d.payload.MessagePayload?
                    && exists o :: o in db.messages && o.tenant == d.payload.message.tenant
                                   && o.channel == d.payload.message.channel && o.id == d.payload.message.id;
      var turn := d.payload.MessagePayload?
                  && d.payload.message.direction == Inbound && d.payload.message.visibility == Public
                  && d.payload.message.author == Customer
                  && exists i :: 0 <= i < |d.payload.message.content| && !cfg.lex.space(d.payload.message.content[i]);
      && (status == Duplicate <==> d.eventId in db.rawEvents || stored)
      && (status == Processed <==> d.eventId !in db.rawEvents && (d.payload.ChannelPayload? || (turn && !stored)))
    }

    lemma AnswerMeans(db: Db, d: Delivery)
      ensures Answers(db, d, AnswerTo(db, d))
    {
      if d.payload.MessagePayload? {
        var found := FindMessage(db.messages, KeyOf(d.payload.message));
        assert found.Some? ==> found.value in db.messages;
      }
    }

    /** How a delivery ends and what it adds to the run. One whose new row could not be read back
        raises and adds nothing: its transaction is rolled back. Any other adds its ingress step.
        If that starts a workflow, the workflow's step follows, or, when it fails, the handler is
        dropped with only the first transaction kept. */
    ghost predicate Handled(before: Run, d: Delivery, catalog: Catalog, reply: ModelResult, workflowFails: bool,
                            after: Run, result: HandleResult)
      requires IsRun(cfg, before)
    {
      var s := Last(cfg, before);
      if DeliveryRaises(cfg, s.db, d) then after == before && result == RaisedBeforeCommit
      else if !StartsWorkflow(cfg, s.db, d) then
        && after.Then? && after.before == before && after.act == Deliver(d)
        && result == Returned(AnswerTo(s.db, d))
      else
        && after.Then? && after.before.Then? && after.before.before == before && after.before.act == Deliver(d)
        && (if workflowFails then after.act == DropWorkflow(|s.handlers|) && result == RaisedAfterCommit
            else after.act == RunWorkflow(|s.handlers|, mode, catalog, reply) && result == Returned(Processed))
    }

    /** `handle`. The session rolls back on any exception, to the state at the last commit. A
        new eligible customer message is committed first and then given to the workflow, which
        may fail (`workflowFails`). In every outcome the tables are those at the end of the
        recorded run. */
    method Handle(d: Delivery, catalog: Catalog, reply: ModelResult, workflowFails: bool) returns (result: HandleResult)
      requires Valid()
      modifies this`run, repo, clock
      ensures Valid() && Handled(old(run), d, catalog, reply, workflowFails, run, result)
      ensures result.Returned? ==> Answers(old(repo.Snapshot()), d, result.status)
    {
      hide Next, Enabled, Delivered, RunRecorded, DeliveryRaises, Answers;
      ghost var start := run;
      ghost var h := |Last(cfg, run).handlers|;
      AnswerMeans(repo.Snapshot(), d);
      var now := clock.Now();
      var admitted;
      result, admitted := Admit(d);
      if result.RaisedBeforeCommit? {
        return;
      }
      DeliverStep(cfg, start, d, now);
      run := Then(start, Deliver(d), now);
      if admitted.None? {
        return;
      }
      var committed := repo.Snapshot();
      now := clock.Now();
      RunAndRecord(d.payload.message, admitted.value, catalog, reply, now);
      WorkflowStep(cfg, run, h, mode, catalog, reply, now);
      if workflowFails {
        repo.Rollback(committed);
        run := Then(run, DropWorkflow(h), now);
        result := RaisedAfterCommit;
      } else {
        run := Then(run, RunWorkflow(h, mode, catalog, reply), now);
      }
    }

    /** The first transaction, up to its commit; what the workflow is given if it is to start. */
    method Admit(d: Delivery) returns (result: HandleResult, admitted: Option<ConversationState>)
      modifies repo
      ensures result == if DeliveryRaises(cfg, old(repo.Snapshot()), d) then RaisedBeforeCommit
                        else Returned(AnswerTo(old(repo.Snapshot()), d))
      ensures repo.Snapshot() == if result.RaisedBeforeCommit? then old(repo.Snapshot())
                                 else Delivered(cfg, old(repo.Snapshot()), d)
      ensures admitted == if result.Returned? && StartsWorkflow(cfg, old(repo.Snapshot()), d)
                          then Some(StateGiven(cfg, old(repo.Snapshot()), d)) else None
    {
      admitted := None;
      var begun := repo.Snapshot();
      var inserted := repo.InsertRawEvent(d.eventId);
      if !inserted {
        assert begun.rawEvents + {d.eventId} == begun.rawEvents;
        result := Returned(Duplicate);
        return;
      }
      match d.payload {
        case OtherPayload => result := Returned(WebhookStatus.Ignored);
        case ChannelPayload(where, meta) =>
          var record := LoadRecord(where);
          var state := record.UpdateChannelState(cfg.ttl, meta);
          if state.None? {
            repo.Rollback(begun);
            result := RaisedBeforeCommit;
            return;
          }
          repo.conversations := repo.conversations[where := record.Row()];
          result := Returned(Processed);
        case MessagePayload(m) =>
          var stored, isNew := repo.InsertMessage(m);
          var where := ConversationOf(stored);
          var record := LoadRecord(where);
          var state := record.UpdateConversationState(cfg.ttl, stored);
          if state.None? {
            repo.Rollback(begun);
            result := RaisedBeforeCommit;
            return;
          }
          repo.conversations := repo.conversations[where := record.Row()];
          if !isNew {
            result := Returned(Duplicate);
          } else if !Eligible(cfg.lex, stored) {
            result := Returned(WebhookStatus.Ignored);
          } else {
            result, admitted := Returned(Processed), state;
          }
      }
    }

    /** `RunCustomerSupportWorkflow.run`: the graph, then `_record_result`. */
    method RunAndRecord(m: Message, conversation: ConversationState, catalog: Catalog, reply: ModelResult, now: int)
      modifies repo`runs, repo`outbox
      ensures repo.Snapshot() == RunRecorded(cfg, old(repo.Snapshot()), m, conversation, mode, catalog, reply, now)
    {
      hide Decide;
      var decision := Invoke(cfg.lex, m, conversation, catalog, mode, now, reply);
      repo.runs := repo.runs + [KeyOf(m)];
      if decision.status == QueuedAction && Truthy(decision.content) {
        QueueAction(m, decision, catalog, now);
      }
    }

    /** `_queue_action`, with its early returns. */
    method QueueAction(m: Message, decision: Decision, catalog: Catalog, now: int)
      requires decision.status == QueuedAction && Truthy(decision.content)
      modifies repo`outbox
      ensures var row := QueuedRow(mode, m, decision, catalog, now);
              repo.outbox == if row.Some? then InsertRow(old(repo.outbox), row.value) else old(repo.outbox)
    {
      if decision.kind == NoAction {
        return;
      }
      if decision.kind == PublicMessage && mode != PublicReply {
        return;
      }
      var key := IdempotencyKey(m.tenant, m.channel, m.conversation, m.id, decision.kind);
      var inserted := repo.InsertOutboundAction(
        Row(m.tenant, m.channel, m.conversation, m.id, decision.kind, decision.content.value,
            SafetyContext(catalog, RuleIds(decision.rules), decision.riskReasons), key,
            now, Queued, 0, None, None, None, None));
    }
  }
}
