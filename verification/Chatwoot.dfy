/** The Chatwoot client, which keeps a log of what was asked of it and what it answered, and the
    calls that the steps of a protocol run stand for. */
module Chatwoot {
  import opened Domain
  import opened Database
  import opened Protocol
  import opened Invariants
  import opened TraceSafety

  datatype Call =
    | SafetyCall(conversation: string, safety: SafetyReply)
    | CreateCall(conversation: string, content: string, private: bool, send: SendReply)
    | UpdateCall(conversation: string, kind: ActionKind, update: UpdateReply)

  /** Chatwoot answers as it likes. */
  class ChatwootClient {
    ghost var log: seq<Call>

    constructor ()
      ensures log == []
    {
      log := [];
    }

    method GetConversationSafety(conversation: string) returns (reply: SafetyReply)
      modifies this
      ensures log == old(log) + [SafetyCall(conversation, reply)]
    {
      reply := *;
      log := log + [SafetyCall(conversation, reply)];
    }

    method CreateMessage(conversation: string, content: string, private: bool) returns (reply: SendReply)
      modifies this
      ensures log == old(log) + [CreateCall(conversation, content, private, reply)]
    {
      reply := *;
      log := log + [CreateCall(conversation, content, private, reply)];
    }

    /** The status change after a public reply, or the label after a review note. */
    method UpdateAfterSend(conversation: string, kind: ActionKind) returns (reply: UpdateReply)
      modifies this
      ensures log == old(log) + [UpdateCall(conversation, kind, reply)]
    {
      reply := *;
      log := log + [UpdateCall(conversation, kind, reply)];
    }
  }

  // ---- Counting calls --------------------------------------------------------------------------

  /** `create_message` calls in a log. */
  function Created(log: seq<Call>): nat {
    if log == [] then 0
    else Created(log[..|log| - 1]) + if log[|log| - 1].CreateCall? then 1 else 0
  }

  /** Those of them that returned an id. */
  function Answered(log: seq<Call>): nat {
    if log == [] then 0
    else Answered(log[..|log| - 1])
         + if log[|log| - 1].CreateCall? && log[|log| - 1].send.Accepted? then 1 else 0
  }

  lemma CountedCall(log: seq<Call>, call: Call)
    ensures Created(log + [call]) == Created(log) + if call.CreateCall? then 1 else 0
    ensures Answered(log + [call]) == Answered(log) + if call.CreateCall? && call.send.Accepted? then 1 else 0
  {
    assert (log + [call])[..|log|] == log;
  }

  // ---- The calls of a run ----------------------------------------------------------------------

  /** The call a step stands for, with the conversation, text and kind of the row it is about. */
  function CallOf(s: Sys, act: Act): seq<Call> {
    var i := Target(s, act);
    if i.None? || i.value >= |s.db.outbox| then []
    else
      var row := s.db.outbox[i.value];
      match act
      case ReadChannel(_, reply) => [SafetyCall(row.conversation, reply)]
      case Send(_, reply) => [CreateCall(row.conversation, row.content, row.kind == PrivateNote, reply)]
      case FollowUp(_, reply) => [UpdateCall(row.conversation, row.kind, reply)]
      case _ => []
  }

  /** The calls of worker `w` in a run, leaving out its first `n` steps. */
  function CallsSince(cfg: Config, run: Run, w: nat, n: nat): seq<Call>
    requires IsRun(cfg, run)
  {
    if Steps(run) <= n then []
    else CallsSince(cfg, run.before, w, n)
         + if ByWorker(run.act, w) then CallOf(Last(cfg, run.before), run.act) else []
  }

  /** The calls of a run are those of a beginning of it and those made since. */
  lemma {:induction false} CallsCompose(cfg: Config, early: Run, run: Run, w: nat, n: nat)
    requires IsRun(cfg, early) && IsRun(cfg, run) && IsPrefix(early, run) && n <= Steps(early)
    ensures CallsSince(cfg, run, w, n) == CallsSince(cfg, early, w, n) + CallsSince(cfg, run, w, Steps(early))
  {
    hide Next, Enabled;
    if early != run {
      PrefixIsRun(cfg, early, run.before);
      CallsCompose(cfg, early, run.before, w, n);
    }
  }

  /** Every call of a run is that of one of its steps. */
  lemma {:induction false} StepOfCall(cfg: Config, run: Run, w: nat, n: nat, k: nat) returns (step: Run)
    requires IsRun(cfg, run) && k < |CallsSince(cfg, run, w, n)|
    ensures IsPrefix(step, run) && Steps(step) > n && step.Then? && IsRun(cfg, step) && ByWorker(step.act, w)
    ensures CallOf(Last(cfg, step.before), step.act) == [CallsSince(cfg, run, w, n)[k]]
  {
    hide Next, Enabled;
    if k < |CallsSince(cfg, run.before, w, n)| {
      step := StepOfCall(cfg, run.before, w, n, k);
    } else {
      step := run;
    }
  }

  /** The call was made by this step of worker `w`, about row `i`: it names the row's conversation,
      a message has the row's text and is private exactly for a note, an update is of the row's
      kind, and what Chatwoot answered is what the step went on with. */
  predicate Carries(call: Call, s: Sys, act: Act, w: nat, i: nat) {
    && i < |s.db.outbox| && Holds(s, w, i)
    && var row := s.db.outbox[i];
       match call
       case SafetyCall(conversation, reply) => conversation == row.conversation && act == ReadChannel(w, reply)
       case CreateCall(conversation, content, private, reply) =>
         && conversation == row.conversation && content == row.content && (private <==> row.kind == PrivateNote)
         && act == Send(w, reply)
       case UpdateCall(conversation, kind, reply) =>
         conversation == row.conversation && kind == row.kind && act == FollowUp(w, reply)
  }

  /** Every call of a worker in a run carries the row it held when it made the call. */
  lemma CallsCarryRows(cfg: Config, run: Run, w: nat, n: nat, k: nat) returns (step: Run, i: nat)
    requires IsRun(cfg, run) && k < |CallsSince(cfg, run, w, n)|
    ensures IsPrefix(step, run) && Steps(step) > n && step.Then? && IsRun(cfg, step)
    ensures Carries(CallsSince(cfg, run, w, n)[k], Last(cfg, step.before), step.act, w, i)
  {
    hide Next, Enabled;
    step := StepOfCall(cfg, run, w, n, k);
    i := Target(Last(cfg, step.before), step.act).value;
  }

  /** And every call step of the worker is among its calls, in the order of the steps. */
  lemma CallsAreLogged(cfg: Config, run: Run, w: nat, n: nat)
    requires IsRun(cfg, run) && run.Then? && Steps(run) > n
    ensures var before, after := CallsSince(cfg, run.before, w, n), CallsSince(cfg, run, w, n);
            var called := (run.act.ReadChannel? || run.act.Send? || run.act.FollowUp?) && run.act.w == w;
            if called then
              && |after| == |before| + 1 && after == before + [after[|before|]]
              && exists i :: Carries(after[|before|], Last(cfg, run.before), run.act, w, i)
            else after == before
  {
    hide Next;
    var s := Last(cfg, run.before);
    if (run.act.ReadChannel? || run.act.Send? || run.act.FollowUp?) && run.act.w == w {
      var call := CallOf(s, run.act)[0];
      assert CallsSince(cfg, run, w, n) == CallsSince(cfg, run.before, w, n) + [call];
      assert Carries(call, s, run.act, w, s.workers[w].row);
    }
  }

  /** What stands behind a public message: the step that sent it, the row it was for, the six
      checks before it, and the workflow run that asked for it. */
  datatype Backing = Backing(step: Run, row: nat, checks: Checks, origin: Run)

  ghost predicate Backs(cfg: Config, backing: Backing, run: Run, w: nat, n: nat, call: Call) {
    var step, i := backing.step, backing.row;
    && IsPrefix(step, run) && Steps(step) > n && step.Then? && IsRun(cfg, step)
    && Target(Last(cfg, step.before), step.act) == Some(i)
    && Carries(call, Last(cfg, step.before), step.act, w, i)
    && StandBehind(cfg, backing.checks, step, w, i) && NeverSuperseded(cfg, backing.checks.newer2.before, i)
    && IsPrefix(backing.origin, step.before)
    && i < |Last(cfg, step.before).db.outbox| && Allowed(cfg, backing.origin, Last(cfg, step.before).db.outbox[i])
  }

  /** Behind every public message among the calls of a run stand the six checks, for the row
      whose text and conversation it carries and which was superseded at no earlier point; and
      that text is one a workflow run of the run proposed and both gates allowed. */
  lemma PublicCallsAreBacked(cfg: Config, run: Run, w: nat, n: nat, k: nat) returns (backing: Backing)
    requires IsRunFromStart(cfg, run) && k < |CallsSince(cfg, run, w, n)|
    requires CallsSince(cfg, run, w, n)[k].CreateCall? && !CallsSince(cfg, run, w, n)[k].private
    ensures Backs(cfg, backing, run, w, n, CallsSince(cfg, run, w, n)[k])
  {
    hide Next, Enabled, CallsSince, StandBehind, NeverSuperseded, Allowed, Carries, Inv;
    var step, i := CallsCarryRows(cfg, run, w, n, k);
    PrefixIsRun(cfg, step, run);
    SendsPublicly(cfg, step, CallsSince(cfg, run, w, n)[k], w, i);
    var checks := PublicSendWasNeverSuperseded(cfg, step, i);
    var origin := PublicRowWasAllowed(cfg, step.before, i);
    backing := Backing(step, i, checks, origin);
  }

  lemma SendsPublicly(cfg: Config, step: Run, call: Call, w: nat, i: nat)
    requires IsRunFromStart(cfg, step) && step.Then? && Carries(call, Last(cfg, step.before), step.act, w, i)
    requires call.CreateCall? && !call.private
    ensures step.act.Send? && step.act.w == w && RowOf(cfg, step) == Some(i)
    ensures i < |Last(cfg, step.before).db.outbox| && Last(cfg, step.before).db.outbox[i].kind == PublicMessage
  {
    hide Next, Enabled;
    InvHolds(cfg, step.before);
    assert RowOk(cfg, Last(cfg, step.before).db.outbox[i], Last(cfg, step.before).now);
  }
}
