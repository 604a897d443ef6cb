/** The support workflow graph, the decisions its nodes build, and what becomes of a decision:
    the outbox row it queues. */
module Workflow {
  import opened Domain
  import opened Text
  import opened Pricing
  import opened Policy

  // ---- Decision builders -------------------------------------------------------------------

  const NON_CUSTOMER_TURN := Decision(Ignored, NoAction, None,
    "Message is not an eligible public inbound customer turn.", [IngressCustomerPublicInboundRequired], [])

  function PreModelBlocked(rules: seq<PolicyRule>, signals: seq<string>): Decision {
    Decision(RunBlockedByPolicy, NoAction, None, "Pre-model policy blocked the workflow.", rules, signals)
  }

  function ProposalFailed(error: string): Decision {
    Decision(Failed, NoAction, None, "Model proposal failed.", [ModelProposalFailed], [error])
  }

  function PublicReplyReview(p: Proposal, rules: seq<PolicyRule>, signals: seq<string>, note: string): Decision {
    Decision(QueuedAction, PrivateNote, Some(note), "Public reply requires human review.",
             rules, signals + p.riskReasons)
  }

  function PostModelBlocked(proposal: Option<Proposal>, rules: seq<PolicyRule>): Decision {
    Decision(RunBlockedByPolicy, NoAction, None, "Post-model policy blocked the proposed action.", rules,
             if proposal.Some? then proposal.value.riskReasons else [])
  }

  function ObserveDecision(p: Proposal): Decision {
    Decision(Proposed, NoAction, None, p.summary, [], p.riskReasons)
  }

  function NoteText(p: Proposal): string {
    if Truthy(p.privateNote) then p.privateNote.value
    else if Truthy(p.publicMessage) then p.publicMessage.value
    else p.summary
  }

  function PrivateNoteDecision(p: Proposal): Decision {
    Decision(QueuedAction, PrivateNote, Some(NoteText(p)), p.summary, [], p.riskReasons)
  }

  function PublicMessageDecision(p: Proposal): Decision {
    Decision(QueuedAction, PublicMessage, p.publicMessage, p.summary, [], p.riskReasons)
  }

  const MISSING_PROPOSAL := Decision(Failed, NoAction, None,
    "No proposal was available after validation.", [ModelNoProposal], [])

  const REVIEW_HEADING := "WootPilot did not send a public reply because this turn needs human review."

  /** `public_reply_review_note`: the reasons in order, each once. The unsafe draft is not copied
      into the note. */
  function ReviewNote(proposal: Option<Proposal>, mode: AutomationMode, rules: seq<PolicyRule>,
                      signals: seq<string>): Option<string> {
    if proposal.None? || !WantsPublic(mode, proposal.value) then None
    else
      var reasons := SortedDistinct(RuleIds(rules) + signals + proposal.value.riskReasons);
      Some(REVIEW_HEADING + "\nSummary: " + proposal.value.summary
           + if reasons == [] then "" else "\nReview reasons: " + CommaList(reasons))
  }

  function CommaList(items: seq<string>): string {
    if items == [] then "" else if |items| == 1 then items[0] else items[0] + ", " + CommaList(items[1..])
  }

  // ---- The graph ---------------------------------------------------------------------------

  datatype Node =
    ShouldInvoke | TriageMessage | PolicyGate | GenerateProposal | ValidateOutboundAction | End

  /** The state the nodes share; `modelCalls` counts calls of the proposal generator. */
  datatype GraphState = GraphState(
    message: Message,
    conversation: ConversationState,
    catalog: Catalog,
    mode: AutomationMode,
    triage: Option<seq<string>>,
    preModel: Option<seq<PolicyRule>>,
    proposal: Option<Proposal>,
    postModel: Option<seq<PolicyRule>>,
    decision: Option<Decision>,
    modelCalls: nat)

  function Start(m: Message, conversation: ConversationState, catalog: Catalog, mode: AutomationMode): GraphState {
    GraphState(m, conversation, catalog, mode, None, None, None, None, None, 0)
  }

  function ProviderError(reply: ModelResult): Option<string> {
    if Truthy(reply.retryableError) then reply.retryableError
    else if Truthy(reply.permanentError) then reply.permanentError
    else None
  }

  function FinalDecision(s: GraphState): Decision {
    if s.proposal.None? then MISSING_PROPOSAL
    else if s.mode == Observe then ObserveDecision(s.proposal.value)
    else if s.mode == Assist || s.proposal.value.kind != PublicMessage then PrivateNoteDecision(s.proposal.value)
    else PublicMessageDecision(s.proposal.value)
  }

  /** One node: the updated state and where to go next. A node that needs the triage result
      raises when it is missing, which the order of the nodes rules out. */
  function Visit(lex: Lexicon, node: Node, s: GraphState, now: int, reply: ModelResult): (GraphState, Node)
    requires node != End
    requires node in {PolicyGate, ValidateOutboundAction} ==> s.triage.Some?
  {
    match node
    case ShouldInvoke =>
      if Eligible(lex, s.message) then (s, TriageMessage)
      else (s.(decision := Some(NON_CUSTOMER_TURN)), End)
    case TriageMessage => (s.(triage := Some(Triage(lex, s.message))), PolicyGate)
    case PolicyGate =>
      var rules := PreModelRules(lex, s.message, s.conversation, s.triage.value, s.mode, now);
      var s' := s.(preModel := Some(rules));
      if rules != [] then (s'.(decision := Some(PreModelBlocked(rules, s.triage.value))), End)
      else (s', GenerateProposal)
    case GenerateProposal =>
      var s' := s.(modelCalls := s.modelCalls + 1);
      if ProviderError(reply).Some? then
        (s'.(proposal := None, decision := Some(ProposalFailed(ProviderError(reply).value))), End)
      else (s'.(proposal := reply.proposal), ValidateOutboundAction)
    case ValidateOutboundAction =>
      var rules := ProposalRules(lex, s.proposal, s.mode, s.triage.value, s.catalog);
      var s' := s.(postModel := Some(rules));
      if rules == [] then (s'.(decision := Some(FinalDecision(s))), End)
      else
        var note := ReviewNote(s.proposal, s.mode, rules, s.triage.value);
        if note.Some? then
          (s'.(decision := Some(PublicReplyReview(s.proposal.value, rules, s.triage.value, note.value))), End)
        else (s'.(decision := Some(PostModelBlocked(s.proposal, rules))), End)
  }

  function Rank(node: Node): nat {
    match node
    case ShouldInvoke => 5
    case TriageMessage => 4
    case PolicyGate => 3
    case GenerateProposal => 2
    case ValidateOutboundAction => 1
    case End => 0
  }

  /** Follow the graph to its end, counting the nodes visited. */
  function RunGraph(lex: Lexicon, node: Node, s: GraphState, now: int, reply: ModelResult): (GraphState, nat)
    requires node in {PolicyGate, GenerateProposal, ValidateOutboundAction} ==> s.triage.Some?
    decreases Rank(node)
  {
    if node == End then (s, 0)
    else
      var (s', next) := Visit(lex, node, s, now, reply);
      var (final, steps) := RunGraph(lex, next, s', now, reply);
      (final, steps + 1)
  }

  // ---- The decision, said directly -----------------------------------------------------------

  /** What a turn comes to, without the graph: the reference the node-by-node run is proved
      against. */
  function Decide(lex: Lexicon, m: Message, conversation: ConversationState, catalog: Catalog,
                  mode: AutomationMode, now: int, reply: ModelResult): Decision {
    var signals := Triage(lex, m);
    var blocked := PreModelRules(lex, m, conversation, signals, mode, now);
    if !Eligible(lex, m) then NON_CUSTOMER_TURN
    else if blocked != [] then PreModelBlocked(blocked, signals)
    else if ProviderError(reply).Some? then ProposalFailed(ProviderError(reply).value)
    else if reply.proposal.None? then PostModelBlocked(None, [ModelNoProposal])
    else
      var p := reply.proposal.value;
      if WantsPublic(mode, p) then
        var unsafe := ProposalRules(lex, reply.proposal, mode, signals, catalog);
        if unsafe == [] then PublicMessageDecision(p)
        else PublicReplyReview(p, unsafe, signals, ReviewNote(reply.proposal, mode, unsafe, signals).value)
      else if mode == Observe then ObserveDecision(p)
      else PrivateNoteDecision(p)
  }

  /** Every run of the graph ends within five nodes with the decision above, calls the model at
      most once, and not at all for an ineligible or blocked turn. */
  lemma GraphDecides(lex: Lexicon, m: Message, conversation: ConversationState, catalog: Catalog,
                     mode: AutomationMode, now: int, reply: ModelResult)
    ensures var (final, steps) := RunGraph(lex, ShouldInvoke, Start(m, conversation, catalog, mode), now, reply);
            && steps <= 5
            && final.decision == Some(Decide(lex, m, conversation, catalog, mode, now, reply))
            && final.modelCalls == (if Eligible(lex, m)
                 && PreModelRules(lex, m, conversation, Triage(lex, m), mode, now) == [] then 1 else 0)
  {
    hide PreModelRules, Triage, PublicPriceRule, LeaksReasoning;
    var s0 := Start(m, conversation, catalog, mode);
    if Eligible(lex, m) {
      var s1 := Visit(lex, TriageMessage, s0, now, reply).0;
      var (s2, gate) := Visit(lex, PolicyGate, s1, now, reply);
      assert RunGraph(lex, TriageMessage, s0, now, reply).0 == RunGraph(lex, PolicyGate, s1, now, reply).0;
      assert RunGraph(lex, PolicyGate, s1, now, reply).0 == RunGraph(lex, gate, s2, now, reply).0;
      if gate == GenerateProposal {
        var (s3, check) := Visit(lex, GenerateProposal, s2, now, reply);
        assert RunGraph(lex, GenerateProposal, s2, now, reply).0 == RunGraph(lex, check, s3, now, reply).0;
        if check == ValidateOutboundAction {
          var (s4, end) := Visit(lex, ValidateOutboundAction, s3, now, reply);
          assert RunGraph(lex, ValidateOutboundAction, s3, now, reply) == (s4, 1);
        }
      }
    }
  }

  /** One node, with the gates collecting their rules one by one. */
  method RunNode(lex: Lexicon, node: Node, s: GraphState, now: int, reply: ModelResult) returns (s': GraphState, next: Node)
    requires node != End
    requires node in {PolicyGate, ValidateOutboundAction} ==> s.triage.Some?
    ensures (s', next) == Visit(lex, node, s, now, reply)
  {
    hide PreModelRules, ProposalRules, StopsTurn, StopsProposal, InOrder;
    if node == PolicyGate {
      var allowed, rules := PreModelPolicy(lex, s.message, s.conversation, s.triage.value, s.mode, now);
      PreModelRulesAreCollected(lex, s.message, s.conversation, s.triage.value, s.mode, now, rules);
      s', next := s.(preModel := Some(rules)), GenerateProposal;
      if !allowed {
        s', next := s'.(decision := Some(PreModelBlocked(rules, s.triage.value))), End;
      }
    } else if node == ValidateOutboundAction {
      var allowed, rules := ValidateProposal(lex, s.proposal, s.mode, s.triage.value, s.catalog);
      ProposalRulesAreCollected(lex, s.proposal, s.mode, s.triage.value, s.catalog, rules);
      s', next := s.(postModel := Some(rules)), End;
      if allowed {
        s' := s'.(decision := Some(FinalDecision(s)));
      } else {
        var note := ReviewNote(s.proposal, s.mode, rules, s.triage.value);
        s' := s'.(decision := Some(if note.Some? then PublicReplyReview(s.proposal.value, rules, s.triage.value, note.value)
                                   else PostModelBlocked(s.proposal, rules)));
      }
    } else {
      var visited := Visit(lex, node, s, now, reply);
      s', next := visited.0, visited.1;
    }
  }

  /** The graph, run node by node to its end, comes to the decision said directly. */
  method Invoke(lex: Lexicon, m: Message, conversation: ConversationState, catalog: Catalog,
                mode: AutomationMode, now: int, reply: ModelResult) returns (decision: Decision)
    ensures decision == Decide(lex, m, conversation, catalog, mode, now, reply)
  {
    hide Visit, Decide;
    ghost var start := Start(m, conversation, catalog, mode);
    var s, node := Start(m, conversation, catalog, mode), ShouldInvoke;
    while node != End
      invariant node in {PolicyGate, GenerateProposal, ValidateOutboundAction} ==> s.triage.Some?
      invariant RunGraph(lex, node, s, now, reply).0 == RunGraph(lex, ShouldInvoke, start, now, reply).0
      decreases Rank(node)
    {
      VisitGoesOn(lex, node, s, now, reply);
      s, node := RunNode(lex, node, s, now, reply);
    }
    GraphDecides(lex, m, conversation, catalog, mode, now, reply);
    decision := s.decision.value;
  }

  lemma VisitGoesOn(lex: Lexicon, node: Node, s: GraphState, now: int, reply: ModelResult)
    requires node != End
    requires node in {PolicyGate, GenerateProposal, ValidateOutboundAction} ==> s.triage.Some?
    ensures var (s', next) := Visit(lex, node, s, now, reply);
            && Rank(next) < Rank(node)
            && (next in {PolicyGate, GenerateProposal, ValidateOutboundAction} ==> s'.triage.Some?)
            && RunGraph(lex, next, s', now, reply).0 == RunGraph(lex, node, s, now, reply).0
  {
  }

  /** What a decision says about what it queues. A public action needs public-reply mode and an
      allowing verdict; a blocked proposal becomes a private note exactly when it wanted to be
      public; the missing-proposal decision does not occur. */
  lemma DecisionShape(lex: Lexicon, m: Message, conversation: ConversationState, catalog: Catalog,
                      mode: AutomationMode, now: int, reply: ModelResult)
    ensures var d := Decide(lex, m, conversation, catalog, mode, now, reply);
            var rules := ProposalRules(lex, reply.proposal, mode, Triage(lex, m), catalog);
            var reached := Eligible(lex, m) && ProviderError(reply).None?
                           && PreModelRules(lex, m, conversation, Triage(lex, m), mode, now) == [];
            && (d.status == QueuedAction <==> d.kind != NoAction)
            && (d.kind == PublicMessage <==>
                  reached && reply.proposal.Some? && WantsPublic(mode, reply.proposal.value) && rules == [])
            && (reached && reply.proposal.Some? && rules != [] ==>
                  d.kind == PrivateNote && d.content.Some? && d.content.value != "" && d.rules == rules)
            && (mode == Observe ==> d.kind == NoAction)
            && (mode == Assist ==> d.kind != PublicMessage)
            && d != MISSING_PROPOSAL
  {
  }

  /** The endings before there is a proposal to judge: what each records, and that none of them
      asks for an action. */
  lemma StoppedTurns(lex: Lexicon, m: Message, conversation: ConversationState, catalog: Catalog,
                     mode: AutomationMode, now: int, reply: ModelResult)
    ensures var d := Decide(lex, m, conversation, catalog, mode, now, reply);
            var signals := lex.triage(Searchable(lex, m.content));
            var stops := PreModelRules(lex, m, conversation, signals, mode, now);
            && (!Eligible(lex, m) ==>
                  d == Decision(Ignored, NoAction, None, "Message is not an eligible public inbound customer turn.",
                                [IngressCustomerPublicInboundRequired], []))
            && (Eligible(lex, m) && stops != [] ==>
                  d == Decision(RunBlockedByPolicy, NoAction, None, "Pre-model policy blocked the workflow.", stops, signals))
            && (Eligible(lex, m) && stops == [] && Named(reply.retryableError) ==>
                  d == Decision(Failed, NoAction, None, "Model proposal failed.",
                                [ModelProposalFailed], [reply.retryableError.value]))
            && (Eligible(lex, m) && stops == [] && !Named(reply.retryableError) && Named(reply.permanentError) ==>
                  d == Decision(Failed, NoAction, None, "Model proposal failed.",
                                [ModelProposalFailed], [reply.permanentError.value]))
            && (Eligible(lex, m) && stops == [] && !Named(reply.retryableError) && !Named(reply.permanentError)
                && reply.proposal == None ==>
                  d == Decision(RunBlockedByPolicy, NoAction, None, "Post-model policy blocked the proposed action.",
                                [ModelNoProposal], []))
  {
    hide PreModelRules, ProposalRules, ReviewNote;
  }

  /** What becomes of a proposal. In observe mode it is only recorded. A public proposal in
      public-reply mode is queued with its public message, or, if any rule objects, as the review
      note with the rules. Any other proposal is queued as a note: its private note, or else its
      public message, or else its summary. */
  lemma ProposalEndings(lex: Lexicon, m: Message, conversation: ConversationState, catalog: Catalog,
                        mode: AutomationMode, now: int, reply: ModelResult, p: Proposal)
    requires Eligible(lex, m) && PreModelRules(lex, m, conversation, lex.triage(Searchable(lex, m.content)), mode, now) == []
    requires !Named(reply.retryableError) && !Named(reply.permanentError) && reply.proposal == Some(p)
    ensures var d := Decide(lex, m, conversation, catalog, mode, now, reply);
            var signals := lex.triage(Searchable(lex, m.content));
            var rules := ProposalRules(lex, Some(p), mode, signals, catalog);
            && (mode == Observe ==> d == Decision(Proposed, NoAction, None, p.summary, [], p.riskReasons))
            && (mode == PublicReply && p.kind == PublicMessage && rules == [] ==>
                  d == Decision(QueuedAction, PublicMessage, p.publicMessage, p.summary, [], p.riskReasons))
            && (mode == PublicReply && p.kind == PublicMessage && rules != [] ==>
                  d == Decision(QueuedAction, PrivateNote, ReviewNote(Some(p), mode, rules, signals),
                                "Public reply requires human review.", rules, signals + p.riskReasons))
            && (mode == Assist || (mode == PublicReply && p.kind != PublicMessage) ==>
                  d == Decision(QueuedAction, PrivateNote,
                                if Named(p.privateNote) then p.privateNote
                                else if Named(p.publicMessage) then p.publicMessage
                                else Some(p.summary),
                                p.summary, [], p.riskReasons))
  {
    hide PreModelRules, ProposalRules;
  }

  /** The review note names the summary and, in order and each once, exactly the ids of the rules
      that objected, the risk signals of the message and the risk reasons of the proposal. */
  lemma ReviewNoteSays(p: Proposal, rules: seq<PolicyRule>, signals: seq<string>) returns (reasons: seq<string>)
    requires p.kind == PublicMessage
    ensures Ascending(reasons)
    ensures forall x :: x in reasons <==> (exists r :: r in rules && x == RuleId(r)) || x in signals || x in p.riskReasons
    ensures ReviewNote(Some(p), PublicReply, rules, signals)
            == Some("WootPilot did not send a public reply because this turn needs human review."
                    + "\nSummary: " + p.summary
                    + if reasons == [] then "" else "\nReview reasons: " + CommaList(reasons))
  {
    reasons := SortedDistinct(RuleIds(rules) + signals + p.riskReasons);
    SortedDistinctIs(RuleIds(rules) + signals + p.riskReasons);
    hide RuleId, Ascending, SortedDistinct, CommaList;
    forall x ensures x in RuleIds(rules) <==> exists r :: r in rules && x == RuleId(r) {
      if r :| r in rules && x == RuleId(r) {
        var i :| 0 <= i < |rules| && rules[i] == r;
        assert RuleIds(rules)[i] == x;
      }
    }
  }

  /** A comma and a blank between one item and the next. */
  lemma {:induction false} CommaListGrows(items: seq<string>, item: string)
    ensures CommaList([item]) == item
    ensures items != [] ==> CommaList(items + [item]) == CommaList(items) + ", " + item
  {
    if |items| > 1 {
      CommaListGrows(items[1..], item);
      assert (items + [item])[1..] == items[1..] + [item];
    } else if |items| == 1 {
      assert (items + [item])[1..] == [item];
    }
  }

  /** The note of a denied reply does not depend on the draft it replaces. */
  lemma ReviewNoteHidesDraft(p: Proposal, draft: Option<string>, mode: AutomationMode,
                             rules: seq<PolicyRule>, signals: seq<string>)
    ensures ReviewNote(Some(p), mode, rules, signals) == ReviewNote(Some(p.(publicMessage := draft)), mode, rules, signals)
  {
  }

  // ---- Queueing ----------------------------------------------------------------------------

  function IdempotencyKey(tenant: string, channel: string, conversation: string, id: string, kind: ActionKind): string {
    tenant + ":" + (channel + ":" + (conversation + ":" + (id + ":" + KindName(kind))))
  }

  /** The outbox row a decision asks for: `_record_result` and `_queue_action` with their early
      returns. */
  function QueuedRow(mode: AutomationMode, m: Message, d: Decision, catalog: Catalog, now: int): Option<Row> {
    if d.status != QueuedAction || !Truthy(d.content) then None
    else if d.kind == NoAction then None
    else if d.kind == PublicMessage && mode != PublicReply then None
    else Some(Row(m.tenant, m.channel, m.conversation, m.id, d.kind, d.content.value,
                  SafetyContext(catalog, RuleIds(d.rules), d.riskReasons),
                  IdempotencyKey(m.tenant, m.channel, m.conversation, m.id, d.kind),
                  now, Queued, 0, None, None, None, None))
  }

  /** Which decisions queue a row, and what is in it: the identity of the message, the kind and
      content of the decision, the catalog and the reasons it was taken on, the key made of the
      ids and the kind, and no attempt yet. */
  lemma QueuedRowIs(mode: AutomationMode, m: Message, d: Decision, catalog: Catalog, now: int)
    ensures QueuedRow(mode, m, d, catalog, now).Some? <==>
              d.status == QueuedAction && Named(d.content)
              && (d.kind == PrivateNote || (d.kind == PublicMessage && mode == PublicReply))
    ensures QueuedRow(mode, m, d, catalog, now).Some? ==>
              var row := QueuedRow(mode, m, d, catalog, now).value;
              && row.tenant == m.tenant && row.channel == m.channel && row.conversation == m.conversation && row.source == m.id
              && row.kind == d.kind && Some(row.content) == d.content
              && row.safety.catalog == catalog && row.safety.riskReasons == d.riskReasons
              && |row.safety.ruleIds| == |d.rules|
              && (forall i :: 0 <= i < |d.rules| ==> row.safety.ruleIds[i] == RuleId(d.rules[i]))
              && row.key == m.tenant + ":" + m.channel + ":" + m.conversation + ":" + m.id + ":"
                            + (if d.kind == PublicMessage then "public_message" else "private_note")
              && row.createdAt == now && row.status == Queued && row.attempts == 0
              && row.nextAttemptAt == None
              && row.providerMessageId == row.failureReason == row.errorCode == None
  {
    KeyIs(m, d.kind);
  }

  lemma KeyIs(m: Message, kind: ActionKind)
    ensures IdempotencyKey(m.tenant, m.channel, m.conversation, m.id, kind)
            == m.tenant + ":" + m.channel + ":" + m.conversation + ":" + m.id + ":" + KindName(kind)
  {
    hide KindName;
    var t, c, v := m.tenant, m.channel, m.conversation;
    Associate(t + ":", c + ":", v + ":" + (m.id + ":" + KindName(kind)));
    Associate(t + ":" + (c + ":"), v + ":", m.id + ":" + KindName(kind));
    Associate(t + ":" + (c + ":") + (v + ":"), m.id + ":", KindName(kind));
    assert c + ":" + (v + ":" + (m.id + ":" + KindName(kind))) == (c + ":") + (v + ":" + (m.id + ":" + KindName(kind)));
  }

  /** A row counts as a human-review note exactly when a rule id or risk reason saved with it
      begins with "public." or "intent.". */
  lemma HumanReviewIff(safety: SafetyContext)
    ensures IsHumanReview(safety) <==>
              exists marker :: (marker in safety.ruleIds || marker in safety.riskReasons)
                               && |marker| >= 7 && (marker[..7] == "public." || marker[..7] == "intent.")
  {
    if marker :| marker in safety.ruleIds + safety.riskReasons
                 && (StartsWith(marker, "public.") || StartsWith(marker, "intent.")) {
      assert |marker| >= 7 && (marker[..7] == "public." || marker[..7] == "intent.");
    }
    if marker :| (marker in safety.ruleIds || marker in safety.riskReasons)
                 && |marker| >= 7 && (marker[..7] == "public." || marker[..7] == "intent.") {
      assert marker in safety.ruleIds + safety.riskReasons;
    }
  }

  /** Every row that comes from denying a public reply is recognised as a human-review note by
      the executor; any other private note only by its own risk reasons. */
  lemma ReviewRowsAreRecognised(lex: Lexicon, m: Message, conversation: ConversationState, catalog: Catalog,
                                mode: AutomationMode, now: int, reply: ModelResult, at: int)
    requires QueuedRow(mode, m, Decide(lex, m, conversation, catalog, mode, now, reply), catalog, at).Some?
    ensures var row := QueuedRow(mode, m, Decide(lex, m, conversation, catalog, mode, now, reply), catalog, at).value;
            var p := reply.proposal;
            && p.Some? && row.kind == (if WantsPublic(mode, p.value)
                 && ProposalRules(lex, p, mode, Triage(lex, m), catalog) == [] then PublicMessage else PrivateNote)
            && (WantsPublic(mode, p.value) && row.kind == PrivateNote ==> IsHumanReview(row.safety))
            && (!WantsPublic(mode, p.value) ==>
                  (IsHumanReview(row.safety) <==>
                   exists r :: r in p.value.riskReasons && (StartsWith(r, "public.") || StartsWith(r, "intent."))))
  {
    var d := Decide(lex, m, conversation, catalog, mode, now, reply);
    var row := QueuedRow(mode, m, d, catalog, at).value;
    DecisionShape(lex, m, conversation, catalog, mode, now, reply);
    var p := reply.proposal.value;
    if WantsPublic(mode, p) && row.kind == PrivateNote {
      PublicRulesArePublic(lex, p, mode, Triage(lex, m), catalog);
      assert d.rules[0] in d.rules;
      PublicRuleId(d.rules[0]);
      assert row.safety.ruleIds[0] == RuleId(d.rules[0]);
      assert row.safety.ruleIds[0] in row.safety.ruleIds + row.safety.riskReasons;
    } else if !WantsPublic(mode, p) {
      assert row.safety.ruleIds + row.safety.riskReasons == p.riskReasons;
    }
  }

  predicate PublicRule(rule: PolicyRule) {
    rule in {PublicNoInternalReasoning, PublicRiskRequiresReview, PublicProposalRiskRequiresReview,
             PublicPriceRequiresSnapshot}
  }

  lemma PublicRuleId(rule: PolicyRule)
    requires PublicRule(rule)
    ensures StartsWith(RuleId(rule), "public.")
  {
    assert RuleId(rule)[..7] == "public.";
  }

  lemma PublicRulesArePublic(lex: Lexicon, p: Proposal, mode: AutomationMode, signals: seq<string>, catalog: Catalog)
    requires WantsPublic(mode, p)
    ensures forall r :: r in ProposalRules(lex, Some(p), mode, signals, catalog) ==> PublicRule(r)
  {
  }

  /** A queued public row passes the static check of an executor in public-reply mode, on the
      catalog saved with it, unless its content is blank. */
  lemma QueuedPublicRowPassesStaticCheck(lex: Lexicon, m: Message, conversation: ConversationState, catalog: Catalog,
                                         mode: AutomationMode, now: int, reply: ModelResult, at: int)
    requires QueuedRow(mode, m, Decide(lex, m, conversation, catalog, mode, now, reply), catalog, at).Some?
    ensures var row := QueuedRow(mode, m, Decide(lex, m, conversation, catalog, mode, now, reply), catalog, at).value;
            row.kind == PublicMessage ==>
              StaticBlockedReason(lex, PublicReply, row.content, row.safety)
              == if Blank(lex, row.content) then Some(ContentEmpty) else None
  {
    DecisionShape(lex, m, conversation, catalog, mode, now, reply);
    var row := QueuedRow(mode, m, Decide(lex, m, conversation, catalog, mode, now, reply), catalog, at).value;
    if row.kind == PublicMessage {
      ValidatedTextPassesStaticCheck(lex, reply.proposal.value, Triage(lex, m), row.safety);
    }
  }

  // ---- Idempotency keys ----------------------------------------------------------------------

  predicate ColonFree(s: string) {
    ':' !in s
  }

  lemma FirstField(a: string, x: string, b: string, y: string)
    requires ColonFree(a) && ColonFree(b)
    requires a + ":" + x == b + ":" + y
    ensures a == b && x == y
  {
    var s := a + ":" + x;
    assert s[|a|] == ':' && s[|b|] == ':';
    assert forall i :: 0 <= i < |a| ==> s[i] == a[i] && a[i] in a;
    assert forall i :: 0 <= i < |b| ==> s[i] == b[i] && b[i] in b;
    assert a == s[..|a|] && b == s[..|b|];
    assert x == s[|a| + 1..] && y == s[|b| + 1..];
  }

  function Colons(s: string): nat {
    if s == "" then 0 else Colons(s[1..]) + if s[0] == ':' then 1 else 0
  }

  lemma {:induction false} ColonsConcat(a: string, b: string)
    ensures Colons(a + b) == Colons(a) + Colons(b)
  {
    if a == "" {
      assert a + b == b;
    } else {
      ColonsConcat(a[1..], b);
      assert (a + b)[1..] == a[1..] + b;
    }
  }

  lemma {:induction false} ColonFreeCounts(s: string)
    ensures ColonFree(s) <==> Colons(s) == 0
  {
    if s != "" {
      ColonFreeCounts(s[1..]);
      assert s == [s[0]] + s[1..];
    }
  }

  lemma FieldColons(a: string, x: string)
    ensures Colons(a + ":" + x) == Colons(a) + 1 + Colons(x)
  {
    ColonsConcat(a + ":", x);
    ColonsConcat(a, ":");
    assert Colons(":") == 1 by {
      assert ":"[1..] == "";
    }
  }

  lemma KindIsColonFree(k: ActionKind)
    ensures ColonFree(KindName(k))
  {
  }

  /** A key has four colons of its own and those of the ids. */
  lemma KeyColons(t: string, c: string, v: string, m: string, k: ActionKind)
    ensures Colons(IdempotencyKey(t, c, v, m, k)) == 4 + Colons(t) + Colons(c) + Colons(v) + Colons(m)
  {
    hide Colons, KindName;
    var r := m + ":" + KindName(k);
    var q := v + ":" + r;
    FieldColons(t, c + ":" + q);
    FieldColons(c, q);
    FieldColons(v, r);
    FieldColons(m, KindName(k));
    KindIsColonFree(k);
    ColonFreeCounts(KindName(k));
  }

  /** An action whose own ids are colon-free shares its key with no other action, whatever the
      other's ids are. */
  lemma KeysAreInjective(t1: string, c1: string, v1: string, m1: string, k1: ActionKind,
                         t2: string, c2: string, v2: string, m2: string, k2: ActionKind)
    requires ColonFree(t1) && ColonFree(c1) && ColonFree(v1) && ColonFree(m1)
    requires IdempotencyKey(t1, c1, v1, m1, k1) == IdempotencyKey(t2, c2, v2, m2, k2)
    ensures t1 == t2 && c1 == c2 && v1 == v2 && m1 == m2 && k1 == k2
  {
    KeyColons(t1, c1, v1, m1, k1);
    KeyColons(t2, c2, v2, m2, k2);
    ColonFreeCounts(t1);
    ColonFreeCounts(c1);
    ColonFreeCounts(v1);
    ColonFreeCounts(m1);
    ColonFreeCounts(t2);
    ColonFreeCounts(c2);
    ColonFreeCounts(v2);
    ColonFreeCounts(m2);
    SameParts(t1, c1, v1, m1, k1, t2, c2, v2, m2, k2);
  }

  lemma SameParts(t1: string, c1: string, v1: string, m1: string, k1: ActionKind,
                  t2: string, c2: string, v2: string, m2: string, k2: ActionKind)
    requires ColonFree(t1) && ColonFree(c1) && ColonFree(v1) && ColonFree(m1)
    requires ColonFree(t2) && ColonFree(c2) && ColonFree(v2) && ColonFree(m2)
    requires IdempotencyKey(t1, c1, v1, m1, k1) == IdempotencyKey(t2, c2, v2, m2, k2)
    ensures t1 == t2 && c1 == c2 && v1 == v2 && m1 == m2 && k1 == k2
  {
    var r1, r2 := m1 + ":" + KindName(k1), m2 + ":" + KindName(k2);
    var q1, q2 := v1 + ":" + r1, v2 + ":" + r2;
    var p1, p2 := c1 + ":" + q1, c2 + ":" + q2;
    FirstField(t1, p1, t2, p2);
    FirstField(c1, q1, c2, q2);
    FirstField(v1, r1, v2, r2);
    FirstField(m1, KindName(k1), m2, KindName(k2));
  }

  lemma SplitAtColon(s: string) returns (a: string, b: string)
    requires !ColonFree(s)
    ensures s == a + ":" + b
  {
    var i :| 0 <= i < |s| && s[i] == ':';
    a, b := s[..i], s[i + 1..];
  }

  lemma Regroup(a: string, b: string, x: string)
    ensures (a + ":" + b) + ":" + x == a + ":" + (b + ":" + x)
  {
  }

  /** A colon in an id can be read as the border between it and a neighbour: another action has
      the same key. */
  lemma KeyWithColonIsShared(t: string, c: string, v: string, m: string, k: ActionKind)
    requires !(ColonFree(t) && ColonFree(c) && ColonFree(v) && ColonFree(m))
    ensures exists t2, c2, v2, m2 :: (t2 != t || c2 != c || v2 != v || m2 != m)
                                     && IdempotencyKey(t2, c2, v2, m2, k) == IdempotencyKey(t, c, v, m, k)
  {
    hide KindName, ColonFree;
    var r := m + ":" + KindName(k);
    if !ColonFree(t) {
      var a, b := SplitAtColon(t);
      Regroup(a, b, c + ":" + (v + ":" + r));
      Regroup(c, v, r);
      assert IdempotencyKey(a, b, c + ":" + v, m, k) == IdempotencyKey(t, c, v, m, k);
    } else if !ColonFree(c) {
      var a, b := SplitAtColon(c);
      Regroup(a, b, v + ":" + r);
      Regroup(t, a, b + ":" + (v + ":" + r));
      assert IdempotencyKey(t + ":" + a, b, v, m, k) == IdempotencyKey(t, c, v, m, k);
    } else if !ColonFree(v) {
      var a, b := SplitAtColon(v);
      Regroup(a, b, r);
      Regroup(c, a, b + ":" + r);
      assert IdempotencyKey(t, c + ":" + a, b, m, k) == IdempotencyKey(t, c, v, m, k);
    } else {
      var a, b := SplitAtColon(m);
      Regroup(a, b, KindName(k));
      Regroup(v, a, b + ":" + KindName(k));
      assert IdempotencyKey(t, c, v + ":" + a, b, k) == IdempotencyKey(t, c, v, m, k);
    }
  }

  /** Exactly the actions with a colon in one of their own ids can share their key. */
  lemma KeyIsSharedIffColon(t: string, c: string, v: string, m: string, k: ActionKind)
    ensures (exists t2, c2, v2, m2, k2 :: (t2 != t || c2 != c || v2 != v || m2 != m || k2 != k)
                                          && IdempotencyKey(t2, c2, v2, m2, k2) == IdempotencyKey(t, c, v, m, k))
            <==> !(ColonFree(t) && ColonFree(c) && ColonFree(v) && ColonFree(m))
  {
    if ColonFree(t) && ColonFree(c) && ColonFree(v) && ColonFree(m) {
      forall t2, c2, v2, m2, k2 | IdempotencyKey(t2, c2, v2, m2, k2) == IdempotencyKey(t, c, v, m, k)
        ensures t2 == t && c2 == c && v2 == v && m2 == m && k2 == k
      {
        KeysAreInjective(t, c, v, m, k, t2, c2, v2, m2, k2);
      }
    } else {
      KeyWithColonIsShared(t, c, v, m, k);
    }
  }
}
