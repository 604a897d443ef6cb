/** The deterministic gates: the pre-model and post-model policies of the workflow, and the
    re-checks the executor makes before a public send. */
module Policy {
  import opened Domain
  import opened Text
  import opened Pricing

  predicate Eligible(lex: Lexicon, m: Message) {
    IsCustomerTurn(m) && !Blank(lex, m.content)
  }

  function Triage(lex: Lexicon, m: Message): seq<string> {
    lex.triage(Searchable(lex, m.content))
  }

  predicate HumanRequested(signals: seq<string>) {
    "intent.human" in signals || "intent.agent" in signals
  }

  predicate LeaksReasoning(lex: Lexicon, text: string) {
    lex.leaks(Searchable(lex, text))
  }

  predicate Assigned(agent: Option<string>, team: Option<string>) {
    Truthy(agent) || Truthy(team)
  }

  predicate HumanActive(state: ConversationState, now: int) {
    state.humanActiveUntil.Some? && state.humanActiveUntil.value > now
  }

  // ---- Workflow gates ----------------------------------------------------------------------

  function When(condition: bool, rule: PolicyRule): seq<PolicyRule> {
    if condition then [rule] else []
  }

  /** Every rule that stops a turn before the model is called, in the order they are listed. */
  function PreModelRules(lex: Lexicon, m: Message, state: ConversationState, signals: seq<string>,
                         mode: AutomationMode, now: int): seq<PolicyRule> {
    When(!Eligible(lex, m), IngressCustomerPublicInboundRequired)
    + When(!state.replyable, ConversationNotReplyable)
    + When(state.status == Some(Resolved), ConversationResolved)
    + When(state.paused, ConversationPaused)
    + When(mode == PublicReply && HumanActive(state, now), ConversationHumanActive)
    + When(mode == PublicReply && Assigned(state.agent, state.team), ConversationAssignedToHuman)
    + When(HumanRequested(signals), IntentHumanRequested)
  }

  /** The text a public proposal would send. */
  function PublicText(proposal: Proposal): string {
    if proposal.publicMessage.Some? then proposal.publicMessage.value else ""
  }

  predicate WantsPublic(mode: AutomationMode, proposal: Proposal) {
    mode == PublicReply && proposal.kind == PublicMessage
  }

  function OptionRule(rule: Option<PolicyRule>): seq<PolicyRule> {
    match rule
    case Some(r) => [r]
    case None => []
  }

  /** Every rule that keeps a proposal from becoming the action it asks for. */
  function ProposalRules(lex: Lexicon, proposal: Option<Proposal>, mode: AutomationMode,
                         signals: seq<string>, catalog: Catalog): seq<PolicyRule> {
    match proposal
    case None => [ModelNoProposal]
    case Some(p) =>
      if !WantsPublic(mode, p) then []
      else
        When(LeaksReasoning(lex, PublicText(p)), PublicNoInternalReasoning)
        + When(signals != [], PublicRiskRequiresReview)
        + When(p.riskReasons != [], PublicProposalRiskRequiresReview)
        + OptionRule(PublicPriceRule(lex, PublicText(p), catalog))
  }

  // ---- What the collected lists are ------------------------------------------------------------

  /** Somebody's id: present and not empty. */
  predicate Named(id: Option<string>) {
    id != None && id != Some("")
  }

  /** What each pre-model rule objects to, whatever the other rules say. */
  predicate StopsTurn(rule: PolicyRule, lex: Lexicon, m: Message, state: ConversationState, signals: seq<string>,
                      mode: AutomationMode, now: int) {
    match rule
    case IngressCustomerPublicInboundRequired =>
      !(m.direction == Inbound && m.visibility == Public && m.author == Customer
        && exists i :: 0 <= i < |m.content| && !lex.space(m.content[i]))
    case ConversationNotReplyable => !state.replyable
    case ConversationResolved => state.status == Some(Resolved)
    case ConversationPaused => state.paused
    case ConversationHumanActive =>
      mode == PublicReply && state.humanActiveUntil.Some? && now < state.humanActiveUntil.value
    case ConversationAssignedToHuman => mode == PublicReply && (Named(state.agent) || Named(state.team))
    case IntentHumanRequested => "intent.human" in signals || "intent.agent" in signals
    case _ => false
  }

  /** What each post-model rule objects to. */
  predicate StopsProposal(rule: PolicyRule, lex: Lexicon, proposal: Option<Proposal>, mode: AutomationMode,
                          signals: seq<string>, catalog: Catalog) {
    if proposal.None? then rule == ModelNoProposal
    else
      var p := proposal.value;
      && mode == PublicReply && p.kind == PublicMessage
      && match rule
         case PublicNoInternalReasoning => lex.leaks(Searchable(lex, p.publicMessage.GetOr("")))
         case PublicRiskRequiresReview => signals != []
         case PublicProposalRiskRequiresReview => p.riskReasons != []
         case PublicPriceRequiresSnapshot =>
           && MentionsExactPrice(lex, p.publicMessage.GetOr(""))
           && forall product :: product in catalog.products ==> !QuotesProduct(lex, p.publicMessage.GetOr(""), product)
         case _ => false
  }

  /** The place of a rule among those of its gate. */
  function Place(rule: PolicyRule): nat {
    match rule
    case IngressCustomerPublicInboundRequired => 0
    case ConversationNotReplyable => 1
    case ConversationResolved => 2
    case ConversationPaused => 3
    case ConversationHumanActive => 4
    case ConversationAssignedToHuman => 5
    case IntentHumanRequested => 6
    case ModePublicReplyNotEnabled => 7
    case ContentEmpty => 8
    case PublicNoInternalReasoning => 9
    case PublicRiskRequiresReview => 10
    case PublicProposalRiskRequiresReview => 11
    case PublicPriceRequiresSnapshot => 12
    case ConversationIdMismatch => 13
    case ChannelNotReplyable => 14
    case ChannelResolved => 15
    case ChannelPaused => 16
    case ChannelAssignedToHuman => 17
    case _ => 18
  }

  /** Listed in the fixed order, none twice. */
  predicate InOrder(rules: seq<PolicyRule>) {
    forall i, j :: 0 <= i < j < |rules| ==> Place(rules[i]) < Place(rules[j])
  }

  /** The rules of `members`, in the fixed order and none twice, all placed before `bound`. */
  ghost predicate Lists(rules: seq<PolicyRule>, members: set<PolicyRule>, bound: nat) {
    && InOrder(rules)
    && (forall rule :: rule in rules <==> rule in members)
    && (forall rule :: rule in rules ==> Place(rule) < bound)
  }

  function Add(members: set<PolicyRule>, condition: bool, rule: PolicyRule): set<PolicyRule> {
    if condition then members + {rule} else members
  }

  lemma Added(members: set<PolicyRule>, condition: bool, rule: PolicyRule, r: PolicyRule)
    ensures r in Add(members, condition, rule) <==> r in members || (condition && r == rule)
  {
  }

  lemma ListsNext(rules: seq<PolicyRule>, members: set<PolicyRule>, bound: nat, condition: bool, rule: PolicyRule)
    requires Lists(rules, members, bound) && bound <= Place(rule)
    ensures Lists(rules + When(condition, rule), Add(members, condition, rule), Place(rule) + 1)
  {
  }

  /** A list in the fixed order is determined by its members. */
  lemma {:induction false} OrderedListsAgree(a: seq<PolicyRule>, b: seq<PolicyRule>)
    requires InOrder(a) && InOrder(b)
    requires forall rule :: rule in a <==> rule in b
    ensures a == b
  {
    if a == [] {
      assert forall k :: 0 <= k < |b| ==> b[k] in b;
    } else {
      assert a[0] in a;
      var j :| 0 <= j < |b| && b[j] == a[0];
      assert b[0] in b;
      var i :| 0 <= i < |a| && a[i] == b[0];
      assert i == 0 && j == 0;
      assert a == [a[0]] + a[1..] && b == [b[0]] + b[1..];
      forall rule ensures rule in a[1..] <==> rule in b[1..] {
        assert rule in a[1..] <==> rule in a && rule != a[0];
        assert rule in b[1..] <==> rule in b && rule != b[0];
      }
      OrderedListsAgree(a[1..], b[1..]);
    }
  }

  /** The pre-model rules that object, one by one. */
  function Objections(lex: Lexicon, m: Message, state: ConversationState, signals: seq<string>,
                      mode: AutomationMode, now: int): set<PolicyRule> {
    Add(Add(Add(Add(Add(Add(Add({},
      !Eligible(lex, m), IngressCustomerPublicInboundRequired),
      !state.replyable, ConversationNotReplyable),
      state.status == Some(Resolved), ConversationResolved),
      state.paused, ConversationPaused),
      mode == PublicReply && HumanActive(state, now), ConversationHumanActive),
      mode == PublicReply && Assigned(state.agent, state.team), ConversationAssignedToHuman),
      HumanRequested(signals), IntentHumanRequested)
  }

  lemma ObjectionsObject(lex: Lexicon, m: Message, state: ConversationState, signals: seq<string>,
                         mode: AutomationMode, now: int, rule: PolicyRule)
    ensures rule in Objections(lex, m, state, signals, mode, now) <==> StopsTurn(rule, lex, m, state, signals, mode, now)
  {
  }

  lemma PreModelRulesList(lex: Lexicon, m: Message, state: ConversationState, signals: seq<string>,
                          mode: AutomationMode, now: int)
    ensures Lists(PreModelRules(lex, m, state, signals, mode, now), Objections(lex, m, state, signals, mode, now), 7)
  {
    hide When, Lists, Add, Eligible, InOrder, HumanRequested, HumanActive, Assigned;
    var human := mode == PublicReply && HumanActive(state, now);
    var owned := mode == PublicReply && Assigned(state.agent, state.team);
    var r1, m1 := NoneYet(!Eligible(lex, m), IngressCustomerPublicInboundRequired);
    ListsNext(r1, m1, 1, !state.replyable, ConversationNotReplyable);
    var r2, m2 := r1 + When(!state.replyable, ConversationNotReplyable), Add(m1, !state.replyable, ConversationNotReplyable);
    ListsNext(r2, m2, 2, state.status == Some(Resolved), ConversationResolved);
    var r3 := r2 + When(state.status == Some(Resolved), ConversationResolved);
    var m3 := Add(m2, state.status == Some(Resolved), ConversationResolved);
    ListsNext(r3, m3, 3, state.paused, ConversationPaused);
    var r4, m4 := r3 + When(state.paused, ConversationPaused), Add(m3, state.paused, ConversationPaused);
    ListsNext(r4, m4, 4, human, ConversationHumanActive);
    var r5, m5 := r4 + When(human, ConversationHumanActive), Add(m4, human, ConversationHumanActive);
    ListsNext(r5, m5, 5, owned, ConversationAssignedToHuman);
    var r6, m6 := r5 + When(owned, ConversationAssignedToHuman), Add(m5, owned, ConversationAssignedToHuman);
    ListsNext(r6, m6, 6, HumanRequested(signals), IntentHumanRequested);
  }

  lemma PreModelRulesListed(lex: Lexicon, m: Message, state: ConversationState, signals: seq<string>,
                            mode: AutomationMode, now: int)
    ensures var rules := PreModelRules(lex, m, state, signals, mode, now);
            InOrder(rules) && forall rule :: rule in rules <==> StopsTurn(rule, lex, m, state, signals, mode, now)
  {
    hide PreModelRules, Objections, StopsTurn;
    PreModelRulesList(lex, m, state, signals, mode, now);
    forall rule
      ensures rule in Objections(lex, m, state, signals, mode, now) <==> StopsTurn(rule, lex, m, state, signals, mode, now)
    {
      ObjectionsObject(lex, m, state, signals, mode, now, rule);
    }
  }

  lemma NoneYet(condition: bool, rule: PolicyRule) returns (rules: seq<PolicyRule>, members: set<PolicyRule>)
    ensures rules == When(condition, rule) && members == Add({}, condition, rule)
    ensures Lists(rules, members, Place(rule) + 1)
  {
    rules, members := When(condition, rule), Add({}, condition, rule);
  }

  lemma ListsMembers(rules: seq<PolicyRule>, members: set<PolicyRule>, bound: nat)
    requires Lists(rules, members, bound)
    ensures InOrder(rules) && forall rule :: rule in rules <==> rule in members
  {
  }

  lemma ProposalRulesListed(lex: Lexicon, proposal: Option<Proposal>, mode: AutomationMode,
                            signals: seq<string>, catalog: Catalog)
    ensures var rules := ProposalRules(lex, proposal, mode, signals, catalog);
            InOrder(rules) && forall rule :: rule in rules <==> StopsProposal(rule, lex, proposal, mode, signals, catalog)
  {
    hide When, Lists, Add, MentionsExactPrice, QuotesProduct;
    if proposal.Some? && WantsPublic(mode, proposal.value) {
      var p, text := proposal.value, PublicText(proposal.value);
      var priced := PublicPriceRule(lex, text, catalog).Some?;
      var r1, m1 := NoneYet(LeaksReasoning(lex, text), PublicNoInternalReasoning);
      ListsNext(r1, m1, 10, signals != [], PublicRiskRequiresReview);
      var r2, m2 := r1 + When(signals != [], PublicRiskRequiresReview), Add(m1, signals != [], PublicRiskRequiresReview);
      ListsNext(r2, m2, 11, p.riskReasons != [], PublicProposalRiskRequiresReview);
      var r3 := r2 + When(p.riskReasons != [], PublicProposalRiskRequiresReview);
      var m3 := Add(m2, p.riskReasons != [], PublicProposalRiskRequiresReview);
      ListsNext(r3, m3, 12, priced, PublicPriceRequiresSnapshot);
      PriceRuleListed(lex, text, catalog);
      var m4 := Add(m3, priced, PublicPriceRequiresSnapshot);
      ListsMembers(r3 + When(priced, PublicPriceRequiresSnapshot), m4, 13);
      forall rule ensures rule in m4 <==> StopsProposal(rule, lex, proposal, mode, signals, catalog) {
        Added(m3, priced, PublicPriceRequiresSnapshot, rule);
        Added(m2, p.riskReasons != [], PublicProposalRiskRequiresReview, rule);
        Added(m1, signals != [], PublicRiskRequiresReview, rule);
        Added({}, LeaksReasoning(lex, text), PublicNoInternalReasoning, rule);
      }
    }
  }

  lemma PriceRuleListed(lex: Lexicon, text: string, catalog: Catalog)
    ensures OptionRule(PublicPriceRule(lex, text, catalog))
            == When(PublicPriceRule(lex, text, catalog).Some?, PublicPriceRequiresSnapshot)
  {
  }

  /** The list the workflow graph works with is the one list of the rules that object, in the
      fixed order and none twice. */
  lemma PreModelRulesAreCollected(lex: Lexicon, m: Message, state: ConversationState, signals: seq<string>,
                                  mode: AutomationMode, now: int, rules: seq<PolicyRule>)
    ensures rules == PreModelRules(lex, m, state, signals, mode, now)
            <==> InOrder(rules) && forall rule :: rule in rules <==> StopsTurn(rule, lex, m, state, signals, mode, now)
  {
    hide PreModelRules, StopsTurn, InOrder;
    PreModelRulesListed(lex, m, state, signals, mode, now);
    if InOrder(rules) && forall rule :: rule in rules <==> StopsTurn(rule, lex, m, state, signals, mode, now) {
      OrderedListsAgree(rules, PreModelRules(lex, m, state, signals, mode, now));
    }
  }

  lemma ProposalRulesAreCollected(lex: Lexicon, proposal: Option<Proposal>, mode: AutomationMode,
                                  signals: seq<string>, catalog: Catalog, rules: seq<PolicyRule>)
    ensures rules == ProposalRules(lex, proposal, mode, signals, catalog)
            <==> InOrder(rules) && forall rule :: rule in rules <==> StopsProposal(rule, lex, proposal, mode, signals, catalog)
  {
    hide ProposalRules, StopsProposal, InOrder;
    ProposalRulesListed(lex, proposal, mode, signals, catalog);
    if InOrder(rules) && forall rule :: rule in rules <==> StopsProposal(rule, lex, proposal, mode, signals, catalog) {
      OrderedListsAgree(rules, ProposalRules(lex, proposal, mode, signals, catalog));
    }
  }

  /** `pre_model_policy` collects exactly the rules that object, in the fixed order and none
      twice, and allows the turn exactly when none does. */
  method PreModelPolicy(lex: Lexicon, m: Message, state: ConversationState, signals: seq<string>,
                        mode: AutomationMode, now: int)
    returns (allowed: bool, rules: seq<PolicyRule>)
    ensures InOrder(rules) && forall rule :: rule in rules <==> StopsTurn(rule, lex, m, state, signals, mode, now)
    ensures allowed <==> rules == []
  {
    hide StopsTurn, InOrder, Eligible, HumanActive, Assigned, HumanRequested;
    rules := [];
    if !Eligible(lex, m) { rules := rules + [IngressCustomerPublicInboundRequired]; }
    ghost var r1 := When(!Eligible(lex, m), IngressCustomerPublicInboundRequired);
    assert rules == r1;
    if !state.replyable { rules := rules + [ConversationNotReplyable]; }
    ghost var r2 := r1 + When(!state.replyable, ConversationNotReplyable);
    assert rules == r2;
    if state.status == Some(Resolved) { rules := rules + [ConversationResolved]; }
    ghost var r3 := r2 + When(state.status == Some(Resolved), ConversationResolved);
    assert rules == r3;
    if state.paused { rules := rules + [ConversationPaused]; }
    ghost var r4 := r3 + When(state.paused, ConversationPaused);
    assert rules == r4;
    if mode == PublicReply && HumanActive(state, now) { rules := rules + [ConversationHumanActive]; }
    ghost var r5 := r4 + When(mode == PublicReply && HumanActive(state, now), ConversationHumanActive);
    assert rules == r5;
    if mode == PublicReply && Assigned(state.agent, state.team) { rules := rules + [ConversationAssignedToHuman]; }
    ghost var r6 := r5 + When(mode == PublicReply && Assigned(state.agent, state.team), ConversationAssignedToHuman);
    assert rules == r6;
    if HumanRequested(signals) { rules := rules + [IntentHumanRequested]; }
    ghost var r7 := r6 + When(HumanRequested(signals), IntentHumanRequested);
    assert rules == r7;
    PreModelRulesListed(lex, m, state, signals, mode, now);
    allowed := rules == [];
  }

  /** `validate_proposal`, likewise. */
  method ValidateProposal(lex: Lexicon, proposal: Option<Proposal>, mode: AutomationMode,
                          signals: seq<string>, catalog: Catalog)
    returns (allowed: bool, rules: seq<PolicyRule>)
    ensures InOrder(rules) && forall rule :: rule in rules <==> StopsProposal(rule, lex, proposal, mode, signals, catalog)
    ensures allowed <==> rules == []
  {
    hide StopsProposal, InOrder, LeaksReasoning, PublicPriceRule;
    rules := [];
    if proposal.None? {
      rules := rules + [ModelNoProposal];
    } else if WantsPublic(mode, proposal.value) {
      var text := PublicText(proposal.value);
      if LeaksReasoning(lex, text) { rules := rules + [PublicNoInternalReasoning]; }
      if signals != [] { rules := rules + [PublicRiskRequiresReview]; }
      if proposal.value.riskReasons != [] { rules := rules + [PublicProposalRiskRequiresReview]; }
      var price := PublicPriceRule(lex, text, catalog);
      if price.Some? { rules := rules + [price.value]; }
    }
    assert rules == ProposalRules(lex, proposal, mode, signals, catalog);
    ProposalRulesListed(lex, proposal, mode, signals, catalog);
    allowed := rules == [];
  }

  /** Quoted prices are compared by what lower-casing makes of them. */
  lemma PricesSeeLowerCase(lex: Lexicon, a: string, b: string)
    requires MapChars(lex.lower, a) == MapChars(lex.lower, b)
    ensures NormalizePrice(lex, a) == NormalizePrice(lex, b)
  {
  }

  /** The gates on customer and reply texts see only what the fold makes of them. */
  lemma GatesSeeFoldedText(lex: Lexicon, a: string, b: string)
    requires MapChars(lex.fold, a) == MapChars(lex.fold, b)
    ensures MentionsExactPrice(lex, a) == MentionsExactPrice(lex, b)
    ensures LeaksReasoning(lex, a) == LeaksReasoning(lex, b)
    ensures forall m: Message :: Triage(lex, m.(content := a)) == Triage(lex, m.(content := b))
  {
  }

  // ---- Executor gates ----------------------------------------------------------------------

  function StaticBlockedReason(lex: Lexicon, mode: AutomationMode, content: string, safety: SafetyContext): Option<PolicyRule> {
    if mode != PublicReply then Some(ModePublicReplyNotEnabled)
    else if Blank(lex, content) then Some(ContentEmpty)
    else if LeaksReasoning(lex, content) then Some(PublicNoInternalReasoning)
    else PublicPriceRule(lex, content, safety.catalog)
  }

  function StoredBlockedReason(state: Option<ConversationState>, now: int): Option<PolicyRule> {
    match state
    case None => Some(ConversationStateMissing)
    case Some(s) =>
      if !s.replyable then Some(ConversationNotReplyable)
      else if s.status == Some(Resolved) then Some(ConversationResolved)
      else if s.paused then Some(ConversationPaused)
      else if HumanActive(s, now) then Some(ConversationHumanActive)
      else if Assigned(s.agent, s.team) then Some(ConversationAssignedToHuman)
      else None
  }

  function ChannelBlockedReason(conversation: string, reply: ChannelSafety): Option<PolicyRule> {
    if reply.conversation != conversation then Some(ConversationIdMismatch)
    else if reply.replyable == Some(false) then Some(ChannelNotReplyable)
    else if reply.status == Some(Resolved) then Some(ChannelResolved)
    else if reply.paused then Some(ChannelPaused)
    else if Assigned(reply.agent, reply.team) then Some(ChannelAssignedToHuman)
    else None
  }

  /** `_is_human_review_private_note`. */
  predicate IsHumanReview(safety: SafetyContext) {
    exists marker :: marker in safety.ruleIds + safety.riskReasons
                     && (StartsWith(marker, "public.") || StartsWith(marker, "intent."))
  }

  // ---- What the executor's gates object to ----------------------------------------------------------

  /** The reason is the first of the rules that object, and there is none exactly if none does. */
  ghost predicate FirstOf(reason: Option<PolicyRule>, objects: PolicyRule -> bool) {
    match reason
    case None => forall rule :: !objects(rule)
    case Some(first) => objects(first) && forall rule :: objects(rule) ==> Place(first) <= Place(rule)
  }

  predicate StopsText(rule: PolicyRule, lex: Lexicon, mode: AutomationMode, content: string, catalog: Catalog) {
    match rule
    case ModePublicReplyNotEnabled => mode != PublicReply
    case ContentEmpty => forall i :: 0 <= i < |content| ==> lex.space(content[i])
    case PublicNoInternalReasoning => lex.leaks(Searchable(lex, content))
    case PublicPriceRequiresSnapshot =>
      MentionsExactPrice(lex, content) && forall product :: product in catalog.products ==> !QuotesProduct(lex, content, product)
    case _ => false
  }

  lemma StaticGate(lex: Lexicon, mode: AutomationMode, content: string, safety: SafetyContext)
    ensures FirstOf(StaticBlockedReason(lex, mode, content, safety), rule => StopsText(rule, lex, mode, content, safety.catalog))
  {
    hide MentionsExactPrice, QuotesProduct;
  }

  predicate StopsState(rule: PolicyRule, state: Option<ConversationState>, now: int) {
    if state.None? then rule == ConversationStateMissing
    else
      match rule
      case ConversationNotReplyable => !state.value.replyable
      case ConversationResolved => state.value.status == Some(Resolved)
      case ConversationPaused => state.value.paused
      case ConversationHumanActive => state.value.humanActiveUntil.Some? && now < state.value.humanActiveUntil.value
      case ConversationAssignedToHuman => Named(state.value.agent) || Named(state.value.team)
      case _ => false
  }

  lemma StoredGate(state: Option<ConversationState>, now: int)
    ensures FirstOf(StoredBlockedReason(state, now), rule => StopsState(rule, state, now))
  {
  }

  predicate StopsChannel(rule: PolicyRule, conversation: string, reply: ChannelSafety) {
    match rule
    case ConversationIdMismatch => reply.conversation != conversation
    case ChannelNotReplyable => reply.replyable == Some(false)
    case ChannelResolved => reply.status == Some(Resolved)
    case ChannelPaused => reply.paused
    case ChannelAssignedToHuman => Named(reply.agent) || Named(reply.team)
    case _ => false
  }

  lemma ChannelGate(conversation: string, reply: ChannelSafety)
    ensures FirstOf(ChannelBlockedReason(conversation, reply), rule => StopsChannel(rule, conversation, reply))
  {
  }

  // ---- The two gates agree -----------------------------------------------------------------

  function Head(rules: seq<PolicyRule>): Option<PolicyRule> {
    if rules == [] then None else Some(rules[0])
  }

  /** In public-reply mode, for an eligible turn in which no human was asked for, the
      executor's first stored-state reason is the first rule of the pre-model list, and there is
      none exactly when that list is empty. */
  lemma StoredGateIsHeadOfPreModelGate(lex: Lexicon, m: Message, state: ConversationState, signals: seq<string>, now: int)
    requires Eligible(lex, m) && !HumanRequested(signals)
    ensures StoredBlockedReason(Some(state), now)
            == Head(PreModelRules(lex, m, state, signals, PublicReply, now))
  {
  }

  /** A public text the post-model policy lets through passes the executor's static check on the
      catalog saved with it, unless it is blank. */
  lemma ValidatedTextPassesStaticCheck(lex: Lexicon, p: Proposal, signals: seq<string>, safety: SafetyContext)
    requires WantsPublic(PublicReply, p)
    requires ProposalRules(lex, Some(p), PublicReply, signals, safety.catalog) == []
    ensures StaticBlockedReason(lex, PublicReply, PublicText(p), safety)
            == if Blank(lex, PublicText(p)) then Some(ContentEmpty) else None
  {
  }
}
