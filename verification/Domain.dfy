/** The values the pipeline works on: messages, conversation rows, proposals, decisions and
    outbox rows, with the enumerations and record fields of the domain models. */
module Domain {

  datatype Option<+T> = None | Some(value: T) {
    function GetOr(default: T): T {
      if Some? then value else default
    }
  }

  /** The truth value of an optional string: null and the empty string both count as false. */
  predicate Truthy(o: Option<string>) {
    o.Some? && o.value != ""
  }

  datatype AutomationMode = Observe | Assist | PublicReply

  datatype ActionKind = NoAction | PublicMessage | PrivateNote

  function KindName(kind: ActionKind): string {
    match kind
    case NoAction => "none"
    case PublicMessage => "public_message"
    case PrivateNote => "private_note"
  }

  datatype OutboundStatus =
    | Queued | Executing | Sent | RetryableFailure | PermanentFailure | BlockedByPolicy | Superseded

  datatype ConversationStatus = Open | Pending | Resolved

  datatype PolicyRule =
    | IngressCustomerPublicInboundRequired
    | ConversationNotReplyable
    | ConversationResolved
    | ConversationPaused
    | ConversationHumanActive
    | ConversationAssignedToHuman
    | ConversationSuperseded
    | ConversationStateMissing
    | ConversationIdMismatch
    | ChannelNotReplyable
    | ChannelResolved
    | ChannelPaused
    | ChannelAssignedToHuman
    | IntentHumanRequested
    | ModelNoProposal
    | ModelProposalFailed
    | PublicNoInternalReasoning
    | PublicRiskRequiresReview
    | PublicProposalRiskRequiresReview
    | PublicPriceRequiresSnapshot
    | ModePublicReplyNotEnabled
    | ContentEmpty
    | UnknownActionKind

  /** The stable text of a rule, as it is stored and as the executor matches it. */
  function RuleId(rule: PolicyRule): string {
    match rule
    case IngressCustomerPublicInboundRequired => "ingress.customer_public_inbound_required"
    case ConversationNotReplyable => "conversation.not_replyable"
    case ConversationResolved => "conversation.resolved"
    case ConversationPaused => "conversation.wootpilot_paused"
    case ConversationHumanActive => "conversation.human_active"
    case ConversationAssignedToHuman => "conversation.assigned_to_human"
    case ConversationSuperseded => "conversation.superseded_by_new_customer_message"
    case ConversationStateMissing => "conversation.safety_state_missing"
    case ConversationIdMismatch => "conversation.id_mismatch"
    case ChannelNotReplyable => "channel.not_replyable"
    case ChannelResolved => "channel.resolved"
    case ChannelPaused => "channel.wootpilot_paused"
    case ChannelAssignedToHuman => "channel.assigned_to_human"
    case IntentHumanRequested => "intent.human_requested"
    case ModelNoProposal => "model.no_proposal"
    case ModelProposalFailed => "model.proposal_failed"
    case PublicNoInternalReasoning => "public.no_internal_reasoning"
    case PublicRiskRequiresReview => "public.risk_requires_review"
    case PublicProposalRiskRequiresReview => "public.proposal_risk_requires_review"
    case PublicPriceRequiresSnapshot => "public.price_requires_mentionable_snapshot"
    case ModePublicReplyNotEnabled => "mode.public_reply_not_enabled"
    case ContentEmpty => "content.empty"
    case UnknownActionKind => "unknown_action_kind"
  }

  function RuleIds(rules: seq<PolicyRule>): (ids: seq<string>)
    ensures |ids| == |rules| && forall i :: 0 <= i < |rules| ==> ids[i] == RuleId(rules[i])
  {
    seq(|rules|, i requires 0 <= i < |rules| => RuleId(rules[i]))
  }

  datatype Direction = Inbound | Outbound
  datatype Visibility = Public | Private
  datatype Author = Customer | HumanAgent | Bot

  /** The conversation fields a webhook carries: the message metadata and the channel event
      reach the same update routine in this shape. Assignments are always present. */
  datatype ChannelMeta = ChannelMeta(
    paused: bool,
    labels: seq<string>,
    attributePaused: bool,
    status: Option<string>,
    canReply: Option<bool>,
    agent: Option<string>,
    team: Option<string>)

  datatype Message = Message(
    tenant: string,
    channel: string,
    conversation: string,
    id: string,
    direction: Direction,
    visibility: Visibility,
    author: Author,
    content: string,
    createdAt: int,
    meta: ChannelMeta)

  datatype MessageKey = MessageKey(tenant: string, channel: string, id: string)
  datatype ConversationKey = ConversationKey(tenant: string, channel: string, conversation: string)

  function KeyOf(m: Message): MessageKey {
    MessageKey(m.tenant, m.channel, m.id)
  }

  function ConversationOf(m: Message): ConversationKey {
    ConversationKey(m.tenant, m.channel, m.conversation)
  }

  /** A public inbound customer turn, whatever its text. */
  predicate IsCustomerTurn(m: Message) {
    m.direction == Inbound && m.visibility == Public && m.author == Customer
  }

  predicate IsHumanPublicReply(m: Message) {
    m.direction == Outbound && m.visibility == Public && m.author == HumanAgent
  }

  /** A stored conversation row; its status is the raw text of the column. */
  datatype ConversationRow = ConversationRow(
    humanActiveUntil: Option<int>,
    lastHumanAt: Option<int>,
    lastCustomerAt: Option<int>,
    agent: Option<string>,
    team: Option<string>,
    status: Option<string>,
    replyable: bool,
    paused: bool)

  const FRESH_CONVERSATION := ConversationRow(None, None, None, None, None, None, true, false)

  /** The typed read model of a conversation row. */
  datatype ConversationState = ConversationState(
    humanActiveUntil: Option<int>,
    agent: Option<string>,
    team: Option<string>,
    status: Option<ConversationStatus>,
    replyable: bool,
    paused: bool)

  const RESOLVED := "resolved"

  /** The texts that can be read back: null, empty, or one of the three status names. */
  predicate KnownStatus(raw: Option<string>) {
    !Truthy(raw) || raw.value in {"open", "pending", RESOLVED}
  }

  /** Reading a row back raises when its status text is not a known one. */
  function RowToState(row: ConversationRow): (r: Option<ConversationState>)
    ensures r.Some? <==> KnownStatus(row.status)
    ensures r.Some? ==> (r.value.status == Some(Resolved) <==> row.status == Some(RESOLVED))
  {
    if !KnownStatus(row.status) then None
    else
      var status :=
        if !Truthy(row.status) then None
        else if row.status.value == "open" then Some(Open)
        else if row.status.value == "pending" then Some(Pending)
        else Some(Resolved);
      Some(ConversationState(row.humanActiveUntil, row.agent, row.team, status, row.replyable, row.paused))
  }

  /** The status text decides whether a row can be read, and as what; everything else is read
      back as stored. */
  lemma ReadBack(row: ConversationRow)
    ensures RowToState(row).Some? <==> row.status in {None, Some(""), Some("open"), Some("pending"), Some("resolved")}
    ensures RowToState(row).Some? ==>
              var state := RowToState(row).value;
              && (state.status == None <==> row.status in {None, Some("")})
              && (state.status == Some(Open) <==> row.status == Some("open"))
              && (state.status == Some(Pending) <==> row.status == Some("pending"))
              && (state.status == Some(Resolved) <==> row.status == Some("resolved"))
              && state.humanActiveUntil == row.humanActiveUntil && state.agent == row.agent && state.team == row.team
              && state.replyable == row.replyable && state.paused == row.paused
  {
  }

  /** The channel state read back from Chatwoot just before a public send. */
  datatype ChannelSafety = ChannelSafety(
    conversation: string,
    replyable: Option<bool>,
    paused: bool,
    agent: Option<string>,
    team: Option<string>,
    status: Option<ConversationStatus>)

  datatype Price = Price(
    displayText: Option<string>, canMention: bool, quoteRequired: bool, hidden: bool, stale: bool)
  datatype Product = Product(price: Price, available: Option<bool>)
  datatype Catalog = Catalog(products: seq<Product>)

  datatype Proposal = Proposal(
    kind: ActionKind,
    summary: string,
    publicMessage: Option<string>,
    privateNote: Option<string>,
    riskReasons: seq<string>)

  /** What one model call returned. */
  datatype ModelResult = ModelResult(
    proposal: Option<Proposal>, retryableError: Option<string>, permanentError: Option<string>)

  datatype RunStatus = Ignored | Proposed | RunBlockedByPolicy | QueuedAction | Failed

  datatype Decision = Decision(
    status: RunStatus,
    kind: ActionKind,
    content: Option<string>,
    summary: string,
    rules: seq<PolicyRule>,
    riskReasons: seq<string>)

  /** What the queue keeps from decision time for the executor's re-checks. */
  datatype SafetyContext = SafetyContext(catalog: Catalog, ruleIds: seq<string>, riskReasons: seq<string>)

  /** An outbox row. Rows are never deleted; a row's identity is its place in the outbox. */
  datatype Row = Row(
    tenant: string,
    channel: string,
    conversation: string,
    source: string,
    kind: ActionKind,
    content: string,
    safety: SafetyContext,
    key: string,
    createdAt: int,
    status: OutboundStatus,
    attempts: nat,
    nextAttemptAt: Option<int>,
    providerMessageId: Option<string>,
    failureReason: Option<string>,
    errorCode: Option<string>)

  function SourceKey(row: Row): MessageKey {
    MessageKey(row.tenant, row.channel, row.source)
  }

  function RowConversation(row: Row): ConversationKey {
    ConversationKey(row.tenant, row.channel, row.conversation)
  }
}
