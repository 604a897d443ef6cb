# WootPilot messaging pipeline: model and proofs

WootPilot receives Chatwoot webhooks, runs a support workflow for each new customer message and
sends the resulting private notes and public replies from an outbox. This project models that
pipeline over its shared tables and proves what holds over every run of it.

## How it is modelled

- `Protocol.dfy` is one transition system. Webhook handlers and any number of outbound workers share
  the tables; every committed transaction, every safety read and every Chatwoot call is one atomic
  step with a time stamp, time never runs backwards, and a crash may fall between any two steps. A
  claim is one step (row locks with SKIP LOCKED on Postgres, a single executor on SQLite). A run is
  a first state and the steps taken from it; whatever the system does not decide (deliveries, model
  replies, Chatwoot replies, modes, crashes) is part of the step, so a statement about all runs is a
  statement about all interleavings.
- `Store.dfy`, `Executor.dfy`, `Conversation.dfy` and `Webhooks.dfy` hold the code that changes
  things in place: the repository's statements, `run_once`, the conversation row and `handle`. Each
  method is proved against the functions the protocol steps use. The executor and the webhook
  handler record their work as a protocol run whose last state is that of the tables. The Chatwoot
  client keeps a log of what was asked of it and what it answered (`Chatwoot.dfy`), and the log of
  an executor is exactly the calls its steps in that run stand for, so the theorems about runs apply
  to the rows it writes and to the calls it makes.
- `Policy.dfy`, `Workflow.dfy`, `Pricing.dfy`, `MessageOrder.dfy` and `Outbox.dfy` are the pure
  rules: gates, graph and decisions, price printer and recogniser, supersession, due rows.
- `Invariants.dfy`, `Delivery.dfy`, `TraceSafety.dfy`, `Progress.dfy` and `Ingress.dfy` hold the
  theorems; `Witnesses.dfy` builds runs in which what they speak of does happen.

What Unicode does to single characters, the keyword tables (triage and internal-reasoning terms), the
white-space and word classes and what `int` reads as a number are parameters (`Text.Lexicon`). Clocks, Chatwoot, the model and the
catalog are inputs.

Behaviour kept as the code has it, where one might expect otherwise:

- A failed or escaping safety read, an escaping send and an escaping follow-up update (the label
  update reads the conversation back where no exception is caught) end `run_once` with the row `executing`.
  Such a row can leave that status exactly while a worker holds it
  (`Invariants.LeavesExecutingIffHeld`), and there are reachable rows whose message was delivered
  and that never leave it (`Witnesses.DeliveredRowCanBeAbandoned`).
- On the message path a true `can_reply` overrides a resolved status; `Conversation.ResolvedStaysClosed`
  says exactly when, and `Witnesses.ResolvedCanBeReplyable` reaches such a row.
- With mixed or non-canonical ids none or several of the customer messages of one instant can stand
  against the supersession check (`MessageOrder.MixedIdsSupersedeEachOther`,
  `MessageOrder.EqualNumbersAllStand`); `MessageOrder.StandsIffLast`, `MessageOrder.OneStandsIff` and
  `MessageOrder.NoneOrSeveralStandIff` say exactly which, for all ids and whatever is read
  as a number.
- A printed price is treated as a price claim exactly when it shows two minor digits or its currency
  alone is a claim already (`Pricing.PrintedAmountIsAClaimIff`); a price in a currency of three minor
  digits passes unchecked (`Pricing.DinarPriceIsNoClaim`).
- The idempotency key of an action can be shared by another one exactly when one of its own ids
  contains a colon (`Workflow.KeyIsSharedIffColon`).

## Model

| member | source | states |
|---|---|---|
| Delivery.AtMostOncePerMessage | src/wootpilot/application/webhooks.py:90-132 | over every interleaving of deliveries, handler crashes and workers, each message identity has its workflow started at most once, recorded at most once, and gets at most one outbox row and at most one `create_message` call that returned an id, each only after the one before |
| Delivery.AttemptBound | src/wootpilot/application/outbound.py:66-105 | over all runs and crashes an action gets at most max(1, outbound_max_attempts) calls, at most one of them delivered, exactly one if the row is sent |
| Delivery.CountsHold | src/wootpilot/application/outbound.py:143-193 | the calls made for a row against its recorded attempts, its status and its holder's stage, in every reachable state |
| Delivery.CallsAreSpaced | src/wootpilot/persistence/repositories.py:656-668 | the k-th call starts no earlier than creation, plus the reply delay if public, plus k-1 retry delays |
| Delivery.SettledForGood | src/wootpilot/application/outbound.py:93-104 | a call that returned an id or was refused for good is the last for its row: in every continuation no other is made and the row is not claimed again |
| Delivery.MessageDeliveriesAreRowDeliveries | src/wootpilot/persistence/models.py:146-150 | the deliveries for a message are those of the one row that answers it |
| Delivery.WorkflowRunsAreRecorded | src/wootpilot/application/workflow.py:225-235 | workflow runs for a message are exactly the recorded agent runs, never two |
| Delivery.AdmissionsHold | src/wootpilot/application/webhooks.py:107-132 | in every reachable state the workflow of a message was started at most once, only for a stored message, and without a start none is under way or recorded |
| Invariants.InvHolds | src/wootpilot/persistence/repositories.py:435-464 | in every reachable state held rows are executing and pairwise distinct, row fields agree with the status, messages, runs and sources are unique, conversation rows readable |
| Invariants.RowsKept | src/wootpilot/application/outbound.py:107-200 | every step keeps: next attempt set exactly for retryable rows, provider id exactly for sent rows, error code exactly after a failed attempt, failure reason as the status demands, a sent row's being its last error code or what is noted of a failed update for its kind |
| Invariants.OwnershipKept | src/wootpilot/persistence/repositories.py:443-464 | every step keeps exclusive ownership of executing rows |
| Invariants.RowStep | src/wootpilot/persistence/repositories.py:579-609 | a row changes only by a claim while live or by its holder's mark while executing; its action never changes and a terminal row not at all |
| Invariants.StepWrites | src/wootpilot/application/outbound.py:107-200 | the whole row a claim and each kind of mark leave, field by field: a failed send is retried after the retry delay exactly if it may be and attempts are left, and is otherwise permanent |
| Invariants.TerminalForever | src/wootpilot/persistence/repositories.py:592-609 | a terminal row is the same at the end of any run |
| Invariants.AbandonedForever | src/wootpilot/application/outbound.py:333-336 | from any point of a run on, an executing row that no worker holds stays as it is |
| Invariants.HeldRowCanBeMarked | src/wootpilot/application/outbound.py:66-105 | from any reachable state a worker can mark the row it holds within seven steps |
| Invariants.LeavesExecutingIffHeld | src/wootpilot/application/outbound.py:66-105 | in every reachable state an executing row has a continuation in which it leaves that status if and only if some worker holds it |
| TraceSafety.PublicSendIsChecked | src/wootpilot/application/outbound.py:67-104 | behind every public call stand, in this order and with no other step of that worker between, its claim, a clean supersession read, a passed static check of the text, a stored-state read that was safe when made, a safe channel read of the right conversation and a second clean supersession read, whatever interleaves |
| TraceSafety.ChecksDecide | src/wootpilot/application/outbound.py:281-388 | each check of a held row goes on exactly if none of its rules objects, blocks otherwise with the first that does, and a read that raises ends the worker's run |
| TraceSafety.NotesAreSentUnlessEmpty | src/wootpilot/application/outbound.py:316-338 | in every reachable state a blocked note is an empty one, a sent or tried one is not empty, and none was superseded |
| TraceSafety.SupersededForGood | src/wootpilot/persistence/repositories.py:493-528 | an action superseded at one point of a run is superseded at every later one |
| TraceSafety.PublicSendWasNeverSuperseded | src/wootpilot/application/outbound.py:80-92 | behind every public call stand the six checks, and its row was superseded at no point of the run up to the second of its supersession reads |
| TraceSafety.RowOrigin | src/wootpilot/application/workflow.py:326-367 | every outbox row of a reachable state is, as an action, what one workflow run of the run asked for |
| TraceSafety.PublicRowWasAllowed | src/wootpilot/workflow/nodes.py:134-208 | every public row of a reachable state comes from a workflow run in public-reply mode to which neither gate objected; its text is the proposed one, its catalog the one the gate saw |
| Chatwoot.PublicCallsAreBacked | src/wootpilot/application/outbound.py:67-104 | every public message among the calls of a run carries the text and conversation of a row behind which the six checks stand, which was never superseded before, and whose text a workflow run of the run proposed and both gates allowed |
| Chatwoot.CallsCarryRows | src/wootpilot/application/outbound.py:93-98 | every call of a worker names the conversation of the row it held, carries its text, is private exactly for a note, and is answered as its step went on |
| Chatwoot.CallsAreLogged | src/wootpilot/integrations/chatwoot.py:379-430 | each reading, sending or updating step of the worker adds exactly one such call, no other step adds any |
| TraceSafety.TakeoverHoldsBackSends | src/wootpilot/application/outbound.py:354-370 | no stored-state check passes before the last human reply is a time-to-live old |
| TraceSafety.TakeoverHoldsBackProposals | src/wootpilot/application/policy.py:136-141 | nor does the pre-model gate in public-reply mode |
| TraceSafety.ObserveSendsNothing | src/wootpilot/workflow/nodes.py:191-208 | a run entirely in observe mode queues nothing and makes no call |
| TraceSafety.AssistSendsOnlyNotes | src/wootpilot/application/workflow.py:339-345 | a run entirely in assist mode queues and sends private notes only |
| TraceSafety.SwitchStopsPublicSends | src/wootpilot/application/outbound.py:340-344 | after a switch away from public-reply mode a public call can only come from a claim made before it |
| Progress.PotentialStep | src/wootpilot/application/outbound.py:143-193 | each claim uses up exactly one remaining attempt, an insert brings its own, nothing else adds |
| Progress.BudgetIs | src/wootpilot/application/outbound.py:143-193 | the attempts a row has left, from the settings, its recorded attempts and its status |
| Progress.DrainTerminates | src/wootpilot/application/outbound.py:66-105 | without inserts, the claims of a run plus the attempts still left are at most those left at its start |
| Progress.BoundedWaiting | src/wootpilot/persistence/repositories.py:656-674 | while a due action waits, the claims on other rows number at most the remaining attempts of rows created no later |
| Progress.ClaimsAreEarlier | src/wootpilot/persistence/repositories.py:669-674 | while a due action waits every claim is on a row created no later |
| Ingress.RedeliveryStartsNothing | src/wootpilot/application/webhooks.py:90-115 | once a delivery has committed, at any earlier point of the run, another with its id, or with its message under a new id, starts nothing; the first changes nothing at all, the second only adds its id and refreshes the row of the stored message's conversation |
| Ingress.DeliverWrites | src/wootpilot/application/webhooks.py:83-132 | the tables after the first transaction, case by case: known delivery, other payload, channel event, stored message, new message; a handler exactly for a new customer turn with some text |
| Ingress.DeliverGoesThrough | src/wootpilot/persistence/repositories.py:86-105 | the first transaction goes through exactly if it writes no conversation row or the status it leaves there can be read |
| Ingress.RunWrites | src/wootpilot/application/workflow.py:207-269 | the second transaction adds one agent run and, unless its key is taken, the row its decision asks for |
| Ingress.RowIsFold | src/wootpilot/application/webhooks.py:236-308 | in every reachable state a conversation row is the fold of the events committed for it |
| Ingress.ReachableRow | src/wootpilot/persistence/repositories.py:86-105 | every reachable row has a null, empty or known status, a takeover window in step with the last human reply, the last events' pause and assignments, and is replyable as the last event that decides it says |
| Ingress.QueueRefusesNothing | src/wootpilot/application/workflow.py:346-367 | an action of a message whose own ids are colon-free is never refused by the unique key, whatever ids other messages have |
| Ingress.OnePublicActionStands | src/wootpilot/application/outbound.py:281-289 | with canonical ids at most one public action of a conversation is not superseded, and the one for the newest customer message is not |
| Ingress.SupersededIff | src/wootpilot/persistence/repositories.py:466-528 | in every reachable state an action is superseded exactly if it is public and a customer message of its conversation came later than the one it answers, by time stamp or by id |
| Ingress.ActionStandsIffLast | src/wootpilot/persistence/repositories.py:466-528 | for all ids and every reading of numbers, in every reachable state a public action is not superseded exactly when the message it answers is last, as text or as number, among the latest of its conversation |
| Ingress.WindowNeverMovesBack | src/wootpilot/application/webhooks.py:255-259 | along a run in which a conversation's human replies commit in the order of their time stamps its takeover window only moves later |
| Conversation.FoldSummary | src/wootpilot/application/webhooks.py:293-308 | after any events, pause and assignments are the last event's, the status that of the last event carrying one, the window that of the last human reply handled, the last customer message the last handled |
| Conversation.ReplyableStep | src/wootpilot/application/webhooks.py:236-308 | what one event does to the replyable flag, by what it says, what it is and the status it leaves |
| Conversation.ReplyableSummary | src/wootpilot/application/webhooks.py:236-308 | after any events a conversation is replyable exactly if no event decided that or the last one that did left it open |
| Domain.ReadBack | src/wootpilot/persistence/repositories.py:86-105 | which status texts can be read and as what, everything else as stored |
| Conversation.ResolvedStaysClosed | src/wootpilot/application/webhooks.py:247-249 | resolved implies not replyable is kept unless a message says it can be replied to while the row is resolved |
| Conversation.WindowStep | src/wootpilot/application/webhooks.py:255-259 | the window matches the last human reply and moves back only for a human reply older than the last handled |
| Conversation.ConversationRecord.ApplyChannelMetadata | src/wootpilot/application/webhooks.py:293-308 | the in-place metadata update |
| Conversation.ConversationRecord.UpdateConversationState | src/wootpilot/application/webhooks.py:236-262 | the in-place update is one step of the fold; reading back raises on an unknown status |
| Conversation.ConversationRecord.UpdateChannelState | src/wootpilot/application/webhooks.py:264-291 | the same for channel events |
| Webhooks.HandleWebhookEvent.Handle | src/wootpilot/application/webhooks.py:69-139 | every outcome adds exactly its ingress and workflow steps to the protocol run and leaves the tables as they are at its end; the answer is duplicate exactly for a known delivery id or stored message, processed exactly for a new channel event or customer turn |
| Webhooks.HandleWebhookEvent.Admit | src/wootpilot/application/webhooks.py:90-119 | the first transaction: the tables after it or its rollback, the answer, and what the workflow is given |
| Webhooks.HandleWebhookEvent.RunAndRecord | src/wootpilot/application/workflow.py:207-269 | the graph's decision is recorded as one run and queued as the decision says |
| Webhooks.HandleWebhookEvent.QueueAction | src/wootpilot/application/workflow.py:326-367 | the early returns and the idempotent insert |
| Store.Repository.InsertRawEvent | src/wootpilot/persistence/repositories.py:170-206 | refused exactly when the event id is taken |
| Store.Repository.InsertMessage | src/wootpilot/persistence/repositories.py:216-258 | appended exactly when the identity is new, else the stored message comes back |
| Store.Repository.QueuedOutboundActions | src/wootpilot/persistence/repositories.py:642-677 | at most `limit` distinct due rows, oldest first, none left out that is older |
| Store.Repository.ClaimQueuedOutboundActions | src/wootpilot/persistence/repositories.py:435-464 | exactly the dequeued rows become executing with no next attempt |
| Store.Repository.MarkOutboundAction | src/wootpilot/persistence/repositories.py:579-609 | field by field, null arguments keeping values, nothing for a missing row |
| Store.Repository.InsertOutboundAction | src/wootpilot/persistence/repositories.py:394-433 | refused exactly when the key is taken |
| Executor.ExecuteOutboundActions.RunOnce | src/wootpilot/application/outbound.py:52-105 | counters add up to claims and to the calls made and answered, match the changes in row statuses; nothing is due if it stops early or the limit exceeds the attempts left; a raise leaves exactly the last claimed row executing; its steps continue a protocol run and stand for exactly the calls in the client's log |
| Executor.ExecuteOutboundActions.ExecuteClaimed | src/wootpilot/application/outbound.py:79-104 | the outcome, the status of the claimed row and the `create_message` calls made agree, no other row changes, no further claim, and calls and rows are those of the run's steps |
| Executor.ExecuteOutboundActions.BlockedReason | src/wootpilot/application/outbound.py:316-338 | the checks in order, on the stored row and on the reply logged by the client, with the safety read's escape; no message is created |
| Executor.ExecuteOutboundActions.CallChatwoot | src/wootpilot/application/outbound.py:93-98 | one logged call with the row's conversation and text, private exactly for a note; what it answered decides how the worker goes on |
| Executor.ExecuteOutboundActions.MarkSendFailure | src/wootpilot/application/outbound.py:143-166 | the whole row after a failed send: retried after the delay exactly if the refusal allows it and attempts read at the claim leave one, otherwise permanent |
| Executor.ExecuteOutboundActions.MarkSent | src/wootpilot/application/outbound.py:168-186 | exactly one logged update if the row asks for one, none otherwise; the row is sent with what was noted of it, or, if the update raised, is left executing |
| Executor.ExecuteOutboundActions.ApplyPostSendUpdates | src/wootpilot/application/outbound.py:202-279 | the update a sent row asks for: a failure is noted by its kind and code, an escape raises |
| Executor.FollowedUpIff | src/wootpilot/application/outbound.py:212-279 | a public reply is followed by a status change, a note by a label, exactly under the settings that ask for it and, for a note, a human-review marker |
| Outbox.WakeupIsExact | src/wootpilot/persistence/repositories.py:530-565 | from now on some row is claimable at t exactly when the computed due time exists and is not after t |
| Outbox.DueIff | src/wootpilot/persistence/repositories.py:656-668 | by status and kind, exactly when a row is due |
| Outbox.SleepMissesNothing | src/wootpilot/cli.py:206-227 | nothing is due while a notified worker sleeps, as long as the outbox stays as it was |
| Progress.SleepMissesOnlyNews | src/wootpilot/cli.py:206-227 | while others go on, a row falls due during the sleep only if it was queued meanwhile, which notifies, or failed retryably meanwhile in another worker's hands, which does not |
| Outbox.EarlyWakeFindsWork | src/wootpilot/cli.py:206-227 | a notified worker that wakes before the fallback finds a due row |
| Outbox.WaitTime | src/wootpilot/cli.py:206-227 | the wait is never negative and never longer than the fallback, and is the fallback when polling |
| Workflow.GraphDecides | src/wootpilot/workflow/nodes.py:51-208 | every graph run ends within five nodes with the directly stated decision and at most one model call, none for an ineligible or blocked turn |
| Workflow.RunNode | src/wootpilot/workflow/nodes.py:51-208 | a node run with the gates' own collecting loops comes to what the graph function says |
| Workflow.Invoke | src/wootpilot/workflow/graph.py:60-69 | the graph followed node by node to its end comes to the directly stated decision |
| Workflow.DecisionShape | src/wootpilot/workflow/decisions.py:64-140 | queued exactly when the kind is not none; public exactly for an allowed public proposal in public-reply mode; a denied proposal becomes a private note; the missing-proposal decision does not occur |
| Workflow.StoppedTurns | src/wootpilot/workflow/decisions.py:1-62 | what is decided and recorded for an ineligible, a blocked, a failed and an empty turn |
| Workflow.ProposalEndings | src/wootpilot/workflow/decisions.py:64-125 | what becomes of a proposal: recorded, queued publicly with its public message, denied with the review note, or queued as its private note, else public message, else summary |
| Workflow.ReviewNoteSays | src/wootpilot/workflow/decisions.py:143-172 | the review note's heading, summary and reasons, in order and each once |
| Workflow.QueuedRowIs | src/wootpilot/application/workflow.py:326-367 | which decisions queue a row, and every field of it, the key included |
| Workflow.HumanReviewIff | src/wootpilot/application/outbound.py:414-428 | a note counts as human review exactly if a rule id or risk reason of it begins with public. or intent. |
| Workflow.ReviewRowsAreRecognised | src/wootpilot/application/outbound.py:414-428 | every row from the review path passes the human-review test, any other note only by its own risk reasons |
| Workflow.ReviewNoteHidesDraft | src/wootpilot/workflow/decisions.py:143-172 | the note does not depend on the denied draft |
| Workflow.QueuedPublicRowPassesStaticCheck | src/wootpilot/application/outbound.py:340-352 | a queued public row passes the static check on its saved catalog unless its content is blank |
| Workflow.KeysAreInjective | src/wootpilot/application/workflow.py:346-349 | an action with colon-free ids shares its key with no other, whatever ids that has |
| Workflow.KeyIsSharedIffColon | src/wootpilot/application/workflow.py:346-349 | another action has the same key if and only if one of the action's own ids contains a colon |
| Policy.PreModelPolicy | src/wootpilot/application/policy.py:111-163 | collects each rule exactly when what it objects to is the case, in a fixed order, none twice; allowed when none objects |
| Policy.PreModelRulesAreCollected | src/wootpilot/application/policy.py:111-163 | a list is the one the graph's gate works with if and only if it holds exactly the objecting rules in the fixed order |
| Policy.ValidateProposal | src/wootpilot/application/policy.py:166-209 | the same for the rules on proposals |
| Policy.ProposalRulesAreCollected | src/wootpilot/application/policy.py:166-209 | a list is the one the graph's second gate works with if and only if it holds exactly the objecting rules in the fixed order |
| Policy.StaticGate | src/wootpilot/application/outbound.py:340-352 | the reason is the first rule, in the order of the checks, that objects to the text, none exactly if none does |
| Policy.StoredGate | src/wootpilot/application/outbound.py:354-370 | the same for the stored state |
| Policy.ChannelGate | src/wootpilot/application/outbound.py:372-388 | the same for the channel state |
| Policy.GatesSeeFoldedText | src/wootpilot/text.py:10-23 | the gates on texts see only what folding makes of them |
| Policy.StoredGateIsHeadOfPreModelGate | src/wootpilot/application/outbound.py:354-370 | for an eligible turn without a human request the executor's first reason is the head of the pre-model list, none exactly when that is empty |
| Policy.ValidatedTextPassesStaticCheck | src/wootpilot/application/policy.py:184-197 | a validated public text passes the executor's static check unless blank |
| MessageOrder.CheckRefinesOrder | src/wootpilot/persistence/repositories.py:466-528 | with canonical ids the two-query check is "a later customer message exists" in (timestamp, number) order |
| MessageOrder.OrderIsStrictTotal | src/wootpilot/persistence/repositories.py:143-149 | that order is strict and total on a conversation |
| Text.TextAfterIff | src/wootpilot/persistence/repositories.py:143-149 | text order: past what two texts share, one alone goes on, or with a greater character |
| MessageOrder.OnlyNewestSurvives | src/wootpilot/persistence/repositories.py:466-528 | exactly the newest customer message is not superseded |
| MessageOrder.StandsIffLast | src/wootpilot/persistence/repositories.py:466-528 | for all ids and every reading of numbers, a customer message is not superseded exactly when, among the latest, it is no number and after all others as text, or a number none exceeds and after all non-numbers as text |
| MessageOrder.OneStandsIff | src/wootpilot/persistence/repositories.py:466-528 | a message is the only one that stands if and only if it is last as text, or the one number that is last |
| MessageOrder.NoneOrSeveralStandIff | src/wootpilot/persistence/repositories.py:466-528 | none stands exactly when none is last either way; several stand exactly when several numbers are last, all of equal value |
| MessageOrder.MixedIdsSupersedeEachOther | src/wootpilot/persistence/repositories.py:509-528 | with ids 10, 9 and 1a at one timestamp all three messages count as superseded |
| MessageOrder.EqualNumbersAllStand | src/wootpilot/persistence/repositories.py:509-528 | with ids 1, 01 and +1 at one timestamp, all read as the number one, all three messages stand |
| MessageOrder.CanonicalIsInjective | src/wootpilot/persistence/repositories.py:146-147 | canonical ids with equal numbers are equal |
| Pricing.ClaimIff | src/wootpilot/application/policy.py:249-254 | a text is a price claim if and only if, folded, it contains one of the eight markers or a price, one to three digits, groups of three and two decimals with a point or comma at each place, that no word character touches |
| Pricing.WrittenPriceIsAClaim | src/wootpilot/application/policy.py:249-254 | a text with such a price after a blank and not touched by a word character is a claim, whatever the words around it |
| Pricing.PriceRuleIff | src/wootpilot/application/policy.py:212-237 | a claim passes exactly if the text quotes the displayed price of a product that may be mentioned |
| Pricing.PrintedAmountReadsBack | src/wootpilot/domain/models/catalog.py:46-49 | the printed amount: whole part without leading zeros in groups of three, point, exactly the minor digits; its digits are the number of minor units |
| Pricing.PrintedPriceIsAClaim | src/wootpilot/domain/models/catalog.py:46-49 | any text quoting a printed two-decimal price is a price claim, for every amount, currency and surrounding words, unless a word character follows it at once |
| Pricing.QuotedSnapshotPricePasses | src/wootpilot/application/policy.py:212-237 | and passes in any text when the product is mentionable in the snapshot, whatever the decimals |
| Pricing.QuotedTextPasses | src/wootpilot/application/policy.py:212-237 | any text containing the non-blank display text of a mentionable product passes |
| Pricing.PrintedAmountIsAClaimIff | src/wootpilot/application/policy.py:249-254 | a printed amount is a price claim if and only if it shows two minor digits or the currency alone is one |
| Pricing.DinarPriceIsNoClaim | src/wootpilot/catalog/mock.py:136-147 | a three-decimal KWD price passes with an empty catalog |
| Witnesses.PublicReplyCanBeSent | src/wootpilot/application/outbound.py:66-105 | for all settings, every ordinary message without risk signal and every harmless text some run sends the text publicly in reply |
| Witnesses.DeliveredRowCanBeAbandoned | src/wootpilot/application/outbound.py:93-104 | every ordinary customer message has a run in which its note is delivered and its row then stays executing in every continuation |
| Witnesses.ResolvedCanBeReplyable | src/wootpilot/application/webhooks.py:247-249 | one delivery leaves a resolved row that counts as replyable |

## Left out

- HTTP, routing, signatures, LISTEN/NOTIFY, logging, tracing, migrations and the development tools: I/O or setup.
- LangGraph's runtime and checkpoints and the model adapter: a model call is an arbitrary result.
- SQL and sessions: tables with unique keys; rows are never deleted, so a row's place in the outbox is its id. A claim transaction is one step.
- Row columns that decide nothing: update time stamps, raw-event status and payload, agent-run, policy, snapshot and audit contents; an agent run is represented by its message.
- Interleaving inside `Executor.ExecuteOutboundActions.RunOnce` and `Webhooks.HandleWebhookEvent.Handle`: each method runs alone from any reachable state; interleavings are covered by the protocol runs, whose steps are the ones they take.
- Database errors inside a transaction: they end a worker or handler like a crash, which the protocol runs contain; the methods do not raise them.
- Ingress.RowIsFold: takes the first transactions of one conversation as serial. The row is read without a lock, so on Postgres two concurrent deliveries for one conversation can leave a mix of their columns.
- Ingress.ReachableRow: rests on the same serial transactions for the last events' values.
- TraceSafety.TakeoverHoldsBackProposals: rests on them too. On Postgres a customer delivery that read the row before a concurrent human reply committed can pass the gate although the row then holds that reply; only the executor's own check before a send (`TraceSafety.TakeoverHoldsBackSends`) reads the row again.
- Progress.BoundedWaiting: takes a row's creation time to be the time its insert commits. The code reads the clock just before, so a row can appear with a slightly earlier creation time; it then counts among those brought.
- The endless worker loop of the command line: only its wait is modelled.
- Provider-side delivery: a transport error may hide a delivered message, so only returned ids are counted.
- Unicode: folding, lower-casing, white space and word characters are parameters, assumed to leave ASCII digits, separators and the blank alone; digits are the ASCII ones.
- Float division in the price printer: the amount is split by integer division; negative amounts are not printed.
- Catalog search, connector mapping and Chatwoot payload picking: they only produce inputs of this model.
- Liveness under crashes: an abandoned row is not recovered by the code, so no claim is made that every action is eventually sent.
