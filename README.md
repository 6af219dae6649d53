# Automotive agents playground and its three microservices, modelled in Dafny

The repository has two halves.

The Python half is a playground built on the OpenAI Agents SDK. It holds:
- a multi-language triage program that hands each message to a French, Spanish or German agent and back;
- an automotive multi-agent demo with a keyword-driven workflow planner and mock tools for repair orders, parts and payment links;
- a trading agent that pulls a stock symbol and exchange out of free text and filters quote data.

The Java half is made of three Spring Boot services:
- **payment service.** Transactions, and payment links that each own a transaction, with their status lifecycles.
- **part service.** A parts inventory with stock adjustment, and a multitenancy filter with its per-request tenant context.
- **repair-order service.** Repair orders with embedded vehicle, job and technician details and a list of parts, plus its own multitenancy filter and context.

The model follows the source file by file, one module each:
- **Pure logic becomes functions and lemmas.** This covers the planner, the parser, the validators, the repository finders and the tenant context.
- **Code that changes state becomes classes and methods.** The entities become classes whose fields mirror the columns, with reads and modifies frames. Each repository becomes a store class holding its tables as maps keyed by id, plus its identity counters. Each service operation is a method over that store. The loops of the handoff program and of `expireOldLinks` stay loops.
- **Every method is proved against a function of the old state.** Properties of those functions are then proved as lemmas.

Modules:
- **Common** (`common.dfy`): shared helpers. They cover Option/Result, Java `int` wrap-around, substring search, ASCII case, `trim`, `@NotBlank` and `hasText`, decimal printing, and code-point string order.
- **Python side:**
  - Agents (`agents.dfy`), the agent object;
  - Handoff (`handoff.dfy`): `handoff_pattern.py`, and also `AgentsSDKPlaybook.py`. The two files differ only in mis-encoded characters inside printed strings, so every row citing `handoff_pattern.py` below holds for `AgentsSDKPlaybook.py` at the same lines;
  - Workflow and AutomotiveTools (`workflow.dfy`, `automotive_tools.dfy`): `automotive_multi-agent.py`;
  - TradingAgent (`trading_agent.dfy`): `trading_agent.py`.
- **Payment service:** TransactionEntity, PaymentLinkEntity, PaymentRequests, PaymentRepository, TransactionService, PaymentLinkService.
- **Part service:** PartEntity, PartRepository, PartService.
- **Repair-order service:** RepairOrderEntity, RepairOrderRepository, RepairOrderService.
- **Multitenancy, both services:**
  - TenantContexts, the context record;
  - ContextProviders, the per-request context slot;
  - MultitenancyFilters, the header validation, excluded paths and `doFilter`.

Modelling conventions:
- **Nulls.** Java `null` and Python `None` are `Option.None`.
- **Money.** `BigDecimal` and Python `float` amounts are `real`.
- **Time.** `LocalDateTime.now()` and `System.currentTimeMillis()` are explicit `Instant` (milliseconds) and `millis` parameters.
- **Exceptions** are `Result.Failure` values that carry the exception's message.
- **Language-model runs** (`Runner.run`, the model-backed quote fetch) are oracle functions passed in as parameters.

## Model

| member | source | states |
|---|---|---|
| Agents.Agent.constructor | AgentsSDKPlayGround/handoff_pattern.py:66-125 | an agent stores the name, output type, tools and handoff list it is built with |
| Agents.Agent.SetHandoffs | AgentsSDKPlayGround/handoff_pattern.py:129-131 | reassigning `.handoffs` replaces the list and leaves name, tools and output type alone |
| Handoff.ParseAction | AgentsSDKPlayGround/handoff_pattern.py:24-28 | an action string is accepted iff it is one of the four literals, and the parsed action prints back as that string |
| Handoff.ActionNameRoundTrip | AgentsSDKPlayGround/handoff_pattern.py:26 | every action round-trips through its literal |
| Handoff.ValidateTriageDecision | AgentsSDKPlayGround/handoff_pattern.py:24-28 | a decision validates iff its action is a listed literal; an omitted `remaining_languages` becomes `[]` |
| Handoff.CreateAgents | AgentsSDKPlayGround/handoff_pattern.py:37-133 | after wiring, each specialist's handoffs are exactly `[triage]`, triage's are `[french, spanish, german]`, and only triage has output type `TriageDecision` |
| Handoff.ToInputList | AgentsSDKPlayGround/handoff_pattern.py:173 | `to_input_list()` is the run's input followed by at least one new item |
| Handoff.Converse | AgentsSDKPlayGround/handoff_pattern.py:164-200 | the inner loop ends Completed only at triage with a `complete` decision, UnexpectedOutput only at triage with non-decision output, HistoryCapped only with more than 20 items; the input history is a prefix of the final one and the number of runs is bounded |
| Handoff.ConversationRunsBounded | AgentsSDKPlayGround/handoff_pattern.py:198-200 | a conversation opened by one message makes at most 20 runs |
| Handoff.ContinuesWithLastAgent | AgentsSDKPlayGround/handoff_pattern.py:173-174 | a run that ends at a specialist (or at triage with a non-final decision), with a short history, is followed by a run of that `last_agent` on the run's whole history |
| Handoff.CompletionBeforeCap | AgentsSDKPlayGround/handoff_pattern.py:177-200 | a triage `complete` ends the loop as completed even when the history is past the cap, because the completion check comes first |
| Handoff.RunConversation | AgentsSDKPlayGround/handoff_pattern.py:164-200 | the `while True` loop computes exactly `Converse` |
| Handoff.Session | AgentsSDKPlayGround/handoff_pattern.py:157-214 | a session always holds the first message's conversation |
| Handoff.FirstQuit | AgentsSDKPlayGround/handoff_pattern.py:208-210 | the index of the first reply whose lower-case form is quit, exit or bye; none before it is |
| Handoff.SessionShape | AgentsSDKPlayGround/handoff_pattern.py:157-214 | a session holds one conversation per message up to the first quit word; each starts at triage from a one-item history holding its message |
| Handoff.SessionStep | AgentsSDKPlayGround/handoff_pattern.py:208-214 | the outer loop runs the conversation for the message, then stops on a quit word or restarts at triage with the next reply |
| Handoff.ConversationLoop | AgentsSDKPlayGround/handoff_pattern.py:157-214 | the nested loops of `main` compute exactly `Session` |
| Workflow.Step | AgentsSDKPlayGround/automotive_multi-agent.py:21-27 | a step built without a status is "pending" and keeps its id and dependencies |
| Workflow.StepIds | AgentsSDKPlayGround/automotive_multi-agent.py:33 | the ids of a plan's steps, one per step in order |
| Workflow.AnalyzeMultiDomainRequest | AgentsSDKPlayGround/automotive_multi-agent.py:260-314 | the plan is compound (four steps) iff the lower-cased query contains "add part" and "payment link"; the order is always a permutation of the step ids that respects every declared dependency; the plan is dependency-closed, and so well formed, iff it is not compound |
| Workflow.CompoundPlanShape | AgentsSDKPlayGround/automotive_multi-agent.py:264-300 | the compound plan's order is a permutation respecting its dependencies but it is not dependency-closed |
| Workflow.CompoundStepsFacts | AgentsSDKPlayGround/automotive_multi-agent.py:264-294 | the steps are validate_1, validate_2, execute_1, execute_2 with dependencies [], [validate_1], [validate_5], [execute_1] |
| Workflow.SingleStepPlanShape | AgentsSDKPlayGround/automotive_multi-agent.py:304-314 | the one-step plan is well formed |
| Workflow.CompoundPlanDanglingDependency | AgentsSDKPlayGround/automotive_multi-agent.py:285 | execute_1 depends on validate_5, which no step declares |
| Workflow.CompoundPlanIgnoresQuery | AgentsSDKPlayGround/automotive_multi-agent.py:264-301 | two compound queries give plans that differ only in `original_query` |
| Workflow.CompoundPlanOrder | AgentsSDKPlayGround/automotive_multi-agent.py:277-300 | the compound plan has id REQ_001_DEFENSIVE, runs its four steps in declaration order, and its payment step carries amount 100.0, abc@gmail.com and USD |
| Workflow.DefaultPlan | AgentsSDKPlayGround/automotive_multi-agent.py:304-314 | any other query yields step_1, "general", "handle_query", `{"query": query}`, no dependencies, order ["step_1"] |
| Workflow.KeywordsMakeCompound | AgentsSDKPlayGround/automotive_multi-agent.py:263 | a query containing "add part" at any position followed later by "payment link", in any letter case and with any text before, between and after, is compound |
| Workflow.DemoQueryIsCompound | AgentsSDKPlayGround/automotive_multi-agent.py:263 | the demo's query selects the compound plan |
| AutomotiveTools.GetRepairOrderDetails | AgentsSDKPlayGround/automotive_multi-agent.py:44-73 | succeeds iff the number is "RO_001"; a failure has success false with an error and a message naming the number |
| AutomotiveTools.GetPartByNumber | AgentsSDKPlayGround/automotive_multi-agent.py:75-103 | succeeds iff the number is "PART_001"; a failure has success false with an error and a message |
| AutomotiveTools.MatchesEmailPatternIffValid | AgentsSDKPlayGround/automotive_multi-agent.py:221-222 | the scanning matcher accepts exactly L@D.E over `[^\s@]`, optionally followed by one newline |
| AutomotiveTools.MatchesBodyIffShape | AgentsSDKPlayGround/automotive_multi-agent.py:221 | the matcher on the body agrees with the pattern's language in both directions |
| AutomotiveTools.TrailingNewlineAccepted | AgentsSDKPlayGround/automotive_multi-agent.py:221 | `$` lets "a@b.c\n" through |
| AutomotiveTools.MalformedEmailsRejected | AgentsSDKPlayGround/automotive_multi-agent.py:221-229 | two newlines, a missing dot or a space are rejected |
| AutomotiveTools.TruncatePositive | AgentsSDKPlayGround/automotive_multi-agent.py:243 | `int(amount)` of a positive amount is its floor |
| AutomotiveTools.CreatePaymentLink | AgentsSDKPlayGround/automotive_multi-agent.py:218-256 | an invalid email gives "Invalid Email" whatever the amount; otherwise an amount outside (0, 999999999] gives "Invalid Amount"; success holds exactly when both checks pass, with link id "PL_" + ro + "_" + int(amount), status ACTIVE and the inputs echoed |
| AutomotiveTools.PlanEmailValid | AgentsSDKPlayGround/automotive_multi-agent.py:221-229 | the plan's address abc@gmail.com is accepted |
| AutomotiveTools.PlanPaymentStepSucceeds | AgentsSDKPlayGround/automotive_multi-agent.py:232-256 | the plan's payment step succeeds with link id "PL_RO_001_100" |
| AutomotiveTools.CreateAutomotiveAgents | AgentsSDKPlayGround/automotive_multi-agent.py:316-363 | after wiring, triage's handoffs are [repair_orders, parts, payment], every specialist's are [triage], and every agent has its listed tools |
| TradingAgent.SymRun | AgentsSDKPlayGround/trading_agent.py:58 | the greedy `[A-Z0-9&-]*` run from i: all its characters are symbol characters and the next one is not |
| TradingAgent.SpaceRun | AgentsSDKPlayGround/trading_agent.py:63 | the greedy `\s*` run from i |
| TradingAgent.KeywordEnd | AgentsSDKPlayGround/trading_agent.py:63 | ON, AT or TRADED\s+AT at k, and where it ends |
| TradingAgent.RuleAt | AgentsSDKPlayGround/trading_agent.py:57-69 | a rule's match at p yields a symbol over `[A-Z0-9&-]` and a listed exchange |
| TradingAgent.Search | AgentsSDKPlayGround/trading_agent.py:57-69 | `re.search`: what it finds is a match of the rule at or after p |
| TradingAgent.SearchNoneIff | AgentsSDKPlayGround/trading_agent.py:57-69 | search finds nothing iff the rule matches at no position |
| TradingAgent.SearchLeftmost | AgentsSDKPlayGround/trading_agent.py:57-69 | what search finds is the match at the leftmost matching position |
| TradingAgent.FirstKnown | AgentsSDKPlayGround/trading_agent.py:72-79 | the first list entry occurring in the text; none earlier occurs |
| TradingAgent.KnownSymbolFallback | AgentsSDKPlayGround/trading_agent.py:72-79 | the fallback returns the first known symbol found, on NSE |
| TradingAgent.ParseSymbolFromQuery | AgentsSDKPlayGround/trading_agent.py:52-81 | whatever rule or table entry decides, the result is a non-empty `[A-Z0-9&-]` symbol, upper case, with an exchange in {NSE, BSE, NFO, MCX} |
| TradingAgent.ParseNoneIff | AgentsSDKPlayGround/trading_agent.py:52-81 | (None, None) exactly when no rule matches anywhere and no known symbol occurs |
| TradingAgent.FormatInstrumentKey | AgentsSDKPlayGround/trading_agent.py:83-85 | the key is exchange, ':' and symbol |
| TradingAgent.ParseFormatRoundTrip | AgentsSDKPlayGround/trading_agent.py:57-85 | a listed exchange and a non-empty `[A-Z0-9&-]` symbol parse back from their instrument key |
| TradingAgent.ParseIgnoresCase | AgentsSDKPlayGround/trading_agent.py:54 | the parse of a query equals the parse of its upper-cased (and lower-cased) form |
| TradingAgent.SampleQueryYieldsStock | AgentsSDKPlayGround/trading_agent.py:62-64 | the module's sample query yields ("STOCK", "NSE"), as the rule is written |
| TradingAgent.NoSeparatorUsesTable | AgentsSDKPlayGround/trading_agent.py:57-79 | a query with no ':' and no whitespace is decided by the symbol table alone |
| TradingAgent.TableOrderHdfcBank | AgentsSDKPlayGround/trading_agent.py:72-79 | "HDFCBANK" yields ("HDFC", "NSE") because HDFC comes first in the table |
| TradingAgent.Get | AgentsSDKPlayGround/trading_agent.py:229 | `dict.get` is the first binding of the key, or the default |
| TradingAgent.GetDistinct | AgentsSDKPlayGround/trading_agent.py:229 | on an object with distinct keys, as `json.loads` returns, `dict.get` yields the key's one binding wherever it sits |
| TradingAgent.FilterSymbolData | AgentsSDKPlayGround/trading_agent.py:225-236 | on a parsed value with distinct keys: a parsed object whose status is not "success" is rejected; with status "success" and an object under "data" it is accepted iff some data key mentions the symbol ignoring case; with status "success" and a non-object "data", with unparsable text and with a non-object value it falls back to a case-insensitive substring test of the text |
| TradingAgent.FirstQuote | AgentsSDKPlayGround/trading_agent.py:243-253 | the quote comes from the first data key that mentions the symbol; there is none iff that first mention is not an object (or there is no mention) |
| TradingAgent.ExtractQuoteData | AgentsSDKPlayGround/trading_agent.py:238-257 | on a parsed value with distinct keys, a quote is extracted only from a parsed object whose "data" is an object with a key mentioning the symbol; when "data" is an object the result is the quote built from the first key mentioning the symbol (`FirstQuote`); a non-object "data", a non-object value and unparsable text give none |
| TradingAgent.ExtractImpliesFilter | AgentsSDKPlayGround/trading_agent.py:225-257 | on a successful response an extracted quote implies the filter accepts |
| TradingAgent.FilterImpliesExtract | AgentsSDKPlayGround/trading_agent.py:225-257 | when every quote under data is an object, a filter acceptance implies a quote is extracted |
| TradingAgent.AnalyzeStockFromQuery | AgentsSDKPlayGround/trading_agent.py:259-281 | no symbol gives the error result; a failed fetch gives the fetch error; otherwise the result carries symbol, exchange and quote |
| TradingAgent.NoSymbolNoQuote | AgentsSDKPlayGround/trading_agent.py:261-264 | without a symbol the result does not depend on the quote oracle |
| TransactionEntity.StatusName | paymentservice/src/main/java/com/paymentservice/service/TransactionService.java:126 | each status prints as a non-empty name |
| TransactionEntity.NewTransaction | paymentservice/src/main/java/com/paymentservice/entity/Transaction.java:97-107 | the eight-argument constructor stores its arguments, with currency "INR" and status INITIATED and all else null |
| TransactionEntity.WithStatus | paymentservice/src/main/java/com/paymentservice/entity/Transaction.java:186-191 | setStatus replaces the status; CAPTURED stamps processedAt only when it is null; nothing else changes |
| TransactionEntity.GeneratedReference | paymentservice/src/main/java/com/paymentservice/entity/Transaction.java:84-86 | the generated reference starts with "TXN_" |
| TransactionEntity.Created | paymentservice/src/main/java/com/paymentservice/entity/Transaction.java:80-87 | onCreate: createdAt = updatedAt = now; a present reference is kept, a missing one becomes "TXN_" + millis; nothing else changes |
| TransactionEntity.Touched | paymentservice/src/main/java/com/paymentservice/entity/Transaction.java:89-92 | onUpdate moves only updatedAt |
| TransactionEntity.WithStatusIdempotent | paymentservice/src/main/java/com/paymentservice/entity/Transaction.java:186-191 | repeating setStatus with the same status later changes nothing, so a second CAPTURED keeps the first stamp |
| TransactionEntity.ProcessedAtStable | paymentservice/src/main/java/com/paymentservice/entity/Transaction.java:186-191 | once processedAt is set, no sequence of status changes alters it; the last status wins |
| TransactionEntity.NoCaptureNoStamp | paymentservice/src/main/java/com/paymentservice/entity/Transaction.java:186-191 | a sequence of status changes without CAPTURED never touches processedAt |
| TransactionEntity.CreatedFreshTransaction | paymentservice/src/main/java/com/paymentservice/entity/Transaction.java:80-107 | onCreate after the constructor keeps INITIATED and "INR" and sets the reference to "TXN_" + millis |
| TransactionEntity.Transaction.constructor | paymentservice/src/main/java/com/paymentservice/entity/Transaction.java:97-107 | the object's state is `NewTransaction` of its arguments |
| TransactionEntity.Transaction.Load | paymentservice/src/main/java/com/paymentservice/entity/Transaction.java:17-77 | an entity loaded from a row holds exactly that row |
| TransactionEntity.Transaction.SetStatus | paymentservice/src/main/java/com/paymentservice/entity/Transaction.java:186-191 | the new state is `WithStatus` of the old one |
| TransactionEntity.Transaction.OnCreate | paymentservice/src/main/java/com/paymentservice/entity/Transaction.java:80-87 | the new state is `Created` of the old one |
| TransactionEntity.Transaction.OnUpdate | paymentservice/src/main/java/com/paymentservice/entity/Transaction.java:89-92 | the new state is `Touched` of the old one |
| PaymentLinkEntity.LinkStatusName | paymentservice/src/main/java/com/paymentservice/service/PaymentLinkService.java:124 | each status prints as a non-empty name |
| PaymentLinkEntity.NewPaymentLink | paymentservice/src/main/java/com/paymentservice/entity/PaymentLink.java:76-84 | the six-argument constructor stores its arguments, with currency "INR" and status ACTIVE and all else null |
| PaymentLinkEntity.GeneratedLinkId | paymentservice/src/main/java/com/paymentservice/entity/PaymentLink.java:65-67 | the generated link id starts with "LINK_" |
| PaymentLinkEntity.LinkCreated | paymentservice/src/main/java/com/paymentservice/entity/PaymentLink.java:62-71 | onCreate stamps createdAt; a missing linkId becomes "LINK_" + millis and a missing expiry becomes now + 7 days; present values are kept |
| PaymentLinkEntity.DefaultExpiryWindow | paymentservice/src/main/java/com/paymentservice/entity/PaymentLink.java:68-70 | a link created without expiry is expired exactly at times after now + 7 days |
| PaymentLinkEntity.PaymentLink.constructor | paymentservice/src/main/java/com/paymentservice/entity/PaymentLink.java:76-84 | the object's state is `NewPaymentLink` of its arguments |
| PaymentLinkEntity.PaymentLink.Load | paymentservice/src/main/java/com/paymentservice/entity/PaymentLink.java:15-60 | an entity loaded from a row holds exactly that row |
| PaymentLinkEntity.PaymentLink.SetStatus | paymentservice/src/main/java/com/paymentservice/entity/PaymentLink.java:155-157 | setStatus is a plain store with no side effect |
| PaymentLinkEntity.PaymentLink.OnCreate | paymentservice/src/main/java/com/paymentservice/entity/PaymentLink.java:62-71 | the new state is `LinkCreated` of the old one |
| PaymentRequests.EmptyTransactionRequest | paymentservice/src/main/java/com/paymentservice/dto/TransactionCreateRequest.java:31 | a new request has currency "INR" and every other field null |
| PaymentRequests.EmptyPaymentLinkRequest | paymentservice/src/main/java/com/paymentservice/dto/PaymentLinkCreateRequest.java:23 | a new request has currency "INR" and every other field null |
| PaymentRequests.EmailViolations | paymentservice/src/main/java/com/paymentservice/dto/TransactionCreateRequest.java:23-25 | no violation iff the address is non-null, not blank after `trim()` (`@NotBlank`), and is an email |
| PaymentRequests.AmountViolations | paymentservice/src/main/java/com/paymentservice/dto/TransactionCreateRequest.java:27-29 | no violation iff the amount is present and at least 0.01 |
| PaymentRequests.TransactionRequestViolations | paymentservice/src/main/java/com/paymentservice/dto/TransactionCreateRequest.java:14-37 | the violations are empty iff the request is valid; each field that is null or blank after `trim()`, and a low amount, reports its own message |
| PaymentRequests.PaymentLinkRequestViolations | paymentservice/src/main/java/com/paymentservice/dto/PaymentLinkCreateRequest.java:13-27 | the violations are empty iff the request is valid; each invoice field that is null or blank after `trim()` reports its own message |
| PaymentRequests.NotBlankIsTrimTest | paymentservice/src/main/java/com/paymentservice/dto/TransactionCreateRequest.java:14-16 | `@NotBlank` is the `trim()` test: an invoice id of one em space is not blank, one of a single NUL is |
| PaymentRequests.ValidRequestGivesValidTransaction | paymentservice/src/main/java/com/paymentservice/entity/Transaction.java:23-56 | a valid request builds a transaction meeting the entity's own constraints |
| PaymentRequests.NegativeAmountAndBadEmailRejected | paymentservice/src/test/java/com/payments/integration/PaymentServiceApiIntegrationTest.java:188-200 | a request with a negative amount and a malformed address is rejected on both fields |
| PaymentRequests.MissingInvoiceFieldsRejected | paymentservice/src/test/java/com/payments/integration/PaymentServiceApiIntegrationTest.java:326-338 | a link request without invoice fields and with a malformed address is rejected on each |
| PaymentRepository.FindByCustomerEmail | paymentservice/src/main/java/com/paymentservice/repository/TransactionRepository.java:20 | exactly the rows with that address |
| PaymentRepository.FindByCardType | paymentservice/src/main/java/com/paymentservice/repository/TransactionRepository.java:22 | exactly the rows with that card type |
| PaymentRepository.FindByPaymentType | paymentservice/src/main/java/com/paymentservice/repository/TransactionRepository.java:24 | exactly the rows with that payment type |
| PaymentRepository.FindByInvoiceId | paymentservice/src/main/java/com/paymentservice/repository/TransactionRepository.java:26 | exactly the rows with that invoice id |
| PaymentRepository.FindByInvoiceNumber | paymentservice/src/main/java/com/paymentservice/repository/TransactionRepository.java:28 | exactly the rows with that invoice number |
| PaymentRepository.FindByStatus | paymentservice/src/main/java/com/paymentservice/repository/TransactionRepository.java:30 | exactly the rows with that status |
| PaymentRepository.FindByTransactionReference | paymentservice/src/main/java/com/paymentservice/repository/TransactionRepository.java:32 | exactly the rows with that reference |
| PaymentRepository.FindByCustomerEmailContaining | paymentservice/src/main/java/com/paymentservice/repository/TransactionRepository.java:34 | exactly the rows whose address contains the text |
| PaymentRepository.FindByStatusAndCardType | paymentservice/src/main/java/com/paymentservice/repository/TransactionRepository.java:36 | exactly the rows with both the status and the card type |
| PaymentRepository.FindTransactionsByCustomerEmailAndStatus | paymentservice/src/main/java/com/paymentservice/repository/TransactionRepository.java:38-39 | exactly the rows with both the address and the status |
| PaymentRepository.FindByAmountRange | paymentservice/src/main/java/com/paymentservice/repository/TransactionRepository.java:41-43 | exactly the rows whose amount lies in [min, max] |
| PaymentRepository.TransactionEmailAndStatusIsConjunction | paymentservice/src/main/java/com/paymentservice/repository/TransactionRepository.java:38-39 | the JPQL query is the status finder applied to the email finder's result |
| PaymentRepository.AmountRangeInclusive | paymentservice/src/main/java/com/paymentservice/repository/TransactionRepository.java:41-43 | both bounds of the range are included |
| PaymentRepository.ExactEmailIsContained | paymentservice/src/main/java/com/paymentservice/repository/TransactionRepository.java:20-34 | every exact match is also a containing match |
| PaymentRepository.ReferenceFindsAtMostOne | paymentservice/src/main/java/com/paymentservice/entity/Transaction.java:65 | with the unique reference column the reference finder returns at most one row |
| PaymentRepository.FindByLinkId | paymentservice/src/main/java/com/paymentservice/repository/PaymentLinkRepository.java:17 | exactly the links with that link id |
| PaymentRepository.FindLinksByInvoiceId | paymentservice/src/main/java/com/paymentservice/repository/PaymentLinkRepository.java:19 | exactly the links with that invoice id |
| PaymentRepository.FindLinksByInvoiceNumber | paymentservice/src/main/java/com/paymentservice/repository/PaymentLinkRepository.java:21 | exactly the links with that invoice number |
| PaymentRepository.FindLinksByCustomerEmail | paymentservice/src/main/java/com/paymentservice/repository/PaymentLinkRepository.java:23 | exactly the links with that address |
| PaymentRepository.FindLinksByStatus | paymentservice/src/main/java/com/paymentservice/repository/PaymentLinkRepository.java:25 | exactly the links with that status |
| PaymentRepository.FindLinksByTransactionId | paymentservice/src/main/java/com/paymentservice/repository/PaymentLinkRepository.java:27 | exactly the links of that transaction |
| PaymentRepository.FindExpiredLinks | paymentservice/src/main/java/com/paymentservice/repository/PaymentLinkRepository.java:29-31 | exactly the links with the status whose expiry is strictly before the time |
| PaymentRepository.FindLinksByCustomerEmailAndStatus | paymentservice/src/main/java/com/paymentservice/repository/PaymentLinkRepository.java:33-35 | exactly the links with both the address and the status |
| PaymentRepository.ExpiredLinksExact | paymentservice/src/main/java/com/paymentservice/repository/PaymentLinkRepository.java:29-31 | a link expiring exactly at the given time is not selected; one expiring a moment earlier is |
| PaymentRepository.LinkEmailAndStatusIsConjunction | paymentservice/src/main/java/com/paymentservice/repository/PaymentLinkRepository.java:33-35 | the JPQL query is the status finder applied to the email finder's result |
| PaymentRepository.LinkIdFindsAtMostOne | paymentservice/src/main/java/com/paymentservice/entity/PaymentLink.java:21 | with the unique link id column findByLinkId returns at most one link |
| PaymentRepository.PaymentStore.constructor | paymentservice/src/main/java/com/paymentservice/repository/TransactionRepository.java:18 | both tables start empty and the store invariant holds |
| PaymentRepository.PaymentStore.InsertTransaction | paymentservice/src/main/java/com/paymentservice/entity/Transaction.java:80-87 | save of a new transaction runs onCreate, assigns the next identity value, and fails with nothing stored on a reference taken elsewhere |
| PaymentRepository.PaymentStore.UpdateTransaction | paymentservice/src/main/java/com/paymentservice/entity/Transaction.java:89-92 | save of a loaded transaction stores its state with updatedAt refreshed and returns the pre-flush state |
| PaymentRepository.PaymentStore.InsertLink | paymentservice/src/main/java/com/paymentservice/entity/PaymentLink.java:62-71 | save of a new link runs onCreate, assigns the next identity value, and fails with nothing stored on a link id taken elsewhere |
| PaymentRepository.PaymentStore.UpdateLink | paymentservice/src/main/java/com/paymentservice/entity/PaymentLink.java:62 | save of a loaded link stores its state unchanged, since the entity has no update hook |
| TransactionService.TransactionFromRequest | paymentservice/src/main/java/com/paymentservice/service/TransactionService.java:28-46 | the built transaction carries the request's fields, status INITIATED, and currency and payment method from the request only when they are given |
| TransactionService.StatusUpdated | paymentservice/src/main/java/com/paymentservice/service/TransactionService.java:136-143 | the status is replaced; CAPTURED sets processedAt to now, any other status keeps it |
| TransactionService.Processed | paymentservice/src/main/java/com/paymentservice/service/TransactionService.java:129-130 | processing sets status CAPTURED and processedAt now |
| TransactionService.ProcessIsCaptureUpdate | paymentservice/src/main/java/com/paymentservice/service/TransactionService.java:121-146 | processing writes the same row as an update to CAPTURED |
| TransactionService.UpdateAcceptsAnyStatus | paymentservice/src/main/java/com/paymentservice/service/TransactionService.java:140 | every target status is reached with no transition check; repeating a non-CAPTURED update changes nothing |
| TransactionService.CreateTransaction | paymentservice/src/main/java/com/paymentservice/service/TransactionService.java:28-50 | the request's transaction is inserted with onCreate run under the next id; a taken reference fails and stores nothing; links are untouched |
| TransactionService.GetTransactionById | paymentservice/src/main/java/com/paymentservice/service/TransactionService.java:53-57 | the stored row, or "Transaction not found with id: " + id |
| TransactionService.GetTransactionByReference | paymentservice/src/main/java/com/paymentservice/service/TransactionService.java:150-154 | the unique row with the reference, or "Transaction not found with reference: " + ref |
| TransactionService.ProcessTransaction | paymentservice/src/main/java/com/paymentservice/service/TransactionService.java:121-133 | an unknown id or a status other than INITIATED fails and changes nothing; otherwise the row becomes Processed and touched at now |
| TransactionService.UpdateTransactionStatus | paymentservice/src/main/java/com/paymentservice/service/TransactionService.java:136-147 | an unknown id fails and changes nothing; otherwise the row becomes StatusUpdated and touched at now |
| PaymentLinkService.LinkTransaction | paymentservice/src/main/java/com/paymentservice/service/PaymentLinkService.java:38-53 | the link's transaction is INITIATED, customer SYSTEM_GENERATED, CREDIT/VISA, method "Pending", with the request's invoice, email, amount, and currency when given |
| PaymentLinkService.LinkFromRequest | paymentservice/src/main/java/com/paymentservice/service/PaymentLinkService.java:58-73 | the link is ACTIVE, names the transaction's id, and takes currency and expiry from the request only when given |
| PaymentLinkService.CreatedLinkExpiry | paymentservice/src/main/java/com/paymentservice/service/PaymentLinkService.java:67-75 | a created link's expiry is the request's, or now + 7 days when the request has none |
| PaymentLinkService.StoredStatusUpdate | paymentservice/src/main/java/com/paymentservice/service/TransactionService.java:136-146 | the stored effect of updateTransactionStatus: the status set and updatedAt now |
| PaymentLinkService.CreatePaymentLink | paymentservice/src/main/java/com/paymentservice/service/PaymentLinkService.java:36-77 | the INITIATED transaction is stored under the next transaction id and the ACTIVE link under the next link id pointing at it; a taken reference or link id makes its save fail |
| PaymentLinkService.SaveLinkFor | paymentservice/src/main/java/com/paymentservice/service/PaymentLinkService.java:58-76 | the link built from the request for the saved transaction is stored under the next link id, or the save fails on a taken link id; transactions are untouched |
| PaymentLinkService.GetPaymentLinkById | paymentservice/src/main/java/com/paymentservice/service/PaymentLinkService.java:80-84 | the unique link with that link id, or the not-found error |
| PaymentLinkService.ProcessPaymentLink | paymentservice/src/main/java/com/paymentservice/service/PaymentLinkService.java:118-141 | unknown or non-ACTIVE fails with nothing changed; an ACTIVE link past its expiry is written EXPIRED and the call fails with the transaction untouched; otherwise the link becomes USED and its transaction CAPTURED |
| PaymentLinkService.CancelPaymentLink | paymentservice/src/main/java/com/paymentservice/service/PaymentLinkService.java:143-158 | unknown or USED fails with nothing changed; any other status becomes CANCELLED and so does its transaction |
| PaymentLinkService.ExpiredActiveKeys | paymentservice/src/main/java/com/paymentservice/service/PaymentLinkService.java:162-164 | exactly the ACTIVE links whose expiry is before now |
| PaymentLinkService.ExpireLinks | paymentservice/src/main/java/com/paymentservice/service/PaymentLinkService.java:167-168 | the selected links become EXPIRED and the others are unchanged |
| PaymentLinkService.FailTransactions | paymentservice/src/main/java/com/paymentservice/service/PaymentLinkService.java:171 | the target transactions become FAILED and the others are unchanged |
| PaymentLinkService.ExpireLinksExact | paymentservice/src/main/java/com/paymentservice/service/PaymentLinkService.java:160-173 | after expiry every selected link is EXPIRED, every unselected link is as it was, and no ACTIVE link past its expiry remains |
| PaymentLinkService.FailTransactionsExact | paymentservice/src/main/java/com/paymentservice/service/PaymentLinkService.java:171 | exactly the targets fail, and processedAt is kept |
| PaymentLinkService.StoredFailIdempotent | paymentservice/src/main/java/com/paymentservice/service/PaymentLinkService.java:171 | failing a transaction twice at one instant equals failing it once, so two links sharing a transaction are harmless |
| PaymentLinkService.ExpireOne | paymentservice/src/main/java/com/paymentservice/service/PaymentLinkService.java:166-172 | one loop iteration: the link is saved EXPIRED and its transaction FAILED, or a missing transaction fails the call |
| PaymentLinkService.ExpireOldLinks | paymentservice/src/main/java/com/paymentservice/service/PaymentLinkService.java:160-173 | succeeds iff every selected link's transaction exists, and then the links are ExpireLinks and the transactions FailTransactions of the selection; a failure is a missing transaction |
| PartEntity.NewPart | partservice/src/main/java/com/partservice/model/Part.java:75-77 | a new part has quantity 0, isOem false and createdAt now, with id, updatedAt, part number, name, category, brand and price null |
| PartEntity.NewPartWith | partservice/src/main/java/com/partservice/model/Part.java:79-86 | the five-argument constructor sets its five fields over the defaults |
| PartEntity.PreUpdated | partservice/src/main/java/com/partservice/model/Part.java:88-91 | preUpdate moves only updatedAt |
| PartEntity.PartViolations | partservice/src/main/java/com/partservice/model/Part.java:16-42 | no violation iff part number, name, category and brand are non-null and not blank after `trim()`, price is at least 0.01 and quantity is not negative |
| PartEntity.ConstructedPartValid | partservice/src/main/java/com/partservice/model/Part.java:79-86 | a part built with non-blank names and a price of at least 0.01 is valid |
| PartEntity.Part.constructor | partservice/src/main/java/com/partservice/model/Part.java:75-77 | the object's state is `NewPart(now)` |
| PartEntity.Part.With | partservice/src/main/java/com/partservice/model/Part.java:79-86 | the object's state is `NewPartWith` of its arguments |
| PartEntity.Part.Load | partservice/src/main/java/com/partservice/model/Part.java:10-72 | an entity loaded from a row holds exactly that row |
| PartEntity.Part.PreUpdate | partservice/src/main/java/com/partservice/model/Part.java:88-91 | the new state is `PreUpdated` of the old one |
| PartEntity.Part.SetQuantityInStock | partservice/src/main/java/com/partservice/model/Part.java:154-156 | the quantity is replaced, with no sign check |
| PartRepository.FindByPartNumber | partservice/src/main/java/com/partservice/repository/PartRepository.java:16 | exactly the parts with that part number |
| PartRepository.FindByCategory | partservice/src/main/java/com/partservice/repository/PartRepository.java:18 | exactly the parts in that category |
| PartRepository.FindByBrand | partservice/src/main/java/com/partservice/repository/PartRepository.java:20 | exactly the parts of that brand |
| PartRepository.SearchByTerm | partservice/src/main/java/com/partservice/repository/PartRepository.java:22-23 | exactly the parts whose name, description or part number contains the term |
| PartRepository.FindByPriceRange | partservice/src/main/java/com/partservice/repository/PartRepository.java:25-26 | exactly the parts priced within [min, max] |
| PartRepository.FindLowStockParts | partservice/src/main/java/com/partservice/repository/PartRepository.java:28-29 | exactly the parts with quantity at most the threshold |
| PartRepository.FindOutOfStockParts | partservice/src/main/java/com/partservice/repository/PartRepository.java:31-32 | exactly the parts with quantity 0 |
| PartRepository.FindByCompatibleVehicle | partservice/src/main/java/com/partservice/repository/PartRepository.java:40-41 | exactly the parts whose compatible vehicles contain the text |
| PartRepository.FindByOemStatus | partservice/src/main/java/com/partservice/repository/PartRepository.java:43-44 | exactly the parts with that OEM flag |
| PartRepository.FindDistinctCategories | partservice/src/main/java/com/partservice/repository/PartRepository.java:34-35 | strictly ascending, so duplicate-free, and holding exactly the categories present |
| PartRepository.FindDistinctBrands | partservice/src/main/java/com/partservice/repository/PartRepository.java:37-38 | strictly ascending, so duplicate-free, and holding exactly the brands present |
| PartRepository.CategoryListedIffPresent | partservice/src/main/java/com/partservice/repository/PartRepository.java:34-35 | a category is listed iff some part has it |
| PartRepository.BrandListedIffPresent | partservice/src/main/java/com/partservice/repository/PartRepository.java:37-38 | a brand is listed iff some part has it |
| PartRepository.OutOfStockIsLowStock | partservice/src/main/java/com/partservice/repository/PartRepository.java:28-32 | for any threshold of 0 or more, the out-of-stock parts are among the low-stock parts |
| PartRepository.PriceRangeInclusive | partservice/src/main/java/com/partservice/repository/PartRepository.java:25-26 | both price bounds are included |
| PartRepository.SearchFindsExactMatch | partservice/src/main/java/com/partservice/repository/PartRepository.java:22-23 | a part whose name, description or number is the term itself is found |
| PartRepository.OemAndAftermarketDisjoint | partservice/src/main/java/com/partservice/service/PartService.java:101-107 | the OEM and aftermarket lists share no part |
| PartRepository.PartNumberFindsAtMostOne | partservice/src/main/java/com/partservice/model/Part.java:17-18 | with the unique part number column findByPartNumber returns at most one part |
| PartRepository.PartStore.constructor | partservice/src/main/java/com/partservice/repository/PartRepository.java:14 | the table starts empty and the store invariant holds |
| PartRepository.PartStore.Save | partservice/src/main/java/com/partservice/model/Part.java:88-91 | save of a stored id replaces the row with preUpdate run; a new id inserts the row as given; a null id, or a part number taken by another row, fails with nothing changed |
| PartRepository.PartStore.Delete | partservice/src/main/java/com/partservice/service/PartService.java:59-62 | the row is removed and nothing else changes |
| PartService.GetPartById | partservice/src/main/java/com/partservice/service/PartService.java:23-26 | the stored row, or "Part not found with id: " + id |
| PartService.GetPartByPartNumber | partservice/src/main/java/com/partservice/service/PartService.java:28-31 | the unique row with that number, or "Part not found with part number: " + number |
| PartService.CreatePart | partservice/src/main/java/com/partservice/service/PartService.java:33-35 | createPart is a plain save |
| PartService.CopyDetails | partservice/src/main/java/com/partservice/service/PartService.java:40-54 | the fifteen business fields come from the details; id, createdAt and updatedAt are kept |
| PartService.CopyDetailsIdempotent | partservice/src/main/java/com/partservice/service/PartService.java:40-54 | copying a part's own details changes nothing, and a second copy of the same details changes nothing |
| PartService.CopyDetailsIgnoresOldFields | partservice/src/main/java/com/partservice/service/PartService.java:40-54 | two stored parts with the same id and timestamps end up equal after the same update |
| PartService.UpdatePart | partservice/src/main/java/com/partservice/service/PartService.java:37-57 | an unknown id fails and changes nothing; otherwise the saved row is CopyDetails of the stored one |
| PartService.DeletePart | partservice/src/main/java/com/partservice/service/PartService.java:59-63 | an unknown id fails and changes nothing; otherwise exactly that row is removed |
| PartService.SamePartNumberNotTaken | partservice/src/main/java/com/partservice/repository/PartRepository.java:16 | a stored part's own number is never taken elsewhere in a table with unique numbers |
| PartService.UpdateStock | partservice/src/main/java/com/partservice/service/PartService.java:110-114 | an unknown id fails; otherwise only the quantity (any value) and updatedAt change |
| PartService.AdjustedAsWritten | partservice/src/main/java/com/partservice/service/PartService.java:116-121 | the adjustment as written: the int sum wraps, and a negative wrapped sum is rejected |
| PartService.AdjustWrapsAround | partservice/src/main/java/com/partservice/service/PartService.java:118-119 | as written, stock 2147483647 plus 1 is rejected as negative, and a stock of -10 (already outside `@Min(0)`) plus the int minimum is accepted as 2147483638 |
| PartService.Adjusted | partservice/src/main/java/com/partservice/service/PartService.java:116-121 | the intended adjustment: the exact sum, rejected iff below 0 or above the int maximum |
| PartService.AdjustedIsMonotone | partservice/src/main/java/com/partservice/service/PartService.java:116-121 | an accepted negative adjustment lowers the stock and an accepted non-negative one never lowers it; without overflow the intended and as-written sums agree |
| PartService.AdjustStock | partservice/src/main/java/com/partservice/service/PartService.java:116-124 | an unknown id, a null value or a rejected sum fails and changes nothing; otherwise the stock becomes old + adjustment |
| PartService.AdjustKeepsOtherFields | partservice/src/main/java/com/partservice/service/PartService.java:118-123 | a successful adjustment leaves stock old + adjustment, at least 0, and every field besides quantity and updatedAt unchanged |
| PartService.CheckAvailability | partservice/src/main/java/com/partservice/service/PartService.java:126-129 | true iff the stock is at least the required quantity; an unknown id or null value fails; nothing changes |
| RepairOrderEntity.NewRepairOrder | roservice/src/main/java/com/roservice/entity/RepairOrder.java:61-64 | a new order has an empty part list and every other field null |
| RepairOrderEntity.PartsOrEmpty | roservice/src/main/java/com/roservice/entity/RepairOrder.java:145-147 | a null list becomes the empty list; any other list is kept |
| RepairOrderEntity.WithoutPart | roservice/src/main/java/com/roservice/entity/RepairOrder.java:157-161 | the kept parts are exactly the parts without that number, and none of them has it |
| RepairOrderEntity.WithoutPartKeepsOrder | roservice/src/main/java/com/roservice/entity/RepairOrder.java:157-161 | removal distributes over concatenation, so the kept parts stay in order |
| RepairOrderEntity.WithoutPartCount | roservice/src/main/java/com/roservice/entity/RepairOrder.java:157-161 | kept parts plus removed matches account for every part |
| RepairOrderEntity.WithoutPartNoMatch | roservice/src/main/java/com/roservice/entity/RepairOrder.java:157-161 | removal with no matching part leaves the list unchanged |
| RepairOrderEntity.WithoutPartIdempotent | roservice/src/main/java/com/roservice/entity/RepairOrder.java:157-161 | removing the same number twice equals removing it once |
| RepairOrderEntity.RepairOrder.constructor | roservice/src/main/java/com/roservice/entity/RepairOrder.java:64 | the object's state is `NewRepairOrder()` |
| RepairOrderEntity.RepairOrder.With | roservice/src/main/java/com/roservice/entity/RepairOrder.java:66-74 | the five-argument constructor stores its arguments and starts with no parts |
| RepairOrderEntity.RepairOrder.Load | roservice/src/main/java/com/roservice/entity/RepairOrder.java:24-61 | an entity loaded from a row holds exactly that row |
| RepairOrderEntity.RepairOrder.SetParts | roservice/src/main/java/com/roservice/entity/RepairOrder.java:145-147 | the parts become `PartsOrEmpty` of the argument, so they are never null |
| RepairOrderEntity.RepairOrder.AddPart | roservice/src/main/java/com/roservice/entity/RepairOrder.java:150-155 | the part is appended at the end |
| RepairOrderEntity.RepairOrder.RemovePart | roservice/src/main/java/com/roservice/entity/RepairOrder.java:157-161 | succeeds iff no stored part has a null number, and then the parts become `WithoutPart` of the number; a null number removes nothing, because `equals(null)` is false; a failure changes nothing |
| RepairOrderRepository.FindByRoNumber | roservice/src/main/java/com/roservice/repository/RepairOrderRepository.java:17 | exactly the orders with that number, a null number matching null |
| RepairOrderRepository.FindByStatus | roservice/src/main/java/com/roservice/repository/RepairOrderRepository.java:20 | exactly the orders with that status |
| RepairOrderRepository.FindByTechnicianId | roservice/src/main/java/com/roservice/repository/RepairOrderRepository.java:23-24 | exactly the orders whose technician details hold that id |
| RepairOrderRepository.FindByVehicleVin | roservice/src/main/java/com/roservice/repository/RepairOrderRepository.java:27-28 | exactly the orders whose vehicle has that VIN |
| RepairOrderRepository.FindByVehicleMakeAndModel | roservice/src/main/java/com/roservice/repository/RepairOrderRepository.java:31-32 | exactly the orders whose vehicle has both the make and the model |
| RepairOrderRepository.FindByJobCategory | roservice/src/main/java/com/roservice/repository/RepairOrderRepository.java:35-36 | exactly the orders whose job has that category |
| RepairOrderRepository.FindByEstimatedHoursGreaterThan | roservice/src/main/java/com/roservice/repository/RepairOrderRepository.java:39-40 | exactly the orders whose estimated hours are strictly greater |
| RepairOrderRepository.FindByVehicleYearRange | roservice/src/main/java/com/roservice/repository/RepairOrderRepository.java:43-44 | exactly the orders whose vehicle year lies in [start, end] |
| RepairOrderRepository.ExistsIffFound | roservice/src/main/java/com/roservice/repository/RepairOrderRepository.java:47 | existsByRoNumber holds iff findByRoNumber finds a row |
| RepairOrderRepository.CountIsFoundSize | roservice/src/main/java/com/roservice/repository/RepairOrderRepository.java:50-51 | countByStatus is the number of orders findByStatus returns |
| RepairOrderRepository.YearRangeInclusive | roservice/src/main/java/com/roservice/repository/RepairOrderRepository.java:43-44 | both ends of the year range are included |
| RepairOrderRepository.MakeAndModelBothRequired | roservice/src/main/java/com/roservice/repository/RepairOrderRepository.java:31-32 | the right make with another model is not found |
| RepairOrderRepository.RoNumberFindsAtMostOne | roservice/src/main/java/com/roservice/entity/RepairOrder.java:28-30 | with the unique number column findByRoNumber returns at most one order |
| RepairOrderRepository.Inserted | roservice/src/main/java/com/roservice/entity/RepairOrder.java:20-22 | an inserted row gets the identity id and both timestamps now, with everything else kept |
| RepairOrderRepository.Updated | roservice/src/main/java/com/roservice/entity/RepairOrder.java:36-42 | an updated row gets updatedAt now and keeps the stored createdAt (`updatable = false`); every other field is the entity's |
| RepairOrderRepository.RoStore.constructor | roservice/src/main/java/com/roservice/repository/RepairOrderRepository.java:14 | the table starts empty and the store invariant holds |
| RepairOrderRepository.RoStore.Save | roservice/src/main/java/com/roservice/entity/RepairOrder.java:20-30 | a number held by another row fails with nothing changed; a stored id is updated; anything else is inserted under the next identity value |
| RepairOrderRepository.RoStore.LookupRoNumber | roservice/src/main/java/com/roservice/repository/RepairOrderRepository.java:17 | no key iff no order has the number; otherwise the unique key holding it |
| RepairOrderRepository.RoStore.Delete | roservice/src/main/java/com/roservice/service/RepairOrderService.java:91 | the row is removed and nothing else changes |
| RepairOrderService.CreatedOrder | roservice/src/main/java/com/roservice/service/RepairOrderService.java:36-44 | the new order takes the request's fields, status CREATED when none is given, a null part list as empty, and both timestamps now |
| RepairOrderService.CreateRepairOrder | roservice/src/main/java/com/roservice/service/RepairOrderService.java:30-48 | an existing number fails with "Repair order with number X already exists" and stores nothing; otherwise the created order is inserted under the next id |
| RepairOrderService.CreatedOrderIsFound | roservice/src/main/java/com/roservice/service/RepairOrderService.java:30-48 | after a creation the number's finder returns the new order and the number exists |
| RepairOrderService.GetRepairOrderById | roservice/src/main/java/com/roservice/service/RepairOrderService.java:52-56 | the stored row, or "Repair order not found with id: " + id |
| RepairOrderService.GetRepairOrderByNumber | roservice/src/main/java/com/roservice/service/RepairOrderService.java:60-64 | the unique row with the number, or the not-found message |
| RepairOrderService.UpdatedFields | roservice/src/main/java/com/roservice/service/RepairOrderService.java:184-201 | every non-null request field replaces the stored one, a null field keeps it, updatedAt is now, and id, number and createdAt are kept |
| RepairOrderService.EmptyUpdateOnlyTouches | roservice/src/main/java/com/roservice/service/RepairOrderService.java:184-201 | an all-null request changes only updatedAt |
| RepairOrderService.UpdateIdempotent | roservice/src/main/java/com/roservice/service/RepairOrderService.java:184-201 | applying the same request twice equals applying it once at the later time |
| RepairOrderService.FullUpdateIgnoresStoredFields | roservice/src/main/java/com/roservice/service/RepairOrderService.java:184-201 | a request with every field set decides those fields whatever was stored |
| RepairOrderService.UpdateRepairOrderFields | roservice/src/main/java/com/roservice/service/RepairOrderService.java:184-201 | the entity's new state is `UpdatedFields` of its old state |
| RepairOrderService.StoredNumberNotTaken | roservice/src/main/java/com/roservice/entity/RepairOrder.java:28-30 | a stored order's own number is not taken elsewhere, so re-saving it cannot hit the unique constraint |
| RepairOrderService.UpdateStored | roservice/src/main/java/com/roservice/service/RepairOrderService.java:70-73 | the stored row at k becomes `UpdatedFields` of itself, and nothing else changes |
| RepairOrderService.UpdateRepairOrder | roservice/src/main/java/com/roservice/service/RepairOrderService.java:67-74 | an unknown id fails and changes nothing; otherwise the row is updated as `UpdatedFields` |
| RepairOrderService.UpdateRepairOrderByNumber | roservice/src/main/java/com/roservice/service/RepairOrderService.java:77-84 | an unknown number fails and changes nothing; otherwise the numbered row is updated as `UpdatedFields` |
| RepairOrderService.DeleteRepairOrder | roservice/src/main/java/com/roservice/service/RepairOrderService.java:87-92 | an unknown id fails and changes nothing; otherwise exactly that row is removed |
| RepairOrderService.DeleteRepairOrderByNumber | roservice/src/main/java/com/roservice/service/RepairOrderService.java:95-99 | an unknown number fails and changes nothing; otherwise exactly that order is removed |
| RepairOrderService.WithAddedPart | roservice/src/main/java/com/roservice/service/RepairOrderService.java:149-156 | the part is appended at the end, earlier parts stay in order, and updatedAt is now |
| RepairOrderService.AddPartsInOrder | roservice/src/main/java/com/roservice/service/RepairOrderService.java:149-156 | adding two parts one after the other appends both in that order |
| RepairOrderService.AddPartToRepairOrder | roservice/src/main/java/com/roservice/service/RepairOrderService.java:145-158 | an unknown RO number fails and changes nothing; otherwise the numbered row becomes `WithAddedPart` |
| RepairOrderService.WithStatus | roservice/src/main/java/com/roservice/service/RepairOrderService.java:165-167 | only status and updatedAt change |
| RepairOrderService.StatusIsPartialUpdate | roservice/src/main/java/com/roservice/service/RepairOrderService.java:161-201 | a status change equals a partial update carrying only the status |
| RepairOrderService.UpdateStatus | roservice/src/main/java/com/roservice/service/RepairOrderService.java:161-170 | an unknown RO number fails and changes nothing; otherwise the numbered row becomes `WithStatus` |
| RepairOrderService.RepairOrderStatsOf | roservice/src/main/java/com/roservice/service/RepairOrderService.java:174-181 | the total is the number of orders, and each status count is the number of orders findByStatus returns |
| RepairOrderService.StatusCountsBounded | roservice/src/main/java/com/roservice/service/RepairOrderService.java:174-181 | the three counts add up to at most the total, and to exactly the total when no order has a null status |
| TenantContexts.NewTenantContext | partservice/src/main/java/com/partservice/model/TenantContext.java:13-18 | the ids are stored as given; a null locale becomes "en-US" and any other locale is kept |
| TenantContexts.StringEquals | partservice/src/main/java/com/partservice/model/TenantContext.java:52-55 | `String.equals` on a null receiver throws; otherwise it is true iff the strings are equal |
| TenantContexts.ContextEquals | partservice/src/main/java/com/partservice/model/TenantContext.java:46-57 | with all ids present, equals holds iff the four fields are equal; it never reports equal contexts that differ |
| TenantContexts.StringHash | partservice/src/main/java/com/partservice/model/TenantContext.java:62-65 | a string's hash is `31 * h + c` in int arithmetic, so it stays an int |
| TenantContexts.ContextHash | partservice/src/main/java/com/partservice/model/TenantContext.java:59-66 | hashCode succeeds iff all ids are present, and then it is an int |
| TenantContexts.EqualsReflexiveSymmetric | partservice/src/main/java/com/partservice/model/TenantContext.java:46-57 | equals is reflexive and symmetric on contexts with all ids |
| TenantContexts.EqualsImpliesSameHash | partservice/src/main/java/com/partservice/model/TenantContext.java:46-66 | contexts that compare equal have the same hash code |
| TenantContexts.BuiltContextsEqualIff | partservice/src/main/java/com/partservice/model/TenantContext.java:13-57 | contexts built from validated headers are equal iff the ids and the defaulted locales agree |
| TenantContexts.DefaultLocaleIsExplicitEnUs | roservice/src/main/java/com/roservice/model/TenantContext.java:12-17 | a missing locale builds the same context as an explicit "en-US" |
| ContextProviders.TenantIdOf | partservice/src/main/java/com/partservice/config/ContextProvider.java:34-37 | the tenant id of the context, or null without one |
| ContextProviders.DealerIdOf | partservice/src/main/java/com/partservice/config/ContextProvider.java:43-46 | the dealer id of the context, or null without one |
| ContextProviders.UserIdOf | partservice/src/main/java/com/partservice/config/ContextProvider.java:52-55 | the user id of the context, or null without one |
| ContextProviders.LocaleOf | partservice/src/main/java/com/partservice/config/ContextProvider.java:61-64 | the locale of the context, or "en-US" without one |
| ContextProviders.LocaleAlwaysKnown | roservice/src/main/java/com/roservice/config/ContextProvider.java:55-82 | the locale getter never yields null: it is the given locale, or "en-US" |
| ContextProviders.PartContextSlot.constructor | partservice/src/main/java/com/partservice/config/ContextProvider.java:12-13 | a thread starts without a context |
| ContextProviders.PartContextSlot.SetContext | partservice/src/main/java/com/partservice/config/ContextProvider.java:18-20 | the slot holds exactly the given value, null included |
| ContextProviders.PartContextSlot.ClearContext | partservice/src/main/java/com/partservice/config/ContextProvider.java:70-72 | afterwards there is no context |
| ContextProviders.RoContextSlot.constructor | roservice/src/main/java/com/roservice/config/ContextProvider.java:12-13 | a thread starts without a context |
| ContextProviders.RoContextSlot.SetContext | roservice/src/main/java/com/roservice/config/ContextProvider.java:18-25 | a non-null context is stored; null keeps the previous context |
| ContextProviders.RoContextSlot.ClearContext | roservice/src/main/java/com/roservice/config/ContextProvider.java:44-50 | afterwards there is no context, whether or not there was one |
| MultitenancyFilters.RedundantPatterns | partservice/src/main/java/com/partservice/filter/MultitenancyFilter.java:84-95 | the part-service health suffix and several substrings are implied by shorter ones in the list |
| MultitenancyFilters.SubstringExclusionIsCore | partservice/src/main/java/com/partservice/filter/MultitenancyFilter.java:84-95 | the nine-substring test is equivalent to the six core substrings |
| MultitenancyFilters.ExcludedPathsAgree | roservice/src/main/java/com/roservice/filter/MultitenancyFilter.java:76-87 | both services exclude exactly the same URIs: any URI containing "/health" and the documentation paths |
| MultitenancyFilters.ValidatePartHeaders | partservice/src/main/java/com/partservice/filter/MultitenancyFilter.java:100-123 | null iff all three headers are non-blank after trim and at most 50 long; otherwise the first failing check in the order tenant, dealer, user missing, then tenant, dealer, user too long |
| MultitenancyFilters.LengthLimitIsInclusive | partservice/src/main/java/com/partservice/filter/MultitenancyFilter.java:35 | a 50-character header passes and a 51-character header fails |
| MultitenancyFilters.Valid | roservice/src/main/java/com/roservice/filter/MultitenancyFilter.java:136-138 | a valid result carries a null message |
| MultitenancyFilters.Invalid | roservice/src/main/java/com/roservice/filter/MultitenancyFilter.java:140-142 | an invalid result carries the given message |
| MultitenancyFilters.ValidateRoHeaders | roservice/src/main/java/com/roservice/filter/MultitenancyFilter.java:89-108 | valid iff all three headers have text and are at most 50 long; otherwise the first missing header in the order tenant, dealer, user, then the one combined length message |
| MultitenancyFilters.BlankNotionsAgree | roservice/src/main/java/com/roservice/filter/MultitenancyFilter.java:91-99 | on printable ASCII text, blank after `trim()` and no text for `hasText` coincide |
| MultitenancyFilters.ValidatorsAgreeOnPrintable | roservice/src/main/java/com/roservice/filter/MultitenancyFilter.java:89-108 | on printable ASCII headers the two services accept exactly the same requests |
| MultitenancyFilters.ValidatorsDisagree | partservice/src/main/java/com/partservice/filter/MultitenancyFilter.java:101-103 | a NUL-only tenant id is missing for the part service but accepted by the repair-order service, and an em-space id the other way round |
| MultitenancyFilters.PartFilterOutcome | partservice/src/main/java/com/partservice/filter/MultitenancyFilter.java:40-79 | an excluded path runs the chain with the prior context; invalid headers send 400/MT001 without the chain; valid headers run the chain with the context built from the four headers |
| MultitenancyFilters.RoFilterOutcome | roservice/src/main/java/com/roservice/filter/MultitenancyFilter.java:30-74 | the same decision skeleton with the repair-order exclusion list and validator |
| MultitenancyFilters.ChainContextIsValidated | partservice/src/main/java/com/partservice/filter/MultitenancyFilter.java:60-74 | on a non-excluded path the chain only ever sees a context whose tenant, dealer and user ids are all non-blank after trim and at most 50 long |
| MultitenancyFilters.PartDoFilter | partservice/src/main/java/com/partservice/filter/MultitenancyFilter.java:40-79 | the outcome is `PartFilterOutcome` and the slot is empty on every exit |
| MultitenancyFilters.RoDoFilter | roservice/src/main/java/com/roservice/filter/MultitenancyFilter.java:30-74 | the outcome is `RoFilterOutcome` and the slot is empty on every exit |

## Left out

- **Language models and tools.** `Runner.run`, the MCP server connection, authentication retries, streaming and the wall-clock loops of the trading agent, and `execute_multi_domain_workflow` call external services. Agent runs and quote fetches are oracle parameters. `input()`, `print` and tracing are I/O and are not modelled.
- Handoff.Converse: the `Runner` oracle is total and every run adds at least its final output item to the history. Termination of the inner loop and the bound of `ConversationRunsBounded` rest on that. Exceptions that `Runner.run` raises (such as the SDK's `MaxTurnsExceeded`, which would end `main`) are not modelled.
- **No scheduler.** The automotive demo has no code that executes a plan. The model states well-formedness predicates about the two literal plans and does not invent an executor.
- **Dead and float code.** The unreachable lines after `get_part_by_number`'s return, and the float totals of `add_part_to_repair_order`, are not modelled.
- **Text handling.** Python's `upper()`/`lower()` and Java's `toUpperCase` are modelled on ASCII letters only. The regular-expression class `\s` is modelled by the characters `str.isspace` accepts in ASCII plus the common Unicode spaces.
- **TradingAgent.FilterSymbolData:** the parsed JSON is an abstract `Json` value. A top-level JSON value that is not an object is treated as unparsable and falls back to the text test.
- **Strings and hashing.** Java `String.length()` and `hashCode()` count UTF-16 code units. The model counts code points, which agree for text in the Basic Multilingual Plane.
- **Rollback.** `@Transactional` rollback is framework behaviour. The model keeps every write made before a throw. So the EXPIRED write in `processPaymentLink` and the partial effects of `expireOldLinks`, `createPaymentLink` and the other services stay as written.
- PaymentLinkService.ExpireOldLinks: when a later link's transaction is missing, the writes made by earlier iterations are not described beyond the failure result. The success case is stated fully; the failure only by its error kind.
- **Hibernate lifecycle.** `@PreUpdate` and `@UpdateTimestamp` are modelled as firing on every save of a loaded entity, dirty or not. Flush timing is modelled in one place only: `PaymentRepository.PaymentStore.UpdateTransaction` returns the transaction as it was before the flush, so the response carries the old updatedAt while the stored row carries the new one. Everywhere else the stored and returned rows are the state after the flush. Dirty checking and detached merges are not modelled. An entity whose id names no row is modelled as an insert.
- **Generated ids.** The "TXN_" and "LINK_" prefixes are modelled. Uniqueness of the generated values is not guaranteed by the code; a collision is modelled as the unique-constraint failure.
- **Bean Validation.** Validation runs at the controller (`@Valid`) and at flush. The model has the request and entity constraint predicates with their messages, but the stores do not reject a row that violates them. The `@Email` grammar is an abstract predicate parameter. NOT NULL columns other than the keys are not enforced.
- **Finder results.** A finder returns a sub-map; list order and `Page`/`Pageable` pagination are not modelled. The service getters that only forward to a finder (`getPaymentLinksByInvoiceId` and the like, `getAllParts`, `getPartsByCategory`, `getAllCategories`, ...) are covered by the finder they call.
- **Query collation.** `ORDER BY` in `findDistinctCategories`/`findDistinctBrands` is modelled as code-point order, and `DISTINCT` skips nulls. `LIKE` is modelled as a case-sensitive substring test that treats every character of the term literally. The `@Query` finders `searchByTerm` and `findByCompatibleVehicle` bind `%:term%` without escaping, so a `%` or `_` in the term acts as a wildcard there ("a_c" matches "abc"); the model does not capture that.
- **Enums.** The enum declarations are not part of this model. Their values are the ones the services and tests name.
- **Dead branch in `addPartToRepairOrder`.** The `List.of` branch at roservice/src/main/java/com/roservice/service/RepairOrderService.java:150 cannot run, because `setParts` never leaves the list null. The model has no null part list.
- **Timestamps in the repair-order service.** The service sets createdAt and updatedAt itself and Hibernate stamps them again. One `now` value stands for every clock reading of a call, so the two agree.
- **Tenant context equality.** `TenantContexts.ContextEquals` models `getClass()` and object identity by a `sameObject` flag. Subclasses do not exist in the source.
- **Threads.** The `ThreadLocal` slot is modelled as the slot of the one thread serving the request; cross-thread isolation is not modelled.
- **Servlet I/O.** `sendErrorResponse` is modelled as the status, error, message and code it writes. JSON formatting, the timestamp field and the response stream are left out.
- **Exceptions from the chain.** An exception thrown by the filter chain is not modelled; the `finally` clearing is.
- **Logging, configuration and controllers.** Logging, `DatabaseConfig` seeding, the OpenAPI configuration, the controllers' HTTP mapping and `PartListConverter` are left out.
- **PartService.AdjustStock:** the model uses the corrected sum. The as-written wrap-around is kept beside it as `PartService.AdjustedAsWritten` (see Findings).

## Findings

| source | as written | input that shows it | evidently intended | confidence | as-written member | corrected member |
|---|---|---|---|---|---|---|
| partservice/src/main/java/com/partservice/service/PartService.java:118-119 | `int newQuantity = part.getQuantityInStock() + adjustment` is 32-bit addition and wraps on overflow, and the `< 0` guard tests only the wrapped value | stock 2147483647 with adjustment 1 is rejected as "negative" (a stock any valid row can hold); the guard also lets a stock of -10 with adjustment -2147483648 wrap to 2147483638, but a stored stock of -10 already violates `@Min(0)`, which the flush-time check rejects | the exact sum, rejected when negative or beyond the column's int range (`Math.addExact`) | not executed | PartService.AdjustWrapsAround | PartService.AdjustedIsMonotone |
