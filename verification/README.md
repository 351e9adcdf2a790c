# CompliAgL: governed transactions, proofs, outbox, tenants, decisions and packages

CompliAgL decides whether an agent's transaction may go ahead, keeps the evidence of each decision,
and publishes the governance packages that decisions follow. This project models the backend's hard
core and proves what it promises, or exactly when it keeps the promise.

| part | modules |
|---|---|
| canonical JSON and the proof hash | `PyText`, `JsonText`, `Json`, `JsonRoundTrip`, `JsonCanonical`, `JsonGrammar`, `JsonValid`, `JsonAscii`, `ProofHash` |
| the fifteen-rule engine | `RuleEngine` |
| the transaction ledger: creation, evaluation, review, proofs, audit log | `Ledger` (the class `LedgerService`), `LedgerEvaluation`, `LedgerProofs`, `LedgerSpend`, `LedgerLimits`, `LedgerAudit` |
| the outbox and its dispatcher | `Outbox`, `Dispatcher` (classes) |
| tenant-scoped repositories | `Organizations`, `Tenant` (a class), `TenantIsolation`, `TenantPaging` |
| decision conditions and the two packages | `Expressions`, `ExpressionLemmas`, `ExpressionLaws`, `FactOrder`, `DecisionConditions`, `CirclePackage`, `HarborStonePackage` |
| durations | `Duration` |
| migrations | `Migration0012`, `Migration0008` (classes) |
| package lifecycle and boot seeds | `PackageRegistry` (a class), `PackageChain` |
| shared | `Wrappers`, `Decisions`, `Sorting` |

Code that changes state is a class whose methods are proved against a specification function of the
old state (`LedgerService.EvaluateTransaction` against `Ledger.Step`, `SeedPackage` against
`PackageRegistry.Booted`, and so on); what the system promises is then proved about that function
over every run. Code that computes is functions and lemmas.

## Where the code and its documentation differ

The model follows the code. These places are stated as lemmas:

- The daily-spend query counts ESCALATED transactions, which its docstring does not mention, and it
  counts the transaction under evaluation itself. A transaction is therefore admitted only if twice its
  amount fits, and at most `max_transactions_per_day - 1` transactions of a day are ever committed.
- Deactivating a policy clears `status`, while evaluation filters on `is_active`: no verdict changes.
- A review may approve a transaction that was DENIED, and an evaluation on a later day checks that later
  day's total: either can exceed the budget and the daily maximum. Exactly when is stated for both limits.
- `list_deliverable` returns one row when asked for none.
- The Circle package says that missing keys make it fail closed. A missing assurance claim is denied.
  Once assurance and identity are in order, though, the allowed actions, assets and networks and then the
  amount and the limit are consulted in that order, and the first that is missing before one refuses
  raises `TypeError` instead.
- The HarborStone package raises `TypeError` on a USD request whose amount is missing, unless something
  earlier decides.
- Under a NOT_SATISFIED assessment an approving condition is denied while an escalating one escalates.
- `PT` is read as a zero duration while `P` is refused; a duration that ends in `T` is accepted although
  ISO 8601 does not allow it.
- Downgrading migration 0012 moves every pilot row to the default organization, also those that were the
  pilot's before the upgrade.
- A boot leaves exactly one published version of its package only where there was at most one before.
- Primary keys are shared by all tenants, so a tenant can be kept from adding a row by another tenant that uses
  the identifier first. Adds and saves that keep their tenant disturb it in no other way.

## Assumptions

- Identifiers are parameters. Where a result needs new ones to be new (UUIDs), it says so.
- The clock, SHA-256, `datetime.isoformat` and `repr` of a float are parameters. Nothing is assumed of
  SHA-256; results about the hash name the collision that would break them. `repr` is assumed to give
  JSON number text.
- `ORDER BY` sorts nulls first on ascending columns, as SQLite does.
- Amounts are exact (`real`), instants are integers (microseconds in the ledger), and days are UTC days.

## Model

| member | source | states |
|---|---|---|
| JsonText.StringRoundTrip | backend/app/utils/hashing.py:13-16 | a string literal as `json.dumps` escapes it (section 7 of RFC 8259, ASCII output, surrogate pairs above U+FFFF) is read back as the string, whatever text follows it |
| JsonText.IntRoundTrip | backend/app/utils/hashing.py:13-16 | a whole number is read back as itself before any text that cannot continue a number |
| JsonText.FloatRoundTrip | backend/app/utils/hashing.py:13-16 | the same for a fractional number's text |
| JsonRoundTrip.LoadsPrint | backend/app/services/proof_service.py:45-57 | for every JSON-native value and for compact and spaced separators, loading what was dumped gives the value, members in the same order |
| JsonCanonical.DumpsInjective | backend/app/utils/hashing.py:13-16 | two payloads have the same canonical text if and only if they are equal as values: insertion order is irrelevant at every depth, and nothing else is |
| JsonCanonical.StoredTextReadsBack | backend/app/services/proof_service.py:45-57 | text stored by `json.dumps` loads as a value equal to the payload, and dumping that value gives the very same text |
| JsonGrammar.CanonAscends | backend/app/utils/hashing.py:13-16 | in every object that is written, at every depth, a key precedes the next by code point: it is a proper prefix, or smaller at the first difference |
| JsonGrammar.DumpsObject | backend/app/utils/hashing.py:13-16 | an object is written as its quoted keys and the canonical texts of their values, in that order, joined by `,` and `:` without blanks |
| JsonGrammar.DumpsArray | backend/app/utils/hashing.py:13-16 | an array is written as the canonical texts of its items, in their order |
| JsonGrammar.EscapeCharMeaning | backend/app/utils/hashing.py:13-16 | each character is written as a short escape, as itself if it is printable ASCII, or as its UTF-16 code units in lower-case hexadecimal |
| JsonGrammar.EscapeConcat | backend/app/utils/hashing.py:13-16 | a string is escaped character by character |
| JsonAscii.DumpsPrintable | backend/app/utils/hashing.py:8-16 | canonical text is printable ASCII whatever strings the payload holds, so the UTF-8 encoding that is hashed is the text itself |
| JsonValid.LoadsValid | backend/app/services/proof_service.py:45-57 | whatever text `json.loads` accepts, duplicate keys included, it returns a value with unique keys at every depth and well-formed numbers |
| JsonRoundTrip.LastValueWins | backend/app/services/proof_service.py:45-57 | an object text that repeats keys is read as each key once, with the value it was given last |
| ProofHash.BundleHashBinds | backend/app/utils/hashing.py:19-44 | equal bound fields give equal bundle hashes; equal hashes force all seven bound fields equal, or exhibit a SHA-256 collision |
| ProofHash.StoredProofVerifies | backend/app/services/proof_service.py:31-57 | parsing the stored context and reason texts and hashing again with the original timestamp string gives the stored hash |
| ProofHash.TamperingShows | backend/app/services/proof_service.py:31-57 | any row at all that keeps a bundle's hash and verifies, whatever its texts, has that bundle's seven fields, or exhibits a collision |
| ProofHash.HashedText | backend/app/utils/hashing.py:19-44 | the exact text that is hashed: the seven fields under their names in code-point order |
| RuleEngine.LowestFiringRule | backend/app/utils/rule_engine.py:34-237 | the reason code is that of the lowest-numbered rule that fires, the rules being read one by one and independently of each other |
| RuleEngine.LadderMeaning | backend/app/utils/rule_engine.py:34-237 | DENIED iff some denial rule fires, whatever the escalation rules say; ESCALATED iff none does and an escalation rule fires; APPROVED iff no rule fires |
| RuleEngine.ReasonDeterminesRest | backend/app/utils/rule_engine.py:240-254 | decision, risk level and `requires_approval` are determined by the reason code; the one LOW-risk case is an approval below the escalation threshold |
| RuleEngine.ListRulesMeaning | backend/app/utils/rule_engine.py:103-167 | the six list rules, which work on JSON text columns, are membership in the set of names the column holds |
| RuleEngine.ListRulesReadColumns | backend/app/utils/rule_engine.py:21-167 | a list rule applies exactly when the column holds the text of a JSON array, the name without the blanks around it is not empty, and it is, or is not, among the array's entries; an empty allow-list restricts nothing |
| RuleEngine.VerdictMonotone | backend/app/utils/rule_engine.py:103-237 | a larger positive amount, spend or count, a lower or new limit, a longer block-list or a shorter allow-list that still restricts never gives a less severe verdict |
| RuleEngine.EmptyAllowListLiftsRestriction | backend/app/utils/rule_engine.py:136-167 | why the allow-list must stay non-empty: emptying one turns a denial into an approval |
| RuleEngine.PolicyListRoundTrip | backend/app/utils/rule_engine.py:21-31 | a list of names as the policy service writes it is the list the engine reads |
| Ledger.LedgerService.constructor | backend/app/services/transaction_service.py:14-37 | a ledger starts with no transaction, proof, event or approval |
| Ledger.LedgerService.LogEvent | backend/app/services/audit_service.py:11-31 | appends one event and touches nothing else |
| Ledger.LedgerService.CreateProofBundle | backend/app/services/proof_service.py:13-61 | appends one proof, whose stored texts and hash are those of the bundle it was given |
| Ledger.LedgerService.CreateTransaction | backend/app/services/transaction_service.py:14-37 | appends one SUBMITTED transaction, or raises for an unknown agent or a taken id and changes nothing |
| Ledger.LedgerService.EvaluateTransaction | backend/app/services/evaluation_service.py:72-200 | the whole new ledger is `Step`'s: status, decision and time rewritten in place, one proof, one event; an unknown transaction is denied and changes nothing |
| LedgerEvaluation.VerdictReads | backend/app/services/evaluation_service.py:95-144 | the verdict is the rule engine's on the first row of the agent, the first policy row of the agent whose `is_active` flag is set, and the agent's amounts and transactions since midnight UTC |
| LedgerEvaluation.NoActivePolicyDenies | backend/app/services/evaluation_service.py:112-120 | if no policy row of an active agent has the flag set, the answer is DENIED with POLICY_NOT_FOUND |
| LedgerEvaluation.NoActiveAgentDenies | backend/app/services/evaluation_service.py:95-110 | an unknown or inactive agent is denied whatever its policies |
| LedgerEvaluation.LimitsApplied | backend/app/services/evaluation_service.py:112-158 | what is not denied keeps the amount, budget and daily limits of the first active policy row |
| LedgerEvaluation.AggregatesMeaning | backend/app/services/evaluation_service.py:39-69 | the two queries are the sum over the agent's transactions since midnight that were not denied, and the number of all of them |
| LedgerProofs.ContextTellsPolicy | backend/app/services/evaluation_service.py:72-170 | two evaluations store the same context text if and only if they applied the same policy terms, list columns and limits included, or both none |
| LedgerProofs.HashTellsEvaluation | backend/app/services/evaluation_service.py:146-184 | proofs with equal hashes are of the same transaction, decision, reason, time and policy terms, or exhibit a collision |
| Ledger.LedgerService.CreateApproval | backend/app/services/approval_service.py:12-40 | the whole new ledger is `Step`'s: the approval is stored and logged, and a transaction that exists takes the reviewed status |
| Ledger.LedgerService.DeactivatePolicy | backend/app/services/policy_service.py:86-94 | the whole new ledger is `Step`'s: one policy's status changes |
| LedgerSpend.SpendSafety | backend/app/services/evaluation_service.py:39-158 | from an empty ledger, any interleaving of creations, evaluations and re-evaluations on the creation day, reviews of escalated transactions and deactivations keeps every agent's committed total of every day within the budget and the committed count below the maximum |
| LedgerLimits.LimitHoldsThroughoutIff | backend/app/services/evaluation_service.py:39-158 | for any run at all, without the discipline, and for the budget and the daily maximum alike: the limit holds at every point if and only if each settlement fits its own day, or a rule or a human review denies it, checked just before it |
| LedgerLimits.StepKeepsLimitIff | backend/app/services/approval_service.py:12-24 | one call keeps a day limit everywhere if and only if the transaction it touches was committed already, or is denied by some rule or by a human review, or its creation day has room |
| LedgerSpend.SettleMovesSpend | backend/app/services/evaluation_service.py:146-158 | settling a transaction moves the committed total and count of its own agent and day by exactly its own share, and no other day's |
| LedgerSpend.BudgetCountsTheTransactionTwice | backend/app/services/evaluation_service.py:39-53 | the budget rule fires iff the day's other spend plus twice the transaction's amount exceeds the budget |
| LedgerSpend.DeactivationIsInvisible | backend/app/services/policy_service.py:86-94 | a deactivated policy gives the same verdict on every transaction |
| LedgerSpend.LateEvaluationOverspends | backend/app/services/evaluation_service.py:39-53 | a run in which an evaluation on the next day commits 110 against a budget of 100 |
| LedgerSpend.ReviewOfDeniedOverspends | backend/app/services/approval_service.py:12-24 | a run in which approving a denied transaction commits 150 against a budget of 100 |
| LedgerAudit.LogIsComplete | backend/app/services/audit_service.py:11-31 | after every run, replaying a transaction's events from SUBMITTED gives its status; it has one proof per logged evaluation; its latest proof carries its decision, reviews included |
| LedgerAudit.HistoryOnlyGrows | backend/app/services/audit_service.py:11-31 | events, proofs and approvals are only ever appended |
| LedgerAudit.OneProofPerEvaluation | backend/app/services/evaluation_service.py:146-184 | over every run a transaction gains exactly one proof per successful evaluation, and the log tells whether a review came last |
| LedgerAudit.StatusDiffersOnlyAfterReview | backend/app/services/approval_service.py:16-22 | a status that differs from the last decision was set by a review after the last evaluation |
| LedgerAudit.EveryProofVerifies | backend/app/services/proof_service.py:31-61 | after every run every stored proof re-verifies from its stored texts |
| LedgerAudit.EventTypes | backend/app/services/evaluation_service.py:172-184 | evaluation and review event types are told apart by their prefix, and each names the status it leaves |
| Outbox.EventDeliveryRepository.ListDeliverable | backend/app/repositories/canonical.py:938-1002 | returns the first rows of the eligible ones in (retry time nulls first, creation, id) order, or refuses the tenant; it is a read |
| Outbox.GateAndLimit | backend/app/repositories/canonical.py:992-1002 | the loop with its `continue` and `break` keeps, in order, the first candidates whose back-off gate has passed |
| Outbox.GateAfterSort | backend/app/repositories/canonical.py:967-1002 | filtering by the gate after sorting in SQL is sorting the rows that are eligible as documented |
| Outbox.RowOrderMeaning | backend/app/repositories/canonical.py:981-987 | a row without a retry time comes first, then the earlier retry time, the earlier creation, and the identifier that precedes by code point |
| Outbox.FirstDeliverableMeaning | backend/app/repositories/canonical.py:938-1002 | every returned row is eligible, the result is in order, and an eligible row is left out only when the limit is reached by rows at or before it |
| Outbox.LimitRespectedIff | backend/app/repositories/canonical.py:992-1002 | the limit is kept if and only if it is at least one or nothing is eligible |
| Outbox.OrderOfRowsIrrelevant | backend/app/repositories/canonical.py:938-1002 | the result does not depend on the physical order of the rows |
| Dispatcher.DispatchService.DispatchDelivery | backend/app/services/canonical/integration/dispatcher.py:77-108 | one attempt is added and the row becomes DELIVERED, FAILED with a gate, or DEAD_LETTER at the maximum; no other row changes |
| Dispatcher.SelectableAgainIff | backend/app/services/canonical/integration/dispatcher.py:77-108 | a rejected row with an attempt left is deliverable again from the instant that lies as many back-offs ahead as it has had attempts, and not before; an accepted or exhausted row never is |
| Dispatcher.DispatchService.DispatchPending | backend/app/services/canonical/integration/dispatcher.py:111-138 | the loop dispatches exactly the selected rows that are due and its summary counts them |
| Dispatcher.SweepSettles | backend/app/services/canonical/integration/dispatcher.py:111-138 | each selected row is settled by one attempt, at its own reading of the clock |
| Dispatcher.SweepLeaves | backend/app/services/canonical/integration/dispatcher.py:111-138 | a row that was not selected stays as it was |
| Dispatcher.SweepCounts | backend/app/services/canonical/integration/dispatcher.py:111-138 | the summary counts the rows accepted, rejected for now and rejected for good |
| Dispatcher.DispatchService.RetryDelivery | backend/app/services/canonical/integration/dispatcher.py:141-156 | a manual retry touches one row of the tenant, and not a delivered one |
| Dispatcher.SweepSpends | backend/app/services/canonical/integration/dispatcher.py:111-138 | a sweep spends at least one remaining attempt for each row it considers, and its summary adds up |
| Dispatcher.DispatchesBounded | backend/app/repositories/canonical.py:967-1002 | over any run of sweeps, dispatches made and attempts left together never exceed the attempts there were |
| Dispatcher.SomeSweepFindsNothing | backend/app/repositories/canonical.py:967-1002 | among more sweeps than attempts, one finds nothing to do |
| Dispatcher.EmptyIffExhausted | backend/app/repositories/canonical.py:967-1002 | with every gate passed, nothing is selected if and only if no open row of the tenant has an attempt left |
| Dispatcher.NeverOverAttempted | backend/app/utils/canonical_enums.py:677-689 | no run of sweeps takes a row past its maximum, changes a delivered or dead-lettered row, or changes a row's identity |
| Dispatcher.EveryRowSettles | backend/app/utils/canonical_enums.py:677-689 | a run of more sweeps than attempts, each with the gates passed, comes to a point where every row of the tenant is DELIVERED or DEAD_LETTER |
| Dispatcher.ManualRetryWithinBudgetIff | backend/app/services/canonical/integration/dispatcher.py:141-156 | a manual retry stays within the maximum if and only if the row was delivered or had an attempt left |
| Tenant.TenantRepository.Read | backend/app/repositories/canonical.py:62-98 | a scoped read gives one of the results its query may have, or refuses the tenant, and changes nothing |
| Tenant.AnsweredIff | backend/app/repositories/canonical.py:62-70 | a read is answered if and only if the tenant is named and registered as ACTIVE, and the error tells a missing name from a missing or inactive tenant |
| Tenant.TenantRepository.Insert | backend/app/repositories/canonical.py:101-108 | adds one row, or refuses an inactive tenant or a taken primary key and changes nothing |
| Tenant.AddTakesEffectIff | backend/app/repositories/canonical.py:101-108 | an add changes the table if and only if the row's tenant is registered as ACTIVE and its identifier is new |
| Tenant.TenantRepository.Persist | backend/app/repositories/canonical.py:110-114 | replaces the row with that identifier and no other |
| Tenant.SaveReplaces | backend/app/repositories/canonical.py:110-114 | a save replaces the row with its identifier in place and no other, and adds none |
| Tenant.ReadsSeeOwnRowsOnly | backend/app/repositories/canonical.py:53-98 | no filter, order or page tells apart two databases that agree on the tenant's rows and registry record |
| Tenant.AnswersAreOwn | backend/app/repositories/canonical.py:62-98 | every row handed to a tenant is its own and passes the filters |
| Tenant.LatestMeaning | backend/app/repositories/canonical.py:390-399 | a `latest_*` query gives nothing iff no row of the tenant matches, and otherwise one matching row than which none is newer |
| Tenant.FindOneMeaning | backend/app/repositories/canonical.py:93-98 | `find_one` gives nothing iff no row of the tenant matches, and otherwise one that does |
| Tenant.CountMeaning | backend/app/repositories/canonical.py:90-91 | `count` counts exactly the tenant's rows |
| Tenant.GetMeaning | backend/app/repositories/canonical.py:72-77 | `get` gives a row if and only if it has the identifier and is the tenant's |
| TenantIsolation.TenantNonInterference | backend/app/repositories/canonical.py:53-114 | after any run of adds and tenant-preserving saves in which no other tenant takes an identifier of the tenant first, every read of the tenant has exactly the results it would have had if no other tenant had done anything |
| TenantIsolation.TenantNonInterferenceIff | backend/app/repositories/canonical.py:53-114 | and only then: the reads agree at every point of the run if and only if no other tenant takes, during it, an identifier that the tenant goes on to use |
| TenantIsolation.ReusedIdentifierInterferes | backend/app/repositories/canonical.py:101-108 | the smallest such run: a reused identifier lets one tenant's add block another's |
| TenantPaging.PagingCompleteIff | backend/app/repositories/canonical.py:79-88 | whatever consecutive pages of `list`, or of a filtered listing, are answered, with ties ordered anew on each request, they hold every matching row once, if and only if no two rows created at the same instant straddle a page boundary |
| TenantPaging.PagesJoinInOrder | backend/app/repositories/canonical.py:79-88 | with distinct creation times whatever the page requests are answered joins up to the whole ordered listing |
| DecisionConditions.EvaluateConditions | backend/app/services/canonical/decision_service.py:82-126 | the loop over the sorted conditions finds what the recursive scan finds, or lets a `TypeError` escape |
| DecisionConditions.FirstMatchDecides | backend/app/services/canonical/decision_service.py:82-126 | for any list of terminal conditions with distinct keys, in any order, a condition decides if and only if it matches and every condition before it in key order is false |
| DecisionConditions.NothingMatchesIff | backend/app/services/canonical/decision_service.py:82-126 | nothing is selected if and only if every condition is false, in whatever order they are listed |
| DecisionConditions.RaisesIff | backend/app/services/canonical/decision_service.py:82-126 | `TypeError` escapes if and only if some condition is undefined while every one before it in key order is false |
| DecisionConditions.ListingOrderIrrelevant | backend/app/services/canonical/decision_service.py:92-99 | the order conditions are listed in changes nothing, terminal or not |
| DecisionConditions.KeyOrderMeaning | backend/app/services/canonical/decision_service.py:92-99 | conditions are ordered by the smaller priority, then by package and condition identifier, by code point |
| DecisionConditions.ScanMeaning | backend/app/services/canonical/decision_service.py:101-126 | terminal or not: the true conditions up to the first terminal true one are reported in order, and the last of them decides |
| DecisionConditions.MalformedIsIgnored | backend/app/services/canonical/decision_service.py:103-111 | a malformed condition has no effect, wherever it is listed |
| DecisionConditions.ApprovedIff | backend/app/services/canonical/decision_service.py:129-192 | APPROVED if and only if a policy applies, an approving condition decided, the assessment is SATISFIED and the authority state is known |
| DecisionConditions.DeniedIff | backend/app/services/canonical/decision_service.py:162-192 | DENIED if and only if no policy applies, a condition denies, the assessment is NOT_SATISFIED without an escalating condition, or it is SATISFIED and no condition matched |
| DecisionConditions.EscalatedIff | backend/app/services/canonical/decision_service.py:162-192 | ESCALATED if and only if a policy applies, no condition denies, and the assessment needs a human or could not be made, a condition escalates, or approval lacks a known authority state |
| DecisionConditions.ReasonOfAssessment | backend/app/services/canonical/decision_service.py:172-192 | the reason code of every answer that neither a missing policy nor a denying condition gives |
| DecisionConditions.DenialWins | backend/app/services/canonical/decision_service.py:168-170 | a denying condition denies whatever the assessment and the authority state |
| DecisionConditions.ResolveMonotoneIff | backend/app/services/canonical/decision_service.py:129-192 | a milder condition outcome gives a no more severe decision, except an approval in place of an escalation under NOT_SATISFIED |
| ExpressionLaws.ChainIsConjunction | backend/app/services/canonical/package_interpreter.py:75-86 | a chained comparison means the conjunction of its neighbouring pairs, errors and short-circuits included |
| ExpressionLaws.NotAndIsOrNot | backend/app/services/canonical/package_interpreter.py:56-74 | De Morgan's law holds, errors and short-circuits included |
| ExpressionLaws.FalseFacts | backend/app/services/canonical/package_interpreter.py:56-74 | exactly six facts count as false |
| ExpressionLaws.ListsCompareAt | backend/app/services/canonical/package_interpreter.py:24-33 | lists are compared at their first difference |
| ExpressionLaws.TextsCompare | backend/app/services/canonical/package_interpreter.py:24-33 | texts are compared by code point |
| ExpressionLaws.ScalarsCompare | backend/app/services/canonical/package_interpreter.py:24-33 | True and False are 1 and 0 in equality and in order; other scalars equal only themselves, and ordering a missing value raises |
| ExpressionLaws.MappingMembership | backend/app/services/canonical/package_interpreter.py:24-33 | membership in a mapping is membership among its keys, and raises for a list |
| ExpressionLaws.TextMembership | backend/app/services/canonical/package_interpreter.py:24-33 | membership in a text is being a part of it |
| ExpressionLaws.ListSubscript | backend/app/services/canonical/package_interpreter.py:94-100 | a list subscript counts from the front, or from the back when negative, and gives `None` outside |
| CirclePackage.CircleDecides | backend/app/db/circle_treasury_package.py:228-315 | on every context the package, run through the evaluator and the sort, decides as a table over the values its expressions read, errors included |
| CirclePackage.CircleVerdicts | backend/app/db/circle_treasury_package.py:228-315 | the decision and reason code of each of the eight cases, of which every context on which no error escapes is exactly one |
| CirclePackage.ApproveIsComplement | backend/app/db/circle_treasury_package.py:228-315 | on every context the approve condition holds if and only if none of the seven before it holds or raises |
| CirclePackage.ApproveGuardRedundant | backend/app/db/circle_treasury_package.py:298-314 | replacing the approve condition's expression by `True` changes no outcome, reason or error on any context |
| CirclePackage.AbsentAssuranceDenies | backend/app/db/circle_treasury_package.py:228-236 | without an assurance claim the decision is DENIED as unavailable, whatever else the context, the assessment and the authority state are |
| CirclePackage.CircleRaisesIff | backend/app/db/circle_treasury_package.py:27-41 | on every context `TypeError` escapes if and only if assurance and identity are in order and the first delegated test that does not refuse is undefined |
| CirclePackage.MissingDelegationRaisesIff | backend/app/db/circle_treasury_package.py:27-41 | with lists and numbers wherever anything is given, that is if and only if the first of actions, assets, networks and amount or limit that does not refuse is missing |
| CirclePackage.AbsentDelegationRaises | backend/app/db/circle_treasury_package.py:27-41 | in particular, an agent in good standing without any delegated authority makes evaluation raise |
| FactOrder.NotGreaterIff | backend/app/services/canonical/package_interpreter.py:24-33 | in Python's order on facts, nested lists included, `b < a` is false without an error exactly when `a <= b` is true |
| CirclePackage.WideningKeepsNames | backend/app/db/circle_treasury_package.py:274-286 | a delegated list that keeps all its entries still contains every value it contained, in Python's equality |
| CirclePackage.RelaxingNeverWorsens | backend/app/db/circle_treasury_package.py:228-315 | a lower amount, a higher limit or wider delegated lists never worsen the condition outcome; the decision neither, except exactly when a NOT_SATISFIED assessment meets an escalation that became an approval |
| HarborStonePackage.HarborDecides | backend/app/db/harborstone_package.py:214-295 | on every context the package, run through the evaluator and the sort, decides as a table over the values its expressions read, errors included |
| HarborStonePackage.HarborVerdicts | backend/app/db/harborstone_package.py:214-295 | the outcome and reason code of each of the six cases, and no outcome in the one case left |
| HarborStonePackage.ApprovalIsBoundedUpgrade | backend/app/db/harborstone_package.py:251-268 | adding a valid approval to any context changes nothing when an authority denial, a confirmed match or a screening review fires, and otherwise makes the outcome APPROVED, even where there was no match or an error before |
| HarborStonePackage.UpgradeApprovesIff | backend/app/db/harborstone_package.py:251-268 | the decision after the upgrade is APPROVED if and only if no guard fires, the assessment is SATISFIED and the authority state is known |
| HarborStonePackage.UpgradeGuardRedundant | backend/app/db/harborstone_package.py:256-263 | dropping the `not in` guard of the upgrade changes no outcome, reason or error on any context |
| HarborStonePackage.HarborApprovesIff | backend/app/db/harborstone_package.py:214-295 | the condition outcome is APPROVED if and only if no guard fires and either a human approved or the amount is a small USD one, authority suffices and nothing asks for approval |
| HarborStonePackage.HarborRaisesIff | backend/app/db/harborstone_package.py:269-295 | `TypeError` escapes on exactly the contexts with no guard, no approval, nothing else asking for one, and a USD amount that is not a number |
| Duration.MatchIff | backend/app/utils/timestamps.py:27-36 | the scanner finds a decomposition if and only if it is one of the ordered W/D/T/H/M/S grammar and spells the text, so a text has at most one |
| Duration.DecompositionUnique | backend/app/utils/timestamps.py:27-36 | two decompositions that spell the same text are the same |
| Duration.ParseMeaning | backend/app/utils/timestamps.py:39-58 | every text the grammar produces, blanks around it allowed, parses to the weighted sum of its components or overflows, and `None` is the answer for exactly the other texts |
| Duration.UnitLaws | backend/app/utils/timestamps.py:51-58 | a week is 7 days, a day 24 hours, an hour 60 minutes and a minute 60 seconds, in range or not |
| Duration.SecondsAlone | backend/app/utils/timestamps.py:51-58 | `PTnS` is n seconds below 86400000000000 and an overflow from there on |
| Duration.SameAsSeconds | backend/app/utils/timestamps.py:51-58 | a text with several components means the same as the sum of its components written in seconds alone |
| Duration.BlanksIgnored | backend/app/utils/timestamps.py:46-50 | blanks around a text are ignored |
| Duration.ParsePrint | backend/app/utils/timestamps.py:39-58 | parsing the canonical text of any components gives their total, or the overflow above `timedelta`'s range |
| Duration.EveryDurationParses | backend/app/utils/timestamps.py:39-58 | every duration in range is the value of some text |
| Duration.BeyondStandardIff | backend/app/utils/timestamps.py:27-36 | an accepted text breaks the rule of ISO 8601-1:2019, section 5.5.2, that a component must be written and follow a `T`, if and only if it ends in `T` |
| Duration.DesignatorAlone | backend/app/utils/timestamps.py:46-58 | `PT` is zero and `P` is refused |
| Migration0012.Database.Upgrade | backend/migrations/versions/0012_organizations.py:68-135 | succeeds if and only if there is no registry and every table exists; then exactly the pilot's tables and the gateway's rows have moved; a failure names the missing table and leaves each table as it was or as it was to become |
| Migration0012.Database.Downgrade | backend/migrations/versions/0012_organizations.py:138-165 | the same for the way back, the registry dropped last |
| Migration0012.Database.UpdatePilotTables | backend/migrations/versions/0012_organizations.py:111-119 | the loop moves every pilot table or stops at the first that is missing |
| Migration0012.OnlyTenantsChange | backend/migrations/versions/0012_organizations.py:111-135 | in every table no row is added, lost or reordered, nothing but its tenant changes, and that changes for exactly the rows concerned |
| Migration0012.RowsStayReachable | backend/migrations/versions/0012_organizations.py:92-135 | after the upgrade every row that was the default organization's or the pilot's belongs to a tenant that the tenant gate lets pass, and no other tenant's row has moved |
| Migration0012.MoveUndoneIff | backend/migrations/versions/0012_organizations.py:68-165 | moving rows and moving them back is the identity if and only if the destination tenant had none of them before |
| Migration0012.UpgradeThenDowngrade | backend/migrations/versions/0012_organizations.py:68-165 | on a database without registry the pair succeeds if and only if every table exists, and restores it if and only if no row concerned belonged to the pilot |
| Migration0012.EarlierPilotRowIsLost | backend/migrations/versions/0012_organizations.py:138-165 | a pilot row of any pilot table written before the upgrade comes back as a default one |
| Migration0008.Schema.AddColumns | backend/migrations/versions/0008_decision_authorization_binding.py:126-127 | the loop appends all columns in order, and succeeds if and only if the table exists and has none of the names |
| Migration0008.Schema.CreateIndexes | backend/migrations/versions/0008_decision_authorization_binding.py:128-133 | the loop adds the named indexes, and succeeds if and only if their columns exist and no name is taken |
| Migration0008.Schema.DropIndexes | backend/migrations/versions/0008_decision_authorization_binding.py:152-155 | the loop removes exactly the named indexes, and succeeds if and only if all exist |
| Migration0008.Schema.DropColumns | backend/migrations/versions/0008_decision_authorization_binding.py:156-157 | the reversed loop removes exactly the named columns, keeping the order of the rest, and succeeds if and only if all exist and none is indexed |
| Migration0008.Schema.Upgrade | backend/migrations/versions/0008_decision_authorization_binding.py:124-145 | succeeds if and only if both tables have room for the columns and indexes, and then has appended them |
| Migration0008.Schema.Downgrade | backend/migrations/versions/0008_decision_authorization_binding.py:148-163 | succeeds if and only if the columns and indexes are there and no other index uses the columns |
| Migration0008.UpgradeThenDowngrade | backend/migrations/versions/0008_decision_authorization_binding.py:124-163 | upgrade, any columns added after it, downgrade: the downgrade never fails, and leaves the exact column sequence there was, followed by the later columns, and the exact index set |
| PackageRegistry.GovernancePackageService.Create | backend/app/services/canonical/governance_package_service.py:116-164 | appends a draft, or refuses a version that is already published |
| PackageRegistry.GovernancePackageService.Validate | backend/app/services/canonical/governance_package_service.py:206-244 | only a draft that passes moves to VALIDATED; anything past VALIDATED is immutable |
| PackageRegistry.GovernancePackageService.Approve | backend/app/services/canonical/governance_package_service.py:247-302 | only a VALIDATED package is approved, by a named approver with a rationale and, where required, verified authority |
| PackageRegistry.GovernancePackageService.Publish | backend/app/services/canonical/governance_package_service.py:305-380 | the checks in their order, and on success the predecessor superseded and the package published at once, nothing else changed |
| PackageRegistry.PublishesIff | backend/app/services/canonical/governance_package_service.py:305-380 | publication succeeds if and only if the tenant is active, the package its own and approved, both hashes match, the signature holds, the version is not published yet and a predecessor is the tenant's |
| PackageRegistry.GovernancePackageService.SeedPackage | backend/app/db/seed.py:235-300 | the four lifecycle calls of a boot, stopped after any commit, together change the registry as `Booted` says |
| PackageRegistry.PriorMeaning | backend/app/db/seed.py:275-286 | a boot supersedes the last of the first hundred packages published under the name |
| PackageRegistry.PriorIsNewest | backend/app/db/seed.py:275-286 | up to a hundred, that is the newest; there is none only if none is published |
| PackageChain.PublishChain | backend/app/db/seed.py:235-300 | from an empty registry, after any boots of any versions, completed or stopped part way, the packages ever published under a name form one acyclic chain of supersedes and superseded-by links whose versions are those of the completed boots without repeats in a row |
| PackageChain.OnePublishedAfterRun | backend/app/db/seed.py:414-461 | after any such run exactly one package of a name is published, with the version of the last completed boot, or none if no boot completed |
| PackageChain.RepeatedVersionIsNoOp | backend/app/db/seed.py:269-273 | booting again with the published version changes nothing at all |
| PackageChain.PublishedAfterBoot | backend/app/db/seed.py:269-300 | from any registry whatever, a completed boot leaves as many published packages of its name as it found, or one if there was none |
| PackageChain.BootLine | backend/app/db/seed.py:303-358 | a boot extends the chain of its own organization and name, and leaves every other chain as it is |

## Left out

- Floating-point rounding, NaN and infinities: amounts are exact. A JSON float is its number text, so `1.00` is read as a value other than `1.0` where Python reads one number; `json.dumps` writes only the one spelling.
- `default=str`, non-string dictionary keys and lone surrogates in JSON.
- Concurrency, and a crash between the three commits of one evaluation: an operation on the ledger runs to its end. An evaluation reads the clock once.
- Free texts and payloads of events, decision summaries, and columns such as `delivered_at` and `last_error`.
- Listings with `skip` and `limit` outside the tenant repositories (audit logs, approvals, proofs), and which proof an unordered `first()` returns.
- Parsing of condition text by `ast.parse`: conditions are expression trees. Facts have no floats, and attributes of built-in Python objects are not looked up.
- `DeterministicPackageInterpreter.interpret`, decision persistence and supersession, authorization issue and consumption, evidence collection and sufficiency.
- Tenant.TenantRepository.Read: filters are equality and null tests; the one query with ranges, `list_deliverable`, has a model of its own.
- An exception raised by a delivery adapter counts as a rejection, as the code treats it; the payload sent is not modelled.
- Duration.ParseMeaning: does not model Unicode digits or Python's limit on the length of integer text.
- `ensure_aware` and time zones: instants are UTC.
- Migration0012.Database.Upgrade: does not model transactional rollback, so a failed upgrade leaves what it had done; columns other than the tenant and the connector are opaque.
- Migration0008.Schema.Upgrade: does not model row data or SQLite's table copy; the schema is column sequences and named indexes.
- The manual `supersede` and `retire` of packages, the JSON schema of documents, signature and authority checks themselves: whether each passes is given with every boot.
- PackageRegistry.GovernancePackageService.SeedPackage: identifiers number packages in creation order, so creation times do not tie.
- The Hedera package's conditions; user interface, HTTP layer, agents, dashboards, settings and demo drivers.
