/**
 The governed-transaction ledger: creation, evaluation, human review, proofs and audit log.

 `Db` is the contents of the tables. `Step` says what each service call does to them; the class
 `LedgerService` does it in place, statement by statement, and is proved to agree with `Step`.
 Row identifiers (UUIDs) and the clock are parameters.
 */
module Ledger {
  import opened Wrappers
  import opened Json
  import opened JsonText
  import opened Decisions
  import opened RuleEngine
  import opened ProofHash

  /** A transaction's `status`: SUBMITTED, or the name of a decision. */
  datatype Status = Submitted | Settled(decision: Decision)

  datatype Transaction = Transaction(
    id: string,
    agentId: string,
    walletAddress: string,
    payment: Payment,
    destination: string,
    status: Status,
    decisionResult: Option<Decision>,
    evaluatedAt: Option<int>,
    createdAt: int)

  datatype Approval = Approval(id: string, transactionId: string, action: string)

  datatype ProofRow = ProofRow(id: string, transactionId: string, agentId: string, bundle: StoredBundle, timestamp: int)

  datatype AuditEvent = AuditEvent(agentId: string, transactionId: Option<string>, eventType: string)

  datatype Db = Db(
    agents: seq<Agent>,
    policies: seq<Policy>,
    transactions: seq<Transaction>,
    approvals: seq<Approval>,
    proofs: seq<ProofRow>,
    audit: seq<AuditEvent>)

  /** The primitives the services call: SHA-256, `datetime.isoformat`, `repr` of a float. */
  datatype Primitives = Primitives(sha: string -> string, iso: int -> string, repr: real -> FloatText)

  ghost predicate ValidPrimitives(prim: Primitives) {
    forall x :: ReprValid(prim, x)
  }

  ghost predicate ReprValid(prim: Primitives, x: real) {
    ValidFloat(prim.repr(x))
  }

  // ---------------------------------------------------------------- queries

  /** Position of the transaction with the given primary key. */
  function FindTransaction(ts: seq<Transaction>, id: string): (r: Option<nat>)
    ensures r.Some? ==> r.value < |ts| && ts[r.value].id == id && forall i :: 0 <= i < r.value ==> ts[i].id != id
    ensures r.None? ==> forall i :: 0 <= i < |ts| ==> ts[i].id != id
  {
    if ts == [] then None
    else if ts[0].id == id then Some(0)
    else
      match FindTransaction(ts[1..], id)
      case None => None
      case Some(i) => Some(i + 1)
  }

  function FindAgent(agents: seq<Agent>, id: string): Option<Agent> {
    if agents == [] then None else if agents[0].id == id then Some(agents[0]) else FindAgent(agents[1..], id)
  }

  /** The first policy row of the agent whose `is_active` flag is set. */
  function ActivePolicy(policies: seq<Policy>, agentId: string): Option<Policy> {
    if policies == [] then None
    else if policies[0].agentId == Some(agentId) && policies[0].isActive then Some(policies[0])
    else ActivePolicy(policies[1..], agentId)
  }

  /** Microseconds in a day; instants are microseconds in UTC. */
  const DAY := 86_400_000_000

  function DayOf(t: int): int {
    t / DAY
  }

  function StartOfDay(now: int): int {
    now - now % DAY
  }

  /** A `WHERE` clause over transactions. */
  datatype Where = Where(agentId: string, statuses: Option<set<Status>>, since: int, before: Option<int>)

  predicate Selects(w: Where, t: Transaction) {
    && t.agentId == w.agentId
    && (w.statuses.Some? ==> t.status in w.statuses.value)
    && w.since <= t.createdAt
    && (w.before.Some? ==> t.createdAt < w.before.value)
  }

  function Share(w: Where, t: Transaction): real {
    if Selects(w, t) then t.payment.amount else 0.0
  }

  /** `SELECT COALESCE(SUM(amount), 0)`. */
  function SumAmount(w: Where, ts: seq<Transaction>): real {
    if ts == [] then 0.0 else Share(w, ts[0]) + SumAmount(w, ts[1..])
  }

  /** `SELECT COUNT(id)`. */
  function CountRows(w: Where, ts: seq<Transaction>): nat {
    if ts == [] then 0 else (if Selects(w, ts[0]) then 1 else 0) + CountRows(w, ts[1..])
  }

  function SpendQuery(agentId: string, now: int): Where {
    Where(agentId, Some({Settled(APPROVED), Submitted, Settled(ESCALATED)}), StartOfDay(now), None)
  }

  function CountQuery(agentId: string, now: int): Where {
    Where(agentId, None, StartOfDay(now), None)
  }

  // ---------------------------------------------------------------- create

  datatype CreateError = InvalidPayload | AgentNotFound | NoWallet | DuplicateId

  /** `create_transaction`; the schema in front of it requires a positive amount. */
  function NewTransaction(db: Db, id: string, agentId: string, payment: Payment, destination: string, now: int)
    : Result<Transaction, CreateError>
  {
    if payment.amount <= 0.0 then Err(InvalidPayload)
    else
      match FindAgent(db.agents, agentId)
      case None => Err(AgentNotFound)
      case Some(agent) =>
        if agent.walletAddress == "" then Err(NoWallet)
        else if FindTransaction(db.transactions, id).Some? then Err(DuplicateId)
        else Ok(Transaction(id, agentId, agent.walletAddress, payment, destination, Submitted, None, None, now))
  }

  // ---------------------------------------------------------------- evaluate

  function OptText(s: Option<string>): Value {
    if s.Some? then Str(s.value) else Null
  }

  function OptNumber(prim: Primitives, x: Option<real>): Value {
    if x.Some? then Float(prim.repr(x.value)) else Null
  }

  /** `_policy_to_eval_dict`. */
  function PolicyDict(prim: Primitives, p: Policy): seq<Member> {
    [
      Member("id", Str(p.id)),
      Member("agent_id", OptText(p.agentId)),
      Member("name", Str(p.name)),
      Member("blocked_vendors", OptText(p.blockedVendors)),
      Member("blocked_chains", OptText(p.blockedChains)),
      Member("blocked_asset_symbols", OptText(p.blockedAssets)),
      Member("allowed_vendors", OptText(p.allowedVendors)),
      Member("allowed_chains", OptText(p.allowedChains)),
      Member("allowed_asset_symbols", OptText(p.allowedAssets)),
      Member("per_tx_limit", OptNumber(prim, p.perTxLimit)),
      Member("daily_budget", OptNumber(prim, p.dailyBudget)),
      Member("max_transactions_per_day", if p.maxTransactionsPerDay.Some? then Int(p.maxTransactionsPerDay.value) else Null),
      Member("require_identity_check_above_amount", OptNumber(prim, p.identityCheckAbove)),
      Member("require_approval_above_threshold", Bool(p.requireApproval)),
      Member("escalation_threshold", OptNumber(prim, p.escalationThreshold))
    ]
  }

  /** A dictionary display: each entry is put in turn. */
  function DictOf(entries: seq<Member>): seq<Member> {
    if entries == [] then []
    else
      var last := entries[|entries| - 1];
      DictPut(DictOf(entries[..|entries| - 1]), last.key, last.value)
  }

  /** `[policy_dict] if policy_dict else []`. */
  function EvaluationContext(prim: Primitives, policy: Option<Policy>): Value {
    if policy.Some? then Arr([Obj(DictOf(PolicyDict(prim, policy.value)))]) else Arr([])
  }

  function DecisionName(d: Decision): string {
    match d
    case APPROVED => "APPROVED"
    case DENIED => "DENIED"
    case ESCALATED => "ESCALATED"
  }

  function ReasonName(r: Reason): string {
    match r
    case AGENT_INACTIVE => "AGENT_INACTIVE"
    case POLICY_NOT_FOUND => "POLICY_NOT_FOUND"
    case INVALID_AMOUNT => "INVALID_AMOUNT"
    case VENDOR_BLOCKED => "VENDOR_BLOCKED"
    case CHAIN_BLOCKED => "CHAIN_BLOCKED"
    case ASSET_BLOCKED => "ASSET_BLOCKED"
    case VENDOR_NOT_ALLOWED => "VENDOR_NOT_ALLOWED"
    case CHAIN_NOT_ALLOWED => "CHAIN_NOT_ALLOWED"
    case ASSET_NOT_ALLOWED => "ASSET_NOT_ALLOWED"
    case PER_TX_LIMIT_EXCEEDED => "PER_TX_LIMIT_EXCEEDED"
    case DAILY_BUDGET_EXCEEDED => "DAILY_BUDGET_EXCEEDED"
    case MAX_TX_COUNT_EXCEEDED => "MAX_TX_COUNT_EXCEEDED"
    case IDENTITY_CHECK_REQUIRED => "IDENTITY_CHECK_REQUIRED"
    case THRESHOLD_REQUIRES_APPROVAL => "THRESHOLD_REQUIRES_APPROVAL"
    case WITHIN_POLICY => "WITHIN_POLICY"
  }

  /** What the rule engine is asked about a stored transaction. */
  function RequestFor(db: Db, t: Transaction, now: int): Request {
    Request(
      FindAgent(db.agents, t.agentId),
      ActivePolicy(db.policies, t.agentId),
      t.payment,
      SumAmount(SpendQuery(t.agentId, now), db.transactions),
      CountRows(CountQuery(t.agentId, now), db.transactions))
  }

  function VerdictOn(db: Db, t: Transaction, now: int): Verdict {
    Evaluate(RequestFor(db, t, now))
  }

  function Decide(t: Transaction, d: Decision, now: int): Transaction {
    t.(status := Settled(d), decisionResult := Some(d), evaluatedAt := Some(now))
  }

  /** The bundle `evaluate_transaction` hands to `create_proof_bundle`. */
  function BundleFor(prim: Primitives, policy: Option<Policy>, t: Transaction, v: Verdict, now: int): Bundle {
    Bundle(
      "CompliAGL", t.id, "1.0", DecisionName(v.decision),
      EvaluationContext(prim, policy), Arr([Str(ReasonName(v.reason))]), prim.iso(now))
  }

  function ProofFor(prim: Primitives, policy: Option<Policy>, t: Transaction, v: Verdict, proofId: string, now: int): ProofRow {
    ProofRow(proofId, t.id, t.agentId, Store(prim.sha, BundleFor(prim, policy, t, v, now)), now)
  }

  function EvaluationEvent(t: Transaction, d: Decision): AuditEvent {
    AuditEvent(t.agentId, Some(t.id), "TRANSACTION_" + DecisionName(d))
  }

  function AfterEvaluate(prim: Primitives, db: Db, transactionId: string, proofId: string, now: int): Db {
    match FindTransaction(db.transactions, transactionId)
    case None => db
    case Some(i) =>
      var t := db.transactions[i];
      var v := VerdictOn(db, t, now);
      db.(transactions := db.transactions[i := Decide(t, v.decision, now)],
          proofs := db.proofs + [ProofFor(prim, ActivePolicy(db.policies, t.agentId), t, v, proofId, now)],
          audit := db.audit + [EvaluationEvent(t, v.decision)])
  }

  // ---------------------------------------------------------------- review

  /** Any action but APPROVE denies. */
  function ReviewDecision(action: string): Decision {
    if action == "APPROVE" then APPROVED else DENIED
  }

  function ReviewEvent(db: Db, transactionId: string, action: string): AuditEvent {
    var found := FindTransaction(db.transactions, transactionId);
    AuditEvent(
      if found.Some? then db.transactions[found.value].agentId else "unknown",
      Some(transactionId), "APPROVAL_" + action)
  }

  function AfterReview(db: Db, approvalId: string, transactionId: string, action: string): Db {
    var found := FindTransaction(db.transactions, transactionId);
    db.(approvals := db.approvals + [Approval(approvalId, transactionId, action)],
        transactions :=
          if found.None? then db.transactions
          else db.transactions[found.value := db.transactions[found.value].(status := Settled(ReviewDecision(action)))],
        audit := db.audit + [ReviewEvent(db, transactionId, action)])
  }

  // ---------------------------------------------------------------- policy soft-delete

  /** `deactivate_policy`: clears `status` and nothing else. */
  function Deactivated(policies: seq<Policy>, policyId: string): (r: seq<Policy>)
    ensures |r| == |policies|
  {
    if policies == [] then []
    else if policies[0].id == policyId then [policies[0].(status := "INACTIVE")] + policies[1..]
    else [policies[0]] + Deactivated(policies[1..], policyId)
  }

  // ---------------------------------------------------------------- runs

  datatype Op =
    | Create(id: string, agentId: string, payment: Payment, destination: string, now: int)
    | EvaluateTx(transactionId: string, proofId: string, now: int)
    | Review(approvalId: string, transactionId: string, action: string)
    | Deactivate(policyId: string)

  function Step(prim: Primitives, db: Db, op: Op): Db {
    match op
    case Create(id, agentId, payment, destination, now) =>
      (match NewTransaction(db, id, agentId, payment, destination, now)
       case Ok(t) => db.(transactions := db.transactions + [t])
       case Err(_) => db)
    case EvaluateTx(transactionId, proofId, now) => AfterEvaluate(prim, db, transactionId, proofId, now)
    case Review(approvalId, transactionId, action) => AfterReview(db, approvalId, transactionId, action)
    case Deactivate(policyId) => db.(policies := Deactivated(db.policies, policyId))
  }

  /** The tables after a run of calls, in order. */
  function Run(prim: Primitives, db: Db, ops: seq<Op>): Db {
    if ops == [] then db else Step(prim, Run(prim, db, ops[..|ops| - 1]), ops[|ops| - 1])
  }

  // ---------------------------------------------------------------- the services

  datatype Response = Response(decision: Decision, reasonCode: string, risk: Risk, requiresApproval: bool, proof: Option<ProofRow>)

  /** What evaluating the transaction at `i` wrote: its own three fields, one proof and one event, all of the decision that is returned. */
  ghost predicate Recorded(before: Db, after: Db, i: nat, proofId: string, now: int, response: Response)
    requires response.proof.Some?
  {
    && i < |before.transactions|
    && var t, proof := before.transactions[i], response.proof.value;
    && after.transactions ==
       before.transactions[i := t.(status := Settled(response.decision), decisionResult := Some(response.decision), evaluatedAt := Some(now))]
    && after.proofs == before.proofs + [proof]
    && after.audit == before.audit + [AuditEvent(t.agentId, Some(t.id), "TRANSACTION_" + DecisionName(response.decision))]
    && after.agents == before.agents && after.policies == before.policies && after.approvals == before.approvals
    && proof.id == proofId && proof.transactionId == t.id && proof.agentId == t.agentId && proof.timestamp == now
    && proof.bundle.producer == "CompliAGL" && proof.bundle.entityId == t.id && proof.bundle.ruleVersionUsed == "1.0"
    && proof.bundle.decisionResult == DecisionName(response.decision)
    && proof.bundle.reasonCodes == Dumps(Arr([Str(response.reasonCode)]))
    && response.requiresApproval == (response.decision == ESCALATED)
    && (response.risk == HIGH <==> response.decision == DENIED)
    && var v := VerdictOn(before, t, now);
    && response.decision == v.decision && response.risk == v.risk && response.reasonCode == ReasonName(v.reason)
  }

  /** What a review wrote besides the approval: the status of the transaction, if there is one, and one event. */
  ghost predicate Reviewed(before: Db, after: Db, found: Option<nat>, transactionId: string, action: string) {
    && after.agents == before.agents && after.policies == before.policies && after.proofs == before.proofs
    && match found
       case None =>
         after.transactions == before.transactions
         && after.audit == before.audit + [AuditEvent("unknown", Some(transactionId), "APPROVAL_" + action)]
       case Some(i) =>
         && i < |before.transactions|
         && var t := before.transactions[i];
         && after.transactions == before.transactions[i := t.(status := Settled(if action == "APPROVE" then APPROVED else DENIED))]
         && after.audit == before.audit + [AuditEvent(t.agentId, Some(transactionId), "APPROVAL_" + action)]
  }

  /** The services over one database session. */
  class LedgerService {
    const prim: Primitives
    var agents: seq<Agent>
    var policies: seq<Policy>
    var transactions: seq<Transaction>
    var approvals: seq<Approval>
    var proofs: seq<ProofRow>
    var audit: seq<AuditEvent>

    ghost function Contents(): Db
      reads this
    {
      Db(agents, policies, transactions, approvals, proofs, audit)
    }

    constructor (prim: Primitives, agents: seq<Agent>, policies: seq<Policy>)
      ensures this.prim == prim && Contents() == Db(agents, policies, [], [], [], [])
    {
      this.prim, this.agents, this.policies := prim, agents, policies;
      transactions, approvals, proofs, audit := [], [], [], [];
    }

    method LogEvent(agentId: string, transactionId: Option<string>, eventType: string)
      modifies this`audit
      ensures audit == old(audit) + [AuditEvent(agentId, transactionId, eventType)]
    {
      var entry := AuditEvent(agentId, transactionId, eventType);
      audit := audit + [entry];
    }

    /** `create_proof_bundle`: the stored hash is taken over the values that are then stored as text. */
    method CreateProofBundle(id: string, transactionId: string, agentId: string, entityId: string,
        ruleVersionUsed: string, decisionResult: string, evaluationContext: Value, reasonCodes: Value, now: int)
      returns (proof: ProofRow)
      modifies this`proofs
      ensures proofs == old(proofs) + [proof]
      ensures proof.id == id && proof.transactionId == transactionId && proof.agentId == agentId && proof.timestamp == now
      ensures proof.bundle == Store(prim.sha,
                                    Bundle("CompliAGL", entityId, ruleVersionUsed, decisionResult, evaluationContext, reasonCodes, prim.iso(now)))
      ensures proof.bundle.producer == "CompliAGL" && proof.bundle.entityId == entityId
      ensures proof.bundle.ruleVersionUsed == ruleVersionUsed && proof.bundle.decisionResult == decisionResult
      ensures proof.bundle.evaluationContext == Dumps(evaluationContext) && proof.bundle.reasonCodes == Dumps(reasonCodes)
    {
      var producer := "CompliAGL";
      var isoTimestamp := prim.iso(now);
      var bundle := Bundle(producer, entityId, ruleVersionUsed, decisionResult, evaluationContext, reasonCodes, isoTimestamp);
      var bundleHash := ComputeBundleHash(prim.sha, bundle);
      proof := ProofRow(id, transactionId, agentId,
        StoredBundle(producer, entityId, ruleVersionUsed, decisionResult, Dumps(evaluationContext), Dumps(reasonCodes), bundleHash),
        now);
      proofs := proofs + [proof];
    }

    method CreateTransaction(id: string, agentId: string, payment: Payment, destination: string, now: int)
      returns (r: Result<Transaction, CreateError>)
      modifies this`transactions
      ensures Contents() == Step(prim, old(Contents()), Create(id, agentId, payment, destination, now))
      ensures r.Ok? ==> transactions == old(transactions) + [r.value]
      ensures r.Ok? ==> FindAgent(agents, agentId).Some?
      ensures r.Ok? ==> r.value == Transaction(id, agentId, FindAgent(agents, agentId).value.walletAddress, payment, destination, Submitted, None, None, now)
      ensures r.Err? ==> transactions == old(transactions)
      ensures r.Ok? <==>
              && payment.amount > 0.0
              && FindAgent(agents, agentId).Some? && FindAgent(agents, agentId).value.walletAddress != ""
              && forall i :: 0 <= i < |old(transactions)| ==> old(transactions)[i].id != id
    {
      if payment.amount <= 0.0 {
        return Err(InvalidPayload);
      }
      var agent := FindAgent(agents, agentId);
      if agent.None? {
        return Err(AgentNotFound);
      }
      if agent.value.walletAddress == "" {
        return Err(NoWallet);
      }
      var clash := FindTransaction(transactions, id);
      if clash.Some? {
        return Err(DuplicateId);
      }
      var t := Transaction(id, agentId, agent.value.walletAddress, payment, destination, Submitted, None, None, now);
      transactions := transactions + [t];
      return Ok(t);
    }

    method EvaluateTransaction(transactionId: string, proofId: string, now: int) returns (response: Response)
      modifies this`transactions, this`proofs, this`audit
      ensures Contents() == Step(prim, old(Contents()), EvaluateTx(transactionId, proofId, now))
      ensures response.proof.None? <==> FindTransaction(old(transactions), transactionId).None?
      ensures response.proof.None? ==> response == Response(DENIED, "TRANSACTION_NOT_FOUND", HIGH, false, None)
      ensures response.proof.None? ==> transactions == old(transactions) && proofs == old(proofs) && audit == old(audit)
      ensures response.proof.Some? ==> Recorded(old(Contents()), Contents(), FindTransaction(old(transactions), transactionId).value, proofId, now, response)
    {
      hide Evaluate, SumAmount, CountRows, EvaluationContext, ReasonName, DecisionName, Dumps, ComputeBundleHash, FindAgent, ActivePolicy;
      var found := FindTransaction(transactions, transactionId);
      if found.None? {
        return Response(DENIED, "TRANSACTION_NOT_FOUND", HIGH, false, None);
      }
      var transaction := transactions[found.value];
      var agent := FindAgent(agents, transaction.agentId);
      var policy := ActivePolicy(policies, transaction.agentId);
      var dailySpend := SumAmount(SpendQuery(transaction.agentId, now), transactions);
      var dailyCount := CountRows(CountQuery(transaction.agentId, now), transactions);
      var result := Evaluate(Request(agent, policy, transaction.payment, dailySpend, dailyCount));
      ReasonDeterminesRest(RequestFor(Contents(), transaction, now));

      var decided := transaction.(decisionResult := Some(result.decision), evaluatedAt := Some(now));
      decided := decided.(status := Settled(result.decision));
      transactions := transactions[found.value := decided];

      var proof := CreateProofBundle(
        proofId, decided.id, decided.agentId, decided.id, "1.0", DecisionName(result.decision),
        EvaluationContext(prim, policy), Arr([Str(ReasonName(result.reason))]), now);
      LogEvent(decided.agentId, Some(decided.id), "TRANSACTION_" + DecisionName(result.decision));
      return Response(result.decision, ReasonName(result.reason), result.risk, result.requiresApproval, Some(proof));
    }

    method CreateApproval(approvalId: string, transactionId: string, action: string) returns (approval: Approval)
      modifies this`approvals, this`transactions, this`audit
      ensures Contents() == Step(prim, old(Contents()), Review(approvalId, transactionId, action))
      ensures approval == Approval(approvalId, transactionId, action) && approvals == old(approvals) + [approval]
      ensures Reviewed(old(Contents()), Contents(), FindTransaction(old(transactions), transactionId), transactionId, action)
    {
      approval := Approval(approvalId, transactionId, action);
      approvals := approvals + [approval];
      var found := FindTransaction(transactions, transactionId);
      var agentId := "unknown";
      if found.Some? {
        var tx := transactions[found.value];
        if action == "APPROVE" {
          tx := tx.(status := Settled(APPROVED));
        } else {
          tx := tx.(status := Settled(DENIED));
        }
        transactions := transactions[found.value := tx];
        agentId := tx.agentId;
      }
      LogEvent(agentId, Some(transactionId), "APPROVAL_" + action);
    }

    method DeactivatePolicy(policyId: string)
      modifies this`policies
      ensures Contents() == Step(prim, old(Contents()), Deactivate(policyId))
    {
      policies := Deactivated(policies, policyId);
    }
  }
}
