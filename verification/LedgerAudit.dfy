/** What the audit log and the proofs say about the transactions, after every run. */
module LedgerAudit {
  import opened Wrappers
  import opened Json
  import opened Decisions
  import opened RuleEngine
  import opened ProofHash
  import opened Ledger
  import JsonValid

  // ---------------------------------------------------------------- replaying the log

  /** The status an event type leaves a transaction in. */
  function ApplyEvent(eventType: string, s: Status): Status {
    if eventType == "TRANSACTION_APPROVED" || eventType == "APPROVAL_APPROVE" then Settled(APPROVED)
    else if eventType == "TRANSACTION_ESCALATED" then Settled(ESCALATED)
    else if eventType == "TRANSACTION_DENIED" || "APPROVAL_" <= eventType then Settled(DENIED)
    else s
  }

  /** Folds the events of one transaction, oldest first, from SUBMITTED. */
  function Replay(log: seq<AuditEvent>, id: string): Status {
    if log == [] then Submitted
    else
      var last := log[|log| - 1];
      var before := Replay(log[..|log| - 1], id);
      if last.transactionId == Some(id) then ApplyEvent(last.eventType, before) else before
  }

  /** Whether a review is the latest thing the log says about a transaction. */
  function ReviewedLast(log: seq<AuditEvent>, id: string): bool {
    if log == [] then false
    else
      var last := log[|log| - 1];
      if last.transactionId == Some(id) then "APPROVAL_" <= last.eventType else ReviewedLast(log[..|log| - 1], id)
  }

  /** How many evaluations of a transaction the log records. */
  function EvaluationsLogged(log: seq<AuditEvent>, id: string): nat {
    if log == [] then 0
    else
      var last := log[|log| - 1];
      EvaluationsLogged(log[..|log| - 1], id)
      + if last.transactionId == Some(id) && "TRANSACTION_" <= last.eventType then 1 else 0
  }

  /** The decision of the latest proof of a transaction. */
  function LatestProof(proofs: seq<ProofRow>, id: string): Option<ProofRow> {
    if proofs == [] then None
    else if proofs[|proofs| - 1].transactionId == id then Some(proofs[|proofs| - 1])
    else LatestProof(proofs[..|proofs| - 1], id)
  }

  function ProofCount(proofs: seq<ProofRow>, id: string): nat {
    if proofs == [] then 0
    else ProofCount(proofs[..|proofs| - 1], id) + if proofs[|proofs| - 1].transactionId == id then 1 else 0
  }

  lemma EvaluationEventType(d: Decision)
    ensures forall s :: ApplyEvent("TRANSACTION_" + DecisionName(d), s) == Settled(d)
    ensures "TRANSACTION_" <= "TRANSACTION_" + DecisionName(d) && !("APPROVAL_" <= "TRANSACTION_" + DecisionName(d))
  {
    var t := "TRANSACTION_" + DecisionName(d);
    assert t[0] == 'T';
    match d
    case APPROVED => assert t == "TRANSACTION_APPROVED";
    case DENIED => assert t == "TRANSACTION_DENIED" && |t| == 18;
    case ESCALATED => assert t == "TRANSACTION_ESCALATED" && |t| == 21;
  }

  lemma ReviewEventType(action: string)
    ensures forall s :: ApplyEvent("APPROVAL_" + action, s) == Settled(ReviewDecision(action))
    ensures "APPROVAL_" <= "APPROVAL_" + action && !("TRANSACTION_" <= "APPROVAL_" + action)
  {
    var a := "APPROVAL_" + action;
    assert a[0] == 'A';
    assert a[9..] == action;
    if a == "APPROVAL_APPROVE" {
      assert "APPROVAL_APPROVE"[9..] == "APPROVE";
    }
  }

  /** Each event type names the status it leaves, and its prefix tells evaluations from reviews. */
  lemma EventTypes(d: Decision, action: string)
    ensures forall s :: ApplyEvent("TRANSACTION_" + DecisionName(d), s) == Settled(d)
    ensures forall s :: ApplyEvent("APPROVAL_" + action, s) == Settled(ReviewDecision(action))
    ensures "TRANSACTION_" <= "TRANSACTION_" + DecisionName(d) && !("APPROVAL_" <= "TRANSACTION_" + DecisionName(d))
    ensures "APPROVAL_" <= "APPROVAL_" + action && !("TRANSACTION_" <= "APPROVAL_" + action)
  {
    hide ApplyEvent, DecisionName, ReviewDecision;
    EvaluationEventType(d);
    ReviewEventType(action);
  }

  lemma {:induction false} Unmentioned(log: seq<AuditEvent>, id: string)
    requires forall e :: e in log ==> e.transactionId != Some(id)
    ensures Replay(log, id) == Submitted && !ReviewedLast(log, id) && EvaluationsLogged(log, id) == 0
  {
    if log != [] {
      assert log[|log| - 1] in log;
      Unmentioned(log[..|log| - 1], id);
    }
  }

  lemma {:induction false} NoProofs(proofs: seq<ProofRow>, id: string)
    requires forall p :: p in proofs ==> p.transactionId != id
    ensures LatestProof(proofs, id) == None && ProofCount(proofs, id) == 0
  {
    if proofs != [] {
      assert proofs[|proofs| - 1] in proofs;
      NoProofs(proofs[..|proofs| - 1], id);
    }
  }

  /** What one more event does to the readings of the log. */
  lemma LogAppend(log: seq<AuditEvent>, e: AuditEvent, id: string)
    ensures Replay(log + [e], id) ==
            if e.transactionId == Some(id) then ApplyEvent(e.eventType, Replay(log, id)) else Replay(log, id)
    ensures ReviewedLast(log + [e], id) ==
            if e.transactionId == Some(id) then "APPROVAL_" <= e.eventType else ReviewedLast(log, id)
    ensures EvaluationsLogged(log + [e], id) ==
            EvaluationsLogged(log, id) + if e.transactionId == Some(id) && "TRANSACTION_" <= e.eventType then 1 else 0
  {
  }

  lemma ProofAppend(proofs: seq<ProofRow>, p: ProofRow, id: string)
    ensures LatestProof(proofs + [p], id) == if p.transactionId == id then Some(p) else LatestProof(proofs, id)
    ensures ProofCount(proofs + [p], id) == ProofCount(proofs, id) + if p.transactionId == id then 1 else 0
  {
  }

  // ---------------------------------------------------------------- the invariant

  /** The status a decision alone would leave. */
  function StatusOf(decision: Option<Decision>): Status {
    if decision.Some? then Settled(decision.value) else Submitted
  }

  /** The log and the proofs tell the whole story of one transaction. */
  predicate Accounted(db: Db, t: Transaction) {
    && Replay(db.audit, t.id) == t.status
    && ProofCount(db.proofs, t.id) == EvaluationsLogged(db.audit, t.id)
    && (t.decisionResult.None? <==> LatestProof(db.proofs, t.id).None?)
    && (t.decisionResult.Some? ==> LatestProof(db.proofs, t.id).value.bundle.decisionResult == DecisionName(t.decisionResult.value))
    && (if ReviewedLast(db.audit, t.id) then t.status == Settled(APPROVED) || t.status == Settled(DENIED)
        else t.status == StatusOf(t.decisionResult))
  }

  ghost predicate AllAccounted(db: Db) {
    forall i :: 0 <= i < |db.transactions| ==> Accounted(db, db.transactions[i])
  }

  ghost predicate UniqueIds(ts: seq<Transaction>) {
    forall i, j :: 0 <= i < j < |ts| ==> ts[i].id != ts[j].id
  }

  /** A newly drawn UUID occurs nowhere in the log or among the proofs. */
  ghost predicate Fresh(db: Db, id: string) {
    && (forall e :: e in db.audit ==> e.transactionId != Some(id))
    && (forall p :: p in db.proofs ==> p.transactionId != id)
  }

  ghost predicate FreshIds(prim: Primitives, db: Db, ops: seq<Op>) {
    forall k :: 0 <= k < |ops| && ops[k].Create? ==> Fresh(Run(prim, db, ops[..k]), ops[k].id)
  }

  /** An evaluation accounts for the decision it makes. */
  lemma EvaluateAccounts(prim: Primitives, db: Db, i: nat, proofId: string, now: int, u: Transaction)
    requires i < |db.transactions|
    requires FindTransaction(db.transactions, db.transactions[i].id) == Some(i)
    requires Accounted(db, u) && (u.id == db.transactions[i].id ==> u == db.transactions[i])
    ensures var t := db.transactions[i];
            Accounted(AfterEvaluate(prim, db, t.id, proofId, now),
                      if u.id == t.id then Decide(t, VerdictOn(db, t, now).decision, now) else u)
  {
    var t := db.transactions[i];
    var v := VerdictOn(db, t, now);
    LogAppend(db.audit, EvaluationEvent(t, v.decision), u.id);
    ProofAppend(db.proofs, ProofFor(prim, ActivePolicy(db.policies, t.agentId), t, v, proofId, now), u.id);
    EventTypes(v.decision, "");
  }

  /** A review accounts for the status it sets, and leaves decision and proofs alone. */
  lemma ReviewAccounts(db: Db, approvalId: string, id: string, action: string, u: Transaction)
    requires Accounted(db, u)
    ensures Accounted(AfterReview(db, approvalId, id, action),
                      if u.id == id then u.(status := Settled(ReviewDecision(action))) else u)
  {
    LogAppend(db.audit, ReviewEvent(db, id, action), u.id);
    EventTypes(APPROVED, action);
  }

  lemma CreateAccounts(db: Db, t: Transaction)
    requires Fresh(db, t.id) && t.status == Submitted && t.decisionResult == None
    ensures Accounted(db, t)
  {
    Unmentioned(db.audit, t.id);
    NoProofs(db.proofs, t.id);
  }

  lemma StepKeepsUnique(prim: Primitives, db: Db, op: Op)
    requires UniqueIds(db.transactions)
    ensures UniqueIds(Step(prim, db, op).transactions)
  {
  }

  /** Accounting looks at nothing but the log and the proofs. */
  lemma AccountedElsewhere(a: Db, b: Db, t: Transaction)
    requires a.audit == b.audit && a.proofs == b.proofs
    ensures Accounted(a, t) == Accounted(b, t)
  {
  }

  lemma StepKeepsAccounts(prim: Primitives, db: Db, op: Op)
    requires UniqueIds(db.transactions) && AllAccounted(db)
    requires op.Create? ==> Fresh(db, op.id)
    ensures AllAccounted(Step(prim, db, op))
  {
    hide Accounted;
    var after := Step(prim, db, op);
    match op
    case Create(id, agentId, payment, destination, now) =>
      var r := NewTransaction(db, id, agentId, payment, destination, now);
      if r.Ok? {
        CreateAccounts(db, r.value);
        forall j | 0 <= j < |after.transactions| ensures Accounted(after, after.transactions[j]) {
          AccountedElsewhere(db, after, after.transactions[j]);
        }
      }
    case EvaluateTx(id, proofId, now) =>
      var found := FindTransaction(db.transactions, id);
      if found.Some? {
        forall j | 0 <= j < |after.transactions| ensures Accounted(after, after.transactions[j]) {
          EvaluateAccounts(prim, db, found.value, proofId, now, db.transactions[j]);
        }
      }
    case Review(approvalId, id, action) =>
      forall j | 0 <= j < |after.transactions| ensures Accounted(after, after.transactions[j]) {
        ReviewAccounts(db, approvalId, id, action, db.transactions[j]);
      }
    case Deactivate(_) =>
      forall j | 0 <= j < |after.transactions| ensures Accounted(after, after.transactions[j]) {
        AccountedElsewhere(db, after, after.transactions[j]);
      }
  }

  /**
   The audit log is complete and the proofs agree: after every run from an empty ledger, for every
   transaction, replaying its events gives its status; it has one proof per logged evaluation; its
   latest proof carries its current decision, reviews included; and its status is that decision
   unless a review is the latest event.
   */
  lemma {:induction false} LogIsComplete(prim: Primitives, db: Db, ops: seq<Op>)
    requires db.transactions == [] && FreshIds(prim, db, ops)
    ensures UniqueIds(Run(prim, db, ops).transactions)
    ensures AllAccounted(Run(prim, db, ops))
  {
    if ops != [] {
      var shorter := ops[..|ops| - 1];
      assert forall k :: 0 <= k < |shorter| ==> shorter[..k] == ops[..k] && shorter[k] == ops[k];
      LogIsComplete(prim, db, shorter);
      StepKeepsUnique(prim, Run(prim, db, shorter), ops[|ops| - 1]);
      StepKeepsAccounts(prim, Run(prim, db, shorter), ops[|ops| - 1]);
    }
  }

  /** Events, proofs and approvals are only ever appended. */
  lemma {:induction false} HistoryOnlyGrows(prim: Primitives, db: Db, ops: seq<Op>)
    ensures var after := Run(prim, db, ops);
            db.audit <= after.audit && db.proofs <= after.proofs && db.approvals <= after.approvals
  {
    if ops != [] {
      HistoryOnlyGrows(prim, db, ops[..|ops| - 1]);
    }
  }

  // ---------------------------------------------------------------- in terms of the calls made

  predicate Evaluates(db: Db, op: Op, id: string) {
    op.EvaluateTx? && op.transactionId == id && FindTransaction(db.transactions, id).Some?
  }

  /** The evaluations of a transaction that a run carried out. */
  function EvaluationsIn(prim: Primitives, db: Db, ops: seq<Op>, id: string): nat {
    if ops == [] then 0
    else
      EvaluationsIn(prim, db, ops[..|ops| - 1], id)
      + if Evaluates(Run(prim, db, ops[..|ops| - 1]), ops[|ops| - 1], id) then 1 else 0
  }

  /** Whether the run reviewed the transaction after last evaluating it. */
  function ReviewFollows(prim: Primitives, db: Db, ops: seq<Op>, id: string): bool {
    if ops == [] then false
    else
      var last := ops[|ops| - 1];
      if Evaluates(Run(prim, db, ops[..|ops| - 1]), last, id) then false
      else if last.Review? && last.transactionId == id then true
      else ReviewFollows(prim, db, ops[..|ops| - 1], id)
  }

  /** Every run adds exactly one proof per evaluation carried out, and the log tells reviews from evaluations. */
  lemma {:induction false} OneProofPerEvaluation(prim: Primitives, db: Db, ops: seq<Op>, id: string)
    ensures ProofCount(Run(prim, db, ops).proofs, id) == ProofCount(db.proofs, id) + EvaluationsIn(prim, db, ops, id)
    ensures db.audit == [] ==> ReviewedLast(Run(prim, db, ops).audit, id) == ReviewFollows(prim, db, ops, id)
  {
    if ops != [] {
      var before, op := Run(prim, db, ops[..|ops| - 1]), ops[|ops| - 1];
      OneProofPerEvaluation(prim, db, ops[..|ops| - 1], id);
      StepReadings(prim, before, op, id);
    }
  }

  lemma EvaluationReadings(prim: Primitives, db: Db, i: nat, proofId: string, now: int, id: string)
    requires i < |db.transactions| && FindTransaction(db.transactions, db.transactions[i].id) == Some(i)
    ensures var after := AfterEvaluate(prim, db, db.transactions[i].id, proofId, now);
            && ProofCount(after.proofs, id) == ProofCount(db.proofs, id) + (if db.transactions[i].id == id then 1 else 0)
            && ReviewedLast(after.audit, id) == (db.transactions[i].id != id && ReviewedLast(db.audit, id))
  {
    var t := db.transactions[i];
    var v := VerdictOn(db, t, now);
    LogAppend(db.audit, EvaluationEvent(t, v.decision), id);
    ProofAppend(db.proofs, ProofFor(prim, ActivePolicy(db.policies, t.agentId), t, v, proofId, now), id);
    EventTypes(v.decision, "");
  }

  lemma ReviewReadings(db: Db, approvalId: string, txId: string, action: string, id: string)
    ensures var after := AfterReview(db, approvalId, txId, action);
            after.proofs == db.proofs && ReviewedLast(after.audit, id) == (txId == id || ReviewedLast(db.audit, id))
  {
  }

  lemma StepReadings(prim: Primitives, db: Db, op: Op, id: string)
    ensures var after := Step(prim, db, op);
            && ProofCount(after.proofs, id) == ProofCount(db.proofs, id) + (if Evaluates(db, op, id) then 1 else 0)
            && ReviewedLast(after.audit, id) ==
               if Evaluates(db, op, id) then false
               else if op.Review? && op.transactionId == id then true
               else ReviewedLast(db.audit, id)
  {
    match op
    case EvaluateTx(txId, proofId, now) =>
      var found := FindTransaction(db.transactions, txId);
      if found.Some? {
        EvaluationReadings(prim, db, found.value, proofId, now, id);
      }
    case Review(approvalId, txId, action) =>
      ReviewReadings(db, approvalId, txId, action, id);
    case _ =>
  }

  /** A status that differs from the last decision was set by a review after the last evaluation. */
  lemma StatusDiffersOnlyAfterReview(prim: Primitives, db: Db, ops: seq<Op>, i: nat)
    requires db.transactions == [] && db.audit == [] && FreshIds(prim, db, ops)
    requires i < |Run(prim, db, ops).transactions|
    ensures var t := Run(prim, db, ops).transactions[i];
            t.status != StatusOf(t.decisionResult) ==> ReviewFollows(prim, db, ops, t.id)
  {
    LogIsComplete(prim, db, ops);
    assert Accounted(Run(prim, db, ops), Run(prim, db, ops).transactions[i]);
    OneProofPerEvaluation(prim, db, ops, Run(prim, db, ops).transactions[i].id);
  }

  // ---------------------------------------------------------------- stored proofs

  lemma {:induction false} DictOfValid(entries: seq<Member>)
    requires forall i :: 0 <= i < |entries| ==> Valid(entries[i].value)
    ensures Valid(Obj(DictOf(entries)))
  {
    if entries != [] {
      var last := entries[|entries| - 1];
      DictOfValid(entries[..|entries| - 1]);
      JsonValid.DictPutKeepsKeysDistinct(DictOf(entries[..|entries| - 1]), last.key, last.value);
      JsonValid.DictPutKeepsValid(DictOf(entries[..|entries| - 1]), last.key, last.value);
    }
  }

  lemma BundleForValid(prim: Primitives, policy: Option<Policy>, t: Transaction, v: Verdict, now: int)
    requires ValidPrimitives(prim)
    ensures ValidBundle(BundleFor(prim, policy, t, v, now))
  {
    if policy.Some? {
      PolicyDictValid(prim, policy.value);
      DictOfValid(PolicyDict(prim, policy.value));
    }
  }

  lemma OptNumberValid(prim: Primitives, x: Option<real>)
    requires ValidPrimitives(prim)
    ensures Valid(OptNumber(prim, x))
  {
    if x.Some? {
      assert ReprValid(prim, x.value);
    }
  }

  lemma PolicyDictValid(prim: Primitives, p: Policy)
    requires ValidPrimitives(prim)
    ensures forall i :: 0 <= i < |PolicyDict(prim, p)| ==> Valid(PolicyDict(prim, p)[i].value)
  {
    var d := PolicyDict(prim, p);
    OptNumberValid(prim, p.perTxLimit);
    OptNumberValid(prim, p.dailyBudget);
    OptNumberValid(prim, p.identityCheckAbove);
    OptNumberValid(prim, p.escalationThreshold);
    assert |d| == 15;
    forall i | 0 <= i < |d| ensures Valid(d[i].value) {
      if i in {9, 10, 12, 14} {
      } else {
        assert !d[i].value.Float? && !d[i].value.Arr? && !d[i].value.Obj?;
      }
    }
  }

  ghost predicate ProofsVerify(prim: Primitives, proofs: seq<ProofRow>) {
    forall i :: 0 <= i < |proofs| ==> Verifies(prim.sha, proofs[i].bundle, prim.iso(proofs[i].timestamp))
  }

  /** After every run, every stored proof re-verifies from its stored texts. */
  lemma {:induction false} EveryProofVerifies(prim: Primitives, db: Db, ops: seq<Op>)
    requires ValidPrimitives(prim) && ProofsVerify(prim, db.proofs)
    ensures ProofsVerify(prim, Run(prim, db, ops).proofs)
  {
    if ops != [] {
      var before, op := Run(prim, db, ops[..|ops| - 1]), ops[|ops| - 1];
      EveryProofVerifies(prim, db, ops[..|ops| - 1]);
      if op.EvaluateTx? {
        var found := FindTransaction(before.transactions, op.transactionId);
        if found.Some? {
          var t := before.transactions[found.value];
          var policy, v := ActivePolicy(before.policies, t.agentId), VerdictOn(before, t, op.now);
          BundleForValid(prim, policy, t, v, op.now);
          StoredProofVerifies(prim.sha, BundleFor(prim, policy, t, v, op.now));
        }
      }
    }
  }
}
