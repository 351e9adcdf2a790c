/** The two day limits over runs of any kind: exactly when each of them holds. */
module LedgerLimits {
  import opened Wrappers
  import opened Decisions
  import opened RuleEngine
  import opened Ledger
  import opened LedgerSpend

  /** The total a policy allows in a day, and the number of transactions. */
  datatype DayLimit = DailyBudget | DailyMaximum

  /** The limit is respected for one agent and day, or nothing is committed there. */
  predicate HoldsOn(limit: DayLimit, db: Db, agentId: string, day: int) {
    var policy := ActivePolicy(db.policies, agentId);
    policy.Some? ==>
      match limit
      case DailyBudget =>
        var budget := policy.value.dailyBudget;
        budget.Some? ==> CommittedSpend(db, agentId, day) == 0.0 || CommittedSpend(db, agentId, day) <= budget.value
      case DailyMaximum =>
        var maximum := policy.value.maxTransactionsPerDay;
        maximum.Some? ==> CommittedCount(db, agentId, day) == 0 || CommittedCount(db, agentId, day) <= maximum.value
  }

  ghost predicate Holds(limit: DayLimit, db: Db) {
    forall agentId, day :: HoldsOn(limit, db, agentId, day)
  }

  /** The day the transaction was created on has room for it under its agent's policy. */
  predicate Room(limit: DayLimit, db: Db, t: Transaction) {
    var policy := ActivePolicy(db.policies, t.agentId);
    policy.Some? ==>
      match limit
      case DailyBudget =>
        var budget := policy.value.dailyBudget;
        budget.Some? ==> CommittedSpend(db, t.agentId, DayOf(t.createdAt)) + t.payment.amount <= budget.value
      case DailyMaximum =>
        var maximum := policy.value.maxTransactionsPerDay;
        maximum.Some? ==> CommittedCount(db, t.agentId, DayOf(t.createdAt)) + 1 <= maximum.value
  }

  /** Some rule denies the transaction, as the engine's rules read one by one. */
  ghost predicate SomeRuleDenies(db: Db, t: Transaction, now: int) {
    exists r :: IsDenial(r) && Fires(r, RequestFor(db, t, now))
  }

  /**
   What can be checked before a call: it touches no transaction, or one that is committed already,
   or a rule or a human review denies it, or its day has room.
   */
  ghost predicate Fits(limit: DayLimit, db: Db, op: Op) {
    match op
    case EvaluateTx(id, _, now) =>
      var found := FindTransaction(db.transactions, id);
      found.Some? ==>
        var t := db.transactions[found.value];
        Committed(t.status) || SomeRuleDenies(db, t, now) || Room(limit, db, t)
    case Review(_, id, action) =>
      var found := FindTransaction(db.transactions, id);
      found.Some? ==>
        var t := db.transactions[found.value];
        Committed(t.status) || action != "APPROVE" || Room(limit, db, t)
    case _ => true
  }

  /** The same, for a decision that is known. */
  predicate SettlementFits(limit: DayLimit, db: Db, t: Transaction, d: Decision) {
    Committed(t.status) || d == DENIED || Room(limit, db, t)
  }

  /** On the transaction's own day the limit holds afterwards exactly when the settlement fits. */
  lemma OwnDayIff(limit: DayLimit, db: Db, i: nat, t': Transaction, d: Decision)
    requires AmountsPositive(db) && Holds(limit, db)
    requires i < |db.transactions|
    requires var t := db.transactions[i];
             t'.agentId == t.agentId && t'.payment == t.payment && t'.createdAt == t.createdAt && t'.status == Settled(d)
    ensures var t := db.transactions[i];
            HoldsOn(limit, db.(transactions := db.transactions[i := t']), t.agentId, DayOf(t.createdAt)) <==> SettlementFits(limit, db, t, d)
  {
    var t := db.transactions[i];
    var after := db.(transactions := db.transactions[i := t']);
    var w := CommittedOn(t.agentId, DayOf(t.createdAt));
    assert HoldsOn(limit, db, t.agentId, DayOf(t.createdAt));
    SettleMovesSpend(db, i, t', t.agentId, DayOf(t.createdAt));
    SumGrows(w, w, db.transactions);
    SumGrows(w, w, after.transactions);
  }

  lemma OtherDayKept(limit: DayLimit, db: Db, i: nat, t': Transaction, agentId: string, day: int)
    requires i < |db.transactions| && HoldsOn(limit, db, agentId, day)
    requires var t := db.transactions[i]; t'.agentId == t.agentId && t'.payment == t.payment && t'.createdAt == t.createdAt
    requires !InDay(db.transactions[i], agentId, day)
    ensures HoldsOn(limit, db.(transactions := db.transactions[i := t']), agentId, day)
  {
    SettleMovesSpend(db, i, t', agentId, day);
  }

  lemma SettleKeepsLimitIff(limit: DayLimit, db: Db, i: nat, t': Transaction, d: Decision)
    requires AmountsPositive(db) && Holds(limit, db)
    requires i < |db.transactions|
    requires var t := db.transactions[i];
             t'.agentId == t.agentId && t'.payment == t.payment && t'.createdAt == t.createdAt && t'.status == Settled(d)
    ensures Holds(limit, db.(transactions := db.transactions[i := t'])) <==> SettlementFits(limit, db, db.transactions[i], d)
  {
    var t := db.transactions[i];
    OwnDayIff(limit, db, i, t', d);
    var after := db.(transactions := db.transactions[i := t']);
    hide HoldsOn, SettlementFits;
    if SettlementFits(limit, db, t, d) {
      forall agentId, day ensures HoldsOn(limit, after, agentId, day) {
        if !InDay(t, agentId, day) {
          OtherDayKept(limit, db, i, t', agentId, day);
        }
      }
    }
  }

  /** Only the transactions and the policies matter. */
  lemma SameLimits(limit: DayLimit, a: Db, b: Db)
    requires a.transactions == b.transactions && a.policies == b.policies
    ensures Holds(limit, a) <==> Holds(limit, b)
  {
    forall agentId, day ensures HoldsOn(limit, a, agentId, day) == HoldsOn(limit, b, agentId, day) {
    }
  }

  lemma CreateKeepsLimit(limit: DayLimit, db: Db, t: Transaction)
    requires Holds(limit, db) && t.status == Submitted
    ensures Holds(limit, db.(transactions := db.transactions + [t]))
  {
    forall agentId, day ensures HoldsOn(limit, db.(transactions := db.transactions + [t]), agentId, day) {
      assert HoldsOn(limit, db, agentId, day);
      SumAppend(CommittedOn(agentId, day), db.transactions, t);
      CountAppend(CommittedOn(agentId, day), db.transactions, t);
    }
  }

  lemma DeactivationKeepsLimit(limit: DayLimit, db: Db, policyId: string)
    requires Holds(limit, db)
    ensures Holds(limit, db.(policies := Deactivated(db.policies, policyId)))
  {
    forall agentId, day ensures HoldsOn(limit, db.(policies := Deactivated(db.policies, policyId)), agentId, day) {
      assert HoldsOn(limit, db, agentId, day);
      DeactivationKeepsLimits(db.policies, policyId, agentId);
    }
  }

  /** A transaction is denied exactly when some rule denies it. */
  lemma DeniedIff(db: Db, t: Transaction, now: int)
    ensures VerdictOn(db, t, now).decision == DENIED <==> SomeRuleDenies(db, t, now)
  {
    LadderMeaning(RequestFor(db, t, now));
    hide RequestFor, Evaluate, Fires, IsDenial;
  }

  lemma EvaluationKeepsLimitIff(prim: Primitives, limit: DayLimit, db: Db, id: string, proofId: string, now: int)
    requires AmountsPositive(db) && Holds(limit, db)
    ensures Holds(limit, AfterEvaluate(prim, db, id, proofId, now)) <==> Fits(limit, db, EvaluateTx(id, proofId, now))
  {
    hide VerdictOn, SomeRuleDenies, Holds, Room;
    var found := FindTransaction(db.transactions, id);
    var after := AfterEvaluate(prim, db, id, proofId, now);
    if found.Some? {
      var t := db.transactions[found.value];
      var d := VerdictOn(db, t, now).decision;
      DeniedIff(db, t, now);
      SettleKeepsLimitIff(limit, db, found.value, Decide(t, d, now), d);
      SameLimits(limit, after, db.(transactions := after.transactions));
    }
  }

  lemma ReviewKeepsLimitIff(limit: DayLimit, db: Db, approvalId: string, id: string, action: string)
    requires AmountsPositive(db) && Holds(limit, db)
    ensures Holds(limit, AfterReview(db, approvalId, id, action)) <==> Fits(limit, db, Review(approvalId, id, action))
  {
    hide Holds, Room;
    var found := FindTransaction(db.transactions, id);
    var after := AfterReview(db, approvalId, id, action);
    if found.Some? {
      var t := db.transactions[found.value];
      SettleKeepsLimitIff(limit, db, found.value, t.(status := Settled(ReviewDecision(action))), ReviewDecision(action));
    }
    SameLimits(limit, after, db.(transactions := after.transactions));
  }

  /** One call keeps a day limit exactly when what it settles fits. */
  lemma StepKeepsLimitIff(prim: Primitives, limit: DayLimit, db: Db, op: Op)
    requires AmountsPositive(db) && Holds(limit, db)
    ensures Holds(limit, Step(prim, db, op)) <==> Fits(limit, db, op)
  {
    hide Holds;
    match op
    case Create(id, agentId, payment, destination, now) =>
      var r := NewTransaction(db, id, agentId, payment, destination, now);
      if r.Ok? {
        CreateKeepsLimit(limit, db, r.value);
      }
    case EvaluateTx(id, proofId, now) => EvaluationKeepsLimitIff(prim, limit, db, id, proofId, now);
    case Review(approvalId, id, action) => ReviewKeepsLimitIff(limit, db, approvalId, id, action);
    case Deactivate(policyId) => DeactivationKeepsLimit(limit, db, policyId);
  }

  /**
   Any run whatever: a day limit holds at every point of it exactly when every settlement in it
   fits, checked on the state just before.
   */
  lemma {:induction false} LimitHoldsThroughoutIff(prim: Primitives, limit: DayLimit, db: Db, ops: seq<Op>)
    requires AmountsPositive(db) && Holds(limit, db)
    ensures (forall k :: 0 <= k <= |ops| ==> Holds(limit, Run(prim, db, ops[..k]))) <==>
            (forall k :: 0 <= k < |ops| ==> Fits(limit, Run(prim, db, ops[..k]), ops[k]))
  {
    hide Step, Holds, Fits, AmountsPositive;
    assert ops[..|ops|] == ops;
    if ops != [] {
      var n := |ops| - 1;
      var shorter := ops[..n];
      assert forall k :: 0 <= k <= n ==> shorter[..k] == ops[..k];
      assert forall k :: 0 <= k < n ==> shorter[k] == ops[k];
      LimitHoldsThroughoutIff(prim, limit, db, shorter);
      assert ops[..n + 1] == ops;
      AmountsStayPositive(prim, db, shorter);
      if Holds(limit, Run(prim, db, shorter)) {
        StepKeepsLimitIff(prim, limit, Run(prim, db, shorter), ops[n]);
      }
    }
  }
}
