/** Spend safety over whole runs of the ledger. */
module LedgerSpend {
  import opened Wrappers
  import opened Decisions
  import opened RuleEngine
  import opened Ledger

  predicate Committed(s: Status) {
    s == Settled(APPROVED) || s == Settled(ESCALATED)
  }

  /** Committed transactions of an agent created on a given day. */
  function CommittedOn(agentId: string, day: int): Where {
    Where(agentId, Some({Settled(APPROVED), Settled(ESCALATED)}), day * DAY, Some((day + 1) * DAY))
  }

  function CommittedSpend(db: Db, agentId: string, day: int): real {
    SumAmount(CommittedOn(agentId, day), db.transactions)
  }

  function CommittedCount(db: Db, agentId: string, day: int): nat {
    CountRows(CommittedOn(agentId, day), db.transactions)
  }

  /**
   The policy's day limits hold for one agent and day: the committed total is at most the daily
   budget, and the number of committed transactions stays strictly below the daily maximum.
   */
  predicate WithinDay(db: Db, agentId: string, day: int) {
    var policy := ActivePolicy(db.policies, agentId);
    policy.Some? ==>
      && (policy.value.dailyBudget.Some? ==>
          CommittedSpend(db, agentId, day) == 0.0 || CommittedSpend(db, agentId, day) <= policy.value.dailyBudget.value)
      && (policy.value.maxTransactionsPerDay.Some? ==>
          CommittedCount(db, agentId, day) == 0 || CommittedCount(db, agentId, day) < policy.value.maxTransactionsPerDay.value)
  }

  ghost predicate WithinLimits(db: Db) {
    forall agentId, day :: WithinDay(db, agentId, day)
  }

  ghost predicate AmountsPositive(db: Db) {
    forall i :: 0 <= i < |db.transactions| ==> db.transactions[i].payment.amount > 0.0
  }

  // ---------------------------------------------------------------- sums over the table

  lemma {:induction false} SumUpdate(w: Where, ts: seq<Transaction>, i: nat, t: Transaction)
    requires i < |ts|
    ensures SumAmount(w, ts[i := t]) == SumAmount(w, ts) - Share(w, ts[i]) + Share(w, t)
  {
    if i == 0 {
      assert ts[i := t][1..] == ts[1..];
    } else {
      assert ts[i := t][1..] == ts[1..][i - 1 := t];
      SumUpdate(w, ts[1..], i - 1, t);
    }
  }

  lemma {:induction false} SumAppend(w: Where, ts: seq<Transaction>, t: Transaction)
    ensures SumAmount(w, ts + [t]) == SumAmount(w, ts) + Share(w, t)
  {
    if ts == [] {
      assert ts + [t] == [t];
    } else {
      assert (ts + [t])[1..] == ts[1..] + [t];
      SumAppend(w, ts[1..], t);
    }
  }

  /** Selecting more rows never lowers a sum of positive amounts. */
  lemma {:induction false} SumGrows(w: Where, w': Where, ts: seq<Transaction>)
    requires forall i :: 0 <= i < |ts| ==> ts[i].payment.amount > 0.0
    requires forall i :: 0 <= i < |ts| && Selects(w, ts[i]) ==> Selects(w', ts[i])
    ensures 0.0 <= SumAmount(w, ts) <= SumAmount(w', ts)
  {
    if ts != [] {
      SumGrows(w, w', ts[1..]);
    }
  }

  lemma {:induction false} CountUpdate(w: Where, ts: seq<Transaction>, i: nat, t: Transaction)
    requires i < |ts|
    ensures CountRows(w, ts[i := t]) + (if Selects(w, ts[i]) then 1 else 0) == CountRows(w, ts) + (if Selects(w, t) then 1 else 0)
  {
    if i == 0 {
      assert ts[i := t][1..] == ts[1..];
    } else {
      assert ts[i := t][1..] == ts[1..][i - 1 := t];
      CountUpdate(w, ts[1..], i - 1, t);
    }
  }

  lemma {:induction false} CountAppend(w: Where, ts: seq<Transaction>, t: Transaction)
    ensures CountRows(w, ts + [t]) == CountRows(w, ts) + (if Selects(w, t) then 1 else 0)
  {
    if ts == [] {
      assert ts + [t] == [t];
    } else {
      assert (ts + [t])[1..] == ts[1..] + [t];
      CountAppend(w, ts[1..], t);
    }
  }

  lemma {:induction false} CountGrows(w: Where, w': Where, ts: seq<Transaction>)
    requires forall i :: 0 <= i < |ts| && Selects(w, ts[i]) ==> Selects(w', ts[i])
    ensures CountRows(w, ts) <= CountRows(w', ts)
  {
    if ts != [] {
      CountGrows(w, w', ts[1..]);
    }
  }

  // ---------------------------------------------------------------- one decision

  /** What a transaction adds to its day once it is committed. */
  predicate InDay(t: Transaction, agentId: string, day: int) {
    t.agentId == agentId && DayOf(t.createdAt) == day
  }

  lemma CommittedMeaning(t: Transaction, agentId: string, day: int)
    ensures Selects(CommittedOn(agentId, day), t) <==> InDay(t, agentId, day) && Committed(t.status)
  {
  }

  lemma TodayMeaning(t: Transaction, now: int)
    requires t.createdAt <= now
    ensures StartOfDay(now) <= t.createdAt <==> DayOf(t.createdAt) == DayOf(now)
  {
  }

  /** Settling one transaction moves the committed total of its own day by its amount, and no other total. */
  lemma SettleMovesSpend(db: Db, i: nat, t': Transaction, agentId: string, day: int)
    requires i < |db.transactions|
    requires var t := db.transactions[i]; t'.agentId == t.agentId && t'.payment == t.payment && t'.createdAt == t.createdAt
    ensures var t := db.transactions[i];
            var after := db.(transactions := db.transactions[i := t']);
            var mine := InDay(t, agentId, day);
            && CommittedSpend(after, agentId, day) ==
               CommittedSpend(db, agentId, day)
               - (if mine && Committed(t.status) then t.payment.amount else 0.0)
               + (if mine && Committed(t'.status) then t.payment.amount else 0.0)
            && CommittedCount(after, agentId, day) + (if mine && Committed(t.status) then 1 else 0)
               == CommittedCount(db, agentId, day) + (if mine && Committed(t'.status) then 1 else 0)
  {
    var t := db.transactions[i];
    CommittedMeaning(t, agentId, day);
    CommittedMeaning(t', agentId, day);
    SumUpdate(CommittedOn(agentId, day), db.transactions, i, t');
    CountUpdate(CommittedOn(agentId, day), db.transactions, i, t');
  }

  /** The committed rows of a day are among those the spend and count queries see on that day. */
  lemma QueriesCoverCommitted(db: Db, agentId: string, now: int)
    requires AmountsPositive(db)
    requires forall i :: 0 <= i < |db.transactions| ==> db.transactions[i].createdAt <= now
    ensures 0.0 <= CommittedSpend(db, agentId, DayOf(now)) <= SumAmount(SpendQuery(agentId, now), db.transactions)
    ensures CommittedCount(db, agentId, DayOf(now)) <= CountRows(CountQuery(agentId, now), db.transactions)
  {
    var w := CommittedOn(agentId, DayOf(now));
    forall i | 0 <= i < |db.transactions| && Selects(w, db.transactions[i])
      ensures Selects(SpendQuery(agentId, now), db.transactions[i]) && Selects(CountQuery(agentId, now), db.transactions[i])
    {
      CommittedMeaning(db.transactions[i], agentId, DayOf(now));
      TodayMeaning(db.transactions[i], now);
    }
    SumGrows(w, SpendQuery(agentId, now), db.transactions);
    CountGrows(w, CountQuery(agentId, now), db.transactions);
  }

  /** The count query does not look at statuses. */
  lemma CountIgnoresStatus(ts: seq<Transaction>, i: nat, t': Transaction, agentId: string, now: int)
    requires i < |ts| && t'.agentId == ts[i].agentId && t'.createdAt == ts[i].createdAt
    ensures CountRows(CountQuery(agentId, now), ts[i := t']) == CountRows(CountQuery(agentId, now), ts)
  {
    CountUpdate(CountQuery(agentId, now), ts, i, t');
  }

  /** A verdict that does not deny leaves room in the budget and in the daily maximum. */
  lemma NotDeniedFits(db: Db, t: Transaction, now: int)
    requires VerdictOn(db, t, now).decision != DENIED
    ensures var policy := ActivePolicy(db.policies, t.agentId);
            && policy.Some?
            && (policy.value.dailyBudget.Some? ==>
                SumAmount(SpendQuery(t.agentId, now), db.transactions) + t.payment.amount <= policy.value.dailyBudget.value)
            && (policy.value.maxTransactionsPerDay.Some? ==>
                CountRows(CountQuery(t.agentId, now), db.transactions) < policy.value.maxTransactionsPerDay.value)
  {
    hide Evaluate, Cleaned, Listed, Restricts;
    var req := RequestFor(db, t, now);
    NoDenialRuleFires(req, POLICY_NOT_FOUND);
    NoDenialRuleFires(req, DAILY_BUDGET_EXCEEDED);
    NoDenialRuleFires(req, MAX_TX_COUNT_EXCEEDED);
  }

  // ---------------------------------------------------------------- runs

  /** The clock has not run backwards. */
  ghost predicate ClockReached(db: Db, now: int) {
    forall i :: 0 <= i < |db.transactions| ==> db.transactions[i].createdAt <= now
  }

  /**
   The discipline under which the limits are promised: transactions are evaluated on the day they
   were created, and only escalated ones are reviewed.
   */
  ghost predicate Disciplined(db: Db, op: Op) {
    match op
    case EvaluateTx(id, _, now) =>
      && ClockReached(db, now)
      && (var found := FindTransaction(db.transactions, id);
          found.Some? ==> DayOf(db.transactions[found.value].createdAt) == DayOf(now))
    case Review(_, id, _) =>
      var found := FindTransaction(db.transactions, id);
      found.Some? ==> db.transactions[found.value].status == Settled(ESCALATED)
    case _ => true
  }

  ghost predicate DisciplinedRun(prim: Primitives, db: Db, ops: seq<Op>) {
    forall k :: 0 <= k < |ops| ==> Disciplined(Run(prim, db, ops[..k]), ops[k])
  }

  lemma EvaluateKeepsDay(db: Db, i: nat, now: int, agentId: string, day: int)
    requires AmountsPositive(db) && ClockReached(db, now)
    requires i < |db.transactions| && DayOf(db.transactions[i].createdAt) == DayOf(now)
    requires WithinDay(db, agentId, day)
    ensures var t := db.transactions[i];
            WithinDay(db.(transactions := db.transactions[i := Decide(t, VerdictOn(db, t, now).decision, now)]), agentId, day)
  {
    var t := db.transactions[i];
    var d := VerdictOn(db, t, now).decision;
    var t' := Decide(t, d, now);
    var after := db.(transactions := db.transactions[i := t']);
    SettleMovesSpend(db, i, t', agentId, day);
    if InDay(t, agentId, day) {
      QueriesCoverCommitted(db, agentId, now);
      if d != DENIED {
        NotDeniedFits(db, t, now);
        CountIgnoresStatus(db.transactions, i, t', agentId, now);
        QueriesCoverCommitted(after, agentId, now);
      } else {
        QueriesCoverCommitted(after, agentId, now);
      }
    }
  }

  lemma ReviewKeepsDay(db: Db, i: nat, d: Decision, agentId: string, day: int)
    requires AmountsPositive(db)
    requires i < |db.transactions| && db.transactions[i].status == Settled(ESCALATED)
    requires WithinDay(db, agentId, day)
    ensures WithinDay(db.(transactions := db.transactions[i := db.transactions[i].(status := Settled(d))]), agentId, day)
  {
    var t' := db.transactions[i].(status := Settled(d));
    var after := db.(transactions := db.transactions[i := t']);
    SettleMovesSpend(db, i, t', agentId, day);
    SumGrows(CommittedOn(agentId, day), CommittedOn(agentId, day), after.transactions);
  }

  lemma CreateKeepsDay(db: Db, t: Transaction, agentId: string, day: int)
    requires t.status == Submitted && WithinDay(db, agentId, day)
    ensures WithinDay(db.(transactions := db.transactions + [t]), agentId, day)
  {
    SumAppend(CommittedOn(agentId, day), db.transactions, t);
    CountAppend(CommittedOn(agentId, day), db.transactions, t);
  }

  /** Soft-deleting a policy changes nothing that evaluation reads: the same limits stay in force. */
  lemma {:induction false} DeactivationKeepsLimits(policies: seq<Policy>, policyId: string, agentId: string)
    ensures var before, after := ActivePolicy(policies, agentId), ActivePolicy(Deactivated(policies, policyId), agentId);
            (before.None? && after.None?) ||
            (before.Some? && after.Some? && after.value.(status := before.value.status) == before.value)
  {
    if policies != [] {
      DeactivationKeepsLimits(policies[1..], policyId, agentId);
      var r := Deactivated(policies, policyId);
      if policies[0].id == policyId {
        assert r[1..] == policies[1..];
      } else {
        assert r[1..] == Deactivated(policies[1..], policyId);
      }
    }
  }

  /** The engine does not look at a policy's status. */
  lemma StatusIsNotRead(req: Request, status: string)
    requires req.policy.Some?
    ensures Evaluate(req.(policy := Some(req.policy.value.(status := status)))) == Evaluate(req)
  {
    hide Blocks, Excludes, Cleaned, Passes, Reaches;
  }

  /** A deactivated policy still decides: the verdict on every transaction is what it was. */
  lemma DeactivationIsInvisible(db: Db, policyId: string, t: Transaction, now: int)
    ensures VerdictOn(db.(policies := Deactivated(db.policies, policyId)), t, now) == VerdictOn(db, t, now)
  {
    DeactivationKeepsLimits(db.policies, policyId, t.agentId);
    var before, after := RequestFor(db, t, now), RequestFor(db.(policies := Deactivated(db.policies, policyId)), t, now);
    hide Evaluate;
    if after.policy.Some? {
      StatusIsNotRead(before, after.policy.value.status);
      assert after == before.(policy := Some(before.policy.value.(status := after.policy.value.status)));
    }
  }

  lemma StepKeepsAmounts(prim: Primitives, db: Db, op: Op)
    requires AmountsPositive(db)
    ensures AmountsPositive(Step(prim, db, op))
  {
  }

  lemma StepKeepsLimits(prim: Primitives, db: Db, op: Op)
    requires AmountsPositive(db) && WithinLimits(db) && Disciplined(db, op)
    ensures WithinLimits(Step(prim, db, op))
  {
    var after := Step(prim, db, op);
    forall agentId, day ensures WithinDay(after, agentId, day) {
      assert WithinDay(db, agentId, day);
      match op
      case Create(id, a, payment, destination, now) =>
        var r := NewTransaction(db, id, a, payment, destination, now);
        if r.Ok? {
          CreateKeepsDay(db, r.value, agentId, day);
        }
      case EvaluateTx(id, proofId, now) =>
        var found := FindTransaction(db.transactions, id);
        if found.Some? {
          EvaluateKeepsDay(db, found.value, now, agentId, day);
        }
      case Review(_, id, action) =>
        var found := FindTransaction(db.transactions, id);
        if found.Some? {
          ReviewKeepsDay(db, found.value, ReviewDecision(action), agentId, day);
        }
      case Deactivate(policyId) =>
        DeactivationKeepsLimits(db.policies, policyId, agentId);
    }
  }

  /**
   Spend safety: from an empty ledger, every disciplined interleaving of creations, evaluations,
   re-evaluations, reviews and policy deactivations keeps, for every agent and every day, the
   committed total within the daily budget and the committed count below the daily maximum.
   */
  lemma {:induction false} SpendSafety(prim: Primitives, db: Db, ops: seq<Op>)
    requires db.transactions == []
    requires DisciplinedRun(prim, db, ops)
    ensures AmountsPositive(Run(prim, db, ops)) && WithinLimits(Run(prim, db, ops))
  {
    if ops != [] {
      var shorter := ops[..|ops| - 1];
      assert forall k :: 0 <= k < |shorter| ==> shorter[..k] == ops[..k] && shorter[k] == ops[k];
      SpendSafety(prim, db, shorter);
      assert ops[..|ops| - 1] == shorter;
      StepKeepsAmounts(prim, Run(prim, db, shorter), ops[|ops| - 1]);
      StepKeepsLimits(prim, Run(prim, db, shorter), ops[|ops| - 1]);
    }
  }

  lemma {:induction false} AmountsStayPositive(prim: Primitives, db: Db, ops: seq<Op>)
    requires AmountsPositive(db)
    ensures AmountsPositive(Run(prim, db, ops))
  {
    if ops != [] {
      AmountsStayPositive(prim, db, ops[..|ops| - 1]);
      StepKeepsAmounts(prim, Run(prim, db, ops[..|ops| - 1]), ops[|ops| - 1]);
    }
  }

  // ---------------------------------------------------------------- what the queries really see

  /** The day's spend of every row but one. */
  function OthersSpend(db: Db, i: nat, now: int): real
    requires i < |db.transactions|
  {
    var ts := db.transactions;
    SumAmount(SpendQuery(ts[i].agentId, now), ts[..i]) + SumAmount(SpendQuery(ts[i].agentId, now), ts[i + 1..])
  }

  lemma {:induction false} SumSplit(w: Where, a: seq<Transaction>, b: seq<Transaction>)
    ensures SumAmount(w, a + b) == SumAmount(w, a) + SumAmount(w, b)
  {
    if a == [] {
      assert a + b == b;
    } else {
      assert (a + b)[1..] == a[1..] + b;
      SumSplit(w, a[1..], b);
    }
  }

  /**
   The transaction under evaluation is already in the table. Unless it is denied it is part of the
   day's spend, so the budget rule passes it exactly when twice its amount still fits beside the
   other transactions of the day.
   */
  lemma BudgetCountsTheTransactionTwice(db: Db, i: nat, now: int, budget: real)
    requires i < |db.transactions|
    requires var t := db.transactions[i];
             && t.status != Settled(DENIED)
             && t.createdAt <= now && DayOf(t.createdAt) == DayOf(now)
             && ActivePolicy(db.policies, t.agentId).Some?
             && ActivePolicy(db.policies, t.agentId).value.dailyBudget == Some(budget)
    ensures var t := db.transactions[i];
            Fires(DAILY_BUDGET_EXCEEDED, RequestFor(db, t, now)) <==>
            OthersSpend(db, i, now) + 2.0 * t.payment.amount > budget
  {
    var ts, t := db.transactions, db.transactions[i];
    var w := SpendQuery(t.agentId, now);
    TodayMeaning(t, now);
    assert ts == ts[..i] + ([t] + ts[i + 1..]);
    SumSplit(w, ts[..i], [t] + ts[i + 1..]);
    assert ([t] + ts[i + 1..])[1..] == ts[i + 1..];
    match t.status {
      case Submitted =>
      case Settled(d) => assert d == APPROVED || d == ESCALATED;
    }
  }

  // ---------------------------------------------------------------- why the discipline is needed

  function SampleAgent(): Agent {
    Agent("a", "A", "wallet", true)
  }

  function SamplePolicy(budget: real): Policy {
    Policy("p", Some("a"), "P", "ACTIVE", true, None, None, None, None, None, None, None, Some(budget), None, None, false, None)
  }

  function SampleDb(): Db {
    Db([SampleAgent()], [SamplePolicy(100.0)], [], [], [], [])
  }

  function Amount(x: real): Payment {
    Payment(x, None, None, None)
  }

  function SampleTx(id: string, amount: real): Transaction {
    Transaction(id, "a", "wallet", Amount(amount), "d", Submitted, None, None, 0)
  }

  ghost predicate Sample(db: Db, ts: seq<Transaction>) {
    db.agents == [SampleAgent()] && db.policies == [SamplePolicy(100.0)] && db.transactions == ts
  }

  lemma RunOneMore(prim: Primitives, db: Db, ops: seq<Op>, op: Op)
    ensures Run(prim, db, ops + [op]) == Step(prim, Run(prim, db, ops), op)
  {
    assert (ops + [op])[..|ops|] == ops;
  }

  lemma SampleCreate(prim: Primitives, db: Db, ts: seq<Transaction>, id: string, amount: real)
    requires Sample(db, ts) && FindTransaction(ts, id).None? && amount > 0.0
    ensures Sample(Step(prim, db, Create(id, "a", Amount(amount), "d", 0)), ts + [SampleTx(id, amount)])
  {
    assert FindAgent([SampleAgent()], "a") == Some(SampleAgent());
  }

  lemma SampleVerdict(req: Request)
    requires req.agent == Some(SampleAgent()) && req.policy == Some(SamplePolicy(100.0))
    requires req.payment == Amount(req.payment.amount) && req.payment.amount > 0.0
    ensures Evaluate(req).decision == if req.dailySpendTotal + req.payment.amount > 100.0 then DENIED else APPROVED
  {
  }

  lemma SampleVerdictOn(db: Db, ts: seq<Transaction>, t: Transaction, now: int, spend: real)
    requires Sample(db, ts) && t == SampleTx(t.id, t.payment.amount) && t.payment.amount > 0.0
    requires SumAmount(SpendQuery("a", now), ts) == spend
    ensures VerdictOn(db, t, now).decision == if spend + t.payment.amount > 100.0 then DENIED else APPROVED
  {
    var req := RequestFor(db, t, now);
    assert FindAgent([SampleAgent()], "a") == Some(SampleAgent());
    hide Evaluate, SumAmount, CountRows;
    SampleVerdict(req);
  }

  /** What the sample policy does to a transaction, as a function of the spend it sees. */
  lemma SampleEvaluate(prim: Primitives, db: Db, ts: seq<Transaction>, i: nat, proofId: string, now: int, spend: real)
    requires Sample(db, ts) && i < |ts| && FindTransaction(ts, ts[i].id) == Some(i)
    requires ts[i] == SampleTx(ts[i].id, ts[i].payment.amount) && ts[i].payment.amount > 0.0
    requires SumAmount(SpendQuery("a", now), ts) == spend
    ensures Sample(Step(prim, db, EvaluateTx(ts[i].id, proofId, now)),
                   ts[i := Decide(ts[i], if spend + ts[i].payment.amount > 100.0 then DENIED else APPROVED, now)])
  {
    SampleVerdictOn(db, ts, ts[i], now, spend);
    hide VerdictOn, SumAmount;
  }

  lemma SumOfOne(w: Where, t: Transaction)
    ensures SumAmount(w, [t]) == Share(w, t)
  {
  }

  lemma SumOfTwo(w: Where, t: Transaction, u: Transaction)
    ensures SumAmount(w, [t, u]) == Share(w, t) + Share(w, u)
  {
    assert [t, u][1..] == [u];
    SumOfOne(w, u);
  }

  lemma SampleFirst(prim: Primitives, amount: real)
    requires amount > 0.0
    ensures var ops := [Create("t1", "a", Amount(amount), "d", 0)] + [EvaluateTx("t1", "x", 0)];
            Sample(Run(prim, SampleDb(), ops), [Decide(SampleTx("t1", amount), if 2.0 * amount > 100.0 then DENIED else APPROVED, 0)])
  {
    var a, b := Create("t1", "a", Amount(amount), "d", 0), EvaluateTx("t1", "x", 0);
    var t := SampleTx("t1", amount);
    RunOneMore(prim, SampleDb(), [], a);
    assert [] + [a] == [a];
    SampleCreate(prim, SampleDb(), [], "t1", amount);
    RunOneMore(prim, SampleDb(), [a], b);
    SumOfOne(SpendQuery("a", 0), t);
    SampleEvaluate(prim, Run(prim, SampleDb(), [a]), [t], 0, "x", 0, amount);
  }

  lemma SampleLate(prim: Primitives, db: Db, t1: Transaction)
    requires Sample(db, [t1]) && t1.id == "t1" && t1.createdAt == 0
    ensures var t2 := SampleTx("t2", 70.0);
            Sample(Step(prim, Step(prim, db, Create("t2", "a", Amount(70.0), "d", 0)), EvaluateTx("t2", "y", DAY)), [t1, Decide(t2, APPROVED, DAY)])
  {
    var t2 := SampleTx("t2", 70.0);
    SampleCreate(prim, db, [t1], "t2", 70.0);
    assert [t1] + [t2] == [t1, t2] && [t1, t2][1..] == [t2];
    SumOfTwo(SpendQuery("a", DAY), t1, t2);
    SampleEvaluate(prim, Step(prim, db, Create("t2", "a", Amount(70.0), "d", 0)), [t1, t2], 1, "y", DAY, 0.0);
    assert [t1, t2][1 := Decide(t2, APPROVED, DAY)] == [t1, Decide(t2, APPROVED, DAY)];
  }

  /** Evaluating a transaction on a later day checks the wrong day's total: 40 and 70 both pass a budget of 100. */
  lemma LateEvaluationOverspends(prim: Primitives)
    ensures var ops := [Create("t1", "a", Amount(40.0), "d", 0)] + [EvaluateTx("t1", "x", 0)]
                       + [Create("t2", "a", Amount(70.0), "d", 0)] + [EvaluateTx("t2", "y", DAY)];
            CommittedSpend(Run(prim, SampleDb(), ops), "a", 0) == 110.0
  {
    var ops := [Create("t1", "a", Amount(40.0), "d", 0)] + [EvaluateTx("t1", "x", 0)];
    var c, d := Create("t2", "a", Amount(70.0), "d", 0), EvaluateTx("t2", "y", DAY);
    var t1', t2' := Decide(SampleTx("t1", 40.0), APPROVED, 0), Decide(SampleTx("t2", 70.0), APPROVED, DAY);
    SampleFirst(prim, 40.0);
    RunOneMore(prim, SampleDb(), ops, c);
    RunOneMore(prim, SampleDb(), ops + [c], d);
    SampleLate(prim, Run(prim, SampleDb(), ops), t1');
    SumOfTwo(CommittedOn("a", 0), t1', t2');
  }

  /** Approving a transaction that was denied, not escalated, overspends too: 150 passes a budget of 100. */
  lemma ReviewOfDeniedOverspends(prim: Primitives)
    ensures var ops := [Create("t1", "a", Amount(150.0), "d", 0)] + [EvaluateTx("t1", "x", 0)] + [Review("r", "t1", "APPROVE")];
            CommittedSpend(Run(prim, SampleDb(), ops), "a", 0) == 150.0
  {
    hide VerdictOn, Evaluate;
    var ops := [Create("t1", "a", Amount(150.0), "d", 0)] + [EvaluateTx("t1", "x", 0)];
    var t1' := Decide(SampleTx("t1", 150.0), DENIED, 0);
    SampleFirst(prim, 150.0);
    RunOneMore(prim, SampleDb(), ops, Review("r", "t1", "APPROVE"));
    var t1'' := t1'.(status := Settled(APPROVED));
    assert [t1'][0 := t1''] == [t1''];
    SumOfOne(CommittedOn("a", 0), t1'');
  }
}
