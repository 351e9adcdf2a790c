/** What an evaluation reads: the agent's first row, its first active policy, and the agent's day so far. */
module LedgerEvaluation {
  import opened Wrappers
  import opened Decisions
  import opened RuleEngine
  import opened Ledger

  const MICROSECONDS_PER_DAY := 24 * 60 * 60 * 1_000_000

  /** Midnight UTC before `now`. */
  ghost predicate IsMidnight(midnight: int, now: int) {
    midnight % MICROSECONDS_PER_DAY == 0 && midnight <= now < midnight + MICROSECONDS_PER_DAY
  }

  /** The agent's amounts since midnight that were not denied. */
  function SpentSince(ts: seq<Transaction>, agentId: string, midnight: int): real {
    if ts == [] then 0.0
    else
      var t := ts[|ts| - 1];
      SpentSince(ts[..|ts| - 1], agentId, midnight)
      + if t.agentId == agentId && t.createdAt >= midnight && t.status != Settled(DENIED) then t.payment.amount else 0.0
  }

  /** The agent's transactions since midnight, whatever became of them. */
  function MadeSince(ts: seq<Transaction>, agentId: string, midnight: int): nat {
    if ts == [] then 0
    else
      var t := ts[|ts| - 1];
      MadeSince(ts[..|ts| - 1], agentId, midnight) + if t.agentId == agentId && t.createdAt >= midnight then 1 else 0
  }

  ghost predicate FirstAgent(agents: seq<Agent>, id: string, k: nat) {
    k < |agents| && agents[k].id == id && forall j :: 0 <= j < k ==> agents[j].id != id
  }

  predicate Applies(p: Policy, agentId: string) {
    p.agentId == Some(agentId) && p.isActive
  }

  /** The policy row at `k` is the agent's first whose `is_active` flag is set. */
  ghost predicate FirstActive(policies: seq<Policy>, agentId: string, k: nat) {
    k < |policies| && Applies(policies[k], agentId) && forall j :: 0 <= j < k ==> !Applies(policies[j], agentId)
  }

  ghost predicate NoneActive(policies: seq<Policy>, agentId: string) {
    forall j :: 0 <= j < |policies| && policies[j].agentId == Some(agentId) ==> !policies[j].isActive
  }

  // ---------------------------------------------------------------- the queries

  lemma {:induction false} AgentFound(agents: seq<Agent>, id: string, k: nat)
    requires FirstAgent(agents, id, k)
    ensures FindAgent(agents, id) == Some(agents[k])
  {
    if k > 0 {
      assert forall j :: 0 <= j < k - 1 ==> agents[1..][j] == agents[j + 1];
      AgentFound(agents[1..], id, k - 1);
    }
  }

  lemma {:induction false} NoAgentFound(agents: seq<Agent>, id: string)
    requires forall j :: 0 <= j < |agents| ==> agents[j].id != id
    ensures FindAgent(agents, id) == None
  {
    if agents != [] {
      NoAgentFound(agents[1..], id);
    }
  }

  lemma {:induction false} PolicyFound(policies: seq<Policy>, agentId: string, k: nat)
    requires FirstActive(policies, agentId, k)
    ensures ActivePolicy(policies, agentId) == Some(policies[k])
  {
    if k > 0 {
      assert forall j :: 0 <= j < k - 1 ==> policies[1..][j] == policies[j + 1];
      assert !Applies(policies[0], agentId);
      PolicyFound(policies[1..], agentId, k - 1);
    }
  }

  lemma {:induction false} NoPolicyFound(policies: seq<Policy>, agentId: string)
    requires NoneActive(policies, agentId)
    ensures ActivePolicy(policies, agentId) == None
  {
    if policies != [] {
      NoPolicyFound(policies[1..], agentId);
    }
  }

  lemma MidnightIsStart(midnight: int, now: int)
    requires IsMidnight(midnight, now)
    ensures StartOfDay(now) == midnight
  {
    assert MICROSECONDS_PER_DAY == DAY;
    assert now - midnight == now % DAY;
  }

  lemma {:induction false} SumAppended(w: Where, ts: seq<Transaction>, t: Transaction)
    ensures SumAmount(w, ts + [t]) == SumAmount(w, ts) + Share(w, t)
    ensures CountRows(w, ts + [t]) == CountRows(w, ts) + if Selects(w, t) then 1 else 0
  {
    if ts == [] {
      assert [] + [t] == [t];
    } else {
      assert (ts + [t])[1..] == ts[1..] + [t];
      SumAppended(w, ts[1..], t);
    }
  }

  /** The two SQL aggregates are the day so far. */
  lemma {:induction false} AggregatesMeaning(ts: seq<Transaction>, agentId: string, midnight: int, now: int)
    requires IsMidnight(midnight, now)
    ensures SumAmount(SpendQuery(agentId, now), ts) == SpentSince(ts, agentId, midnight)
    ensures CountRows(CountQuery(agentId, now), ts) == MadeSince(ts, agentId, midnight)
  {
    MidnightIsStart(midnight, now);
    if ts != [] {
      var earlier, t := ts[..|ts| - 1], ts[|ts| - 1];
      AggregatesMeaning(earlier, agentId, midnight, now);
      assert ts == earlier + [t];
      SumAppended(SpendQuery(agentId, now), earlier, t);
      SumAppended(CountQuery(agentId, now), earlier, t);
      NotDeniedCounts(t.status);
    }
  }

  lemma NotDeniedCounts(s: Status)
    ensures s in {Settled(APPROVED), Submitted, Settled(ESCALATED)} <==> s != Settled(DENIED)
  {
    if s.Settled? {
      match s.decision
      case APPROVED =>
      case DENIED =>
      case ESCALATED =>
    }
  }

  // ---------------------------------------------------------------- what the verdict is given on

  /** The verdict on a stored transaction is the engine's on its agent, its agent's first active policy, and the agent's day so far. */
  lemma VerdictReads(db: Db, t: Transaction, now: int, a: nat, k: nat, midnight: int)
    requires FirstAgent(db.agents, t.agentId, a) && FirstActive(db.policies, t.agentId, k) && IsMidnight(midnight, now)
    ensures VerdictOn(db, t, now) ==
            Evaluate(Request(Some(db.agents[a]), Some(db.policies[k]), t.payment,
                             SpentSince(db.transactions, t.agentId, midnight), MadeSince(db.transactions, t.agentId, midnight)))
  {
    AgentFound(db.agents, t.agentId, a);
    PolicyFound(db.policies, t.agentId, k);
    AggregatesMeaning(db.transactions, t.agentId, midnight, now);
    hide Evaluate;
  }

  /** With no policy row active, an active agent's transaction is denied for want of a policy. */
  lemma NoActivePolicyDenies(db: Db, t: Transaction, now: int, a: nat)
    requires FirstAgent(db.agents, t.agentId, a) && db.agents[a].isActive && NoneActive(db.policies, t.agentId)
    ensures VerdictOn(db, t, now) == Verdict(DENIED, POLICY_NOT_FOUND, HIGH, false)
  {
    AgentFound(db.agents, t.agentId, a);
    NoPolicyFound(db.policies, t.agentId);
  }

  /** An unknown or inactive agent is denied whatever its policies. */
  lemma NoActiveAgentDenies(db: Db, t: Transaction, now: int)
    requires (forall j :: 0 <= j < |db.agents| ==> db.agents[j].id != t.agentId)
             || exists a: nat :: FirstAgent(db.agents, t.agentId, a) && !db.agents[a].isActive
    ensures VerdictOn(db, t, now) == Verdict(DENIED, AGENT_INACTIVE, HIGH, false)
  {
    if a: nat :| FirstAgent(db.agents, t.agentId, a) && !db.agents[a].isActive {
      AgentFound(db.agents, t.agentId, a);
    } else {
      NoAgentFound(db.agents, t.agentId);
    }
  }

  /** What is not denied respects every limit of the first active policy, on the agent's day so far. */
  lemma LimitsApplied(db: Db, t: Transaction, now: int, a: nat, k: nat, midnight: int)
    requires FirstAgent(db.agents, t.agentId, a) && FirstActive(db.policies, t.agentId, k) && IsMidnight(midnight, now)
    requires VerdictOn(db, t, now).decision != DENIED
    ensures var p, amount := db.policies[k], t.payment.amount;
            && db.agents[a].isActive && amount > 0.0
            && (p.perTxLimit.Some? ==> amount <= p.perTxLimit.value)
            && (p.dailyBudget.Some? ==> SpentSince(db.transactions, t.agentId, midnight) + amount <= p.dailyBudget.value)
            && (p.maxTransactionsPerDay.Some? ==> MadeSince(db.transactions, t.agentId, midnight) < p.maxTransactionsPerDay.value)
  {
    VerdictReads(db, t, now, a, k, midnight);
    hide VerdictOn, Evaluate, SpentSince, MadeSince;
    LimitsKept(Request(Some(db.agents[a]), Some(db.policies[k]), t.payment,
                       SpentSince(db.transactions, t.agentId, midnight), MadeSince(db.transactions, t.agentId, midnight)));
  }

  /** The same of any request that names an agent and a policy. */
  lemma LimitsKept(req: Request)
    requires req.agent.Some? && req.policy.Some? && Evaluate(req).decision != DENIED
    ensures var p, amount := req.policy.value, req.payment.amount;
            && req.agent.value.isActive && amount > 0.0
            && (p.perTxLimit.Some? ==> amount <= p.perTxLimit.value)
            && (p.dailyBudget.Some? ==> req.dailySpendTotal + amount <= p.dailyBudget.value)
            && (p.maxTransactionsPerDay.Some? ==> req.dailyTransactionCount < p.maxTransactionsPerDay.value)
  {
    hide Evaluate, Cleaned, Listed, Restricts;
    NoDenialRuleFires(req, AGENT_INACTIVE);
    NoDenialRuleFires(req, INVALID_AMOUNT);
    NoDenialRuleFires(req, PER_TX_LIMIT_EXCEEDED);
    NoDenialRuleFires(req, DAILY_BUDGET_EXCEEDED);
    NoDenialRuleFires(req, MAX_TX_COUNT_EXCEEDED);
  }
}
