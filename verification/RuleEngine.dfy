/** The ordered fifteen-rule verdict on one transaction (`rule_engine.py`). */
module RuleEngine {
  import opened Wrappers
  import opened PyText
  import opened Json
  import opened Decisions
  import JsonRoundTrip

  datatype Risk = LOW | MEDIUM | HIGH

  /** Reason codes, in rule order. */
  datatype Reason =
    | AGENT_INACTIVE
    | POLICY_NOT_FOUND
    | INVALID_AMOUNT
    | VENDOR_BLOCKED
    | CHAIN_BLOCKED
    | ASSET_BLOCKED
    | VENDOR_NOT_ALLOWED
    | CHAIN_NOT_ALLOWED
    | ASSET_NOT_ALLOWED
    | PER_TX_LIMIT_EXCEEDED
    | DAILY_BUDGET_EXCEEDED
    | MAX_TX_COUNT_EXCEEDED
    | IDENTITY_CHECK_REQUIRED
    | THRESHOLD_REQUIRES_APPROVAL
    | WITHIN_POLICY

  datatype Agent = Agent(id: string, name: string, walletAddress: string, isActive: bool)

  /** A policy row. List columns hold JSON text; limits may be null. */
  datatype Policy = Policy(
    id: string,
    agentId: Option<string>,
    name: string,
    status: string,
    isActive: bool,
    blockedVendors: Option<string>,
    blockedChains: Option<string>,
    blockedAssets: Option<string>,
    allowedVendors: Option<string>,
    allowedChains: Option<string>,
    allowedAssets: Option<string>,
    perTxLimit: Option<real>,
    dailyBudget: Option<real>,
    maxTransactionsPerDay: Option<int>,
    identityCheckAbove: Option<real>,
    requireApproval: bool,
    escalationThreshold: Option<real>)

  /** The transaction fields the engine looks at. */
  datatype Payment = Payment(amount: real, vendor: Option<string>, chain: Option<string>, asset: Option<string>)

  datatype Request = Request(
    agent: Option<Agent>,
    policy: Option<Policy>,
    payment: Payment,
    dailySpendTotal: real,
    dailyTransactionCount: int)

  datatype Verdict = Verdict(decision: Decision, reason: Reason, risk: Risk, requiresApproval: bool)

  /** `_parse_json_list` on a text column. */
  function ParseJsonList(raw: Option<string>): seq<Value> {
    match raw
    case None => []
    case Some(text) =>
      match Loads(text)
      case Some(Arr(items)) => items
      case _ => []
  }

  /** `(value or "").strip()`. */
  function Cleaned(value: Option<string>): string {
    match value
    case None => ""
    case Some(s) => Strip(s)
  }

  predicate Blocks(raw: Option<string>, name: string) {
    name != "" && Str(name) in ParseJsonList(raw)
  }

  predicate Excludes(raw: Option<string>, name: string) {
    ParseJsonList(raw) != [] && name != "" && Str(name) !in ParseJsonList(raw)
  }

  function Denied(reason: Reason): Verdict {
    Verdict(DENIED, reason, HIGH, false)
  }

  function Escalated(reason: Reason): Verdict {
    Verdict(ESCALATED, reason, MEDIUM, true)
  }

  predicate Reaches(threshold: Option<real>, amount: real) {
    threshold.Some? && amount >= threshold.value
  }

  predicate Passes(limit: Option<real>, amount: real) {
    limit.Some? && amount > limit.value
  }

  /** `evaluate_transaction_rules`. */
  function Evaluate(req: Request): Verdict {
    var amount := req.payment.amount;
    var vendor := Cleaned(req.payment.vendor);
    var chain := Cleaned(req.payment.chain);
    var asset := Cleaned(req.payment.asset);
    if req.agent.None? || !req.agent.value.isActive then Denied(AGENT_INACTIVE)
    else if req.policy.None? then Denied(POLICY_NOT_FOUND)
    else
      var p := req.policy.value;
      if amount <= 0.0 then Denied(INVALID_AMOUNT)
      else if Blocks(p.blockedVendors, vendor) then Denied(VENDOR_BLOCKED)
      else if Blocks(p.blockedChains, chain) then Denied(CHAIN_BLOCKED)
      else if Blocks(p.blockedAssets, asset) then Denied(ASSET_BLOCKED)
      else if Excludes(p.allowedVendors, vendor) then Denied(VENDOR_NOT_ALLOWED)
      else if Excludes(p.allowedChains, chain) then Denied(CHAIN_NOT_ALLOWED)
      else if Excludes(p.allowedAssets, asset) then Denied(ASSET_NOT_ALLOWED)
      else if Passes(p.perTxLimit, amount) then Denied(PER_TX_LIMIT_EXCEEDED)
      else if Passes(p.dailyBudget, req.dailySpendTotal + amount) then Denied(DAILY_BUDGET_EXCEEDED)
      else if p.maxTransactionsPerDay.Some? && req.dailyTransactionCount >= p.maxTransactionsPerDay.value then
        Denied(MAX_TX_COUNT_EXCEEDED)
      else if Passes(p.identityCheckAbove, amount) then Escalated(IDENTITY_CHECK_REQUIRED)
      else if p.requireApproval && Reaches(p.escalationThreshold, amount) then Escalated(THRESHOLD_REQUIRES_APPROVAL)
      else Verdict(APPROVED, WITHIN_POLICY, if Reaches(p.escalationThreshold, amount) then MEDIUM else LOW, false)
  }

  // ---------------------------------------------------------------- declarative reading

  /** Names listed in a column: the strings of the JSON array it holds, if it holds one. */
  function Listed(raw: Option<string>): set<string> {
    set v | v in ParseJsonList(raw) && v.Str? :: v.s
  }

  /** A column restricts when it holds a non-empty JSON array. */
  predicate Restricts(raw: Option<string>) {
    ParseJsonList(raw) != []
  }

  /** When each rule applies, on its own and regardless of the others. */
  predicate Fires(reason: Reason, req: Request) {
    if reason == AGENT_INACTIVE then !(req.agent.Some? && req.agent.value.isActive)
    else if reason == POLICY_NOT_FOUND then req.policy == None
    else if reason == INVALID_AMOUNT then !(req.payment.amount > 0.0)
    else if reason == WITHIN_POLICY then true
    else req.policy.Some? && FiresUnder(reason, req.policy.value, req)
  }

  /** When each of the rules that consult the policy applies. */
  predicate FiresUnder(reason: Reason, p: Policy, req: Request) {
    var amount := req.payment.amount;
    var vendor := Cleaned(req.payment.vendor);
    var chain := Cleaned(req.payment.chain);
    var asset := Cleaned(req.payment.asset);
    match reason
    case VENDOR_BLOCKED => vendor in Listed(p.blockedVendors) - {""}
    case CHAIN_BLOCKED => chain in Listed(p.blockedChains) - {""}
    case ASSET_BLOCKED => asset in Listed(p.blockedAssets) - {""}
    case VENDOR_NOT_ALLOWED => Restricts(p.allowedVendors) && vendor !in Listed(p.allowedVendors) + {""}
    case CHAIN_NOT_ALLOWED => Restricts(p.allowedChains) && chain !in Listed(p.allowedChains) + {""}
    case ASSET_NOT_ALLOWED => Restricts(p.allowedAssets) && asset !in Listed(p.allowedAssets) + {""}
    case PER_TX_LIMIT_EXCEEDED => p.perTxLimit.Some? && p.perTxLimit.value < amount
    case DAILY_BUDGET_EXCEEDED => p.dailyBudget.Some? && p.dailyBudget.value < req.dailySpendTotal + amount
    case MAX_TX_COUNT_EXCEEDED => p.maxTransactionsPerDay.Some? && p.maxTransactionsPerDay.value <= req.dailyTransactionCount
    case IDENTITY_CHECK_REQUIRED => p.identityCheckAbove.Some? && p.identityCheckAbove.value < amount
    case THRESHOLD_REQUIRES_APPROVAL =>
      p.requireApproval && p.escalationThreshold.Some? && p.escalationThreshold.value <= amount
    case _ => false
  }

  /** The number of the rule that yields a reason code. */
  function RuleNumber(reason: Reason): nat {
    match reason
    case AGENT_INACTIVE => 1
    case POLICY_NOT_FOUND => 2
    case INVALID_AMOUNT => 3
    case VENDOR_BLOCKED => 4
    case CHAIN_BLOCKED => 5
    case ASSET_BLOCKED => 6
    case VENDOR_NOT_ALLOWED => 7
    case CHAIN_NOT_ALLOWED => 8
    case ASSET_NOT_ALLOWED => 9
    case PER_TX_LIMIT_EXCEEDED => 10
    case DAILY_BUDGET_EXCEEDED => 11
    case MAX_TX_COUNT_EXCEEDED => 12
    case IDENTITY_CHECK_REQUIRED => 13
    case THRESHOLD_REQUIRES_APPROVAL => 14
    case WITHIN_POLICY => 15
  }

  predicate IsDenial(reason: Reason) {
    RuleNumber(reason) <= 12
  }

  predicate IsEscalation(reason: Reason) {
    reason == IDENTITY_CHECK_REQUIRED || reason == THRESHOLD_REQUIRES_APPROVAL
  }

  lemma BlocksMeaning(raw: Option<string>, name: string)
    ensures Blocks(raw, name) <==> name in Listed(raw) - {""}
    ensures Excludes(raw, name) <==> Restricts(raw) && name !in Listed(raw) + {""}
  {
  }

  lemma ListRulesMeaning(req: Request)
    requires req.policy.Some?
    ensures var p, t := req.policy.value, req.payment;
            && Blocks(p.blockedVendors, Cleaned(t.vendor)) == Fires(VENDOR_BLOCKED, req)
            && Blocks(p.blockedChains, Cleaned(t.chain)) == Fires(CHAIN_BLOCKED, req)
            && Blocks(p.blockedAssets, Cleaned(t.asset)) == Fires(ASSET_BLOCKED, req)
            && Excludes(p.allowedVendors, Cleaned(t.vendor)) == Fires(VENDOR_NOT_ALLOWED, req)
            && Excludes(p.allowedChains, Cleaned(t.chain)) == Fires(CHAIN_NOT_ALLOWED, req)
            && Excludes(p.allowedAssets, Cleaned(t.asset)) == Fires(ASSET_NOT_ALLOWED, req)
  {
    hide Blocks, Excludes, Listed, Restricts;
    var p, t := req.policy.value, req.payment;
    BlocksMeaning(p.blockedVendors, Cleaned(t.vendor));
    BlocksMeaning(p.blockedChains, Cleaned(t.chain));
    BlocksMeaning(p.blockedAssets, Cleaned(t.asset));
    BlocksMeaning(p.allowedVendors, Cleaned(t.vendor));
    BlocksMeaning(p.allowedChains, Cleaned(t.chain));
    BlocksMeaning(p.allowedAssets, Cleaned(t.asset));
  }

  lemma VerdictFires(req: Request)
    ensures Fires(Evaluate(req).reason, req)
  {
    hide Blocks, Excludes, Cleaned, Listed, Restricts;
    if req.policy.Some? {
      ListRulesMeaning(req);
    }
  }

  lemma NoLowerRuleFires(req: Request, r: Reason)
    requires RuleNumber(r) < RuleNumber(Evaluate(req).reason)
    ensures !Fires(r, req)
  {
    hide Blocks, Excludes, Cleaned, Listed, Restricts;
    if req.policy.Some? {
      ListRulesMeaning(req);
    }
  }

  /** The verdict names the lowest-numbered rule that fires. */
  lemma LowestFiringRule(req: Request)
    ensures Fires(Evaluate(req).reason, req)
    ensures forall r :: RuleNumber(r) < RuleNumber(Evaluate(req).reason) ==> !Fires(r, req)
  {
    hide Evaluate, Fires;
    VerdictFires(req);
    forall r | RuleNumber(r) < RuleNumber(Evaluate(req).reason) ensures !Fires(r, req) {
      NoLowerRuleFires(req, r);
    }
  }

  /** The decision, risk and flag that go with the reason of a verdict. */
  lemma ReasonDeterminesRest(req: Request)
    ensures var v := Evaluate(req);
            && (v.decision == DENIED <==> IsDenial(v.reason))
            && (v.decision == ESCALATED <==> IsEscalation(v.reason))
            && (v.decision == APPROVED <==> v.reason == WITHIN_POLICY)
            && (v.requiresApproval <==> v.decision == ESCALATED)
            && (v.risk == HIGH <==> v.decision == DENIED)
            && (v.risk == LOW <==> v.decision == APPROVED && !Reaches(req.policy.value.escalationThreshold, req.payment.amount))
  {
    hide Blocks, Excludes, Cleaned, Passes, Reaches;
  }

  /** A reason that fires while no lower-numbered one does tells which kinds of rule fire. */
  lemma LowestReasonClassifies(reason: Reason, req: Request)
    requires Fires(reason, req)
    requires forall r :: RuleNumber(r) < RuleNumber(reason) ==> !Fires(r, req)
    ensures IsDenial(reason) <==> exists r :: IsDenial(r) && Fires(r, req)
    ensures IsEscalation(reason) <==>
            (forall r :: IsDenial(r) ==> !Fires(r, req)) && exists r :: IsEscalation(r) && Fires(r, req)
    ensures reason == WITHIN_POLICY <==> forall r :: r != WITHIN_POLICY ==> !Fires(r, req)
  {
    hide FiresUnder, Listed, Cleaned;
    forall r | Fires(r, req) ensures RuleNumber(reason) <= RuleNumber(r) {
    }
  }

  /**
   The ladder against its declarative reading: denial iff a denial rule fires, whatever the
   escalation rules say; escalation iff none does and an escalation rule fires; approval iff no
   rule fires.
   */
  lemma LadderMeaning(req: Request)
    ensures var d := Evaluate(req).decision;
            && (d == DENIED <==> exists r :: IsDenial(r) && Fires(r, req))
            && (d == ESCALATED <==>
                (forall r :: IsDenial(r) ==> !Fires(r, req)) && exists r :: IsEscalation(r) && Fires(r, req))
            && (d == APPROVED <==> forall r :: r != WITHIN_POLICY ==> !Fires(r, req))
  {
    LowestFiringRule(req);
    ReasonDeterminesRest(req);
    LowestReasonClassifies(Evaluate(req).reason, req);
  }

  lemma NoDenialRuleFires(req: Request, r: Reason)
    requires Evaluate(req).decision != DENIED && IsDenial(r)
    ensures !Fires(r, req)
  {
    LadderMeaning(req);
  }

  /** A list written by the policy service is read back by the engine. */
  lemma PolicyListRoundTrip(names: seq<Value>)
    requires forall i :: 0 <= i < |names| ==> names[i].Str?
    ensures ParseJsonList(Some(Print(Arr(names), SPACED))) == names
  {
    JsonRoundTrip.LoadsPrint(Arr(names), SPACED);
  }

  // ---------------------------------------------------------------- names and columns

  /** The column holds the text of a JSON array with these items. */
  ghost predicate Holds(raw: Option<string>, items: seq<Value>) {
    raw.Some? && Loads(raw.value) == Some(Arr(items))
  }

  /** A name is given, and it is `name` with blanks around it. */
  ghost predicate Names(given: Option<string>, name: string) {
    given.Some? && name != "" && !IsSpace(name[0]) && !IsSpace(name[|name| - 1]) && Padded(name, given.value)
  }

  /** The name given is an entry of the array the column holds. */
  ghost predicate ListedName(raw: Option<string>, given: Option<string>) {
    exists items, name :: Holds(raw, items) && Names(given, name) && Str(name) in items
  }

  /** The column holds an array that has entries, and the name given is none of them. */
  ghost predicate UnlistedName(raw: Option<string>, given: Option<string>) {
    exists items, name :: Holds(raw, items) && Names(given, name) && items != [] && Str(name) !in items
  }

  lemma NamesCleaned(given: Option<string>, name: string)
    ensures Names(given, name) <==> name != "" && Cleaned(given) == name
  {
    if given.Some? && name != "" {
      StripMeaning(given.value, name);
    }
  }

  lemma ListedMeaning(raw: Option<string>, given: Option<string>)
    ensures ListedName(raw, given) <==> Blocks(raw, Cleaned(given))
    ensures UnlistedName(raw, given) <==> Excludes(raw, Cleaned(given))
  {
    hide Cleaned, Names;
    var name, items := Cleaned(given), ParseJsonList(raw);
    forall n ensures Names(given, n) <==> n != "" && n == name {
      NamesCleaned(given, n);
    }
    assert items != [] ==> Holds(raw, items);
    forall other | Holds(raw, other) ensures other == items {
    }
    if Blocks(raw, name) {
      assert Holds(raw, items) && Names(given, name);
    }
    if Excludes(raw, name) {
      assert Holds(raw, items) && Names(given, name);
    }
  }

  /**
   The list rules in terms of what is stored: a blank or missing name, and a column that does not
   hold a JSON array, deny nothing, nor does an empty allow-list.
   */
  lemma ListRulesReadColumns(req: Request)
    requires req.policy.Some?
    ensures var p, t := req.policy.value, req.payment;
            && (Fires(VENDOR_BLOCKED, req) <==> ListedName(p.blockedVendors, t.vendor))
            && (Fires(CHAIN_BLOCKED, req) <==> ListedName(p.blockedChains, t.chain))
            && (Fires(ASSET_BLOCKED, req) <==> ListedName(p.blockedAssets, t.asset))
            && (Fires(VENDOR_NOT_ALLOWED, req) <==> UnlistedName(p.allowedVendors, t.vendor))
            && (Fires(CHAIN_NOT_ALLOWED, req) <==> UnlistedName(p.allowedChains, t.chain))
            && (Fires(ASSET_NOT_ALLOWED, req) <==> UnlistedName(p.allowedAssets, t.asset))
  {
    hide Blocks, Excludes, ListedName, UnlistedName, Cleaned, Fires;
    var p, t := req.policy.value, req.payment;
    ListRulesMeaning(req);
    ListedMeaning(p.blockedVendors, t.vendor);
    ListedMeaning(p.blockedChains, t.chain);
    ListedMeaning(p.blockedAssets, t.asset);
    ListedMeaning(p.allowedVendors, t.vendor);
    ListedMeaning(p.allowedChains, t.chain);
    ListedMeaning(p.allowedAssets, t.asset);
  }

  // ---------------------------------------------------------------- monotonicity

  /** A limit is kept, lowered, or added. */
  predicate LimitTightened(old_: Option<real>, new_: Option<real>) {
    old_.Some? ==> new_.Some? && new_.value <= old_.value
  }

  /** A block-list keeps every name it had. */
  predicate BlockTightened(old_: Option<string>, new_: Option<string>) {
    Listed(old_) <= Listed(new_)
  }

  /** An allow-list that restricts goes on restricting, to no more names than before. */
  predicate AllowTightened(old_: Option<string>, new_: Option<string>) {
    Restricts(old_) ==> Restricts(new_) && Listed(new_) <= Listed(old_)
  }

  predicate PolicyTightened(p: Policy, q: Policy) {
    && BlockTightened(p.blockedVendors, q.blockedVendors)
    && BlockTightened(p.blockedChains, q.blockedChains)
    && BlockTightened(p.blockedAssets, q.blockedAssets)
    && AllowTightened(p.allowedVendors, q.allowedVendors)
    && AllowTightened(p.allowedChains, q.allowedChains)
    && AllowTightened(p.allowedAssets, q.allowedAssets)
    && LimitTightened(p.perTxLimit, q.perTxLimit)
    && LimitTightened(p.dailyBudget, q.dailyBudget)
    && (p.maxTransactionsPerDay.Some? ==>
        q.maxTransactionsPerDay.Some? && q.maxTransactionsPerDay.value <= p.maxTransactionsPerDay.value)
    && LimitTightened(p.identityCheckAbove, q.identityCheckAbove)
    && (p.requireApproval ==> q.requireApproval)
    && LimitTightened(p.escalationThreshold, q.escalationThreshold)
  }

  /** The second request is at least as demanding as the first in every respect. */
  predicate Harder(a: Request, b: Request) {
    && (b.agent.Some? && b.agent.value.isActive ==> a.agent.Some? && a.agent.value.isActive)
    && (b.policy.Some? ==> a.policy.Some? && PolicyTightened(a.policy.value, b.policy.value))
    && a.payment.(amount := b.payment.amount) == b.payment
    && (0.0 < a.payment.amount <= b.payment.amount || b.payment.amount <= 0.0)
    && a.dailySpendTotal <= b.dailySpendTotal
    && a.dailyTransactionCount <= b.dailyTransactionCount
  }

  /** Any rule but the last that fires on a request is matched on a harder one. */
  lemma FiringCarriesOver(a: Request, b: Request, r: Reason)
    requires Harder(a, b) && r != WITHIN_POLICY && Fires(r, a)
    ensures exists q :: q != WITHIN_POLICY && Fires(q, b) && (IsDenial(r) ==> IsDenial(q))
  {
    if Fires(AGENT_INACTIVE, b) || Fires(POLICY_NOT_FOUND, b) || Fires(INVALID_AMOUNT, b) {
      assert IsDenial(AGENT_INACTIVE) && IsDenial(POLICY_NOT_FOUND) && IsDenial(INVALID_AMOUNT);
    } else {
      assert Fires(r, b);
    }
  }

  /** Tightening never makes the verdict less severe. */
  lemma VerdictMonotone(a: Request, b: Request)
    requires Harder(a, b)
    ensures Severity(Evaluate(a).decision) <= Severity(Evaluate(b).decision)
  {
    LadderMeaning(a);
    LadderMeaning(b);
    if Evaluate(a).decision != APPROVED {
      LowestFiringRule(a);
      FiringCarriesOver(a, b, Evaluate(a).reason);
    }
  }

  /** Emptying an allow-list is not a tightening: an empty list means no restriction at all. */
  lemma EmptyAllowListLiftsRestriction(p: Policy, agent: Agent, vendor: string)
    requires agent.isActive && Strip(vendor) != ""
    requires p.allowedVendors == Some(Print(Arr([Str("acme")]), SPACED)) && Strip(vendor) != "acme"
    requires p.(allowedVendors := None) == Policy(p.id, p.agentId, p.name, p.status, p.isActive, None, None, None, None, None, None, None, None, None, None, false, None)
    ensures var req := Request(Some(agent), Some(p), Payment(1.0, Some(vendor), None, None), 0.0, 0);
            && Evaluate(req).decision == DENIED
            && Evaluate(req.(policy := Some(p.(allowedVendors := Some(Print(Arr([]), SPACED)))))).decision == APPROVED
  {
    PolicyListRoundTrip([Str("acme")]);
    PolicyListRoundTrip([]);
    var v := Str(Strip(vendor));
    assert v !in [Str("acme")];
  }
}
