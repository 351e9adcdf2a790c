/** The Circle treasury package: eight terminal conditions over assurance, identity, delegation and limit. */
module CirclePackage {
  import opened Wrappers
  import opened Sorting
  import opened Decisions
  import opened Expressions
  import opened ExpressionLemmas
  import opened FactOrder
  import opened DecisionConditions

  const EV_ASSURANCE := "EV-CIRCLE-LUSD-ASSURANCE"

  function Claim(name: string): Expr {
    Subscript(Subscript(Name("evidence_claims"), Constant(Text(EV_ASSURANCE))), Constant(Text(name)))
  }

  function Delegated(name: string): Expr {
    Subscript(Subscript(Path("actor", "metadata"), Constant(Text("delegated_authority"))), Constant(Text(name)))
  }

  function Parameter(name: string): Expr {
    Subscript(Path("intent", "parameters"), Constant(Text(name)))
  }

  function Unavailable(): Expr {
    Test(Claim("result"), Eq, Nothing)
  }

  function NotEvaluable(): Expr {
    Test(Claim("result"), Eq, Text("NOT_EVALUABLE"))
  }

  function NotSatisfied(): Expr {
    And([Test(Claim("result"), NotEq, Nothing),
         Test(Claim("result"), NotEq, Text("SATISFIED")),
         Test(Claim("result"), NotEq, Text("NOT_EVALUABLE"))])
  }

  function Stale(): Expr {
    Test(Claim("monitoring_status"), NotEq, Text("CURRENT"))
  }

  function NotVerified(): Expr {
    Or([Test(Path("actor", "verification_status"), NotEq, Text("VERIFIED")),
        Test(Path("actor", "revocation_status"), Eq, Text("REVOKED"))])
  }

  function Exceeded(): Expr {
    Or([Relate(Path("intent", "action"), NotIn, Delegated("allowed_actions")),
        Relate(Parameter("asset"), NotIn, Delegated("allowed_assets")),
        Relate(Parameter("network"), NotIn, Delegated("allowed_networks"))])
  }

  function OverLimit(): Expr {
    Relate(Path("intent", "amount_minor"), Gt, Delegated("autonomous_limit_minor"))
  }

  function StandingTests(): seq<Expr> {
    [Test(Claim("result"), Eq, Text("SATISFIED")),
     Test(Claim("monitoring_status"), Eq, Text("CURRENT")),
     Test(Path("actor", "verification_status"), Eq, Text("VERIFIED")),
     Test(Path("actor", "revocation_status"), NotEq, Text("REVOKED"))]
  }

  function AuthorityTests(): seq<Expr> {
    [Relate(Path("intent", "action"), In, Delegated("allowed_actions")),
     Relate(Parameter("asset"), In, Delegated("allowed_assets")),
     Relate(Parameter("network"), In, Delegated("allowed_networks")),
     Relate(Path("intent", "amount_minor"), LtE, Delegated("autonomous_limit_minor"))]
  }

  function WithinLimit(): Expr {
    And(StandingTests() + AuthorityTests())
  }

  /** The conditions that come before approval. */
  function Guards(pkg: string): seq<Condition> {
    [Terminal("DC-CIRCLE-ASSURANCE-UNAVAILABLE", Unavailable(), DENIED, 10, "REQUIRED_ASSURANCE_UNAVAILABLE", pkg),
     Terminal("DC-CIRCLE-ASSURANCE-NOT-EVALUABLE", NotEvaluable(), DENIED, 11, "REQUIRED_ASSURANCE_NOT_EVALUABLE", pkg),
     Terminal("DC-CIRCLE-ASSURANCE-NOT-SATISFIED", NotSatisfied(), DENIED, 12, "REQUIRED_ASSURANCE_NOT_SATISFIED", pkg),
     Terminal("DC-CIRCLE-ASSURANCE-STALE", Stale(), DENIED, 13, "REQUIRED_ASSURANCE_STALE", pkg),
     Terminal("DC-AGT-AUTH-001-NOT-VERIFIED", NotVerified(), DENIED, 20, "ACTOR_NOT_VERIFIED", pkg),
     Terminal("DC-AGT-AUTH-001-AUTHORITY-EXCEEDED", Exceeded(), DENIED, 30, "DELEGATED_AUTHORITY_EXCEEDED", pkg),
     Terminal("DC-CIRCLE-AUTONOMOUS-LIMIT-EXCEEDED", OverLimit(), ESCALATED, 40, "AUTONOMOUS_LIMIT_EXCEEDED", pkg)]
  }

  function ApproveCondition(pkg: string): Condition {
    Terminal("DC-CIRCLE-APPROVE", WithinLimit(), APPROVED, 50, "AUTHORIZED_WITHIN_LIMIT", pkg)
  }

  function Conditions(pkg: string): seq<Condition> {
    Guards(pkg) + [ApproveCondition(pkg)]
  }

  // ---------------------------------------------------------------- what the conditions read

  datatype Reading = Reading(
    result: Fact, monitoring: Fact, verification: Fact, revocation: Fact,
    action: Fact, asset: Fact, network: Fact, amount: Fact,
    actions: Fact, assets: Fact, networks: Fact, limit: Fact)

  function ClaimFact(ctx: Context, name: string): Fact {
    Field(Field(Lookup(ctx, "evidence_claims"), EV_ASSURANCE), name)
  }

  function DelegatedFact(ctx: Context, name: string): Fact {
    Field(Field(Field(Lookup(ctx, "actor"), "metadata"), "delegated_authority"), name)
  }

  function ParameterFact(ctx: Context, name: string): Fact {
    Field(Field(Lookup(ctx, "intent"), "parameters"), name)
  }

  function Read(ctx: Context): Reading {
    Reading(
      ClaimFact(ctx, "result"), ClaimFact(ctx, "monitoring_status"),
      Field(Lookup(ctx, "actor"), "verification_status"), Field(Lookup(ctx, "actor"), "revocation_status"),
      Field(Lookup(ctx, "intent"), "action"), ParameterFact(ctx, "asset"), ParameterFact(ctx, "network"),
      Field(Lookup(ctx, "intent"), "amount_minor"),
      DelegatedFact(ctx, "allowed_actions"), DelegatedFact(ctx, "allowed_assets"), DelegatedFact(ctx, "allowed_networks"),
      DelegatedFact(ctx, "autonomous_limit_minor"))
  }

  lemma ClaimValue(name: string, ctx: Context)
    ensures Eval(Claim(name), ctx) == Value(ClaimFact(ctx, name))
  {
  }

  lemma DelegatedValue(name: string, ctx: Context)
    ensures Eval(Delegated(name), ctx) == Value(DelegatedFact(ctx, name))
  {
  }

  lemma ParameterValue(name: string, ctx: Context)
    ensures Eval(Parameter(name), ctx) == Value(ParameterFact(ctx, name))
  {
  }

  // ---------------------------------------------------------------- each condition, on what it reads

  lemma AssuranceConditions(ctx: Context)
    ensures var r := Read(ctx);
            && Matched(Unavailable(), ctx) == Value(r.result == Nothing)
            && Matched(NotEvaluable(), ctx) == Value(r.result == Text("NOT_EVALUABLE"))
            && Matched(NotSatisfied(), ctx) == Value(r.result !in {Nothing, Text("SATISFIED"), Text("NOT_EVALUABLE")})
            && Matched(Stale(), ctx) == Value(r.monitoring != Text("CURRENT"))
  {
    hide Claim, Eval;
    var r := Read(ctx);
    ClaimValue("result", ctx);
    ClaimValue("monitoring_status", ctx);
    EqualToConstant(r.result);
    EqualToConstant(r.monitoring);
    TestValue(Claim("result"), Eq, Nothing, ctx, r.result);
    TestValue(Claim("result"), Eq, Text("NOT_EVALUABLE"), ctx, r.result);
    TestValue(Claim("monitoring_status"), NotEq, Text("CURRENT"), ctx, r.monitoring);
    NotSatisfiedReading(ctx);
  }

  lemma NotSatisfiedReading(ctx: Context)
    ensures Matched(NotSatisfied(), ctx) == Value(Read(ctx).result !in {Nothing, Text("SATISFIED"), Text("NOT_EVALUABLE")})
  {
    hide Claim;
    var v := Read(ctx).result;
    var a, b, c := Test(Claim("result"), NotEq, Nothing), Test(Claim("result"), NotEq, Text("SATISFIED")), Test(Claim("result"), NotEq, Text("NOT_EVALUABLE"));
    ClaimValue("result", ctx);
    EqualToConstant(v);
    TestValue(Claim("result"), NotEq, Nothing, ctx, v);
    TestValue(Claim("result"), NotEq, Text("SATISFIED"), ctx, v);
    TestValue(Claim("result"), NotEq, Text("NOT_EVALUABLE"), ctx, v);
    assert [a, b, c] == [a] + ([b] + ([c] + []));
    AndStep(a, [b] + ([c] + []), ctx);
    AndStep(b, [c] + [], ctx);
    AndStep(c, [], ctx);
  }

  lemma NotVerifiedReading(ctx: Context)
    ensures Matched(NotVerified(), ctx) == Value(Read(ctx).verification != Text("VERIFIED") || Read(ctx).revocation == Text("REVOKED"))
  {
    hide PyEq;
    var v, w := Read(ctx).verification, Read(ctx).revocation;
    var a, b := Test(Path("actor", "verification_status"), NotEq, Text("VERIFIED")), Test(Path("actor", "revocation_status"), Eq, Text("REVOKED"));
    PathValue("actor", "verification_status", ctx);
    PathValue("actor", "revocation_status", ctx);
    EqualToConstant(v);
    EqualToConstant(w);
    TestValue(Path("actor", "verification_status"), NotEq, Text("VERIFIED"), ctx, v);
    TestValue(Path("actor", "revocation_status"), Eq, Text("REVOKED"), ctx, w);
    assert [a, b] == [a] + ([b] + []);
    OrStep(a, [b] + [], ctx);
    OrStep(b, [], ctx);
  }

  /** `a or b` on outcomes, short-circuiting. */
  function OrElse(a: Outcome<bool>, b: Outcome<bool>): Outcome<bool> {
    if a == Value(false) then b else a
  }

  function NotAmong(v: Fact, list: Fact): Outcome<bool> {
    Negated(Contains(v, list))
  }

  /** Whether the action, asset or network is outside what was delegated. */
  function OutOfScope(r: Reading): Outcome<bool> {
    OrElse(NotAmong(r.action, r.actions), OrElse(NotAmong(r.asset, r.assets), NotAmong(r.network, r.networks)))
  }

  lemma ScopeOperands(ctx: Context)
    ensures var r := Read(ctx);
            && Eval(Relate(Path("intent", "action"), NotIn, Delegated("allowed_actions")), ctx) == AsFact(NotAmong(r.action, r.actions))
            && Eval(Relate(Parameter("asset"), NotIn, Delegated("allowed_assets")), ctx) == AsFact(NotAmong(r.asset, r.assets))
            && Eval(Relate(Parameter("network"), NotIn, Delegated("allowed_networks")), ctx) == AsFact(NotAmong(r.network, r.networks))
  {
    var r := Read(ctx);
    PathValue("intent", "action", ctx);
    ParameterValue("asset", ctx);
    ParameterValue("network", ctx);
    DelegatedValue("allowed_actions", ctx);
    DelegatedValue("allowed_assets", ctx);
    DelegatedValue("allowed_networks", ctx);
    RelateValue(Path("intent", "action"), NotIn, Delegated("allowed_actions"), ctx, r.action, r.actions);
    RelateValue(Parameter("asset"), NotIn, Delegated("allowed_assets"), ctx, r.asset, r.assets);
    RelateValue(Parameter("network"), NotIn, Delegated("allowed_networks"), ctx, r.network, r.networks);
  }

  lemma ExceededReading(ctx: Context)
    ensures Matched(Exceeded(), ctx) == OutOfScope(Read(ctx))
  {
    var a := Relate(Path("intent", "action"), NotIn, Delegated("allowed_actions"));
    var b := Relate(Parameter("asset"), NotIn, Delegated("allowed_assets"));
    var c := Relate(Parameter("network"), NotIn, Delegated("allowed_networks"));
    ScopeOperands(ctx);
    assert [a, b, c] == [a] + ([b] + ([c] + []));
    OrStep(a, [b] + ([c] + []), ctx);
    OrStep(b, [c] + [], ctx);
    OrStep(c, [], ctx);
    assert Eval(Exceeded(), ctx) == EvalOr([a, b, c], ctx);
  }

  lemma OverLimitReading(ctx: Context)
    ensures Matched(OverLimit(), ctx) == PyLt(Read(ctx).limit, Read(ctx).amount)
  {
    PathValue("intent", "amount_minor", ctx);
    DelegatedValue("autonomous_limit_minor", ctx);
    RelateValue(Path("intent", "amount_minor"), Gt, Delegated("autonomous_limit_minor"), ctx, Read(ctx).amount, Read(ctx).limit);
  }

  /** Assurance and identity are in order: none of the first five conditions holds. */
  predicate InStanding(r: Reading) {
    && r.result == Text("SATISFIED") && r.monitoring == Text("CURRENT")
    && r.verification == Text("VERIFIED") && r.revocation != Text("REVOKED")
  }

  /** Everything approval asks for, every comparison being defined. */
  predicate AllInOrder(r: Reading) {
    && InStanding(r)
    && Contains(r.action, r.actions) == Value(true)
    && Contains(r.asset, r.assets) == Value(true)
    && Contains(r.network, r.networks) == Value(true)
    && PyLe(r.amount, r.limit) == Value(true)
  }

  lemma ClaimOperands(ctx: Context)
    ensures var r := Read(ctx);
            && Eval(Test(Claim("result"), Eq, Text("SATISFIED")), ctx) == Value(Boolean(r.result == Text("SATISFIED")))
            && Eval(Test(Claim("monitoring_status"), Eq, Text("CURRENT")), ctx) == Value(Boolean(r.monitoring == Text("CURRENT")))
  {
    var r := Read(ctx);
    ClaimValue("result", ctx);
    ClaimValue("monitoring_status", ctx);
    EqualToConstant(r.result);
    EqualToConstant(r.monitoring);
    TestValue(Claim("result"), Eq, Text("SATISFIED"), ctx, r.result);
    TestValue(Claim("monitoring_status"), Eq, Text("CURRENT"), ctx, r.monitoring);
  }

  lemma IdentityOperands(ctx: Context)
    ensures var r := Read(ctx);
            && Eval(Test(Path("actor", "verification_status"), Eq, Text("VERIFIED")), ctx) == Value(Boolean(r.verification == Text("VERIFIED")))
            && Eval(Test(Path("actor", "revocation_status"), NotEq, Text("REVOKED")), ctx) == Value(Boolean(r.revocation != Text("REVOKED")))
  {
    var r := Read(ctx);
    PathValue("actor", "verification_status", ctx);
    PathValue("actor", "revocation_status", ctx);
    EqualToConstant(r.verification);
    EqualToConstant(r.revocation);
    TestValue(Path("actor", "verification_status"), Eq, Text("VERIFIED"), ctx, r.verification);
    TestValue(Path("actor", "revocation_status"), NotEq, Text("REVOKED"), ctx, r.revocation);
  }

  lemma AuthorityOperands(ctx: Context)
    ensures var r := Read(ctx);
            && Eval(Relate(Path("intent", "action"), In, Delegated("allowed_actions")), ctx) == AsFact(Contains(r.action, r.actions))
            && Eval(Relate(Parameter("asset"), In, Delegated("allowed_assets")), ctx) == AsFact(Contains(r.asset, r.assets))
            && Eval(Relate(Parameter("network"), In, Delegated("allowed_networks")), ctx) == AsFact(Contains(r.network, r.networks))
            && Eval(Relate(Path("intent", "amount_minor"), LtE, Delegated("autonomous_limit_minor")), ctx) == AsFact(PyLe(r.amount, r.limit))
  {
    hide Eval;
    var r := Read(ctx);
    PathValue("intent", "action", ctx);
    PathValue("intent", "amount_minor", ctx);
    ParameterValue("asset", ctx);
    ParameterValue("network", ctx);
    DelegatedValue("allowed_actions", ctx);
    DelegatedValue("allowed_assets", ctx);
    DelegatedValue("allowed_networks", ctx);
    DelegatedValue("autonomous_limit_minor", ctx);
    RelateValue(Path("intent", "action"), In, Delegated("allowed_actions"), ctx, r.action, r.actions);
    RelateValue(Parameter("asset"), In, Delegated("allowed_assets"), ctx, r.asset, r.assets);
    RelateValue(Parameter("network"), In, Delegated("allowed_networks"), ctx, r.network, r.networks);
    RelateValue(Path("intent", "amount_minor"), LtE, Delegated("autonomous_limit_minor"), ctx, r.amount, r.limit);
  }

  lemma StandingReading(ctx: Context)
    ensures EvalAnd(StandingTests(), ctx) == Value(Boolean(true)) <==> InStanding(Read(ctx))
  {
    var r := Read(ctx);
    var a, b := Value(r.result == Text("SATISFIED")), Value(r.monitoring == Text("CURRENT"));
    var c, d := Value(r.verification == Text("VERIFIED")), Value(r.revocation != Text("REVOKED"));
    ClaimOperands(ctx);
    IdentityOperands(ctx);
    hide Read, Eval, EvalAnd;
    AndHolds(StandingTests(), [a, b, c, d], ctx);
    AllTrueOfFour(a, b, c, d);
  }

  lemma AuthorityReading(ctx: Context)
    ensures var r := Read(ctx);
            EvalAnd(AuthorityTests(), ctx) == Value(Boolean(true)) <==>
            Contains(r.action, r.actions) == Contains(r.asset, r.assets) == Contains(r.network, r.networks) == PyLe(r.amount, r.limit) == Value(true)
  {
    var r := Read(ctx);
    var a, b, c, d := Contains(r.action, r.actions), Contains(r.asset, r.assets), Contains(r.network, r.networks), PyLe(r.amount, r.limit);
    AuthorityOperands(ctx);
    hide Read, Eval, EvalAnd, Contains, PyLe;
    AndHolds(AuthorityTests(), [a, b, c, d], ctx);
    AllTrueOfFour(a, b, c, d);
  }

  lemma {:induction false} ApproveReading(ctx: Context)
    ensures Matched(WithinLimit(), ctx) == Value(true) <==> AllInOrder(Read(ctx))
  {
    var es, fs := StandingTests(), AuthorityTests();
    StandingReading(ctx);
    AuthorityReading(ctx);
    AndHoldsShape(es, fs, ctx);
    assert Eval(WithinLimit(), ctx) == EvalAnd(es + fs, ctx);
    hide Read, Eval, EvalAnd, Contains, PyLe, StandingTests, AuthorityTests;
  }

  /** The approve expression evaluates to `True` or `False`, when it does not raise. */
  lemma AndHoldsShape(es: seq<Expr>, fs: seq<Expr>, ctx: Context)
    ensures EvalAnd(es + fs, ctx) == Value(Boolean(true)) <==>
            EvalAnd(es, ctx) == Value(Boolean(true)) && EvalAnd(fs, ctx) == Value(Boolean(true))
    ensures EvalAnd(es + fs, ctx).Value? ==> EvalAnd(es + fs, ctx).value.Boolean?
  {
    AndConcat(es, fs, ctx);
    AndIsBoolean(es + fs, ctx);
  }

  // ---------------------------------------------------------------- the decision

  /** Which condition decides, counting from 0, or the error that escapes. */
  function Choose(r: Reading): Outcome<nat> {
    if r.result == Nothing then Value(0)
    else if r.result == Text("NOT_EVALUABLE") then Value(1)
    else if r.result != Text("SATISFIED") then Value(2)
    else if r.monitoring != Text("CURRENT") then Value(3)
    else if r.verification != Text("VERIFIED") || r.revocation == Text("REVOKED") then Value(4)
    else
      match OutOfScope(r)
      case Value(true) => Value(5)
      case Value(false) =>
        (match PyLt(r.limit, r.amount)
         case Value(over) => Value(if over then 6 else 7)
         case TypeFault => TypeFault
         case SyntaxFault => SyntaxFault)
      case TypeFault => TypeFault
      case SyntaxFault => SyntaxFault
  }

  /** The choice falls on approval exactly when everything is in order. */
  lemma ApprovalChosenIff(r: Reading)
    ensures Choose(r) == Value(7) <==> AllInOrder(r)
    ensures Choose(r).Value? ==> Choose(r).value < 8
    ensures !Choose(r).SyntaxFault?
  {
    NotGreaterIff(r.amount, r.limit);
    hide PyEq, PyLe;
  }

  lemma InKeyOrder(cs: seq<Condition>)
    requires forall i, j :: 0 <= i < j < |cs| ==> cs[i].priority < cs[j].priority
    ensures Sort(KeyLe, cs) == cs && DistinctKeys(cs)
  {
  }

  lemma GuardReadings(ctx: Context, pkg: string)
    ensures var r, g := Read(ctx), Guards(pkg);
            && Matched(g[0].expression, ctx) == Value(r.result == Nothing)
            && Matched(g[1].expression, ctx) == Value(r.result == Text("NOT_EVALUABLE"))
            && Matched(g[2].expression, ctx) == Value(r.result !in {Nothing, Text("SATISFIED"), Text("NOT_EVALUABLE")})
            && Matched(g[3].expression, ctx) == Value(r.monitoring != Text("CURRENT"))
            && Matched(g[4].expression, ctx) == Value(r.verification != Text("VERIFIED") || r.revocation == Text("REVOKED"))
            && Matched(g[5].expression, ctx) == OutOfScope(r)
            && Matched(g[6].expression, ctx) == PyLt(r.limit, r.amount)
  {
    AssuranceConditions(ctx);
    NotVerifiedReading(ctx);
    ExceededReading(ctx);
    OverLimitReading(ctx);
  }

  /** The condition the choice stops at, whether it decides or raises. */
  function StopOf(r: Reading): nat {
    match Choose(r)
    case Value(n) => n
    case _ => if OutOfScope(r).Value? then 6 else 5
  }

  /** What the condition the scan stops at evaluates to, among the seven guards. */
  lemma StopReading(ctx: Context, pkg: string)
    requires StopOf(Read(ctx)) < 7
    ensures match Choose(Read(ctx))
            case Value(_) => Matched(Guards(pkg)[StopOf(Read(ctx))].expression, ctx) == Value(true)
            case _ => Matched(Guards(pkg)[StopOf(Read(ctx))].expression, ctx) == TypeFault
  {
    GuardReadings(ctx, pkg);
    hide Guards, Read, Matched;
  }

  lemma StopBound(r: Reading)
    ensures StopOf(r) <= 7 && (StopOf(r) == 7 <==> Choose(r) == Value(7))
  {
  }

  /** What a scan of the guards followed by one last terminal condition finds. */
  lemma ScanGuards(ctx: Context, pkg: string, last: Condition)
    requires last.terminal
    requires Choose(Read(ctx)) == Value(7) ==> Matched(last.expression, ctx) == Value(true)
    ensures match Choose(Read(ctx))
            case Value(k) => k < 8 && Scan(Guards(pkg) + [last], ctx) == Decided((Guards(pkg) + [last])[k])
            case _ => Scan(Guards(pkg) + [last], ctx) == TypeFault
  {
    var cs := Guards(pkg) + [last];
    var k := StopOf(Read(ctx));
    StopBound(Read(ctx));
    assert |Guards(pkg)| == 7 && forall i :: 0 <= i < 7 ==> cs[i] == Guards(pkg)[i] && cs[i].terminal;
    SilentBefore(ctx, pkg, k);
    if k < 7 {
      StopReading(ctx, pkg);
    }
    hide Guards, Read, Choose, Matched, Scan;
    ScanStopsAt(cs, ctx, k);
  }

  /** Every guard before the deciding one is silent. */
  lemma SilentBefore(ctx: Context, pkg: string, k: nat)
    requires k <= 7
    requires k == StopOf(Read(ctx))
    ensures forall j :: 0 <= j < k ==> Silent(Guards(pkg)[j], ctx)
  {
    var g := Guards(pkg);
    GuardReadings(ctx, pkg);
    assert k > 0 ==> Silent(g[0], ctx);
    assert k > 1 ==> Silent(g[1], ctx);
    assert k > 2 ==> Silent(g[2], ctx);
    assert k > 3 ==> Silent(g[3], ctx);
    assert k > 4 ==> Silent(g[4], ctx);
    assert k > 5 ==> Silent(g[5], ctx);
    assert k > 6 ==> Silent(g[6], ctx);
    forall j | 0 <= j < k ensures Silent(g[j], ctx) {
      assert j in {0, 1, 2, 3, 4, 5, 6};
    }
  }

  lemma ConditionsOrdered(pkg: string, last: Condition)
    requires last.priority == 50
    ensures Sort(KeyLe, Guards(pkg) + [last]) == Guards(pkg) + [last]
    ensures DistinctKeys(Guards(pkg) + [last])
  {
    var cs := Guards(pkg) + [last];
    assert forall i :: 0 <= i < 8 ==> cs[i].priority == [10, 11, 12, 13, 20, 30, 40, 50][i];
    InKeyOrder(cs);
  }

  /**
   The package decides as `Choose` says on every context, in whatever order its conditions are
   listed; when the choice is an error, that error escapes.
   */
  lemma {:induction false} CircleDecides(ctx: Context, pkg: string)
    ensures match Choose(Read(ctx))
            case Value(k) => k < 8 && Scan(Sort(KeyLe, Conditions(pkg)), ctx) == Decided(Conditions(pkg)[k])
            case _ => Scan(Sort(KeyLe, Conditions(pkg)), ctx) == TypeFault
  {
    ConditionsOrdered(pkg, ApproveCondition(pkg));
    ApprovalChosenIff(Read(ctx));
    ApproveReading(ctx);
    ScanGuards(ctx, pkg, ApproveCondition(pkg));
  }

  /** On every context the approve condition holds exactly when none of the seven earlier ones holds or raises. */
  lemma {:induction false} ApproveIsComplement(ctx: Context, pkg: string)
    ensures Matched(ApproveCondition(pkg).expression, ctx) == Value(true) <==>
            forall j :: 0 <= j < 7 ==> Silent(Guards(pkg)[j], ctx)
  {
    var g := Guards(pkg);
    ApproveReading(ctx);
    ApprovalChosenIff(Read(ctx));
    if AllInOrder(Read(ctx)) {
      SilentBefore(ctx, pkg, 7);
    }
    if forall j :: 0 <= j < 7 ==> Silent(g[j], ctx) {
      assert Silent(g[0], ctx) && Silent(g[1], ctx) && Silent(g[2], ctx) && Silent(g[3], ctx);
      assert Silent(g[4], ctx) && Silent(g[5], ctx) && Silent(g[6], ctx);
      GuardReadings(ctx, pkg);
    }
  }

  /** The decision and the reason code on every context on which no error escapes; exactly one case applies. */
  lemma CircleVerdicts(ctx: Context, pkg: string)
    ensures var r, e := Read(ctx), Ending(Scan(Sort(KeyLe, Conditions(pkg)), ctx));
            && (r.result == Nothing ==> e == Gives(DENIED, "REQUIRED_ASSURANCE_UNAVAILABLE"))
            && (r.result == Text("NOT_EVALUABLE") ==> e == Gives(DENIED, "REQUIRED_ASSURANCE_NOT_EVALUABLE"))
            && (r.result !in {Nothing, Text("SATISFIED"), Text("NOT_EVALUABLE")} ==> e == Gives(DENIED, "REQUIRED_ASSURANCE_NOT_SATISFIED"))
            && (r.result == Text("SATISFIED") && r.monitoring != Text("CURRENT") ==> e == Gives(DENIED, "REQUIRED_ASSURANCE_STALE"))
            && (r.result == Text("SATISFIED") && r.monitoring == Text("CURRENT") && !InStanding(r) ==> e == Gives(DENIED, "ACTOR_NOT_VERIFIED"))
            && (InStanding(r) && OutOfScope(r) == Value(true) ==> e == Gives(DENIED, "DELEGATED_AUTHORITY_EXCEEDED"))
            && (InStanding(r) && OutOfScope(r) == Value(false) && PyLt(r.limit, r.amount) == Value(true) ==> e == Gives(ESCALATED, "AUTONOMOUS_LIMIT_EXCEEDED"))
            && (AllInOrder(r) ==> e == Gives(APPROVED, "AUTHORIZED_WITHIN_LIMIT"))
  {
    hide Read, Sort, Scan, Choose, InStanding, AllInOrder, OutOfScope, PyLt, Conditions;
    CircleDecides(ctx, pkg);
    VerdictChoice(Read(ctx));
    var choice := Choose(Read(ctx));
    if choice.Value? {
      ConditionGives(pkg, choice.value);
      EndingOfDecided(Conditions(pkg)[choice.value]);
    }
  }

  lemma VerdictChoice(r: Reading)
    ensures r.result == Nothing ==> Choose(r) == Value(0)
    ensures r.result == Text("NOT_EVALUABLE") ==> Choose(r) == Value(1)
    ensures r.result !in {Nothing, Text("SATISFIED"), Text("NOT_EVALUABLE")} ==> Choose(r) == Value(2)
    ensures r.result == Text("SATISFIED") && r.monitoring != Text("CURRENT") ==> Choose(r) == Value(3)
    ensures r.result == Text("SATISFIED") && r.monitoring == Text("CURRENT") && !InStanding(r) ==> Choose(r) == Value(4)
    ensures InStanding(r) && OutOfScope(r) == Value(true) ==> Choose(r) == Value(5)
    ensures InStanding(r) && OutOfScope(r) == Value(false) && PyLt(r.limit, r.amount) == Value(true) ==> Choose(r) == Value(6)
    ensures AllInOrder(r) ==> Choose(r) == Value(7)
  {
    ApprovalChosenIff(r);
    hide AllInOrder, OutOfScope, PyLt;
  }

  lemma ConditionGives(pkg: string, k: nat)
    requires k < 8
    ensures |Conditions(pkg)| == 8
    ensures var c := Conditions(pkg)[k];
            && (k < 6 ==> c.decision == DENIED)
            && (k == 0 ==> c.reasonCode == "REQUIRED_ASSURANCE_UNAVAILABLE")
            && (k == 1 ==> c.reasonCode == "REQUIRED_ASSURANCE_NOT_EVALUABLE")
            && (k == 2 ==> c.reasonCode == "REQUIRED_ASSURANCE_NOT_SATISFIED")
            && (k == 3 ==> c.reasonCode == "REQUIRED_ASSURANCE_STALE")
            && (k == 4 ==> c.reasonCode == "ACTOR_NOT_VERIFIED")
            && (k == 5 ==> c.reasonCode == "DELEGATED_AUTHORITY_EXCEEDED")
            && (k == 6 ==> c.decision == ESCALATED && c.reasonCode == "AUTONOMOUS_LIMIT_EXCEEDED")
            && (k == 7 ==> c.decision == APPROVED && c.reasonCode == "AUTHORIZED_WITHIN_LIMIT")
  {
  }

  function Gives(d: Decision, reason: string): Outcome<(Option<Decision>, seq<string>)> {
    Value((Some(d), [reason]))
  }

  function DecisionAt(k: nat): Decision {
    if k < 6 then DENIED else if k == 6 then ESCALATED else APPROVED
  }

  lemma ConditionAt(pkg: string, last: Condition, k: nat)
    requires k < 8 && last.decision == APPROVED
    ensures (Guards(pkg) + [last])[k] == if k < 7 then Guards(pkg)[k] else last
    ensures (Guards(pkg) + [last])[k].decision == DecisionAt(k)
  {
  }

  /** The approve condition with `True` for its expression. */
  function BareApproval(pkg: string): Condition {
    ApproveCondition(pkg).(expression := Constant(Boolean(true)))
  }

  /** Replacing the approve guard by `True` changes no outcome, no reason and no error, on any context. */
  lemma {:induction false} ApproveGuardRedundant(ctx: Context, pkg: string)
    ensures Ending(Scan(Sort(KeyLe, Guards(pkg) + [BareApproval(pkg)]), ctx)) == Ending(Scan(Sort(KeyLe, Conditions(pkg)), ctx))
  {
    var bare := BareApproval(pkg);
    assert Matched(bare.expression, ctx) == Value(true);
    ConditionsOrdered(pkg, bare);
    ScanGuards(ctx, pkg, bare);
    CircleDecides(ctx, pkg);
    ApprovalChosenIff(Read(ctx));
    var choice := Choose(Read(ctx));
    hide Choose, Read, Matched, Sort, Scan;
    if choice.Value? {
      ConditionAt(pkg, bare, choice.value);
      ConditionAt(pkg, ApproveCondition(pkg), choice.value);
      EndingOfDecided((Guards(pkg) + [bare])[choice.value]);
      EndingOfDecided(Conditions(pkg)[choice.value]);
    }
  }

  /**
   Fail-closed: without an assurance claim the outcome is DENIED as unavailable, whatever the rest
   of the context, the assessment and the authority state.
   */
  lemma {:induction false} AbsentAssuranceDenies(ctx: Context, pkg: string, assessment: Assessment, unavailable: bool)
    requires Field(Lookup(ctx, "evidence_claims"), EV_ASSURANCE) == Nothing
    ensures var s := Scan(Sort(KeyLe, Conditions(pkg)), ctx);
            && s.Value?
            && s.value.triggered == [Conditions(pkg)[0]]
            && Conditions(pkg)[0].reasonCode == "REQUIRED_ASSURANCE_UNAVAILABLE"
            && Resolve(false, s.value.outcome, assessment, unavailable).decision == DENIED
  {
    CircleDecides(ctx, pkg);
  }

  // ---------------------------------------------------------------- when it raises

  /** A membership test or the amount comparison is undefined, and nothing compared before it denies. */
  predicate TestUndefined(r: Reading) {
    OutOfScope(r) == TypeFault || (OutOfScope(r) == Value(false) && PyLt(r.limit, r.amount) == TypeFault)
  }

  lemma RaisingChoice(r: Reading)
    ensures !Choose(r).Value? <==> InStanding(r) && TestUndefined(r)
  {
    ScopeHasNoSyntaxFault(r);
    hide OutOfScope, PyLt;
  }

  lemma ScopeHasNoSyntaxFault(r: Reading)
    ensures !OutOfScope(r).SyntaxFault?
  {
  }

  /**
   The package raises `TypeError` instead of denying on exactly these contexts: assurance and
   identity are in order, and the first delegated test that does not already refuse is undefined.
   */
  lemma {:induction false} CircleRaisesIff(ctx: Context, pkg: string)
    ensures Scan(Sort(KeyLe, Conditions(pkg)), ctx) == TypeFault <==> InStanding(Read(ctx)) && TestUndefined(Read(ctx))
  {
    CircleDecides(ctx, pkg);
    RaisingChoice(Read(ctx));
    hide Choose, Read, Sort, Scan, Conditions;
  }

  /** Every delegated list is a list or missing, and the amount and the limit are numbers or missing. */
  predicate PresentOrMissing(r: Reading) {
    && (r.actions.Items? || r.actions == Nothing)
    && (r.assets.Items? || r.assets == Nothing)
    && (r.networks.Items? || r.networks == Nothing)
    && (IsNumeric(r.amount) || r.amount == Nothing)
    && (IsNumeric(r.limit) || r.limit == Nothing)
  }

  predicate Among(v: Fact, list: Fact)
    requires list.Items?
  {
    exists i :: 0 <= i < |list.items| && PyEq(list.items[i], v)
  }

  /** Actions, assets, networks, amount and limit are consulted in this order; the first that refuses or is missing settles it. */
  predicate MeetsMissing(r: Reading)
    requires PresentOrMissing(r)
  {
    r.actions == Nothing ||
    (Among(r.action, r.actions) &&
     (r.assets == Nothing ||
      (Among(r.asset, r.assets) &&
       (r.networks == Nothing ||
        (Among(r.network, r.networks) && (r.amount == Nothing || r.limit == Nothing))))))
  }

  /** What a caller can check first: with lists and numbers wherever anything is given, the package raises exactly when a missing one is reached. */
  lemma {:induction false} MissingDelegationRaisesIff(ctx: Context, pkg: string)
    requires PresentOrMissing(Read(ctx))
    ensures Scan(Sort(KeyLe, Conditions(pkg)), ctx) == TypeFault <==> InStanding(Read(ctx)) && MeetsMissing(Read(ctx))
  {
    CircleRaisesIff(ctx, pkg);
    MissingMeansUndefined(Read(ctx));
    hide Read, Sort, Scan, Conditions;
  }

  lemma MissingMeansUndefined(r: Reading)
    requires PresentOrMissing(r)
    ensures TestUndefined(r) <==> MeetsMissing(r)
  {
  }

  /** Absent delegated authority is not denied by the package: once assurance and identity are in order, it raises. */
  lemma {:induction false} AbsentDelegationRaises(ctx: Context, pkg: string)
    requires InStanding(Read(ctx))
    requires Field(Field(Lookup(ctx, "actor"), "metadata"), "delegated_authority") == Nothing
    ensures Scan(Sort(KeyLe, Conditions(pkg)), ctx) == TypeFault
  {
    CircleRaisesIff(ctx, pkg);
    hide Sort, Conditions, Scan;
  }

  // ---------------------------------------------------------------- relaxing

  /** Delegated lists are lists, and amount and limit are numbers. */
  predicate DelegationPresent(r: Reading) {
    r.actions.Items? && r.assets.Items? && r.networks.Items? && IsNumeric(r.amount) && IsNumeric(r.limit)
  }

  lemma ChoiceExists(r: Reading)
    requires DelegationPresent(r)
    ensures Choose(r).Value? && Choose(r).value < 8
  {
  }

  /** `b` asks for no more than `a`, of an agent delegated no less. */
  predicate Relaxed(a: Reading, b: Reading)
    requires DelegationPresent(a) && DelegationPresent(b)
  {
    && b.(amount := a.amount, limit := a.limit, actions := a.actions, assets := a.assets, networks := a.networks) == a
    && NumericValue(b.amount) <= NumericValue(a.amount)
    && NumericValue(a.limit) <= NumericValue(b.limit)
    && (Among(a.action, a.actions) ==> Among(a.action, b.actions))
    && (Among(a.asset, a.assets) ==> Among(a.asset, b.assets))
    && (Among(a.network, a.networks) ==> Among(a.network, b.networks))
  }

  /** Widening a delegated list keeps every name it had. */
  lemma WideningKeepsNames(v: Fact, list: Fact, wider: Fact)
    requires list.Items? && wider.Items? && forall x :: x in list.items ==> x in wider.items
    requires Among(v, list)
    ensures Among(v, wider)
  {
    var i :| 0 <= i < |list.items| && PyEq(list.items[i], v);
    assert list.items[i] in wider.items;
    var j :| 0 <= j < |wider.items| && wider.items[j] == list.items[i];
  }

  lemma RelaxedChoice(a: Reading, b: Reading)
    requires DelegationPresent(a) && DelegationPresent(b) && Relaxed(a, b)
    ensures Choose(b).value == Choose(a).value || (Choose(a).value in {5, 6} && Choose(b).value in {5, 6, 7} && Choose(a).value <= Choose(b).value)
  {
    ChoiceExists(a);
    ChoiceExists(b);
  }

  /** The condition outcome of the package on a context. */
  ghost predicate CircleOutcome(ctx: Context, pkg: string, d: Decision) {
    exists c :: Scan(Sort(KeyLe, Conditions(pkg)), ctx) == Decided(c) && c.decision == d
  }

  lemma OutcomeAt(ctx: Context, pkg: string)
    requires DelegationPresent(Read(ctx))
    ensures Choose(Read(ctx)).Value? && CircleOutcome(ctx, pkg, DecisionAt(Choose(Read(ctx)).value))
    ensures forall d :: CircleOutcome(ctx, pkg, d) ==> d == DecisionAt(Choose(Read(ctx)).value)
  {
    CircleDecides(ctx, pkg);
    ChoiceExists(Read(ctx));
    ConditionAt(pkg, ApproveCondition(pkg), Choose(Read(ctx)).value);
  }

  /**
   Lowering the amount, raising the limit or widening a delegated list never worsens the condition
   outcome; and it never worsens the decision either, except under a NOT_SATISFIED assessment when
   it turns an escalation into an approval.
   */
  lemma RelaxingNeverWorsens(ctx: Context, ctx': Context, pkg: string, before: Decision, after: Decision,
                             assessment: Assessment, unavailable: bool)
    requires DelegationPresent(Read(ctx)) && DelegationPresent(Read(ctx')) && Relaxed(Read(ctx), Read(ctx'))
    requires CircleOutcome(ctx, pkg, before) && CircleOutcome(ctx', pkg, after)
    ensures Severity(after) <= Severity(before)
    ensures Severity(Resolve(false, Some(after), assessment, unavailable).decision)
            <= Severity(Resolve(false, Some(before), assessment, unavailable).decision)
       <==> !(assessment == NOT_SATISFIED && after == APPROVED && before == ESCALATED)
  {
    OutcomeAt(ctx, pkg);
    OutcomeAt(ctx', pkg);
    RelaxedChoice(Read(ctx), Read(ctx'));
    ResolveMonotoneIff(false, after, before, assessment, unavailable);
  }
}
