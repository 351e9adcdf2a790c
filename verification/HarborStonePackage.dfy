/** The HarborStone package: authority denials, screening routing, and the human-approval upgrade. */
module HarborStonePackage {
  import opened Wrappers
  import opened Sorting
  import opened Decisions
  import opened Expressions
  import opened ExpressionLemmas
  import opened DecisionConditions

  const EV_SCREENING := "EV-HARBORSTONE-SANCTIONS-SCREENING"

  /** USD 250,000.00 in cents. */
  const AMOUNT_THRESHOLD_MINOR := 25_000_000

  function Screening(name: string): Expr {
    Subscript(Subscript(Name("evidence_claims"), Constant(Text(EV_SCREENING))), Constant(Text(name)))
  }

  function DenyReasons(): Expr {
    ListDisplay([Constant(Text("permission_missing")), Constant(Text("delegation_revoked")), Constant(Text("principal_not_active")),
                 Constant(Text("resource_scope_unmatched")), Constant(Text("limit_exceeded"))])
  }

  function AuthorityDenied(): Expr {
    Relate(Path("authority", "reason"), In, DenyReasons())
  }

  function Confirmed(): Expr {
    Test(Screening("result"), Eq, Text("CONFIRMED_MATCH"))
  }

  function ReviewRequired(): Expr {
    Test(Screening("requires_human_review"), Eq, Boolean(true))
  }

  /** The three clauses of a currently valid approval. */
  function ApprovalClauses(): seq<Expr> {
    [Test(Path("approval", "present"), Eq, Boolean(true)),
     Test(Path("approval", "approver_authorized"), Eq, Boolean(true)),
     Test(Path("approval", "expired"), Eq, Boolean(false))]
  }

  function ApprovedViaHuman(): Expr {
    And(ApprovalClauses() + [Relate(Path("authority", "reason"), NotIn, DenyReasons())])
  }

  function LargeAmount(): Expr {
    And([Test(Path("intent", "amount_currency"), Eq, Text("USD")),
         Test(Path("intent", "amount_minor"), GtE, Number(AMOUNT_THRESHOLD_MINOR))])
  }

  function NeedsApproval(): Expr {
    Or([Test(Path("authority", "reason"), Eq, Text("approval_required")),
        Test(Path("authority", "approval_required"), Eq, Boolean(true)),
        LargeAmount()])
  }

  function HumanApproval(): Expr {
    And([NeedsApproval(), Not(And(ApprovalClauses()))])
  }

  function CleanApproval(): Expr {
    And([Test(Path("authority", "sufficient"), Eq, Boolean(true)),
         Test(Path("intent", "amount_currency"), Eq, Text("USD")),
         Test(Path("intent", "amount_minor"), Lt, Number(AMOUNT_THRESHOLD_MINOR))])
  }

  /** The package's conditions, with the expression of the human-approval upgrade left open. */
  function ConditionsWith(pkg: string, upgrade: Expr): seq<Condition> {
    [Terminal("DC-HARBORSTONE-AUTHORITY-DENIED", AuthorityDenied(), DENIED, 10, "AUTHORITY_DENIED", pkg),
     Terminal("DC-HARBORSTONE-SANCTIONS-CONFIRMED", Confirmed(), DENIED, 11, "SANCTIONS_CONFIRMED_MATCH", pkg),
     Terminal("DC-HARBORSTONE-SANCTIONS-REVIEW", ReviewRequired(), ESCALATED, 12, "SANCTIONS_HUMAN_REVIEW_REQUIRED", pkg),
     Terminal("DC-HARBORSTONE-APPROVED-VIA-HUMAN", upgrade, APPROVED, 15, "HARBORSTONE_APPROVED_VIA_HUMAN", pkg),
     Terminal("DC-HARBORSTONE-HUMAN-APPROVAL", HumanApproval(), ESCALATED, 20, "HUMAN_APPROVAL_REQUIRED", pkg),
     Terminal("DC-HARBORSTONE-APPROVE", CleanApproval(), APPROVED, 100, "HARBORSTONE_APPROVED", pkg)]
  }

  function Conditions(pkg: string): seq<Condition> {
    ConditionsWith(pkg, ApprovedViaHuman())
  }

  // ---------------------------------------------------------------- what the conditions read

  datatype Reading = Reading(
    reason: Fact, approvalRequired: Fact, sufficient: Fact,
    currency: Fact, amount: Fact,
    present: Fact, authorized: Fact, expired: Fact,
    result: Fact, review: Fact)

  function ScreeningFact(ctx: Context, name: string): Fact {
    Field(Field(Lookup(ctx, "evidence_claims"), EV_SCREENING), name)
  }

  function Read(ctx: Context): Reading {
    var authority, intent, approval := Lookup(ctx, "authority"), Lookup(ctx, "intent"), Lookup(ctx, "approval");
    Reading(
      Field(authority, "reason"), Field(authority, "approval_required"), Field(authority, "sufficient"),
      Field(intent, "amount_currency"), Field(intent, "amount_minor"),
      Field(approval, "present"), Field(approval, "approver_authorized"), Field(approval, "expired"),
      ScreeningFact(ctx, "result"), ScreeningFact(ctx, "requires_human_review"))
  }

  /** `v == True`. */
  predicate IsTrue(v: Fact) {
    v == Boolean(true) || v == Number(1)
  }

  /** `v == False`. */
  predicate IsFalse(v: Fact) {
    v == Boolean(false) || v == Number(0)
  }

  function DenyList(): seq<Fact> {
    [Text("permission_missing"), Text("delegation_revoked"), Text("principal_not_active"), Text("resource_scope_unmatched"), Text("limit_exceeded")]
  }

  predicate DeniedReason(v: Fact) {
    v in DenyList()
  }

  predicate ApprovalValid(r: Reading) {
    IsTrue(r.present) && IsTrue(r.authorized) && IsFalse(r.expired)
  }

  /** `amount >= threshold` in USD; comparing a missing amount raises. */
  function AmountIsLarge(r: Reading): Outcome<bool> {
    if r.currency == Text("USD") then PyLe(Number(AMOUNT_THRESHOLD_MINOR), r.amount) else Value(false)
  }

  function ApprovalNeeded(r: Reading): Outcome<bool> {
    if r.reason == Text("approval_required") || IsTrue(r.approvalRequired) then Value(true) else AmountIsLarge(r)
  }

  function CleanlyApproved(r: Reading): Outcome<bool> {
    if !IsTrue(r.sufficient) || r.currency != Text("USD") then Value(false)
    else PyLt(r.amount, Number(AMOUNT_THRESHOLD_MINOR))
  }

  // ---------------------------------------------------------------- each condition, on what it reads

  lemma ScreeningValue(name: string, ctx: Context)
    ensures Eval(Screening(name), ctx) == Value(ScreeningFact(ctx, name))
  {
  }

  lemma {:induction false} ConstantList(vs: seq<Fact>, es: seq<Expr>, ctx: Context)
    requires |es| == |vs| && forall i :: 0 <= i < |vs| ==> es[i] == Constant(vs[i])
    ensures EvalList(es, ctx) == Value(vs)
  {
    if vs != [] {
      ConstantList(vs[1..], es[1..], ctx);
      assert Eval(es[0], ctx) == Value(vs[0]);
      assert [vs[0]] + vs[1..] == vs;
    }
  }

  lemma DenyReasonsValue(ctx: Context)
    ensures Eval(DenyReasons(), ctx) == Value(Items(DenyList()))
  {
    ConstantList(DenyList(), DenyReasons().elts, ctx);
  }

  lemma DenyListMeaning(v: Fact)
    ensures Contains(v, Items(DenyList())) == Value(DeniedReason(v))
  {
  }

  lemma {:induction false} GuardReadings(ctx: Context)
    ensures var r := Read(ctx);
            && Matched(AuthorityDenied(), ctx) == Value(DeniedReason(r.reason))
            && Eval(Relate(Path("authority", "reason"), NotIn, DenyReasons()), ctx) == Value(Boolean(!DeniedReason(r.reason)))
            && Matched(Confirmed(), ctx) == Value(r.result == Text("CONFIRMED_MATCH"))
            && Matched(ReviewRequired(), ctx) == Value(IsTrue(r.review))
  {
    hide Eval;
    var r := Read(ctx);
    PathValue("authority", "reason", ctx);
    DenyReasonsValue(ctx);
    DenyListMeaning(r.reason);
    RelateValue(Path("authority", "reason"), In, DenyReasons(), ctx, r.reason, Items(DenyList()));
    RelateValue(Path("authority", "reason"), NotIn, DenyReasons(), ctx, r.reason, Items(DenyList()));
    ScreeningReadings(ctx);
  }

  lemma ScreeningReadings(ctx: Context)
    ensures Matched(Confirmed(), ctx) == Value(Read(ctx).result == Text("CONFIRMED_MATCH"))
    ensures Matched(ReviewRequired(), ctx) == Value(IsTrue(Read(ctx).review))
  {
    var r := Read(ctx);
    ScreeningValue("result", ctx);
    ScreeningValue("requires_human_review", ctx);
    EqualToConstant(r.result);
    EqualToConstant(r.review);
    TestValue(Screening("result"), Eq, Text("CONFIRMED_MATCH"), ctx, r.result);
    TestValue(Screening("requires_human_review"), Eq, Boolean(true), ctx, r.review);
  }

  lemma ApprovalReading(ctx: Context)
    ensures EvalAnd(ApprovalClauses(), ctx) == Value(Boolean(ApprovalValid(Read(ctx))))
  {
    var r, es := Read(ctx), ApprovalClauses();
    PathValue("approval", "present", ctx);
    PathValue("approval", "approver_authorized", ctx);
    PathValue("approval", "expired", ctx);
    EqualToConstant(r.present);
    EqualToConstant(r.authorized);
    EqualToConstant(r.expired);
    TestValue(Path("approval", "present"), Eq, Boolean(true), ctx, r.present);
    TestValue(Path("approval", "approver_authorized"), Eq, Boolean(true), ctx, r.authorized);
    TestValue(Path("approval", "expired"), Eq, Boolean(false), ctx, r.expired);
    assert es == [es[0]] + ([es[1]] + ([es[2]] + []));
    AndStep(es[0], [es[1]] + ([es[2]] + []), ctx);
    AndStep(es[1], [es[2]] + [], ctx);
    AndStep(es[2], [], ctx);
  }

  lemma UpgradeReading(ctx: Context)
    ensures Matched(ApprovedViaHuman(), ctx) == Value(ApprovalValid(Read(ctx)) && !DeniedReason(Read(ctx).reason))
    ensures Matched(And(ApprovalClauses()), ctx) == Value(ApprovalValid(Read(ctx)))
  {
    var guard := Relate(Path("authority", "reason"), NotIn, DenyReasons());
    ApprovalReading(ctx);
    GuardReadings(ctx);
    AndConcat(ApprovalClauses(), [guard], ctx);
    assert [guard] == [guard] + [];
    AndStep(guard, [], ctx);
    assert Eval(ApprovedViaHuman(), ctx) == EvalAnd(ApprovalClauses() + [guard], ctx);
  }

  lemma CurrencyOperand(ctx: Context)
    ensures Eval(Test(Path("intent", "amount_currency"), Eq, Text("USD")), ctx) == Value(Boolean(Read(ctx).currency == Text("USD")))
  {
    PathValue("intent", "amount_currency", ctx);
    EqualToConstant(Read(ctx).currency);
    TestValue(Path("intent", "amount_currency"), Eq, Text("USD"), ctx, Read(ctx).currency);
  }

  lemma LargeAmountReading(ctx: Context)
    ensures Eval(LargeAmount(), ctx) == AsFact(AmountIsLarge(Read(ctx)))
  {
    var r := Read(ctx);
    var a, b := Test(Path("intent", "amount_currency"), Eq, Text("USD")), Test(Path("intent", "amount_minor"), GtE, Number(AMOUNT_THRESHOLD_MINOR));
    CurrencyOperand(ctx);
    PathValue("intent", "amount_minor", ctx);
    TestValue(Path("intent", "amount_minor"), GtE, Number(AMOUNT_THRESHOLD_MINOR), ctx, r.amount);
    assert [a, b] == [a] + ([b] + []);
    AndStep(a, [b] + [], ctx);
    AndStep(b, [], ctx);
    assert Eval(LargeAmount(), ctx) == EvalAnd([a, b], ctx);
  }

  lemma AuthorityOperands(ctx: Context)
    ensures var r := Read(ctx);
            && Eval(Test(Path("authority", "reason"), Eq, Text("approval_required")), ctx) == Value(Boolean(r.reason == Text("approval_required")))
            && Eval(Test(Path("authority", "approval_required"), Eq, Boolean(true)), ctx) == Value(Boolean(IsTrue(r.approvalRequired)))
            && Eval(Test(Path("authority", "sufficient"), Eq, Boolean(true)), ctx) == Value(Boolean(IsTrue(r.sufficient)))
  {
    var r := Read(ctx);
    PathValue("authority", "reason", ctx);
    PathValue("authority", "approval_required", ctx);
    PathValue("authority", "sufficient", ctx);
    EqualToConstant(r.reason);
    EqualToConstant(r.approvalRequired);
    EqualToConstant(r.sufficient);
    TestValue(Path("authority", "reason"), Eq, Text("approval_required"), ctx, r.reason);
    TestValue(Path("authority", "approval_required"), Eq, Boolean(true), ctx, r.approvalRequired);
    TestValue(Path("authority", "sufficient"), Eq, Boolean(true), ctx, r.sufficient);
  }

  lemma NeedsApprovalReading(ctx: Context)
    ensures Eval(NeedsApproval(), ctx) == AsFact(ApprovalNeeded(Read(ctx)))
  {
    var a := Test(Path("authority", "reason"), Eq, Text("approval_required"));
    var b := Test(Path("authority", "approval_required"), Eq, Boolean(true));
    AuthorityOperands(ctx);
    LargeAmountReading(ctx);
    assert [a, b, LargeAmount()] == [a] + ([b] + ([LargeAmount()] + []));
    OrStep(a, [b] + ([LargeAmount()] + []), ctx);
    OrStep(b, [LargeAmount()] + [], ctx);
    OrStep(LargeAmount(), [], ctx);
    assert Eval(NeedsApproval(), ctx) == EvalOr([a, b, LargeAmount()], ctx);
  }

  lemma NoSyntaxFault(r: Reading)
    ensures !ApprovalNeeded(r).SyntaxFault? && !CleanlyApproved(r).SyntaxFault?
  {
  }

  lemma HumanApprovalReading(ctx: Context)
    ensures Matched(HumanApproval(), ctx) ==
            if ApprovalNeeded(Read(ctx)) == Value(true) then Value(!ApprovalValid(Read(ctx))) else ApprovalNeeded(Read(ctx))
  {
    var valid := And(ApprovalClauses());
    NoSyntaxFault(Read(ctx));
    NeedsApprovalReading(ctx);
    ApprovalReading(ctx);
    assert Eval(valid, ctx) == EvalAnd(ApprovalClauses(), ctx);
    assert Eval(Not(valid), ctx) == Value(Boolean(!ApprovalValid(Read(ctx))));
    assert [NeedsApproval(), Not(valid)] == [NeedsApproval()] + ([Not(valid)] + []);
    AndStep(NeedsApproval(), [Not(valid)] + [], ctx);
    AndStep(Not(valid), [], ctx);
    assert Eval(HumanApproval(), ctx) == EvalAnd([NeedsApproval(), Not(valid)], ctx);
  }

  lemma CleanApprovalReading(ctx: Context)
    ensures Matched(CleanApproval(), ctx) == CleanlyApproved(Read(ctx))
  {
    var r := Read(ctx);
    var a := Test(Path("authority", "sufficient"), Eq, Boolean(true));
    var b := Test(Path("intent", "amount_currency"), Eq, Text("USD"));
    var c := Test(Path("intent", "amount_minor"), Lt, Number(AMOUNT_THRESHOLD_MINOR));
    NoSyntaxFault(r);
    AuthorityOperands(ctx);
    CurrencyOperand(ctx);
    PathValue("intent", "amount_minor", ctx);
    TestValue(Path("intent", "amount_minor"), Lt, Number(AMOUNT_THRESHOLD_MINOR), ctx, r.amount);
    assert [a, b, c] == [a] + ([b] + ([c] + []));
    AndStep(a, [b] + ([c] + []), ctx);
    AndStep(b, [c] + [], ctx);
    AndStep(c, [], ctx);
    assert Eval(CleanApproval(), ctx) == EvalAnd([a, b, c], ctx);
  }

  // ---------------------------------------------------------------- the decision

  /** An authority denial, a confirmed match or a screening review: the conditions ordered before the upgrade. */
  predicate GuardFires(r: Reading) {
    DeniedReason(r.reason) || r.result == Text("CONFIRMED_MATCH") || IsTrue(r.review)
  }

  /** Which condition decides, counting from 0, if any does, or the error that escapes. */
  function Choose(r: Reading): Outcome<Option<nat>> {
    if DeniedReason(r.reason) then Value(Some(0))
    else if r.result == Text("CONFIRMED_MATCH") then Value(Some(1))
    else if IsTrue(r.review) then Value(Some(2))
    else if ApprovalValid(r) then Value(Some(3))
    else
      match ApprovalNeeded(r)
      case Value(true) => Value(Some(4))
      case Value(false) => Value(if CleanlyApproved(r) == Value(true) then Some(5) else None)
      case TypeFault => TypeFault
      case SyntaxFault => SyntaxFault
  }

  /** Where approval is found not to be needed, the amount has already been compared. */
  lemma CleanTestNeverRaises(r: Reading)
    requires ApprovalNeeded(r) == Value(false)
    ensures CleanlyApproved(r).Value?
  {
  }

  /** An upgrade expression that asks for a valid approval, and perhaps for the absence of an authority denial. */
  ghost predicate UpgradeAsks(upgrade: Expr, ctx: Context) {
    !DeniedReason(Read(ctx).reason) ==> Matched(upgrade, ctx) == Value(ApprovalValid(Read(ctx)))
  }

  lemma ConditionExpressions(pkg: string, upgrade: Expr)
    ensures var cs := ConditionsWith(pkg, upgrade);
            && cs[0].expression == AuthorityDenied() && cs[1].expression == Confirmed() && cs[2].expression == ReviewRequired()
            && cs[3].expression == upgrade && cs[4].expression == HumanApproval() && cs[5].expression == CleanApproval()
    ensures AllTerminal(ConditionsWith(pkg, upgrade))
  {
  }

  lemma PrioritiesRise(pkg: string, upgrade: Expr)
    ensures var cs := ConditionsWith(pkg, upgrade);
            |cs| == 6 && cs[0].priority < cs[1].priority < cs[2].priority < cs[3].priority < cs[4].priority < cs[5].priority
  {
  }

  lemma ConditionsOrdered(pkg: string, upgrade: Expr)
    ensures Sort(KeyLe, ConditionsWith(pkg, upgrade)) == ConditionsWith(pkg, upgrade)
  {
    PrioritiesRise(pkg, upgrade);
    hide ConditionsWith;
    KeyOrder();
    SortOfOrdered(KeyLe, ConditionsWith(pkg, upgrade));
  }

  lemma ScanFindsNothing(cs: seq<Condition>, ctx: Context)
    requires forall j :: 0 <= j < |cs| ==> Silent(cs[j], ctx)
    ensures Scan(cs, ctx) == Value(Scanned(None, []))
  {
  }

  /** What the six conditions evaluate to, as far as the choice needs them. */
  ghost predicate SixReadings(cs: seq<Condition>, ctx: Context, r: Reading)
    requires |cs| == 6
  {
    && Matched(cs[0].expression, ctx) == Value(DeniedReason(r.reason))
    && Matched(cs[1].expression, ctx) == Value(r.result == Text("CONFIRMED_MATCH"))
    && Matched(cs[2].expression, ctx) == Value(IsTrue(r.review))
    && (!DeniedReason(r.reason) ==> Matched(cs[3].expression, ctx) == Value(ApprovalValid(r)))
    && Matched(cs[4].expression, ctx) == (if ApprovalNeeded(r) == Value(true) then Value(!ApprovalValid(r)) else ApprovalNeeded(r))
    && Matched(cs[5].expression, ctx) == CleanlyApproved(r)
  }

  lemma PackageReadings(ctx: Context, pkg: string, upgrade: Expr)
    requires UpgradeAsks(upgrade, ctx)
    ensures SixReadings(ConditionsWith(pkg, upgrade), ctx, Read(ctx))
  {
    ConditionExpressions(pkg, upgrade);
    GuardReadings(ctx);
    HumanApprovalReading(ctx);
    CleanApprovalReading(ctx);
  }

  /** The conditions before the deciding one are silent, and all are when none decides. */
  lemma SilentBefore(cs: seq<Condition>, ctx: Context, r: Reading, k: nat)
    requires |cs| == 6 && k <= 6 && SixReadings(cs, ctx, r)
    requires match Choose(r)
             case Value(Some(n)) => k == n
             case Value(None) => k == 6
             case _ => k == 4
    ensures forall j :: 0 <= j < k ==> Silent(cs[j], ctx)
  {
    NoSyntaxFault(r);
    if k == 6 {
      CleanTestNeverRaises(r);
    }
    assert k > 0 ==> Silent(cs[0], ctx);
    assert k > 1 ==> Silent(cs[1], ctx);
    assert k > 2 ==> Silent(cs[2], ctx);
    assert k > 3 ==> Silent(cs[3], ctx);
    assert k > 4 ==> Silent(cs[4], ctx);
    assert k > 5 ==> Silent(cs[5], ctx);
    forall j | 0 <= j < k ensures Silent(cs[j], ctx) {
      assert j in {0, 1, 2, 3, 4, 5};
    }
  }

  lemma ScanByReadings(cs: seq<Condition>, ctx: Context, r: Reading)
    requires |cs| == 6 && AllTerminal(cs) && SixReadings(cs, ctx, r)
    ensures match Choose(r)
            case Value(Some(k)) => k < 6 && Scan(cs, ctx) == Decided(cs[k])
            case Value(None) => Scan(cs, ctx) == Value(Scanned(None, []))
            case _ => Scan(cs, ctx) == TypeFault
  {
    NoSyntaxFault(r);
    var choice := Choose(r);
    var k := if choice.Value? then if choice.value.Some? then choice.value.value else 6 else 4;
    SilentBefore(cs, ctx, r, k);
    if k == 6 {
      ScanFindsNothing(cs, ctx);
    } else {
      ScanStopsAt(cs, ctx, k);
    }
  }

  lemma {:induction false} ScanChooses(ctx: Context, pkg: string, upgrade: Expr)
    requires UpgradeAsks(upgrade, ctx)
    ensures match Choose(Read(ctx))
            case Value(Some(k)) => k < 6 && Scan(ConditionsWith(pkg, upgrade), ctx) == Decided(ConditionsWith(pkg, upgrade)[k])
            case Value(None) => Scan(ConditionsWith(pkg, upgrade), ctx) == Value(Scanned(None, []))
            case _ => Scan(ConditionsWith(pkg, upgrade), ctx) == TypeFault
  {
    PackageReadings(ctx, pkg, upgrade);
    ConditionExpressions(pkg, upgrade);
    ScanByReadings(ConditionsWith(pkg, upgrade), ctx, Read(ctx));
  }

  /** The package decides as `Choose` says on every context, in whatever order its conditions are listed. */
  lemma HarborDecides(ctx: Context, pkg: string)
    ensures match Choose(Read(ctx))
            case Value(Some(k)) => k < 6 && Scan(Sort(KeyLe, Conditions(pkg)), ctx) == Decided(Conditions(pkg)[k])
            case Value(None) => Scan(Sort(KeyLe, Conditions(pkg)), ctx) == Value(Scanned(None, []))
            case _ => Scan(Sort(KeyLe, Conditions(pkg)), ctx) == TypeFault
  {
    UpgradeReading(ctx);
    ConditionsOrdered(pkg, ApprovedViaHuman());
    ScanChooses(ctx, pkg, ApprovedViaHuman());
  }

  /** The decision of the condition that was chosen. */
  function DecisionOf(choice: Option<nat>): Option<Decision> {
    match choice
    case None => None
    case Some(k) => Some(if k < 2 then DENIED else if k == 2 || k == 4 then ESCALATED else APPROVED)
  }

  lemma DecisionAt(pkg: string, k: nat)
    requires k < 6
    ensures |Conditions(pkg)| == 6 && Some(Conditions(pkg)[k].decision) == DecisionOf(Some(k))
  {
  }

  /** Changing the upgrade's expression changes no decision and no reason code. */
  lemma SameButUpgrade(pkg: string, upgrade: Expr, k: nat)
    requires k < 6
    ensures |Conditions(pkg)| == |ConditionsWith(pkg, upgrade)| == 6
    ensures Conditions(pkg)[k].decision == ConditionsWith(pkg, upgrade)[k].decision
    ensures Conditions(pkg)[k].reasonCode == ConditionsWith(pkg, upgrade)[k].reasonCode
  {
  }

  /** The `not in` guard of the upgrade can be dropped: on every context the outcome, the reasons and any error stay the same. */
  lemma UpgradeGuardRedundant(ctx: Context, pkg: string)
    ensures Ending(Scan(Sort(KeyLe, ConditionsWith(pkg, And(ApprovalClauses()))), ctx)) == Ending(Scan(Sort(KeyLe, Conditions(pkg)), ctx))
  {
    hide Conditions, ConditionsWith, Choose, Read, Sort;
    var bare := And(ApprovalClauses());
    UpgradeReading(ctx);
    ConditionsOrdered(pkg, bare);
    ScanChooses(ctx, pkg, bare);
    HarborDecides(ctx, pkg);
    var choice := Choose(Read(ctx));
    if choice.Value? && choice.value.Some? {
      var k := choice.value.value;
      SameButUpgrade(pkg, bare, k);
      EndingOfDecided(ConditionsWith(pkg, bare)[k]);
      EndingOfDecided(Conditions(pkg)[k]);
    }
  }

  /** A human approval that is present, authorised and not expired. */
  predicate ValidApproval(a: Fact) {
    IsTrue(Field(a, "present")) && IsTrue(Field(a, "approver_authorized")) && IsFalse(Field(a, "expired"))
  }

  lemma ReadWithApproval(ctx: Context, a: Fact)
    ensures Read(ctx["approval" := a])
         == Read(ctx).(present := Field(a, "present"), authorized := Field(a, "approver_authorized"), expired := Field(a, "expired"))
  {
  }

  /** A USD amount below the threshold, sufficient authority, and nothing asking for approval. */
  predicate CleanCase(r: Reading) {
    && r.reason != Text("approval_required") && !IsTrue(r.approvalRequired) && IsTrue(r.sufficient)
    && r.currency == Text("USD") && IsNumeric(r.amount) && NumericValue(r.amount) < AMOUNT_THRESHOLD_MINOR
  }

  /** A choice below 3 is a guard; the upgrade is tried next. */
  lemma GuardChoice(r: Reading)
    ensures GuardFires(r) <==> Choose(r) in {Value(Some(0)), Value(Some(1)), Value(Some(2))}
    ensures !GuardFires(r) && ApprovalValid(r) ==> Choose(r) == Value(Some(3))
  {
  }

  lemma UpgradedChoice(r: Reading, r': Reading)
    requires ApprovalValid(r') && r'.(present := r.present, authorized := r.authorized, expired := r.expired) == r
    ensures Choose(r') == if GuardFires(r) then Choose(r) else Value(Some(3))
  {
  }

  lemma ApprovingChoice(r: Reading)
    ensures Choose(r) in {Value(Some(3)), Value(Some(5))} <==> !GuardFires(r) && (ApprovalValid(r) || CleanCase(r))
  {
  }

  lemma ChoiceRange(r: Reading)
    ensures Choose(r).Value? ==> Choose(r).value in {None, Some(0), Some(1), Some(2), Some(3), Some(4), Some(5)}
  {
  }

  lemma RaisingChoice(r: Reading)
    ensures !Choose(r).Value? <==>
            && !GuardFires(r) && !ApprovalValid(r)
            && r.reason != Text("approval_required") && !IsTrue(r.approvalRequired)
            && r.currency == Text("USD") && !IsNumeric(r.amount)
  {
  }

  /** The package's run on a context, in terms of the choice only. */
  lemma OutcomeByChoice(ctx: Context, pkg: string)
    ensures var s, choice := Scan(Sort(KeyLe, Conditions(pkg)), ctx), Choose(Read(ctx));
            && s.Value? == choice.Value? && !s.SyntaxFault?
            && (s.Value? ==> s.value.outcome == DecisionOf(choice.value))
  {
    hide Conditions, ConditionsWith, Choose, Read, Sort;
    HarborDecides(ctx, pkg);
    var choice := Choose(Read(ctx));
    if choice.Value? && choice.value.Some? {
      DecisionAt(pkg, choice.value.value);
    }
  }

  /**
   A bounded upgrade: adding a valid approval to any context leaves everything as it was when an
   authority denial, a confirmed match or a screening review fires, and otherwise makes the outcome
   APPROVED, even where the context alone matched nothing or raised.
   */
  lemma ApprovalIsBoundedUpgrade(ctx: Context, pkg: string, a: Fact)
    requires ValidApproval(a)
    ensures var upgraded := Scan(Sort(KeyLe, Conditions(pkg)), ctx["approval" := a]);
            if GuardFires(Read(ctx)) then upgraded == Scan(Sort(KeyLe, Conditions(pkg)), ctx)
            else upgraded == Decided(Conditions(pkg)[3]) && Conditions(pkg)[3].decision == APPROVED
  {
    hide Conditions, ConditionsWith, Choose, Read, Sort;
    ReadWithApproval(ctx, a);
    UpgradedChoice(Read(ctx), Read(ctx["approval" := a]));
    HarborDecides(ctx, pkg);
    HarborDecides(ctx["approval" := a], pkg);
    GuardChoice(Read(ctx));
    DecisionAt(pkg, 3);
  }

  /** The decision after the upgrade is APPROVED exactly when no guard fires, the controls are satisfied and the authority state is known. */
  lemma UpgradeApprovesIff(ctx: Context, pkg: string, a: Fact, assessment: Assessment, unavailable: bool)
    requires ValidApproval(a)
    ensures var s := Scan(Sort(KeyLe, Conditions(pkg)), ctx["approval" := a]);
            s.Value? &&
            (Resolve(false, s.value.outcome, assessment, unavailable).decision == APPROVED
             <==> !GuardFires(Read(ctx)) && assessment == SATISFIED && !unavailable)
  {
    hide Conditions, ConditionsWith, Choose, Read, Sort;
    ReadWithApproval(ctx, a);
    UpgradedChoice(Read(ctx), Read(ctx["approval" := a]));
    OutcomeByChoice(ctx["approval" := a], pkg);
    GuardChoice(Read(ctx));
    ApprovedIff(false, Scan(Sort(KeyLe, Conditions(pkg)), ctx["approval" := a]).value.outcome, assessment, unavailable);
  }

  /** On every context: the outcome is APPROVED exactly when no guard fires and either a human approved or the case is clean. */
  lemma HarborApprovesIff(ctx: Context, pkg: string)
    ensures var s := Scan(Sort(KeyLe, Conditions(pkg)), ctx);
            s.Value? && s.value.outcome == Some(APPROVED) <==>
            !GuardFires(Read(ctx)) && (ApprovalValid(Read(ctx)) || CleanCase(Read(ctx)))
  {
    hide Conditions, ConditionsWith, Choose, Read, Sort;
    OutcomeByChoice(ctx, pkg);
    ApprovingChoice(Read(ctx));
    ChoiceRange(Read(ctx));
  }

  /**
   The package raises `TypeError` on exactly one family of contexts: no guard fires, nobody approved,
   nothing else asks for approval, and the currency is USD while the amount is not a number.
   */
  lemma HarborRaisesIff(ctx: Context, pkg: string)
    ensures Scan(Sort(KeyLe, Conditions(pkg)), ctx) == TypeFault <==>
            var r := Read(ctx);
            && !GuardFires(r) && !ApprovalValid(r)
            && r.reason != Text("approval_required") && !IsTrue(r.approvalRequired)
            && r.currency == Text("USD") && !IsNumeric(r.amount)
  {
    hide Conditions, ConditionsWith, Choose, Read, Sort;
    OutcomeByChoice(ctx, pkg);
    RaisingChoice(Read(ctx));
  }

  function Gives(d: Decision, reason: string): Outcome<(Option<Decision>, seq<string>)> {
    Value((Some(d), [reason]))
  }

  /** Something asks for a human approval: the authority, or the amount. */
  predicate ApprovalAsked(r: Reading) {
    || r.reason == Text("approval_required") || IsTrue(r.approvalRequired)
    || (r.currency == Text("USD") && IsNumeric(r.amount) && NumericValue(r.amount) >= AMOUNT_THRESHOLD_MINOR)
  }

  /** The outcome and the reason code on every context on which no error escapes; exactly one case applies. */
  lemma HarborVerdicts(ctx: Context, pkg: string)
    ensures var r, e := Read(ctx), Ending(Scan(Sort(KeyLe, Conditions(pkg)), ctx));
            && (DeniedReason(r.reason) ==> e == Gives(DENIED, "AUTHORITY_DENIED"))
            && (!DeniedReason(r.reason) && r.result == Text("CONFIRMED_MATCH") ==> e == Gives(DENIED, "SANCTIONS_CONFIRMED_MATCH"))
            && (!DeniedReason(r.reason) && r.result != Text("CONFIRMED_MATCH") && IsTrue(r.review) ==>
                e == Gives(ESCALATED, "SANCTIONS_HUMAN_REVIEW_REQUIRED"))
            && (!GuardFires(r) && ApprovalValid(r) ==> e == Gives(APPROVED, "HARBORSTONE_APPROVED_VIA_HUMAN"))
            && (!GuardFires(r) && !ApprovalValid(r) && ApprovalAsked(r) ==> e == Gives(ESCALATED, "HUMAN_APPROVAL_REQUIRED"))
            && (!GuardFires(r) && !ApprovalValid(r) && CleanCase(r) ==> e == Gives(APPROVED, "HARBORSTONE_APPROVED"))
            && (!GuardFires(r) && !ApprovalValid(r) && !ApprovalAsked(r) && !CleanCase(r) && e.Value? ==> e == Value((None, [])))
  {
    hide Read, Sort, Scan, Choose, GuardFires, ApprovalValid, ApprovalAsked, CleanCase, DeniedReason, IsTrue, Conditions;
    HarborDecides(ctx, pkg);
    VerdictChoice(Read(ctx));
    var choice := Choose(Read(ctx));
    if choice.Value? && choice.value.Some? {
      ConditionGives(pkg, choice.value.value);
      EndingOfDecided(Conditions(pkg)[choice.value.value]);
    } else if choice.Value? {
      EndingOfNothing();
    }
  }

  lemma ConditionGives(pkg: string, k: nat)
    requires k < 6
    ensures |Conditions(pkg)| == 6
    ensures var c := Conditions(pkg)[k];
            && (k == 0 ==> c.decision == DENIED && c.reasonCode == "AUTHORITY_DENIED")
            && (k == 1 ==> c.decision == DENIED && c.reasonCode == "SANCTIONS_CONFIRMED_MATCH")
            && (k == 2 ==> c.decision == ESCALATED && c.reasonCode == "SANCTIONS_HUMAN_REVIEW_REQUIRED")
            && (k == 3 ==> c.decision == APPROVED && c.reasonCode == "HARBORSTONE_APPROVED_VIA_HUMAN")
            && (k == 4 ==> c.decision == ESCALATED && c.reasonCode == "HUMAN_APPROVAL_REQUIRED")
            && (k == 5 ==> c.decision == APPROVED && c.reasonCode == "HARBORSTONE_APPROVED")
  {
  }

  lemma VerdictChoice(r: Reading)
    ensures DeniedReason(r.reason) ==> Choose(r) == Value(Some(0))
    ensures !DeniedReason(r.reason) && r.result == Text("CONFIRMED_MATCH") ==> Choose(r) == Value(Some(1))
    ensures !DeniedReason(r.reason) && r.result != Text("CONFIRMED_MATCH") && IsTrue(r.review) ==> Choose(r) == Value(Some(2))
    ensures !GuardFires(r) && ApprovalValid(r) ==> Choose(r) == Value(Some(3))
    ensures !GuardFires(r) && !ApprovalValid(r) && ApprovalAsked(r) ==> Choose(r) == Value(Some(4))
    ensures !GuardFires(r) && !ApprovalValid(r) && CleanCase(r) ==> Choose(r) == Value(Some(5))
    ensures !GuardFires(r) && !ApprovalValid(r) && !ApprovalAsked(r) && !CleanCase(r) && Choose(r).Value? ==> Choose(r) == Value(None)
  {
  }
}
