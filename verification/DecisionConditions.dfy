/**
 Ordered decision conditions and the mapping to a business outcome (`decision_service.py`):
 conditions are tried by priority, then package id, then condition id, and the first terminal one
 that matches ends the search.
 */
module DecisionConditions {
  import opened Wrappers
  import opened PyText
  import opened Sorting
  import opened Decisions
  import opened Expressions

  datatype Condition = Condition(
    conditionId: string,
    packageId: string,
    expression: Expr,
    decision: Decision,
    priority: int,
    reasonCode: string,
    terminal: bool)

  function Terminal(id: string, e: Expr, d: Decision, priority: int, reason: string, packageId: string): Condition {
    Condition(id, packageId, e, d, priority, reason, true)
  }

  /** The sort key `(priority, package_id, condition_id)`. */
  predicate KeyLe(a: Condition, b: Condition) {
    if a.priority != b.priority then a.priority < b.priority
    else if a.packageId != b.packageId then StrLe(a.packageId, b.packageId)
    else StrLe(a.conditionId, b.conditionId)
  }

  /** Lower priority first, then the package and then the condition whose identifier comes first by code point. */
  ghost predicate ComesFirst(a: Condition, b: Condition) {
    || a.priority < b.priority
    || (a.priority == b.priority && Precedes(a.packageId, b.packageId))
    || (a.priority == b.priority && a.packageId == b.packageId && (a.conditionId == b.conditionId || Precedes(a.conditionId, b.conditionId)))
  }

  lemma KeyOrderMeaning(a: Condition, b: Condition)
    ensures KeyLe(a, b) <==> ComesFirst(a, b)
  {
    StrLeMeaning(a.packageId, b.packageId);
    StrLeMeaning(a.conditionId, b.conditionId);
    PrecedesIrreflexive(a.packageId);
    hide StrLe, Precedes;
  }

  predicate SameKey(a: Condition, b: Condition) {
    a.priority == b.priority && a.packageId == b.packageId && a.conditionId == b.conditionId
  }

  ghost predicate DistinctKeys(cs: seq<Condition>) {
    forall i, j :: 0 <= i < j < |cs| ==> !SameKey(cs[i], cs[j])
  }

  lemma KeyOrder()
    ensures TotalPreorder(KeyLe)
  {
    forall a, b ensures KeyLe(a, b) || KeyLe(b, a) {
      StrLeTotal(a.packageId, b.packageId);
      StrLeTotal(a.conditionId, b.conditionId);
    }
    forall a, b, c | KeyLe(a, b) && KeyLe(b, c) ensures KeyLe(a, c) {
      KeyLeTransitive(a, b, c);
    }
  }

  lemma KeyLeTransitive(a: Condition, b: Condition, c: Condition)
    requires KeyLe(a, b) && KeyLe(b, c)
    ensures KeyLe(a, c)
  {
    if a.priority == b.priority == c.priority {
      if a.packageId == b.packageId == c.packageId {
        StrLeTransitive(a.conditionId, b.conditionId, c.conditionId);
      } else if a.packageId != b.packageId && b.packageId != c.packageId {
        StrLeTransitive(a.packageId, b.packageId, c.packageId);
        if a.packageId == c.packageId {
          StrLeAntisymmetric(a.packageId, b.packageId);
        }
      }
    }
  }

  lemma TieMeansSameKey(a: Condition, b: Condition)
    requires KeyLe(a, b) && KeyLe(b, a)
    ensures SameKey(a, b)
  {
    if a.packageId != b.packageId {
      StrLeAntisymmetric(a.packageId, b.packageId);
    } else {
      StrLeAntisymmetric(a.conditionId, b.conditionId);
    }
  }

  lemma DistinctKeysTie(cs: seq<Condition>)
    requires DistinctKeys(cs)
    ensures TiesOnlyEqual(KeyLe, cs)
  {
    forall i, j | 0 <= i < |cs| && 0 <= j < |cs| && KeyLe(cs[i], cs[j]) && KeyLe(cs[j], cs[i]) ensures cs[i] == cs[j] {
      TieMeansSameKey(cs[i], cs[j]);
    }
  }

  // ---------------------------------------------------------------- scanning

  /** The selected outcome, if any, and the conditions that were true. */
  datatype Scanned = Scanned(outcome: Option<Decision>, triggered: seq<Condition>)

  function Scan(ordered: seq<Condition>, ctx: Context): Outcome<Scanned> {
    if ordered == [] then Value(Scanned(None, []))
    else
      match Matched(ordered[0].expression, ctx)
      case TypeFault => TypeFault
      case SyntaxFault => SyntaxFault
      case Value(matched) =>
        if !matched then Scan(ordered[1..], ctx)
        else if ordered[0].terminal then Value(Scanned(Some(ordered[0].decision), [ordered[0]]))
        else Continue(Some(ordered[0].decision), [ordered[0]], Scan(ordered[1..], ctx))
  }

  /** A scan that ended on one condition. */
  function Decided(c: Condition): Outcome<Scanned> {
    Value(Scanned(Some(c.decision), [c]))
  }

  /** What was found so far, overridden by what comes later. */
  function Continue(outcome: Option<Decision>, triggered: seq<Condition>, rest: Outcome<Scanned>): Outcome<Scanned> {
    match rest
    case Value(s) => Value(Scanned(if s.outcome.Some? then s.outcome else outcome, triggered + s.triggered))
    case fault => fault
  }

  /** `_evaluate_conditions`; a `TypeError` in an expression escapes it. */
  method EvaluateConditions(conditions: seq<Condition>, ctx: Context) returns (r: Outcome<Scanned>)
    ensures r == Scan(Sort(KeyLe, conditions), ctx)
  {
    var ordered := Sort(KeyLe, conditions);
    var outcome: Option<Decision> := None;
    var triggered: seq<Condition> := [];
    ContinueNothing(Scan(ordered, ctx));
    assert ordered[0..] == ordered;
    for i := 0 to |ordered|
      invariant Scan(ordered, ctx) == Continue(outcome, triggered, Scan(ordered[i..], ctx))
    {
      var condition := ordered[i];
      assert ordered[i..][0] == condition && ordered[i..][1..] == ordered[i + 1..];
      ghost var rest := Scan(ordered[i + 1..], ctx);
      var value := Eval(condition.expression, ctx);
      if value.TypeFault? {
        return TypeFault;
      }
      var matched := value.Value? && Truthy(value.value);
      if !matched {
        continue;
      }
      ContinueTwice(outcome, triggered, condition, rest);
      triggered := triggered + [condition];
      outcome := Some(condition.decision);
      if condition.terminal {
        return Value(Scanned(outcome, triggered));
      }
    }
    assert triggered + [] == triggered;
    return Value(Scanned(outcome, triggered));
  }

  lemma ContinueNothing(rest: Outcome<Scanned>)
    ensures Continue(None, [], rest) == rest
  {
    if rest.Value? {
      assert [] + rest.value.triggered == rest.value.triggered;
    }
  }

  lemma ContinueTwice(outcome: Option<Decision>, triggered: seq<Condition>, c: Condition, rest: Outcome<Scanned>)
    ensures Continue(outcome, triggered, Continue(Some(c.decision), [c], rest)) == Continue(Some(c.decision), triggered + [c], rest)
  {
    if rest.Value? {
      assert triggered + ([c] + rest.value.triggered) == triggered + [c] + rest.value.triggered;
    }
  }

  /** The outcome of a scan and the reasons it gives, or the error that escapes. */
  function Ending(s: Outcome<Scanned>): Outcome<(Option<Decision>, seq<string>)> {
    match s
    case Value(Scanned(outcome, triggered)) => Value((outcome, seq(|triggered|, i requires 0 <= i < |triggered| => triggered[i].reasonCode)))
    case TypeFault => TypeFault
    case SyntaxFault => SyntaxFault
  }

  lemma EndingOfDecided(c: Condition)
    ensures Ending(Decided(c)) == Value((Some(c.decision), [c.reasonCode]))
  {
    assert Ending(Decided(c)).value.1 == [c.reasonCode];
  }

  lemma EndingOfNothing()
    ensures Ending(Value(Scanned(None, []))) == Value((None, []))
  {
    assert Ending(Value(Scanned(None, []))).value.1 == [];
  }

  // ---------------------------------------------------------------- first match

  ghost predicate AllTerminal(cs: seq<Condition>) {
    forall i :: 0 <= i < |cs| ==> cs[i].terminal
  }

  predicate Silent(c: Condition, ctx: Context) {
    Matched(c.expression, ctx) == Value(false)
  }

  /** `c` matches, and every condition ordered before it evaluates to false without an error. */
  ghost predicate Decides(c: Condition, cs: seq<Condition>, ctx: Context) {
    && c in cs
    && Matched(c.expression, ctx) == Value(true)
    && forall d :: d in cs && d != c && KeyLe(d, c) ==> Silent(d, ctx)
  }

  lemma {:induction false} ScanFirstMatch(ordered: seq<Condition>, ctx: Context)
    requires AllTerminal(ordered)
    ensures match Scan(ordered, ctx)
            case Value(Scanned(None, t)) => t == [] && forall i :: 0 <= i < |ordered| ==> Silent(ordered[i], ctx)
            case Value(Scanned(Some(d), t)) =>
              exists i :: 0 <= i < |ordered| && t == [ordered[i]] && d == ordered[i].decision
                          && Matched(ordered[i].expression, ctx) == Value(true) && forall j :: 0 <= j < i ==> Silent(ordered[j], ctx)
            case _ =>
              exists i :: 0 <= i < |ordered| && Matched(ordered[i].expression, ctx) == TypeFault && forall j :: 0 <= j < i ==> Silent(ordered[j], ctx)
  {
    if ordered != [] && Silent(ordered[0], ctx) {
      ScanFirstMatch(ordered[1..], ctx);
      match Scan(ordered[1..], ctx) {
        case Value(Scanned(None, t)) =>
          forall i | 0 <= i < |ordered| ensures Silent(ordered[i], ctx) {
            assert i == 0 || ordered[i] == ordered[1..][i - 1];
          }
        case Value(Scanned(Some(d), t)) =>
          var i :| 0 <= i < |ordered[1..]| && t == [ordered[1..][i]] && d == ordered[1..][i].decision
                   && Matched(ordered[1..][i].expression, ctx) == Value(true) && forall j :: 0 <= j < i ==> Silent(ordered[1..][j], ctx);
          forall j | 0 <= j < i + 1 ensures Silent(ordered[j], ctx) {
            assert j == 0 || ordered[j] == ordered[1..][j - 1];
          }
          assert ordered[i + 1] == ordered[1..][i];
        case _ =>
          var i :| 0 <= i < |ordered[1..]| && Matched(ordered[1..][i].expression, ctx) == TypeFault && forall j :: 0 <= j < i ==> Silent(ordered[1..][j], ctx);
          forall j | 0 <= j < i + 1 ensures Silent(ordered[j], ctx) {
            assert j == 0 || ordered[j] == ordered[1..][j - 1];
          }
          assert ordered[i + 1] == ordered[1..][i];
      }
    }
  }

  /** A scan that passes over a silent prefix. */
  lemma {:induction false} ScanSkips(ordered: seq<Condition>, ctx: Context, i: nat)
    requires i <= |ordered| && forall j :: 0 <= j < i ==> Silent(ordered[j], ctx)
    ensures Scan(ordered, ctx) == Scan(ordered[i..], ctx)
  {
    if i > 0 {
      assert ordered[1..][i - 1..] == ordered[i..];
      forall j | 0 <= j < i - 1 ensures Silent(ordered[1..][j], ctx) {
        assert ordered[1..][j] == ordered[j + 1];
      }
      ScanSkips(ordered[1..], ctx, i - 1);
    } else {
      assert ordered[0..] == ordered;
    }
  }

  /** A scan whose first `k` conditions are silent goes by condition `k`. */
  lemma ScanStopsAt(cs: seq<Condition>, ctx: Context, k: nat)
    requires k < |cs| && cs[k].terminal && forall j :: 0 <= j < k ==> Silent(cs[j], ctx)
    ensures Matched(cs[k].expression, ctx) == Value(true) ==> Scan(cs, ctx) == Decided(cs[k])
    ensures Matched(cs[k].expression, ctx) == TypeFault ==> Scan(cs, ctx) == TypeFault
  {
    ScanSkips(cs, ctx, k);
    assert cs[k..][0] == cs[k];
  }

  /** Where `c` first occurs. */
  function FirstIndex(s: seq<Condition>, c: Condition): (i: nat)
    requires c in s
    ensures i < |s| && s[i] == c
    ensures forall j :: 0 <= j < i ==> s[j] != c
  {
    if s[0] == c then 0 else 1 + FirstIndex(s[1..], c)
  }

  lemma DecidingIsScanned(s: seq<Condition>, ctx: Context, c: Condition)
    requires Ordered(KeyLe, s) && AllTerminal(s) && Decides(c, s, ctx)
    ensures Scan(s, ctx) == Decided(c)
  {
    var i := FirstIndex(s, c);
    forall j | 0 <= j < i ensures Silent(s[j], ctx) {
      assert KeyLe(s[j], s[i]) && s[j] in s;
    }
    ScanStopsAt(s, ctx, i);
  }

  /** In a sorted list without ties, what comes before a place in key order comes before it in the list. */
  lemma BeforeIsSilent(s: seq<Condition>, ctx: Context, i: nat)
    requires Ordered(KeyLe, s) && TiesOnlyEqual(KeyLe, s)
    requires i < |s| && forall j :: 0 <= j < i ==> Silent(s[j], ctx)
    ensures forall d :: d in s && d != s[i] && KeyLe(d, s[i]) ==> Silent(d, ctx)
  {
    hide KeyLe, Silent;
    assert forall k :: i < k < |s| ==> KeyLe(s[i], s[k]);
    forall d | d in s && d != s[i] && KeyLe(d, s[i]) ensures Silent(d, ctx) {
      var j :| 0 <= j < |s| && s[j] == d;
    }
  }

  lemma ScannedIsDeciding(s: seq<Condition>, ctx: Context, c: Condition)
    requires Ordered(KeyLe, s) && AllTerminal(s) && TiesOnlyEqual(KeyLe, s)
    requires Scan(s, ctx) == Decided(c)
    ensures Decides(c, s, ctx)
  {
    hide Scan, KeyLe, Silent;
    ScanFirstMatch(s, ctx);
    var i :| 0 <= i < |s| && [c] == [s[i]] && Matched(s[i].expression, ctx) == Value(true) && forall j :: 0 <= j < i ==> Silent(s[j], ctx);
    assert c == s[i];
    BeforeIsSilent(s, ctx, i);
  }

  /**
   First match, for any list of terminal conditions with distinct keys, in whatever order it is
   given: a condition is the one that decides exactly when it matches and every condition before it
   in the key order is false.
   */
  lemma {:induction false} FirstMatchDecides(cs: seq<Condition>, ctx: Context, c: Condition)
    requires AllTerminal(cs) && DistinctKeys(cs)
    ensures Scan(Sort(KeyLe, cs), ctx) == Decided(c) <==> Decides(c, cs, ctx)
  {
    var s := Sort(KeyLe, cs);
    SortedConditions(cs);
    if Decides(c, cs, ctx) {
      DecidingIsScanned(s, ctx, c);
    }
    if Scan(s, ctx) == Decided(c) {
      ScannedIsDeciding(s, ctx, c);
    }
  }

  /** The sorted conditions are the given ones, in key order. */
  lemma SortedConditions(cs: seq<Condition>)
    requires AllTerminal(cs) && DistinctKeys(cs)
    ensures var s := Sort(KeyLe, cs);
            Ordered(KeyLe, s) && AllTerminal(s) && TiesOnlyEqual(KeyLe, s) && forall c :: c in s <==> c in cs
  {
    KeyOrder();
    SortOrdered(KeyLe, cs);
    SameElements(Sort(KeyLe, cs), cs);
    DistinctKeysTie(cs);
    TiesCarryOver(KeyLe, cs, Sort(KeyLe, cs));
    SortedTerminal(cs);
  }

  /** A scan of the sorted conditions raises at `c`: it is undefined, and every condition before it is false. */
  ghost predicate RaisesAt(c: Condition, cs: seq<Condition>, ctx: Context) {
    && c in cs
    && Matched(c.expression, ctx) == TypeFault
    && forall d :: d in cs && d != c && KeyLe(d, c) ==> Silent(d, ctx)
  }

  lemma RaisingIsScanned(s: seq<Condition>, ctx: Context, c: Condition)
    requires Ordered(KeyLe, s) && AllTerminal(s) && RaisesAt(c, s, ctx)
    ensures Scan(s, ctx) == TypeFault
  {
    var i := FirstIndex(s, c);
    forall j | 0 <= j < i ensures Silent(s[j], ctx) {
      assert KeyLe(s[j], s[i]) && s[j] in s;
    }
    ScanStopsAt(s, ctx, i);
  }

  lemma ScannedIsRaising(s: seq<Condition>, ctx: Context)
    requires Ordered(KeyLe, s) && AllTerminal(s) && TiesOnlyEqual(KeyLe, s)
    requires Scan(s, ctx) == TypeFault
    ensures exists c :: RaisesAt(c, s, ctx)
  {
    hide Scan, KeyLe, Silent;
    ScanFirstMatch(s, ctx);
    var i :| 0 <= i < |s| && Matched(s[i].expression, ctx) == TypeFault && forall j :: 0 <= j < i ==> Silent(s[j], ctx);
    BeforeIsSilent(s, ctx, i);
    assert RaisesAt(s[i], s, ctx);
  }

  /** `TypeError` escapes exactly when some condition is undefined while every condition before it in key order is false. */
  lemma {:induction false} RaisesIff(cs: seq<Condition>, ctx: Context)
    requires AllTerminal(cs) && DistinctKeys(cs)
    ensures Scan(Sort(KeyLe, cs), ctx) == TypeFault <==> exists c :: RaisesAt(c, cs, ctx)
  {
    var s := Sort(KeyLe, cs);
    SortedConditions(cs);
    if c :| RaisesAt(c, cs, ctx) {
      RaisingIsScanned(s, ctx, c);
    }
    if Scan(s, ctx) == TypeFault {
      ScannedIsRaising(s, ctx);
      var c :| RaisesAt(c, s, ctx);
      assert RaisesAt(c, cs, ctx);
    }
  }

  /** Nothing is selected exactly when every condition is false. */
  lemma {:induction false} NothingMatchesIff(cs: seq<Condition>, ctx: Context)
    requires AllTerminal(cs) && DistinctKeys(cs)
    ensures Scan(Sort(KeyLe, cs), ctx) == Value(Scanned(None, [])) <==> forall c :: c in cs ==> Silent(c, ctx)
  {
    var s := Sort(KeyLe, cs);
    SortedConditions(cs);
    ScanFirstMatch(s, ctx);
    if forall c :: c in cs ==> Silent(c, ctx) {
      assert forall i :: 0 <= i < |s| ==> s[i] in s;
      ScanSkips(s, ctx, |s|);
    }
  }

  lemma SortedTerminal(cs: seq<Condition>)
    requires AllTerminal(cs)
    ensures AllTerminal(Sort(KeyLe, cs))
  {
    SameElements(Sort(KeyLe, cs), cs);
    forall i | 0 <= i < |Sort(KeyLe, cs)| ensures Sort(KeyLe, cs)[i].terminal {
      assert Sort(KeyLe, cs)[i] in cs;
    }
  }

  /** The order conditions are listed in does not matter, terminal or not. */
  lemma ListingOrderIrrelevant(cs: seq<Condition>, ds: seq<Condition>, ctx: Context)
    requires multiset(cs) == multiset(ds) && DistinctKeys(cs)
    ensures Scan(Sort(KeyLe, cs), ctx) == Scan(Sort(KeyLe, ds), ctx)
  {
    KeyOrder();
    DistinctKeysTie(cs);
    SortOfPermutation(KeyLe, cs, ds);
  }

  // ---------------------------------------------------------------- conditions that do not end the scan

  function Triggers(ctx: Context): Condition -> bool {
    (c: Condition) => Matched(c.expression, ctx) == Value(true)
  }

  /** The condition at `k` ends the scan. */
  predicate Ends(c: Condition, ctx: Context) {
    c.terminal && Matched(c.expression, ctx) == Value(true)
  }

  /** The conditions a scan of `s` looks at: up to and including the one at `k`, or all of them. */
  function LookedAt(s: seq<Condition>, k: nat): seq<Condition>
    requires k <= |s|
  {
    if k < |s| then s[..k + 1] else s
  }

  /** The given conditions were true, and the last of them decides. */
  function LastDecides(found: seq<Condition>): Outcome<Scanned> {
    Value(Scanned(if found == [] then None else Some(found[|found| - 1].decision), found))
  }

  lemma ScanGoesOn(s: seq<Condition>, ctx: Context, found: seq<Condition>)
    requires s != [] && Matched(s[0].expression, ctx).Value? && !Ends(s[0], ctx)
    requires Scan(s[1..], ctx) == LastDecides(found)
    ensures Scan(s, ctx) == LastDecides(if Triggers(ctx)(s[0]) then [s[0]] + found else found)
  {
    hide Matched;
  }

  lemma LookedAtCons(s: seq<Condition>, k: nat)
    requires 0 < k <= |s|
    ensures LookedAt(s, k) == [s[0]] + LookedAt(s[1..], k - 1)
  {
  }

  lemma ScanEndsAtOnce(s: seq<Condition>, ctx: Context)
    requires s == [] || Ends(s[0], ctx)
    ensures Scan(s, ctx) == LastDecides(Filter(Triggers(ctx), LookedAt(s, 0)))
  {
    hide Matched;
    if s != [] {
      assert LookedAt(s, 0) == [s[0]];
      assert [s[0]] + [] == [s[0]];
      FilterCons(Triggers(ctx), s[0], []);
    }
  }

  /**
   Terminal or not: where no error escapes, the scan looks at the conditions up to the first terminal
   one that is true, reports all the true ones among them in order, and the last of those decides.
   */
  lemma {:induction false} ScanMeaning(s: seq<Condition>, ctx: Context, k: nat)
    requires k <= |s| && (k < |s| ==> Ends(s[k], ctx))
    requires forall i :: 0 <= i < k ==> Matched(s[i].expression, ctx).Value? && !Ends(s[i], ctx)
    ensures Scan(s, ctx) == LastDecides(Filter(Triggers(ctx), LookedAt(s, k)))
  {
    if k == 0 {
      ScanEndsAtOnce(s, ctx);
    } else {
      LookedAtCons(s, k);
      hide Matched, Scan, Filter, LastDecides, Ends, LookedAt, Triggers;
      var rest := LookedAt(s[1..], k - 1);
      ScanMeaning(s[1..], ctx, k - 1);
      ScanGoesOn(s, ctx, Filter(Triggers(ctx), rest));
      FilterCons(Triggers(ctx), s[0], rest);
    }
  }

  /** A scan goes by its first condition and by what a scan of the rest finds. */
  lemma ScanCons(c: Condition, a: seq<Condition>, b: seq<Condition>, ctx: Context)
    requires Scan(a, ctx) == Scan(b, ctx)
    ensures Scan([c] + a, ctx) == Scan([c] + b, ctx)
    ensures Silent(c, ctx) ==> Scan([c] + a, ctx) == Scan(b, ctx)
  {
    assert ([c] + a)[1..] == a && ([c] + b)[1..] == b;
    hide Matched;
  }

  lemma {:induction false} SilentInserted(c: Condition, s: seq<Condition>, ctx: Context)
    requires Silent(c, ctx)
    ensures Scan(Insert(KeyLe, c, s), ctx) == Scan(s, ctx)
  {
    hide Scan, Silent, KeyLe;
    if s != [] && !KeyLe(c, s[0]) {
      SilentInserted(c, s[1..], ctx);
      ScanCons(s[0], Insert(KeyLe, c, s[1..]), s[1..], ctx);
      assert [s[0]] + s[1..] == s;
    } else {
      assert [c] + s == Insert(KeyLe, c, s);
      ScanCons(c, s, s, ctx);
    }
  }

  /** A condition whose expression is false, or cannot be evaluated for its form, has no effect wherever it is listed. */
  lemma MalformedIsIgnored(c: Condition, cs: seq<Condition>, ds: seq<Condition>, ctx: Context)
    requires Eval(c.expression, ctx).SyntaxFault? || Eval(c.expression, ctx) == Value(Boolean(false))
    requires multiset(ds) == multiset([c] + cs) && DistinctKeys([c] + cs)
    ensures Scan(Sort(KeyLe, ds), ctx) == Scan(Sort(KeyLe, cs), ctx)
  {
    hide Scan, KeyLe;
    ListingOrderIrrelevant([c] + cs, ds, ctx);
    assert ([c] + cs)[1..] == cs;
    SilentInserted(c, Sort(KeyLe, cs), ctx);
  }

  // ---------------------------------------------------------------- the business outcome

  datatype Assessment = SATISFIED | NOT_SATISFIED | NOT_EVALUABLE | MANUAL_REVIEW_REQUIRED

  datatype Resolution = Resolution(decision: Decision, reason: string)

  /** `_resolve_outcome`; `authorityUnavailable` says that the authority check was required and its state is unknown. */
  function Resolve(noPolicy: bool, condition: Option<Decision>, assessment: Assessment, authorityUnavailable: bool): Resolution {
    if noPolicy then Resolution(DENIED, "NO_APPLICABLE_POLICY")
    else if condition == Some(DENIED) then Resolution(DENIED, "POLICY_PROHIBITION")
    else if assessment == MANUAL_REVIEW_REQUIRED then Resolution(ESCALATED, "ASSESSMENT_MANUAL_REVIEW_REQUIRED")
    else if assessment == NOT_EVALUABLE then Resolution(ESCALATED, "ASSESSMENT_NOT_EVALUABLE")
    else if assessment == NOT_SATISFIED then
      if condition == Some(ESCALATED) then Resolution(ESCALATED, "CONTROL_REMEDIATION_REQUIRED")
      else Resolution(DENIED, "MANDATORY_CONTROL_FAILED")
    else if condition == Some(APPROVED) then
      if authorityUnavailable then Resolution(ESCALATED, "AUTHORITY_CONTEXT_UNAVAILABLE")
      else Resolution(APPROVED, "APPROVED_BY_POLICY")
    else if condition == Some(ESCALATED) then Resolution(ESCALATED, "ESCALATED_BY_POLICY")
    else Resolution(DENIED, "NO_DECISION_CONDITION_MATCHED")
  }

  /** Approval needs an applicable policy, an approving condition, a satisfied assessment and a known authority state: all four, and nothing else. */
  lemma ApprovedIff(noPolicy: bool, condition: Option<Decision>, assessment: Assessment, authorityUnavailable: bool)
    ensures Resolve(noPolicy, condition, assessment, authorityUnavailable).decision == APPROVED <==>
            !noPolicy && condition == Some(APPROVED) && assessment == SATISFIED && !authorityUnavailable
  {
  }

  /**
   DENIED is the answer in exactly these cases: no policy applies, a condition denies, a mandatory
   control failed without an escalating condition, or everything is satisfied but no condition matched.
   */
  lemma DeniedIff(noPolicy: bool, condition: Option<Decision>, assessment: Assessment, authorityUnavailable: bool)
    ensures Resolve(noPolicy, condition, assessment, authorityUnavailable).decision == DENIED <==>
            || noPolicy
            || condition == Some(DENIED)
            || (assessment == NOT_SATISFIED && condition != Some(ESCALATED))
            || (assessment == SATISFIED && condition == None)
  {
    if condition.Some? {
      match condition.value
      case APPROVED =>
      case DENIED =>
      case ESCALATED =>
    }
  }

  /**
   ESCALATED is the answer in exactly these: a policy applies, no condition denies, and the assessment
   needs a human or could not be made, or a condition escalates, or approval lacks a known authority.
   */
  lemma EscalatedIff(noPolicy: bool, condition: Option<Decision>, assessment: Assessment, authorityUnavailable: bool)
    ensures Resolve(noPolicy, condition, assessment, authorityUnavailable).decision == ESCALATED <==>
            && !noPolicy && condition != Some(DENIED)
            && (|| assessment == MANUAL_REVIEW_REQUIRED || assessment == NOT_EVALUABLE
                || condition == Some(ESCALATED)
                || (condition == Some(APPROVED) && assessment == SATISFIED && authorityUnavailable))
  {
    if condition.Some? {
      match condition.value
      case APPROVED =>
      case DENIED =>
      case ESCALATED =>
    }
  }

  /** The reason of an answer that no policy and no denying condition settles at once. */
  lemma ReasonOfAssessment(condition: Option<Decision>, assessment: Assessment, authorityUnavailable: bool)
    requires condition != Some(DENIED)
    ensures Resolve(false, condition, assessment, authorityUnavailable).reason ==
            match (assessment, condition)
            case (MANUAL_REVIEW_REQUIRED, _) => "ASSESSMENT_MANUAL_REVIEW_REQUIRED"
            case (NOT_EVALUABLE, _) => "ASSESSMENT_NOT_EVALUABLE"
            case (NOT_SATISFIED, Some(ESCALATED)) => "CONTROL_REMEDIATION_REQUIRED"
            case (NOT_SATISFIED, _) => "MANDATORY_CONTROL_FAILED"
            case (SATISFIED, Some(ESCALATED)) => "ESCALATED_BY_POLICY"
            case (SATISFIED, Some(_)) => if authorityUnavailable then "AUTHORITY_CONTEXT_UNAVAILABLE" else "APPROVED_BY_POLICY"
            case (SATISFIED, None) => "NO_DECISION_CONDITION_MATCHED"
  {
    if condition.Some? {
      match condition.value
      case APPROVED =>
      case DENIED =>
      case ESCALATED =>
    }
  }

  /** A denying condition denies whatever the assessment and the authority state. */
  lemma DenialWins(noPolicy: bool, assessment: Assessment, authorityUnavailable: bool)
    ensures Resolve(noPolicy, Some(DENIED), assessment, authorityUnavailable).decision == DENIED
  {
  }

  /**
   A less severe condition outcome gives a no more severe decision, except in one case: under a
   NOT_SATISFIED assessment an approving condition is denied while an escalating one escalates.
   */
  lemma ResolveMonotoneIff(noPolicy: bool, milder: Decision, harsher: Decision, assessment: Assessment, authorityUnavailable: bool)
    requires Severity(milder) <= Severity(harsher)
    ensures Severity(Resolve(noPolicy, Some(milder), assessment, authorityUnavailable).decision)
         <= Severity(Resolve(noPolicy, Some(harsher), assessment, authorityUnavailable).decision)
       <==> !(!noPolicy && assessment == NOT_SATISFIED && milder == APPROVED && harsher == ESCALATED)
  {
  }
}
