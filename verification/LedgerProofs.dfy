/** What the proof of an evaluation says about the policy that was applied. */
module LedgerProofs {
  import opened Wrappers
  import opened Json
  import opened JsonText
  import opened RuleEngine
  import opened Ledger
  import opened ProofHash
  import JsonRoundTrip
  import JsonCanonical
  import LedgerAudit

  lemma {:induction false} DictOfDistinct(entries: seq<Member>)
    requires DistinctKeys(entries)
    ensures DictOf(entries) == entries
  {
    if entries != [] {
      var front, last := entries[..|entries| - 1], entries[|entries| - 1];
      DictOfDistinct(front);
      JsonRoundTrip.FreshKeyGoesLast(front, last);
    }
  }

  /** The policy keys differ in length or first letter. */
  function KeyShape(key: string): (nat, char)
    requires key != ""
  {
    (|key|, key[0])
  }

  function KeyShapes(): seq<(nat, char)> {
    [(2, 'i'), (8, 'a'), (4, 'n'), (15, 'b'), (14, 'b'), (21, 'b'), (15, 'a'), (14, 'a'), (21, 'a'),
     (12, 'p'), (12, 'd'), (24, 'm'), (35, 'r'), (32, 'r'), (20, 'e')]
  }

  lemma PolicyKeyShapes(prim: Primitives, p: Policy)
    ensures |PolicyDict(prim, p)| == |KeyShapes()| == 15
    ensures forall i :: 0 <= i < 15 ==> PolicyDict(prim, p)[i].key != "" && KeyShape(PolicyDict(prim, p)[i].key) == KeyShapes()[i]
  {
  }

  lemma KeyShapesDiffer()
    ensures |KeyShapes()| == 15
    ensures forall i, j :: 0 <= i < j < 15 ==> KeyShapes()[i] != KeyShapes()[j]
  {
  }

  lemma PolicyKeysApart(prim: Primitives, p: Policy, q: Policy, i: nat, j: nat)
    requires i < 15 && j < 15 && i != j
    ensures |PolicyDict(prim, p)| == |PolicyDict(prim, q)| == 15
    ensures PolicyDict(prim, p)[i].key != PolicyDict(prim, q)[j].key
  {
    PolicyKeyShapes(prim, p);
    PolicyKeyShapes(prim, q);
    KeyShapesDiffer();
    hide PolicyDict, KeyShapes;
  }

  lemma ContextWritten(prim: Primitives, p: Policy)
    ensures EvaluationContext(prim, Some(p)) == Arr([Obj(PolicyDict(prim, p))])
  {
    hide PolicyDict;
    forall i, j | 0 <= i < j < |PolicyDict(prim, p)| ensures PolicyDict(prim, p)[i].key != PolicyDict(prim, p)[j].key {
      PolicyKeyShapes(prim, p);
      PolicyKeysApart(prim, p, p, i, j);
    }
    DictOfDistinct(PolicyDict(prim, p));
  }

  ghost predicate SameNumber(prim: Primitives, x: Option<real>, y: Option<real>) {
    x.Some? == y.Some? && (x.Some? ==> prim.repr(x.value) == prim.repr(y.value))
  }

  /** The two policies are the same in everything a verdict can depend on, amounts as they are written. */
  ghost predicate SameTerms(prim: Primitives, p: Policy, q: Policy) {
    && p.id == q.id && p.agentId == q.agentId && p.name == q.name
    && p.blockedVendors == q.blockedVendors && p.blockedChains == q.blockedChains && p.blockedAssets == q.blockedAssets
    && p.allowedVendors == q.allowedVendors && p.allowedChains == q.allowedChains && p.allowedAssets == q.allowedAssets
    && SameNumber(prim, p.perTxLimit, q.perTxLimit) && SameNumber(prim, p.dailyBudget, q.dailyBudget)
    && p.maxTransactionsPerDay == q.maxTransactionsPerDay
    && SameNumber(prim, p.identityCheckAbove, q.identityCheckAbove)
    && p.requireApproval == q.requireApproval
    && SameNumber(prim, p.escalationThreshold, q.escalationThreshold)
  }

  /** Contexts that are equal as values hold equal entries, in the order they were written. */
  lemma SameEntry(prim: Primitives, p: Policy, q: Policy, i: nat)
    requires i < 15 && |PolicyDict(prim, p)| == |PolicyDict(prim, q)| == 15
    requires Same(Obj(PolicyDict(prim, p)), Obj(PolicyDict(prim, q)))
    ensures PolicyDict(prim, p)[i].value == PolicyDict(prim, q)[i].value
  {
    var ms, ns := PolicyDict(prim, p), PolicyDict(prim, q);
    ScalarEntries(prim, p);
    hide PolicyDict;
    assert FoundIn(ms[i], ns);
    var j :| 0 <= j < 15 && ms[i].key == ns[j].key && Same(ms[i].value, ns[j].value);
    if j != i {
      PolicyKeysApart(prim, p, q, i, j);
    }
  }

  lemma SameKey(prim: Primitives, p: Policy, q: Policy, i: nat)
    requires i < |PolicyDict(prim, p)|
    ensures |PolicyDict(prim, p)| == |PolicyDict(prim, q)| && PolicyDict(prim, p)[i].key == PolicyDict(prim, q)[i].key
  {
  }

  lemma ScalarEntries(prim: Primitives, p: Policy)
    ensures forall i :: 0 <= i < |PolicyDict(prim, p)| ==> !PolicyDict(prim, p)[i].value.Arr? && !PolicyDict(prim, p)[i].value.Obj?
  {
  }

  lemma EntriesGiveTerms(prim: Primitives, p: Policy, q: Policy)
    ensures PolicyDict(prim, p) == PolicyDict(prim, q) <==> SameTerms(prim, p, q)
  {
    var ms, ns := PolicyDict(prim, p), PolicyDict(prim, q);
    if ms == ns {
      assert ms[0].value == ns[0].value && ms[1].value == ns[1].value && ms[2].value == ns[2].value && ms[3].value == ns[3].value;
      assert ms[4].value == ns[4].value && ms[5].value == ns[5].value && ms[6].value == ns[6].value && ms[7].value == ns[7].value;
      assert ms[8].value == ns[8].value && ms[9].value == ns[9].value && ms[10].value == ns[10].value && ms[11].value == ns[11].value;
      assert ms[12].value == ns[12].value && ms[13].value == ns[13].value && ms[14].value == ns[14].value;
    }
  }

  lemma ContextValid(prim: Primitives, policy: Option<Policy>)
    requires ValidPrimitives(prim)
    ensures Valid(EvaluationContext(prim, policy))
  {
    if policy.Some? {
      LedgerAudit.PolicyDictValid(prim, policy.value);
      LedgerAudit.DictOfValid(PolicyDict(prim, policy.value));
    }
  }

  ghost predicate SamePolicy(prim: Primitives, p: Option<Policy>, q: Option<Policy>) {
    p.Some? == q.Some? && (p.Some? ==> SameTerms(prim, p.value, q.value))
  }

  lemma SameContextSamePolicy(prim: Primitives, p: Option<Policy>, q: Option<Policy>)
    requires Same(EvaluationContext(prim, p), EvaluationContext(prim, q))
    ensures SamePolicy(prim, p, q)
  {
    if p.Some? && q.Some? {
      ContextWritten(prim, p.value);
      ContextWritten(prim, q.value);
      PolicyKeyShapes(prim, p.value);
      PolicyKeyShapes(prim, q.value);
      var ms, ns := PolicyDict(prim, p.value), PolicyDict(prim, q.value);
      assert Arr([Obj(ms)]).items[0] == Obj(ms) && Arr([Obj(ns)]).items[0] == Obj(ns);
      hide PolicyDict, KeyShapes, SameTerms;
      forall i | 0 <= i < 15 ensures ms[i] == ns[i] {
        SameEntry(prim, p.value, q.value, i);
        SameKey(prim, p.value, q.value, i);
      }
      EntriesGiveTerms(prim, p.value, q.value);
    }
  }

  /** The stored context tells the policy: two evaluations store the same text exactly when they applied the same terms, or none. */
  lemma ContextTellsPolicy(prim: Primitives, p: Option<Policy>, q: Option<Policy>)
    requires ValidPrimitives(prim)
    ensures Dumps(EvaluationContext(prim, p)) == Dumps(EvaluationContext(prim, q)) <==> SamePolicy(prim, p, q)
  {
    hide PolicyDict, Dumps;
    ContextValid(prim, p);
    ContextValid(prim, q);
    JsonCanonical.DumpsInjective(EvaluationContext(prim, p), EvaluationContext(prim, q));
    if Same(EvaluationContext(prim, p), EvaluationContext(prim, q)) {
      SameContextSamePolicy(prim, p, q);
    }
    if SamePolicy(prim, p, q) && p.Some? {
      EntriesGiveTerms(prim, p.value, q.value);
    }
  }

  /**
   What the hash of an evaluation's proof binds: the transaction, the decision, the reason, the time
   and every term of the policy that was applied, or else a collision of `sha`.
   */
  lemma HashTellsEvaluation(prim: Primitives, p: Option<Policy>, t: Transaction, v: Verdict, now: int,
                            q: Option<Policy>, u: Transaction, w: Verdict, later: int)
    requires ValidPrimitives(prim)
    requires ComputeBundleHash(prim.sha, BundleFor(prim, p, t, v, now)) == ComputeBundleHash(prim.sha, BundleFor(prim, q, u, w, later))
    ensures var a, b := BundleFor(prim, p, t, v, now), BundleFor(prim, q, u, w, later);
            || Collision(prim.sha, Dumps(Payload(a)), Dumps(Payload(b)))
            || (t.id == u.id && v.decision == w.decision && v.reason == w.reason && prim.iso(now) == prim.iso(later) && SamePolicy(prim, p, q))
  {
    var a, b := BundleFor(prim, p, t, v, now), BundleFor(prim, q, u, w, later);
    LedgerAudit.BundleForValid(prim, p, t, v, now);
    LedgerAudit.BundleForValid(prim, q, u, w, later);
    BundleHashBinds(prim.sha, a, b);
    if SameFields(a, b) {
      SameContextSamePolicy(prim, p, q);
      NamesTell(v, w);
    }
  }

  /** The length and first letter of a reason's text. */
  function ReasonShape(r: Reason): (nat, char) {
    match r
    case AGENT_INACTIVE => (14, 'A')
    case POLICY_NOT_FOUND => (16, 'P')
    case INVALID_AMOUNT => (14, 'I')
    case VENDOR_BLOCKED => (14, 'V')
    case CHAIN_BLOCKED => (13, 'C')
    case ASSET_BLOCKED => (13, 'A')
    case VENDOR_NOT_ALLOWED => (18, 'V')
    case CHAIN_NOT_ALLOWED => (17, 'C')
    case ASSET_NOT_ALLOWED => (17, 'A')
    case PER_TX_LIMIT_EXCEEDED => (21, 'P')
    case DAILY_BUDGET_EXCEEDED => (21, 'D')
    case MAX_TX_COUNT_EXCEEDED => (21, 'M')
    case IDENTITY_CHECK_REQUIRED => (23, 'I')
    case THRESHOLD_REQUIRES_APPROVAL => (27, 'T')
    case WITHIN_POLICY => (13, 'W')
  }

  lemma ReasonHasShape(r: Reason)
    ensures ReasonName(r) != "" && KeyShape(ReasonName(r)) == ReasonShape(r)
  {
  }

  lemma ReasonShapesDiffer(r: Reason, s: Reason)
    requires ReasonShape(r) == ReasonShape(s)
    ensures r == s
  {
  }

  /** The texts of decisions and reasons tell them apart. */
  lemma NamesTell(v: Verdict, w: Verdict)
    requires DecisionName(v.decision) == DecisionName(w.decision)
    requires Same(Arr([Str(ReasonName(v.reason))]), Arr([Str(ReasonName(w.reason))]))
    ensures v.decision == w.decision && v.reason == w.reason
  {
    assert Same(Arr([Str(ReasonName(v.reason))]).items[0], Arr([Str(ReasonName(w.reason))]).items[0]);
    ReasonHasShape(v.reason);
    ReasonHasShape(w.reason);
    hide ReasonName;
    if v.reason != w.reason {
      ReasonShapesDiffer(v.reason, w.reason);
    }
  }
}
