/**
 Proof bundles: the hash over the seven bound fields, the row that is stored, and its
 re-verification from the stored texts. SHA-256 is a parameter `sha`; nothing is assumed of it
 except where a lemma says so.
 */
module ProofHash {
  import opened Wrappers
  import opened Json
  import opened JsonText
  import opened PyText
  import opened Sorting
  import JsonCanonical
  import JsonGrammar
  import JsonValid

  /** The arguments of `compute_bundle_hash`. */
  datatype Bundle = Bundle(
    producer: string,
    entityId: string,
    ruleVersionUsed: string,
    decisionResult: string,
    evaluationContext: Value,
    reasonCodes: Value,
    timestamp: string)

  ghost predicate ValidBundle(b: Bundle) {
    Valid(b.evaluationContext) && Valid(b.reasonCodes)
  }

  /** The payload dictionary, keys in the order the source writes them. */
  function Payload(b: Bundle): Value {
    Obj([
        Member("module", Str(b.producer)),
        Member("entity_id", Str(b.entityId)),
        Member("rule_version_used", Str(b.ruleVersionUsed)),
        Member("decision_result", Str(b.decisionResult)),
        Member("evaluation_context", b.evaluationContext),
        Member("reason_codes", b.reasonCodes),
        Member("timestamp", Str(b.timestamp))
      ])
  }

  /** `hash_dict`. */
  function HashDict(sha: string -> string, payload: Value): string {
    sha(Dumps(payload))
  }

  function ComputeBundleHash(sha: string -> string, b: Bundle): string {
    HashDict(sha, Payload(b))
  }

  /** The columns of a `proof_bundles` row that take part in verification. */
  datatype StoredBundle = StoredBundle(
    producer: string,
    entityId: string,
    ruleVersionUsed: string,
    decisionResult: string,
    evaluationContext: string,
    reasonCodes: string,
    bundleHash: string)

  /** What `create_proof_bundle` writes. */
  function Store(sha: string -> string, b: Bundle): StoredBundle {
    StoredBundle(
      b.producer, b.entityId, b.ruleVersionUsed, b.decisionResult,
      Dumps(b.evaluationContext), Dumps(b.reasonCodes), ComputeBundleHash(sha, b))
  }

  /** The bundle a verifier reassembles from a row and the original ISO timestamp. */
  function Reassemble(row: StoredBundle, timestamp: string): Option<Bundle> {
    match (Loads(row.evaluationContext), Loads(row.reasonCodes))
    case (Some(c), Some(r)) =>
      Some(Bundle(row.producer, row.entityId, row.ruleVersionUsed, row.decisionResult, c, r, timestamp))
    case _ => None
  }

  /** Parsing the stored texts and hashing again gives the stored hash. */
  predicate Verifies(sha: string -> string, row: StoredBundle, timestamp: string) {
    var b := Reassemble(row, timestamp);
    b.Some? && ComputeBundleHash(sha, b.value) == row.bundleHash
  }

  /** All seven bound fields agree, the two JSON ones as values. */
  ghost predicate SameFields(a: Bundle, b: Bundle) {
    && a.producer == b.producer
    && a.entityId == b.entityId
    && a.ruleVersionUsed == b.ruleVersionUsed
    && a.decisionResult == b.decisionResult
    && Same(a.evaluationContext, b.evaluationContext)
    && Same(a.reasonCodes, b.reasonCodes)
    && a.timestamp == b.timestamp
  }

  ghost predicate Collision(sha: string -> string, s: string, t: string) {
    s != t && sha(s) == sha(t)
  }

  lemma PayloadValid(b: Bundle)
    requires ValidBundle(b)
    ensures Valid(Payload(b))
  {
  }

  /** A key of the payload is found in another payload at the same position only. */
  lemma PayloadPartner(a: Bundle, b: Bundle, i: nat)
    requires i < 7
    requires FoundIn(Payload(a).members[i], Payload(b).members)
    ensures Same(Payload(a).members[i].value, Payload(b).members[i].value)
  {
  }

  lemma PayloadSameAt(a: Bundle, b: Bundle, i: nat)
    requires i < 7 && Same(Payload(a), Payload(b))
    ensures Same(Payload(a).members[i].value, Payload(b).members[i].value)
  {
    assert FoundIn(Payload(a).members[i], Payload(b).members);
    PayloadPartner(a, b, i);
  }

  lemma FieldsFromValues(a: Bundle, b: Bundle)
    requires Same(Str(a.producer), Str(b.producer))
    requires Same(Str(a.entityId), Str(b.entityId))
    requires Same(Str(a.ruleVersionUsed), Str(b.ruleVersionUsed))
    requires Same(Str(a.decisionResult), Str(b.decisionResult))
    requires Same(a.evaluationContext, b.evaluationContext)
    requires Same(a.reasonCodes, b.reasonCodes)
    requires Same(Str(a.timestamp), Str(b.timestamp))
    ensures SameFields(a, b)
  {
  }

  lemma PayloadSameForcesFields(a: Bundle, b: Bundle)
    requires forall i :: 0 <= i < 7 ==> Same(Payload(a).members[i].value, Payload(b).members[i].value)
    ensures SameFields(a, b)
  {
    var ms, ns := Payload(a).members, Payload(b).members;
    assert Same(ms[0].value, ns[0].value) && Same(ms[1].value, ns[1].value) && Same(ms[2].value, ns[2].value);
    assert Same(ms[3].value, ns[3].value) && Same(ms[4].value, ns[4].value) && Same(ms[5].value, ns[5].value);
    assert Same(ms[6].value, ns[6].value);
    FieldsFromValues(a, b);
  }

  lemma FieldsForcePayloadSame(a: Bundle, b: Bundle)
    requires SameFields(a, b)
    ensures Same(Payload(a), Payload(b))
  {
    var ms, ns := Payload(a).members, Payload(b).members;
    forall i | 0 <= i < 7 ensures FoundIn(ms[i], ns) && Finds(ms, ns[i]) {
      assert ms[i].key == ns[i].key && Same(ms[i].value, ns[i].value);
    }
  }

  /**
   Two bundles with the same hash bind the same seven fields, or else they are a collision of
   `sha`. Equal fields always give equal hashes, whatever order a context lists its keys in.
   */
  lemma BundleHashBinds(sha: string -> string, a: Bundle, b: Bundle)
    requires ValidBundle(a) && ValidBundle(b)
    ensures SameFields(a, b) ==> ComputeBundleHash(sha, a) == ComputeBundleHash(sha, b)
    ensures ComputeBundleHash(sha, a) == ComputeBundleHash(sha, b) ==>
              SameFields(a, b) || Collision(sha, Dumps(Payload(a)), Dumps(Payload(b)))
  {
    PayloadValid(a);
    PayloadValid(b);
    JsonCanonical.DumpsInjective(Payload(a), Payload(b));
    if SameFields(a, b) {
      FieldsForcePayloadSame(a, b);
    }
    if Same(Payload(a), Payload(b)) {
      forall i | 0 <= i < 7 ensures Same(Payload(a).members[i].value, Payload(b).members[i].value) {
        PayloadSameAt(a, b, i);
      }
      PayloadSameForcesFields(a, b);
    }
  }

  /** A stored proof re-verifies. */
  lemma StoredProofVerifies(sha: string -> string, b: Bundle)
    requires ValidBundle(b)
    ensures Verifies(sha, Store(sha, b), b.timestamp)
  {
    JsonCanonical.StoredTextReadsBack(b.evaluationContext);
    JsonCanonical.StoredTextReadsBack(b.reasonCodes);
    var r := Reassemble(Store(sha, b), b.timestamp).value;
    BundleHashBinds(sha, r, b);
  }

  /**
   A row that keeps its hash but verifies with other contents exhibits a collision: the bound
   fields of a verifying row are those of the bundle that was hashed.
   */
  lemma {:induction false} TamperingShows(sha: string -> string, b: Bundle, row: StoredBundle, timestamp: string)
    requires ValidBundle(b)
    requires row.bundleHash == ComputeBundleHash(sha, b) && Verifies(sha, row, timestamp)
    ensures var r := Reassemble(row, timestamp).value;
            SameFields(r, b) || Collision(sha, Dumps(Payload(r)), Dumps(Payload(b)))
  {
    JsonValid.LoadsValid(row.evaluationContext);
    JsonValid.LoadsValid(row.reasonCodes);
    BundleHashBinds(sha, Reassemble(row, timestamp).value, b);
  }

  // ---------------------------------------------------------------- the text that is hashed

  /** The same payload, its keys in code-point order. */
  function SortedMembers(b: Bundle): seq<Member> {
    [
      Member("decision_result", Str(b.decisionResult)),
      Member("entity_id", Str(b.entityId)),
      Member("evaluation_context", b.evaluationContext),
      Member("module", Str(b.producer)),
      Member("reason_codes", b.reasonCodes),
      Member("rule_version_used", Str(b.ruleVersionUsed)),
      Member("timestamp", Str(b.timestamp))
    ]
  }

  /** Where the sorted keys stand in the payload. */
  lemma SortedPlaces(b: Bundle)
    ensures Payload(b) == Obj(Payload(b).members) && |Payload(b).members| == |SortedMembers(b)| == 7
    ensures var s, p := SortedMembers(b), Payload(b).members;
            s[0] == p[3] && s[1] == p[1] && s[2] == p[4] && s[3] == p[0] && s[4] == p[5] && s[5] == p[2] && s[6] == p[6]
  {
  }

  /** The first two letters tell the keys' order. */
  lemma KeyStarts(b: Bundle)
    ensures var ms := SortedMembers(b);
            && |ms| == 7 && (forall i :: 0 <= i < 7 ==> |ms[i].key| >= 2)
            && ms[0].key[0] == 'd' && ms[1].key[..2] == "en" && ms[2].key[..2] == "ev" && ms[3].key[0] == 'm'
            && ms[4].key[..2] == "re" && ms[5].key[..2] == "ru" && ms[6].key[0] == 't'
  {
  }

  lemma PrecedesAtStart(x: string, y: string)
    requires |x| >= 2 && |y| >= 2 && (x[0] < y[0] || (x[0] == y[0] && x[1] < y[1]))
    ensures Precedes(x, y)
  {
    if x[0] < y[0] {
      assert DiffersAt(x, y, 0);
    } else {
      assert x[..1] == y[..1];
      assert DiffersAt(x, y, 1);
    }
  }

  lemma SortedAscend(b: Bundle)
    ensures JsonGrammar.KeysAscend(SortedMembers(b))
  {
    KeyStarts(b);
    var ms := SortedMembers(b);
    assert ms[1].key[..2][0] == 'e' && ms[2].key[..2][0] == 'e' && ms[4].key[..2][0] == 'r' && ms[5].key[..2][0] == 'r';
    assert ms[1].key[..2][1] == 'n' && ms[2].key[..2][1] == 'v' && ms[4].key[..2][1] == 'e' && ms[5].key[..2][1] == 'u';
    hide SortedMembers, Precedes;
    forall i, j | 0 <= i < j < 7 ensures Precedes(ms[i].key, ms[j].key) {
      PrecedesAtStart(ms[i].key, ms[j].key);
    }
  }

  lemma AscendingDistinct(ms: seq<Member>)
    requires JsonGrammar.KeysAscend(ms)
    ensures DistinctKeys(ms)
  {
  }

  lemma PayloadSorted(b: Bundle)
    ensures Dumps(Payload(b)) == Dumps(Obj(SortedMembers(b)))
  {
    SortedPlaces(b);
    SortedAscend(b);
    PayloadKeysDistinct(b);
    var s, p := SortedMembers(b), Payload(b).members;
    AscendingDistinct(s);
    hide Payload, SortedMembers, Dumps;
    JsonGrammar.DumpsOfSameMembers(s, p);
  }

  lemma PayloadKeysDistinct(b: Bundle)
    ensures DistinctKeys(Payload(b).members)
  {
  }

  /** `"key":text`, for a key that needs no escape. */
  function Pair(key: string, text: string): string {
    "\"" + key + "\":" + text
  }

  predicate PlainKey(key: string) {
    forall i :: 0 <= i < |key| ==> 'a' <= key[i] <= 'z' || key[i] == '_'
  }

  lemma {:induction false} PlainUnescaped(key: string)
    requires PlainKey(key)
    ensures Escape(key) == key
  {
    if key != [] {
      PlainUnescaped(key[1..]);
      assert EscapeChar(key[0]) == [key[0]];
      assert [key[0]] + key[1..] == key;
    }
  }

  lemma PairWritten(key: string, v: Value)
    requires PlainKey(key)
    ensures Dumps(Str(key)) + ":" + Dumps(v) == Pair(key, Dumps(v))
  {
    PlainUnescaped(key);
    assert Dumps(Str(key)) == "\"" + key + "\"";
    assert "\"" + key + "\"" + ":" == "\"" + key + "\":";
  }

  lemma PlainKeys(b: Bundle)
    ensures forall i :: 0 <= i < 7 ==> PlainKey(SortedMembers(b)[i].key)
  {
  }

  lemma MembersWritten(b: Bundle)
    ensures var ms := SortedMembers(b);
            JsonGrammar.DumpedMembers(ms) == seq(7, i requires 0 <= i < 7 => Pair(ms[i].key, Dumps(ms[i].value)))
  {
    var ms := SortedMembers(b);
    assert |ms| == 7;
    PlainKeys(b);
    hide SortedMembers, PlainKey, Pair, Dumps;
    forall i | 0 <= i < 7 ensures JsonGrammar.DumpedMembers(ms)[i] == Pair(ms[i].key, Dumps(ms[i].value)) {
      PairWritten(ms[i].key, ms[i].value);
    }
  }

  lemma PairsListed(b: Bundle)
    ensures JsonGrammar.DumpedMembers(SortedMembers(b)) == [
                Pair("decision_result", Dumps(Str(b.decisionResult))),
                Pair("entity_id", Dumps(Str(b.entityId))),
                Pair("evaluation_context", Dumps(b.evaluationContext)),
                Pair("module", Dumps(Str(b.producer))),
                Pair("reason_codes", Dumps(b.reasonCodes)),
                Pair("rule_version_used", Dumps(Str(b.ruleVersionUsed))),
                Pair("timestamp", Dumps(Str(b.timestamp)))]
  {
    MembersWritten(b);
    hide Pair, Dumps, JsonGrammar.DumpedMembers;
  }

  /** The exact text whose SHA-256 is the bundle hash. */
  lemma HashedText(sha: string -> string, b: Bundle)
    ensures ComputeBundleHash(sha, b) == sha("{" + JsonGrammar.Joined([
                Pair("decision_result", Dumps(Str(b.decisionResult))),
                Pair("entity_id", Dumps(Str(b.entityId))),
                Pair("evaluation_context", Dumps(b.evaluationContext)),
                Pair("module", Dumps(Str(b.producer))),
                Pair("reason_codes", Dumps(b.reasonCodes)),
                Pair("rule_version_used", Dumps(Str(b.ruleVersionUsed))),
                Pair("timestamp", Dumps(Str(b.timestamp)))], ",") + "}")
  {
    PayloadSorted(b);
    SortedAscend(b);
    AscendingDistinct(SortedMembers(b));
    JsonGrammar.DumpsObject(SortedMembers(b));
    PairsListed(b);
    hide Pair, Dumps, Payload, SortedMembers, JsonGrammar.Joined, JsonGrammar.DumpedMembers;
  }
}
