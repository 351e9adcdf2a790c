/**
 Governance packages and the seeds that publish them on every boot
 (`governance_package_service.py`, `seed.py`).

 A package's identifier is its place in the order of creation. Each lifecycle call commits on its
 own, so a boot may stop after any of its four commits. Whether a document validates, the approver
 is verified and the signature holds is given with each boot.
 */
module PackageRegistry {
  import opened Wrappers
  import opened PyText
  import opened Sorting
  import opened Organizations

  datatype Status = DRAFT | VALIDATED | APPROVED | PUBLISHED | SUPERSEDED | RETIRED | REJECTED

  datatype Package = Package(
    id: nat,
    organizationId: string,
    packageName: string,
    packageVersion: string,
    document: string,
    packageHash: string,
    status: Status,
    supersedes: Option<nat>,
    supersededBy: Option<nat>)

  datatype PackageError =
    | Refused(tenant: TenantError)
    | Conflict
    | NotFound
    | InvalidTransition
    | Immutable
    | AuthorityUnverified
    | BadSignature
    | FailedValidation
    | Stopped

  /** `PACKAGE_TRANSITIONS`. */
  function Transitions(s: Status): set<Status> {
    match s
    case DRAFT => {VALIDATED, REJECTED}
    case VALIDATED => {APPROVED, REJECTED, DRAFT}
    case APPROVED => {PUBLISHED, REJECTED}
    case PUBLISHED => {SUPERSEDED, RETIRED}
    case SUPERSEDED => {RETIRED}
    case RETIRED => {}
    case REJECTED => {}
  }

  type Packages = seq<Package>

  /** Identifiers number the packages in the order they were created. */
  ghost predicate Numbered(ps: Packages) {
    forall i :: 0 <= i < |ps| ==> ps[i].id == i
  }

  predicate Owns(ps: Packages, org: string, id: nat) {
    id < |ps| && ps[id].organizationId == org
  }

  predicate IsPublished(p: Package, org: string, name: string) {
    p.organizationId == org && p.packageName == name && p.status == PUBLISHED
  }

  /** `list_filtered(org, package_name=name, status=PUBLISHED)`, before its limit. */
  function PublishedOf(ps: Packages, org: string, name: string): Packages {
    Filter((p: Package) => IsPublished(p, org, name), ps)
  }

  predicate IsPublishedVersion(p: Package, org: string, name: string, version: string) {
    IsPublished(p, org, name) && p.packageVersion == version
  }

  /** `get_published(org, name, version) is not None`. */
  predicate HasPublished(ps: Packages, org: string, name: string, version: string) {
    exists i :: 0 <= i < |ps| && IsPublishedVersion(ps[i], org, name, version)
  }

  const LIST_LIMIT := 100

  /** `prior_published[-1].id`, if any is listed. */
  function Prior(ps: Packages, org: string, name: string): Option<nat> {
    var listed := PublishedOf(ps, org, name);
    if listed == [] then None
    else if |listed| <= LIST_LIMIT then Some(listed[|listed| - 1].id)
    else Some(listed[LIST_LIMIT - 1].id)
  }

  // ---------------------------------------------------------------- the services

  class GovernancePackageService {
    var packages: Packages
    const organizations: map<string, string>
    const hash: string -> string

    constructor (organizations: map<string, string>, hash: string -> string)
      ensures packages == [] && this.organizations == organizations && this.hash == hash
    {
      packages := [];
      this.organizations := organizations;
      this.hash := hash;
    }

    /** `create`: a draft, unless that version is published already. */
    method Create(org: string, name: string, version: string, document: string, supersedes: Option<nat>) returns (r: Result<nat, PackageError>)
      modifies this`packages
      ensures r == if Refusal(organizations, org).Some? then Err(Refused(Refusal(organizations, org).value))
                   else if HasPublished(old(packages), org, name, version) then Err(Conflict)
                   else Ok(|old(packages)|)
      ensures packages == if r.Ok? then old(packages) + [Draft(|old(packages)|, org, name, version, document, hash(document), supersedes)]
                          else old(packages)
    {
      var refusal := Refusal(organizations, org);
      if refusal.Some? {
        return Err(Refused(refusal.value));
      }
      if HasPublished(packages, org, name, version) {
        return Err(Conflict);
      }
      var id := |packages|;
      packages := packages + [Draft(id, org, name, version, document, hash(document), supersedes)];
      return Ok(id);
    }

    /** `validate`: `valid` says whether the document passes the schema. */
    method Validate(org: string, id: nat, valid: bool) returns (r: Result<bool, PackageError>)
      modifies this`packages
      ensures r == if Refusal(organizations, org).Some? then Err(Refused(Refusal(organizations, org).value))
                   else if !Owns(old(packages), org, id) then Err(NotFound)
                   else if old(packages)[id].status !in {DRAFT, VALIDATED} then Err(Immutable)
                   else Ok(valid)
      ensures packages == if r == Ok(true) && old(packages)[id].status == DRAFT
                          then old(packages)[id := old(packages)[id].(status := VALIDATED, packageHash := hash(old(packages)[id].document))]
                          else old(packages)
    {
      var refusal := Refusal(organizations, org);
      if refusal.Some? {
        return Err(Refused(refusal.value));
      }
      if !Owns(packages, org, id) {
        return Err(NotFound);
      }
      var obj := packages[id];
      if obj.status !in {DRAFT, VALIDATED} {
        return Err(Immutable);
      }
      if !valid {
        return Ok(false);
      }
      if obj.status == DRAFT {
        packages := packages[id := obj.(status := VALIDATED, packageHash := hash(obj.document))];
      }
      return Ok(true);
    }

    /** `approve`: an identified approver and a rationale are both required; `verified` is the authority check, true when it is not configured. */
    method Approve(org: string, id: nat, approver: string, rationale: string, verified: bool) returns (error: Option<PackageError>)
      modifies this`packages
      ensures error == if Strip(approver) == "" || Strip(rationale) == "" then Some(Conflict)
                       else if Refusal(organizations, org).Some? then Some(Refused(Refusal(organizations, org).value))
                       else if !Owns(old(packages), org, id) then Some(NotFound)
                       else if old(packages)[id].status != VALIDATED then Some(InvalidTransition)
                       else if !verified then Some(AuthorityUnverified)
                       else None
      ensures packages == if error == None then old(packages)[id := old(packages)[id].(status := APPROVED)] else old(packages)
    {
      if Strip(approver) == "" || Strip(rationale) == "" {
        return Some(Conflict);
      }
      var refusal := Refusal(organizations, org);
      if refusal.Some? {
        return Some(Refused(refusal.value));
      }
      if !Owns(packages, org, id) {
        return Some(NotFound);
      }
      var obj := packages[id];
      if APPROVED !in Transitions(obj.status) {
        return Some(InvalidTransition);
      }
      if !verified {
        return Some(AuthorityUnverified);
      }
      packages := packages[id := obj.(status := APPROVED)];
      return None;
    }

    /** `publish`: the predecessor is superseded in the same commit. */
    method Publish(org: string, id: nat, expected: Option<string>, signed: bool) returns (error: Option<PackageError>)
      modifies this`packages
      ensures error == PublishError(old(packages), organizations, hash, org, id, expected, signed)
      ensures packages == if error == None then Published(old(packages), hash, id) else old(packages)
    {
      var refusal := Refusal(organizations, org);
      if refusal.Some? {
        return Some(Refused(refusal.value));
      }
      if !Owns(packages, org, id) {
        return Some(NotFound);
      }
      var obj := packages[id];
      if PUBLISHED !in Transitions(obj.status) {
        return Some(InvalidTransition);
      }
      var recomputed := hash(obj.document);
      if obj.packageHash != "" && obj.packageHash != recomputed {
        return Some(Immutable);
      }
      if expected.Some? && expected.value != recomputed {
        return Some(Immutable);
      }
      if !signed {
        return Some(BadSignature);
      }
      if HasPublished(packages, org, obj.packageName, obj.packageVersion) {
        return Some(Conflict);
      }
      if obj.supersedes.Some? {
        var predecessorId := obj.supersedes.value;
        if !Owns(packages, org, predecessorId) {
          return Some(NotFound);
        }
        var predecessor := packages[predecessorId];
        if predecessor.status == PUBLISHED {
          packages := packages[predecessorId := predecessor.(status := SUPERSEDED, supersededBy := Some(id))];
        }
      }
      packages := packages[id := obj.(status := PUBLISHED, packageHash := recomputed)];
      return None;
    }

    /** One of the `seed_*_package` functions; the process stops for good after `b.commits` commits. */
    method SeedPackage(b: Boot) returns (error: Option<PackageError>)
      requires Numbered(packages)
      modifies this`packages
      ensures packages == Booted(old(packages), organizations, hash, b)
      ensures Numbered(packages)
      ensures error == None <==>
              Completes(b, organizations) || (Refusal(organizations, b.org) == None && HasPublished(old(packages), b.org, b.name, b.version))
    {
      hide HasPublished, Prior, Superseding, Published, Refusal, Strip, Completes;
      SeedApproverNamed();
      ghost var before := packages;
      CompletesReaches(b, organizations);
      BootedNumbered(packages, organizations, hash, b);
      var refusal := Refusal(organizations, b.org);
      if refusal.Some? {
        return Some(Refused(refusal.value));
      }
      if HasPublished(packages, b.org, b.name, b.version) {
        return None;
      }
      var prior := Prior(packages, b.org, b.name);
      if b.commits == 0 {
        return Some(Stopped);
      }
      PriorIsPublished(packages, b.org, b.name);
      var created := Create(b.org, b.name, b.version, b.document, prior);
      var id := created.value;
      ghost var draft := packages[id];
      if b.commits == 1 {
        return Some(Stopped);
      }
      var validated := Validate(b.org, id, b.valid);
      if validated != Ok(true) {
        return Some(FailedValidation);
      }
      LastReplaced(before, draft, draft.(status := VALIDATED));
      if b.commits == 2 {
        return Some(Stopped);
      }
      error := Approve(b.org, id, "seed-bootstrap", "Seeded on boot", b.verified);
      if error != None {
        return;
      }
      LastReplaced(before, draft.(status := VALIDATED), draft.(status := APPROVED));
      if b.commits == 3 {
        return Some(Stopped);
      }
      PublishedLast(before, draft.(status := APPROVED), hash);
      error := Publish(b.org, id, None, b.signed);
    }
  }

  lemma CompletesReaches(b: Boot, organizations: map<string, string>)
    ensures Completes(b, organizations) <==> Refusal(organizations, b.org) == None && Reached(b) == PUBLISHED
  {
  }

  lemma LastReplaced(ps: Packages, x: Package, y: Package)
    ensures (ps + [x])[|ps| := y] == ps + [y]
  {
  }

  /** Publishing the package that was created last. */
  lemma PublishedLast(ps: Packages, x: Package, hash: string -> string)
    requires x.status == APPROVED && (x.supersedes.Some? ==> x.supersedes.value < |ps|)
    ensures Published(ps + [x], hash, |ps|)
         == Superseding(ps, x.supersedes, |ps|) + [x.(status := PUBLISHED, packageHash := hash(x.document))]
    ensures HasPublished(ps + [x], x.organizationId, x.packageName, x.packageVersion) == HasPublished(ps, x.organizationId, x.packageName, x.packageVersion)
  {
    var all := ps + [x];
    if HasPublished(ps, x.organizationId, x.packageName, x.packageVersion) {
      var i :| 0 <= i < |ps| && IsPublishedVersion(ps[i], x.organizationId, x.packageName, x.packageVersion);
      assert IsPublishedVersion(all[i], x.organizationId, x.packageName, x.packageVersion);
    }
    assert Superseding(all, x.supersedes, |ps|) == Superseding(ps, x.supersedes, |ps|) + [x];
    LastReplaced(Superseding(ps, x.supersedes, |ps|), x, x.(status := PUBLISHED, packageHash := hash(x.document)));
  }

  lemma SeedApproverNamed()
    ensures Strip("seed-bootstrap") != "" && Strip("Seeded on boot") != ""
  {
  }

  function Draft(id: nat, org: string, name: string, version: string, document: string, packageHash: string, supersedes: Option<nat>): Package {
    Package(id, org, name, version, document, packageHash, DRAFT, supersedes, None)
  }

  /** The first check of `publish` that fails. */
  function PublishError(ps: Packages, organizations: map<string, string>, hash: string -> string,
                        org: string, id: nat, expected: Option<string>, signed: bool): Option<PackageError> {
    if Refusal(organizations, org).Some? then Some(Refused(Refusal(organizations, org).value))
    else if !Owns(ps, org, id) then Some(NotFound)
    else if ps[id].status != APPROVED then Some(InvalidTransition)
    else if ps[id].packageHash != "" && ps[id].packageHash != hash(ps[id].document) then Some(Immutable)
    else if expected.Some? && expected.value != hash(ps[id].document) then Some(Immutable)
    else if !signed then Some(BadSignature)
    else if HasPublished(ps, org, ps[id].packageName, ps[id].packageVersion) then Some(Conflict)
    else if ps[id].supersedes.Some? && !Owns(ps, org, ps[id].supersedes.value) then Some(NotFound)
    else None
  }

  /** A package is published exactly when everything publication asks for is there. */
  lemma PublishesIff(ps: Packages, organizations: map<string, string>, hash: string -> string,
                     org: string, id: nat, expected: Option<string>, signed: bool)
    ensures PublishError(ps, organizations, hash, org, id, expected, signed) == None <==>
            && Registered(organizations, org)
            && id < |ps| && ps[id].organizationId == org && ps[id].status == APPROVED
            && ps[id].packageHash in {"", hash(ps[id].document)}
            && expected in {None, Some(hash(ps[id].document))}
            && signed
            && (forall i :: 0 <= i < |ps| ==> !IsPublishedVersion(ps[i], org, ps[id].packageName, ps[id].packageVersion))
            && (ps[id].supersedes.Some? ==> ps[id].supersedes.value < |ps| && ps[ps[id].supersedes.value].organizationId == org)
  {
  }

  /** The packages with the prior one, if it is published, marked as superseded by its successor. */
  function Superseding(ps: Packages, prior: Option<nat>, successor: nat): (r: Packages)
    ensures |r| == |ps|
  {
    if prior.Some? && prior.value < |ps| && ps[prior.value].status == PUBLISHED
    then ps[prior.value := ps[prior.value].(status := SUPERSEDED, supersededBy := Some(successor))]
    else ps
  }

  function Published(ps: Packages, hash: string -> string, id: nat): Packages
    requires id < |ps|
  {
    Superseding(ps, ps[id].supersedes, id)[id := ps[id].(status := PUBLISHED, packageHash := hash(ps[id].document))]
  }

  // ---------------------------------------------------------------- one boot

  datatype Boot = Boot(org: string, name: string, version: string, document: string, valid: bool, verified: bool, signed: bool, commits: nat)

  predicate Completes(b: Boot, organizations: map<string, string>) {
    Refusal(organizations, b.org) == None && b.valid && b.verified && b.signed && b.commits >= 4
  }

  /** How far a boot takes its package, when it creates one. */
  function Reached(b: Boot): Status {
    if b.commits <= 1 || !b.valid then DRAFT
    else if b.commits == 2 || !b.verified then VALIDATED
    else if b.commits == 3 || !b.signed then APPROVED
    else PUBLISHED
  }

  /** The registry after a boot. */
  function Booted(ps: Packages, organizations: map<string, string>, hash: string -> string, b: Boot): Packages {
    if Refusal(organizations, b.org).Some? || HasPublished(ps, b.org, b.name, b.version) || b.commits == 0 then ps
    else
      var prior := Prior(ps, b.org, b.name);
      var obj := Draft(|ps|, b.org, b.name, b.version, b.document, hash(b.document), prior).(status := Reached(b));
      if Reached(b) == PUBLISHED then Superseding(ps, prior, |ps|) + [obj] else ps + [obj]
  }

  lemma BootedNumbered(ps: Packages, organizations: map<string, string>, hash: string -> string, b: Boot)
    requires Numbered(ps)
    ensures Numbered(Booted(ps, organizations, hash, b))
  {
  }

  lemma PublishedMember(ps: Packages, org: string, name: string, k: nat)
    requires Numbered(ps) && k < |PublishedOf(ps, org, name)|
    ensures var p := PublishedOf(ps, org, name)[k]; p.id < |ps| && ps[p.id] == p && IsPublished(p, org, name)
  {
    var p := PublishedOf(ps, org, name)[k];
    FilterMember((p: Package) => IsPublished(p, org, name), ps, p);
    var i :| 0 <= i < |ps| && ps[i] == p;
  }

  lemma PriorIsPublished(ps: Packages, org: string, name: string)
    requires Numbered(ps)
    ensures var prior := Prior(ps, org, name);
            prior.Some? ==> prior.value < |ps| && IsPublished(ps[prior.value], org, name)
  {
    var listed := PublishedOf(ps, org, name);
    if listed != [] {
      PublishedMember(ps, org, name, if |listed| <= LIST_LIMIT then |listed| - 1 else LIST_LIMIT - 1);
    }
  }

  lemma TakenOneMore(ps: Packages, org: string, name: string, k: nat)
    requires k < |ps|
    ensures PublishedOf(ps[..k + 1], org, name) == PublishedOf(ps[..k], org, name) + (if IsPublished(ps[k], org, name) then [ps[k]] else [])
  {
    var published := (p: Package) => IsPublished(p, org, name);
    assert ps[..k + 1] == ps[..k] + [ps[k]];
    FilterConcat(published, ps[..k], [ps[k]]);
  }

  lemma {:induction false} TakenGrows(ps: Packages, org: string, name: string, j: nat, k: nat)
    requires j <= k <= |ps|
    ensures PublishedOf(ps[..j], org, name) <= PublishedOf(ps[..k], org, name)
  {
    hide PublishedOf;
    if j < k {
      TakenGrows(ps, org, name, j, k - 1);
      TakenOneMore(ps, org, name, k - 1);
    }
  }

  /** A published package stands in the listing behind the ones published before it. */
  lemma PlaceOf(ps: Packages, org: string, name: string, k: nat)
    requires k < |ps| && IsPublished(ps[k], org, name)
    ensures var c := |PublishedOf(ps[..k], org, name)|; c < |PublishedOf(ps, org, name)| && PublishedOf(ps, org, name)[c] == ps[k]
  {
    hide PublishedOf;
    TakenOneMore(ps, org, name, k);
    TakenGrows(ps, org, name, k + 1, |ps|);
    assert ps[..|ps|] == ps;
  }

  lemma NoneTaken(ps: Packages, org: string, name: string)
    ensures PublishedOf(ps[..0], org, name) == []
  {
  }

  lemma {:induction false} AtPlace(ps: Packages, org: string, name: string, n: nat, m: nat) returns (k: nat)
    requires n <= |ps| && m < |PublishedOf(ps[..n], org, name)|
    ensures k < n && PublishedOf(ps[..n], org, name)[m] == ps[k] && |PublishedOf(ps[..k], org, name)| == m
  {
    hide PublishedOf;
    NoneTaken(ps, org, name);
    TakenOneMore(ps, org, name, n - 1);
    if m < |PublishedOf(ps[..n - 1], org, name)| {
      k := AtPlace(ps, org, name, n - 1, m);
    } else {
      k := n - 1;
    }
  }

  /** The package a boot supersedes is the last of the first hundred that are published under the name. */
  lemma PriorMeaning(ps: Packages, org: string, name: string, k: nat)
    requires Numbered(ps) && k < |ps|
    ensures Prior(ps, org, name) == Some(k) <==>
            && IsPublished(ps[k], org, name)
            && |PublishedOf(ps[..k], org, name)| == (if |PublishedOf(ps, org, name)| <= 100 then |PublishedOf(ps, org, name)| else 100) - 1
  {
    hide PublishedOf;
    var listed := PublishedOf(ps, org, name);
    var m := (if |listed| <= 100 then |listed| else 100) - 1;
    assert ps[..|ps|] == ps;
    if IsPublished(ps[k], org, name) {
      PlaceOf(ps, org, name, k);
    }
    if Prior(ps, org, name) == Some(k) {
      PublishedMember(ps, org, name, m);
      var place := AtPlace(ps, org, name, |ps|, m);
      assert place == k;
    }
  }

  /** Up to a hundred published packages of a name, that is the newest of them; and it is none only if there is none. */
  lemma PriorIsNewest(ps: Packages, org: string, name: string)
    requires Numbered(ps) && |PublishedOf(ps, org, name)| <= 100
    ensures forall k: nat :: Prior(ps, org, name) == Some(k) <==>
              k < |ps| && IsPublished(ps[k], org, name) && forall j :: k < j < |ps| ==> !IsPublished(ps[j], org, name)
    ensures Prior(ps, org, name) == None <==> forall j :: 0 <= j < |ps| ==> !IsPublished(ps[j], org, name)
  {
    hide PublishedOf;
    PriorIsPublished(ps, org, name);
    forall j: nat | j < |ps| && IsPublished(ps[j], org, name) ensures Prior(ps, org, name).Some? && j <= Prior(ps, org, name).value {
      PlaceOf(ps, org, name, j);
      var k := Prior(ps, org, name).value;
      PriorMeaning(ps, org, name, k);
      if k < j {
        TakenOneMore(ps, org, name, k);
        TakenGrows(ps, org, name, k + 1, j);
      }
    }
  }
}
