/** What any run of boots leaves: one published package per organization and name, at the end of one chain. */
module PackageChain {
  import opened Wrappers
  import opened Sorting
  import opened Organizations
  import opened PackageRegistry

  predicate EverPublished(p: Package, org: string, name: string) {
    p.organizationId == org && p.packageName == name && (p.status == PUBLISHED || p.status == SUPERSEDED)
  }

  /** The packages of one organization and name that were ever published, in the order they were created. */
  function Line(ps: Packages, org: string, name: string): Packages {
    Filter((p: Package) => EverPublished(p, org, name), ps)
  }

  /** `q` replaced `p`, and both say so. */
  predicate Link(p: Package, q: Package) {
    p.status == SUPERSEDED && p.supersededBy == Some(q.id) && q.supersedes == Some(p.id) && p.id < q.id
  }

  /** One chain: it starts with a package that superseded nothing, each is replaced by the next, and only the last is published. */
  ghost predicate Chain(line: Packages) {
    line != [] ==>
      && line[0].supersedes == None
      && line[|line| - 1].status == PUBLISHED && line[|line| - 1].supersededBy == None
      && forall i :: 0 <= i < |line| - 1 ==> Link(line[i], line[i + 1])
  }

  function Last<T>(s: seq<T>): T
    requires s != []
  {
    s[|s| - 1]
  }

  // ---------------------------------------------------------------- what the queries see of a chain

  lemma LineMember(ps: Packages, org: string, name: string, k: nat)
    requires Numbered(ps) && k < |Line(ps, org, name)|
    ensures var p := Line(ps, org, name)[k]; p.id < |ps| && ps[p.id] == p && EverPublished(p, org, name)
  {
    var p := Line(ps, org, name)[k];
    FilterMember((p: Package) => EverPublished(p, org, name), ps, p);
    var i :| 0 <= i < |ps| && ps[i] == p;
  }

  lemma {:induction false} NothingPublished(line: Packages, org: string, name: string)
    requires forall i :: 0 <= i < |line| ==> line[i].status == SUPERSEDED
    ensures PublishedOf(line, org, name) == []
  {
    if line != [] {
      NothingPublished(line[1..], org, name);
    }
  }

  lemma OnlyLastPublished(line: Packages, org: string, name: string)
    requires Chain(line) && line != [] && EverPublished(Last(line), org, name)
    ensures PublishedOf(line, org, name) == [Last(line)]
  {
    var front := line[..|line| - 1];
    forall i | 0 <= i < |front| ensures front[i].status == SUPERSEDED {
      assert Link(line[i], line[i + 1]);
    }
    NothingPublished(front, org, name);
    FilterConcat((p: Package) => IsPublished(p, org, name), front, [Last(line)]);
    assert line == front + [Last(line)];
  }

  /** A chain has one published package, its last, and that is what both queries find. */
  lemma PublishedIsLast(ps: Packages, org: string, name: string)
    requires Numbered(ps) && Chain(Line(ps, org, name))
    ensures var line := Line(ps, org, name);
            && PublishedOf(ps, org, name) == (if line == [] then [] else [Last(line)])
            && Prior(ps, org, name) == (if line == [] then None else Some(Last(line).id))
  {
    var line := Line(ps, org, name);
    FilterTwice((p: Package) => EverPublished(p, org, name), (p: Package) => IsPublished(p, org, name), (p: Package) => IsPublished(p, org, name), ps);
    if line != [] {
      LineMember(ps, org, name, |line| - 1);
      OnlyLastPublished(line, org, name);
    }
  }

  lemma HasPublishedMeaning(ps: Packages, org: string, name: string, version: string)
    ensures HasPublished(ps, org, name, version) <==> exists p :: p in PublishedOf(ps, org, name) && p.packageVersion == version
  {
    if HasPublished(ps, org, name, version) {
      var i :| 0 <= i < |ps| && IsPublishedVersion(ps[i], org, name, version);
      FilterMember((p: Package) => IsPublished(p, org, name), ps, ps[i]);
    }
    if p :| p in PublishedOf(ps, org, name) && p.packageVersion == version {
      FilterMember((p: Package) => IsPublished(p, org, name), ps, p);
      var i :| 0 <= i < |ps| && ps[i] == p;
      assert IsPublishedVersion(ps[i], org, name, version);
    }
  }

  // ---------------------------------------------------------------- one boot on a chain

  /** The package a completed boot publishes. */
  function Release(ps: Packages, hash: string -> string, b: Boot, supersedes: Option<nat>): Package {
    Draft(|ps|, b.org, b.name, b.version, b.document, hash(b.document), supersedes).(status := PUBLISHED)
  }

  function Extended(line: Packages, obj: Package): Packages {
    if line == [] then [obj]
    else line[..|line| - 1] + [Last(line).(status := SUPERSEDED, supersededBy := Some(obj.id))] + [obj]
  }

  /** Whether a boot publishes something new for this organization and name. */
  predicate Releases(b: Boot, organizations: map<string, string>, line: Packages, org: string, name: string) {
    Completes(b, organizations) && b.org == org && b.name == name && (line == [] || Last(line).packageVersion != b.version)
  }

  /** The superseded package stays where it is in its line, and in no other. */
  lemma SupersedingLine(ps: Packages, org: string, name: string, o: string, n: string, successor: nat)
    requires Numbered(ps) && Chain(Line(ps, org, name)) && Line(ps, org, name) != []
    ensures var line := Line(ps, org, name);
            Line(Superseding(ps, Some(Last(line).id), successor), o, n) ==
            if o == org && n == name then line[..|line| - 1] + [Last(line).(status := SUPERSEDED, supersededBy := Some(successor))]
            else Line(ps, o, n)
  {
    var line := Line(ps, org, name);
    var p := Last(line);
    LineMember(ps, org, name, |line| - 1);
    var q := p.(status := SUPERSEDED, supersededBy := Some(successor));
    FilterReplaced((p: Package) => EverPublished(p, o, n), ps, p.id, q);
    if o == org && n == name {
      var front, back := Line(ps[..p.id], org, name), Line(ps[p.id + 1..], org, name);
      assert line == front + ([p] + back) && line[|front|] == p;
      assert |front| < |line| - 1 ==> Link(line[|front|], line[|front| + 1]);
      assert back == [] && front == line[..|line| - 1];
    }
  }

  lemma LineAppend(ps: Packages, p: Package, org: string, name: string)
    ensures Line(ps + [p], org, name) == if EverPublished(p, org, name) then Line(ps, org, name) + [p] else Line(ps, org, name)
  {
    FilterConcat((p: Package) => EverPublished(p, org, name), ps, [p]);
  }

  /** A boot that publishes nothing new leaves every line alone; the one that does extends its own line only. */
  lemma BootLine(ps: Packages, organizations: map<string, string>, hash: string -> string, b: Boot, o: string, n: string)
    requires Numbered(ps) && Chain(Line(ps, b.org, b.name))
    ensures var line := Line(ps, b.org, b.name);
            Line(Booted(ps, organizations, hash, b), o, n) ==
            if Releases(b, organizations, line, o, n)
            then Extended(line, Release(ps, hash, b, if line == [] then None else Some(Last(line).id)))
            else Line(ps, o, n)
  {
    var line := Line(ps, b.org, b.name);
    PublishedIsLast(ps, b.org, b.name);
    HasPublishedMeaning(ps, b.org, b.name, b.version);
    CompletesReaches(b, organizations);
    var prior := Prior(ps, b.org, b.name);
    var obj := Draft(|ps|, b.org, b.name, b.version, b.document, hash(b.document), prior).(status := Reached(b));
    hide Line, Prior, Refusal, HasPublished, PublishedOf, Superseding, Reached, Completes;
    LineAppend(ps, obj, o, n);
    LineAppend(Superseding(ps, prior, |ps|), obj, o, n);
    if line == [] {
      assert Superseding(ps, None, |ps|) == ps by {
        SupersedingNothing(ps, |ps|);
      }
    } else {
      SupersedingLine(ps, b.org, b.name, o, n, |ps|);
    }
  }

  lemma SupersedingNothing(ps: Packages, successor: nat)
    ensures Superseding(ps, None, successor) == ps
  {
  }

  lemma ExtendedChain(line: Packages, obj: Package)
    requires Chain(line) && (line != [] ==> Last(line).id < obj.id)
    requires obj.status == PUBLISHED && obj.supersededBy == None
    requires obj.supersedes == if line == [] then None else Some(Last(line).id)
    ensures Chain(Extended(line, obj))
  {
  }

  // ---------------------------------------------------------------- runs of boots

  /** The registry after boots of any packages, in any order, from an empty one. */
  function Run(organizations: map<string, string>, hash: string -> string, boots: seq<Boot>): Packages {
    if boots == [] then [] else Booted(Run(organizations, hash, boots[..|boots| - 1]), organizations, hash, Last(boots))
  }

  function VersionsOf(line: Packages): (vs: seq<string>)
    ensures |vs| == |line| && forall i :: 0 <= i < |line| ==> vs[i] == line[i].packageVersion
  {
    seq(|line|, i requires 0 <= i < |line| => line[i].packageVersion)
  }

  /** The versions of the boots of this package that completed. */
  function Completed(organizations: map<string, string>, boots: seq<Boot>, org: string, name: string): seq<string> {
    if boots == [] then []
    else
      var b, earlier := Last(boots), Completed(organizations, boots[..|boots| - 1], org, name);
      if Completes(b, organizations) && b.org == org && b.name == name then earlier + [b.version] else earlier
  }

  /** Repeats in a row count once. */
  function Changes(vs: seq<string>): (cs: seq<string>)
    ensures cs == [] <==> vs == []
    ensures vs != [] ==> Last(cs) == Last(vs)
    ensures forall i :: 0 <= i < |cs| - 1 ==> cs[i] != cs[i + 1]
  {
    if vs == [] then []
    else
      var cs := Changes(vs[..|vs| - 1]);
      if cs != [] && Last(cs) == Last(vs) then cs else cs + [Last(vs)]
  }

  lemma {:induction false} RunNumbered(organizations: map<string, string>, hash: string -> string, boots: seq<Boot>)
    ensures Numbered(Run(organizations, hash, boots))
  {
    if boots != [] {
      RunNumbered(organizations, hash, boots[..|boots| - 1]);
      BootedNumbered(Run(organizations, hash, boots[..|boots| - 1]), organizations, hash, Last(boots));
    }
  }

  /** One boot keeps every line a chain, and writes its version down when it is new. */
  lemma BootKeepsChain(ps: Packages, organizations: map<string, string>, hash: string -> string, b: Boot, org: string, name: string)
    requires Numbered(ps) && Chain(Line(ps, b.org, b.name)) && Chain(Line(ps, org, name))
    ensures var line, after := Line(ps, org, name), Line(Booted(ps, organizations, hash, b), org, name);
            && Chain(after)
            && VersionsOf(after) == VersionsOf(line) + (if Releases(b, organizations, line, org, name) then [b.version] else [])
  {
    hide Line, Booted;
    BootLine(ps, organizations, hash, b, org, name);
    var line := Line(ps, org, name);
    if Releases(b, organizations, line, org, name) {
      var obj := Release(ps, hash, b, if line == [] then None else Some(Last(line).id));
      if line != [] {
        LineMember(ps, org, name, |line| - 1);
      }
      ExtendedChain(line, obj);
      assert VersionsOf(Extended(line, obj)) == VersionsOf(line) + [b.version];
    } else {
      assert VersionsOf(line) + [] == VersionsOf(line);
    }
  }

  lemma NothingLined(org: string, name: string)
    ensures Line([], org, name) == [] && Chain([])
  {
  }

  /**
   From an empty registry, whatever boots happen, of whatever versions, completed or stopped part way:
   the packages ever published under a name form one chain, whose versions are those of the completed
   boots, in order, without repeats in a row.
   */
  lemma {:induction false} PublishChain(organizations: map<string, string>, hash: string -> string, boots: seq<Boot>, org: string, name: string)
    ensures Chain(Line(Run(organizations, hash, boots), org, name))
    ensures VersionsOf(Line(Run(organizations, hash, boots), org, name)) == Changes(Completed(organizations, boots, org, name))
  {
    hide Line, Booted, Chain;
    NothingLined(org, name);
    if boots != [] {
      var before, b := boots[..|boots| - 1], Last(boots);
      var ps := Run(organizations, hash, before);
      RunNumbered(organizations, hash, before);
      PublishChain(organizations, hash, before, org, name);
      PublishChain(organizations, hash, before, b.org, b.name);
      BootKeepsChain(ps, organizations, hash, b, org, name);
      var vs := Completed(organizations, before, org, name);
      assert (vs + [b.version])[..|vs|] == vs;
    }
  }

  /** After any run there is exactly one published package for a name that some boot completed, with the version of the last that did, and none otherwise. */
  lemma OnePublishedAfterRun(organizations: map<string, string>, hash: string -> string, boots: seq<Boot>, org: string, name: string)
    ensures var vs, published := Completed(organizations, boots, org, name), PublishedOf(Run(organizations, hash, boots), org, name);
            if vs == [] then published == [] else |published| == 1 && published[0].packageVersion == Last(vs)
  {
    PublishChain(organizations, hash, boots, org, name);
    RunNumbered(organizations, hash, boots);
    PublishedIsLast(Run(organizations, hash, boots), org, name);
  }

  /** Booting again with the version that is published changes nothing at all. */
  lemma RepeatedVersionIsNoOp(organizations: map<string, string>, hash: string -> string, boots: seq<Boot>, b: Boot)
    requires var vs := Completed(organizations, boots, b.org, b.name); vs != [] && Last(vs) == b.version
    ensures Run(organizations, hash, boots + [b]) == Run(organizations, hash, boots)
  {
    var ps := Run(organizations, hash, boots);
    OnePublishedAfterRun(organizations, hash, boots, b.org, b.name);
    HasPublishedMeaning(ps, b.org, b.name, b.version);
    assert PublishedOf(ps, b.org, b.name)[0] in PublishedOf(ps, b.org, b.name);
    assert (boots + [b])[..|boots|] == boots;
  }

  // ---------------------------------------------------------------- from any registry

  function AtLeastOne(k: nat): nat {
    if k == 0 then 1 else k
  }

  /**
   From any registry whatever, a completed boot leaves as many published packages of its name as it
   found, or one if it found none: exactly one when there was at most one, and never fewer than before.
   */
  lemma PublishedAfterBoot(ps: Packages, organizations: map<string, string>, hash: string -> string, b: Boot)
    requires Numbered(ps) && Completes(b, organizations)
    ensures |PublishedOf(Booted(ps, organizations, hash, b), b.org, b.name)| == AtLeastOne(|PublishedOf(ps, b.org, b.name)|)
  {
    HasPublishedMeaning(ps, b.org, b.name, b.version);
    if !HasPublished(ps, b.org, b.name, b.version) {
      var prior := Prior(ps, b.org, b.name);
      var obj := Release(ps, hash, b, prior);
      PriorIsPublished(ps, b.org, b.name);
      FilterConcat((p: Package) => IsPublished(p, b.org, b.name), Superseding(ps, prior, |ps|), [obj]);
      if prior.Some? {
        FilterReplaced((p: Package) => IsPublished(p, b.org, b.name), ps, prior.value,
                       ps[prior.value].(status := SUPERSEDED, supersededBy := Some(|ps|)));
      }
    }
  }
}
