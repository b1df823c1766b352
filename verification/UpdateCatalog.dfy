// The catalogue side of the platform update checker: comparison of the installed version with the
// catalogue, severities of advisories, and the response built from both. Version ranges enter as a
// parameter.
module UpdateCatalog {
  import opened Options

  datatype Result<+T> = Ok(value: T) | Err(code: string)

  // ---------- Versions ----------

  datatype Version = Version(major: nat, minor: nat, patch: nat)

  // A version as text: no semantic version at all, one with a prerelease tag, or a stable one that
  // is or is not written in canonical form ("v1.2.3" and "1.2.3+build" are not).
  datatype VersionText = Invalid | Prerelease | Stable(version: Version, canonical: bool)

  predicate Gt(a: Version, b: Version) {
    a.major > b.major
    || (a.major == b.major && (a.minor > b.minor || (a.minor == b.minor && a.patch > b.patch)))
  }

  // ---------- Releases ----------

  datatype Severity = Low | Medium | High | Critical {
    function Order(): nat {
      match this
      case Low => 1
      case Medium => 2
      case High => 3
      case Critical => 4
    }
  }

  datatype Advisory = Advisory(severity: Severity, affected: string)

  datatype Document = Document(version: Version, revision: nat, publishedAt: string, security: seq<Advisory>, content: string)

  // A release document together with the digest of the bytes it was parsed from.
  datatype Release = Release(document: Document, sha256: string)

  datatype Catalog = Catalog(sequence: nat, generatedAt: string, releases: seq<Release>)

  predicate Ascending(releases: seq<Release>) {
    forall i, j :: 0 <= i < j < |releases| ==> Gt(releases[j].document.version, releases[i].document.version)
  }

  // Does a version satisfy a range of affected versions?
  type Satisfies = (Version, string) -> bool

  predicate Applicable(advisory: Advisory, current: Version, sat: Satisfies) {
    sat(current, advisory.affected)
  }

  // ---------- Severities ----------

  function ApplicableAdvisories(advisories: seq<Advisory>, current: Version, sat: Satisfies): seq<Advisory> {
    if advisories == [] then []
    else
      var a := advisories[|advisories| - 1];
      ApplicableAdvisories(advisories[..|advisories| - 1], current, sat) + if Applicable(a, current, sat) then [a] else []
  }

  function AllApplicable(releases: seq<Release>, current: Version, sat: Satisfies): seq<Advisory> {
    if releases == [] then []
    else
      var release := releases[|releases| - 1];
      AllApplicable(releases[..|releases| - 1], current, sat) + ApplicableAdvisories(release.document.security, current, sat)
  }

  // `h` is the highest severity among the advisories, None when there are none.
  ghost predicate IsHighest(h: Option<Severity>, advisories: seq<Advisory>) {
    match h
    case None => advisories == []
    case Some(s) =>
      && (exists a :: a in advisories && a.severity == s)
      && forall a :: a in advisories ==> a.severity.Order() <= s.Order()
  }

  function Raise(highest: Option<Severity>, severity: Severity): Option<Severity> {
    if highest.None? || severity.Order() > highest.value.Order() then Some(severity) else highest
  }

  // The reduction over the applicable advisories.
  function ReduceSeverity(advisories: seq<Advisory>): Option<Severity> {
    if advisories == [] then None
    else Raise(ReduceSeverity(advisories[..|advisories| - 1]), advisories[|advisories| - 1].severity)
  }

  function HighestSeverity(releases: seq<Release>, current: Version, sat: Satisfies): Option<Severity> {
    ReduceSeverity(AllApplicable(releases, current, sat))
  }

  lemma RaiseIsHighest(highest: Option<Severity>, advisories: seq<Advisory>, advisory: Advisory)
    requires IsHighest(highest, advisories)
    ensures IsHighest(Raise(highest, advisory.severity), advisories + [advisory])
  {
    assert advisory in advisories + [advisory];
    if highest.Some? {
      var a :| a in advisories && a.severity == highest.value;
      assert a in advisories + [advisory];
    }
  }

  lemma {:induction false} ReduceSeverityIsHighest(advisories: seq<Advisory>)
    ensures IsHighest(ReduceSeverity(advisories), advisories)
  {
    if advisories != [] {
      var n := |advisories| - 1;
      ReduceSeverityIsHighest(advisories[..n]);
      RaiseIsHighest(ReduceSeverity(advisories[..n]), advisories[..n], advisories[n]);
      assert advisories == advisories[..n] + [advisories[n]];
    }
  }

  lemma HighestIsUnique(g: Option<Severity>, h: Option<Severity>, advisories: seq<Advisory>)
    requires IsHighest(g, advisories) && IsHighest(h, advisories)
    ensures g == h
  {
    if g.Some? {
      assert g.value.Order() == h.value.Order();
    }
  }

  // The nested loop over releases and advisories finds the highest applicable severity, the one that
  // the comparison reports.
  method HighestSecuritySeverity(releases: seq<Release>, current: Version, sat: Satisfies) returns (highest: Option<Severity>)
    ensures IsHighest(highest, AllApplicable(releases, current, sat))
    ensures highest == HighestSeverity(releases, current, sat)
  {
    hide IsHighest, Raise;
    highest := None;
    assert IsHighest(None, []) by { ReduceSeverityIsHighest([]); }
    for i := 0 to |releases|
      invariant IsHighest(highest, AllApplicable(releases[..i], current, sat))
    {
      assert releases[..i + 1][..i] == releases[..i];
      var security := releases[i].document.security;
      ghost var before := AllApplicable(releases[..i], current, sat);
      assert before + ApplicableAdvisories(security[..0], current, sat) == before;
      for j := 0 to |security|
        invariant IsHighest(highest, before + ApplicableAdvisories(security[..j], current, sat))
      {
        assert security[..j + 1][..j] == security[..j];
        ghost var seen := before + ApplicableAdvisories(security[..j], current, sat);
        if !Applicable(security[j], current, sat) {
          assert seen == before + ApplicableAdvisories(security[..j + 1], current, sat);
          continue;
        }
        RaiseIsHighest(highest, seen, security[j]);
        assert seen + [security[j]] == before + ApplicableAdvisories(security[..j + 1], current, sat);
        highest := Raise(highest, security[j].severity);
      }
      assert security[..|security|] == security;
    }
    assert releases[..|releases|] == releases;
    ghost var applicable := AllApplicable(releases, current, sat);
    ReduceSeverityIsHighest(applicable);
    HighestIsUnique(highest, ReduceSeverity(applicable), applicable);
  }

  // ---------- Comparing the installed version with a catalogue ----------

  datatype Status = InvalidBuild | Unknown | Ahead | UnknownBuild | UpToDate | UpdateAvailable | SecurityUpdateAvailable

  datatype Comparison = Comparison(
    status: Status, latest: Option<Version>, releases: seq<Release>, highest: Option<Severity>)

  predicate Listed(releases: seq<Release>, current: VersionText) {
    current.Stable? && current.canonical && exists i :: 0 <= i < |releases| && releases[i].document.version == current.version
  }

  // The releases newer than `current` and not newer than `latest`, in catalogue order.
  function Outstanding(releases: seq<Release>, current: Version, latest: Version): seq<Release> {
    if releases == [] then []
    else
      var version := releases[0].document.version;
      (if Gt(version, current) && !Gt(version, latest) then [releases[0]] else []) + Outstanding(releases[1..], current, latest)
  }

  function Compare(current: VersionText, releases: seq<Release>, sat: Satisfies): Comparison {
    var latest := if releases == [] then None else Some(releases[|releases| - 1].document.version);
    if !current.Stable? then Comparison(InvalidBuild, latest, [], None)
    else if latest.None? then Comparison(Unknown, None, [], None)
    else if Gt(current.version, latest.value) then Comparison(Ahead, latest, [], None)
    else if !Listed(releases, current) then Comparison(UnknownBuild, latest, [], None)
    else
      var outstanding := Outstanding(releases, current.version, latest.value);
      if outstanding == [] then Comparison(UpToDate, latest, [], None)
      else
        var severity := HighestSeverity(outstanding, current.version, sat);
        Comparison(if severity.Some? then SecurityUpdateAvailable else UpdateAvailable, latest, outstanding, severity)
  }

  lemma {:induction false} OutstandingIsEverythingNewer(releases: seq<Release>, current: Version, latest: Version)
    requires forall i :: 0 <= i < |releases| ==> Gt(releases[i].document.version, current)
    requires forall i :: 0 <= i < |releases| ==> !Gt(releases[i].document.version, latest)
    ensures Outstanding(releases, current, latest) == releases
  {
    if releases != [] {
      OutstandingIsEverythingNewer(releases[1..], current, latest);
    }
  }

  lemma {:induction false} OutstandingSkipsOlder(older: seq<Release>, newer: seq<Release>, current: Version, latest: Version)
    requires forall i :: 0 <= i < |older| ==> !Gt(older[i].document.version, current)
    ensures Outstanding(older + newer, current, latest) == Outstanding(newer, current, latest)
  {
    if older == [] {
      assert older + newer == newer;
    } else {
      assert (older + newer)[1..] == older[1..] + newer;
      OutstandingSkipsOlder(older[1..], newer, current, latest);
    }
  }

  lemma {:induction false} AllApplicableMembers(releases: seq<Release>, current: Version, sat: Satisfies, a: Advisory)
    ensures a in AllApplicable(releases, current, sat) <==>
            exists i :: 0 <= i < |releases| && a in releases[i].document.security && Applicable(a, current, sat)
  {
    if releases != [] {
      var n := |releases| - 1;
      AllApplicableMembers(releases[..n], current, sat, a);
      ApplicableMembers(releases[n].document.security, current, sat, a);
      if a in AllApplicable(releases[..n], current, sat) {
        var i :| 0 <= i < n && a in releases[..n][i].document.security && Applicable(a, current, sat);
        assert a in releases[i].document.security;
      }
      if i :| 0 <= i < |releases| && a in releases[i].document.security && Applicable(a, current, sat) {
        if i < n {
          assert a in releases[..n][i].document.security;
        }
      }
    }
  }

  lemma {:induction false} ApplicableMembers(advisories: seq<Advisory>, current: Version, sat: Satisfies, a: Advisory)
    ensures a in ApplicableAdvisories(advisories, current, sat) <==> a in advisories && Applicable(a, current, sat)
  {
    if advisories != [] {
      var n := |advisories| - 1;
      ApplicableMembers(advisories[..n], current, sat, a);
      assert advisories == advisories[..n] + [advisories[n]];
    }
  }

  lemma NotNewer(releases: seq<Release>, i: nat, j: nat)
    requires Ascending(releases) && i <= j < |releases|
    ensures !Gt(releases[i].document.version, releases[j].document.version)
  {
    if i < j {
      assert Gt(releases[j].document.version, releases[i].document.version);
    }
  }

  lemma OutstandingIsSuffix(releases: seq<Release>, at: nat)
    requires Ascending(releases) && at < |releases|
    ensures Outstanding(releases, releases[at].document.version, releases[|releases| - 1].document.version) == releases[at + 1..]
  {
    hide Gt, Outstanding;
    var current, last := releases[at].document.version, |releases| - 1;
    var older, newer := releases[..at + 1], releases[at + 1..];
    assert releases == older + newer;
    forall i | 0 <= i < |older|
      ensures !Gt(older[i].document.version, current)
    {
      NotNewer(releases, i, at);
    }
    forall i | 0 <= i < |newer|
      ensures Gt(newer[i].document.version, current) && !Gt(newer[i].document.version, releases[last].document.version)
    {
      assert newer[i] == releases[at + 1 + i];
      NotNewer(releases, at + 1 + i, last);
    }
    OutstandingSkipsOlder(older, newer, current, releases[last].document.version);
    OutstandingIsEverythingNewer(newer, current, releases[last].document.version);
  }

  // For a listed stable build the outstanding releases are exactly the suffix after it, and the
  // latest version is the maximum of the catalogue.
  lemma ListedBuildReleases(current: VersionText, releases: seq<Release>, sat: Satisfies, at: nat)
    requires current.Stable? && current.canonical && Ascending(releases)
    requires at < |releases| && releases[at].document.version == current.version
    ensures var c := Compare(current, releases, sat);
            && c.releases == releases[at + 1..]
            && (c.status == UpToDate <==> at == |releases| - 1)
            && c.latest.Some?
            && (exists i :: 0 <= i < |releases| && releases[i].document.version == c.latest.value)
            && forall i :: 0 <= i < |releases| ==> !Gt(releases[i].document.version, c.latest.value)
  {
    hide HighestSeverity, Gt, Outstanding;
    var last := |releases| - 1;
    forall i | 0 <= i < |releases|
      ensures !Gt(releases[i].document.version, releases[last].document.version)
    {
      NotNewer(releases, i, last);
    }
    OutstandingIsSuffix(releases, at);
    assert Listed(releases, current);
  }

  // The status of a listed build says whether an advisory of an outstanding release applies to it.
  lemma ListedBuildStatus(current: VersionText, releases: seq<Release>, sat: Satisfies, at: nat)
    requires current.Stable? && current.canonical && Ascending(releases)
    requires at < |releases| && releases[at].document.version == current.version
    ensures var c := Compare(current, releases, sat);
            && (c.status == SecurityUpdateAvailable <==>
                exists i, a :: at < i < |releases| && a in releases[i].document.security && Applicable(a, current.version, sat))
            && (c.status == UpdateAvailable <==> at < |releases| - 1 && c.status != SecurityUpdateAvailable)
  {
    ListedBuildReleases(current, releases, sat, at);
    var newer := releases[at + 1..];
    assert Listed(releases, current);
    var advisories := AllApplicable(newer, current.version, sat);
    ReduceSeverityIsHighest(advisories);
    if i, a :| at < i < |releases| && a in releases[i].document.security && Applicable(a, current.version, sat) {
      assert a in newer[i - at - 1].document.security;
      AllApplicableMembers(newer, current.version, sat, a);
    }
    if advisories != [] {
      AllApplicableMembers(newer, current.version, sat, advisories[0]);
      var i :| 0 <= i < |newer| && advisories[0] in newer[i].document.security;
      assert advisories[0] in releases[i + at + 1].document.security;
    }
  }

  // A build that is not listed gets no releases, and the status says why.
  lemma UnlistedBuildComparison(current: VersionText, releases: seq<Release>, sat: Satisfies)
    requires Ascending(releases) && !Listed(releases, current)
    ensures var c := Compare(current, releases, sat);
            && c.releases == [] && c.highest.None?
            && (c.status == InvalidBuild <==> !current.Stable?)
            && (c.status == Unknown <==> current.Stable? && releases == [])
            && (c.status == Ahead <==>
                (current.Stable? && releases != []
                 && forall i :: 0 <= i < |releases| ==> Gt(current.version, releases[i].document.version)))
            && (c.status == UnknownBuild <==> c.status !in {InvalidBuild, Unknown, Ahead})
  {
    if releases != [] && current.Stable? && Gt(current.version, releases[|releases| - 1].document.version) {
      forall i | 0 <= i < |releases|
        ensures Gt(current.version, releases[i].document.version)
      {
        if i < |releases| - 1 {
          assert Gt(releases[|releases| - 1].document.version, releases[i].document.version);
        }
      }
    }
  }

  // ---------- The response ----------

  datatype ResponseRelease = ResponseRelease(
    document: Document, securityApplicable: bool, highest: Option<Severity>, acknowledged: bool)

  datatype Response = Response(
    status: Status, latest: Option<Version>, updateCount: nat, securityUpdateCount: nat,
    highest: Option<Severity>, releases: seq<ResponseRelease>)

  // An acknowledgement of one user, for the installed version it was given under.
  datatype Acknowledgement = Acknowledgement(installed: VersionText, version: Version, revision: nat)

  function OwnSeverity(release: Release, current: Version, sat: Satisfies): Option<Severity> {
    ReduceSeverity(ApplicableAdvisories(release.document.security, current, sat))
  }

  function DescribeRelease(release: Release, current: VersionText, acknowledgements: set<Acknowledgement>, sat: Satisfies): ResponseRelease
    requires current.Stable?
  {
    var applicable := ApplicableAdvisories(release.document.security, current.version, sat);
    ResponseRelease(
      release.document, |applicable| > 0, OwnSeverity(release, current.version, sat),
      Acknowledgement(current, release.document.version, release.document.revision) in acknowledgements)
  }

  function SecurityCount(releases: seq<ResponseRelease>): nat {
    if releases == [] then 0
    else (if releases[0].securityApplicable then 1 else 0) + SecurityCount(releases[1..])
  }

  function BuildResponse(current: VersionText, releases: seq<Release>, acknowledgements: set<Acknowledgement>, sat: Satisfies): Response {
    var c := Compare(current, releases, sat);
    var described :=
      if current.Stable? then seq(|c.releases|, i requires 0 <= i < |c.releases| => DescribeRelease(c.releases[i], current, acknowledgements, sat))
      else [];
    Response(c.status, c.latest, |described|, SecurityCount(described), c.highest, described)
  }

  lemma {:induction false} SecurityCountPositive(releases: seq<ResponseRelease>)
    ensures SecurityCount(releases) > 0 <==> exists i :: 0 <= i < |releases| && releases[i].securityApplicable
  {
    if releases != [] {
      SecurityCountPositive(releases[1..]);
      if i :| 0 <= i < |releases| && releases[i].securityApplicable {
        if i > 0 {
          assert releases[1..][i - 1].securityApplicable;
        }
      }
    }
  }

  lemma {:induction false} SecurityCountIs(releases: seq<ResponseRelease>)
    ensures SecurityCount(releases) == |set i | 0 <= i < |releases| && releases[i].securityApplicable|
  {
    var n := |releases|;
    var counted := set i | 0 <= i < n && releases[i].securityApplicable;
    if n > 0 {
      SecurityCountIs(releases[1..]);
      var rest := set i | 0 <= i < n - 1 && releases[1..][i].securityApplicable;
      var moved := set i | i in rest :: i + 1;
      ShiftedSize(rest);
      var first: set<int> := if releases[0].securityApplicable then {0} else {};
      forall i ensures i in counted <==> i in first + moved {
        if i in counted && i > 0 {
          assert releases[1..][i - 1].securityApplicable;
          assert i - 1 in rest;
        }
      }
      assert counted == first + moved && first !! moved;
    }
  }

  lemma NotEmpty(s: set<int>)
    ensures s == {} || exists x :: x in s
  {
    assert (forall x :: x !in s) ==> s == {};
  }

  lemma {:induction false} ShiftedSize(s: set<int>)
    ensures |set i | i in s :: i + 1| == |s|
  {
    NotEmpty(s);
    var t := set i | i in s :: i + 1;
    if s == {} {
      assert t == {};
    } else {
      var x :| x in s;
      ShiftedSize(s - {x});
      var rest := set i | i in s - {x} :: i + 1;
      forall y ensures y in rest <==> y in t - {x + 1} {
        assert y in t <==> y - 1 in s;
        assert y in rest <==> y - 1 in s - {x};
      }
      assert rest == t - {x + 1} && x + 1 in t;
    }
  }

  // `h` is the highest of the severities of the response's own releases.
  ghost predicate IsHighestOf(h: Option<Severity>, releases: seq<ResponseRelease>) {
    match h
    case None => forall i :: 0 <= i < |releases| ==> releases[i].highest.None?
    case Some(s) =>
      && (exists i :: 0 <= i < |releases| && releases[i].highest == h)
      && forall i :: 0 <= i < |releases| && releases[i].highest.Some? ==> releases[i].highest.value.Order() <= s.Order()
  }

  // The badge of the whole response agrees with the badges of its releases, although the two are
  // computed by different reductions, and the status with the count of security releases; a release
  // counts as acknowledged when that very revision was, under the installed version.
  lemma ResponseIsConsistent(current: VersionText, releases: seq<Release>, acknowledgements: set<Acknowledgement>, sat: Satisfies)
    ensures var r := BuildResponse(current, releases, acknowledgements, sat);
            && IsHighestOf(r.highest, r.releases)
            && (r.status == SecurityUpdateAvailable <==> r.securityUpdateCount > 0)
            && r.updateCount == |r.releases| == |Compare(current, releases, sat).releases|
            && (forall i :: 0 <= i < |r.releases| ==> current.Stable? && r.releases[i].document == Compare(current, releases, sat).releases[i].document)
            && (forall i :: 0 <= i < |r.releases| ==>
                  (r.releases[i].acknowledged <==>
                     Acknowledgement(current, r.releases[i].document.version, r.releases[i].document.revision) in acknowledgements))
            && r.securityUpdateCount == |set i | 0 <= i < |r.releases| && r.releases[i].securityApplicable|
  {
    hide SecurityCount, IsHighest, Outstanding, ReduceSeverity, AllApplicable, ApplicableAdvisories, Listed;
    var c := Compare(current, releases, sat);
    var r := BuildResponse(current, releases, acknowledgements, sat);
    SecurityCountPositive(r.releases);
    SecurityCountIs(r.releases);
    if current.Stable? {
      OverallHighest(c.releases, current.version, sat);
      forall i | 0 <= i < |r.releases|
        ensures r.releases[i].highest == OwnSeverity(c.releases[i], current.version, sat)
        ensures r.releases[i].securityApplicable <==> r.releases[i].highest.Some?
      {
        OwnSeverityPresent(c.releases[i], current.version, sat);
      }
      NoReleasesNoSeverity(current.version, sat);
      assert c.highest == HighestSeverity(c.releases, current.version, sat);
    }
  }

  lemma NoReleasesNoSeverity(current: Version, sat: Satisfies)
    ensures HighestSeverity([], current, sat) == None
  {
  }

  lemma OwnSeverityPresent(release: Release, current: Version, sat: Satisfies)
    ensures OwnSeverity(release, current, sat).Some? <==> |ApplicableAdvisories(release.document.security, current, sat)| > 0
  {
    ReduceSeverityIsHighest(ApplicableAdvisories(release.document.security, current, sat));
  }

  // The highest severity over all releases is the highest of the releases' own.
  lemma OverallHighest(releases: seq<Release>, current: Version, sat: Satisfies)
    ensures var h := HighestSeverity(releases, current, sat);
            && (forall i :: 0 <= i < |releases| && OwnSeverity(releases[i], current, sat).Some? ==>
                 h.Some? && OwnSeverity(releases[i], current, sat).value.Order() <= h.value.Order())
            && (h.Some? ==> exists i :: 0 <= i < |releases| && OwnSeverity(releases[i], current, sat) == h)
  {
    var h := HighestSeverity(releases, current, sat);
    forall i | 0 <= i < |releases| && OwnSeverity(releases[i], current, sat).Some?
      ensures h.Some? && OwnSeverity(releases[i], current, sat).value.Order() <= h.value.Order()
    {
      OwnIsBelow(releases, i, current, sat);
    }
    if h.Some? {
      var i := HighestIsOwn(releases, current, sat);
    }
  }

  lemma OwnIsBelow(releases: seq<Release>, i: nat, current: Version, sat: Satisfies)
    requires i < |releases| && OwnSeverity(releases[i], current, sat).Some?
    ensures var h := HighestSeverity(releases, current, sat);
            h.Some? && OwnSeverity(releases[i], current, sat).value.Order() <= h.value.Order()
  {
    var applicable := ApplicableAdvisories(releases[i].document.security, current, sat);
    ReduceSeverityIsHighest(AllApplicable(releases, current, sat));
    ReduceSeverityIsHighest(applicable);
    var a :| a in applicable && a.severity == ReduceSeverity(applicable).value;
    ApplicableMembers(releases[i].document.security, current, sat, a);
    AllApplicableMembers(releases, current, sat, a);
  }

  lemma HighestIsOwn(releases: seq<Release>, current: Version, sat: Satisfies) returns (i: nat)
    requires HighestSeverity(releases, current, sat).Some?
    ensures i < |releases| && OwnSeverity(releases[i], current, sat) == HighestSeverity(releases, current, sat)
  {
    var h := HighestSeverity(releases, current, sat);
    ReduceSeverityIsHighest(AllApplicable(releases, current, sat));
    var a :| a in AllApplicable(releases, current, sat) && a.severity == h.value;
    AllApplicableMembers(releases, current, sat, a);
    i :| 0 <= i < |releases| && a in releases[i].document.security && Applicable(a, current, sat);
    ApplicableMembers(releases[i].document.security, current, sat, a);
    ReduceSeverityIsHighest(ApplicableAdvisories(releases[i].document.security, current, sat));
    OwnIsBelow(releases, i, current, sat);
    assert OwnSeverity(releases[i], current, sat).value.Order() == h.value.Order();
  }
}
