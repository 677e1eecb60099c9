/** The case API of the server: hiding the patient information of a case
    from users who may not or do not want to see it, building a new case
    from its series, and appending a posted revision. The database, the
    series lookup and the clock are parameters. */
module Cases {
  import opened Wrappers
  import opened PartialVolumeDescriptors

  /** A project the user can access, with the user's roles in it. */
  datatype Project = Project(projectId: string, roles: seq<string>)

  /** Patient information, kept as its fields. */
  datatype PatientInfo = PatientInfo(fields: map<string, string>)

  /** A property of a stored document that may have been deleted. */
  datatype Member<T> = Absent | Present(value: T)

  /** A series as the accessible-series lookup returns it. */
  datatype SeriesData = SeriesData(
    seriesUid: string,
    partialVolumeDescriptor: Option<Descriptor>,
    domain: string,
    patientInfo: Option<PatientInfo>)

  /** A label of a revision, kept as its JSON text. */
  type LabelDocument = string

  datatype RevisionSeries = RevisionSeries(
    seriesUid: string,
    partialVolumeDescriptor: Option<Descriptor>,
    labels: seq<LabelDocument>)

  /** A revision; `date` and `creator` are whatever a request body carried,
      and `None` when it carried nothing. */
  datatype Revision = Revision(
    creator: Option<string>,
    date: Option<string>,
    description: string,
    attributes: map<string, string>,
    status: string,
    series: seq<RevisionSeries>)

  // ---------------------------------------------------------------------------
  // maskPatientInfo and handleGet

  /** The first accessible project with the id (`accessibleProjects.find`). */
  function FindProject(projects: seq<Project>, projectId: string): (r: Option<Project>)
    ensures r.None? <==> forall i :: 0 <= i < |projects| ==> projects[i].projectId != projectId
    ensures r.Some? ==> r.value in projects && r.value.projectId == projectId
    ensures r.Some? ==> exists i :: 0 <= i < |projects| && projects[i] == r.value
                                    && forall j :: 0 <= j < i ==> projects[j].projectId != projectId
  {
    if projects == [] then None
    else if projects[0].projectId == projectId then Some(projects[0])
    else
      var r := FindProject(projects[1..], projectId);
      if r.Some? then
        var i :| 0 <= i < |projects[1..]| && projects[1..][i] == r.value
                 && forall j :: 0 <= j < i ==> projects[1..][j].projectId != projectId;
        assert projects[i + 1] == r.value;
        r
      else r
  }

  /** Whether the patient information is kept: an error when the case's
      project is not accessible, and otherwise whether the project grants
      `viewPersonalInfo` and the user wants to see it. */
  function KeepPatientInfo(projects: seq<Project>, projectId: string, wantToView: bool, userEmail: string)
    : (r: Result<bool, string>)
    ensures r.Err? <==> forall i :: 0 <= i < |projects| ==> projects[i].projectId != projectId
    ensures r.Err? ==> r.error == "Project " + projectId + " is not accessbible by " + userEmail + "."
    ensures r == Ok(true) ==> wantToView
  {
    match FindProject(projects, projectId)
    case None => Err("Project " + projectId + " is not accessbible by " + userEmail + ".")
    case Some(project) => Ok("viewPersonalInfo" in project.roles && wantToView)
  }

  predicate UniqueProjectIds(projects: seq<Project>)
  {
    forall i, j :: 0 <= i < j < |projects| ==> projects[i].projectId != projects[j].projectId
  }

  /** With one entry per project, the information is kept exactly when the
      user wants it and the case's project grants `viewPersonalInfo`. */
  lemma {:induction false} KeepIffViewable(projects: seq<Project>, projectId: string, wantToView: bool, userEmail: string)
    requires UniqueProjectIds(projects)
    ensures KeepPatientInfo(projects, projectId, wantToView, userEmail) == Ok(true) <==>
      wantToView && exists i :: 0 <= i < |projects| && projects[i].projectId == projectId && "viewPersonalInfo" in projects[i].roles
  {
    if projects != [] && projects[0].projectId != projectId {
      assert UniqueProjectIds(projects[1..]);
      KeepIffViewable(projects[1..], projectId, wantToView, userEmail);
      if exists i :: 0 <= i < |projects| && projects[i].projectId == projectId && "viewPersonalInfo" in projects[i].roles {
        var i :| 0 <= i < |projects| && projects[i].projectId == projectId && "viewPersonalInfo" in projects[i].roles;
        assert projects[1..][i - 1] == projects[i];
      }
    } else if projects != [] {
      forall i | 0 < i < |projects|
        ensures projects[i].projectId != projectId
      {
      }
    }
  }

  /** A stored case document as the request context holds it. */
  class CaseDocument {
    var caseId: string
    var projectId: string
    var patientInfoCache: Member<Option<PatientInfo>>
    var latestRevision: Member<Revision>
    var revisions: seq<Revision>
    var tags: seq<string>
    var domains: seq<string>

    constructor(caseId: string, projectId: string, patientInfoCache: Member<Option<PatientInfo>>,
                latestRevision: Member<Revision>, revisions: seq<Revision>, tags: seq<string>, domains: seq<string>)
      ensures this.caseId == caseId && this.projectId == projectId && this.patientInfoCache == patientInfoCache
      ensures this.latestRevision == latestRevision && this.revisions == revisions
      ensures this.tags == tags && this.domains == domains
    {
      this.caseId := caseId;
      this.projectId := projectId;
      this.patientInfoCache := patientInfoCache;
      this.latestRevision := latestRevision;
      this.revisions := revisions;
      this.tags := tags;
      this.domains := domains;
    }

    /** `maskPatientInfo(ctx)(caseData)`: deletes `patientInfoCache` unless
        it may be kept, and touches nothing else; throws for a case whose
        project is not accessible. */
    method MaskPatientInfo(accessibleProjects: seq<Project>, wantToView: bool, userEmail: string) returns (r: Outcome<string>)
      modifies this
      ensures var keep := KeepPatientInfo(accessibleProjects, old(projectId), wantToView, userEmail);
        (keep.Err? ==> r == Fail(keep.error) && patientInfoCache == old(patientInfoCache))
        && (keep == Ok(true) ==> r == Pass && patientInfoCache == old(patientInfoCache))
        && (keep == Ok(false) ==> r == Pass && patientInfoCache == Absent)
      ensures caseId == old(caseId) && projectId == old(projectId) && latestRevision == old(latestRevision)
      ensures revisions == old(revisions) && tags == old(tags) && domains == old(domains)
    {
      var keep := KeepPatientInfo(accessibleProjects, projectId, wantToView, userEmail);
      if keep.Err? {
        return Fail(keep.error);
      }
      if !keep.value {
        patientInfoCache := Absent;
      }
      r := Pass;
    }

    /** `handleGet`: the redundant `latestRevision` is deleted first, then
        the patient information is masked. */
    method HandleGet(accessibleProjects: seq<Project>, wantToView: bool, userEmail: string) returns (r: Outcome<string>)
      modifies this
      ensures latestRevision == Absent
      ensures var keep := KeepPatientInfo(accessibleProjects, old(projectId), wantToView, userEmail);
        (keep.Err? ==> r == Fail(keep.error) && patientInfoCache == old(patientInfoCache))
        && (keep == Ok(true) ==> r == Pass && patientInfoCache == old(patientInfoCache))
        && (keep == Ok(false) ==> r == Pass && patientInfoCache == Absent)
      ensures caseId == old(caseId) && projectId == old(projectId)
      ensures revisions == old(revisions) && tags == old(tags) && domains == old(domains)
    {
      latestRevision := Absent;
      r := MaskPatientInfo(accessibleProjects, wantToView, userEmail);
    }
  }

  // ---------------------------------------------------------------------------
  // makeNewCase

  /** Some accessible project has the id and the `write` role. */
  predicate CanWrite(projects: seq<Project>, projectId: string)
  {
    exists i :: 0 <= i < |projects| && "write" in projects[i].roles && projects[i].projectId == projectId
  }

  /** Series `i` is the first with patient information. */
  predicate FirstWithInfo(series: seq<SeriesData>, i: nat)
  {
    i < |series| && series[i].patientInfo.Some? && forall j :: 0 <= j < i ==> series[j].patientInfo.None?
  }

  /** The patient information of the first series that has one. */
  function FirstPatientInfo(series: seq<SeriesData>): (r: Option<PatientInfo>)
    ensures r.None? <==> forall i :: 0 <= i < |series| ==> series[i].patientInfo.None?
    ensures r.Some? ==> exists i: nat :: FirstWithInfo(series, i) && series[i].patientInfo == r
  {
    if series == [] then None
    else if series[0].patientInfo.Some? then
      assert FirstWithInfo(series, 0);
      series[0].patientInfo
    else
      var r := FirstPatientInfo(series[1..]);
      assert r.Some? ==> exists i: nat :: FirstWithInfo(series, i) && series[i].patientInfo == r by {
        if r.Some? {
          var i: nat :| FirstWithInfo(series[1..], i) && series[1..][i].patientInfo == r;
          forall j | 0 <= j < i + 1
            ensures series[j].patientInfo.None?
          {
            if j > 0 {
              assert series[j] == series[1..][j - 1];
            }
          }
          assert FirstWithInfo(series, i + 1);
        }
      }
      r
  }

  function DomainSet(series: seq<SeriesData>): set<string>
  {
    set i | 0 <= i < |series| :: series[i].domain
  }

  predicate NoDuplicates(s: seq<string>)
  {
    forall i, j :: 0 <= i < j < |s| ==> s[i] != s[j]
  }

  /** `Object.keys(domains)` after `domains[i.domain] = true` for every
      series: each domain once. */
  method CollectDomains(series: seq<SeriesData>) returns (domains: seq<string>)
    ensures NoDuplicates(domains)
    ensures forall d :: d in domains <==> d in DomainSet(series)
  {
    var seen: map<string, bool> := map[];
    domains := [];
    var i := 0;
    while i < |series|
      invariant 0 <= i <= |series|
      invariant NoDuplicates(domains)
      invariant forall d :: d in domains <==> d in seen
      invariant forall d :: d in seen <==> exists j :: 0 <= j < i && series[j].domain == d
    {
      var domain := series[i].domain;
      if domain !in seen {
        domains := domains + [domain];
      }
      seen := seen[domain := true];
      i := i + 1;
    }
  }

  /** A case as `makeNewCase` inserts it. */
  datatype ClinicalCase = ClinicalCase(
    caseId: string,
    projectId: string,
    patientInfoCache: Option<PatientInfo>,
    tags: seq<string>,
    latestRevision: Revision,
    revisions: seq<Revision>,
    domains: seq<string>)

  /** What the new case holds: a single draft revision by the user, with one
      entry with no labels per series, in order, that is also the latest
      revision; each domain of the series once; and the first patient
      information found. */
  ghost predicate NewCaseOf(c: ClinicalCase, caseId: string, userEmail: string, now: string, projectId: string,
                      series: seq<SeriesData>, tags: seq<string>)
  {
    c.caseId == caseId && c.projectId == projectId && c.tags == tags
    && c.patientInfoCache == FirstPatientInfo(series)
    && c.revisions == [c.latestRevision]
    && c.latestRevision.status == "draft"
    && c.latestRevision.creator == Some(userEmail) && c.latestRevision.date == Some(now)
    && c.latestRevision.description == "Created new case." && c.latestRevision.attributes == map[]
    && |c.latestRevision.series| == |series|
    && (forall i :: 0 <= i < |series| ==>
          c.latestRevision.series[i] == RevisionSeries(series[i].seriesUid, series[i].partialVolumeDescriptor, []))
    && NoDuplicates(c.domains)
    && (forall d :: d in c.domains <==> d in DomainSet(series))
  }

  /** `makeNewCase`, with the generated id, the time and the accessible
      series (the result of the lookup) as parameters. */
  method MakeNewCase(caseId: string, userEmail: string, now: string, accessibleProjects: seq<Project>,
                     projectId: string, series: seq<SeriesData>, tags: seq<string>)
    returns (r: Result<ClinicalCase, string>)
    ensures r.Err? <==> !CanWrite(accessibleProjects, projectId)
    ensures r.Err? ==> r.error == "You do not have write privilege for this project."
    ensures r.Ok? ==> NewCaseOf(r.value, caseId, userEmail, now, projectId, series, tags)
  {
    if !CanWrite(accessibleProjects, projectId) {
      return Err("You do not have write privilege for this project.");
    }
    var patientInfoCache := FirstPatientInfo(series);
    var domains := CollectDomains(series);
    var revision := Revision(Some(userEmail), Some(now), "Created new case.", map[], "draft",
      seq(|series|, i requires 0 <= i < |series| =>
        RevisionSeries(series[i].seriesUid, series[i].partialVolumeDescriptor, [])));
    r := Ok(ClinicalCase(caseId, projectId, patientInfoCache, tags, revision, [revision], domains));
  }

  // ---------------------------------------------------------------------------
  // handlePostRevision

  /** A truthy request value: present and not the empty string. */
  predicate Truthy(v: Option<string>)
  {
    v.Some? && v.value != ""
  }

  datatype HttpError = HttpError(status: int, message: string)

  const BadRequest := 400

  /** The case's new revision history. */
  datatype CaseUpdate = CaseUpdate(latestRevision: Revision, revisions: seq<Revision>)

  /** `handlePostRevision`: a body that names its own date or creator is
      refused (the date is checked first); otherwise it is stamped with the
      time and the user and appended as the latest revision. */
  function PostRevision(revisions: seq<Revision>, rev: Revision, now: string, userEmail: string)
    : (r: Result<CaseUpdate, HttpError>)
    ensures r.Ok? <==> !Truthy(rev.date) && !Truthy(rev.creator)
    ensures Truthy(rev.date) ==> r == Err(HttpError(BadRequest, "You cannot specify revision date."))
    ensures !Truthy(rev.date) && Truthy(rev.creator) ==> r == Err(HttpError(BadRequest, "You cannot specify revision creator."))
    ensures r.Ok? ==>
      |r.value.revisions| == |revisions| + 1 && r.value.revisions[..|revisions|] == revisions
      && r.value.revisions[|revisions|] == r.value.latestRevision
      && r.value.latestRevision.date == Some(now) && r.value.latestRevision.creator == Some(userEmail)
      && r.value.latestRevision.(date := rev.date, creator := rev.creator) == rev
  {
    if Truthy(rev.date) then Err(HttpError(BadRequest, "You cannot specify revision date."))
    else if Truthy(rev.creator) then Err(HttpError(BadRequest, "You cannot specify revision creator."))
    else
      var stamped := rev.(date := Some(now), creator := Some(userEmail));
      Ok(CaseUpdate(stamped, revisions + [stamped]))
  }

  /** An empty date or creator is not truthy, so it is overwritten rather
      than refused. */
  lemma EmptyStampsAccepted(revisions: seq<Revision>, rev: Revision, now: string, userEmail: string)
    requires rev.date == Some("") && rev.creator == Some("")
    ensures PostRevision(revisions, rev, now, userEmail).Ok?
  {
  }

  /** Two posts append both revisions in order, the second being the latest. */
  lemma PostTwice(revisions: seq<Revision>, a: Revision, b: Revision, t1: string, t2: string, user: string)
    requires PostRevision(revisions, a, t1, user).Ok?
    requires PostRevision(PostRevision(revisions, a, t1, user).value.revisions, b, t2, user).Ok?
    ensures var first := PostRevision(revisions, a, t1, user).value;
      var second := PostRevision(first.revisions, b, t2, user).value;
      second.revisions == revisions + [first.latestRevision, second.latestRevision]
  {
    var first := PostRevision(revisions, a, t1, user).value;
    var second := PostRevision(first.revisions, b, t2, user).value;
    assert first.revisions == revisions + [first.latestRevision];
    assert second.revisions == first.revisions + [second.latestRevision];
  }
}
