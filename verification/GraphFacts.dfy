/**
 * What a graph says, as a set of facts: which entities exist and which edges join them; and what
 * an event names, whatever came before it. The built graph says exactly what its events name.
 */
module GraphFacts {
  import opened Base
  import opened Events
  import opened TraceIndexing

  datatype Fact =
    | HasOrg(org: string) | HasProject(project: string) | HasMission(mission: string)
    | HasSession(session: string) | HasArtifact(artifact: string)
    | HasAttachment(attachment: string) | HasDiff(diff: EventId) | HasLog(log: string)
    | HasFile(path: string) | HasRepoContext(context: string)
    | OrgListsProject(org: string, project: string)
    | ProjectListsMission(project: string, mission: string)
    | MissionListsSession(mission: string, session: string)
    | SessionListsMission(session: string, mission: string)
    | MissionListsArtifact(mission: string, artifact: string)
    | ArtifactListsMission(artifact: string, mission: string)
    | SessionListsArtifact(session: string, artifact: string)
    | ArtifactListsSession(artifact: string, session: string)
    | SessionListsLog(session: string, log: string)
    | ArtifactListsAttachment(artifact: string, attachment: string)
    | ArtifactListsDiff(artifact: string, diff: EventId)
    | FileRefersTo(path: string, artifact: string, ref: RefId)

  ghost predicate Refers(refs: seq<FileRef>, a: string, r: RefId) {
    exists i | 0 <= i < |refs| :: refs[i].artifactId == a && refs[i].refId == r
  }

  ghost predicate Holds(g: Graph, f: Fact) {
    match f
    case HasOrg(o) => o in g.orgs
    case HasProject(p) => p in g.projects
    case HasMission(m) => m in g.missions
    case HasSession(s) => s in g.sessions
    case HasArtifact(a) => a in g.artifacts
    case HasAttachment(x) => x in g.attachments
    case HasDiff(d) => d in g.diffs
    case HasLog(l) => l in g.logs
    case HasFile(p) => p in g.files
    case HasRepoContext(c) => c in g.repoContexts
    case OrgListsProject(o, p) => o in g.orgs && p in g.orgs[o].projectIds
    case ProjectListsMission(p, m) => p in g.projects && m in g.projects[p].missionIds
    case MissionListsSession(m, s) => m in g.missions && s in g.missions[m].sessionIds
    case SessionListsMission(s, m) => s in g.sessions && m in g.sessions[s].missionIds
    case MissionListsArtifact(m, a) => m in g.missions && a in g.missions[m].artifactIds
    case ArtifactListsMission(a, m) => a in g.artifacts && m in g.artifacts[a].missionIds
    case SessionListsArtifact(s, a) => s in g.sessions && a in g.sessions[s].artifactIds
    case ArtifactListsSession(a, s) => a in g.artifacts && s in g.artifacts[a].sessionIds
    case SessionListsLog(s, l) => s in g.sessions && l in g.sessions[s].logRefIds
    case ArtifactListsAttachment(a, x) => a in g.artifacts && x in g.artifacts[a].attachmentIds
    case ArtifactListsDiff(a, d) => a in g.artifacts && d in g.artifacts[a].diffIds
    case FileRefersTo(p, a, r) => p in g.files && Refers(g.files[p], a, r)
  }

  // ---- what an event names ----

  function ProjectOrg(p: string, o: string): set<Fact> {
    {HasProject(p), HasOrg(o), OrgListsProject(o, p)}
  }

  function MissionProject(m: string, p: string): set<Fact> {
    {HasMission(m), HasProject(p), ProjectListsMission(p, m)}
  }

  function SessionMission(s: string, m: string): set<Fact> {
    {HasSession(s), HasMission(m), MissionListsSession(m, s), SessionListsMission(s, m)}
  }

  function ArtifactMission(a: string, m: string): set<Fact> {
    {HasArtifact(a), HasMission(m), MissionListsArtifact(m, a), ArtifactListsMission(a, m)}
  }

  function ArtifactSession(a: string, s: string): set<Fact> {
    {HasArtifact(a), HasSession(s), SessionListsArtifact(s, a), ArtifactListsSession(a, s)}
  }

  function FileNamed(path: string, a: string, r: RefId): set<Fact> {
    {HasFile(path), FileRefersTo(path, a, r)}
  }

  function MissionIfAny(a: string, e: TraceEvent): set<Fact> {
    if e.missionId.Some? then ArtifactMission(a, e.missionId.value) else {}
  }

  function SessionIfAny(a: string, e: TraceEvent): set<Fact> {
    if e.sessionId.Some? then ArtifactSession(a, e.sessionId.value) else {}
  }

  function DiffFilesNamed(changes: seq<FileChange>, a: string, r: RefId): set<Fact> {
    if changes == [] then {}
    else DiffFilesNamed(changes[..|changes| - 1], a, r) + FileNamed(changes[|changes| - 1].path, a, r)
  }

  /** The entities and edges an event names: a function of the event alone. */
  function Named(e: TraceEvent): set<Fact>
    requires Applies(e)
  {
    if !HasIds(e) then {}
    else
      var p := e.payload;
      match e.eventType
      case OrgCreated | OrgUpdated => {HasOrg(e.orgId.value)}
      case ProjectCreated => ProjectOrg(e.projectId.value, p.orgId)
      case ProjectUpdated =>
        {HasProject(e.projectId.value)} + if p.newOrgId.Some? then ProjectOrg(e.projectId.value, p.newOrgId.value) else {}
      case MissionCreated => MissionProject(e.missionId.value, p.projectId)
      case MissionUpdated =>
        {HasMission(e.missionId.value)}
        + if p.newProjectId.Some? then MissionProject(e.missionId.value, p.newProjectId.value) else {}
      case SessionStarted =>
        {HasSession(e.sessionId.value)}
        + if e.missionId.Some? then SessionMission(e.sessionId.value, e.missionId.value) else {}
      case SessionLinkedToMission => SessionMission(e.sessionId.value, e.missionId.value)
      case SessionLogUploaded =>
        {HasSession(e.sessionId.value), HasLog(p.logRefId), SessionListsLog(e.sessionId.value, p.logRefId)}
      case ArtifactCreated =>
        {HasArtifact(e.artifactId.value)} + MissionIfAny(e.artifactId.value, e) + SessionIfAny(e.artifactId.value, e)
      case ArtifactUpdated => {HasArtifact(e.artifactId.value)} + SessionIfAny(e.artifactId.value, e)
      case ArtifactLinkedToMission => ArtifactMission(e.artifactId.value, e.missionId.value)
      case ArtifactFileRefRecorded =>
        FileNamed(p.path, e.artifactId.value, Recorded(p.fileRefId)) + SessionIfAny(e.artifactId.value, e)
      case ArtifactAttachmentUploaded =>
        {HasArtifact(e.artifactId.value), HasAttachment(p.attachmentId),
         ArtifactListsAttachment(e.artifactId.value, p.attachmentId)} + SessionIfAny(e.artifactId.value, e)
      case DiffCaptured =>
        {HasArtifact(e.artifactId.value), HasDiff(e.eventId), ArtifactListsDiff(e.artifactId.value, e.eventId)}
        + DiffFilesNamed(p.fileChanges, e.artifactId.value, OfDiff(e.eventId))
        + SessionIfAny(e.artifactId.value, e) + MissionIfAny(e.artifactId.value, e)
      case RepoContextCaptured => {HasRepoContext(e.repoContextId.value)}
      case _ => {}
  }

  // ---- one update of a map ----

  /** `after` says what `before` says, and `more`. */
  ghost predicate Grows(before: Graph, after: Graph, more: set<Fact>) {
    forall f :: Holds(after, f) <==> Holds(before, f) || f in more
  }

  lemma GrowsTwice(g0: Graph, g1: Graph, g2: Graph, a: set<Fact>, b: set<Fact>)
    requires Grows(g0, g1, a) && Grows(g1, g2, b)
    ensures Grows(g0, g2, a + b)
  {
  }

  // An entity gains one edge.

  lemma OrgGainsProject(g: Graph, o: string, p: string, org: Org, e: TraceEvent)
    requires org.projectIds == OrgAt(g, o, e).projectIds + {p}
    ensures Grows(g, SetOrg(g, o, org), {HasOrg(o), OrgListsProject(o, p)})
  {
  }

  lemma ProjectGainsMission(g: Graph, p: string, m: string, project: Project, e: TraceEvent)
    requires project.missionIds == ProjectAt(g, p, e).missionIds + {m}
    ensures Grows(g, SetProject(g, p, project), {HasProject(p), ProjectListsMission(p, m)})
  {
  }

  lemma MissionGainsSession(g: Graph, m: string, s: string, mission: Mission, e: TraceEvent)
    requires mission.sessionIds == MissionAt(g, m, e).sessionIds + {s}
    requires mission.artifactIds == MissionAt(g, m, e).artifactIds
    ensures Grows(g, SetMission(g, m, mission), {HasMission(m), MissionListsSession(m, s)})
  {
  }

  lemma MissionGainsArtifact(g: Graph, m: string, a: string, mission: Mission, e: TraceEvent)
    requires mission.sessionIds == MissionAt(g, m, e).sessionIds
    requires mission.artifactIds == MissionAt(g, m, e).artifactIds + {a}
    ensures Grows(g, SetMission(g, m, mission), {HasMission(m), MissionListsArtifact(m, a)})
  {
  }

  lemma SessionGainsMission(g: Graph, s: string, m: string, session: Session, e: TraceEvent)
    requires session.missionIds == SessionAt(g, s, e).missionIds + {m}
    requires session.artifactIds == SessionAt(g, s, e).artifactIds
    requires session.logRefIds == SessionAt(g, s, e).logRefIds
    ensures Grows(g, SetSession(g, s, session), {HasSession(s), SessionListsMission(s, m)})
  {
  }

  lemma SessionGainsArtifact(g: Graph, s: string, a: string, session: Session, e: TraceEvent)
    requires session.missionIds == SessionAt(g, s, e).missionIds
    requires session.artifactIds == SessionAt(g, s, e).artifactIds + {a}
    requires session.logRefIds == SessionAt(g, s, e).logRefIds
    ensures Grows(g, SetSession(g, s, session), {HasSession(s), SessionListsArtifact(s, a)})
  {
  }

  lemma SessionGainsLog(g: Graph, s: string, l: string, session: Session, e: TraceEvent)
    requires session.missionIds == SessionAt(g, s, e).missionIds
    requires session.artifactIds == SessionAt(g, s, e).artifactIds
    requires session.logRefIds == SessionAt(g, s, e).logRefIds + {l}
    ensures Grows(g, SetSession(g, s, session), {HasSession(s), SessionListsLog(s, l)})
  {
  }

  lemma ArtifactGainsMission(g: Graph, a: string, m: string, artifact: Artifact, e: TraceEvent)
    requires artifact.missionIds == ArtifactAt(g, a, e).missionIds + {m}
    requires artifact.sessionIds == ArtifactAt(g, a, e).sessionIds
    requires artifact.attachmentIds == ArtifactAt(g, a, e).attachmentIds
    requires artifact.diffIds == ArtifactAt(g, a, e).diffIds
    ensures Grows(g, SetArtifact(g, a, artifact), {HasArtifact(a), ArtifactListsMission(a, m)})
  {
  }

  lemma ArtifactGainsSession(g: Graph, a: string, s: string, artifact: Artifact, e: TraceEvent)
    requires artifact.missionIds == ArtifactAt(g, a, e).missionIds
    requires artifact.sessionIds == ArtifactAt(g, a, e).sessionIds + {s}
    requires artifact.attachmentIds == ArtifactAt(g, a, e).attachmentIds
    requires artifact.diffIds == ArtifactAt(g, a, e).diffIds
    ensures Grows(g, SetArtifact(g, a, artifact), {HasArtifact(a), ArtifactListsSession(a, s)})
  {
  }

  lemma ArtifactGainsAttachment(g: Graph, a: string, x: string, artifact: Artifact, e: TraceEvent)
    requires artifact.missionIds == ArtifactAt(g, a, e).missionIds
    requires artifact.sessionIds == ArtifactAt(g, a, e).sessionIds
    requires artifact.attachmentIds == ArtifactAt(g, a, e).attachmentIds + {x}
    requires artifact.diffIds == ArtifactAt(g, a, e).diffIds
    ensures Grows(g, SetArtifact(g, a, artifact), {HasArtifact(a), ArtifactListsAttachment(a, x)})
  {
  }

  lemma ArtifactGainsDiff(g: Graph, a: string, d: EventId, artifact: Artifact, e: TraceEvent)
    requires artifact.missionIds == ArtifactAt(g, a, e).missionIds
    requires artifact.sessionIds == ArtifactAt(g, a, e).sessionIds
    requires artifact.attachmentIds == ArtifactAt(g, a, e).attachmentIds
    requires artifact.diffIds == ArtifactAt(g, a, e).diffIds + {d}
    ensures Grows(g, SetArtifact(g, a, artifact), {HasArtifact(a), ArtifactListsDiff(a, d)})
  {
  }

  // The five links: each adds both ends and the edge, whichever of them were there.

  lemma LinkProjectToOrgGrows(g: Graph, p: string, o: string, e: TraceEvent)
    ensures Grows(g, LinkProjectToOrg(g, p, o, e), ProjectOrg(p, o))
  {
    var org := OrgAt(g, o, e).(projectIds := OrgAt(g, o, e).projectIds + {p}, lastEventAt := e.recordedAt);
    var g1 := SetOrg(g, o, org);
    var project := ProjectAt(g1, p, e).(orgId := Some(o), lastEventAt := e.recordedAt);
    OrgGainsProject(g, o, p, org, e);
    SetProjectGrows(g1, p, project, e);
    GrowsTwice(g, g1, SetProject(g1, p, project), {HasOrg(o), OrgListsProject(o, p)}, {HasProject(p)});
    assert ProjectOrg(p, o) == {HasOrg(o), OrgListsProject(o, p)} + {HasProject(p)};
  }

  lemma LinkMissionToProjectGrows(g: Graph, m: string, p: string, e: TraceEvent)
    ensures Grows(g, LinkMissionToProject(g, m, p, e), MissionProject(m, p))
  {
    var project := ProjectAt(g, p, e).(missionIds := ProjectAt(g, p, e).missionIds + {m}, lastEventAt := e.recordedAt);
    var g1 := SetProject(g, p, project);
    var mission := MissionAt(g1, m, e).(projectId := Some(p), lastEventAt := e.recordedAt);
    ProjectGainsMission(g, p, m, project, e);
    SetMissionGrows(g1, m, mission, e);
    GrowsTwice(g, g1, SetMission(g1, m, mission), {HasProject(p), ProjectListsMission(p, m)}, {HasMission(m)});
    assert MissionProject(m, p) == {HasProject(p), ProjectListsMission(p, m)} + {HasMission(m)};
  }

  lemma LinkSessionToMissionGrows(g: Graph, s: string, m: string, e: TraceEvent)
    ensures Grows(g, LinkSessionToMission(g, s, m, e), SessionMission(s, m))
  {
    var mission := MissionAt(g, m, e).(sessionIds := MissionAt(g, m, e).sessionIds + {s}, lastEventAt := e.recordedAt);
    var g1 := SetMission(g, m, mission);
    var session := SessionAt(g1, s, e).(missionIds := SessionAt(g1, s, e).missionIds + {m}, lastEventAt := e.recordedAt);
    MissionGainsSession(g, m, s, mission, e);
    SessionGainsMission(g1, s, m, session, e);
    var left, right := {HasMission(m), MissionListsSession(m, s)}, {HasSession(s), SessionListsMission(s, m)};
    GrowsTwice(g, g1, SetSession(g1, s, session), left, right);
    assert SessionMission(s, m) == left + right;
  }

  lemma LinkArtifactToMissionGrows(g: Graph, a: string, m: string, e: TraceEvent)
    ensures Grows(g, LinkArtifactToMission(g, a, m, e), ArtifactMission(a, m))
  {
    var mission := MissionAt(g, m, e).(artifactIds := MissionAt(g, m, e).artifactIds + {a}, lastEventAt := e.recordedAt);
    var g1 := SetMission(g, m, mission);
    var artifact := ArtifactAt(g1, a, e).(missionIds := ArtifactAt(g1, a, e).missionIds + {m}, lastEventAt := e.recordedAt);
    MissionGainsArtifact(g, m, a, mission, e);
    ArtifactGainsMission(g1, a, m, artifact, e);
    var left, right := {HasMission(m), MissionListsArtifact(m, a)}, {HasArtifact(a), ArtifactListsMission(a, m)};
    GrowsTwice(g, g1, SetArtifact(g1, a, artifact), left, right);
    assert ArtifactMission(a, m) == left + right;
  }

  lemma LinkArtifactToSessionGrows(g: Graph, a: string, s: string, e: TraceEvent)
    ensures Grows(g, LinkArtifactToSession(g, a, s, e), ArtifactSession(a, s))
  {
    var session := SessionAt(g, s, e).(artifactIds := SessionAt(g, s, e).artifactIds + {a}, lastEventAt := e.recordedAt);
    var g1 := SetSession(g, s, session);
    var artifact := ArtifactAt(g1, a, e).(sessionIds := ArtifactAt(g1, a, e).sessionIds + {s}, lastEventAt := e.recordedAt);
    SessionGainsArtifact(g, s, a, session, e);
    ArtifactGainsSession(g1, a, s, artifact, e);
    var left, right := {HasSession(s), SessionListsArtifact(s, a)}, {HasArtifact(a), ArtifactListsSession(a, s)};
    GrowsTwice(g, g1, SetArtifact(g1, a, artifact), left, right);
    assert ArtifactSession(a, s) == left + right;
  }

  lemma MissionIfAnyGrows(g: Graph, a: string, e: TraceEvent)
    ensures Grows(g, LinkToMissionIfAny(g, a, e), MissionIfAny(a, e))
  {
    if e.missionId.Some? {
      LinkArtifactToMissionGrows(g, a, e.missionId.value, e);
    }
  }

  lemma SessionIfAnyGrows(g: Graph, a: string, e: TraceEvent)
    ensures Grows(g, LinkToSessionIfAny(g, a, e), SessionIfAny(a, e))
  {
    if e.sessionId.Some? {
      LinkArtifactToSessionGrows(g, a, e.sessionId.value, e);
    }
  }

  // Updates of an entity that leave its edges alone.

  lemma SetOrgGrows(g: Graph, o: string, org: Org, e: TraceEvent)
    requires org.projectIds == OrgAt(g, o, e).projectIds
    ensures Grows(g, SetOrg(g, o, org), {HasOrg(o)})
  {
  }

  lemma SetProjectGrows(g: Graph, p: string, project: Project, e: TraceEvent)
    requires project.missionIds == ProjectAt(g, p, e).missionIds
    ensures Grows(g, SetProject(g, p, project), {HasProject(p)})
  {
  }

  lemma SetMissionGrows(g: Graph, m: string, mission: Mission, e: TraceEvent)
    requires mission.sessionIds == MissionAt(g, m, e).sessionIds && mission.artifactIds == MissionAt(g, m, e).artifactIds
    ensures Grows(g, SetMission(g, m, mission), {HasMission(m)})
  {
  }

  lemma SetSessionGrows(g: Graph, s: string, session: Session, e: TraceEvent)
    requires session.missionIds == SessionAt(g, s, e).missionIds
    requires session.artifactIds == SessionAt(g, s, e).artifactIds
    requires session.logRefIds == SessionAt(g, s, e).logRefIds
    ensures Grows(g, SetSession(g, s, session), {HasSession(s)})
  {
  }

  lemma SetArtifactGrows(g: Graph, a: string, artifact: Artifact, e: TraceEvent)
    requires artifact.missionIds == ArtifactAt(g, a, e).missionIds
    requires artifact.sessionIds == ArtifactAt(g, a, e).sessionIds
    requires artifact.attachmentIds == ArtifactAt(g, a, e).attachmentIds
    requires artifact.diffIds == ArtifactAt(g, a, e).diffIds
    ensures Grows(g, SetArtifact(g, a, artifact), {HasArtifact(a)})
  {
  }

  lemma RefersAppend(refs: seq<FileRef>, last: FileRef, a: string, r: RefId)
    ensures Refers(refs + [last], a, r) <==> Refers(refs, a, r) || (last.artifactId == a && last.refId == r)
  {
    var longer := refs + [last];
    assert longer[|refs|] == last;
    if i :| 0 <= i < |refs| && refs[i].artifactId == a && refs[i].refId == r {
      assert longer[i] == refs[i];
    }
  }

  lemma AddFileRefGrows(g: Graph, path: string, r: FileRef)
    ensures Grows(g, AddFileRef(g, path, r), FileNamed(path, r.artifactId, r.refId))
  {
    var g' := AddFileRef(g, path, r);
    var refs := if path in g.files then g.files[path] else [];
    forall f
      ensures Holds(g', f) <==> Holds(g, f) || f in FileNamed(path, r.artifactId, r.refId)
    {
      if f.FileRefersTo? && f.path == path {
        RefersAppend(refs, r, f.artifact, f.ref);
      }
    }
  }
}
