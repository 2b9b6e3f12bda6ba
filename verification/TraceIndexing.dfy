/**
 * The derived graph index (crates/core/src/index.rs): a fold of the event stream into orgs,
 * projects, missions, sessions, artifacts and files, with the edges between them. The functions
 * say what each event makes of a graph value; `TraceIndex` updates its maps in place to match.
 */
module TraceIndexing {
  import opened Base
  import opened Events

  datatype Org = Org(
    name: Option<string>, description: Option<string>,
    projectIds: set<string>, repoContextIds: set<string>,
    createdAt: Instant, lastEventAt: Instant)

  datatype Project = Project(
    orgId: Option<string>, name: Option<string>, description: Option<string>,
    missionIds: set<string>, repoContextIds: set<string>,
    createdAt: Instant, lastEventAt: Instant)

  datatype Mission = Mission(
    projectId: Option<string>, title: Option<string>, description: Option<string>, status: MissionStatus,
    sessionIds: set<string>, artifactIds: set<string>, repoContextIds: set<string>,
    createdAt: Instant, lastEventAt: Instant)

  datatype Session = Session(
    name: Option<string>, actor: Actor,
    missionIds: set<string>, artifactIds: set<string>, logRefIds: set<string>, repoContextIds: set<string>,
    startedAt: Instant, lastEventAt: Instant)

  datatype Artifact = Artifact(
    kind: Option<string>, title: Option<string>, body: Option<string>,
    missionIds: set<string>, sessionIds: set<string>, filePaths: set<string>,
    attachmentIds: set<string>, diffIds: set<EventId>, repoContextIds: set<string>,
    createdAt: Instant, lastEventAt: Instant)

  datatype Attachment = Attachment(
    artifactId: string, sessionId: Option<string>, name: string, repoContextId: Option<string>, uploadedAt: Instant)

  datatype SessionLog = SessionLog(sessionId: string, repoContextId: Option<string>, uploadedAt: Instant)

  datatype Diff = Diff(
    artifactId: string, sessionId: Option<string>, missionId: Option<string>, target: DiffTarget,
    fileCount: nat, additions: nat, deletions: nat, binaryFileCount: nat,
    repoContextId: Option<string>, capturedAt: Instant, fileChanges: seq<FileChange>)

  /** A file ref is recorded under its own id, or under the id of the diff that implies it. */
  datatype RefId = Recorded(id: string) | OfDiff(diffId: EventId)

  datatype FileRef = FileRef(
    refId: RefId, artifactId: string, sessionId: Option<string>, repoContextId: Option<string>, recordedAt: Instant)

  datatype RepoContext = RepoContext(branch: Option<string>, headCommit: Option<string>, dirty: bool, capturedAt: Instant)

  datatype Graph = Graph(
    orgs: map<string, Org>,
    projects: map<string, Project>,
    missions: map<string, Mission>,
    sessions: map<string, Session>,
    artifacts: map<string, Artifact>,
    attachments: map<string, Attachment>,
    diffs: map<EventId, Diff>,
    logs: map<string, SessionLog>,
    files: map<string, seq<FileRef>>,
    repoContexts: map<string, RepoContext>)

  const EMPTY_GRAPH := Graph(map[], map[], map[], map[], map[], map[], map[], map[], map[], map[])

  // ---- entry().or_insert_with(): the stored entity or a blank one ----

  function OrgAt(g: Graph, id: string, e: TraceEvent): Org {
    if id in g.orgs then g.orgs[id] else Org(None, None, {}, {}, e.recordedAt, e.recordedAt)
  }

  function ProjectAt(g: Graph, id: string, e: TraceEvent): Project {
    if id in g.projects then g.projects[id] else Project(None, None, None, {}, {}, e.recordedAt, e.recordedAt)
  }

  function MissionAt(g: Graph, id: string, e: TraceEvent): Mission {
    if id in g.missions then g.missions[id]
    else Mission(None, None, None, Planned, {}, {}, {}, e.recordedAt, e.recordedAt)
  }

  function SessionAt(g: Graph, id: string, e: TraceEvent): Session {
    if id in g.sessions then g.sessions[id] else Session(None, e.actor, {}, {}, {}, {}, e.recordedAt, e.recordedAt)
  }

  function ArtifactAt(g: Graph, id: string, e: TraceEvent): Artifact {
    if id in g.artifacts then g.artifacts[id]
    else Artifact(None, None, None, {}, {}, {}, {}, {}, {}, e.recordedAt, e.recordedAt)
  }

  function With(s: set<string>, o: Option<string>): set<string> {
    if o.Some? then s + {o.value} else s
  }

  function Or(o: Option<string>, otherwise: Option<string>): Option<string> {
    if o.Some? then o else otherwise
  }

  function SetOrg(g: Graph, id: string, org: Org): Graph {
    g.(orgs := g.orgs[id := org])
  }

  function SetProject(g: Graph, id: string, project: Project): Graph {
    g.(projects := g.projects[id := project])
  }

  function SetMission(g: Graph, id: string, mission: Mission): Graph {
    g.(missions := g.missions[id := mission])
  }

  function SetSession(g: Graph, id: string, session: Session): Graph {
    g.(sessions := g.sessions[id := session])
  }

  function SetArtifact(g: Graph, id: string, artifact: Artifact): Graph {
    g.(artifacts := g.artifacts[id := artifact])
  }

  function AddFileRef(g: Graph, path: string, r: FileRef): Graph {
    g.(files := g.files[path := (if path in g.files then g.files[path] else []) + [r]])
  }

  // ---- the five links ----

  function LinkProjectToOrg(g: Graph, p: string, o: string, e: TraceEvent): Graph {
    var org := OrgAt(g, o, e);
    var g1 := SetOrg(g, o, org.(projectIds := org.projectIds + {p}, lastEventAt := e.recordedAt));
    SetProject(g1, p, ProjectAt(g1, p, e).(orgId := Some(o), lastEventAt := e.recordedAt))
  }

  function LinkMissionToProject(g: Graph, m: string, p: string, e: TraceEvent): Graph {
    var project := ProjectAt(g, p, e);
    var g1 := SetProject(g, p, project.(missionIds := project.missionIds + {m}, lastEventAt := e.recordedAt));
    SetMission(g1, m, MissionAt(g1, m, e).(projectId := Some(p), lastEventAt := e.recordedAt))
  }

  function LinkSessionToMission(g: Graph, s: string, m: string, e: TraceEvent): Graph {
    var mission := MissionAt(g, m, e);
    var g1 := SetMission(g, m, mission.(sessionIds := mission.sessionIds + {s}, lastEventAt := e.recordedAt));
    var session := SessionAt(g1, s, e);
    SetSession(g1, s, session.(missionIds := session.missionIds + {m}, lastEventAt := e.recordedAt))
  }

  function LinkArtifactToMission(g: Graph, a: string, m: string, e: TraceEvent): Graph {
    var mission := MissionAt(g, m, e);
    var g1 := SetMission(g, m, mission.(artifactIds := mission.artifactIds + {a}, lastEventAt := e.recordedAt));
    var artifact := ArtifactAt(g1, a, e);
    SetArtifact(g1, a, artifact.(missionIds := artifact.missionIds + {m}, lastEventAt := e.recordedAt))
  }

  function LinkArtifactToSession(g: Graph, a: string, s: string, e: TraceEvent): Graph {
    var session := SessionAt(g, s, e);
    var g1 := SetSession(g, s, session.(artifactIds := session.artifactIds + {a}, lastEventAt := e.recordedAt));
    var artifact := ArtifactAt(g1, a, e);
    SetArtifact(g1, a, artifact.(sessionIds := artifact.sessionIds + {s}, lastEventAt := e.recordedAt))
  }

  function LinkToMissionIfAny(g: Graph, a: string, e: TraceEvent): Graph {
    if e.missionId.Some? then LinkArtifactToMission(g, a, e.missionId.value, e) else g
  }

  function LinkToSessionIfAny(g: Graph, a: string, e: TraceEvent): Graph {
    if e.sessionId.Some? then LinkArtifactToSession(g, a, e.sessionId.value, e) else g
  }

  // ---- one function per event type, for an event whose id is present and whose payload parses ----

  function OrgCreatedIn(g: Graph, o: string, p: Payload, e: TraceEvent): Graph
    requires p.OrgCreatedPayload?
  {
    var org := OrgAt(g, o, e);
    SetOrg(g, o, org.(name := Some(p.name), description := p.description,
                      repoContextIds := With(org.repoContextIds, p.repoContext), lastEventAt := e.recordedAt))
  }

  function OrgUpdatedIn(g: Graph, o: string, p: Payload, e: TraceEvent): Graph
    requires p.OrgUpdatedPayload?
  {
    var org := OrgAt(g, o, e);
    SetOrg(g, o, org.(name := Or(p.newName, org.name), description := Or(p.newDescription, org.description),
                      repoContextIds := With(org.repoContextIds, p.repoContext), lastEventAt := e.recordedAt))
  }

  function ProjectCreatedIn(g: Graph, id: string, p: Payload, e: TraceEvent): Graph
    requires p.ProjectCreatedPayload?
  {
    var project := ProjectAt(g, id, e);
    var g1 := SetProject(g, id, project.(orgId := Some(p.orgId), name := Some(p.name), description := p.description,
                         repoContextIds := With(project.repoContextIds, p.repoContext), lastEventAt := e.recordedAt));
    var g2 := LinkProjectToOrg(g1, id, p.orgId, e);
    var org := OrgAt(g2, p.orgId, e);
    SetOrg(g2, p.orgId, org.(repoContextIds := With(org.repoContextIds, p.repoContext)))
  }

  function ProjectUpdatedIn(g: Graph, id: string, p: Payload, e: TraceEvent): Graph
    requires p.ProjectUpdatedPayload?
  {
    var g1 := if p.newOrgId.Some? then LinkProjectToOrg(g, id, p.newOrgId.value, e) else g;
    var project := ProjectAt(g1, id, e);
    SetProject(g1, id, project.(orgId := Or(p.newOrgId, project.orgId), name := Or(p.newName, project.name),
                       description := Or(p.newDescription, project.description),
                       repoContextIds := With(project.repoContextIds, p.repoContext), lastEventAt := e.recordedAt))
  }

  function MissionCreatedIn(g: Graph, id: string, p: Payload, e: TraceEvent): Graph
    requires p.MissionCreatedPayload?
  {
    var g1 := LinkMissionToProject(g, id, p.projectId, e);
    var mission := MissionAt(g1, id, e);
    SetMission(g1, id, mission.(projectId := Some(p.projectId), title := Some(p.title), description := p.description,
                       status := p.status, repoContextIds := With(mission.repoContextIds, p.repoContext),
                       lastEventAt := e.recordedAt))
  }

  function MissionUpdatedIn(g: Graph, id: string, p: Payload, e: TraceEvent): Graph
    requires p.MissionUpdatedPayload?
  {
    var g1 := if p.newProjectId.Some? then LinkMissionToProject(g, id, p.newProjectId.value, e) else g;
    var mission := MissionAt(g1, id, e);
    SetMission(g1, id, mission.(projectId := Or(p.newProjectId, mission.projectId), title := Or(p.newTitle, mission.title),
                       description := Or(p.newDescription, mission.description),
                       status := if p.newStatus.Some? then p.newStatus.value else mission.status,
                       repoContextIds := With(mission.repoContextIds, p.repoContext), lastEventAt := e.recordedAt))
  }

  function SessionStartedIn(g: Graph, s: string, p: Payload, e: TraceEvent): Graph
    requires p.SessionStartedPayload?
  {
    var session := SessionAt(g, s, e);
    var g1 := SetSession(g, s, session.(name := p.sessionName, actor := e.actor,
                         repoContextIds := With(session.repoContextIds, p.repoContext), lastEventAt := e.recordedAt));
    if e.missionId.Some? then LinkSessionToMission(g1, s, e.missionId.value, e) else g1
  }

  function SessionLinkedIn(g: Graph, s: string, m: string, p: Payload, e: TraceEvent): Graph
    requires p.SessionLinkedPayload?
  {
    var g1 := LinkSessionToMission(g, s, m, e);
    var session := SessionAt(g1, s, e);
    var g2 := SetSession(g1, s, session.(repoContextIds := With(session.repoContextIds, p.repoContext)));
    var mission := MissionAt(g2, m, e);
    SetMission(g2, m, mission.(repoContextIds := With(mission.repoContextIds, p.repoContext)))
  }

  function LogUploadedIn(g: Graph, s: string, p: Payload, e: TraceEvent): Graph
    requires p.SessionLogPayload?
  {
    var g1 := g.(logs := g.logs[p.logRefId := SessionLog(s, p.repoContext, e.recordedAt)]);
    var session := SessionAt(g1, s, e);
    SetSession(g1, s, session.(logRefIds := session.logRefIds + {p.logRefId},
                      repoContextIds := With(session.repoContextIds, p.repoContext), lastEventAt := e.recordedAt))
  }

  function ArtifactCreatedIn(g: Graph, a: string, p: Payload, e: TraceEvent): Graph
    requires p.ArtifactCreatedPayload?
  {
    var artifact := ArtifactAt(g, a, e);
    var g1 := SetArtifact(g, a, artifact.(kind := Some(p.kind), title := Some(p.title), body := p.body,
                          repoContextIds := With(artifact.repoContextIds, p.repoContext), lastEventAt := e.recordedAt));
    LinkToSessionIfAny(LinkToMissionIfAny(g1, a, e), a, e)
  }

  function ArtifactUpdatedIn(g: Graph, a: string, p: Payload, e: TraceEvent): Graph
    requires p.ArtifactUpdatedPayload?
  {
    var artifact := ArtifactAt(g, a, e);
    var g1 := SetArtifact(g, a, artifact.(title := Or(p.newTitle, artifact.title), body := Or(p.newBody, artifact.body),
                          kind := Or(p.newKind, artifact.kind),
                          repoContextIds := With(artifact.repoContextIds, p.repoContext), lastEventAt := e.recordedAt));
    LinkToSessionIfAny(g1, a, e)
  }

  function ArtifactLinkedIn(g: Graph, a: string, m: string, p: Payload, e: TraceEvent): Graph
    requires p.ArtifactLinkedPayload?
  {
    var g1 := LinkArtifactToMission(g, a, m, e);
    var artifact := ArtifactAt(g1, a, e);
    var g2 := SetArtifact(g1, a, artifact.(repoContextIds := With(artifact.repoContextIds, p.repoContext)));
    var mission := MissionAt(g2, m, e);
    SetMission(g2, m, mission.(repoContextIds := With(mission.repoContextIds, p.repoContext)))
  }

  /** The path reaches the artifact only if the artifact is already indexed. */
  function FileRefIn(g: Graph, a: string, p: Payload, e: TraceEvent): Graph
    requires p.FileRefPayload?
  {
    var g1 := AddFileRef(g, p.path, FileRef(Recorded(p.fileRefId), a, e.sessionId, p.repoContext, e.recordedAt));
    var g2 :=
      if a in g1.artifacts then
        var artifact := g1.artifacts[a];
        SetArtifact(g1, a, artifact.(filePaths := artifact.filePaths + {p.path},
                           repoContextIds := With(artifact.repoContextIds, p.repoContext), lastEventAt := e.recordedAt))
      else g1;
    LinkToSessionIfAny(g2, a, e)
  }

  function AttachmentUploadedIn(g: Graph, a: string, p: Payload, e: TraceEvent): Graph
    requires p.AttachmentPayload?
  {
    var g1 := g.(attachments := g.attachments[p.attachmentId := Attachment(a, e.sessionId, p.name, p.repoContext, e.recordedAt)]);
    var artifact := ArtifactAt(g1, a, e);
    var g2 := SetArtifact(g1, a, artifact.(attachmentIds := artifact.attachmentIds + {p.attachmentId},
                          repoContextIds := With(artifact.repoContextIds, p.repoContext), lastEventAt := e.recordedAt));
    LinkToSessionIfAny(g2, a, e)
  }

  function SumAdditions(changes: seq<FileChange>): nat {
    if changes == [] then 0
    else
      var n := changes[|changes| - 1].additions;
      SumAdditions(changes[..|changes| - 1]) + (if n.Some? then n.value else 0)
  }

  function SumDeletions(changes: seq<FileChange>): nat {
    if changes == [] then 0
    else
      var n := changes[|changes| - 1].deletions;
      SumDeletions(changes[..|changes| - 1]) + (if n.Some? then n.value else 0)
  }

  predicate IsBinary(change: FileChange) {
    change.additions.None? || change.deletions.None?
  }

  function DiffOf(a: string, p: Payload, e: TraceEvent): Diff
    requires p.DiffPayload?
  {
    Diff(a, e.sessionId, e.missionId, p.target, |p.fileChanges|, SumAdditions(p.fileChanges), SumDeletions(p.fileChanges),
         |Filter(IsBinary, p.fileChanges)|, p.repoContext, e.recordedAt, p.fileChanges)
  }

  function DiffFileRef(a: string, p: Payload, e: TraceEvent): FileRef
    requires p.DiffPayload?
  {
    FileRef(OfDiff(e.eventId), a, e.sessionId, p.repoContext, e.recordedAt)
  }

  /** The changed paths of a diff, added to the artifact and to the files in order. */
  function AddDiffFiles(g: Graph, a: string, changes: seq<FileChange>, r: FileRef, e: TraceEvent): Graph {
    if changes == [] then g
    else
      var g1 := AddDiffFiles(g, a, changes[..|changes| - 1], r, e);
      var path := changes[|changes| - 1].path;
      var artifact := ArtifactAt(g1, a, e);
      AddFileRef(SetArtifact(g1, a, artifact.(filePaths := artifact.filePaths + {path})), path, r)
  }

  function DiffCapturedIn(g: Graph, a: string, p: Payload, e: TraceEvent): Graph
    requires p.DiffPayload?
  {
    var g1 := g.(diffs := g.diffs[e.eventId := DiffOf(a, p, e)]);
    var artifact := ArtifactAt(g1, a, e);
    var g2 := SetArtifact(g1, a, artifact.(diffIds := artifact.diffIds + {e.eventId},
                          repoContextIds := With(artifact.repoContextIds, p.repoContext), lastEventAt := e.recordedAt));
    var g3 := AddDiffFiles(g2, a, p.fileChanges, DiffFileRef(a, p, e), e);
    LinkToMissionIfAny(LinkToSessionIfAny(g3, a, e), a, e)
  }

  function RepoContextCapturedIn(g: Graph, id: string, p: Payload, e: TraceEvent): Graph
    requires p.RepoContextPayload?
  {
    g.(repoContexts := g.repoContexts[id := RepoContext(p.branch, p.headCommit, p.dirty, e.recordedAt)])
  }

  // ---- dispatch ----

  /** The entity ids the event type needs; an event without them is ignored before its payload is read. */
  predicate HasIds(e: TraceEvent) {
    match e.eventType
    case OrgCreated | OrgUpdated => e.orgId.Some?
    case ProjectCreated | ProjectUpdated => e.projectId.Some?
    case MissionCreated | MissionUpdated => e.missionId.Some?
    case SessionStarted | SessionLogUploaded => e.sessionId.Some?
    case SessionLinkedToMission => e.sessionId.Some? && e.missionId.Some?
    case ArtifactLinkedToMission => e.artifactId.Some? && e.missionId.Some?
    case ArtifactCreated | ArtifactUpdated | ArtifactFileRefRecorded | ArtifactAttachmentUploaded | DiffCaptured =>
      e.artifactId.Some?
    case RepoContextCaptured => e.repoContextId.Some?
    case ArtifactReviewed | ArtifactAccepted | ExternalRefLinked | SourceSessionObserved => false
  }

  /** The payload parses as the event type's. */
  predicate Parses(e: TraceEvent) {
    match e.eventType
    case OrgCreated => e.payload.OrgCreatedPayload?
    case OrgUpdated => e.payload.OrgUpdatedPayload?
    case ProjectCreated => e.payload.ProjectCreatedPayload?
    case ProjectUpdated => e.payload.ProjectUpdatedPayload?
    case MissionCreated => e.payload.MissionCreatedPayload?
    case MissionUpdated => e.payload.MissionUpdatedPayload?
    case SessionStarted => e.payload.SessionStartedPayload?
    case SessionLinkedToMission => e.payload.SessionLinkedPayload?
    case SessionLogUploaded => e.payload.SessionLogPayload?
    case ArtifactCreated => e.payload.ArtifactCreatedPayload?
    case ArtifactUpdated => e.payload.ArtifactUpdatedPayload?
    case ArtifactLinkedToMission => e.payload.ArtifactLinkedPayload?
    case ArtifactFileRefRecorded => e.payload.FileRefPayload?
    case ArtifactAttachmentUploaded => e.payload.AttachmentPayload?
    case DiffCaptured => e.payload.DiffPayload?
    case RepoContextCaptured => e.payload.RepoContextPayload?
    case ArtifactReviewed | ArtifactAccepted | ExternalRefLinked | SourceSessionObserved => true
  }

  /** An event stops the build only when it names its entity and its payload does not parse. */
  predicate Applies(e: TraceEvent) {
    HasIds(e) ==> Parses(e)
  }

  function ApplyEvent(g: Graph, e: TraceEvent): Graph
    requires Applies(e)
  {
    if !HasIds(e) then g
    else
      match e.eventType
      case OrgCreated => OrgCreatedIn(g, e.orgId.value, e.payload, e)
      case OrgUpdated => OrgUpdatedIn(g, e.orgId.value, e.payload, e)
      case ProjectCreated => ProjectCreatedIn(g, e.projectId.value, e.payload, e)
      case ProjectUpdated => ProjectUpdatedIn(g, e.projectId.value, e.payload, e)
      case MissionCreated => MissionCreatedIn(g, e.missionId.value, e.payload, e)
      case MissionUpdated => MissionUpdatedIn(g, e.missionId.value, e.payload, e)
      case SessionStarted => SessionStartedIn(g, e.sessionId.value, e.payload, e)
      case SessionLinkedToMission => SessionLinkedIn(g, e.sessionId.value, e.missionId.value, e.payload, e)
      case SessionLogUploaded => LogUploadedIn(g, e.sessionId.value, e.payload, e)
      case ArtifactCreated => ArtifactCreatedIn(g, e.artifactId.value, e.payload, e)
      case ArtifactUpdated => ArtifactUpdatedIn(g, e.artifactId.value, e.payload, e)
      case ArtifactLinkedToMission => ArtifactLinkedIn(g, e.artifactId.value, e.missionId.value, e.payload, e)
      case ArtifactFileRefRecorded => FileRefIn(g, e.artifactId.value, e.payload, e)
      case ArtifactAttachmentUploaded => AttachmentUploadedIn(g, e.artifactId.value, e.payload, e)
      case DiffCaptured => DiffCapturedIn(g, e.artifactId.value, e.payload, e)
      case RepoContextCaptured => RepoContextCapturedIn(g, e.repoContextId.value, e.payload, e)
      case _ => g
  }

  /** The graph of a stream, or the error of the first event that cannot be applied. */
  function BuildGraph(events: seq<TraceEvent>): Result<Graph> {
    if events == [] then Ok(EMPTY_GRAPH)
    else
      match BuildGraph(events[..|events| - 1])
      case Err(m) => Err(m)
      case Ok(g) =>
        var e := events[|events| - 1];
        if Applies(e) then Ok(ApplyEvent(g, e)) else Err("failed to parse payload for event")
  }
}
