/**
 * The fields of the graph that point upwards: which org a project is in, which project a mission is
 * in, and which entity owns a log, an attachment or a diff. A later event replaces the parent, and
 * the old parent goes on listing the child.
 */
module GraphParents {
  import opened Base
  import opened Events
  import opened TraceIndexing
  import opened GraphFacts
  import opened GraphSteps

  datatype Child =
    | ProjectChild(project: string) | MissionChild(mission: string) | LogChild(log: string)
    | AttachmentChild(attachment: string) | DiffChild(diff: EventId)

  /** The parent the graph records for a child, if any. */
  function ParentOf(g: Graph, c: Child): Option<string> {
    match c
    case ProjectChild(p) => if p in g.projects then g.projects[p].orgId else None
    case MissionChild(m) => if m in g.missions then g.missions[m].projectId else None
    case LogChild(l) => if l in g.logs then Some(g.logs[l].sessionId) else None
    case AttachmentChild(x) => if x in g.attachments then Some(g.attachments[x].artifactId) else None
    case DiffChild(d) => if d in g.diffs then Some(g.diffs[d].artifactId) else None
  }

  /** "The parent lists the child". */
  function Lists(parent: string, c: Child): Fact {
    match c
    case ProjectChild(p) => OrgListsProject(parent, p)
    case MissionChild(m) => ProjectListsMission(parent, m)
    case LogChild(l) => SessionListsLog(parent, l)
    case AttachmentChild(x) => ArtifactListsAttachment(parent, x)
    case DiffChild(d) => ArtifactListsDiff(parent, d)
  }

  /** The parent an event names for a child, if any. */
  function ParentNamed(e: TraceEvent, c: Child): Option<string>
    requires Applies(e)
  {
    if !HasIds(e) then None
    else
      var p := e.payload;
      match e.eventType
      case ProjectCreated => if c == ProjectChild(e.projectId.value) then Some(p.orgId) else None
      case ProjectUpdated => if c == ProjectChild(e.projectId.value) then p.newOrgId else None
      case MissionCreated => if c == MissionChild(e.missionId.value) then Some(p.projectId) else None
      case MissionUpdated => if c == MissionChild(e.missionId.value) then p.newProjectId else None
      case SessionLogUploaded => if c == LogChild(p.logRefId) then e.sessionId else None
      case ArtifactAttachmentUploaded => if c == AttachmentChild(p.attachmentId) then e.artifactId else None
      case DiffCaptured => if c == DiffChild(e.eventId) then e.artifactId else None
      case _ => None
  }

  /** Naming a parent and naming its list entry are the same thing. */
  lemma ParentNamedIsListed(e: TraceEvent, c: Child, parent: string)
    requires Applies(e)
    ensures Lists(parent, c) in Named(e) <==> ParentNamed(e, c) == Some(parent)
  {
    if HasIds(e) {
      if e.eventType == DiffCaptured {
        ParentNotAmongFiles(e.payload.fileChanges, e.artifactId.value, OfDiff(e.eventId), c, parent);
      }
    }
  }

  lemma {:induction false} ParentNotAmongFiles(changes: seq<FileChange>, a: string, r: RefId, c: Child, parent: string)
    ensures Lists(parent, c) !in DiffFilesNamed(changes, a, r)
  {
    if changes != [] {
      ParentNotAmongFiles(changes[..|changes| - 1], a, r, c, parent);
    }
  }

  // ---- one event ----

  lemma ArtifactLinkKeepsParent(g: Graph, a: string, m: string, e: TraceEvent, c: Child)
    ensures ParentOf(LinkArtifactToMission(g, a, m, e), c) == ParentOf(g, c)
  {
  }

  lemma LinksKeepParent(g: Graph, a: string, e: TraceEvent, c: Child)
    ensures ParentOf(LinkToSessionIfAny(g, a, e), c) == ParentOf(g, c)
    ensures ParentOf(LinkToMissionIfAny(g, a, e), c) == ParentOf(g, c)
  {
    if e.missionId.Some? {
      ArtifactLinkKeepsParent(g, a, e.missionId.value, e, c);
    }
  }

  lemma SessionLinkKeepsParent(g: Graph, s: string, m: string, e: TraceEvent, c: Child)
    ensures ParentOf(LinkSessionToMission(g, s, m, e), c) == ParentOf(g, c)
  {
  }

  lemma {:induction false} DiffFilesKeepParent(g: Graph, a: string, changes: seq<FileChange>, r: FileRef, e: TraceEvent, c: Child)
    ensures ParentOf(AddDiffFiles(g, a, changes, r, e), c) == ParentOf(g, c)
  {
    if changes != [] {
      DiffFilesKeepParent(g, a, changes[..|changes| - 1], r, e, c);
    }
  }

  /** An event sets exactly the parents it names. */
  lemma ApplySetsParent(g: Graph, e: TraceEvent, c: Child)
    requires Applies(e)
    ensures ParentOf(ApplyEvent(g, e), c)
         == if ParentNamed(e, c).Some? then ParentNamed(e, c) else ParentOf(g, c)
  {
    if HasIds(e) {
      if e.artifactId.Some? && (e.eventType == ArtifactCreated || e.eventType == ArtifactUpdated
         || e.eventType == ArtifactLinkedToMission || e.eventType == ArtifactFileRefRecorded
         || e.eventType == ArtifactAttachmentUploaded || e.eventType == DiffCaptured) {
        ArtifactEventSetsParent(g, e, c);
      } else {
        OtherEventSetsParent(g, e, c);
      }
    }
  }

  lemma ArtifactEventSetsParent(g: Graph, e: TraceEvent, c: Child)
    requires HasIds(e) && Applies(e)
    requires e.eventType == ArtifactCreated || e.eventType == ArtifactUpdated
          || e.eventType == ArtifactLinkedToMission || e.eventType == ArtifactFileRefRecorded
          || e.eventType == ArtifactAttachmentUploaded || e.eventType == DiffCaptured
    ensures ParentOf(ApplyEvent(g, e), c)
         == if ParentNamed(e, c).Some? then ParentNamed(e, c) else ParentOf(g, c)
  {
    var p, a := e.payload, e.artifactId.value;
    if e.eventType == DiffCaptured {
      DiffSetsParent(g, a, p, e, c);
    } else if e.eventType == ArtifactCreated {
      ArtifactCreatedKeepsParent(g, a, p, e, c);
    } else if e.eventType == ArtifactFileRefRecorded {
      FileRefKeepsParent(g, a, p, e, c);
    } else if e.eventType == ArtifactUpdated {
      ArtifactUpdatedKeepsParent(g, a, p, e, c);
    } else if e.eventType == ArtifactAttachmentUploaded {
      AttachmentSetsParent(g, a, p, e, c);
    } else {
      ArtifactLinkedKeepsParent(g, a, e.missionId.value, p, e, c);
    }
  }

  lemma ArtifactUpdatedKeepsParent(g: Graph, a: string, p: Payload, e: TraceEvent, c: Child)
    requires p.ArtifactUpdatedPayload?
    ensures ParentOf(ArtifactUpdatedIn(g, a, p, e), c) == ParentOf(g, c)
  {
  }

  lemma AttachmentSetsParent(g: Graph, a: string, p: Payload, e: TraceEvent, c: Child)
    requires p.AttachmentPayload?
    ensures ParentOf(AttachmentUploadedIn(g, a, p, e), c)
         == if c == AttachmentChild(p.attachmentId) then Some(a) else ParentOf(g, c)
  {
    var g1 := g.(attachments := g.attachments[p.attachmentId := Attachment(a, e.sessionId, p.name, p.repoContext, e.recordedAt)]);
    var artifact := ArtifactAt(g1, a, e);
    LinksKeepParent(SetArtifact(g1, a, artifact.(attachmentIds := artifact.attachmentIds + {p.attachmentId},
                     repoContextIds := With(artifact.repoContextIds, p.repoContext), lastEventAt := e.recordedAt)), a, e, c);
  }

  lemma ArtifactLinkedKeepsParent(g: Graph, a: string, m: string, p: Payload, e: TraceEvent, c: Child)
    requires p.ArtifactLinkedPayload?
    ensures ParentOf(ArtifactLinkedIn(g, a, m, p, e), c) == ParentOf(g, c)
  {
  }

  lemma ArtifactCreatedKeepsParent(g: Graph, a: string, p: Payload, e: TraceEvent, c: Child)
    requires p.ArtifactCreatedPayload?
    ensures ParentOf(ArtifactCreatedIn(g, a, p, e), c) == ParentOf(g, c)
  {
    var artifact := ArtifactAt(g, a, e);
    var g1 := SetArtifact(g, a, artifact.(kind := Some(p.kind), title := Some(p.title), body := p.body,
                          repoContextIds := With(artifact.repoContextIds, p.repoContext), lastEventAt := e.recordedAt));
    LinksKeepParent(g1, a, e, c);
    LinksKeepParent(LinkToMissionIfAny(g1, a, e), a, e, c);
  }

  lemma FileRefKeepsParent(g: Graph, a: string, p: Payload, e: TraceEvent, c: Child)
    requires p.FileRefPayload?
    ensures ParentOf(FileRefIn(g, a, p, e), c) == ParentOf(g, c)
  {
    var r := FileRef(Recorded(p.fileRefId), a, e.sessionId, p.repoContext, e.recordedAt);
    var g1 := AddFileRef(g, p.path, r);
    if a in g1.artifacts {
      var artifact := g1.artifacts[a];
      LinksKeepParent(SetArtifact(g1, a, artifact.(filePaths := artifact.filePaths + {p.path},
                       repoContextIds := With(artifact.repoContextIds, p.repoContext), lastEventAt := e.recordedAt)), a, e, c);
    } else {
      LinksKeepParent(g1, a, e, c);
    }
  }

  lemma DiffSetsParent(g: Graph, a: string, p: Payload, e: TraceEvent, c: Child)
    requires p.DiffPayload?
    ensures ParentOf(DiffCapturedIn(g, a, p, e), c) == if c == DiffChild(e.eventId) then Some(a) else ParentOf(g, c)
  {
    var g2 := DiffRecorded(g, a, p, e);
    assert ParentOf(g2, c) == if c == DiffChild(e.eventId) then Some(a) else ParentOf(g, c);
    var g3 := AddDiffFiles(g2, a, p.fileChanges, DiffFileRef(a, p, e), e);
    DiffFilesKeepParent(g2, a, p.fileChanges, DiffFileRef(a, p, e), e, c);
    LinksKeepParent(g3, a, e, c);
    LinksKeepParent(LinkToSessionIfAny(g3, a, e), a, e, c);
  }

  lemma OtherEventSetsParent(g: Graph, e: TraceEvent, c: Child)
    requires HasIds(e) && Applies(e)
    requires e.eventType != ArtifactCreated && e.eventType != ArtifactUpdated
          && e.eventType != ArtifactLinkedToMission && e.eventType != ArtifactFileRefRecorded
          && e.eventType != ArtifactAttachmentUploaded && e.eventType != DiffCaptured
    ensures ParentOf(ApplyEvent(g, e), c)
         == if ParentNamed(e, c).Some? then ParentNamed(e, c) else ParentOf(g, c)
  {
    var p := e.payload;
    if e.eventType == ProjectCreated || e.eventType == ProjectUpdated {
      ProjectEventSetsParent(g, e.projectId.value, p, e, c);
    } else if e.eventType == MissionCreated || e.eventType == MissionUpdated {
      MissionEventSetsParent(g, e.missionId.value, p, e, c);
    } else if e.eventType == SessionStarted {
      SessionStartedKeepsParent(g, e.sessionId.value, p, e, c);
    } else if e.eventType == SessionLinkedToMission {
      SessionLinkedKeepsParent(g, e.sessionId.value, e.missionId.value, p, e, c);
    } else if e.eventType == SessionLogUploaded {
      LogSetsParent(g, e.sessionId.value, p, e, c);
    }
  }

  lemma ProjectEventSetsParent(g: Graph, id: string, p: Payload, e: TraceEvent, c: Child)
    ensures p.ProjectCreatedPayload? ==>
              ParentOf(ProjectCreatedIn(g, id, p, e), c) == if c == ProjectChild(id) then Some(p.orgId) else ParentOf(g, c)
    ensures p.ProjectUpdatedPayload? ==>
              ParentOf(ProjectUpdatedIn(g, id, p, e), c)
              == if c == ProjectChild(id) && p.newOrgId.Some? then p.newOrgId else ParentOf(g, c)
  {
  }

  lemma MissionEventSetsParent(g: Graph, id: string, p: Payload, e: TraceEvent, c: Child)
    ensures p.MissionCreatedPayload? ==>
              ParentOf(MissionCreatedIn(g, id, p, e), c) == if c == MissionChild(id) then Some(p.projectId) else ParentOf(g, c)
    ensures p.MissionUpdatedPayload? ==>
              ParentOf(MissionUpdatedIn(g, id, p, e), c)
              == if c == MissionChild(id) && p.newProjectId.Some? then p.newProjectId else ParentOf(g, c)
  {
  }

  lemma SessionStartedKeepsParent(g: Graph, s: string, p: Payload, e: TraceEvent, c: Child)
    requires p.SessionStartedPayload?
    ensures ParentOf(SessionStartedIn(g, s, p, e), c) == ParentOf(g, c)
  {
    var session := SessionAt(g, s, e);
    var g1 := SetSession(g, s, session.(name := p.sessionName, actor := e.actor,
                         repoContextIds := With(session.repoContextIds, p.repoContext), lastEventAt := e.recordedAt));
    if e.missionId.Some? {
      SessionLinkKeepsParent(g1, s, e.missionId.value, e, c);
    }
  }

  lemma SessionLinkedKeepsParent(g: Graph, s: string, m: string, p: Payload, e: TraceEvent, c: Child)
    requires p.SessionLinkedPayload?
    ensures ParentOf(SessionLinkedIn(g, s, m, p, e), c) == ParentOf(g, c)
  {
  }

  lemma LogSetsParent(g: Graph, s: string, p: Payload, e: TraceEvent, c: Child)
    requires p.SessionLogPayload?
    ensures ParentOf(LogUploadedIn(g, s, p, e), c) == if c == LogChild(p.logRefId) then Some(s) else ParentOf(g, c)
  {
  }

  // ---- whole streams ----

  /** The parent named last in the stream. */
  function LastParent(events: seq<TraceEvent>, c: Child): Option<string>
    requires forall e | e in events :: Applies(e)
  {
    if events == [] then None
    else
      var last := events[|events| - 1];
      if ParentNamed(last, c).Some? then ParentNamed(last, c) else LastParent(events[..|events| - 1], c)
  }

  lemma BuildApplies(events: seq<TraceEvent>)
    requires BuildGraph(events).Ok?
    ensures forall e | e in events :: Applies(e)
  {
    BuildSaysWhatIsNamed(events);
  }

  /** A child's parent is the one the stream names last. */
  lemma {:induction false} ParentIsLastNamed(events: seq<TraceEvent>, c: Child)
    requires BuildGraph(events).Ok?
    ensures forall e | e in events :: Applies(e)
    ensures ParentOf(BuildGraph(events).value, c) == LastParent(events, c)
  {
    BuildApplies(events);
    if events != [] {
      ParentIsLastNamed(events[..|events| - 1], c);
      ApplySetsParent(BuildGraph(events[..|events| - 1]).value, events[|events| - 1], c);
    }
  }

  lemma {:induction false} LastParentIsNamed(events: seq<TraceEvent>, c: Child)
    requires forall e | e in events :: Applies(e)
    ensures LastParent(events, c).Some? ==> NamedBy(events, Lists(LastParent(events, c).value, c))
    ensures LastParent(events, c).None? ==> forall p :: !NamedBy(events, Lists(p, c))
  {
    if events != [] {
      var front, last := events[..|events| - 1], events[|events| - 1];
      assert forall e | e in events :: e in front || e == last;
      assert last in events;
      LastParentIsNamed(front, c);
      forall p
        ensures Lists(p, c) in Named(last) <==> ParentNamed(last, c) == Some(p)
      {
        ParentNamedIsListed(last, c, p);
      }
    }
  }

  /** A recorded parent exists and lists the child, in every graph a stream builds. */
  lemma ParentListsChild(events: seq<TraceEvent>, c: Child)
    requires BuildGraph(events).Ok?
    ensures var g := BuildGraph(events).value;
            ParentOf(g, c).Some? ==> Holds(g, Lists(ParentOf(g, c).value, c))
  {
    BuildSaysWhatIsNamed(events);
    ParentIsLastNamed(events, c);
    LastParentIsNamed(events, c);
  }

  /** Two events name different parents for the same child. */
  ghost predicate Reparented(events: seq<TraceEvent>, c: Child)
    requires forall e | e in events :: Applies(e)
  {
    exists e, e' | e in events && e' in events ::
      ParentNamed(e, c).Some? && ParentNamed(e', c).Some? && ParentNamed(e, c) != ParentNamed(e', c)
  }

  /**
   * The converse, that only its recorded parent lists a child, holds exactly when no event moves
   * the child: a move leaves the child on the old parent's list.
   */
  lemma OnlyParentListsChildIff(events: seq<TraceEvent>, c: Child)
    requires BuildGraph(events).Ok?
    ensures forall e | e in events :: Applies(e)
    ensures var g := BuildGraph(events).value;
            (forall p | Holds(g, Lists(p, c)) :: ParentOf(g, c) == Some(p)) <==> !Reparented(events, c)
  {
    var g := BuildGraph(events).value;
    BuildSaysWhatIsNamed(events);
    ParentIsLastNamed(events, c);
    LastParentIsNamed(events, c);
    if Reparented(events, c) {
      var e, e' :| e in events && e' in events
                && ParentNamed(e, c).Some? && ParentNamed(e', c).Some? && ParentNamed(e, c) != ParentNamed(e', c);
      NamedParentListed(events, e, c);
      NamedParentListed(events, e', c);
    } else {
      forall p | Holds(g, Lists(p, c))
        ensures ParentOf(g, c) == Some(p)
      {
        var e := NamingEvent(events, p, c);
        var q := LastParent(events, c).value;
        var e' := NamingEvent(events, q, c);
      }
    }
  }

  lemma NamedParentListed(events: seq<TraceEvent>, e: TraceEvent, c: Child)
    requires BuildGraph(events).Ok? && e in events && Applies(e) && ParentNamed(e, c).Some?
    ensures Holds(BuildGraph(events).value, Lists(ParentNamed(e, c).value, c))
  {
    ParentNamedIsListed(e, c, ParentNamed(e, c).value);
    NamedHolds(events, e, Lists(ParentNamed(e, c).value, c));
  }

  lemma NamingEvent(events: seq<TraceEvent>, parent: string, c: Child) returns (e: TraceEvent)
    requires NamedBy(events, Lists(parent, c))
    ensures e in events && Applies(e) && ParentNamed(e, c) == Some(parent)
  {
    e :| e in events && Applies(e) && Lists(parent, c) in Named(e);
    ParentNamedIsListed(e, c, parent);
  }
}
