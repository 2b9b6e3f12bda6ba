/** The index that the source updates in place, event by event; each method makes the maps what the graph functions say. */
module TraceIndexStore {
  import opened Base
  import opened Events
  import opened TraceIndexing

  class TraceIndex {
    var orgs: map<string, Org>
    var projects: map<string, Project>
    var missions: map<string, Mission>
    var sessions: map<string, Session>
    var artifacts: map<string, Artifact>
    var attachments: map<string, Attachment>
    var diffs: map<EventId, Diff>
    var logs: map<string, SessionLog>
    var files: map<string, seq<FileRef>>
    var repoContexts: map<string, RepoContext>
    const eventCount: nat

    constructor Empty(eventCount: nat)
      ensures Value() == EMPTY_GRAPH && this.eventCount == eventCount
    {
      this.eventCount := eventCount;
      orgs, projects, missions, sessions, artifacts := map[], map[], map[], map[], map[];
      attachments, diffs, logs, files, repoContexts := map[], map[], map[], map[], map[];
    }

    function Value(): Graph
      reads this
    {
      Graph(orgs, projects, missions, sessions, artifacts, attachments, diffs, logs, files, repoContexts)
    }

    method LinkProjectToOrg(p: string, o: string, e: TraceEvent)
      modifies this`orgs, this`projects
      ensures Value() == TraceIndexing.LinkProjectToOrg(old(Value()), p, o, e)
    {
      var org := OrgAt(Value(), o, e);
      orgs := orgs[o := org.(projectIds := org.projectIds + {p}, lastEventAt := e.recordedAt)];
      projects := projects[p := ProjectAt(Value(), p, e).(orgId := Some(o), lastEventAt := e.recordedAt)];
    }

    method LinkMissionToProject(m: string, p: string, e: TraceEvent)
      modifies this`projects, this`missions
      ensures Value() == TraceIndexing.LinkMissionToProject(old(Value()), m, p, e)
    {
      var project := ProjectAt(Value(), p, e);
      projects := projects[p := project.(missionIds := project.missionIds + {m}, lastEventAt := e.recordedAt)];
      missions := missions[m := MissionAt(Value(), m, e).(projectId := Some(p), lastEventAt := e.recordedAt)];
    }

    method LinkSessionToMission(s: string, m: string, e: TraceEvent)
      modifies this`missions, this`sessions
      ensures Value() == TraceIndexing.LinkSessionToMission(old(Value()), s, m, e)
    {
      var mission := MissionAt(Value(), m, e);
      missions := missions[m := mission.(sessionIds := mission.sessionIds + {s}, lastEventAt := e.recordedAt)];
      var session := SessionAt(Value(), s, e);
      sessions := sessions[s := session.(missionIds := session.missionIds + {m}, lastEventAt := e.recordedAt)];
    }

    method LinkArtifactToMission(a: string, m: string, e: TraceEvent)
      modifies this`missions, this`artifacts
      ensures Value() == TraceIndexing.LinkArtifactToMission(old(Value()), a, m, e)
    {
      var mission := MissionAt(Value(), m, e);
      missions := missions[m := mission.(artifactIds := mission.artifactIds + {a}, lastEventAt := e.recordedAt)];
      var artifact := ArtifactAt(Value(), a, e);
      artifacts := artifacts[a := artifact.(missionIds := artifact.missionIds + {m}, lastEventAt := e.recordedAt)];
    }

    method LinkArtifactToSession(a: string, s: string, e: TraceEvent)
      modifies this`sessions, this`artifacts
      ensures Value() == TraceIndexing.LinkArtifactToSession(old(Value()), a, s, e)
    {
      var session := SessionAt(Value(), s, e);
      sessions := sessions[s := session.(artifactIds := session.artifactIds + {a}, lastEventAt := e.recordedAt)];
      var artifact := ArtifactAt(Value(), a, e);
      artifacts := artifacts[a := artifact.(sessionIds := artifact.sessionIds + {s}, lastEventAt := e.recordedAt)];
    }

    method ApplyOrg(o: string, e: TraceEvent) returns (ok: bool)
      requires (e.eventType == OrgCreated || e.eventType == OrgUpdated) && e.orgId == Some(o)
      modifies this`orgs
      ensures ok <==> Applies(e)
      ensures Value() == if ok then ApplyEvent(old(Value()), e) else old(Value())
    {
      if !Parses(e) {
        return false;
      }
      var p, org := e.payload, OrgAt(Value(), o, e);
      if e.eventType == OrgCreated {
        org := org.(name := Some(p.name), description := p.description);
      } else {
        if p.newName.Some? {
          org := org.(name := p.newName);
        }
        if p.newDescription.Some? {
          org := org.(description := p.newDescription);
        }
      }
      orgs := orgs[o := org.(repoContextIds := With(org.repoContextIds, p.repoContext), lastEventAt := e.recordedAt)];
      ok := true;
    }

    method ApplyProject(id: string, e: TraceEvent) returns (ok: bool)
      requires (e.eventType == ProjectCreated || e.eventType == ProjectUpdated) && e.projectId == Some(id)
      modifies this`orgs, this`projects
      ensures ok <==> Applies(e)
      ensures Value() == if ok then ApplyEvent(old(Value()), e) else old(Value())
    {
      if !Parses(e) {
        return false;
      }
      var p := e.payload;
      if e.eventType == ProjectCreated {
        var project := ProjectAt(Value(), id, e);
        projects := projects[id := project.(orgId := Some(p.orgId), name := Some(p.name), description := p.description,
                             repoContextIds := With(project.repoContextIds, p.repoContext), lastEventAt := e.recordedAt)];
        LinkProjectToOrg(id, p.orgId, e);
        if p.orgId in orgs {
          orgs := orgs[p.orgId := orgs[p.orgId].(repoContextIds := With(orgs[p.orgId].repoContextIds, p.repoContext))];
        }
      } else {
        if p.newOrgId.Some? {
          LinkProjectToOrg(id, p.newOrgId.value, e);
        }
        var project := ProjectAt(Value(), id, e);
        projects := projects[id := project.(orgId := Or(p.newOrgId, project.orgId), name := Or(p.newName, project.name),
                             description := Or(p.newDescription, project.description),
                             repoContextIds := With(project.repoContextIds, p.repoContext), lastEventAt := e.recordedAt)];
      }
      ok := true;
    }

    method ApplyMission(id: string, e: TraceEvent) returns (ok: bool)
      requires (e.eventType == MissionCreated || e.eventType == MissionUpdated) && e.missionId == Some(id)
      modifies this`projects, this`missions
      ensures ok <==> Applies(e)
      ensures Value() == if ok then ApplyEvent(old(Value()), e) else old(Value())
    {
      if !Parses(e) {
        return false;
      }
      var p := e.payload;
      if e.eventType == MissionCreated {
        LinkMissionToProject(id, p.projectId, e);
        var mission := MissionAt(Value(), id, e);
        missions := missions[id := mission.(projectId := Some(p.projectId), title := Some(p.title),
                             description := p.description, status := p.status,
                             repoContextIds := With(mission.repoContextIds, p.repoContext), lastEventAt := e.recordedAt)];
      } else {
        if p.newProjectId.Some? {
          LinkMissionToProject(id, p.newProjectId.value, e);
        }
        var mission := MissionAt(Value(), id, e);
        if p.newStatus.Some? {
          mission := mission.(status := p.newStatus.value);
        }
        missions := missions[id := mission.(projectId := Or(p.newProjectId, mission.projectId),
                             title := Or(p.newTitle, mission.title), description := Or(p.newDescription, mission.description),
                             repoContextIds := With(mission.repoContextIds, p.repoContext), lastEventAt := e.recordedAt)];
      }
      ok := true;
    }

    method ApplySession(s: string, e: TraceEvent) returns (ok: bool)
      requires e.eventType == SessionStarted || e.eventType == SessionLogUploaded || e.eventType == SessionLinkedToMission
      requires e.sessionId == Some(s) && (e.eventType == SessionLinkedToMission ==> e.missionId.Some?)
      modifies this`missions, this`sessions, this`logs
      ensures ok <==> Applies(e)
      ensures Value() == if ok then ApplyEvent(old(Value()), e) else old(Value())
    {
      if !Parses(e) {
        return false;
      }
      var p := e.payload;
      if e.eventType == SessionStarted {
        var session := SessionAt(Value(), s, e);
        sessions := sessions[s := session.(name := p.sessionName, actor := e.actor,
                             repoContextIds := With(session.repoContextIds, p.repoContext), lastEventAt := e.recordedAt)];
        if e.missionId.Some? {
          LinkSessionToMission(s, e.missionId.value, e);
        }
      } else if e.eventType == SessionLinkedToMission {
        var m := e.missionId.value;
        LinkSessionToMission(s, m, e);
        if s in sessions {
          sessions := sessions[s := sessions[s].(repoContextIds := With(sessions[s].repoContextIds, p.repoContext))];
        }
        if m in missions {
          missions := missions[m := missions[m].(repoContextIds := With(missions[m].repoContextIds, p.repoContext))];
        }
      } else {
        logs := logs[p.logRefId := SessionLog(s, p.repoContext, e.recordedAt)];
        var session := SessionAt(Value(), s, e);
        sessions := sessions[s := session.(logRefIds := session.logRefIds + {p.logRefId},
                             repoContextIds := With(session.repoContextIds, p.repoContext), lastEventAt := e.recordedAt)];
      }
      ok := true;
    }

    method ApplyArtifact(a: string, e: TraceEvent) returns (ok: bool)
      requires e.eventType == ArtifactCreated || e.eventType == ArtifactUpdated || e.eventType == ArtifactLinkedToMission
      requires e.artifactId == Some(a) && (e.eventType == ArtifactLinkedToMission ==> e.missionId.Some?)
      modifies this`missions, this`sessions, this`artifacts
      ensures ok <==> Applies(e)
      ensures Value() == if ok then ApplyEvent(old(Value()), e) else old(Value())
    {
      if !Parses(e) {
        return false;
      }
      var p := e.payload;
      if e.eventType == ArtifactCreated {
        var artifact := ArtifactAt(Value(), a, e);
        artifacts := artifacts[a := artifact.(kind := Some(p.kind), title := Some(p.title), body := p.body,
                               repoContextIds := With(artifact.repoContextIds, p.repoContext), lastEventAt := e.recordedAt)];
        if e.missionId.Some? {
          LinkArtifactToMission(a, e.missionId.value, e);
        }
        if e.sessionId.Some? {
          LinkArtifactToSession(a, e.sessionId.value, e);
        }
      } else if e.eventType == ArtifactUpdated {
        var artifact := ArtifactAt(Value(), a, e);
        artifacts := artifacts[a := artifact.(title := Or(p.newTitle, artifact.title), body := Or(p.newBody, artifact.body),
                               kind := Or(p.newKind, artifact.kind),
                               repoContextIds := With(artifact.repoContextIds, p.repoContext), lastEventAt := e.recordedAt)];
        if e.sessionId.Some? {
          LinkArtifactToSession(a, e.sessionId.value, e);
        }
      } else {
        var m := e.missionId.value;
        LinkArtifactToMission(a, m, e);
        if a in artifacts {
          artifacts := artifacts[a := artifacts[a].(repoContextIds := With(artifacts[a].repoContextIds, p.repoContext))];
        }
        if m in missions {
          missions := missions[m := missions[m].(repoContextIds := With(missions[m].repoContextIds, p.repoContext))];
        }
      }
      ok := true;
    }

    method ApplyArtifactFileRef(a: string, e: TraceEvent) returns (ok: bool)
      requires e.eventType == ArtifactFileRefRecorded && e.artifactId == Some(a)
      modifies this`files, this`sessions, this`artifacts
      ensures ok <==> Applies(e)
      ensures Value() == if ok then ApplyEvent(old(Value()), e) else old(Value())
    {
      if !Parses(e) {
        return false;
      }
      var p := e.payload;
      var refs := if p.path in files then files[p.path] else [];
      files := files[p.path := refs + [FileRef(Recorded(p.fileRefId), a, e.sessionId, p.repoContext, e.recordedAt)]];
      if a in artifacts {
        var artifact := artifacts[a];
        artifacts := artifacts[a := artifact.(filePaths := artifact.filePaths + {p.path},
                               repoContextIds := With(artifact.repoContextIds, p.repoContext), lastEventAt := e.recordedAt)];
      }
      if e.sessionId.Some? {
        LinkArtifactToSession(a, e.sessionId.value, e);
      }
      ok := true;
    }

    method ApplyArtifactAttachment(a: string, e: TraceEvent) returns (ok: bool)
      requires e.eventType == ArtifactAttachmentUploaded && e.artifactId == Some(a)
      modifies this`attachments, this`sessions, this`artifacts
      ensures ok <==> Applies(e)
      ensures Value() == if ok then ApplyEvent(old(Value()), e) else old(Value())
    {
      if !Parses(e) {
        return false;
      }
      var p := e.payload;
      attachments := attachments[p.attachmentId := Attachment(a, e.sessionId, p.name, p.repoContext, e.recordedAt)];
      var artifact := ArtifactAt(Value(), a, e);
      artifacts := artifacts[a := artifact.(attachmentIds := artifact.attachmentIds + {p.attachmentId},
                             repoContextIds := With(artifact.repoContextIds, p.repoContext), lastEventAt := e.recordedAt)];
      if e.sessionId.Some? {
        LinkArtifactToSession(a, e.sessionId.value, e);
      }
      ok := true;
    }

    /** The loop over a diff's changed paths. */
    method AddChangedFiles(a: string, p: Payload, e: TraceEvent)
      requires p.DiffPayload?
      modifies this`files, this`artifacts
      ensures Value() == AddDiffFiles(old(Value()), a, p.fileChanges, DiffFileRef(a, p, e), e)
    {
      for i := 0 to |p.fileChanges|
        invariant Value() == AddDiffFiles(old(Value()), a, p.fileChanges[..i], DiffFileRef(a, p, e), e)
      {
        var path := p.fileChanges[i].path;
        var artifact := ArtifactAt(Value(), a, e);
        artifacts := artifacts[a := artifact.(filePaths := artifact.filePaths + {path})];
        files := files[path := (if path in files then files[path] else []) + [DiffFileRef(a, p, e)]];
        assert p.fileChanges[..i + 1][..i] == p.fileChanges[..i];
      }
      assert p.fileChanges[..|p.fileChanges|] == p.fileChanges;
    }

    method ApplyDiffCaptured(a: string, e: TraceEvent) returns (ok: bool)
      requires e.eventType == DiffCaptured && e.artifactId == Some(a)
      modifies this`diffs, this`files, this`missions, this`sessions, this`artifacts
      ensures ok <==> Applies(e)
      ensures Value() == if ok then ApplyEvent(old(Value()), e) else old(Value())
    {
      if !Parses(e) {
        return false;
      }
      var p := e.payload;
      diffs := diffs[e.eventId := DiffOf(a, p, e)];
      var artifact := ArtifactAt(Value(), a, e);
      artifacts := artifacts[a := artifact.(diffIds := artifact.diffIds + {e.eventId},
                             repoContextIds := With(artifact.repoContextIds, p.repoContext), lastEventAt := e.recordedAt)];
      AddChangedFiles(a, p, e);
      if e.sessionId.Some? {
        LinkArtifactToSession(a, e.sessionId.value, e);
      }
      if e.missionId.Some? {
        LinkArtifactToMission(a, e.missionId.value, e);
      }
      ok := true;
    }

    method ApplyRepoContext(id: string, e: TraceEvent) returns (ok: bool)
      requires e.eventType == RepoContextCaptured && e.repoContextId == Some(id)
      modifies this`repoContexts
      ensures ok <==> Applies(e)
      ensures Value() == if ok then ApplyEvent(old(Value()), e) else old(Value())
    {
      if !Parses(e) {
        return false;
      }
      var p := e.payload;
      repoContexts := repoContexts[id := RepoContext(p.branch, p.headCommit, p.dirty, e.recordedAt)];
      ok := true;
    }

    method Apply(e: TraceEvent) returns (ok: bool)
      modifies this
      ensures ok <==> Applies(e)
      ensures Value() == if ok then ApplyEvent(old(Value()), e) else old(Value())
    {
      if !HasIds(e) {
        return true;
      }
      match e.eventType {
        case OrgCreated => ok := ApplyOrg(e.orgId.value, e);
        case OrgUpdated => ok := ApplyOrg(e.orgId.value, e);
        case ProjectCreated => ok := ApplyProject(e.projectId.value, e);
        case ProjectUpdated => ok := ApplyProject(e.projectId.value, e);
        case MissionCreated => ok := ApplyMission(e.missionId.value, e);
        case MissionUpdated => ok := ApplyMission(e.missionId.value, e);
        case SessionStarted => ok := ApplySession(e.sessionId.value, e);
        case SessionLinkedToMission => ok := ApplySession(e.sessionId.value, e);
        case SessionLogUploaded => ok := ApplySession(e.sessionId.value, e);
        case ArtifactCreated => ok := ApplyArtifact(e.artifactId.value, e);
        case ArtifactUpdated => ok := ApplyArtifact(e.artifactId.value, e);
        case ArtifactLinkedToMission => ok := ApplyArtifact(e.artifactId.value, e);
        case ArtifactFileRefRecorded => ok := ApplyArtifactFileRef(e.artifactId.value, e);
        case ArtifactAttachmentUploaded => ok := ApplyArtifactAttachment(e.artifactId.value, e);
        case DiffCaptured => ok := ApplyDiffCaptured(e.artifactId.value, e);
        case RepoContextCaptured => ok := ApplyRepoContext(e.repoContextId.value, e);
        case ArtifactReviewed => ok := true;
        case ArtifactAccepted => ok := true;
        case ExternalRefLinked => ok := true;
        case SourceSessionObserved => ok := true;
      }
    }
  }

  /** `TraceIndex::build`: applies every event, stopping at the first that cannot be applied. */
  method Build(events: seq<TraceEvent>) returns (r: Result<TraceIndex>)
    ensures r.Ok? <==> BuildGraph(events).Ok?
    ensures r.Ok? ==> fresh(r.value) && Ok(r.value.Value()) == BuildGraph(events) && r.value.eventCount == |events|
  {
    var index := new TraceIndex.Empty(|events|);
    for i := 0 to |events|
      invariant BuildGraph(events[..i]) == Ok(index.Value())
    {
      assert events[..i + 1][..i] == events[..i];
      var ok := index.Apply(events[i]);
      if !ok {
        BuildStops(events, i + 1);
        return Err("failed to parse payload for event");
      }
    }
    assert events[..|events|] == events;
    r := Ok(index);
  }

  /** Once a prefix of the stream fails to build, so does the whole stream. */
  lemma {:induction false} BuildStops(events: seq<TraceEvent>, i: nat)
    requires i <= |events| && BuildGraph(events[..i]).Err?
    ensures BuildGraph(events).Err?
  {
    if i < |events| {
      assert events[..|events| - 1][..i] == events[..i];
      BuildStops(events[..|events| - 1], i);
    } else {
      assert events[..i] == events;
    }
  }
}
