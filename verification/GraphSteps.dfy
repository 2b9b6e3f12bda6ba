/** Every event adds to the graph exactly the facts it names, so a built graph is the union of what its events name. */
module GraphSteps {
  import opened Base
  import opened Events
  import opened TraceIndexing
  import opened GraphFacts

  lemma GrowsThrice(g0: Graph, g1: Graph, g2: Graph, g3: Graph, a: set<Fact>, b: set<Fact>, c: set<Fact>)
    requires Grows(g0, g1, a) && Grows(g1, g2, b) && Grows(g2, g3, c)
    ensures Grows(g0, g3, a + b + c)
  {
  }

  lemma ProjectCreatedGrows(g: Graph, id: string, p: Payload, e: TraceEvent)
    requires p.ProjectCreatedPayload?
    ensures Grows(g, ProjectCreatedIn(g, id, p, e), ProjectOrg(id, p.orgId))
  {
    var project := ProjectAt(g, id, e);
    var set1 := project.(orgId := Some(p.orgId), name := Some(p.name), description := p.description,
                repoContextIds := With(project.repoContextIds, p.repoContext), lastEventAt := e.recordedAt);
    var g1 := SetProject(g, id, set1);
    SetProjectGrows(g, id, set1, e);
    var g2 := LinkProjectToOrg(g1, id, p.orgId, e);
    LinkProjectToOrgGrows(g1, id, p.orgId, e);
    var org := OrgAt(g2, p.orgId, e);
    var set2 := org.(repoContextIds := With(org.repoContextIds, p.repoContext));
    SetOrgGrows(g2, p.orgId, set2, e);
    GrowsThrice(g, g1, g2, SetOrg(g2, p.orgId, set2), {HasProject(id)}, ProjectOrg(id, p.orgId), {HasOrg(p.orgId)});
    assert ProjectOrg(id, p.orgId) == {HasProject(id)} + ProjectOrg(id, p.orgId) + {HasOrg(p.orgId)};
  }

  lemma ProjectUpdatedGrows(g: Graph, id: string, p: Payload, e: TraceEvent)
    requires p.ProjectUpdatedPayload?
    ensures Grows(g, ProjectUpdatedIn(g, id, p, e),
                  {HasProject(id)} + if p.newOrgId.Some? then ProjectOrg(id, p.newOrgId.value) else {})
  {
    var g1 := if p.newOrgId.Some? then LinkProjectToOrg(g, id, p.newOrgId.value, e) else g;
    var linked := if p.newOrgId.Some? then ProjectOrg(id, p.newOrgId.value) else {};
    assert Grows(g, g1, linked) by {
      if p.newOrgId.Some? {
        LinkProjectToOrgGrows(g, id, p.newOrgId.value, e);
      }
    }
    var project := ProjectAt(g1, id, e);
    var set1 := project.(orgId := Or(p.newOrgId, project.orgId), name := Or(p.newName, project.name),
                description := Or(p.newDescription, project.description),
                repoContextIds := With(project.repoContextIds, p.repoContext), lastEventAt := e.recordedAt);
    var g2 := SetProject(g1, id, set1);
    SetProjectGrows(g1, id, set1, e);
    GrowsTwice(g, g1, g2, linked, {HasProject(id)});
    assert {HasProject(id)} + linked == linked + {HasProject(id)};
  }

  lemma MissionCreatedGrows(g: Graph, id: string, p: Payload, e: TraceEvent)
    requires p.MissionCreatedPayload?
    ensures Grows(g, MissionCreatedIn(g, id, p, e), MissionProject(id, p.projectId))
  {
    var g1 := LinkMissionToProject(g, id, p.projectId, e);
    LinkMissionToProjectGrows(g, id, p.projectId, e);
    var g2 := MissionCreatedIn(g, id, p, e);
    SetMissionGrows(g1, id, g2.missions[id], e);
    GrowsTwice(g, g1, g2, MissionProject(id, p.projectId), {HasMission(id)});
    assert MissionProject(id, p.projectId) == MissionProject(id, p.projectId) + {HasMission(id)};
  }

  lemma MissionUpdatedGrows(g: Graph, id: string, p: Payload, e: TraceEvent)
    requires p.MissionUpdatedPayload?
    ensures Grows(g, MissionUpdatedIn(g, id, p, e),
                  {HasMission(id)} + if p.newProjectId.Some? then MissionProject(id, p.newProjectId.value) else {})
  {
    var g1 := if p.newProjectId.Some? then LinkMissionToProject(g, id, p.newProjectId.value, e) else g;
    var linked := if p.newProjectId.Some? then MissionProject(id, p.newProjectId.value) else {};
    assert Grows(g, g1, linked) by {
      if p.newProjectId.Some? {
        LinkMissionToProjectGrows(g, id, p.newProjectId.value, e);
      }
    }
    var mission := MissionAt(g1, id, e);
    var set1 := mission.(projectId := Or(p.newProjectId, mission.projectId), title := Or(p.newTitle, mission.title),
                description := Or(p.newDescription, mission.description),
                status := if p.newStatus.Some? then p.newStatus.value else mission.status,
                repoContextIds := With(mission.repoContextIds, p.repoContext), lastEventAt := e.recordedAt);
    var g2 := SetMission(g1, id, set1);
    SetMissionGrows(g1, id, set1, e);
    GrowsTwice(g, g1, g2, linked, {HasMission(id)});
    assert {HasMission(id)} + linked == linked + {HasMission(id)};
  }

  lemma SessionStartedGrows(g: Graph, s: string, p: Payload, e: TraceEvent)
    requires p.SessionStartedPayload?
    ensures Grows(g, SessionStartedIn(g, s, p, e),
                  {HasSession(s)} + if e.missionId.Some? then SessionMission(s, e.missionId.value) else {})
  {
    var session := SessionAt(g, s, e);
    var set1 := session.(name := p.sessionName, actor := e.actor,
                repoContextIds := With(session.repoContextIds, p.repoContext), lastEventAt := e.recordedAt);
    var g1 := SetSession(g, s, set1);
    SetSessionGrows(g, s, set1, e);
    if e.missionId.Some? {
      LinkSessionToMissionGrows(g1, s, e.missionId.value, e);
      GrowsTwice(g, g1, SessionStartedIn(g, s, p, e), {HasSession(s)}, SessionMission(s, e.missionId.value));
    }
  }

  lemma SessionLinkedGrows(g: Graph, s: string, m: string, p: Payload, e: TraceEvent)
    requires p.SessionLinkedPayload?
    ensures Grows(g, SessionLinkedIn(g, s, m, p, e), SessionMission(s, m))
  {
    var g1 := LinkSessionToMission(g, s, m, e);
    LinkSessionToMissionGrows(g, s, m, e);
    var session := SessionAt(g1, s, e).(repoContextIds := With(SessionAt(g1, s, e).repoContextIds, p.repoContext));
    var g2 := SetSession(g1, s, session);
    SetSessionGrows(g1, s, session, e);
    var mission := MissionAt(g2, m, e).(repoContextIds := With(MissionAt(g2, m, e).repoContextIds, p.repoContext));
    SetMissionGrows(g2, m, mission, e);
    GrowsThrice(g, g1, g2, SetMission(g2, m, mission), SessionMission(s, m), {HasSession(s)}, {HasMission(m)});
    assert SessionMission(s, m) == SessionMission(s, m) + {HasSession(s)} + {HasMission(m)};
  }

  lemma LogUploadedGrows(g: Graph, s: string, p: Payload, e: TraceEvent)
    requires p.SessionLogPayload?
    ensures Grows(g, LogUploadedIn(g, s, p, e), {HasSession(s), HasLog(p.logRefId), SessionListsLog(s, p.logRefId)})
  {
    var g1 := g.(logs := g.logs[p.logRefId := SessionLog(s, p.repoContext, e.recordedAt)]);
    assert Grows(g, g1, {HasLog(p.logRefId)});
    var g2 := LogUploadedIn(g, s, p, e);
    SessionGainsLog(g1, s, p.logRefId, g2.sessions[s], e);
    GrowsTwice(g, g1, g2, {HasLog(p.logRefId)}, {HasSession(s), SessionListsLog(s, p.logRefId)});
    assert {HasSession(s), HasLog(p.logRefId), SessionListsLog(s, p.logRefId)}
        == {HasLog(p.logRefId)} + {HasSession(s), SessionListsLog(s, p.logRefId)};
  }

  lemma ArtifactCreatedGrows(g: Graph, a: string, p: Payload, e: TraceEvent)
    requires p.ArtifactCreatedPayload?
    ensures Grows(g, ArtifactCreatedIn(g, a, p, e), {HasArtifact(a)} + MissionIfAny(a, e) + SessionIfAny(a, e))
  {
    var artifact := ArtifactAt(g, a, e);
    var set1 := artifact.(kind := Some(p.kind), title := Some(p.title), body := p.body,
                repoContextIds := With(artifact.repoContextIds, p.repoContext), lastEventAt := e.recordedAt);
    var g1 := SetArtifact(g, a, set1);
    SetArtifactGrows(g, a, set1, e);
    MissionIfAnyGrows(g1, a, e);
    SessionIfAnyGrows(LinkToMissionIfAny(g1, a, e), a, e);
    GrowsThrice(g, g1, LinkToMissionIfAny(g1, a, e), ArtifactCreatedIn(g, a, p, e),
                {HasArtifact(a)}, MissionIfAny(a, e), SessionIfAny(a, e));
  }

  lemma ArtifactUpdatedGrows(g: Graph, a: string, p: Payload, e: TraceEvent)
    requires p.ArtifactUpdatedPayload?
    ensures Grows(g, ArtifactUpdatedIn(g, a, p, e), {HasArtifact(a)} + SessionIfAny(a, e))
  {
    var artifact := ArtifactAt(g, a, e);
    var set1 := artifact.(title := Or(p.newTitle, artifact.title), body := Or(p.newBody, artifact.body),
                kind := Or(p.newKind, artifact.kind),
                repoContextIds := With(artifact.repoContextIds, p.repoContext), lastEventAt := e.recordedAt);
    var g1 := SetArtifact(g, a, set1);
    SetArtifactGrows(g, a, set1, e);
    SessionIfAnyGrows(g1, a, e);
    GrowsTwice(g, g1, ArtifactUpdatedIn(g, a, p, e), {HasArtifact(a)}, SessionIfAny(a, e));
  }

  lemma ArtifactLinkedGrows(g: Graph, a: string, m: string, p: Payload, e: TraceEvent)
    requires p.ArtifactLinkedPayload?
    ensures Grows(g, ArtifactLinkedIn(g, a, m, p, e), ArtifactMission(a, m))
  {
    var g1 := LinkArtifactToMission(g, a, m, e);
    LinkArtifactToMissionGrows(g, a, m, e);
    var artifact := ArtifactAt(g1, a, e).(repoContextIds := With(ArtifactAt(g1, a, e).repoContextIds, p.repoContext));
    var g2 := SetArtifact(g1, a, artifact);
    SetArtifactGrows(g1, a, artifact, e);
    var mission := MissionAt(g2, m, e).(repoContextIds := With(MissionAt(g2, m, e).repoContextIds, p.repoContext));
    SetMissionGrows(g2, m, mission, e);
    GrowsThrice(g, g1, g2, SetMission(g2, m, mission), ArtifactMission(a, m), {HasArtifact(a)}, {HasMission(m)});
    assert ArtifactMission(a, m) == ArtifactMission(a, m) + {HasArtifact(a)} + {HasMission(m)};
  }

  lemma FileRefGrows(g: Graph, a: string, p: Payload, e: TraceEvent)
    requires p.FileRefPayload?
    ensures Grows(g, FileRefIn(g, a, p, e), FileNamed(p.path, a, Recorded(p.fileRefId)) + SessionIfAny(a, e))
  {
    var r := FileRef(Recorded(p.fileRefId), a, e.sessionId, p.repoContext, e.recordedAt);
    var g1 := AddFileRef(g, p.path, r);
    AddFileRefGrows(g, p.path, r);
    var named := FileNamed(p.path, a, Recorded(p.fileRefId));
    if a in g1.artifacts {
      var artifact := g1.artifacts[a];
      var set1 := artifact.(filePaths := artifact.filePaths + {p.path},
                  repoContextIds := With(artifact.repoContextIds, p.repoContext), lastEventAt := e.recordedAt);
      var g2 := SetArtifact(g1, a, set1);
      SetArtifactGrows(g1, a, set1, e);
      assert Holds(g1, HasArtifact(a));
      assert Grows(g1, g2, {});
      SessionIfAnyGrows(g2, a, e);
      GrowsThrice(g, g1, g2, FileRefIn(g, a, p, e), named, {}, SessionIfAny(a, e));
      assert named + {} + SessionIfAny(a, e) == named + SessionIfAny(a, e);
    } else {
      SessionIfAnyGrows(g1, a, e);
      GrowsTwice(g, g1, FileRefIn(g, a, p, e), named, SessionIfAny(a, e));
    }
  }

  lemma AttachmentUploadedGrows(g: Graph, a: string, p: Payload, e: TraceEvent)
    requires p.AttachmentPayload?
    ensures Grows(g, AttachmentUploadedIn(g, a, p, e),
                  {HasArtifact(a), HasAttachment(p.attachmentId), ArtifactListsAttachment(a, p.attachmentId)}
                  + SessionIfAny(a, e))
  {
    var x := p.attachmentId;
    var g1 := g.(attachments := g.attachments[x := Attachment(a, e.sessionId, p.name, p.repoContext, e.recordedAt)]);
    assert Grows(g, g1, {HasAttachment(x)});
    var artifact := ArtifactAt(g1, a, e);
    var set1 := artifact.(attachmentIds := artifact.attachmentIds + {x},
                repoContextIds := With(artifact.repoContextIds, p.repoContext), lastEventAt := e.recordedAt);
    var g2 := SetArtifact(g1, a, set1);
    ArtifactGainsAttachment(g1, a, x, set1, e);
    SessionIfAnyGrows(g2, a, e);
    var gained := {HasArtifact(a), ArtifactListsAttachment(a, x)};
    GrowsThrice(g, g1, g2, AttachmentUploadedIn(g, a, p, e), {HasAttachment(x)}, gained, SessionIfAny(a, e));
    assert {HasArtifact(a), HasAttachment(x), ArtifactListsAttachment(a, x)} == {HasAttachment(x)} + gained;
  }

  lemma {:induction false} AddDiffFilesGrows(g: Graph, a: string, changes: seq<FileChange>, r: FileRef, e: TraceEvent)
    requires r.artifactId == a && a in g.artifacts
    ensures a in AddDiffFiles(g, a, changes, r, e).artifacts
    ensures Grows(g, AddDiffFiles(g, a, changes, r, e), DiffFilesNamed(changes, a, r.refId))
  {
    if changes != [] {
      var front, path := changes[..|changes| - 1], changes[|changes| - 1].path;
      AddDiffFilesGrows(g, a, front, r, e);
      var g1 := AddDiffFiles(g, a, front, r, e);
      var artifact := g1.artifacts[a].(filePaths := g1.artifacts[a].filePaths + {path});
      var g2 := SetArtifact(g1, a, artifact);
      assert Grows(g1, g2, {}) by {
        SetArtifactGrows(g1, a, artifact, e);
        assert Holds(g1, HasArtifact(a));
      }
      AddFileRefGrows(g2, path, r);
      GrowsThrice(g, g1, g2, AddFileRef(g2, path, r),
                  DiffFilesNamed(front, a, r.refId), {}, FileNamed(path, a, r.refId));
      assert DiffFilesNamed(changes, a, r.refId) == DiffFilesNamed(front, a, r.refId) + {} + FileNamed(path, a, r.refId);
    }
  }

  /** The diff entry and the artifact's own update, before the changed paths are added. */
  function DiffRecorded(g: Graph, a: string, p: Payload, e: TraceEvent): Graph
    requires p.DiffPayload?
  {
    var g1 := g.(diffs := g.diffs[e.eventId := DiffOf(a, p, e)]);
    var artifact := ArtifactAt(g1, a, e);
    SetArtifact(g1, a, artifact.(diffIds := artifact.diffIds + {e.eventId},
                repoContextIds := With(artifact.repoContextIds, p.repoContext), lastEventAt := e.recordedAt))
  }

  lemma DiffStoredGrows(g: Graph, d: EventId, diff: Diff)
    ensures Grows(g, g.(diffs := g.diffs[d := diff]), {HasDiff(d)})
  {
  }

  lemma DiffRecordedArtifact(g1: Graph, g2: Graph, a: string, p: Payload, e: TraceEvent)
    requires p.DiffPayload?
    requires g2 == SetArtifact(g1, a, ArtifactAt(g1, a, e).(
                     diffIds := ArtifactAt(g1, a, e).diffIds + {e.eventId},
                     repoContextIds := With(ArtifactAt(g1, a, e).repoContextIds, p.repoContext),
                     lastEventAt := e.recordedAt))
    ensures Grows(g1, g2, {HasArtifact(a), ArtifactListsDiff(a, e.eventId)})
  {
    ArtifactGainsDiff(g1, a, e.eventId, g2.artifacts[a], e);
  }

  lemma DiffRecordedGrows(g: Graph, a: string, p: Payload, e: TraceEvent)
    requires p.DiffPayload?
    ensures Grows(g, DiffRecorded(g, a, p, e), {HasArtifact(a), HasDiff(e.eventId), ArtifactListsDiff(a, e.eventId)})
  {
    var d := e.eventId;
    var g1 := g.(diffs := g.diffs[d := DiffOf(a, p, e)]);
    DiffStoredGrows(g, d, DiffOf(a, p, e));
    var g2 := DiffRecorded(g, a, p, e);
    DiffRecordedArtifact(g1, g2, a, p, e);
    GrowsTwice(g, g1, g2, {HasDiff(d)}, {HasArtifact(a), ArtifactListsDiff(a, d)});
    assert {HasArtifact(a), HasDiff(d), ArtifactListsDiff(a, d)} == {HasDiff(d)} + {HasArtifact(a), ArtifactListsDiff(a, d)};
  }

  lemma DiffCapturedGrows(g: Graph, a: string, p: Payload, e: TraceEvent)
    requires p.DiffPayload?
    ensures Grows(g, DiffCapturedIn(g, a, p, e),
                  {HasArtifact(a), HasDiff(e.eventId), ArtifactListsDiff(a, e.eventId)}
                  + DiffFilesNamed(p.fileChanges, a, OfDiff(e.eventId)) + SessionIfAny(a, e) + MissionIfAny(a, e))
  {
    var recorded := {HasArtifact(a), HasDiff(e.eventId), ArtifactListsDiff(a, e.eventId)};
    var g2 := DiffRecorded(g, a, p, e);
    DiffRecordedGrows(g, a, p, e);
    var r := DiffFileRef(a, p, e);
    var g3 := AddDiffFiles(g2, a, p.fileChanges, r, e);
    AddDiffFilesGrows(g2, a, p.fileChanges, r, e);
    GrowsTwice(g, g2, g3, recorded, DiffFilesNamed(p.fileChanges, a, r.refId));
    var g4 := LinkToSessionIfAny(g3, a, e);
    SessionIfAnyGrows(g3, a, e);
    MissionIfAnyGrows(g4, a, e);
    GrowsThrice(g, g3, g4, DiffCapturedIn(g, a, p, e),
                recorded + DiffFilesNamed(p.fileChanges, a, r.refId), SessionIfAny(a, e), MissionIfAny(a, e));
  }

  /** Applying an event adds exactly the facts it names. */
  lemma ApplyEventGrows(g: Graph, e: TraceEvent)
    requires Applies(e)
    ensures Grows(g, ApplyEvent(g, e), Named(e))
  {
    if HasIds(e) {
      if e.artifactId.Some? && (e.eventType == ArtifactCreated || e.eventType == ArtifactUpdated
         || e.eventType == ArtifactLinkedToMission || e.eventType == ArtifactFileRefRecorded
         || e.eventType == ArtifactAttachmentUploaded || e.eventType == DiffCaptured) {
        ApplyArtifactEventGrows(g, e);
      } else {
        ApplyOtherEventGrows(g, e);
      }
    }
  }

  lemma ApplyArtifactEventGrows(g: Graph, e: TraceEvent)
    requires HasIds(e) && Applies(e)
    requires e.eventType == ArtifactCreated || e.eventType == ArtifactUpdated
          || e.eventType == ArtifactLinkedToMission || e.eventType == ArtifactFileRefRecorded
          || e.eventType == ArtifactAttachmentUploaded || e.eventType == DiffCaptured
    ensures Grows(g, ApplyEvent(g, e), Named(e))
  {
    var p, a := e.payload, e.artifactId.value;
    if e.eventType == ArtifactCreated {
      ArtifactCreatedGrows(g, a, p, e);
    } else if e.eventType == ArtifactUpdated {
      ArtifactUpdatedGrows(g, a, p, e);
    } else if e.eventType == ArtifactLinkedToMission {
      ArtifactLinkedGrows(g, a, e.missionId.value, p, e);
    } else if e.eventType == ArtifactFileRefRecorded {
      FileRefGrows(g, a, p, e);
    } else if e.eventType == ArtifactAttachmentUploaded {
      AttachmentUploadedGrows(g, a, p, e);
    } else {
      DiffCapturedGrows(g, a, p, e);
    }
  }

  lemma ApplyOtherEventGrows(g: Graph, e: TraceEvent)
    requires HasIds(e) && Applies(e)
    requires e.eventType != ArtifactCreated && e.eventType != ArtifactUpdated
          && e.eventType != ArtifactLinkedToMission && e.eventType != ArtifactFileRefRecorded
          && e.eventType != ArtifactAttachmentUploaded && e.eventType != DiffCaptured
    ensures Grows(g, ApplyEvent(g, e), Named(e))
  {
    var p := e.payload;
    if e.eventType == OrgCreated || e.eventType == OrgUpdated {
      SetOrgGrows(g, e.orgId.value, ApplyEvent(g, e).orgs[e.orgId.value], e);
    } else if e.eventType == ProjectCreated {
      ProjectCreatedGrows(g, e.projectId.value, p, e);
    } else if e.eventType == ProjectUpdated {
      ProjectUpdatedGrows(g, e.projectId.value, p, e);
    } else if e.eventType == MissionCreated {
      MissionCreatedGrows(g, e.missionId.value, p, e);
    } else if e.eventType == MissionUpdated {
      MissionUpdatedGrows(g, e.missionId.value, p, e);
    } else if e.eventType == SessionStarted {
      SessionStartedGrows(g, e.sessionId.value, p, e);
    } else if e.eventType == SessionLinkedToMission {
      SessionLinkedGrows(g, e.sessionId.value, e.missionId.value, p, e);
    } else if e.eventType == SessionLogUploaded {
      LogUploadedGrows(g, e.sessionId.value, p, e);
    } else {
      RepoContextGrows(g, e.repoContextId.value, p, e);
    }
  }

  lemma RepoContextGrows(g: Graph, id: string, p: Payload, e: TraceEvent)
    requires p.RepoContextPayload?
    ensures Grows(g, RepoContextCapturedIn(g, id, p, e), {HasRepoContext(id)})
  {
  }

  // ---- whole streams ----

  ghost predicate NamedBy(events: seq<TraceEvent>, f: Fact) {
    exists e | e in events :: Applies(e) && f in Named(e)
  }

  /** A stream builds exactly when every event in it applies, and then says exactly what they name. */
  lemma {:induction false} BuildSaysWhatIsNamed(events: seq<TraceEvent>)
    ensures BuildGraph(events).Ok? <==> forall e | e in events :: Applies(e)
    ensures BuildGraph(events).Ok? ==> forall f :: Holds(BuildGraph(events).value, f) <==> NamedBy(events, f)
  {
    if events != [] {
      var front, last := events[..|events| - 1], events[|events| - 1];
      BuildSaysWhatIsNamed(front);
      assert forall e | e in events :: e in front || e == last;
      assert last in events;
      if BuildGraph(front).Ok? && Applies(last) {
        var g, g' := BuildGraph(front).value, BuildGraph(events).value;
        ApplyEventGrows(g, last);
        forall f
          ensures Holds(g', f) <==> NamedBy(events, f)
        {
          assert Holds(g', f) <==> Holds(g, f) || f in Named(last);
          assert NamedBy(front, f) || f in Named(last) ==> NamedBy(events, f);
        }
      }
    }
  }

  lemma NamedHolds(events: seq<TraceEvent>, e: TraceEvent, f: Fact)
    requires BuildGraph(events).Ok? && e in events && Applies(e) && f in Named(e)
    ensures Holds(BuildGraph(events).value, f)
  {
    BuildSaysWhatIsNamed(events);
    assert NamedBy(events, f);
  }

  /**
   * The graph does not depend on the order of the events or on repeats: streams with the same set
   * of events both build or both fail, and say the same facts.
   */
  lemma SameEventsSameFacts(a: seq<TraceEvent>, b: seq<TraceEvent>)
    requires Elements(a) == Elements(b)
    ensures BuildGraph(a).Ok? <==> BuildGraph(b).Ok?
    ensures BuildGraph(a).Ok? ==> forall f :: Holds(BuildGraph(a).value, f) <==> Holds(BuildGraph(b).value, f)
  {
    assert forall e :: e in a <==> e in Elements(a);
    assert forall e :: e in b <==> e in Elements(b);
    BuildSaysWhatIsNamed(a);
    BuildSaysWhatIsNamed(b);
    if BuildGraph(a).Ok? {
      forall f
        ensures Holds(BuildGraph(a).value, f) <==> Holds(BuildGraph(b).value, f)
      {
        assert NamedBy(a, f) <==> NamedBy(b, f);
      }
    }
  }
}
