/**
 * The part of the graph that does depend on the order of events: an artifact learns the path of a
 * file ref only if the artifact is already indexed when the file ref arrives.
 */
module GraphPaths {
  import opened Base
  import opened Events
  import opened TraceIndexing
  import opened GraphFacts
  import opened GraphSteps

  function PathsOf(g: Graph, a: string): set<string> {
    if a in g.artifacts then g.artifacts[a].filePaths else {}
  }

  function ChangedPaths(changes: seq<FileChange>): set<string> {
    set change | change in changes :: change.path
  }

  /** The paths an event gives artifact `a`, when `known` says whether the artifact is indexed already. */
  function PathsNamed(e: TraceEvent, a: string, known: bool): set<string>
    requires Applies(e)
  {
    if !HasIds(e) || e.artifactId != Some(a) then {}
    else if e.eventType == DiffCaptured then ChangedPaths(e.payload.fileChanges)
    else if e.eventType == ArtifactFileRefRecorded && known then {e.payload.path}
    else {}
  }

  lemma LinkSessionKeepsPaths(g: Graph, a: string, s: string, e: TraceEvent, x: string)
    ensures PathsOf(LinkArtifactToSession(g, a, s, e), x) == PathsOf(g, x)
  {
    var session := SessionAt(g, s, e);
    var g1 := SetSession(g, s, session.(artifactIds := session.artifactIds + {a}, lastEventAt := e.recordedAt));
    assert g1.artifacts == g.artifacts;
  }

  lemma LinkToSessionKeepsPaths(g: Graph, a: string, e: TraceEvent, x: string)
    ensures PathsOf(LinkToSessionIfAny(g, a, e), x) == PathsOf(g, x)
  {
    if e.sessionId.Some? {
      LinkSessionKeepsPaths(g, a, e.sessionId.value, e, x);
    }
  }

  lemma LinkArtifactKeepsPaths(g: Graph, a: string, m: string, e: TraceEvent, x: string)
    ensures PathsOf(LinkArtifactToMission(g, a, m, e), x) == PathsOf(g, x)
  {
    var mission := MissionAt(g, m, e);
    var g1 := SetMission(g, m, mission.(artifactIds := mission.artifactIds + {a}, lastEventAt := e.recordedAt));
    assert g1.artifacts == g.artifacts;
  }

  lemma LinkToMissionKeepsPaths(g: Graph, a: string, e: TraceEvent, x: string)
    ensures PathsOf(LinkToMissionIfAny(g, a, e), x) == PathsOf(g, x)
  {
    if e.missionId.Some? {
      LinkArtifactKeepsPaths(g, a, e.missionId.value, e, x);
    }
  }

  lemma {:induction false} DiffFilesAddPaths(g: Graph, a: string, changes: seq<FileChange>, r: FileRef, e: TraceEvent, x: string)
    requires a in g.artifacts
    ensures a in AddDiffFiles(g, a, changes, r, e).artifacts
    ensures PathsOf(AddDiffFiles(g, a, changes, r, e), x)
         == PathsOf(g, x) + if x == a then ChangedPaths(changes) else {}
  {
    if changes != [] {
      var front, last := changes[..|changes| - 1], changes[|changes| - 1];
      DiffFilesAddPaths(g, a, front, r, e, x);
      assert ChangedPaths(changes) == ChangedPaths(front) + {last.path} by {
        assert forall change | change in changes :: change in front || change == last;
        assert last in changes;
      }
    }
  }

  lemma DiffAddsPaths(g: Graph, a: string, p: Payload, e: TraceEvent, x: string)
    requires p.DiffPayload?
    ensures PathsOf(DiffCapturedIn(g, a, p, e), x) == PathsOf(g, x) + if x == a then ChangedPaths(p.fileChanges) else {}
  {
    var g2 := DiffRecorded(g, a, p, e);
    assert PathsOf(g2, x) == PathsOf(g, x) && a in g2.artifacts;
    var g3 := AddDiffFiles(g2, a, p.fileChanges, DiffFileRef(a, p, e), e);
    DiffFilesAddPaths(g2, a, p.fileChanges, DiffFileRef(a, p, e), e, x);
    LinkToSessionKeepsPaths(g3, a, e, x);
    LinkToMissionKeepsPaths(LinkToSessionIfAny(g3, a, e), a, e, x);
  }

  lemma FileRefAddsPath(g: Graph, a: string, p: Payload, e: TraceEvent, x: string)
    requires p.FileRefPayload?
    ensures PathsOf(FileRefIn(g, a, p, e), x)
         == PathsOf(g, x) + if x == a && a in g.artifacts then {p.path} else {}
  {
    var r := FileRef(Recorded(p.fileRefId), a, e.sessionId, p.repoContext, e.recordedAt);
    var g1 := AddFileRef(g, p.path, r);
    if a in g1.artifacts {
      var artifact := g1.artifacts[a];
      var g2 := SetArtifact(g1, a, artifact.(filePaths := artifact.filePaths + {p.path},
                            repoContextIds := With(artifact.repoContextIds, p.repoContext), lastEventAt := e.recordedAt));
      LinkToSessionKeepsPaths(g2, a, e, x);
    } else {
      LinkToSessionKeepsPaths(g1, a, e, x);
    }
  }

  lemma ArtifactCreatedKeepsPaths(g: Graph, a: string, p: Payload, e: TraceEvent, x: string)
    requires p.ArtifactCreatedPayload?
    ensures PathsOf(ArtifactCreatedIn(g, a, p, e), x) == PathsOf(g, x)
  {
    var artifact := ArtifactAt(g, a, e);
    var g1 := SetArtifact(g, a, artifact.(kind := Some(p.kind), title := Some(p.title), body := p.body,
                          repoContextIds := With(artifact.repoContextIds, p.repoContext), lastEventAt := e.recordedAt));
    LinkToMissionKeepsPaths(g1, a, e, x);
    LinkToSessionKeepsPaths(LinkToMissionIfAny(g1, a, e), a, e, x);
  }

  lemma ArtifactUpdatedKeepsPaths(g: Graph, a: string, p: Payload, e: TraceEvent, x: string)
    requires p.ArtifactUpdatedPayload?
    ensures PathsOf(ArtifactUpdatedIn(g, a, p, e), x) == PathsOf(g, x)
  {
    var artifact := ArtifactAt(g, a, e);
    var g1 := SetArtifact(g, a, artifact.(title := Or(p.newTitle, artifact.title), body := Or(p.newBody, artifact.body),
                          kind := Or(p.newKind, artifact.kind),
                          repoContextIds := With(artifact.repoContextIds, p.repoContext), lastEventAt := e.recordedAt));
    LinkToSessionKeepsPaths(g1, a, e, x);
  }

  lemma AttachmentKeepsPaths(g: Graph, a: string, p: Payload, e: TraceEvent, x: string)
    requires p.AttachmentPayload?
    ensures PathsOf(AttachmentUploadedIn(g, a, p, e), x) == PathsOf(g, x)
  {
    var g1 := g.(attachments := g.attachments[p.attachmentId := Attachment(a, e.sessionId, p.name, p.repoContext, e.recordedAt)]);
    var artifact := ArtifactAt(g1, a, e);
    var g2 := SetArtifact(g1, a, artifact.(attachmentIds := artifact.attachmentIds + {p.attachmentId},
                          repoContextIds := With(artifact.repoContextIds, p.repoContext), lastEventAt := e.recordedAt));
    LinkToSessionKeepsPaths(g2, a, e, x);
  }

  lemma ArtifactLinkedKeepsPaths(g: Graph, a: string, m: string, p: Payload, e: TraceEvent, x: string)
    requires p.ArtifactLinkedPayload?
    ensures PathsOf(ArtifactLinkedIn(g, a, m, p, e), x) == PathsOf(g, x)
  {
  }

  /** Only events about an artifact change the artifact table. */
  lemma OtherEventKeepsArtifacts(g: Graph, e: TraceEvent)
    requires Applies(e)
    requires e.eventType != ArtifactCreated && e.eventType != ArtifactUpdated
          && e.eventType != ArtifactLinkedToMission && e.eventType != ArtifactFileRefRecorded
          && e.eventType != ArtifactAttachmentUploaded && e.eventType != DiffCaptured
    ensures ApplyEvent(g, e).artifacts == g.artifacts
  {
    if HasIds(e) {
      var p := e.payload;
      if e.eventType == MissionCreated {
        MissionCreatedKeepsArtifacts(g, e.missionId.value, p, e);
      } else if e.eventType == MissionUpdated {
        MissionUpdatedKeepsArtifacts(g, e.missionId.value, p, e);
      } else if e.eventType == ProjectCreated {
        ProjectCreatedKeepsArtifacts(g, e.projectId.value, p, e);
      } else if e.eventType == ProjectUpdated {
        ProjectUpdatedKeepsArtifacts(g, e.projectId.value, p, e);
      } else if e.eventType == SessionStarted {
        SessionStartedKeepsArtifacts(g, e.sessionId.value, p, e);
      } else if e.eventType == SessionLinkedToMission {
        SessionLinkedKeepsArtifacts(g, e.sessionId.value, e.missionId.value, p, e);
      }
    }
  }

  lemma LinksKeepArtifacts(g: Graph, x: string, y: string, e: TraceEvent)
    ensures LinkMissionToProject(g, x, y, e).artifacts == g.artifacts
    ensures LinkProjectToOrg(g, x, y, e).artifacts == g.artifacts
    ensures LinkSessionToMission(g, x, y, e).artifacts == g.artifacts
  {
  }

  lemma MissionCreatedKeepsArtifacts(g: Graph, m: string, p: Payload, e: TraceEvent)
    requires p.MissionCreatedPayload?
    ensures MissionCreatedIn(g, m, p, e).artifacts == g.artifacts
  {
  }

  lemma MissionUpdatedKeepsArtifacts(g: Graph, m: string, p: Payload, e: TraceEvent)
    requires p.MissionUpdatedPayload?
    ensures MissionUpdatedIn(g, m, p, e).artifacts == g.artifacts
  {
  }

  lemma ProjectCreatedKeepsArtifacts(g: Graph, id: string, p: Payload, e: TraceEvent)
    requires p.ProjectCreatedPayload?
    ensures ProjectCreatedIn(g, id, p, e).artifacts == g.artifacts
  {
  }

  lemma ProjectUpdatedKeepsArtifacts(g: Graph, id: string, p: Payload, e: TraceEvent)
    requires p.ProjectUpdatedPayload?
    ensures ProjectUpdatedIn(g, id, p, e).artifacts == g.artifacts
  {
  }

  lemma SessionStartedKeepsArtifacts(g: Graph, s: string, p: Payload, e: TraceEvent)
    requires p.SessionStartedPayload?
    ensures SessionStartedIn(g, s, p, e).artifacts == g.artifacts
  {
    var session := SessionAt(g, s, e);
    var g1 := SetSession(g, s, session.(name := p.sessionName, actor := e.actor,
                         repoContextIds := With(session.repoContextIds, p.repoContext), lastEventAt := e.recordedAt));
    if e.missionId.Some? {
      LinksKeepArtifacts(g1, s, e.missionId.value, e);
    }
  }

  lemma SessionLinkedKeepsArtifacts(g: Graph, s: string, m: string, p: Payload, e: TraceEvent)
    requires p.SessionLinkedPayload?
    ensures SessionLinkedIn(g, s, m, p, e).artifacts == g.artifacts
  {
  }

  lemma ApplyAddsPaths(g: Graph, e: TraceEvent, a: string)
    requires Applies(e)
    ensures PathsOf(ApplyEvent(g, e), a) == PathsOf(g, a) + PathsNamed(e, a, a in g.artifacts)
  {
    if HasIds(e) {
      var p := e.payload;
      if e.eventType == ArtifactCreated {
        ArtifactCreatedKeepsPaths(g, e.artifactId.value, p, e, a);
      } else if e.eventType == ArtifactUpdated {
        ArtifactUpdatedKeepsPaths(g, e.artifactId.value, p, e, a);
      } else if e.eventType == ArtifactLinkedToMission {
        ArtifactLinkedKeepsPaths(g, e.artifactId.value, e.missionId.value, p, e, a);
      } else if e.eventType == ArtifactFileRefRecorded {
        FileRefAddsPath(g, e.artifactId.value, p, e, a);
      } else if e.eventType == ArtifactAttachmentUploaded {
        AttachmentKeepsPaths(g, e.artifactId.value, p, e, a);
      } else if e.eventType == DiffCaptured {
        DiffAddsPaths(g, e.artifactId.value, p, e, a);
      } else {
        OtherEventKeepsArtifacts(g, e);
      }
    }
  }

  /** Event `i` gives artifact `a` the path: a diff always does, a file ref only after an earlier event named `a`. */
  ghost predicate GivesPath(events: seq<TraceEvent>, i: nat, a: string, path: string) {
    && i < |events| && Applies(events[i])
    && path in PathsNamed(events[i], a, NamedBy(events[..i], HasArtifact(a)))
  }

  /** An artifact's paths are exactly those the stream gives it, in the order it came. */
  lemma {:induction false} PathsAreThoseGiven(events: seq<TraceEvent>, a: string, path: string)
    requires BuildGraph(events).Ok?
    ensures path in PathsOf(BuildGraph(events).value, a) <==> exists i :: GivesPath(events, i, a, path)
  {
    if events != [] {
      var n := |events| - 1;
      var front, last := events[..n], events[n];
      PathsAreThoseGiven(front, a, path);
      var g := BuildGraph(front).value;
      ApplyAddsPaths(g, last, a);
      BuildSaysWhatIsNamed(front);
      assert a in g.artifacts <==> Holds(g, HasArtifact(a));
      assert path in PathsNamed(last, a, a in g.artifacts) <==> GivesPath(events, n, a, path);
      forall i: nat | i < n
        ensures GivesPath(front, i, a, path) <==> GivesPath(events, i, a, path)
      {
        assert front[..i] == events[..i];
      }
    }
  }

  lemma {:induction false} DiffFileIsNamed(changes: seq<FileChange>, a: string, r: RefId, path: string)
    requires path in ChangedPaths(changes)
    ensures FileRefersTo(path, a, r) in DiffFilesNamed(changes, a, r)
  {
    var front, last := changes[..|changes| - 1], changes[|changes| - 1];
    if path != last.path {
      assert forall change | change in changes :: change in front || change == last;
      DiffFileIsNamed(front, a, r, path);
    }
  }

  lemma GivenIsNamed(e: TraceEvent, a: string, known: bool, path: string) returns (r: RefId)
    requires Applies(e) && path in PathsNamed(e, a, known)
    ensures FileRefersTo(path, a, r) in Named(e)
  {
    if e.eventType == DiffCaptured {
      r := OfDiff(e.eventId);
      DiffFileIsNamed(e.payload.fileChanges, a, r, path);
    } else {
      r := Recorded(e.payload.fileRefId);
    }
  }

  lemma GivenRefHolds(events: seq<TraceEvent>, i: nat, a: string, path: string)
    requires BuildGraph(events).Ok? && GivesPath(events, i, a, path)
    ensures exists r :: Holds(BuildGraph(events).value, FileRefersTo(path, a, r))
  {
    var known := NamedBy(events[..i], HasArtifact(a));
    var r := GivenIsNamed(events[i], a, known, path);
    NamedHolds(events, events[i], FileRefersTo(path, a, r));
  }

  /** Every path of an artifact has a file ref that names the artifact. */
  lemma PathHasFileRef(events: seq<TraceEvent>, a: string, path: string)
    requires BuildGraph(events).Ok? && path in PathsOf(BuildGraph(events).value, a)
    ensures exists r :: Holds(BuildGraph(events).value, FileRefersTo(path, a, r))
  {
    PathsAreThoseGiven(events, a, path);
    var i :| GivesPath(events, i, a, path);
    GivenRefHolds(events, i, a, path);
  }

  // ---- when the order matters ----

  /** Event `i` is a file ref of the artifact that comes before any event names the artifact. */
  ghost predicate EarlyRef(events: seq<TraceEvent>, i: nat, a: string, path: string) {
    && i < |events| && Applies(events[i])
    && events[i].eventType == ArtifactFileRefRecorded && events[i].artifactId == Some(a) && events[i].payload.path == path
    && !NamedBy(events[..i], HasArtifact(a))
  }

  /** Event `i` names the path for the artifact, in time or not. */
  ghost predicate NamesPath(events: seq<TraceEvent>, i: nat, a: string, path: string) {
    i < |events| && Applies(events[i]) && path in PathsNamed(events[i], a, true)
  }

  lemma NamesPathSplits(events: seq<TraceEvent>, i: nat, a: string, path: string)
    ensures NamesPath(events, i, a, path) <==> GivesPath(events, i, a, path) || EarlyRef(events, i, a, path)
    ensures !(GivesPath(events, i, a, path) && EarlyRef(events, i, a, path))
  {
  }

  /** A path that the stream names for an artifact is lost exactly when only file refs name it, all of them too early. */
  lemma PathLostIff(events: seq<TraceEvent>, a: string, path: string)
    requires BuildGraph(events).Ok? && exists i :: NamesPath(events, i, a, path)
    ensures path !in PathsOf(BuildGraph(events).value, a)
       <==> forall i | NamesPath(events, i, a, path) :: EarlyRef(events, i, a, path)
  {
    PathsAreThoseGiven(events, a, path);
    forall i: nat
      ensures NamesPath(events, i, a, path) <==> GivesPath(events, i, a, path) || EarlyRef(events, i, a, path)
      ensures !(GivesPath(events, i, a, path) && EarlyRef(events, i, a, path))
    {
      NamesPathSplits(events, i, a, path);
    }
  }

  lemma BuildTwoMore(pre: seq<TraceEvent>, x: TraceEvent, y: TraceEvent)
    requires BuildGraph(pre).Ok? && Applies(x) && Applies(y)
    ensures BuildGraph(pre + [x, y]) == Ok(ApplyEvent(ApplyEvent(BuildGraph(pre).value, x), y))
  {
    var both := pre + [x, y];
    assert both[..|pre| + 1] == pre + [x] && (pre + [x])[..|pre|] == pre;
    assert BuildGraph(pre + [x]) == Ok(ApplyEvent(BuildGraph(pre).value, x));
  }

  /**
   * After any stream, a file ref followed by the event that creates its artifact is lost to the
   * artifact exactly when the stream has not named the artifact; in the other order it never is.
   */
  lemma FileRefFirstLosesPathIff(pre: seq<TraceEvent>, created: TraceEvent, ref: TraceEvent, a: string)
    requires BuildGraph(pre).Ok?
    requires created.eventType == ArtifactCreated && created.artifactId == Some(a) && Applies(created)
    requires ref.eventType == ArtifactFileRefRecorded && ref.artifactId == Some(a) && Applies(ref)
    ensures var early, late := BuildGraph(pre + [ref, created]), BuildGraph(pre + [created, ref]);
            && early.Ok? && late.Ok? && ref.payload.path in PathsOf(late.value, a)
            && (ref.payload.path !in PathsOf(early.value, a) <==> !NamedBy(pre, HasArtifact(a)))
  {
    var g := BuildGraph(pre).value;
    BuildTwoMore(pre, ref, created);
    BuildTwoMore(pre, created, ref);
    IndexedMeansNamed(pre, a);
    RefThenCreated(g, created, ref, a);
    CreatedThenRef(g, created, ref, a);
  }

  lemma IndexedMeansNamed(events: seq<TraceEvent>, a: string)
    requires BuildGraph(events).Ok?
    ensures a in BuildGraph(events).value.artifacts <==> NamedBy(events, HasArtifact(a))
  {
    BuildSaysWhatIsNamed(events);
    assert Holds(BuildGraph(events).value, HasArtifact(a)) <==> NamedBy(events, HasArtifact(a));
  }

  lemma RefThenCreated(g: Graph, created: TraceEvent, ref: TraceEvent, a: string)
    requires created.eventType == ArtifactCreated && created.artifactId == Some(a) && Applies(created)
    requires ref.eventType == ArtifactFileRefRecorded && ref.artifactId == Some(a) && Applies(ref)
    ensures ref.payload.path in PathsOf(ApplyEvent(ApplyEvent(g, ref), created), a) <==> a in g.artifacts
  {
    ApplyAddsPaths(g, ref, a);
    ApplyAddsPaths(ApplyEvent(g, ref), created, a);
  }

  lemma CreatedThenRef(g: Graph, created: TraceEvent, ref: TraceEvent, a: string)
    requires created.eventType == ArtifactCreated && created.artifactId == Some(a) && Applies(created)
    requires ref.eventType == ArtifactFileRefRecorded && ref.artifactId == Some(a) && Applies(ref)
    ensures ref.payload.path in PathsOf(ApplyEvent(ApplyEvent(g, created), ref), a)
  {
    CreatedIsIndexed(g, created, a);
    ApplyAddsPaths(ApplyEvent(g, created), ref, a);
  }

  lemma CreatedIsIndexed(g: Graph, created: TraceEvent, a: string)
    requires created.eventType == ArtifactCreated && created.artifactId == Some(a) && Applies(created)
    ensures a in ApplyEvent(g, created).artifacts
  {
    ApplyEventGrows(g, created);
    assert Holds(ApplyEvent(g, created), HasArtifact(a));
  }
}
