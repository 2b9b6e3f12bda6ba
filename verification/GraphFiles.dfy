/** The file refs of a built graph, and when their ids can serve as the primary key of a table. */
module GraphFiles {
  import opened Base
  import opened Dedup
  import opened Events
  import opened TraceIndexing
  import opened GraphSteps
  import opened GraphParents

  /** A file ref and the path it is filed under. */
  datatype Filed = Filed(path: string, ref: FileRef)

  function FilesAt(g: Graph, path: string): seq<FileRef> {
    if path in g.files then g.files[path] else []
  }

  function FiledChanges(changes: seq<FileChange>, r: FileRef): (filed: seq<Filed>)
    ensures |filed| == |changes| && forall i | 0 <= i < |changes| :: filed[i] == Filed(changes[i].path, r)
  {
    seq(|changes|, i requires 0 <= i < |changes| => Filed(changes[i].path, r))
  }

  /** The file refs that an event files, in order. */
  function RefsFiled(e: TraceEvent): seq<Filed>
    requires Applies(e)
  {
    if !HasIds(e) then []
    else if e.eventType == ArtifactFileRefRecorded then
      var p, a := e.payload, e.artifactId.value;
      [Filed(p.path, FileRef(Recorded(p.fileRefId), a, e.sessionId, p.repoContext, e.recordedAt))]
    else if e.eventType == DiffCaptured then
      FiledChanges(e.payload.fileChanges, DiffFileRef(e.artifactId.value, e.payload, e))
    else []
  }

  function AllFiled(events: seq<TraceEvent>): seq<Filed>
    requires forall e | e in events :: Applies(e)
  {
    if events == [] then [] else AllFiled(events[..|events| - 1]) + RefsFiled(events[|events| - 1])
  }

  function OnPath(path: string): Filed -> bool {
    (f: Filed) => f.path == path
  }

  function Refs(filed: seq<Filed>): (refs: seq<FileRef>)
    ensures |refs| == |filed| && forall i | 0 <= i < |filed| :: refs[i] == filed[i].ref
  {
    seq(|filed|, i requires 0 <= i < |filed| => filed[i].ref)
  }

  function RefsAt(filed: seq<Filed>, path: string): seq<FileRef> {
    Refs(Filter(OnPath(path), filed))
  }

  lemma RefsAtAppend(a: seq<Filed>, b: seq<Filed>, path: string)
    ensures RefsAt(a + b, path) == RefsAt(a, path) + RefsAt(b, path)
  {
    FilterAppend(OnPath(path), a, b);
  }

  lemma RefsAtOne(f: Filed, path: string)
    ensures RefsAt([f], path) == if f.path == path then [f.ref] else []
  {
    FilterCons(OnPath(path), f, []);
    assert [f] + [] == [f];
  }

  // ---- one event ----

  lemma LinksKeepFiles(g: Graph, x: string, y: string, e: TraceEvent)
    ensures LinkMissionToProject(g, x, y, e).files == g.files
    ensures LinkProjectToOrg(g, x, y, e).files == g.files
    ensures LinkSessionToMission(g, x, y, e).files == g.files
    ensures LinkArtifactToMission(g, x, y, e).files == g.files
    ensures LinkArtifactToSession(g, x, y, e).files == g.files
  {
  }

  lemma LinksIfAnyKeepFiles(g: Graph, a: string, e: TraceEvent)
    ensures LinkToSessionIfAny(g, a, e).files == g.files
    ensures LinkToMissionIfAny(g, a, e).files == g.files
  {
    if e.sessionId.Some? {
      LinksKeepFiles(g, a, e.sessionId.value, e);
    }
    if e.missionId.Some? {
      LinksKeepFiles(g, a, e.missionId.value, e);
    }
  }

  lemma AddFileRefFiles(g: Graph, path: string, r: FileRef, x: string)
    ensures FilesAt(AddFileRef(g, path, r), x) == FilesAt(g, x) + RefsAt([Filed(path, r)], x)
  {
    RefsAtOne(Filed(path, r), x);
  }

  lemma DiffFileFiles(g: Graph, a: string, change: FileChange, r: FileRef, e: TraceEvent, x: string)
    ensures var artifact := ArtifactAt(g, a, e);
            var g' := SetArtifact(g, a, artifact.(filePaths := artifact.filePaths + {change.path}));
            FilesAt(AddFileRef(g', change.path, r), x) == FilesAt(g, x) + RefsAt([Filed(change.path, r)], x)
  {
    var artifact := ArtifactAt(g, a, e);
    AddFileRefFiles(SetArtifact(g, a, artifact.(filePaths := artifact.filePaths + {change.path})), change.path, r, x);
  }

  lemma {:induction false} DiffFilesFile(g: Graph, a: string, changes: seq<FileChange>, r: FileRef, e: TraceEvent, x: string)
    ensures FilesAt(AddDiffFiles(g, a, changes, r, e), x) == FilesAt(g, x) + RefsAt(FiledChanges(changes, r), x)
  {
    if changes == [] {
      assert FilesAt(g, x) + [] == FilesAt(g, x);
    } else {
      var front, last := changes[..|changes| - 1], changes[|changes| - 1];
      DiffFilesFile(g, a, front, r, e, x);
      DiffFileFiles(AddDiffFiles(g, a, front, r, e), a, last, r, e, x);
      assert FiledChanges(changes, r) == FiledChanges(front, r) + [Filed(last.path, r)];
      RefsAtAppend(FiledChanges(front, r), [Filed(last.path, r)], x);
      assert FilesAt(g, x) + RefsAt(FiledChanges(front, r), x) + RefsAt([Filed(last.path, r)], x)
          == FilesAt(g, x) + (RefsAt(FiledChanges(front, r), x) + RefsAt([Filed(last.path, r)], x));
    }
  }

  lemma FileRefFiles(g: Graph, a: string, p: Payload, e: TraceEvent, x: string)
    requires p.FileRefPayload?
    ensures var r := FileRef(Recorded(p.fileRefId), a, e.sessionId, p.repoContext, e.recordedAt);
            FilesAt(FileRefIn(g, a, p, e), x) == FilesAt(g, x) + RefsAt([Filed(p.path, r)], x)
  {
    var r := FileRef(Recorded(p.fileRefId), a, e.sessionId, p.repoContext, e.recordedAt);
    var g1 := AddFileRef(g, p.path, r);
    AddFileRefFiles(g, p.path, r, x);
    if a in g1.artifacts {
      var artifact := g1.artifacts[a];
      LinksIfAnyKeepFiles(SetArtifact(g1, a, artifact.(filePaths := artifact.filePaths + {p.path},
                          repoContextIds := With(artifact.repoContextIds, p.repoContext), lastEventAt := e.recordedAt)), a, e);
    } else {
      LinksIfAnyKeepFiles(g1, a, e);
    }
  }

  lemma DiffFiles(g: Graph, a: string, p: Payload, e: TraceEvent, x: string)
    requires p.DiffPayload?
    ensures FilesAt(DiffCapturedIn(g, a, p, e), x) == FilesAt(g, x) + RefsAt(FiledChanges(p.fileChanges, DiffFileRef(a, p, e)), x)
  {
    var g2, r := DiffRecorded(g, a, p, e), DiffFileRef(a, p, e);
    var g3 := AddDiffFiles(g2, a, p.fileChanges, r, e);
    DiffFilesFile(g2, a, p.fileChanges, r, e, x);
    LinksIfAnyKeepFiles(g3, a, e);
    LinksIfAnyKeepFiles(LinkToSessionIfAny(g3, a, e), a, e);
  }

  lemma ArtifactCreatedKeepsFiles(g: Graph, a: string, p: Payload, e: TraceEvent)
    requires p.ArtifactCreatedPayload?
    ensures ArtifactCreatedIn(g, a, p, e).files == g.files
  {
    var artifact := ArtifactAt(g, a, e);
    var g1 := SetArtifact(g, a, artifact.(kind := Some(p.kind), title := Some(p.title), body := p.body,
                          repoContextIds := With(artifact.repoContextIds, p.repoContext), lastEventAt := e.recordedAt));
    LinksIfAnyKeepFiles(g1, a, e);
    LinksIfAnyKeepFiles(LinkToMissionIfAny(g1, a, e), a, e);
  }

  lemma ArtifactUpdatedKeepsFiles(g: Graph, a: string, p: Payload, e: TraceEvent)
    requires p.ArtifactUpdatedPayload?
    ensures ArtifactUpdatedIn(g, a, p, e).files == g.files
  {
    var artifact := ArtifactAt(g, a, e);
    LinksIfAnyKeepFiles(SetArtifact(g, a, artifact.(title := Or(p.newTitle, artifact.title), body := Or(p.newBody, artifact.body),
                        kind := Or(p.newKind, artifact.kind),
                        repoContextIds := With(artifact.repoContextIds, p.repoContext), lastEventAt := e.recordedAt)), a, e);
  }

  lemma AttachmentKeepsFiles(g: Graph, a: string, p: Payload, e: TraceEvent)
    requires p.AttachmentPayload?
    ensures AttachmentUploadedIn(g, a, p, e).files == g.files
  {
    var g1 := g.(attachments := g.attachments[p.attachmentId := Attachment(a, e.sessionId, p.name, p.repoContext, e.recordedAt)]);
    var artifact := ArtifactAt(g1, a, e);
    LinksIfAnyKeepFiles(SetArtifact(g1, a, artifact.(attachmentIds := artifact.attachmentIds + {p.attachmentId},
                        repoContextIds := With(artifact.repoContextIds, p.repoContext), lastEventAt := e.recordedAt)), a, e);
  }

  lemma ArtifactLinkedKeepsFiles(g: Graph, a: string, m: string, p: Payload, e: TraceEvent)
    requires p.ArtifactLinkedPayload?
    ensures ArtifactLinkedIn(g, a, m, p, e).files == g.files
  {
    LinksKeepFiles(g, a, m, e);
  }

  lemma SessionStartedKeepsFiles(g: Graph, s: string, p: Payload, e: TraceEvent)
    requires p.SessionStartedPayload?
    ensures SessionStartedIn(g, s, p, e).files == g.files
  {
    var session := SessionAt(g, s, e);
    var g1 := SetSession(g, s, session.(name := p.sessionName, actor := e.actor,
                         repoContextIds := With(session.repoContextIds, p.repoContext), lastEventAt := e.recordedAt));
    if e.missionId.Some? {
      LinksKeepFiles(g1, s, e.missionId.value, e);
    }
  }

  lemma SessionLinkedKeepsFiles(g: Graph, s: string, m: string, p: Payload, e: TraceEvent)
    requires p.SessionLinkedPayload?
    ensures SessionLinkedIn(g, s, m, p, e).files == g.files
  {
    LinksKeepFiles(g, s, m, e);
  }

  lemma ProjectCreatedKeepsFiles(g: Graph, id: string, p: Payload, e: TraceEvent)
    requires p.ProjectCreatedPayload?
    ensures ProjectCreatedIn(g, id, p, e).files == g.files
  {
    var project := ProjectAt(g, id, e);
    LinksKeepFiles(SetProject(g, id, project.(orgId := Some(p.orgId), name := Some(p.name), description := p.description,
                   repoContextIds := With(project.repoContextIds, p.repoContext), lastEventAt := e.recordedAt)), id, p.orgId, e);
  }

  lemma ProjectUpdatedKeepsFiles(g: Graph, id: string, p: Payload, e: TraceEvent)
    requires p.ProjectUpdatedPayload?
    ensures ProjectUpdatedIn(g, id, p, e).files == g.files
  {
    if p.newOrgId.Some? {
      LinksKeepFiles(g, id, p.newOrgId.value, e);
    }
  }

  lemma MissionCreatedKeepsFiles(g: Graph, id: string, p: Payload, e: TraceEvent)
    requires p.MissionCreatedPayload?
    ensures MissionCreatedIn(g, id, p, e).files == g.files
  {
    LinksKeepFiles(g, id, p.projectId, e);
  }

  lemma MissionUpdatedKeepsFiles(g: Graph, id: string, p: Payload, e: TraceEvent)
    requires p.MissionUpdatedPayload?
    ensures MissionUpdatedIn(g, id, p, e).files == g.files
  {
    if p.newProjectId.Some? {
      LinksKeepFiles(g, id, p.newProjectId.value, e);
    }
  }

  lemma OtherEventKeepsFiles(g: Graph, e: TraceEvent)
    requires HasIds(e) && Applies(e) && e.eventType != ArtifactFileRefRecorded && e.eventType != DiffCaptured
    ensures ApplyEvent(g, e).files == g.files
  {
    var p := e.payload;
    if e.eventType == ArtifactCreated {
      ArtifactCreatedKeepsFiles(g, e.artifactId.value, p, e);
    } else if e.eventType == ArtifactUpdated {
      ArtifactUpdatedKeepsFiles(g, e.artifactId.value, p, e);
    } else if e.eventType == ArtifactAttachmentUploaded {
      AttachmentKeepsFiles(g, e.artifactId.value, p, e);
    } else if e.eventType == ArtifactLinkedToMission {
      ArtifactLinkedKeepsFiles(g, e.artifactId.value, e.missionId.value, p, e);
    } else if e.eventType == SessionStarted {
      SessionStartedKeepsFiles(g, e.sessionId.value, p, e);
    } else if e.eventType == SessionLinkedToMission {
      SessionLinkedKeepsFiles(g, e.sessionId.value, e.missionId.value, p, e);
    } else if e.eventType == ProjectCreated {
      ProjectCreatedKeepsFiles(g, e.projectId.value, p, e);
    } else if e.eventType == ProjectUpdated {
      ProjectUpdatedKeepsFiles(g, e.projectId.value, p, e);
    } else if e.eventType == MissionCreated {
      MissionCreatedKeepsFiles(g, e.missionId.value, p, e);
    } else if e.eventType == MissionUpdated {
      MissionUpdatedKeepsFiles(g, e.missionId.value, p, e);
    }
  }

  lemma ApplyFiles(g: Graph, e: TraceEvent, path: string)
    requires Applies(e)
    ensures FilesAt(ApplyEvent(g, e), path) == FilesAt(g, path) + RefsAt(RefsFiled(e), path)
  {
    if HasIds(e) && e.eventType == ArtifactFileRefRecorded {
      FileRefFiles(g, e.artifactId.value, e.payload, e, path);
    } else if HasIds(e) && e.eventType == DiffCaptured {
      DiffFiles(g, e.artifactId.value, e.payload, e, path);
    } else {
      if HasIds(e) {
        OtherEventKeepsFiles(g, e);
      }
      assert FilesAt(g, path) + [] == FilesAt(g, path);
    }
  }

  // ---- whole streams ----

  /** A path's file refs are those the stream files under it, in its order. */
  lemma {:induction false} FilesAreThoseFiled(events: seq<TraceEvent>, path: string)
    requires BuildGraph(events).Ok?
    ensures forall e | e in events :: Applies(e)
    ensures FilesAt(BuildGraph(events).value, path) == RefsAt(AllFiled(events), path)
  {
    BuildApplies(events);
    if events != [] {
      var front, last := events[..|events| - 1], events[|events| - 1];
      FilesAreThoseFiled(front, path);
      ApplyFiles(BuildGraph(front).value, last, path);
      RefsAtAppend(AllFiled(front), RefsFiled(last), path);
    }
  }

  function IdOfFiled(f: Filed): RefId {
    f.ref.refId
  }

  /** No two file refs of the graph, under one path or two, have the same id: what a primary key asks for. */
  ghost predicate RefIdsDistinct(g: Graph) {
    forall p, i, q, j | 0 <= i < |FilesAt(g, p)| && 0 <= j < |FilesAt(g, q)| && (p != q || i != j) ::
      FilesAt(g, p)[i].refId != FilesAt(g, q)[j].refId
  }

  /** Where the `i`-th file ref under a path stands among all that were filed. */
  lemma FiledPosition(filed: seq<Filed>, path: string) returns (picks: seq<nat>)
    ensures |picks| == |RefsAt(filed, path)|
    ensures forall i | 0 <= i < |picks| ::
              picks[i] < |filed| && filed[picks[i]] == Filed(path, RefsAt(filed, path)[i])
    ensures forall i, j | 0 <= i < j < |picks| :: picks[i] < picks[j]
  {
    picks := FilterInOrder(OnPath(path), filed);
    FilterMembers(OnPath(path), filed);
    var kept := Filter(OnPath(path), filed);
    forall i | 0 <= i < |picks|
      ensures filed[picks[i]] == Filed(path, RefsAt(filed, path)[i])
    {
      assert kept[i] in kept;
    }
  }

  /** And where the filed ref at a position ends up under its path. */
  lemma FiledRank(filed: seq<Filed>, k: nat) returns (i: nat)
    requires k < |filed|
    ensures i < |RefsAt(filed, filed[k].path)| && RefsAt(filed, filed[k].path)[i] == filed[k].ref
    ensures i == |Filter(OnPath(filed[k].path), filed[..k])|
  {
    FilterRank(OnPath(filed[k].path), filed, k);
    i := |Filter(OnPath(filed[k].path), filed[..k])|;
  }

  lemma GraphIdsIff(g: Graph, filed: seq<Filed>)
    requires forall path :: FilesAt(g, path) == RefsAt(filed, path)
    ensures RefIdsDistinct(g) <==> DistinctKeys(IdOfFiled, filed)
  {
    if RefIdsDistinct(g) {
      forall k, l | 0 <= k < l < |filed|
        ensures IdOfFiled(filed[k]) != IdOfFiled(filed[l])
      {
        var i := FiledRank(filed, k);
        var j := FiledRank(filed, l);
        FilterRank(OnPath(filed[k].path), filed, k);
        assert filed[k].path != filed[l].path || i != j;
        assert FilesAt(g, filed[k].path)[i].refId != FilesAt(g, filed[l].path)[j].refId;
      }
    }
    if DistinctKeys(IdOfFiled, filed) {
      forall p, i, q, j | 0 <= i < |FilesAt(g, p)| && 0 <= j < |FilesAt(g, q)| && (p != q || i != j)
        ensures FilesAt(g, p)[i].refId != FilesAt(g, q)[j].refId
      {
        var pp := FiledPosition(filed, p);
        var qq := FiledPosition(filed, q);
        DistinctPositions(filed, p, i, q, j, pp, qq);
      }
    }
  }

  lemma DistinctPositions(filed: seq<Filed>, p: string, i: nat, q: string, j: nat, pp: seq<nat>, qq: seq<nat>)
    requires DistinctKeys(IdOfFiled, filed)
    requires i < |pp| && j < |qq| && pp[i] < |filed| && qq[j] < |filed|
    requires filed[pp[i]].path == p && filed[qq[j]].path == q
    requires p == q ==> |pp| == |qq| && i != j && pp[i] != qq[j]
    requires p != q || i != j
    ensures IdOfFiled(filed[pp[i]]) != IdOfFiled(filed[qq[j]])
  {
    assert pp[i] != qq[j];
    if pp[i] < qq[j] {
      assert IdOfFiled(filed[pp[i]]) != IdOfFiled(filed[qq[j]]);
    } else {
      assert IdOfFiled(filed[qq[j]]) != IdOfFiled(filed[pp[i]]);
    }
  }

  // ---- in terms of the events ----

  /** The id an event files refs under, if it files any. */
  function RefIdOf(e: TraceEvent): Option<RefId>
    requires Applies(e)
  {
    if !HasIds(e) then None
    else if e.eventType == ArtifactFileRefRecorded then Some(Recorded(e.payload.fileRefId))
    else if e.eventType == DiffCaptured && e.payload.fileChanges != [] then Some(OfDiff(e.eventId))
    else None
  }

  predicate IsFiledDiff(e: TraceEvent) {
    e.eventType == DiffCaptured && e.artifactId.Some? && e.payload.DiffPayload?
  }

  lemma RefsFiledUnderOneId(e: TraceEvent)
    requires Applies(e)
    ensures Keys(IdOfFiled, RefsFiled(e)) == if RefIdOf(e).Some? then {RefIdOf(e).value} else {}
    ensures DistinctKeys(IdOfFiled, RefsFiled(e)) <==> (IsFiledDiff(e) ==> |e.payload.fileChanges| <= 1)
  {
    var filed := RefsFiled(e);
    if RefIdOf(e).Some? {
      assert filed[0] in filed && IdOfFiled(filed[0]) == RefIdOf(e).value;
      assert forall f | f in filed :: IdOfFiled(f) == RefIdOf(e).value;
      if |filed| > 1 {
        assert IdOfFiled(filed[0]) == IdOfFiled(filed[1]);
      }
    }
  }

  /** Every diff that belongs to an artifact changes at most one file. */
  ghost predicate OneFileDiffs(events: seq<TraceEvent>)
    requires forall e | e in events :: Applies(e)
  {
    forall e | e in events && IsFiledDiff(e) :: |e.payload.fileChanges| <= 1
  }

  /** Events at different places file their refs under different ids: diffs with a change by event id, file refs by recorded id. */
  ghost predicate DistinctRefEvents(events: seq<TraceEvent>)
    requires forall e | e in events :: Applies(e)
  {
    forall i, j | 0 <= i < j < |events| && RefIdOf(events[i]).Some? :: RefIdOf(events[i]) != RefIdOf(events[j])
  }

  lemma {:induction false} AllFiledIds(events: seq<TraceEvent>, id: RefId)
    requires forall e | e in events :: Applies(e)
    ensures id in Keys(IdOfFiled, AllFiled(events)) <==> exists i | 0 <= i < |events| :: RefIdOf(events[i]) == Some(id)
  {
    if events != [] {
      var n := |events| - 1;
      AllFiledIds(events[..n], id);
      KeysAppend(IdOfFiled, AllFiled(events[..n]), RefsFiled(events[n]));
      RefsFiledUnderOneId(events[n]);
      assert forall i | 0 <= i < n :: events[..n][i] == events[i];
    }
  }

  /** The same, one event after the other: none files under an id used before it. */
  ghost predicate FreshRefId(front: seq<TraceEvent>, last: TraceEvent)
    requires Applies(last) && forall e | e in front :: Applies(e)
  {
    RefIdOf(last).Some? ==> forall i | 0 <= i < |front| :: RefIdOf(front[i]) != RefIdOf(last)
  }

  lemma DistinctRefEventsStep(events: seq<TraceEvent>)
    requires events != [] && forall e | e in events :: Applies(e)
    ensures var n := |events| - 1;
            DistinctRefEvents(events) <==> DistinctRefEvents(events[..n]) && FreshRefId(events[..n], events[n])
  {
    var n := |events| - 1;
    var front := events[..n];
    assert forall i | 0 <= i < n :: front[i] == events[i];
    if DistinctRefEvents(events) {
      assert forall i | 0 <= i < n && RefIdOf(events[i]).Some? :: RefIdOf(events[i]) != RefIdOf(events[n]);
    }
  }

  lemma FreshIsDisjoint(front: seq<TraceEvent>, last: TraceEvent)
    requires Applies(last) && forall e | e in front :: Applies(e)
    ensures FreshRefId(front, last) <==> Keys(IdOfFiled, AllFiled(front)) * Keys(IdOfFiled, RefsFiled(last)) == {}
  {
    RefsFiledUnderOneId(last);
    if RefIdOf(last).Some? {
      var id, used := RefIdOf(last).value, Keys(IdOfFiled, AllFiled(front));
      AllFiledIds(front, id);
      SingletonMeets(used, id);
    }
  }

  lemma SingletonMeets<T>(s: set<T>, x: T)
    ensures s * {x} == {} <==> x !in s
  {
    if x in s {
      assert x in s * {x};
    }
  }

  lemma OneFileDiffsStep(events: seq<TraceEvent>)
    requires events != [] && forall e | e in events :: Applies(e)
    ensures var n := |events| - 1;
            OneFileDiffs(events) <==>
            OneFileDiffs(events[..n]) && (IsFiledDiff(events[n]) ==> |events[n].payload.fileChanges| <= 1)
  {
    var n := |events| - 1;
    assert forall e :: e in events <==> e in events[..n] || e == events[n];
  }

  lemma {:induction false} AllFiledDistinctIff(events: seq<TraceEvent>)
    requires forall e | e in events :: Applies(e)
    ensures DistinctKeys(IdOfFiled, AllFiled(events)) <==> OneFileDiffs(events) && DistinctRefEvents(events)
  {
    if events != [] {
      var front, last := events[..|events| - 1], events[|events| - 1];
      AllFiledDistinctIff(front);
      DistinctKeysAppend(IdOfFiled, AllFiled(front), RefsFiled(last));
      RefsFiledUnderOneId(last);
      OneFileDiffsStep(events);
      DistinctRefEventsStep(events);
      FreshIsDisjoint(front, last);
    }
  }

  /**
   * The ids of a built graph's file refs are pairwise distinct, as the primary key of the SQLite
   * table needs, exactly when every diff of an artifact changes at most one file and no two events
   * file under one id.
   */
  lemma RefIdsDistinctIff(events: seq<TraceEvent>)
    requires BuildGraph(events).Ok?
    ensures forall e | e in events :: Applies(e)
    ensures RefIdsDistinct(BuildGraph(events).value) <==> OneFileDiffs(events) && DistinctRefEvents(events)
  {
    BuildApplies(events);
    forall path
      ensures FilesAt(BuildGraph(events).value, path) == RefsAt(AllFiled(events), path)
    {
      FilesAreThoseFiled(events, path);
    }
    GraphIdsIff(BuildGraph(events).value, AllFiled(events));
    AllFiledDistinctIff(events);
  }

  /** So one diff of two or more files is enough to break the key. */
  lemma MultiFileDiffBreaksKey(events: seq<TraceEvent>, e: TraceEvent)
    requires BuildGraph(events).Ok? && e in events && IsFiledDiff(e) && |e.payload.fileChanges| >= 2
    ensures !RefIdsDistinct(BuildGraph(events).value)
  {
    RefIdsDistinctIff(events);
  }
}
