/** What holds of every graph that any stream builds, and of any two graphs built from the same events. */
module GraphInvariants {
  import opened Base
  import opened Events
  import opened TraceIndexing
  import opened GraphFacts
  import opened GraphSteps
  import opened GraphParents
  import opened GraphPaths

  // ---- what one event names is closed ----

  /** The other direction of an edge that both ends list; any other fact is its own mirror. */
  function Mirror(f: Fact): Fact {
    match f
    case MissionListsSession(m, s) => SessionListsMission(s, m)
    case SessionListsMission(s, m) => MissionListsSession(m, s)
    case MissionListsArtifact(m, a) => ArtifactListsMission(a, m)
    case ArtifactListsMission(a, m) => MissionListsArtifact(m, a)
    case SessionListsArtifact(s, a) => ArtifactListsSession(a, s)
    case ArtifactListsSession(a, s) => SessionListsArtifact(s, a)
    case _ => f
  }

  /** The entity at the far end of a list entry. A file ref may name an artifact that no event has named. */
  function FarEnd(f: Fact): Fact {
    match f
    case OrgListsProject(_, p) => HasProject(p)
    case ProjectListsMission(_, m) => HasMission(m)
    case MissionListsSession(_, s) => HasSession(s)
    case SessionListsMission(_, m) => HasMission(m)
    case MissionListsArtifact(_, a) => HasArtifact(a)
    case ArtifactListsMission(_, m) => HasMission(m)
    case SessionListsArtifact(_, a) => HasArtifact(a)
    case ArtifactListsSession(_, s) => HasSession(s)
    case SessionListsLog(_, l) => HasLog(l)
    case ArtifactListsAttachment(_, x) => HasAttachment(x)
    case ArtifactListsDiff(_, d) => HasDiff(d)
    case FileRefersTo(p, _, _) => HasFile(p)
    case _ => f
  }

  lemma {:induction false} DiffFilesClosed(changes: seq<FileChange>, a: string, r: RefId, f: Fact)
    ensures f in DiffFilesNamed(changes, a, r) ==> (f.HasFile? || f.FileRefersTo?) && FarEnd(f) in DiffFilesNamed(changes, a, r)
  {
    if changes != [] {
      DiffFilesClosed(changes[..|changes| - 1], a, r, f);
    }
  }

  lemma MissionIfAnyClosed(a: string, e: TraceEvent, f: Fact)
    ensures f in MissionIfAny(a, e) <==> Mirror(f) in MissionIfAny(a, e)
    ensures f in MissionIfAny(a, e) ==> FarEnd(f) in MissionIfAny(a, e)
  {
  }

  lemma SessionIfAnyClosed(a: string, e: TraceEvent, f: Fact)
    ensures f in SessionIfAny(a, e) <==> Mirror(f) in SessionIfAny(a, e)
    ensures f in SessionIfAny(a, e) ==> FarEnd(f) in SessionIfAny(a, e)
  {
  }

  lemma NamedClosed(e: TraceEvent, f: Fact)
    requires Applies(e)
    ensures f in Named(e) <==> Mirror(f) in Named(e)
    ensures f in Named(e) ==> FarEnd(f) in Named(e)
  {
    if HasIds(e) && e.artifactId.Some? {
      MissionIfAnyClosed(e.artifactId.value, e, f);
      SessionIfAnyClosed(e.artifactId.value, e, f);
      if e.eventType == DiffCaptured {
        DiffFilesClosed(e.payload.fileChanges, e.artifactId.value, OfDiff(e.eventId), f);
        DiffFilesClosed(e.payload.fileChanges, e.artifactId.value, OfDiff(e.eventId), Mirror(f));
      }
    }
  }

  // ---- every built graph ----

  lemma HoldsClosed(events: seq<TraceEvent>, f: Fact)
    requires BuildGraph(events).Ok? && Holds(BuildGraph(events).value, f)
    ensures Holds(BuildGraph(events).value, Mirror(f))
    ensures Holds(BuildGraph(events).value, FarEnd(f))
  {
    var e := NamerOf(events, f);
    NamedClosed(e, f);
    NamedHolds(events, e, Mirror(f));
    NamedHolds(events, e, FarEnd(f));
  }

  lemma NamerOf(events: seq<TraceEvent>, f: Fact) returns (e: TraceEvent)
    requires BuildGraph(events).Ok? && Holds(BuildGraph(events).value, f)
    ensures e in events && Applies(e) && f in Named(e)
  {
    BuildSaysWhatIsNamed(events);
    assert NamedBy(events, f);
    e :| e in events && Applies(e) && f in Named(e);
  }

  lemma MirrorHolds(events: seq<TraceEvent>, f: Fact)
    requires BuildGraph(events).Ok?
    ensures Holds(BuildGraph(events).value, f) <==> Holds(BuildGraph(events).value, Mirror(f))
  {
    if Holds(BuildGraph(events).value, f) {
      HoldsClosed(events, f);
    }
    if Holds(BuildGraph(events).value, Mirror(f)) {
      HoldsClosed(events, Mirror(f));
      MirrorTwice(f);
    }
  }

  lemma MirrorTwice(f: Fact)
    ensures Mirror(Mirror(f)) == f
  {
  }

  // Both ends of a session-mission, artifact-mission or artifact-session edge exist and list each other.

  lemma SessionListsMirror(g: Graph, s: string, m: string)
    requires Holds(g, MissionListsSession(m, s)) <==> Holds(g, Mirror(MissionListsSession(m, s)))
    ensures (m in g.missions && s in g.missions[m].sessionIds) <==> (s in g.sessions && m in g.sessions[s].missionIds)
  {
  }

  lemma SessionsMatchMissions(events: seq<TraceEvent>, s: string, m: string)
    requires BuildGraph(events).Ok?
    ensures var g := BuildGraph(events).value;
            (m in g.missions && s in g.missions[m].sessionIds) <==> (s in g.sessions && m in g.sessions[s].missionIds)
  {
    MirrorHolds(events, MissionListsSession(m, s));
    SessionListsMirror(BuildGraph(events).value, s, m);
  }

  lemma ArtifactMissionListsMirror(g: Graph, a: string, m: string)
    requires Holds(g, MissionListsArtifact(m, a)) <==> Holds(g, Mirror(MissionListsArtifact(m, a)))
    ensures (m in g.missions && a in g.missions[m].artifactIds) <==> (a in g.artifacts && m in g.artifacts[a].missionIds)
  {
  }

  lemma ArtifactsMatchMissions(events: seq<TraceEvent>, a: string, m: string)
    requires BuildGraph(events).Ok?
    ensures var g := BuildGraph(events).value;
            (m in g.missions && a in g.missions[m].artifactIds) <==> (a in g.artifacts && m in g.artifacts[a].missionIds)
  {
    MirrorHolds(events, MissionListsArtifact(m, a));
    ArtifactMissionListsMirror(BuildGraph(events).value, a, m);
  }

  lemma ArtifactSessionListsMirror(g: Graph, a: string, s: string)
    requires Holds(g, SessionListsArtifact(s, a)) <==> Holds(g, Mirror(SessionListsArtifact(s, a)))
    ensures (s in g.sessions && a in g.sessions[s].artifactIds) <==> (a in g.artifacts && s in g.artifacts[a].sessionIds)
  {
  }

  lemma ArtifactsMatchSessions(events: seq<TraceEvent>, a: string, s: string)
    requires BuildGraph(events).Ok?
    ensures var g := BuildGraph(events).value;
            (s in g.sessions && a in g.sessions[s].artifactIds) <==> (a in g.artifacts && s in g.artifacts[a].sessionIds)
  {
    MirrorHolds(events, SessionListsArtifact(s, a));
    ArtifactSessionListsMirror(BuildGraph(events).value, a, s);
  }

  // ---- the same events in another order ----

  /** The two graphs index the same entities. */
  ghost predicate SameKeys(g: Graph, h: Graph) {
    && g.orgs.Keys == h.orgs.Keys && g.projects.Keys == h.projects.Keys && g.missions.Keys == h.missions.Keys
    && g.sessions.Keys == h.sessions.Keys && g.artifacts.Keys == h.artifacts.Keys
    && g.attachments.Keys == h.attachments.Keys && g.diffs.Keys == h.diffs.Keys && g.logs.Keys == h.logs.Keys
    && g.files.Keys == h.files.Keys && g.repoContexts.Keys == h.repoContexts.Keys
  }

  /** And every entity lists the same others. */
  ghost predicate SameEdges(g: Graph, h: Graph)
    requires SameKeys(g, h)
  {
    && (forall o | o in g.orgs :: o in h.orgs && g.orgs[o].projectIds == h.orgs[o].projectIds)
    && (forall p | p in g.projects :: p in h.projects && g.projects[p].missionIds == h.projects[p].missionIds)
    && (forall m | m in g.missions :: m in h.missions
          && g.missions[m].sessionIds == h.missions[m].sessionIds && g.missions[m].artifactIds == h.missions[m].artifactIds)
    && (forall s | s in g.sessions :: s in h.sessions
          && g.sessions[s].missionIds == h.sessions[s].missionIds && g.sessions[s].artifactIds == h.sessions[s].artifactIds
          && g.sessions[s].logRefIds == h.sessions[s].logRefIds)
    && (forall a | a in g.artifacts :: a in h.artifacts
          && g.artifacts[a].missionIds == h.artifacts[a].missionIds && g.artifacts[a].sessionIds == h.artifacts[a].sessionIds
          && g.artifacts[a].attachmentIds == h.artifacts[a].attachmentIds && g.artifacts[a].diffIds == h.artifacts[a].diffIds)
  }

  ghost predicate SameFacts(g: Graph, h: Graph) {
    forall f :: Holds(g, f) <==> Holds(h, f)
  }

  lemma SameFactsSameKeys(g: Graph, h: Graph)
    requires SameFacts(g, h)
    ensures SameKeys(g, h)
  {
    forall x: string
      ensures x in g.orgs <==> x in h.orgs
      ensures x in g.projects <==> x in h.projects
      ensures x in g.missions <==> x in h.missions
      ensures x in g.sessions <==> x in h.sessions
      ensures x in g.artifacts <==> x in h.artifacts
      ensures x in g.attachments <==> x in h.attachments
      ensures x in g.logs <==> x in h.logs
      ensures x in g.files <==> x in h.files
      ensures x in g.repoContexts <==> x in h.repoContexts
    {
      assert Holds(g, HasOrg(x)) <==> Holds(h, HasOrg(x));
      assert Holds(g, HasProject(x)) <==> Holds(h, HasProject(x));
      assert Holds(g, HasMission(x)) <==> Holds(h, HasMission(x));
      assert Holds(g, HasSession(x)) <==> Holds(h, HasSession(x));
      assert Holds(g, HasArtifact(x)) <==> Holds(h, HasArtifact(x));
      assert Holds(g, HasAttachment(x)) <==> Holds(h, HasAttachment(x));
      assert Holds(g, HasLog(x)) <==> Holds(h, HasLog(x));
      assert Holds(g, HasFile(x)) <==> Holds(h, HasFile(x));
      assert Holds(g, HasRepoContext(x)) <==> Holds(h, HasRepoContext(x));
    }
    forall d: EventId
      ensures d in g.diffs <==> d in h.diffs
    {
      assert Holds(g, HasDiff(d)) <==> Holds(h, HasDiff(d));
    }
  }

  lemma SameOrgLists(g: Graph, h: Graph, o: string)
    requires SameFacts(g, h) && o in g.orgs && o in h.orgs
    ensures g.orgs[o].projectIds == h.orgs[o].projectIds
  {
    forall p
      ensures p in g.orgs[o].projectIds <==> p in h.orgs[o].projectIds
    {
      assert Holds(g, OrgListsProject(o, p)) <==> Holds(h, OrgListsProject(o, p));
    }
  }

  lemma SameProjectLists(g: Graph, h: Graph, p: string)
    requires SameFacts(g, h) && p in g.projects && p in h.projects
    ensures g.projects[p].missionIds == h.projects[p].missionIds
  {
    forall m
      ensures m in g.projects[p].missionIds <==> m in h.projects[p].missionIds
    {
      assert Holds(g, ProjectListsMission(p, m)) <==> Holds(h, ProjectListsMission(p, m));
    }
  }

  lemma SameMissionLists(g: Graph, h: Graph, m: string)
    requires SameFacts(g, h) && m in g.missions && m in h.missions
    ensures g.missions[m].sessionIds == h.missions[m].sessionIds && g.missions[m].artifactIds == h.missions[m].artifactIds
  {
    forall x
      ensures x in g.missions[m].sessionIds <==> x in h.missions[m].sessionIds
      ensures x in g.missions[m].artifactIds <==> x in h.missions[m].artifactIds
    {
      assert Holds(g, MissionListsSession(m, x)) <==> Holds(h, MissionListsSession(m, x));
      assert Holds(g, MissionListsArtifact(m, x)) <==> Holds(h, MissionListsArtifact(m, x));
    }
  }

  lemma SameSessionLists(g: Graph, h: Graph, s: string)
    requires SameFacts(g, h) && s in g.sessions && s in h.sessions
    ensures g.sessions[s].missionIds == h.sessions[s].missionIds && g.sessions[s].artifactIds == h.sessions[s].artifactIds
    ensures g.sessions[s].logRefIds == h.sessions[s].logRefIds
  {
    forall x
      ensures x in g.sessions[s].missionIds <==> x in h.sessions[s].missionIds
      ensures x in g.sessions[s].artifactIds <==> x in h.sessions[s].artifactIds
      ensures x in g.sessions[s].logRefIds <==> x in h.sessions[s].logRefIds
    {
      assert Holds(g, SessionListsMission(s, x)) <==> Holds(h, SessionListsMission(s, x));
      assert Holds(g, SessionListsArtifact(s, x)) <==> Holds(h, SessionListsArtifact(s, x));
      assert Holds(g, SessionListsLog(s, x)) <==> Holds(h, SessionListsLog(s, x));
    }
  }

  lemma SameArtifactLinks(g: Graph, h: Graph, a: string)
    requires SameFacts(g, h) && a in g.artifacts && a in h.artifacts
    ensures g.artifacts[a].missionIds == h.artifacts[a].missionIds && g.artifacts[a].sessionIds == h.artifacts[a].sessionIds
  {
    forall x
      ensures x in g.artifacts[a].missionIds <==> x in h.artifacts[a].missionIds
      ensures x in g.artifacts[a].sessionIds <==> x in h.artifacts[a].sessionIds
    {
      assert Holds(g, ArtifactListsMission(a, x)) <==> Holds(h, ArtifactListsMission(a, x));
      assert Holds(g, ArtifactListsSession(a, x)) <==> Holds(h, ArtifactListsSession(a, x));
    }
  }

  lemma SameArtifactContents(g: Graph, h: Graph, a: string)
    requires SameFacts(g, h) && a in g.artifacts && a in h.artifacts
    ensures g.artifacts[a].attachmentIds == h.artifacts[a].attachmentIds && g.artifacts[a].diffIds == h.artifacts[a].diffIds
  {
    forall x
      ensures x in g.artifacts[a].attachmentIds <==> x in h.artifacts[a].attachmentIds
    {
      assert Holds(g, ArtifactListsAttachment(a, x)) <==> Holds(h, ArtifactListsAttachment(a, x));
    }
    forall d
      ensures d in g.artifacts[a].diffIds <==> d in h.artifacts[a].diffIds
    {
      assert Holds(g, ArtifactListsDiff(a, d)) <==> Holds(h, ArtifactListsDiff(a, d));
    }
  }

  /** Streams with the same set of events build graphs with the same entities and the same edges, or both fail. */
  lemma SameEventsSameGraph(s: seq<TraceEvent>, t: seq<TraceEvent>)
    requires Elements(s) == Elements(t)
    ensures BuildGraph(s).Ok? <==> BuildGraph(t).Ok?
    ensures BuildGraph(s).Ok? ==>
              SameKeys(BuildGraph(s).value, BuildGraph(t).value) && SameEdges(BuildGraph(s).value, BuildGraph(t).value)
  {
    SameEventsSameFacts(s, t);
    if BuildGraph(s).Ok? {
      SameFactsSameEdges(BuildGraph(s).value, BuildGraph(t).value);
    }
  }

  lemma SameFactsSameEdges(g: Graph, h: Graph)
    requires SameFacts(g, h)
    ensures SameKeys(g, h) && SameEdges(g, h)
  {
    SameFactsSameKeys(g, h);
    forall o | o in g.orgs {
      SameOrgLists(g, h, o);
    }
    forall p | p in g.projects {
      SameProjectLists(g, h, p);
    }
    forall m | m in g.missions {
      SameMissionLists(g, h, m);
    }
    forall s | s in g.sessions {
      SameSessionLists(g, h, s);
    }
    forall a | a in g.artifacts
      ensures a in h.artifacts
      ensures g.artifacts[a].missionIds == h.artifacts[a].missionIds && g.artifacts[a].sessionIds == h.artifacts[a].sessionIds
      ensures g.artifacts[a].attachmentIds == h.artifacts[a].attachmentIds && g.artifacts[a].diffIds == h.artifacts[a].diffIds
    {
      SameArtifactLinks(g, h, a);
      SameArtifactContents(g, h, a);
    }
  }
}
