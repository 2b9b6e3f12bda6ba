/**
 * The event envelope and its typed payloads (crates/protocol/src). A payload that does not parse as
 * its event type's is one whose constructor does not match the event type.
 */
module Events {
  import opened Base

  /** A UUID: its text form sorts as the number does. */
  type EventId = nat

  datatype EventType =
    | OrgCreated | OrgUpdated | ProjectCreated | ProjectUpdated | MissionCreated | MissionUpdated
    | SessionStarted | SessionLinkedToMission | SessionLogUploaded
    | ArtifactCreated | ArtifactUpdated | ArtifactLinkedToMission | ArtifactFileRefRecorded
    | ArtifactAttachmentUploaded | ArtifactReviewed | ArtifactAccepted
    | RepoContextCaptured | DiffCaptured | ExternalRefLinked | SourceSessionObserved

  datatype MissionStatus = Planned | Active | Blocked | Completed | Archived

  datatype DiffTarget = Working | Staged | Range

  datatype ChangeKind = Added | Modified | Deleted | Renamed | Copied | TypeChanged | UnknownChange

  datatype DiffHunk = DiffHunk(oldStart: nat, oldLines: nat, newStart: nat, newLines: nat, header: Option<string>)

  datatype FileChange = FileChange(
    path: string,
    oldPath: Option<string>,
    kind: ChangeKind,
    additions: Option<nat>,
    deletions: Option<nat>,
    hunks: seq<DiffHunk>,
    patchId: Option<string>)

  datatype Actor = Actor(actorType: string, actorId: string)

  datatype Payload =
    | OrgCreatedPayload(name: string, description: Option<string>, repoContext: Option<string>)
    | OrgUpdatedPayload(newName: Option<string>, newDescription: Option<string>, repoContext: Option<string>)
    | ProjectCreatedPayload(orgId: string, name: string, description: Option<string>, repoContext: Option<string>)
    | ProjectUpdatedPayload(newOrgId: Option<string>, newName: Option<string>, newDescription: Option<string>,
                            repoContext: Option<string>)
    | MissionCreatedPayload(projectId: string, title: string, description: Option<string>, status: MissionStatus,
                            repoContext: Option<string>)
    | MissionUpdatedPayload(newProjectId: Option<string>, newTitle: Option<string>, newDescription: Option<string>,
                            newStatus: Option<MissionStatus>, repoContext: Option<string>)
    | SessionStartedPayload(sessionName: Option<string>, repoContext: Option<string>)
    | SessionLinkedPayload(repoContext: Option<string>)
    | SessionLogPayload(logRefId: string, repoContext: Option<string>)
    | ArtifactCreatedPayload(kind: string, title: string, body: Option<string>, repoContext: Option<string>)
    | ArtifactUpdatedPayload(newTitle: Option<string>, newBody: Option<string>, newKind: Option<string>,
                             repoContext: Option<string>)
    | ArtifactLinkedPayload(repoContext: Option<string>)
    | FileRefPayload(fileRefId: string, path: string, repoContext: Option<string>)
    | AttachmentPayload(attachmentId: string, name: string, repoContext: Option<string>)
    | DiffPayload(target: DiffTarget, fileChanges: seq<FileChange>, repoContext: Option<string>)
    | RepoContextPayload(branch: Option<string>, headCommit: Option<string>, dirty: bool)
    | SessionObservedPayload(sourceId: string, externalId: string, sessionTitle: Option<string>, sourcePath: Option<string>,
                             updatedAt: Option<string>, touchedFiles: seq<string>, chunks: seq<string>)
    | OtherPayload(json: string)

  datatype TraceEvent = TraceEvent(
    eventId: EventId,
    eventType: EventType,
    occurredAt: Instant,
    recordedAt: Instant,
    actor: Actor,
    repoId: Option<string>,
    orgId: Option<string>,
    projectId: Option<string>,
    missionId: Option<string>,
    sessionId: Option<string>,
    artifactId: Option<string>,
    repoContextId: Option<string>,
    payload: Payload)
}
