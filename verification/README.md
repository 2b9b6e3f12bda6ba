# Brick: a verified model

Brick records what coding agents did in a repository as an append-only ledger of events. The ledger is
folded into a graph index, which is cached; it is fed by incremental refreshes of external session
stores, merged with remote ledgers, and queried through line blame and a timeline. This project models
those parts in Dafny and proves what they promise, or, where the code keeps less than a comment or a
name promises, exactly when it keeps it.

| part | modules |
|---|---|
| ledger and remote merge | `Events`, `Ledger`, `Dedup`, `RemoteMerge` |
| graph index and its cache | `TraceIndexing`, `TraceIndexStore`, `GraphFacts`, `GraphSteps`, `GraphParents`, `GraphPaths`, `GraphFiles`, `GraphInvariants`, `IndexCache` |
| incremental refresh | `Refresh`, `RefreshRuns`, `RefreshEdges`, `FileWalk`, `SessionListing`, `ObservationId`, `ObservationLedger` |
| line blame and timeline | `Blame`, `BlameLaws`, `Explain`, `Timeline`, `PathMatch` |
| parsers, patterns and canonical forms | `Numstat`, `UnifiedDiff`, `UnifiedDiffLaws`, `SummaryForm`, `SummaryFields`, `FolderQuery`, `Decimal` |
| managed text regions | `ManagedBlock` |
| shared | `Base`, `Sorting`, `Text`, `ColonJoin` |

Classes stand for the objects the program updates in place (`LocalEventStore`, `LocalStore`, `TraceIndex`,
`RefreshStore`, `MemoryFile`, `CausalChain`); their methods are tied to functions on values, and the lemmas
are about those functions. A refresh is a transition system whose steps are source changes, removals,
parser changes, and refreshes that succeed or stop at any point.

Where code and documentation disagree the model follows the code. The cases: an orphan start marker defeats
the managed region; a refresh limit, a parser upgrade that no listed row shows, and a failure inside a session
or in the middle of a rescan can lose something; a state database restamps sessions that are not observed
again; a watermark filtered by file time can move back, which loses nothing; moving a project or mission
leaves it on the old parent's list; a file ref before its artifact is not added to the artifact's paths; a
diff of several files repeats a file ref id that a table takes as its primary key; merges that disagree on an
id depend on their order; blame can overlay a working diff that has been committed since; SQLite's LIKE
ignores ASCII case, so a row can report a path that does not match the query; equal file times defeat the
listing's dedup; changes of the same paths can make the summary hash depend on order; a colon in an identifier
makes observation ids collide.

Inputs that the program takes from outside are parameters: git's blame and log output, a commit's patch id,
the rendering of an event as a step, the hash behind event ids (injective where that is needed), file
contents, and the clock.

`dafny verify dfyconfig.toml` checks the whole project.

## Model

| member | source | states |
|---|---|---|
| `Ledger.LocalEventStore.AppendEvent` | crates/core/src/local_event_store.rs:55-107 | An append that parses leaves exactly the compacted row and its own chunk rows; one that does not parse is reported and changes nothing. |
| `Ledger.LocalEventStore.AppendEvents` | crates/core/src/local_event_store.rs:109-114 | A batch is appended in order up to the first event that cannot be; the earlier ones stay. |
| `Ledger.LocalEventStore.ReadEventsForRepoWithChunks` | crates/core/src/local_event_store.rs:141-182 | The hydrating loop returns the repository's events, in canonical order, each with its own chunks put back. |
| `Ledger.ReadIdsLists` | crates/core/src/local_event_store.rs:120-139 | A read lists each of the repository's ids once, by time and then id, and no other id. |
| `Ledger.ReachableValid` | crates/core/src/local_event_store.rs:55-107 | In every state that appends can reach, rows are keyed by their own id and repository, every chunk row belongs to a stored event, and each event's chunks are numbered 0 to n - 1. |
| `Ledger.AppendKeepsValid` | crates/core/src/local_event_store.rs:55-107 | Each append, failing or not, keeps that invariant. |
| `Ledger.HydrateAppended` | crates/core/src/local_event_store.rs:306-336 | Appending an event and hydrating its row gives the event back exactly when the id was new or the row already held the same compact event. |
| `Ledger.AppendedChunks` | crates/core/src/local_event_store.rs:80-104 | After an append the event's stored chunks, read by index, are its chunks in order, whatever was stored before. |
| `Ledger.AppendFrame` | crates/core/src/local_event_store.rs:65-104 | No append changes or removes a row, and none touches another event's chunks. |
| `Ledger.AppendsCommute` | crates/core/src/local_event_store.rs:55-107 | Events with different ids can be appended in either order: both tables end up the same. |
| `RemoteMerge.NewEventsAreNew` | crates/core/src/store.rs:186-192 | Deduplication keeps the order, keeps only unknown events with distinct ids, and covers every unknown id of the batch. |
| `RemoteMerge.AppendAllSameEvents` | crates/core/src/store.rs:195-200 | Appending a batch whose ids agree depends only on which events it holds, not on order or repeats. |
| `RemoteMerge.MergedIds` | crates/core/src/store.rs:186-200 | After deduplicating and appending, the stored ids are the union of both sides. |
| `RemoteMerge.MergedVisibleIff` | crates/core/src/store.rs:181-200 | What the repository can see is the union exactly when no new event is addressed to, or already stored under, another repository. |
| `RemoteMerge.MergeTwice` | crates/core/src/store.rs:186-200 | Deduplicating and appending the same batch again changes neither table, even when the first append stopped at an event it could not take; a pull never gets that far. |
| `RemoteMerge.MergesCommute` | crates/core/src/store.rs:186-200 | Two batches that agree on shared ids give the same ledger in either order, also when some of their events belong to other repositories. |
| `RemoteMerge.MergesCommuteIff` | crates/core/src/store.rs:186-200 | Two batches give the same ledger in either order exactly when, under each id new to both, appending the first event of the one or of the other alone leaves the same row and chunks. |
| `RemoteMerge.ForeignRowOtherChunks` | crates/core/src/local_event_store.rs:65-104 | When the first batch addresses a new id to another repository, the second merge does not see it: the first row stays, with the second event's chunks under it. |
| `RemoteMerge.PullTwice` | crates/sync/src/lib.rs:375-395 | Pulling the same events again changes nothing, whether the first pull merged them or failed on one that does not decode. |
| `IndexCache.LocalStore.LoadOrRebuildIndex` | crates/core/src/store.rs:399-411 | Whether it trusts the cache or rebuilds, it returns the index of the current events, and fails exactly when building that index fails. |
| `IndexCache.LocalStore.RebuildIndex` | crates/core/src/store.rs:249-260 | A rebuild returns and caches the index of the current events; a failing one leaves the cache as it was. |
| `IndexCache.LocalStore.AppendEvent` | crates/core/src/store.rs:161-166 | Appending keeps the cache invariant although it does not touch the cache. |
| `IndexCache.LocalStore.AppendRemoteEvents` | crates/core/src/store.rs:195-200 | So does appending a batch, also one that stops half way. |
| `IndexCache.LocalStore.DedupeRemoteEvents` | crates/core/src/store.rs:186-192 | The loop that inserts into the set of known ids keeps exactly the first event of each id the repository has not stored. |
| `IndexCache.LocalStore.PullRemoteEvents` | crates/sync/src/lib.rs:369-395 | A pull merges the new events when all of them decode, and otherwise fails and appends nothing; it keeps the cache invariant. |
| `IndexCache.LocalStore.RecentEvents` | crates/core/src/store.rs:203-208 | Returns the last events of the canonical order, as many as the limit and the ledger allow. |
| `IndexCache.MatchingCacheIsCurrent` | crates/core/src/store.rs:399-411 | A cache built from some subset of the repository's events with a matching count is the index of all of them. |
| `IndexCache.CacheSurvives` | crates/core/src/local_event_store.rs:65-77 | However the ledger grows, a cache stays one built from a subset of the repository's events, read in the same order. |
| `IndexCache.LoadedIsCurrent` | crates/core/src/store.rs:399-411 | After any run of appends, pulls, rebuilds and loads by any repositories sharing the ledger, what a load returns equals a recomputation from the current events. |
| `TraceIndexStore.Build` | crates/core/src/index.rs:27-33 | Updating ten maps in place, event by event, gives the fold of the stream, or stops at the first event whose payload does not parse. |
| `TraceIndexStore.TraceIndex.Apply` | crates/core/src/index.rs:53-76 | One event updates the maps exactly as its graph function says, or fails and changes nothing. |
| `TraceIndexStore.TraceIndex.ApplyDiffCaptured` | crates/core/src/index.rs:445-531 | A diff is stored with its totals, its paths are added to the artifact and the files in order, and its session and mission are linked. |
| `TraceIndexStore.TraceIndex.ApplyArtifactFileRef` | crates/core/src/index.rs:376-403 | A file ref is always filed, and reaches the artifact only if the artifact is indexed already. |
| `GraphSteps.ApplyEventGrows` | crates/core/src/index.rs:53-76 | An event adds exactly the entities and edges it names, whatever came before it. |
| `GraphSteps.BuildSaysWhatIsNamed` | crates/core/src/index.rs:27-33 | A stream builds exactly when every event applies, and then its index has exactly the entities and edges that some event names. |
| `GraphInvariants.SameEventsSameGraph` | crates/core/src/index.rs:27-33 | Streams with the same set of events, in any order and with repeats, both fail or build indexes with the same keys and the same id lists. |
| `GraphInvariants.HoldsClosed` | crates/core/src/index.rs:588-649 | In every built index every listed entity exists, and every session, mission and artifact edge is listed at both ends. |
| `GraphInvariants.SessionsMatchMissions` | crates/core/src/index.rs:588-607 | A mission lists a session exactly when the session lists the mission. |
| `GraphInvariants.ArtifactsMatchMissions` | crates/core/src/index.rs:609-628 | A mission lists an artifact exactly when the artifact lists the mission. |
| `GraphInvariants.ArtifactsMatchSessions` | crates/core/src/index.rs:630-649 | A session lists an artifact exactly when the artifact lists the session. |
| `GraphParents.ApplySetsParent` | crates/core/src/index.rs:551-586 | An event sets the parent of exactly the project, mission, log, attachment or diff for which it names one. |
| `GraphParents.ParentIsLastNamed` | crates/core/src/index.rs:116-219 | The parent recorded is the one the stream names last. |
| `GraphParents.ParentListsChild` | crates/core/src/index.rs:266-531 | In every built index a recorded parent exists and lists the child: org and project, project and mission, session and log, artifact and attachment, artifact and diff. |
| `GraphParents.OnlyParentListsChildIff` | crates/core/src/index.rs:551-586 | The converse, that only the recorded parent lists a child, holds exactly when no two events name different parents for it. |
| `GraphPaths.PathsAreThoseGiven` | crates/core/src/index.rs:376-403 | An artifact's paths are exactly those of its diffs and of the file refs that come after some event has named the artifact. |
| `GraphPaths.PathHasFileRef` | crates/core/src/index.rs:376-531 | Every path of an artifact has a file ref naming that artifact. |
| `GraphPaths.PathLostIff` | crates/core/src/index.rs:376-403 | A path that the stream names for an artifact is missing from it exactly when only file refs name it and all of them come before any event names the artifact. |
| `GraphPaths.FileRefFirstLosesPathIff` | crates/core/src/index.rs:392-400 | After any stream, a file ref followed by the event creating its artifact is lost to the artifact exactly when the stream has not named the artifact; in the other order it never is. |
| `GraphFiles.FilesAreThoseFiled` | crates/core/src/index.rs:376-531 | A path's file refs are those that the stream files under it, in its order. |
| `GraphFiles.RefIdsDistinctIff` | crates/core/src/sqlite_schema.rs:157-164 | The file ref ids of a built index are pairwise distinct, as the primary key of the SQLite table demands, exactly when every diff of an artifact changes at most one file and no two events file under one id. |
| `GraphFiles.MultiFileDiffBreaksKey` | crates/core/src/index.rs:509-522 | One diff of two or more files in the stream is enough to make two file refs share an id. |
| `Refresh.RefreshStore.RefreshSingleProfile` | crates/cli/src/history.rs:294-374 | The loop over the listed sessions leaves the tables of a session-by-session pass, cut off where it fails, and returns the newest updated time and matching counts. |
| `Refresh.RefreshStore.RefreshProfile` | crates/cli/src/history.rs:176-239 | The watermark moves only after a pass that succeeds, and only to a known time. |
| `Refresh.RefreshStore.HandleSession` | crates/cli/src/history.rs:309-371 | One session: fingerprint skip or re-index, then its event; a failure leaves just the writes made before it. |
| `Refresh.RefreshStore.ChunksOrBackfill` | crates/cli/src/history.rs:376-402 | Stored chunks are used as they are; only when there are none is the session formatted and stored. |
| `RefreshRuns.HandleAllMakesCurrent` | crates/cli/src/history.rs:294-374 | A session that a fault-free pass handles, listed once or more often, ends up current exactly when the fingerprint skip could be trusted with the row it had; a session that is not listed stays as it was. |
| `RefreshRuns.PassAgreesIff` | crates/cli/src/history.rs:294-374 | After one pass over any part of the source every session is up to date exactly when no listed session had a row that misleads the fingerprint skip and every session left out was up to date. Up to date means current; for a source filtered by updated time it means current but for the file time and size, which the sessions of a state database share. |
| `RefreshRuns.NextPassAgreesIff` | crates/cli/src/history.rs:176-239 | In any state, the next full pass that succeeds brings everything up to date exactly when each session is above the watermark, awaits a pending rescan or is up to date, and none has such a row: the core of the protocol invariant. |
| `RefreshRuns.StepKeepsInvIff` | crates/cli/src/history.rs:176-239 | Of all that can happen, writes of any sessions with any stamps, removals, changes to a new or an older parser version, and refreshes that succeed or stop anywhere, a step keeps the protocol invariant exactly when it is tolerable: no session it wrote or reparsed is hidden and out of date or misleads the fingerprint skip, and no fault is beyond recovery. |
| `RefreshRuns.StampedChangesTolerable` | crates/core/src/native_source.rs:249-269 | A write is tolerable when each of its sessions is stamped later than anything seen before or, as in a state database where another session changed, had only its file time and size moved. |
| `RefreshRuns.TranscriptChangeIff` | crates/cli/src/history.rs:320-331 | While no rescan is pending, a change of an indexed transcript is tolerable exactly when the filter lists the new stamp and the fingerprint is not the one in the row, unless the transcript was empty and the row's other fields are still right. |
| `RefreshRuns.UpgradeKeepsInvIff` | crates/core/src/metadata_db.rs:983-997 | A change of parser version, also back to an older one and with any effect on the sessions, keeps the invariant exactly when it is tolerable; for a version that no row has this means that some row that lists show can reveal it, or the watermark hides nothing. |
| `RefreshRuns.RunInv` | crates/cli/src/history.rs:176-239 | So it holds in every state of every run, a run being a history of such steps. |
| `RefreshRuns.IncrementalRefinesRescan` | crates/cli/src/history.rs:176-239 | On every run, every session the watermark hides is up to date, or a full rescan is pending that lists it. |
| `RefreshRuns.SuccessAgreesWithSource` | crates/cli/src/history.rs:294-374 | On every run, a refresh that succeeds leaves every session of the source up to date, and every one it listed current, file time and size included. |
| `RefreshRuns.FaultKeepsInvIff` | crates/cli/src/history.rs:294-374 | A fault keeps the invariant exactly when it does not tear stale chunks from a new row and, besides, a row that it did not reach still asks for a rescan, or every session is above the watermark, handled or complete already. |
| `RefreshRuns.IncrementalFaultIff` | crates/cli/src/history.rs:294-374 | While no rescan is pending, only stale chunks torn from a new row are beyond recovery. |
| `RefreshRuns.FailureKeepsWatermark` | crates/cli/src/history.rs:200-228 | A refresh that fails, wherever it stops, leaves the watermark where it was. |
| `RefreshEdges.IncrementalWatermarkGrows` | crates/core/src/native_source.rs:255-269 | For sources filtered by updated time an incremental pass never moves the watermark back, and keeps it exactly when it lists nothing with a known time. |
| `RefreshEdges.WatermarkKeptIff` | crates/core/src/metadata_db.rs:1108-1125 | Whatever the filter, a successful pass leaves at least the stored watermark exactly when it lists nothing with a known time or something no earlier. |
| `RefreshEdges.FileTimeWatermarkGoesBack` | crates/core/src/native_source.rs:231-239 | For a source filtered by file time a pass can move it back: a witness. |
| `RefreshEdges.DroppedStaysDropped` | crates/cli/src/history.rs:24-24 | For a source filtered by updated time, a session that a limited pass dropped below the new watermark is not indexed by any number of later incremental passes while the source leaves it alone. |
| `RefreshEdges.LeftOutIndexedIff` | crates/cli/src/history.rs:294-374 | For every filter, a session left out by a pass is indexed by the next full pass exactly when the watermark then stored lists it or a rescan is pending. |
| `RefreshEdges.LimitDropsSession` | crates/cli/src/history.rs:24-24 | One limited pass over two new sessions does drop one. |
| `RefreshEdges.StaleStaysStale` | crates/cli/src/history.rs:338-348 | Stale chunks under a new fingerprint survive every later pass over the same source and feed its event. |
| `RefreshEdges.TornHealsIff` | crates/cli/src/history.rs:338-348 | A failure between the two upserts is repaired by a later pass that lists the session exactly when the old chunks were absent or right, or the session has no fingerprint. |
| `RefreshEdges.UpgradeHealedIff` | crates/core/src/metadata_db.rs:983-997 | After a change of parser version the next full pass that succeeds brings everything up to date exactly when the change was tolerable; for a new version, when a listable row shows the old one or the watermark hides nothing. |
| `RefreshEdges.RecoveredIff` | crates/cli/src/history.rs:294-374 | After a pass that fails anywhere, the next full pass that succeeds brings everything up to date exactly when the fault was recoverable. |
| `RefreshEdges.RescanFaultStrandsEvent` | crates/cli/src/history.rs:294-374 | A witness of the other case: a rescan that fails between indexing a session and appending its event leaves the event missing with no rescan pending. |
| `RefreshEdges.FaultStrands` | crates/cli/src/history.rs:176-239 | A session that a fault leaves neither up to date nor above the watermark, with no row left that asks for a rescan, is not listed by the next pass. |
| `RefreshEdges.RescanFaultStrandsUnlistable` | crates/core/src/sources/claude_code.rs:354-354 | A witness: after a parser upgrade a rescan that fails between two sessions strands the second, one that lists do not show, although the fault fell between sessions. |
| `RefreshEdges.LastEntryWins` | crates/core/src/native_source.rs:292-296 | When a listing has several entries of one session id, an entry ends current exactly when it is alike with the last of them, as long as fingerprints tell the entries apart. |
| `RefreshEdges.MismatchLeftIff` | crates/core/src/metadata_db.rs:983-997 | After a full pass that succeeds, a parser mismatch is left exactly when a listable row of another version belongs to no session of the source. |
| `RefreshEdges.LeftoverRescansForever` | crates/core/src/metadata_db.rs:983-997 | Such a row makes every later pass a full rescan, whatever else happens, until its session or its parser version is back. |
| `RefreshEdges.RestampedNotSeen` | crates/core/src/sources/cursor_family/composer.rs:117-118 | When a write to a state database moves the file time of a session that the watermark hides, the next pass does not see it: row, chunks and event still agree with the session, but carry the old fingerprint, and what it is now is not observed. |
| `RefreshEdges.RestampedWitness` | crates/core/src/sources/opencode.rs:293-294 | A world where everything was current before such a write. |
| `RefreshEdges.LedgerHoldsObservations` | crates/cli/src/history.rs:349-371 | A pass appends an event for exactly the observations it handled. |
| `RefreshEdges.SuccessIsQuiet` | crates/cli/src/history.rs:320-362 | After a refresh that succeeded, the next pass lists only sessions that are current, also where a watermark by file time moved back or restamped sessions stay hidden. |
| `RefreshEdges.RefreshTwiceSameEvents` | crates/cli/src/history.rs:320-362 | So refreshing the unchanged source again adds no event. |
| `ObservationId.NameInjective` | crates/core/src/source_session_event.rs:24-36 | Two rows whose source, external id and parser version hold no colon have the same hashed name exactly when their fields agree; the fingerprint may hold colons. |
| `ObservationId.NameUniqueIff` | crates/core/src/source_session_event.rs:24-36 | No row of other fields shares a row's name exactly when none of its four fields has a colon. |
| `ObservationId.ColonCollides` | crates/core/src/source_session_event.rs:24-36 | For any row with a colon in a field there is another row with the same event id. |
| `ObservationId.SightingsDistinct` | crates/cli/src/history.rs:446-453 | With an injective hash, what the indexer observes (time, size, parser version) determines and is determined by the event id. |
| `ObservationId.OneEventPerSighting` | crates/core/src/source_session_event.rs:24-36 | With an injective hash a set of observations has as many event ids as members. |
| `ObservationId.SessionsCollideIff` | crates/core/src/source_session_event.rs:24-36 | An observation shares its name with one of another session of the same time, size and parser version exactly when its source or external id has a colon. |
| `ObservationLedger.IdsTellApart` | crates/core/src/source_session_event.rs:24-36 | With an injective hash and no colons in ids and parser versions, observations have one event id exactly when they are the same. |
| `ObservationLedger.PassMirrors` | crates/core/src/local_event_store.rs:55-107 | Appending a pass's events to the event and chunk tables keeps them in step with the observations the pass handled. |
| `ObservationLedger.OneEventPerObservation` | crates/cli/src/history.rs:349-371 | On every history, with faults and upgrades of any kind, the stored event ids are exactly those of the observations that refreshes got through, one row each, with the chunks observed last. |
| `ObservationLedger.FurtherRefreshesAddNothing` | crates/cli/src/history.rs:320-362 | After a refresh that succeeded where the protocol invariant held, as on every run, any number of further refreshes of an unchanged source, failing anywhere or not, leave the stored rows and their chunks as they are. |
| `Blame.BlameFile` | crates/core/src/blame.rs:99-201 | With memo table, last-writer-wins index and in-place overlay, every line gets what the per-line specification says. |
| `Blame.OverlayHunk` | crates/core/src/blame.rs:180-197 | One hunk attributes exactly the uncommitted lines in its range, in place; every other line is left as it was. |
| `Blame.OverlayChanges` | crates/core/src/blame.rs:170-199 | So do all hunks of all the file's changes, for the lines any of them covers. |
| `Blame.IndexCaptures` | crates/core/src/blame.rs:111-128 | The index holds for each patch id the last event that captured it for the file, and apart from it the last working diff. |
| `Blame.CollectDiffEvents` | crates/core/src/blame.rs:344-366 | Collects exactly the decodable diff events that touch the path, in log order. |
| `BlameLaws.CommittedLine` | crates/core/src/blame.rs:145-165 | A committed line is attributed exactly when its commit's patch was captured, then to the last capture, and never by the overlay. |
| `BlameLaws.UncommittedLine` | crates/core/src/blame.rs:166-199 | An uncommitted line is attributed exactly when a non-empty hunk of the last working diff covers it, and then to that diff. |
| `BlameLaws.HunkCoversItsLines` | crates/core/src/blame.rs:181-186 | Within 64 bits a hunk covers the lines from its start to its start plus count, not included. |
| `BlameLaws.OverlaysOnlyUncommittedIff` | crates/core/src/blame.rs:22-25 | The module comment promises hunk ranges for uncommitted diffs only. Every line they attribute goes to a diff whose patch matches no commit exactly when the last working diff is such a diff, or covers no uncommitted line. |
| `BlameLaws.CommittedDiffStillOverlays` | crates/core/src/blame.rs:166-199 | A witness of the other case: one diff attributes both a line committed with its patch and a later uncommitted line. |
| `BlameLaws.BlameLineRangeHistory` | crates/core/src/blame.rs:211-271 | Rejects exactly the empty ranges; otherwise reports every commit in git's order, attributed to the last event whose first patch of the file it is, or not at all. |
| `BlameLaws.HistoryAgreesIff` | crates/core/src/blame.rs:232-243 | The history and blame attribute a patch to the same event exactly when no event carries it behind another patch of the file with no later event leading with it. |
| `Explain.ExplainFromEvents` | crates/core/src/explain.rs:474-512 | Reports the first min(depth, 8) + 1 distinct identities of the anchor, in its order, numbered from 0, and says whether more were left. |
| `Explain.TruncatedIff` | crates/core/src/explain.rs:490-505 | The chain is truncated exactly when the anchor has an identity that no reported step has; reported identities are distinct. |
| `Explain.IdentityUniqueIff` | crates/core/src/explain.rs:515-530 | An observed session shares its identity only with observations of the same session exactly when its source and session names hold no colon but at the outer ends. |
| `Explain.SmallerDepthIsPrefix` | crates/core/src/explain.rs:474-505 | A smaller depth reports a prefix of a larger one, and beyond 8 the depth makes no difference. |
| `Explain.ResolveFileLineAnchor` | crates/core/src/explain.rs:391-419 | Resolves a line to its blame's event and confidence, and a line that is not there to nothing. |
| `Explain.ResolveFileRangeAnchor` | crates/core/src/explain.rs:426-469 | Resolves a range, its ends in either order, to the distinct events of its lines, first seen first, and their strongest confidence. |
| `Explain.OneLineRangeAgrees` | crates/core/src/explain.rs:391-469 | A range of one line is resolved exactly as that line is. |
| `PathMatch.MatchIsComponentSuffix` | crates/core/src/explain.rs:347-356 | Two paths match exactly when the components of one are the last components of the other. |
| `Timeline.SourceSessionsToSteps` | crates/core/src/explain.rs:126-198 | One step for each distinct synthetic id, from its first row, numbered on from the start depth. |
| `Timeline.RowKeyUniqueIff` | crates/core/src/explain.rs:131-145 | A row shares its synthetic id with rows of its own source and session only exactly when neither name has a colon. |
| `Timeline.CausalChain.MergeSourceSteps` | crates/core/src/explain.rs:223-245 | Push, sort in place and renumber in place give the merged timeline. |
| `Timeline.MergeArranges` | crates/core/src/explain.rs:223-245 | The merge is a permutation of the chain and of exactly the source steps whose session is not in it, newest first, stable with the chain ahead on ties, depths equal to positions. |
| `Timeline.MergeAgainIff` | crates/core/src/explain.rs:223-245 | Merging the same source steps again changes nothing exactly when all of them carry session ids. |
| `Numstat.ParseNumstat` | crates/core/src/diff_capture.rs:55-102 | The index loop stays in bounds, ends, and returns the changes of the field stream or its first error. |
| `Numstat.ParseOfRender` | crates/core/src/diff_capture.rs:55-122 | Parsing the printed form of any list of text, binary and renamed files, tabs in paths allowed, gives back that list. |
| `Numstat.ParsedIsListable` | crates/core/src/diff_capture.rs:55-122 | Whatever parses is such a list, so printing a parsed list and parsing it again gives the same list. |
| `Numstat.ParseAppend` | crates/core/src/diff_capture.rs:55-102 | Streams of whole records can be parsed apart: the lists concatenate, and an error in the second is an error. |
| `Decimal.ParseOfToString` | crates/core/src/diff_capture.rs:112-122 | Printing a number and parsing it as an unsigned 64-bit integer gives it back exactly when it fits. |
| `UnifiedDiff.ParseUnifiedHunks` | crates/core/src/diff_capture.rs:347-362 | The line loop with its current path and map gives the scan of the text's lines. |
| `UnifiedDiff.HeaderReads` | crates/core/src/diff_capture.rs:379-408 | A printed hunk header reads back as its ranges and trailer, with a count of 1 written or left out. |
| `UnifiedDiffLaws.ScanOfRender` | crates/core/src/diff_capture.rs:347-408 | Scanning a printed diff finds each path's hunks, in order, over all files, no other path, and nothing for `/dev/null`. |
| `UnifiedDiffLaws.AddedLineIff` | crates/core/src/diff_capture.rs:351-353 | An added line is passed over exactly when its content does not begin with `++ `. |
| `UnifiedDiffLaws.ContextLineIff` | crates/core/src/diff_capture.rs:352-357 | A context line is passed over exactly when its content, indentation dropped, does not look like a header. |
| `UnifiedDiffLaws.RemovedLinePasses` | crates/core/src/diff_capture.rs:352-357 | A removed line, or a note about a missing end of line, is always passed over. |
| `UnifiedDiffLaws.MisreadLineDiverts` | crates/core/src/diff_capture.rs:353-375 | An added line that does look like a header makes the scan go on under the path it seems to name, or under none. |
| `SummaryForm.Normalize` | crates/core/src/diff_capture.rs:410-449 | Builds the preamble and, in sorted order, each change with its hunks, onto one string. |
| `SummaryForm.FormFreeOfOrderIff` | crates/core/src/diff_capture.rs:410-449 | Every permutation of a list of changes has the same normalized form exactly when the texts of any two changes of the same path and old path commute. |
| `SummaryForm.FormIgnoresOrder` | crates/core/src/diff_capture.rs:410-449 | So it has when paths and old paths tell the changes apart. |
| `SummaryFields.TextsCommuteIff` | crates/core/src/diff_capture.rs:425-449 | For paths without a line feed, the texts of two changes of the same paths commute exactly when their kinds, counts and hunk ranges are the same. |
| `SummaryFields.FormFreeOfOrderByFields` | crates/core/src/diff_capture.rs:410-449 | So for such paths the form does not depend on the order exactly when any two changes of the same paths have the same kind, counts and hunk ranges. |
| `SummaryForm.SamePathsKeepOrder` | crates/core/src/diff_capture.rs:419-424 | Anywhere in a list, swapping neighbouring changes of the same paths changes the form exactly when their texts do not commute. |
| `SummaryForm.FormDependsOnOrder` | crates/core/src/diff_capture.rs:419-424 | There are two such changes whose texts do not commute: a witness. |
| `FolderQuery.EscapeIsOnePass` | crates/core/src/sqlite_index.rs:484-489 | The three replacements in a row equal one pass that escapes each special character. |
| `FolderQuery.EscapeIsExact` | crates/core/src/sqlite_index.rs:484-489 | LIKE on an escaped text accepts exactly the texts equal to it up to the comparison's folding. |
| `FolderQuery.FolderPatternAgreesIff` | crates/core/src/sqlite_index.rs:480-498 | Case-sensitively the folder pattern and the path test accept the same paths exactly when the query is more than slashes. |
| `FolderQuery.CaseSensitiveReportsMatchIff` | crates/core/src/sqlite_index.rs:350-388 | Under a case-sensitive LIKE every selected row reports a path that matches the query exactly when the query is more than slashes. |
| `FolderQuery.DefaultReportsMatchIff` | crates/core/src/sqlite_index.rs:350-388 | Under SQLite's default LIKE that holds exactly when the query, less its trailing slashes, is non-empty and has no ASCII letter. |
| `ManagedBlock.MemoryFile.Install` | crates/cli/src/agent.rs:678-701 | Writes the file the text operation says, or leaves it alone when nothing is to be done, and reports which. |
| `ManagedBlock.MemoryFile.Uninstall` | crates/cli/src/agent.rs:703-727 | Likewise for removing the block. |
| `ManagedBlock.MemoryFile.Status` | crates/cli/src/agent.rs:729-737 | Reports absent, stale or present without changing the file. |
| `ManagedBlock.InstallThenPresent` | crates/cli/src/agent.rs:678-737 | After an install the status is present exactly when the text had no orphan start marker. |
| `ManagedBlock.InstallIdempotent` | crates/cli/src/agent.rs:678-701 | Installing twice is installing once exactly when the text had no orphan start marker. |
| `ManagedBlock.OrphanInstallLosesText` | crates/cli/src/agent.rs:777-781 | With an orphan marker, a second install replaces the user's text from the marker on. |
| `ManagedBlock.RefreshKeepsSurroundings` | crates/cli/src/agent.rs:684-699 | Replacing an existing block keeps the text before and after it exactly, and the block is found in place again. |
| `ManagedBlock.UninstallUndoesInstall` | crates/cli/src/agent.rs:678-727 | On a text without a block, uninstalling after installing gives the trimmed text and one newline exactly when there was no orphan start marker. |
| `ManagedBlock.UninstallRestores` | crates/cli/src/agent.rs:678-727 | So a text already of that form is given back unchanged. |
| `ManagedBlock.UninstallOfBlank` | crates/cli/src/agent.rs:703-727 | On a blank text without a block, uninstalling after installing leaves an empty text. |
| `ManagedBlock.BlockBehindPrefix` | crates/cli/src/agent.rs:777-781 | After that loss the block is found behind the text that is left, so nothing more is lost. |
| `ManagedBlock.UninstallKeepsUserText` | crates/cli/src/agent.rs:703-727 | Uninstalling removes the block and at most the newlines around it. |
| `ManagedBlock.BlockSpan` | crates/cli/src/agent.rs:777-781 | Markers cannot match across the seams: the block found is the block put in. |
| `ManagedBlock.ManagedBlockFramed` | crates/cli/src/agent.rs:36-41 | The rendered block is properly framed whenever its instructions do not contain the end marker. |
| `FileWalk.CollectSessionFiles` | crates/core/src/native_source.rs:171-227 | The explicit-stack walk ends on every finite tree and yields the wanted files in its visiting order, up to the limit. |
| `FileWalk.VisitIsWalk` | crates/core/src/native_source.rs:190-225 | It visits the same files as a recursive walk, each as often. |
| `SessionListing.ListFileSourceSessions` | crates/core/src/native_source.rs:128-169 | Roots in turn until the limit, then sort, adjacent dedup and truncation. |
| `SessionListing.FoundIsWalk` | crates/core/src/native_source.rs:147-161 | Without a limit, overlapping roots and all, the files found are those of the recursive walks of the roots. |
| `SessionListing.ArrangedIff` | crates/core/src/native_source.rs:163-164 | The listing is newest first and holds the found paths, each once exactly when no path was found again after another one of the same time. |
| `SessionListing.RootTwiceIff` | crates/core/src/native_source.rs:163-164 | A tree listed under two roots has each path listed once exactly when no two of its wanted files have the same time. |
| `SessionListing.EqualTimesListTwice` | crates/core/src/native_source.rs:163-164 | A witness: two files of one time in a directory listed under two roots are each listed twice. |
| `SessionListing.LimitKeepsNewestIff` | crates/core/src/native_source.rs:219-223 | What a limit keeps are the newest files exactly when each file it lets through is as new as each one found later. |
| `SessionListing.LimitKeepsFirstFound` | crates/core/src/native_source.rs:219-223 | A limit of one keeps the file found first, also when the other is newer. |

## Left out

- JSON and serde: payloads are typed; a payload that does not parse is one of another constructor.
- UTF-8: text is a sequence of characters, so byte offsets and the decoding errors of `parse_numstat` are not modelled.
- I/O errors, the SQLite engine, WAL and concurrent writers: each transaction is one step and the tables are maps.
- The SQLite projection of the index: its rows. When its inserts of file refs keep their primary key is proved of the index (`GraphFiles.RefIdsDistinctIff`).
- SHA-256 and UUIDv5: an event id is a number, and the summary hash is modelled up to the text it is taken over.
- Descriptive fields (names, titles, provider metadata, repository links) where no property depends on them; edges to repository contexts are in the index but not among the graph facts.
- Totals of added and removed lines are unbounded numbers.
- Blame's `start + count - 1` wraps at 64 bits, as in a release build; a debug build stops instead.
- Several profiles and sources in one database: the tables of one source are modelled, since every key holds the source id.
- Providers that filter by other rules (`>=`, or inside their own database): only file time, updated time and no filter are modelled.
- Two roots given as links to one directory, link cycles and unreadable directories.
- A timestamp is compared as text in the timeline, as in the code; that texts of different formats may sort differently from their times is not modelled.
- Wording of steps, titles and transcript pointers: a step builder is a parameter and other fields are one `detail`.
- What a pull writes to the metadata database between deduplication and append (crates/sync/src/lib.rs:402-436): it leaves the events as they are, and of its failures only a payload that does not decode is modelled, which makes the pull append nothing.
- Direct and whole-file anchors (`resolve_direct_anchor`, `resolve_file_anchor`): filters and one sort.
- Full-text search, file-session blame and text matching in `metadata_db.rs`: ranking and SQL.
- `apply_summary`, patch ids and git's subprocesses: `parse_numstat` and `parse_unified_hunks` are modelled on arbitrary text.
- Paths that git quotes are taken as they are printed.
- The single-entry configuration editors (`mcp_config.rs`, `claude_hook.rs`, `native_hook.rs`), skills, the command line, the server and the sync transport.
- RemoteMerge.MergesCommute: is about batches that can be appended; a pull of one that cannot appends nothing.
- RemoteMerge.MergesCommuteIff: likewise.
- RemoteMerge.MergedIds: likewise is about batches that can be appended.
- IndexCache.LocalStore.LoadOrRebuildIndex: does not mention `rebuilt_at`, which is the time of the last rebuild.
- RefreshRuns.RunInv: runs leave out the steps that are not tolerable, because exactly these break the invariant (`RefreshRuns.StepKeepsInvIff`): a change or a parser version that the stamps do not show, and a fault beyond recovery.
- RefreshRuns.IncrementalRefinesRescan: likewise.
- RefreshRuns.SuccessAgreesWithSource: likewise; for any state at all `RefreshRuns.NextPassAgreesIff` says when it holds.
- Two files of one session id (`notes.json` and `notes.md`, or one name in two directories): a source of the refresh model has one session for each id. What one pass makes of such a listing is `RefreshEdges.LastEntryWins`; which of the files a later watermark lists is not modelled.
