# StreetStudio, verified

A Dafny model of the parts of StreetStudio that hold policy: the workspace cycle
detector, the folder hierarchy, resumable uploads, the timeline editor with undo and
redo, the realtime gateway, account lockout, share links, search, API-key secrets and
access tokens, the SQL repositories with their in-memory interpreter, migrations,
notifications and the recorder. `dafny verify dfyconfig.toml` checks the whole project.

Objects that update their fields are classes; each method is proved to compute a step,
an outcome or a value that is defined apart from it, and what the system promises is
proved about that, in terms of arguments, fields and what was done before. Pure code is functions and lemmas. Where a component keeps pruned or
counted state, the specification looks at the complete history instead and keeps
nothing: upload acknowledgements and strikes, lockout failures, share-link guesses,
published typing events, emitted notifications, finalized recordings.

| module | what it models |
|---|---|
| `Common`, `Strings` | shared types; string order, join and split, decimal digits |
| `DependencyGraph`, `WorkspaceGraph` | cycle detection over an arbitrary edge map; the graph of a workspace |
| `Folders` | the folder table, its three operations, and the service |
| `Upload`, `UploadService` | sessions, chunks, crashes and assembly as steps; the service that takes those steps |
| `Timeline`, `TimelineSorting`, `EditorSpeed`, `EditorPicture`, `EditorMoments`, `EditorSplitMerge`, `EditSession` | the edit reducer, its laws, and the edit session |
| `Realtime`, `RealtimeAudience`, `RealtimeGateway` | one node as a state machine; who hears an event, read off what callers did; several gateways over one backplane |
| `Lockout` | failure ledger and lock, against the account's history |
| `ShareLinks`, `Sharing` | one share link against its history; the service over the table of links |
| `SearchIndex`, `SearchCandidates`, `SearchPaging` | LIKE escaping; candidate merging; cursors and pages |
| `TranscriptText`, `TranscriptWords`, `UnsaidHits` | transcripts as the text of their JSON column; which words a search finds, and what it finds that nobody said |
| `Json` | JSON values, their text, and reading it back |
| `Base64Url`, `Secrets`, `AccessTokens` | text encodings at byte level |
| `ColumnNames`, `SqlText`, `SqlRoundTrip`, `Records`, `InMemorySql`, `Repositories`, `TenantRepositories` | records to SQL text and back, and the repository as a map |
| `Migrations`, `Notifications`, `Recording` | interrupted migration runs; delivery; finalized recordings |

Times are integers in milliseconds, except in the editor, where seconds are reals.
Clocks, id generators, random salts and candidates, permission decisions, and the
success of an upload, an emission or a statement are parameters.

## Where the code and its description differ

- Cycle reports are de-duplicated by node names joined with `->`, so two different
  cycles can share a key when a name contains `->`, and every report then drops one
  of them (`ArrowInNameHidesCycle`). Where keys tell cycles apart none is dropped, and
  the answer whether there is a cycle is right for all names (`DetectCycles`). A dropped
  cycle can still run through a reported closing edge (`CutWithoutTelling`).
  One representative is reported for each closing edge, not every elementary cycle.
- An upload session that expires keeps its retry counts, although their description
  says expiry clears them (`ExpiryKeepsRetryCount`). A chunk with a negative index is
  answered as already acknowledged (`NegativeIndexIsAcknowledged`).
- Splitting the same clip twice can give two clips one id, because the suffix is always
  `#2` (`SplittingTwiceRepeatsId`).
- n undos and n redos restore an edit session exactly when there are n operations to
  undo or nothing had been undone before (`UndoManyRedoMany`).
- The gateway's connection and presence tables stay consistent exactly when no live
  connection id is taken over by another member and members join or open videos only
  while online (`StepGoodIffAllowed`). Typing keys join two ids with `::`; typing starts
  and stops alternate for each member on each video exactly when no two such pairs that
  type share a key (`AlternateIffKeysTell`), as ids without colons never do.
- The lockout bound over a window holds exactly when a lock lasts at least as long as
  the window (`SpanBoundIffLongLocks`).
- A search matches transcripts on the text of their JSON column, so what JSON escapes is
  missed: a segment that says `say "hi"` is not found by `"hi"` (`QuotedWordsAreMissed`).
  Words are found wherever they are said exactly when the query still reads the same
  in its own escaped form or stands in the punctuation of every stored segment, or has
  the character NUL, which nobody can say (`AlwaysFoundIff`). Conversely a search can find a video that says nothing of the query,
  by a field name, a time, punctuation or the letters of an escape, exactly when the
  query reads as a stretch of stored text outside plain words (`FalseHitIff`); a single
  word does exactly when it is part of a field name or starts like an escape
  (`WordFoundUnsaidIff`), as any word in lower case that starts with `n`, `t`, `r` or `a`
  to `f` does (`SomeFirstLetters`), and runs of points or dashes never do
  (`RunsOfPointsAreSaid`).
- A bare string in a `jsonb` column is written as it is and does not read back as
  itself (`ValueRoundTrip`). A field with an underscore before a lower-case letter or a
  digit does not survive the column name (`FieldRoundTrip`).
- A recording stored offline under an id the local store already holds replaces what was
  there, and the default ids start again with each recorder while the store outlives it:
  a second recorder loses what the first stored as `rec-2` (`SecondRecorderLoses`). A
  recorder loses nothing, whatever is done with it, exactly when no stored id is still
  ahead of its counter (`NeverLosesIff`).
- Notifications are said to be delivered exactly once; one whose marking fails after it
  was emitted is emitted again (`EmitTwice`), and only such a one (`OnceUnlessUnmarked`).

## Model

| member | source | states |
|---|---|---|
| `DependencyGraph.DetectCycles` | packages/config/src/dependency-graph.ts:131-185 | for every edge map: empty exactly when no closed walk exists; each reported path is a closed walk with distinct nodes; no two have one key or are rotations; where keys tell cycles, every closed walk uses the closing edge of a reported cycle |
| `DependencyGraph.CycleDetector.Visit` | packages/config/src/dependency-graph.ts:159-176 | the depth-first visit ends, keeps colours, stack and report consistent, and leaves the node and all it reached finished, successors first but for reported closing edges |
| `DependencyGraph.CycleDetector.RecordCycle` | packages/config/src/dependency-graph.ts:147-157 | a back edge onto the stack is reported as a simple cycle unless its key was seen, and then an equal cycle is already reported |
| `DependencyGraph.FinishOrderCutsWalks` | packages/config/src/dependency-graph.ts:131-185 | if every edge but the cut ones leads to a node finished earlier, every closed walk uses a cut edge |
| `DependencyGraph.ComputeCanonicalKey` | packages/config/src/dependency-graph.ts:188-201 | the loop for the smallest node computes the key of the rotation that starts there |
| `DependencyGraph.CanonicalIsRotation` | packages/config/src/dependency-graph.ts:188-201 | the canonical form is a rotation of the cycle |
| `DependencyGraph.CanonicalIgnoresRotation` | packages/config/src/dependency-graph.ts:188-201 | rotations of one cycle have the same canonical form and key |
| `DependencyGraph.EqualKeysAreRotations` | packages/config/src/dependency-graph.ts:188-201 | with names free of "->", equal keys mean rotations of one cycle |
| `DependencyGraph.ArrowFreeKeysTell` | packages/config/src/dependency-graph.ts:188-201 | with names free of "->", no two cycles of a graph share a key unless they are rotations |
| `DependencyGraph.ArrowInNameHidesCycle` | packages/config/src/dependency-graph.ts:151-156 | on a graph with "->" in a name, any report without a repeated key leaves a cycle uncut |
| `DependencyGraph.CutWithoutTelling` | packages/config/src/dependency-graph.ts:131-185 | on a graph where two cycles share a key, the one reported cycle still cuts every closed walk, so telling keys suffice and are not needed |
| `WorkspaceGraph.BuildDependencyGraph` | packages/config/src/dependency-graph.ts:83-120 | refused exactly when a package name repeats; otherwise nodes are the packages sorted, and each leads, sorted, to exactly the other packages its fields list |
| `WorkspaceGraph.CheckAcyclicity` | packages/config/src/dependency-graph.ts:204-214 | acyclic is answered exactly for graphs without a closed walk |
| `Folders.ContentService.MoveFolder` | packages/projects/src/content.ts:399-479 | accepted exactly when the target is a folder of the project whose parent chain does not reach the moved one and nothing below it gets too deep; then it alone has the new parent, only depths change elsewhere, and the table is a forest; refusals come in the source order with nothing written |
| `Folders.VerdictByChains` | packages/projects/src/content.ts:399-464 | which refusal a move meets, in terms of parent chains and depths |
| `Folders.MoveAcceptedIffForest` | packages/projects/src/content.ts:436-464 | a move is accepted exactly when reparenting and shifting the subtree leaves a forest with right depths below the cap |
| `Folders.MoveBackRestores` | packages/projects/src/content.ts:399-479 | after an accepted move, moving the folder back to its old parent is accepted and restores the table |
| `Folders.MoveKeepsSubtree` | packages/projects/src/content.ts:466-477 | an accepted move leaves the moved subtree in one piece |
| `Folders.Walk` | packages/projects/src/content.ts:424-434 | the recursive walk collects exactly the folders properly below a folder |
| `Folders.RecomputeDepths` | packages/projects/src/content.ts:451-464 | the breadth-first pass gives every folder of the subtree its shifted depth, or stops exactly when one reaches the cap |
| `Folders.GroupByParent` | packages/projects/src/content.ts:415-422 | the map of children lists for each parent exactly its folders in list order |
| `Folders.ContentService.CreateFolder` | packages/projects/src/content.ts:574-625 | created exactly when name, project, parent, depth and id allow it; the new folder is in the project under its parent one step deeper, or a root at depth 0, and nothing else changes |
| `Folders.ContentService.DeleteFolder` | packages/projects/src/content.ts:374-389 | succeeds exactly for a folder of the organization; a row is left, unchanged, exactly when no number of steps up its parent chain reaches the folder, so folders beside it and other roots stay |
| `Folders.PrunedRows` | packages/projects/src/content.ts:388 | the cascade on the parent leaves exactly the rows whose parent chain never reaches the folder |
| `Folders.SiblingsAreApart` | packages/database/src/schema.ts:224-230 | a folder with the same parent, or another root, has no parent chain to the folder |
| `Folders.CreateKeepsForest` | packages/projects/src/content.ts:574-625 | a created folder leaves a forest within the cap |
| `Folders.PruneKeepsForest` | packages/database/src/migrations.ts:41-43 | deleting a row with the cascade leaves a forest |
| `Folders.Run` | packages/projects/src/content.ts:399-625 | over every run of create, move and delete, parents exist in the same project, roots have depth 0, children one more than their parents, and all depths are below 10 |
| `Folders.ParentChainEnds` | packages/projects/src/content.ts:399-625 | every parent chain ends at a root after as many steps as the depth says, without repeating a folder |
| `Upload.ChunkKeysDistinct` | packages/media/src/upload.ts:757-760 | distinct chunks of whatever sessions have distinct storage keys, even with slashes in ids |
| `Upload.SourceKeysDistinct` | packages/media/src/upload.ts:757-760 | a source key is no chunk key and no other session's source key |
| `Upload.AttemptKeysDistinct` | packages/media/src/upload.ts:663-665 | distinct session and index pairs have distinct retry keys |
| `Upload.Run` | packages/media/src/upload.ts:328-619 | every run with retransmissions, corrupt chunks, wrong indexes and crashes keeps records, chunks, source objects and retry counts as the session histories say |
| `Upload.CompletedSourceIsWhatWasAcknowledged` | packages/media/src/upload.ts:483-519 | the source object of a completed session is the in-order concatenation of exactly the payloads acknowledged for chunks 0 to total-1 |
| `Upload.PutTakesIn` | packages/media/src/upload.ts:372-449 | the next chunk of a live session adds its payload and object when it verifies and one strike when it does not; every other chunk leaves history and objects alone |
| `Upload.AcknowledgedIsTakenIn` | packages/media/src/upload.ts:372-449 | over every run, the payloads acknowledged for a session are the data of the verified chunks of the run that met it as its next ones, and their indexes count up one by one |
| `Upload.CompletedSourceIsWhatWasSent` | packages/media/src/upload.ts:372-519 | over every run, the source object of a completed session is the concatenation of the data of those verified chunks, one for each index from 0 to total-1 |
| `Upload.ConcatPlaces` | packages/media/src/upload.ts:806-815 | each part stands in a concatenation behind as many bytes as the parts before it have |
| `Upload.SessionLifeOverRuns` | packages/media/src/upload.ts:537-619 | acknowledged chunks stay between 0 and the total; a session is aborted exactly at its third integrity failure in a row; its deadline is its last activity plus 24 hours; retry counts exist only for the next expected chunk and are one or two |
| `Upload.EndedSessionsStay` | packages/media/src/upload.ts:537-563 | completed, aborted and expired sessions are never left and no acknowledged payload is taken back |
| `Upload.OtherObjectsUntouched` | packages/media/src/upload.ts:753-781 | no step touches an object of a session it is not about |
| `Upload.CountIsStrikes` | packages/media/src/upload.ts:572-602 | the retry count of an open session equals the integrity failures of its history since it last advanced or the process restarted |
| `UploadService.UploadService.InitSession` | packages/media/src/upload.ts:328-357 | opens exactly one new session with nothing acknowledged and 24 hours to go, or refuses and changes nothing |
| `UploadService.UploadService.PutChunk` | packages/media/src/upload.ts:372-449 | a chunk is taken in exactly when its session is open and before its deadline, its size is in the window, its index is the next one and it verifies; then exactly its payload is acknowledged and stored under its key. It takes the put step and answers as the step says |
| `UploadService.PutTells` | packages/media/src/upload.ts:372-449 | the answer and the session after every chunk for every session: taken in, a strike with the number of failures in a row, an abort at the third, a duplicate, each refusal, and expiry from the deadline on; in all other cases nothing changes |
| `UploadService.UploadService.HandleIntegrityFailure` | packages/media/src/upload.ts:572-602 | counts the failure, or aborts at the third |
| `UploadService.UploadService.RequireOpenSession` | packages/media/src/upload.ts:537-563 | refuses or expires in place as the status and deadline say, changing nothing else |
| `UploadService.UploadService.GetStatus` | packages/media/src/upload.ts:458-473 | reports the session; it expires exactly when it is open and its deadline is not in the future, and nothing else changes |
| `UploadService.UploadService.CompleteUpload` | packages/media/src/upload.ts:483-519 | completes exactly when the session is open and before its deadline, nothing is missing and the video exists; the source object is then the acknowledged payloads in order, the video points at it and is queued, and otherwise videos and objects stay |
| `UploadService.UploadService.PersistThenCrash` | packages/media/src/upload.ts:426-438 | a crash between storing and acknowledging the next verified chunk leaves its object, every session record, and no retry count |
| `UploadService.UploadService.Assemble` | packages/media/src/upload.ts:766-775 | reading chunks in index order and concatenating gives the acknowledged bytes |
| `UploadService.ConcatBytes` | packages/media/src/upload.ts:806-815 | the filled buffer is the concatenation of the parts |
| `UploadService.DuplicateWasAcknowledged` | packages/media/src/upload.ts:392-404 | a chunk answered as already acknowledged was acknowledged and is stored, exactly when its index is not negative |
| `UploadService.NegativeIndexIsAcknowledged` | packages/media/src/upload.ts:392-404 | a new session answers a negative index as already acknowledged |
| `UploadService.ExpiryKeepsRetryCount` | packages/media/src/upload.ts:305-311 | expiry drops no retry count |
| `TimelineSorting.SortIsStable` | packages/editor/src/apply.ts:17 | sorting by start gives a sorted list in which clips of one start keep their order |
| `TimelineSorting.StableSortIsUnique` | packages/editor/src/apply.ts:17 | there is only one stable sort of a list |
| `EditorSpeed.SpeedCommutesWithEdits` | packages/editor/src/apply.ts:20-109 | for any operations and positive factor, editing the sped-up timeline with scaled times equals editing first and speeding up last, errors included |
| `EditorSpeed.SpeedSort` | packages/editor/src/apply.ts:82 | stable sorting commutes with scaling |
| `EditorPicture.EditsStayInside` | packages/editor/src/apply.ts:20-85 | edits keep all clips and markers inside the duration |
| `EditorPicture.TrimTwice` | packages/editor/src/apply.ts:20-37 | trimming twice is trimming once to the intersected window exactly when a+c < b, and leaves no footage otherwise |
| `EditorPicture.EditsShowSource` | packages/editor/src/apply.ts:20-109 | every moment of an edited timeline shows the footage of one source moment: without merges the same clips in the same order on every track, or parts that splits made of them, and with merges no track gone dark |
| `EditorPicture.MergeLeavesOne` | packages/editor/src/apply.ts:70-85 | merging two clips or more leaves, sorted by start, the other clips and one with the id of the first that reaches from the earliest start to the latest end |
| `EditorPicture.MergeNeedsTwo` | packages/editor/src/apply.ts:76 | merging fewer than two clips of a track changes nothing |
| `EditorMoments.EditsGoThroughIff` | packages/editor/src/apply.ts:20-109 | a list of operations goes through exactly when each is in range for the timeline that those before it leave |
| `EditorMoments.EditsKeepMoments` | packages/editor/src/apply.ts:20-109 | the moments of the result are exactly those of the source that lie in every trim window they meet, which tells how long it is |
| `EditorMoments.EditsShowMarkers` | packages/editor/src/apply.ts:20-109 | the markers of the result are, in order and with kind and text, exactly those of the source that lie in every trim window they meet, each at the time that shows its source time |
| `EditorMoments.UntrimmedKeepsMarkers` | packages/editor/src/apply.ts:54-67 | without a trim every marker is kept |
| `EditorMoments.SourceTimeInverts` | packages/editor/src/apply.ts:20-67 | each source moment has one time in the result, and each time in the result one source moment |
| `EditorSplitMerge.SplitKeepsIdsUnique` | packages/editor/src/apply.ts:40-52 | a split keeps clip ids unique exactly when the added ids are not taken |
| `EditorSplitMerge.SplittingTwiceRepeatsId` | packages/editor/src/apply.ts:48 | two splits of one clip can repeat an id |
| `EditorSplitMerge.MergePairRestores` | packages/editor/src/apply.ts:70-85 | merging the two halves of one clip restores its track |
| `EditorSplitMerge.SplitThenMergeRestores` | packages/editor/src/apply.ts:40-85 | on laid-out tracks with unique ids and fresh second ids, merging every split pair back in any order restores the timeline |
| `EditSession.Run` | apps/dashboard/src/editing.ts:44-86 | in every reachable state, the operations followed by the undone ones fold over the source without error |
| `EditSession.ReplayableMeans` | apps/dashboard/src/editing.ts:44-79 | so the result and the next redo never fail |
| `EditSession.UndoManyRedoMany` | apps/dashboard/src/editing.ts:64-79 | n undos and n redos restore the session exactly when there are n operations or nothing was undone before |
| `EditSession.EditSessionController.Apply` | apps/dashboard/src/editing.ts:54-61 | accepted exactly when the longer list folds: the operation is then the last one and nothing can be redone; a rejected one changes nothing |
| `EditSession.EditSessionController.Result` | apps/dashboard/src/editing.ts:44-46 | is the fold of the operations over the source, without error |
| `EditSession.EditSessionController.Undo` | apps/dashboard/src/editing.ts:64-70 | moves the last operation to the redo stack |
| `EditSession.EditSessionController.Redo` | apps/dashboard/src/editing.ts:73-79 | moves the most recently undone operation back |
| `EditSession.EditSessionController.Reset` | apps/dashboard/src/editing.ts:82-86 | empties both stacks |
| `Realtime.StepGoodIffAllowed` | packages/realtime/src/realtime.ts:243-319 | from a good state a step leads to a good one exactly when no live connection changes members and joins and video openings come from members online |
| `Realtime.AllowedRunsAreGood` | packages/realtime/src/realtime.ts:243-541 | every state of an allowed run has inverse connection maps, no departure pending for a connected member, every present member connected or departing, and live timers exactly those of the two timer maps |
| `Realtime.NewNodeIsGood` | packages/realtime/src/realtime.ts:195-219 | a new gateway is in a good state |
| `Realtime.StepKeepsTimers` | packages/realtime/src/realtime.ts:329-368 | the timers stay tied to the timer maps whatever callers do |
| `Realtime.ConnectKeepsInverse` | packages/realtime/src/realtime.ts:243-252 | a connection keeps the maps inverse exactly when it is new or already the member's |
| `Realtime.StepAlternates` | packages/realtime/src/realtime.ts:329-368 | under each typing key, start and stop alternate after every command |
| `Realtime.AlternateIffKeysTell` | packages/realtime/src/realtime.ts:329-368 | for every set of member and video pairs that may type: over all runs the events of each pair alternate start, stop exactly when no two of the pairs share a key |
| `Realtime.TypingEventsAlternate` | packages/realtime/src/realtime.ts:329-368 | in particular over every run whose typists have ids without colons, and not over all runs of two pairs of others |
| `Realtime.TypingKeyInjective` | packages/realtime/src/realtime.ts:544-546 | under colon-free ids the key tells member and video |
| `Realtime.SharedKeyBreaksAlternation` | packages/realtime/src/realtime.ts:544-546 | for any two pairs with one key, a run in which a stop is sent for typing never announced |
| `RealtimeGateway.Gateway.Emit` | packages/realtime/src/realtime.ts:379-382 | whatever was done with each subscribed gateway, one emit sends the event one time more to exactly its live connections whose member is addressed: joined and neither left nor departed since, or opened the video and neither closed it nor departed since, or named; and not excluded |
| `RealtimeGateway.Gateway.DeliverLocal` | packages/realtime/src/realtime.ts:425-445 | a delivery attempts the event once on every local connection of the audience, whatever sends fail |
| `RealtimeGateway.Gateway.AudienceMembersOf` | packages/realtime/src/realtime.ts:448-471 | the audience scan finds exactly the members that the presence or viewership map lists, or the one named |
| `RealtimeGateway.TargetsHear` | packages/realtime/src/realtime.ts:425-471 | over every run without a takeover, the connections that an event is sent to are exactly those that hear it by what callers did |
| `RealtimeAudience.AudiencesAreRead` | packages/realtime/src/realtime.ts:286-319 | over every run without a takeover, the maps have a member in a workspace exactly when it joined and neither left nor departed since, and in a video exactly when it opened it and neither closed it nor departed since |
| `RealtimeAudience.OwnersAreLive` | packages/realtime/src/realtime.ts:243-277 | over every run, a connection belongs to the member that last connected with it, until it is disconnected |
| `RealtimeAudience.ListedIsOnline` | packages/realtime/src/realtime.ts:243-277 | over every run without a takeover, a member is listed exactly while one of its connections is live |
| `RealtimeAudience.RunInverse` | packages/realtime/src/realtime.ts:243-277 | a run in which no live connection is connected for another member keeps the connection maps inverse |
| `RealtimeGateway.Backplane.Publish` | packages/realtime/src/realtime.ts:656-664 | a published message reaches every subscriber once |
| `RealtimeGateway.SentOnceCounts` | packages/realtime/src/realtime.ts:425-445 | sending once, as a count for every connection and every event |
| `RealtimeGateway.Gateway.Start` | packages/realtime/src/realtime.ts:225-233 | subscribes once, however often it is called |
| `RealtimeGateway.Gateway.Connect` | packages/realtime/src/realtime.ts:243-252 | takes the connect step; a good state stays good exactly when it was allowed |
| `RealtimeGateway.Gateway.Disconnect` | packages/realtime/src/realtime.ts:261-277 | takes the connection away, leaves a member without connections a departure timer that starts now, and keeps a good state good |
| `RealtimeGateway.Gateway.Join` | packages/realtime/src/realtime.ts:286-293 | takes the join step and has the join delivered to the workspace but the member |
| `RealtimeGateway.Gateway.Leave` | packages/realtime/src/realtime.ts:300-306 | takes the leave step and has the leave delivered |
| `RealtimeGateway.Gateway.StartTyping` | packages/realtime/src/realtime.ts:329-348 | has only the first signal delivered, and on every one leaves a new inactivity timer running and no older one |
| `RealtimeGateway.Gateway.StopTyping` | packages/realtime/src/realtime.ts:356-368 | has the stop delivered exactly when typing was on, and nothing sent otherwise; cancels the timer |
| `RealtimeGateway.Gateway.FireTimer` | packages/realtime/src/realtime.ts:474-505 | a due timer takes its step and keeps a good state good; every gateway sends the stop of typing that was on, or the leave of a departed member once for each of its workspaces to each connection there, and otherwise nothing |
| `Lockout.InMemoryLockoutPolicy.IsLocked` | packages/auth/src/lockout.ts:97-109 | answers as the account's full history does |
| `Lockout.InMemoryLockoutPolicy.RecordFailure` | packages/auth/src/lockout.ts:118-149 | the pruned ledger goes on agreeing with the full history, for this and every other account |
| `Lockout.InMemoryLockoutPolicy.Reset` | packages/auth/src/lockout.ts:152-154 | clearing an account agrees with its history cleared |
| `Lockout.FailureAgrees` | packages/auth/src/lockout.ts:118-149 | dropping aged-out failures and counting the new one gives, from now on, the lock and tallies of the history |
| `Lockout.LockedIff` | packages/auth/src/lockout.ts:97-149 | an account is locked at a time exactly when maxFailures failures in a row, the first to the last less than a window apart, met no lock and made none before the last, nothing was cleared since, and the lock time of the last is not over |
| `Lockout.SpanBound` | packages/auth/src/lockout.ts:118-149 | with locks as long as the window, any shorter span without a reset has at most maxFailures counted failures |
| `Lockout.SpanBoundIffLongLocks` | packages/auth/src/lockout.ts:75-92 | that bound holds for every history exactly when lockMs is at least windowMs |
| `ShareLinks.ResolveTells` | packages/media/src/share.ts:354-430 | the record's counter and lock answer every attempt as the link's whole history does, and go on telling it |
| `ShareLinks.RevokeTells` | packages/media/src/share.ts:308-317 | so does revoking, once or again |
| `ShareLinks.LockMeansFive` | packages/media/src/share.ts:388-430 | a link has either no lock and fewer than five failures or a lock and exactly five; an open link has neither |
| `ShareLinks.RecordIsLife` | packages/media/src/share.ts:354-430 | a record that tells its history is what the attempts and revocations of that history made of the new link |
| `ShareLinks.RevokedAtMeans` | packages/media/src/share.ts:308-317 | a record is revoked exactly when somebody revoked the link, at the time of the first revocation |
| `ShareLinks.GuessBound` | packages/media/src/share.ts:373-430 | over the life of any link, in a stretch of time T without a grant at most 5*(floor(T/15min)+1) attempts get as far as a hash that refuses them |
| `ShareLinks.GuessBoundIsMet` | packages/media/src/share.ts:373-430 | for every number of lock times the life of some link meets that bound |
| `ShareLinks.LabelAgreesWithResolve` | apps/dashboard/src/sharing.ts:52-71 | the label is active exactly when resolving with a passcode that the hash accepts grants, and otherwise names the refusal every passcode meets |
| `Sharing.ShareService.Resolve` | packages/media/src/share.ts:354-430 | grants exactly when nobody revoked the link, it has neither expired nor a lock in force, and it is open or the hasher accepts the non-empty passcode; each refused passcode is counted, the fifth locks, a right one clears, and no other link changes |
| `Sharing.ShareService.CreateLink` | packages/media/src/share.ts:236-280 | refusals in the source's order with nothing stored; success adds one link with a credential no other has |
| `Sharing.ShareService.MintUniqueCredential` | packages/media/src/share.ts:439-448 | the first free of at most eight candidates, or a conflict exactly when all are taken |
| `Sharing.ShareService.Revoke` | packages/media/src/share.ts:288-318 | revokes exactly the permitted link of an existing video, keeps its first revocation time, and leaves every other link |
| `Sharing.RewritingIsFaithful` | packages/media/src/share.ts:533-537 | deleting and re-inserting a changed record loses and adds no link and keeps ids and credentials unique |
| `Sharing.NewLinkGrants` | packages/media/src/share.ts:262-279 | a new link grants its own passcode until it expires |
| `SearchIndex.NeedleMatchesOccurrences` | packages/search/src/postgres-search-index.ts:27-29 | `%`, the escaped query and `%` match a text exactly when the query occurs in it as a contiguous run, case aside, whatever characters it has |
| `SearchIndex.EscapedPrefix` | packages/search/src/postgres-search-index.ts:27-29 | the escaped query and `%` match exactly the texts that start with the query |
| `SearchIndex.NeedleIsWellFormed` | packages/search/src/postgres-search-index.ts:72-79 | no query makes a pattern that ends inside an escape |
| `SearchCandidates.IncludesAgreesWithLike` | packages/search/src/postgres-search-index.ts:111 | the program's own substring test agrees with the pattern on every text |
| `SearchCandidates.Merge` | packages/search/src/postgres-search-index.ts:94-120 | the merged entries are one for each listed video, with a transcript's position taking the place of none |
| `SearchCandidates.Query` | packages/search/src/postgres-search-index.ts:71-139 | one hit for exactly the videos whose title or stored transcript text the query occurs in, in creation order and by id, positioned at the words of the last mentioning transcript that says them |
| `SearchCandidates.PositionMeans` | packages/search/src/postgres-search-index.ts:108-118 | a position comes from a transcript that mentions the video and says the query, and no later one does |
| `SearchCandidates.FirstSaidMeans` | packages/search/src/postgres-search-index.ts:108-118 | it is the start of the first segment that includes the query |
| `SearchCandidates.SaidIsHit` | packages/search/src/postgres-search-index.ts:84-118 | a video in which words are said that escaping keeps is found, with a position |
| `SearchCandidates.FalseHitIff` | packages/search/src/postgres-search-index.ts:84-118 | for every query: some video is found though neither its title nor a segment says the query, exactly when the query reads as a stretch of stored punctuation, names, printed numbers and escapes, or of words with an escape or their end in them |
| `TranscriptText.ParseStored` | packages/search/src/postgres-search-index.ts:58-66 | the segments written to the JSON column are the segments read from its text |
| `TranscriptText.StoredIs` | packages/search/src/postgres-search-index.ts:84-92 | the text of the column, with the spacing and member order of jsonb |
| `TranscriptWords.AlwaysFoundIff` | packages/search/src/postgres-search-index.ts:84-92 | whoever says the query is found, for all transcripts, exactly when the query has the shape that escaping keeps, stands in the frame of every segment, or has a NUL, which no segment says |
| `TranscriptWords.SurvivesIffShape` | packages/search/src/postgres-search-index.ts:84-92 | every text that says the query still has it when escaped, exactly when the query has that shape |
| `TranscriptWords.PlainIsKept` | packages/search/src/postgres-search-index.ts:84-92 | queries without characters that JSON escapes have that shape |
| `TranscriptWords.MissedWords` | packages/search/src/postgres-search-index.ts:84-92 | for every other query, a transcript the column can hold that says it and is not found |
| `TranscriptWords.QuotedWordsAreMissed` | packages/search/src/postgres-search-index.ts:84-92 | words in quotation marks can be said and not found |
| `UnsaidHits.FoundUnsaidIff` | packages/search/src/postgres-search-index.ts:84-92 | exactly the queries that read so, from left to right, are found in some transcript that does not say them |
| `UnsaidHits.WordFoundUnsaidIff` | packages/search/src/postgres-search-index.ts:84-92 | a single word exactly when it is part of a field name or starts like an escape |
| `UnsaidHits.RunsOfPointsAreSaid` | packages/search/src/postgres-search-index.ts:84-92 | plain queries that start with two points or two dashes are found only where somebody says them |
| `UnsaidHits.SomeFirstLetters` | packages/search/src/postgres-search-index.ts:84-92 | plain queries that start with n, t, r or a lower-case hexadecimal digit can be found unsaid |
| `UnsaidHits.QuotedWordsAreFoundUnsaid` | packages/search/src/postgres-search-index.ts:84-92 | plain words in quotation marks are found where nobody says the marks |
| `Json.ParsePrint` | packages/database/src/repositories.ts:82-135 | reading the text of any JSON value gives the value, with the spacing of either writer |
| `Json.ParsedStringIsShorter` | packages/database/src/repositories.ts:82-135 | no text reads as the JSON string of itself |
| `SearchPaging.DecodeEncodeCursor` | packages/search/src/search.ts:140-165 | a cursor decodes to its offset exactly up to the largest safe integer |
| `SearchPaging.Search` | packages/search/src/search.ts:194-234 | refused exactly for a query not of 1 to 500 characters or a bad cursor; otherwise the authorized candidates from the offset on, a hundred at most, with a cursor for the next hundred exactly when more remain |
| `SearchPaging.AuthorizedIsSelection` | packages/search/src/search.ts:212-223 | the authorized candidates are exactly the permitted ones |
| `SearchPaging.AuthorizedKeepsOrder` | packages/search/src/search.ts:212-223 | each candidate stands in its place among the authorized ones or is left out |
| `SearchPaging.PagesCoverEverything` | packages/search/src/search.ts:194-234 | following cursors ends after max(1, ceil(n/100)) pages, which together are exactly the authorized candidates in order |
| `Base64Url.DecodeEncode` | packages/auth/src/api-key.ts:374-406 | unpadded base64url (section 5 of RFC 4648) decodes to the bytes encoded |
| `Base64Url.EncodedForm` | packages/auth/src/api-key.ts:374-381 | an encoding has four letters for three bytes, and no dot and no padding |
| `Base64Url.EncodeDigits` | packages/auth/src/api-key.ts:374-381 | each group of letters is the base-64 digits of its bytes read as one number, padded with zero bits (section 4 of RFC 4648) |
| `Base64Url.EncodeInjective` | packages/auth/src/api-key.ts:374-381 | equal texts mean equal bytes |
| `Base64Url.ByHandIsTheSame` | packages/auth/src/tokens.ts:60-71 | going through padded base64 and replacing letters writes the same text, and reading it gives the bytes |
| `Base64Url.TrailingBitsAreForgiven` | packages/auth/src/api-key.ts:402-406 | two texts of one length decode alike exactly when they differ at most in the spare bits of their last letters |
| `Strings.SplitAfter` | packages/auth/src/api-key.ts:386 | what stands before the first separator is the first part of a split |
| `Strings.JoinSplit` | packages/auth/src/api-key.ts:374-386 | joining the parts of a split gives the text back |
| `Strings.PartsHaveNoSeparator` | packages/auth/src/api-key.ts:386 | no part of a split has the separator in it |
| `Secrets.ParseFormat` | packages/auth/src/api-key.ts:374-406 | a formatted secret parses back to its parts exactly when none is empty and the random part has no dot, and to nothing otherwise |
| `Secrets.ParseIff` | packages/auth/src/api-key.ts:384-406 | any text parses to a secret exactly when it is the prefix, two segments that decode to non-empty ids and a non-empty random part, with dots between them and in none |
| `Secrets.FormatInjective` | packages/auth/src/api-key.ts:374-381 | two different triples never share a secret |
| `AccessTokens.VerifyIssue` | packages/auth/src/tokens.ts:95-155 | an issued token verifies to the same member and session with expiry floored to the second, exactly until that second, and is expired from then on |
| `AccessTokens.AcceptedIff` | packages/auth/src/tokens.ts:110-155 | any text is accepted with claims exactly when it is a header and a body followed by the encoded hash of the two, the body carries those claims, and their second has not come |
| `AccessTokens.AcceptedIsSigned` | packages/auth/src/tokens.ts:110-128 | every accepted token is a text followed by the signature of that text, and is before its expiry |
| `AccessTokens.NoSecondSignature` | packages/auth/src/tokens.ts:120-128 | two accepted tokens that sign the same text are the same token |
| `ColumnNames.FieldRoundTrip` | packages/database/src/repositories.ts:62-69 | a field name survives its column exactly when no underscore in it stands before a lower-case letter or a digit |
| `ColumnNames.ColumnsDiffer` | packages/database/src/repositories.ts:62-64 | different such fields have different columns |
| `SqlRoundTrip.InsertReadBack` | packages/database/src/testing.ts:88-121 | the insert text for any columns is read back as that insert, placeholder i for column i |
| `SqlRoundTrip.SelectReadBack` | packages/database/src/testing.ts:123-133 | the select text is read back with its conditions and parameter numbers |
| `SqlRoundTrip.UpdateReadBack` | packages/database/src/testing.ts:135-160 | the update text is read back with its assignments and conditions |
| `SqlRoundTrip.DeleteReadBack` | packages/database/src/testing.ts:162-176 | the delete text is read back with its conditions |
| `SqlRoundTrip.EmptyUpdateIsRefused` | packages/database/src/testing.ts:135-138 | an update that assigns nothing is no statement |
| `Records.ValueRoundTrip` | packages/database/src/repositories.ts:82-135 | a value written to a column reads back as itself exactly when it fits the column's type |
| `Records.JsonIsStoredAsText` | packages/database/src/repositories.ts:127-135 | what is no text goes into a JSON column as the text that reads as it |
| `Records.MapRowStored` | packages/database/src/repositories.ts:110-155 | a stored record is read back as itself, field by field and in order |
| `Records.StoredPutAll` | packages/database/src/repositories.ts:311-335 | assigning columns of a row and fields of its record come to the same |
| `InMemorySql.InMemorySqlClient.Query` | packages/database/src/testing.ts:63-176 | runs the statement the text means on its table: append, filter, assign to or remove the matching rows; other text changes nothing |
| `InMemorySql.DeleteRows` | packages/database/src/testing.ts:162-176 | removing from the last row to the first removes exactly the matching rows |
| `InMemorySql.RowsAreSplit` | packages/database/src/testing.ts:123-176 | every row is selected or remains, as it matches the conditions or not |
| `Repositories.ToColumnsAndValues` | packages/database/src/repositories.ts:138-155 | columns and values are those of the stored row, aligned |
| `Repositories.MatchesKey` | packages/database/src/repositories.ts:254-335 | the printed condition matches a stored record exactly when organization and id are its own |
| `TenantRepositories.TenantRepository.Insert` | packages/database/src/repositories.ts:169-182 | the map from organization and id to record gains exactly the record; keys stay unique exactly when its key was new; other tables are untouched |
| `TenantRepositories.TenantRepository.FindById` | packages/database/src/repositories.ts:254-264 | finds exactly the record the map has under the key |
| `TenantRepositories.TenantRepository.Update` | packages/database/src/repositories.ts:311-335 | overwrites the other fields of exactly the record with the key; a record with no other field is refused and changes nothing |
| `TenantRepositories.TenantRepository.DeleteById` | packages/database/src/repositories.ts:298-303 | the map loses exactly the key |
| `TenantRepositories.ContentsUpdated` | packages/database/src/repositories.ts:311-335 | updating the rows that match a key updates one key of the map and keeps keys unique |
| `TenantRepositories.SameFieldsReplaced` | packages/database/src/repositories.ts:311-335 | updating with a record of the same fields leaves exactly that record |
| `Migrations.AssertOrderedMigrations` | packages/database/src/migrations.ts:169-186 | accepts exactly strictly increasing ids, and otherwise names the first migration whose id repeats an earlier one or does not follow the last |
| `Migrations.Database.ApplyOne` | packages/database/src/migrations.ts:121-137 | succeeds exactly when the connection lasts for its statements and its record; all or nothing within a transaction, and without one an interrupted migration is not recorded |
| `Migrations.Database.RunMigrations` | packages/database/src/migrations.ts:144-166 | finishes exactly when ids increase and the connection lasts for what is pending, and then stands after the whole list and tells what it applied and skipped; however a run ends, the database is left after a longer prefix of the list, each migration's statements run once with transactions |
| `Notifications.NotificationService.DeliverPending` | packages/notifications/src/notification-service.ts:194-208 | emits and marks only what is the member's own and undelivered, in order of creation, until one is refused or cannot be marked; that one and the rest stay pending, and without a failure nothing of the member does |
| `Notifications.NotificationService.Create` | packages/notifications/src/notification-service.ts:141-160 | stores an undelivered notification unless the first preference for the event type refuses it |
| `Notifications.NotificationService.MarkRead` | packages/notifications/src/notification-service.ts:173-185 | marks only the member's own notification and keeps the first read time |
| `Notifications.Delivered` | packages/notifications/src/notification-service.ts:200-207 | each notification stays emitted as often as it is marked or its marking failed |
| `Notifications.OnceUnlessUnmarked` | packages/notifications/src/notification-service.ts:188-207 | a notification is emitted once if it is marked and never otherwise, exactly when none of its markings failed |
| `Notifications.EmitTwice` | packages/notifications/src/notification-service.ts:194-208 | two deliveries of one notification, the first with a failed marking, emit it twice |
| `Recording.Recorder.Start` | packages/recorder/src/recorder.ts:185-228 | a session opens, with the next id, only from idle with a granted capture; a refusal changes nothing |
| `Recording.Recorder.Stop` | packages/recorder/src/recorder.ts:261-306 | finalized media joins the recordings and is uploaded, or stored under the next id, and exactly the recording that was stored under that id is lost; the recorder is idle then |
| `Recording.NeverLosesIff` | packages/recorder/src/recorder.ts:149-306 | for every recorder and store: no use of the recorder loses a recording exactly when no stored id is one it can still store under |
| `Recording.SecondRecorderLoses` | packages/recorder/src/recorder.ts:149-154 | a second recorder over the store of a first loses its first offline recording |
| `Recording.FirstRecorderNeverLoses` | packages/recorder/src/recorder.ts:149-306 | a recorder over an empty store never loses one |
| `Recording.StepLoses` | packages/recorder/src/recorder.ts:261-466 | each step loses exactly the stored recording it overwrites |
| `Recording.Recorder.FlushStoredRecordings` | packages/recorder/src/recorder.ts:446-466 | exactly the recordings with a successful attempt among five leave the store, each of them uploaded, and nothing is lost |
| `Recording.Recorder.UploadWithRetries` | packages/recorder/src/recorder.ts:473-486 | stops at the first success, and fails after exactly five attempts |
| `Recording.Recorder.Pause` | packages/recorder/src/recorder.ts:235-243 | pauses only a running session |
| `Recording.Recorder.Resume` | packages/recorder/src/recorder.ts:246-254 | resumes only a paused session |

## Left out

- Permission checks: a permission decision is a parameter where it orders refusals, and is absent elsewhere.
- Interleaving within one operation: methods of the gateway and requests on one upload session are atomic or sequential; crashes between two writes are modelled where the bytes depend on them.
- Floating-point arithmetic in the editor: seconds are reals, so NaN, infinities and rounding are not modelled; a factor is any real.
- Cryptography: HMAC, salted passcode hashing, chunk digests and random generation are functions or parameters with only the equations needed; timing-safe comparison is equality.
- JSON: reading a token payload back is assumed to undo writing it; numbers are carried as their texts, and the envelope that the gateway serializes for the backplane is passed as a value.
- Transcripts: stored segments have a start, an end and a text, and other members and malformed segments are not modelled; a time is any decimal that the column prints, whether or not a double writes it; case folding moves a letter to one letter.
- UTF-8: ids in secrets and payloads in tokens are their bytes; well-formedness of text is not modelled.
- Base64Url.DecodeEncode: says nothing about text that no encoder wrote; letters outside both alphabets are passed over, which simplifies what the runtime does after padding.
- SqlText: the in-memory client's regular expressions are one scanner for the shapes the repositories write, so a column whose name ends in `where`, which the expressions would misread, is not distinguished.
- The unscoped lookup, listing by organization, the global, append-only and association repositories, upserts, and rendering of the schema: they add easier members of the same kind.
- RealtimeGateway.Gateway.DeliverLocal: counts attempted sends, since a failing send is swallowed by the gateway.
- The realtime event types other than presence and typing, upload progress events, and video listing, reading and moving in the content service.
- Storage routing between backends, streaming of objects, and discarding of chunks, which the default storage leaves undone.
- A member's viewing of videos after departure timers are cancelled by the transport library, and the wall-clock length of timers: timers fire whenever they are live.
- SearchCandidates.Query: the two selections are taken in table order, since the order of several transcripts of one video is not fixed by the statement; authorization is the search service's.
- Lockout: failure times are integers and the clock does not go back; with a clock that goes back the ledger and the history may differ.
- Notifications.NotificationService.DeliverPending: notifications of one instant come in any order.
- Recording: capture handles, annotations, the finalize deadline, shortcuts and user-facing notices; a flush is one step, and ids come from the default counter.
- Upload: fractional chunk indexes; an id the generator repeats is answered as a conflict.
- A crash between deleting and re-inserting a changed row, share links of deleted videos, the content permission guard, reading a link's metadata, and the length of generated credentials.
- Ordering of strings is by character code; iteration over sets and maps is in arbitrary order where the original has insertion order and nothing depends on it.
- DTO mapping, comments, reactions, knowledge base, analytics, RBAC, configuration, plugins, AI and billing, the processing pipeline, the SDK and the web user interface.
