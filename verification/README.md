# file-edit-mcp, verified

A model of the parts of file-edit-mcp whose correctness is hard to see: the freshness-gated edit and write protocol, the
no-replace upload publish, the Root lease and the lock order, the batch worker pool, the edit engine, the paginating
renderer, the fallback grep collector, the retry policy, and path validation with the pool's routing. `dafny verify
dfyconfig.toml` checks all of it.

How it is laid out:

* `Protocol` is the machine of one resolved path: what the path shows, the temp files beside it, every token's marker,
  and the one handler that holds the path's lock, one file system call at a time. Every call may succeed, fail cleanly
  or fail after taking effect, and be retried or not; other programs change the path at any step outside the windows
  named below. `ProtocolInvariant` keeps an invariant through every step and `ProtocolTheorems` says what it means
  over whole runs. `ProtocolProgress` says what a call answers when its own calls get through, `ProtocolFailures`
  exactly when a failed call leaves the path as it found it, `ProtocolMarkers` which window the markers alone depend
  on, `ProtocolLimits` what exactly an outside write in a window does and, on runs from the start, what errors can
  hide, and `ProtocolWorld` runs many paths over one shared directory and one marker table.
* `Files`, `TextHandlers` and `UploadHandler` are the handlers in the source's own imperative form, proved to make
  exactly the machine's calls. `Session` holds the markers and the path locks.
* `LockOrder`, `Lease` and `RootPool` are the concurrency of the locks and of the Root pool; `Paths` and `PathGuard`
  are the path side of it; `UploadBatch` is the batch.
* `ByteSearch` and `EditEngine`; `Utf8`, `Decimal`, `LineIO`, `LineAgreement`, `LineTruncation` and `LineRows`;
  `GrepCollector`, `GrepProperties`, `GrepRuns` and `GrepCounts`; `Retrier`; `Wrappers`.

Assumptions the protocol's theorems rest on: stamps are unique and never zero (but need not increase); a name made up
for a temp file is not one in use; no other program writes the path between the last stat before a rename and the
post-write stat, between the claim of a new file and its rename, between a failed rename and the removal of its claim,
or while a degraded copy is partial (for `ProtocolMarkers` only the window between rename and post-write stat); a read
that ends while the file still bears the stamp it was found with returned that file's bytes; SHA-256 identifies content;
the downloaded size is the length of the temp file.

Where the code differs from its own documentation, the model follows the code:

* "Failure cleans the temp file" (internal/tools/write.go:234-239), and an upload its own. The directory is clean between
  calls if and only if none of three events has happened in the whole run (`CleanIffNeat`): a create that failed after
  taking effect, a removal that failed, a skipped upload, which always keeps its temp file
  (internal/tools/upload.go:220-230). Such a file then stays for good (`AbandonedForGood`). Runs that reach one are
  `FailedWriteLeavesItsTemp` and `SkippedUploadLeavesItsTemp`.
* A failed write is documented to restore the pre-call state (internal/tools/write.go:155-158). It does not when a
  claim, a rename over a file, a link or a degraded create took effect behind an error, or when the removal of a claim
  or of a partial copy failed for good. `FailedCallsRestoreExactly` says over whole runs that these events, and no
  others, leave a failed call's change on the path; runs that reach such states are `AmbiguousClaimIsReachable` (an
  empty file behind a never-read error), `AmbiguousRenameIsReachable` (a file system error over the complete new
  content) and `AmbiguousCopyIsReachable` (a conflict with the upload's own empty file).
* `Truncated` is documented as "at least one emitted line was cut" (internal/lineio/lineio.go:74-76). It is also set by
  a cut line that is then dropped for its size, and by nothing else (`TruncatedIsExact`); `TruncatedShowsNoCut` is a
  file at the tool's own limits. The footer claims hold regardless.
* The reopen pass is documented to keep a mid-pass open from caching a Root it is about to replace
  (internal/cifsops/rootpool.go:143-148). That holds for `WithRoot` (`LeasedPassesLoseNothing`); a legacy `Resolve` in
  the middle of a pass loses its Root exactly when the pass then caches its own over it (`LossIsExact`). Outside of
  tests nothing but rootpool.go itself calls `Resolve` or `Open` today, so only a new caller could bring that about.
* Count mode is one entry per file only if neighbouring matching files have different paths (`CountModeIsPerFile`).
* A content-mode scan that is given up after its first line leaves its lines to be printed with the next file's
  (internal/tools/grep.go:314-317). `ContentIsJoinedRuns` says what is printed for every sequence of scans, and
  `RunsAreFilesExactly` when that is the completed files' own groups.

## Model

| member | source | states |
|---|---|---|
| `ProtocolTheorems.NoLostUpdate` | internal/tools/edit.go:150-210 | In every run of every interleaving of read, edit, multi_edit, write and upload calls, retries, ambiguous failures and outside writers, the versions of a path form one chain; whatever a text call shows over a file is the complete result of its edits on exactly the bytes its own token had obtained and held the matching marker of; a write to a missing name shows only its empty claim, its whole content or nothing; an upload begins only on a missing name |
| `ProtocolTheorems.MarkersAreSound` | internal/session/session.go:155-166 | In every run, whenever a token's marker matches the path, the call that set it obtained exactly the bytes the path now shows; a marker with the zero time matches nothing |
| `ProtocolTheorems.MarkersComeFromReplies` | internal/tools/write.go:187-212 | A marker changes only with a reply: a read's, with the bytes it returned; a successful write's, with the bytes the path then shows; or a created upload's, which drops it |
| `ProtocolTheorems.RepliesAreTrue` | internal/tools/publish.go:192-256 | In every run, after `created` that very call did show its whole image at some moment; after a successful write, edit or multi_edit it did show the complete result of its edits on the exact bytes it replaced; and after `skipped` some version of the path was exactly the image |
| `ProtocolTheorems.SuccessIsExact` | internal/tools/edit.go:204-210 | A text call that reports success leaves the path showing its whole intended content, put there by itself, over a version it was entitled to replace |
| `ProtocolTheorems.RefusalChangesNothing` | internal/tools/edit.go:179-202 | A text call that fails before anything was committed has left the path as it was, whatever the failure; a refusal (never read, stale, missing, directory, failed edit) changes nothing of path, markers and temp files, and nothing was changed before it except by a claim that now meets itself |
| `ProtocolTheorems.UploadsNeverOverwrite` | internal/tools/publish.go:303-345 | No run alters or removes, for an upload, anything but a missing name and what that same upload last left there |
| `ProtocolTheorems.CreatedIsExact` | internal/tools/publish.go:303-338 | The step that commits an upload leaves the path showing exactly the image, by this call, on a name that was missing when its stretch of changes began; `created` follows only that step and leaves the token without a marker |
| `ProtocolTheorems.SkippedIsExact` | internal/tools/publish.go:262-293 | `skipped` is answered only while the path shows exactly the image, changes neither path nor directory, and leaves the upload's temp file, with the whole image, lying there |
| `ProtocolTheorems.StraysAreExact` | internal/tools/write.go:252-259 | An event abandons one more file in the directory if and only if it is a temp create that failed after taking effect, a failed removal, or a skipped upload; every file abandoned before is still there, unchanged |
| `ProtocolTheorems.AbandonedForGood` | internal/tools/write.go:252-259 | An abandoned temp file stays in the directory, unchanged, along every later run |
| `ProtocolTheorems.CleanIffNeat` | internal/tools/write.go:234-239 | Over whole runs: when no call runs the directory holds no temp file if and only if none of those three events has happened |
| `ProtocolTheorems.NoStrayTemps` | internal/tools/write.go:245-282 | Over any run without those three events the only temp file is the running call's own, and when no call runs there is none |
| `ProtocolTheorems.RunExtends` | internal/tools/edit.go:150-210 | The record of versions only grows along a run |
| `ProtocolTheorems.NextExtends` | internal/tools/edit.go:150-210 | Every event that changes what the path shows is recorded, once |
| `ProtocolProgress.TextCallsAreExact` | internal/tools/edit.go:150-210 | In every reachable state, a read, edit, multi_edit or write whose calls succeed, if need be after retries, with no outside write meanwhile, answers not found, directory, the bytes, never read, stale, failed edits or success each if and only if the path and its token's marker call for it, and success shows the complete new content under a fresh marker |
| `ProtocolProgress.UploadsAreExact` | internal/tools/publish.go:192-256 | Likewise an upload is created if and only if the name is missing, skipped if and only if the file holds the very image, and a conflict if and only if it holds anything else |
| `ProtocolProgress.CallsCanEnd` | internal/tools/write.go:55-180 | From every state it can be in, a running call reaches its reply within nine more successful calls |
| `ProtocolProgress.SuccessesAreFew` | internal/tools/edit.go:150-210 | A text call whose calls all succeed makes at most eight, and is done if it makes that many |
| `ProtocolProgress.ReasonsAreTrue` | internal/tools/edit.go:156-210 | Whatever errors and outside writes came before, a call that fails gives a reason that is true at that step |
| `ProtocolProgress.NoticesAreTrue` | internal/tools/publish.go:213-345 | A created upload is called degraded if and only if it was copied into place, and its temp file is reported whenever it is still there |
| `ProtocolProgress.WritesAlwaysMark` | internal/tools/write.go:187-212 | Every success records a marker: the stat's, or one of the zero time if the stat failed |
| `ProtocolInvariant.NextKeeps` | internal/tools/edit.go:150-210 | The invariant behind the theorems is kept by every event: granted lock, every file system call with every outcome, release, outside write |
| `ProtocolInvariant.StepKeeps` | internal/tools/write.go:55-180 | Each of the twenty-two program points of the handlers keeps the invariant whatever its call answers, and has the temp file it needs |
| `ProtocolInvariant.StepAppends` | internal/tools/write.go:261-279 | A step changes the path only by appending the change, with its author and what it replaces, to the record |
| `ProtocolFailures.FailedCallsRestoreExactly` | internal/tools/write.go:154-165 | In every run, a call that has failed leaves its own change on the path if and only if one of its calls took effect behind an error (claim, rename over a file, link, degraded create) or its last removal failed, and nothing changed the path since |
| `ProtocolFailures.FailedCallsRestore` | internal/tools/write.go:154-165 | Over every run without such an event a failed call leaves the path as it found it, or as another program left it |
| `ProtocolFailures.StainsShow` | internal/tools/write.go:131-165 | Each such event, left alone by other programs, ends in success or in a failed call whose change is still there |
| `ProtocolFailures.TaintStep` | internal/tools/write.go:131-165 | Step by step: which calls and answers leave a change the handler does not know of, and which take it away, for all twenty-two points |
| `ProtocolMarkers.MarkersNeedOneWindow` | internal/tools/write.go:187-212 | Markers stay sound while other programs write at any time but one: between the rename that publishes a file and the stat after it |
| `ProtocolMarkers.StepKnows` | internal/tools/write.go:187-212 | What the markers rest on is kept by each of the twenty-two points whatever its call answers |
| `ProtocolWorld.PathsAreIndependent` | internal/tools/server.go:129-134 | Any interleaving of handlers on many paths, over one shared directory of temp files and one marker table, is on each path exactly a run of the one-path machine, with its own temp files and markers in what is shared |
| `ProtocolWorld.StepBeside` | internal/tools/write.go:245-282 | Every call does the same whatever other files lie in the directory, and leaves those as they are |
| `ProtocolWorld.BystandersStay` | internal/tools/write.go:252-259 | No interleaving ever changes or removes a file of the directory that is no handler's temp file |
| `ProtocolWorld.EveryPathIsSafe` | internal/tools/server.go:129-134 | After every interleaving the invariant holds of every path, of the markers and temp files that are really in the shared table and directory |
| `ProtocolLimits.WindowBreaksMarkers` | internal/tools/write.go:170-212 | The window between rename and post-write stat is real: from a reachable state an outside write there leaves a marker that matches bytes the token never obtained |
| `ProtocolLimits.WindowLosesAWrite` | internal/tools/write.go:131-151 | The window between claim and rename is real: from a reachable state an outside write there is replaced by a call that never read it |
| `ProtocolLimits.MarkerWindowIsExact` | internal/tools/write.go:187-212 | On every run, at the stat after a rename: an outside change just before it leaves the token's marker sound if and only if it removed the file or left the very bytes published; anything else is matched by a marker of bytes never obtained |
| `ProtocolLimits.RenameWindowIsExact` | internal/tools/write.go:261-279 | On every run, at the rename: an outside change just before it is replaced without right, unless it was a removal met by a write |
| `ProtocolLimits.FailedWriteLeavesItsTemp` | internal/tools/write.go:245-282 | A run to a failed write that took its claim back and left its temp file for good |
| `ProtocolLimits.SkippedUploadLeavesItsTemp` | internal/tools/upload.go:220-230 | A run to a skipped upload whose temp file lies beside the path for good |
| `ProtocolLimits.AmbiguousClaimIsReachable` | internal/tools/write.go:131-151 | A run from a missing file to a write that answers the never-read error and leaves its own empty file |
| `ProtocolLimits.AmbiguousRenameIsReachable` | internal/tools/write.go:261-282 | A run from a file a token has read to a write that answers a file system error over its complete new content |
| `ProtocolLimits.AmbiguousCopyIsReachable` | internal/tools/publish.go:353-363 | A run from a missing name to an upload that fails as a conflict with its own empty file, which stays |
| `Files.HandlersAreSafe` | internal/tools/edit.go:150-210 | Whatever calls the handlers have made, the versions they left form a chain of permitted changes, every marker that matches the path describes what it shows, and the last reply is true |
| `TextHandlers.Conn.Read` | internal/tools/read.go:45-91 | read makes exactly the calls of a run of the machine, answers what the machine answers and records the marker of the stat before the read |
| `TextHandlers.Conn.Snapshot` | internal/tools/edit.go:156-173 | The stat and the read, retried together, end as the machine's do |
| `TextHandlers.Conn.EditFlow` | internal/tools/edit.go:150-210 | edit and multi_edit make exactly the calls of a run of the machine for every behaviour of the file system and of others, answer what it answers, keep session and machine markers equal, and on success leave their exact result; when they succeed is `HandlersGetThrough` |
| `TextHandlers.Conn.CheckAndApply` | internal/tools/edit.go:179-191 | The session's marker check and, only behind it, the edits, end as the machine's: never read, stale, failed edit or the new content |
| `TextHandlers.Conn.Write` | internal/tools/write.go:55-180 | write does the same, through the existing-file gate or the exclusive claim and its rollback |
| `TextHandlers.Conn.AtomicWrite` | internal/tools/write.go:245-282 | The temp-and-rename write ends with the new content published, or failed with its temp removed best effort, whatever fails and is retried |
| `TextHandlers.Conn.StatFile` | internal/tools/write.go:215-231 | The pre-write re-stat decides between error, vanished file, changed file and the write |
| `TextHandlers.Conn.Claim` | internal/tools/write.go:131-151 | The claim answers the never-read error exactly when the name exists |
| `TextHandlers.Conn.Known` | internal/tools/write.go:103-126 | An existing target is written only if its stat matches the session's marker and a second stat agrees |
| `TextHandlers.Conn.MarkKnown` | internal/tools/write.go:187-212 | The recorded marker is the fresh stat's, or one no file matches, and the path shows the call's exact content |
| `TextHandlers.HandlersGetThrough` | internal/tools/edit.go:150-210 | What the handlers leave in the file and answer, when their own calls get through, is what the two theorems say |
| `UploadHandler.Publisher.UploadItem` | internal/tools/upload.go:209-242 | The locked stage of an item makes exactly the calls of a run of the machine and answers what it answers; a created file leaves the session without a marker for the path |
| `UploadHandler.Publisher.PublishItem` | internal/tools/publish.go:192-256 | The retried decision ends in skipped, created or a failure to clean up after, against the path as it then is |
| `UploadHandler.Publisher.TryPublish` | internal/tools/publish.go:213-250 | One attempt: lstat, then compare or publish, a lost race becoming a compare |
| `UploadHandler.Publisher.CompareExisting` | internal/tools/publish.go:262-294 | The fenced comparison answers skipped, conflict, changed target or a retry as the machine does |
| `UploadHandler.Publisher.PublishNoReplace` | internal/tools/publish.go:303-345 | Link, or where links are refused an exclusive copy; a lost race is reported as such |
| `UploadHandler.Publisher.DegradedPublish` | internal/tools/publish.go:353-388 | The exclusive copy ends complete, raced, or removed best effort and failed |
| `Session.Session.Compare` | internal/session/session.go:155-166 | Unknown, match or stale, by whether and with what values the path was last marked and not since forgotten |
| `Session.Session.MarkRead` | internal/session/session.go:134-141 | Sets this path's marker and no other |
| `Session.Session.Forget` | internal/session/session.go:188-192 | Drops this path's marker and no other |
| `Session.Session.Lookup` | internal/session/session.go:144-149 | The marker the path was last marked with, and none exactly if it was never marked or has been forgotten since |
| `Session.MarkersAreLastTouches` | internal/session/session.go:134-192 | After any sequence of marks and forgets a path's marker is what the last one for that path left |
| `Session.PathLocks.Channel` | internal/session/session.go:118-130 | A path's semaphore is made on first use, never replaced, and shared with no other path |
| `Session.PathLocks.LockContext` | internal/session/session.go:106-114 | Waits while others hold and free the lock; returns holding it, taken when nobody held it, or with the context at its end and nothing done; a free lock is taken at once while the context lasts; other paths are untouched |
| `Session.PathLocks.Release` | internal/session/session.go:110-110 | Frees this path's lock and no other |
| `Session.Semaphore.TakeWithin` | internal/session/session.go:106-114 | The two-way wait on one semaphore: in its history every token taken is freed by its holder before the next is taken |
| `LockOrder.MutualExclusion` | internal/tools/upload.go:166-218 | In every interleaving at most one handler is inside a path's locked section whatever its token, at most four images download, Roots are swapped only while nobody uses one, and the session lock is free when a process-lock holder asks for it |
| `LockOrder.NoWaitCycle` | internal/session/session.go:106-114 | In no reachable state does a chain of threads each waiting for the next return to its start |
| `LockOrder.NoDeadlock` | internal/session/session.go:106-114 | In every reachable state with an unfinished handler some handler can take its next step, even if no wait is ever given up |
| `LockOrder.WaitsAscend` | internal/cifsops/rootpool.go:80-103 | Whoever is waited for waits, if at all, for something later in the order slot, path lock, session lock, lease, drain, pool mutex |
| `LockOrder.WaitsAreForTheSame` | internal/session/session.go:106-114 | A wait is only ever for the same path, for the same session on it, for a slot while all four are taken, or for the Root pool, where readers do not wait for readers at the lease; calls on different paths do not wait for each other's locks |
| `LockOrder.MovesKeepSafe` | internal/cifsops/rootpool.go:95-177 | Every lock, unlock and abandoned wait keeps the mutual exclusions |
| `LockOrder.SomeoneMoves` | internal/cifsops/rootpool.go:95-177 | Following who waits for whom from any busy thread reaches one that can move |
| `Lease.LeaseIsSafe` | internal/cifsops/rootpool.go:95-177 | In every interleaving of WithRoot, legacy Resolve and ReopenAll with failing reopens, a WithRoot call's Root is open and so is every cached Root |
| `Lease.RootOutlivesTheCall` | internal/cifsops/rootpool.go:95-103 | From the moment it has its Root until it returns, a WithRoot call keeps that same Root, open |
| `Lease.GivenRootIsItsOwn` | internal/cifsops/rootpool.go:95-133 | The Root a call is given is open and its own directory's; it is given none only if none is cached and none can be opened |
| `Lease.HomesStay` | internal/cifsops/rootpool.go:112-133 | A Root stays its directory's along every run |
| `Lease.NextKeeps` | internal/cifsops/rootpool.go:149-177 | Roots still to be closed are never cached nor in use, at every step of a pass |
| `Lease.OrphansAreExact` | internal/cifsops/rootpool.go:143-177 | An event loses an open Root, so that nobody will use or close it again, if and only if a reopen pass caches its Root over one cached since it began; it loses that one, for good |
| `Lease.LossIsExact` | internal/cifsops/rootpool.go:143-177 | A whole run leaves a lost Root if and only if that happened in it |
| `Lease.LeasedPassesLoseNothing` | internal/cifsops/rootpool.go:143-177 | While no legacy Resolve falls into a reopen pass, no open Root is ever lost, however passes and WithRoot calls interleave |
| `Lease.LegacyMayLoseItsRoot` | internal/cifsops/rootpool.go:112-133 | A legacy Resolve can have its Root closed under it, and one in the middle of a pass can lose it: the run |
| `RootPool.RootPool.Resolve` | internal/cifsops/rootpool.go:117-133 | The owner's cached Root or a freshly opened and cached one, with the Root-relative name; a failed open caches nothing |
| `RootPool.RootPool.ReopenAll` | internal/cifsops/rootpool.go:149-177 | Every formerly cached Root is closed; exactly the directories that open again are cached, with new Roots; the rest are reported and left lazy |
| `RootPool.Owner` | internal/cifsops/rootpool.go:183-194 | The longest directory that holds the path, or none |
| `RootPool.GuardAndPoolAgree` | internal/cifsops/rootpool.go:183-224 | A clean path inside an allowed directory has an owner, every other match holds the owner, owner joined with the relative name is the path, and that name never leaves the Root |
| `RootPool.AnsweredPathsAreRouted` | internal/cifsops/rootpool.go:183-224 | All of that for every path Validate answers, whatever spelling came in and whatever its links resolve to |
| `Paths.WithinIsPrefix` | internal/pathguard/pathguard.go:187-192 | The byte comparison with its slash boundary and root case is exactly "leading path names", so no sibling with a common prefix matches |
| `Paths.CleanIsClean` | internal/pathguard/pathguard.go:105-111 | Cleaning an absolute path leaves no empty, dot or dot-dot name |
| `Paths.CleanWalks` | internal/pathguard/pathguard.go:105-111 | Cleaning follows an absolute path name by name: empty and dot names stay, a dot-dot goes to the parent and stays at the root, any other name goes down |
| `Paths.DotDotGoesUp` | internal/pathguard/pathguard.go:105-111 | A name and the dot-dot after it cancel |
| `Paths.RootHasNoParent` | internal/pathguard/pathguard.go:105-111 | At the root a dot-dot is nothing |
| `PathGuard.Guard.Validate` | internal/pathguard/pathguard.go:84-146 | The pipeline, step for step, is the specified validation, which the next row fixes |
| `PathGuard.ValidationIsExact` | internal/pathguard/pathguard.go:84-165 | Which path is resolved, which directory vouches for it, and each of the six errors and the answer if and only if its condition holds |
| `PathGuard.DotDotIsLexical` | internal/pathguard/pathguard.go:105-111 | A spelling with a dot-dot is answered as the spelling without it |
| `PathGuard.Guard.ValidateNewPath` | internal/pathguard/pathguard.go:155-165 | A missing file is accepted on its resolved parent alone; the path answered is clean, inside an allowed directory, an entry of that parent and of the name asked for |
| `PathGuard.Guard.AnyWithin` | internal/pathguard/pathguard.go:168-175 | Whether some allowed directory holds the path |
| `PathGuard.ValidatedIsInside` | internal/pathguard/pathguard.go:84-165 | Every path let through is clean, absolute and inside an allowed directory, whatever spelling came in and also for missing files |
| `PathGuard.ValidatedIsStable` | internal/pathguard/pathguard.go:84-146 | A path the guard has answered is answered again as itself while it resolves to itself |
| `PathGuard.New` | internal/pathguard/pathguard.go:43-71 | An error if there is no entry or one does not resolve; otherwise exactly the resolved directories, each once |
| `UploadBatch.Upload` | internal/tools/upload.go:45-149 | A call is refused exactly for an empty, oversized, malformed or unqueued batch; otherwise every item that ran is answered with its own pipeline's row, every other one with why it did not, at most four run at once, and the counts and the error flag are those of these rows |
| `UploadBatch.RunWorkers` | internal/tools/upload.go:103-134 | Under every schedule of the workers each item with a target is run exactly once, its row is the one its pipeline gave, no other row is touched, and no more than the allowed number are at work |
| `UploadBatch.Prepare` | internal/tools/upload.go:82-98 | Items that do not resolve or share a target are failed and lose their target; all others keep it unanswered |
| `UploadBatch.MarkDuplicates` | internal/tools/upload.go:91-98 | Whatever order the targets are visited in, exactly the items that share one are failed |
| `UploadBatch.DuplicatesAllFail` | internal/tools/upload.go:91-98 | Items that share a target all fail and none reaches a worker |
| `UploadBatch.ReportIsTrue` | internal/tools/upload.go:82-149 | Item by item: a path that does not resolve, a shared target, or the pipeline's own row; the three numbers are how many rows there are of each kind |
| `UploadBatch.Summarize` | internal/tools/upload.go:136-149 | Created, skipped and failed are the true counts, add up to the rows, and the error flag is set exactly if one failed |
| `UploadBatch.CheckItems` | internal/tools/upload.go:54-63 | The first malformed item, by its number |
| `LineIO.Render` | internal/lineio/lineio.go:107-178 | The loop with its three limits returns the page the specification describes, and an error exactly for a bad argument |
| `LineRows.RowReads` | internal/lineio/lineio.go:140-149 | Row for row: the number before the first tab is the line's, counted from one; after it comes the line, whole if short enough, else its first code points and the marker |
| `LineRows.ValidRowReads` | internal/lineio/lineio.go:140-149 | A line of valid text that is short enough is read back letter for letter |
| `LineRows.RowOfByte` | internal/lineio/lineio.go:140-149 | The row showing a byte of the file bears the engine's line number of that byte |
| `LineRows.PageIsExact` | internal/lineio/lineio.go:107-178 | The text is the rows from `offset` on, joined; the result's line numbers are those of the rows, and each limit is named if and only if it fired, once |
| `LineRows.PageStartsAtOffset` | internal/lineio/lineio.go:138-160 | A page that shows anything begins with the row of line `offset` |
| `LineRows.PastEndIsExact` | internal/lineio/lineio.go:115-126 | Past the end nothing is shown, and the reason is given unless the file is empty |
| `LineIO.BudgetIsExact` | internal/lineio/lineio.go:132-162 | The text stays under the byte budget, holds exactly the promised rows, and a size stop drops only a row that does not fit |
| `LineIO.NoticeIsExact` | internal/lineio/lineio.go:164-189 | The footer is empty exactly when the page reached the end with no shown line cut; it has a reason exactly when it is there, and names the next offset |
| `LineIO.Progress` | internal/lineio/lineio.go:138-157 | Every call that starts inside the file shows at least one line |
| `LineIO.RowsFit` | internal/lineio/lineio.go:24-36 | Under the production limits no single row exceeds the budget: a code point is at most four octets (section 3 of RFC 3629), a line number at most nineteen digits |
| `LineIO.PagesPartitionTheFile` | internal/lineio/lineio.go:107-178 | Asking for the line after the last one shown until the last line terminates, and the pages joined are the numbered listing of the whole file |
| `LineIO.NoticesCycleExactlyAfterACut` | internal/lineio/lineio.go:182-189 | Following footers instead ends past the end exactly after a cut last page, and from there points back to line 1 |
| `LineTruncation.TruncatedIsExact` | internal/lineio/lineio.go:143-156 | The result is marked truncated if and only if a shown line was cut, or the size limit dropped a line that was |
| `LineTruncation.TruncatedShowsNoCut` | internal/lineio/lineio.go:143-156 | With the tool's own limits: 130 lines of 2000 characters and one of 2001 are shown whole up to line 130, marked truncated |
| `LineIO.TruncateRunes` | internal/lineio/lineio.go:213-222 | The first n code points |
| `Utf8.ByteLenCountsBytes` | internal/lineio/lineio.go:150-155 | The byte length charged to the budget is the length of the text's encoding |
| `Utf8.SanitizeKeepsValid` | internal/lineio/lineio.go:207-209 | Sanitizing leaves valid text as it is |
| `Utf8.InvalidStretchIsOneReplacement` | internal/lineio/lineio.go:204-209 | Every stretch of invalid bytes is shown as one U+FFFD, between the text before it and whatever follows |
| `Utf8.DecodeIsExact` | internal/lineio/lineio.go:204-209 | What counts as a code point: exactly the shortest encodings (section 3 of RFC 3629), no surrogate, nothing past U+10FFFF |
| `Decimal.ItoaIsDecimal` | internal/lineio/lineio.go:149-149 | Numbers are printed digit by digit, the highest first, with no zero in front |
| `LineAgreement.EngineAndRendererAgree` | internal/editengine/engine.go:122-132 | For every byte offset the engine's line number is the renderer's number of the line holding that byte |
| `LineAgreement.AmbiguousLinesAreReadLines` | internal/editengine/engine.go:69-71 | The line numbers of an ambiguous-match error are those read prints beside the first matches, up to five |
| `LineAgreement.LinesRestoreTheFile` | internal/lineio/lineio.go:194-202 | Joining the split lines, and the stripped final newline, restores the file; no line holds a newline |
| `LineAgreement.LinesReadBack` | internal/lineio/lineio.go:194-202 | Any lines written one by one, each with its newline, are split into those lines again |
| `EditEngine.ApplyOnce` | internal/editengine/engine.go:57-77 | The scanning code gives the edit's outcome, which the next two rows fix by occurrences alone |
| `EditEngine.OutcomeIsExact` | internal/editengine/engine.go:57-77 | Empty old text, no change, no occurrence, and without replace_all two occurrences that do not overlap are refused, each with its own error, and nothing else is |
| `EditEngine.SingleEditIsSplice` | internal/editengine/engine.go:73-76 | An edit made at one place replaces the first occurrence and leaves the rest |
| `EditEngine.ApplyMany` | internal/editengine/engine.go:88-98 | The edits in order, all or nothing, the failing one named |
| `EditEngine.CountMatches` | internal/editengine/engine.go:102-117 | The number of leftmost non-overlapping occurrences and the offsets of the first five |
| `EditEngine.LineNumbers` | internal/editengine/engine.go:122-132 | Each offset's line is one more than the newlines before it |
| `EditEngine.ReplaceAllRefinesGaps` | internal/editengine/engine.go:73-75 | Replace-all is the stretches between the leftmost disjoint matches, none of which holds the old text, rejoined with the new one, with the length that implies, also when the new text contains the old |
| `EditEngine.UniqueMeansUnique` | internal/editengine/engine.go:65-71 | If one match is counted, at k, every occurrence starts within it |
| `EditEngine.UniqueEditUndoes` | internal/editengine/engine.go:57-77 | If the new text occurs in the result at k only, editing it back returns the original content |
| `EditEngine.BatchSplits` | internal/editengine/engine.go:88-98 | Applying a batch is applying its first part and then the rest to the result |
| `EditEngine.BatchOfOne` | internal/editengine/engine.go:88-98 | An empty batch changes nothing and a batch of one is that edit, its error numbered |
| `EditEngine.FailureNamesTheEdit` | internal/editengine/engine.go:91-94 | A failed batch names the first edit that fails on the content the earlier ones produced |
| `ByteSearch.MatchesAreLeftmost` | internal/editengine/engine.go:102-117 | The scan's matches are ordered, disjoint, real, and leave no occurrence in any gap |
| `ByteSearch.LeftmostIsUnique` | internal/editengine/engine.go:102-117 | Only one sequence of offsets has that property |
| `GrepCollector.Collector.Line` | internal/tools/grep.go:342-368 | What each mode's buffered or printed state becomes |
| `GrepCollector.Collector.EndFile` | internal/tools/grep.go:372-419 | The flush of the buffered file, block by block |
| `GrepCollector.Collector.MergedSpans` | internal/tools/grep.go:383-403 | The in-place merge gives the specified spans |
| `GrepProperties.MergeIsExact` | internal/tools/grep.go:383-403 | The merged spans are ordered, separated by an uncovered line and cover exactly the lines within the context of a match |
| `GrepProperties.ExactIsUnique` | internal/tools/grep.go:383-403 | Only one list of spans has that property |
| `GrepProperties.GroupsAreExact` | internal/tools/grep.go:404-418 | A flush prints each covered line of the buffer once, in order, with the right marker, in one block per maximal run |
| `GrepProperties.FlushReads` | internal/tools/grep.go:404-418 | Row for row: path, line number, text, and a colon or a dash as the line matched or not |
| `GrepRuns.ContentIsJoinedRuns` | internal/tools/grep.go:314-419 | For every sequence of scans, given up or not, the output is the groups of its runs in order, with one separator between neighbours exactly when a context is asked for; a run is the scans given up since the last flush and the one that ends, under the path of the first with a line |
| `GrepRuns.RunsAreFilesExactly` | internal/tools/grep.go:314-317 | Those groups are the completed files' own, each named after its file, if and only if no run with a line of a scan given up holds a match; otherwise some printed group is named after a scan given up |
| `GrepRuns.ContentIsJoinedGroups` | internal/tools/grep.go:404-418 | In that case the output is exactly the completed files' groups, joined |
| `GrepRuns.FileReads` | internal/tools/grep.go:342-418 | For a file scanned to its end: exactly the lines within the context of one that matched, in order, each once, as itself |
| `GrepRuns.AbortedScanMisattributes` | internal/tools/grep.go:314-317 | For any two paths and texts: the match of the second file is printed as the first one's line |
| `GrepCounts.OutputIsTally` | internal/tools/grep.go:352-367 | Re-reading its own last line, the count mode accumulates the tally of scans, neighbouring scans of one path merged |
| `GrepCounts.CountModeIsPerFile` | internal/tools/grep.go:352-362 | The output is one true count per matching file, in order, if and only if neighbouring matching files have different paths |
| `GrepCounts.HiddenRepeat` | internal/tools/grep.go:352-362 | Different neighbouring paths are not enough: a file without matches hides a repeat |
| `GrepCounts.CountLineParses` | internal/tools/grep.go:354-357 | A count line re-reads as its own path and number also when paths hold colons and digits or start one another |
| `Decimal.AtoiOfItoa` | internal/tools/grep.go:356-357 | A printed count reads back as itself |
| `Retrier.Retrier.Do` | internal/cifsops/cifsops.go:173-214 | The retry loop does what the policy says for every sequence of outcomes, and the process is warm if and only if some call has succeeded |
| `Retrier.RetryBounds` | internal/cifsops/cifsops.go:173-214 | At most four runs cold and two warm, waits a prefix of the schedule, nothing after a success, non-backend error, hook error or cancellation, and the last event's verdict returned |
| `Retrier.PolicyEchoesTheScript` | internal/cifsops/cifsops.go:173-214 | Turn by turn and in order, the context is checked, the hook run with the retry's number, the schedule's next wait made and the operation run, and each event records what the surroundings answered on that turn |
| `Retrier.ClassesAreExact` | internal/cifsops/cifsops.go:56-94 | Four errnos are definitive, seven are worth a retry, everything else is unknown |

## Left out

- TextHandlers.Conn.EditFlow: edit and multi_edit share one method; argument decoding and content warnings are left out.
- TextHandlers.Conn.Read: the marker's bytes are the whole file; that a page of it was shown is `LineIO`'s matter.
- UploadHandler.Publisher.UploadItem: starts at the granted locks; the download and its temp file before that are one assumption.
- UploadBatch.RunWorkers: an item's pipeline is given as the row it answers; how it comes to it is `UploadHandler`'s and the download's.
- LockOrder.NoDeadlock: says that someone can go on, not that everyone does; fairness of channels and mutexes is not modelled.
- Session.PathLocks.LockContext: a wait is a bounded number of turns of the other users before the context ends; one that never ends is not modelled.
- GrepRuns.ContentIsJoinedGroups: one direction on the printed text; the exact condition is about groups with the scan they are named after (`RunsAreFilesExactly`), since odd path names can make different rows print alike.
- ProtocolMarkers.MarkersNeedOneWindow: when another program replaces the name during a degraded copy, the model's next piece shows the copied part on the path again, where the source's descriptor writes on into the unlinked file; either way no marker mentions the stamp shown, which is all the theorem uses.
- Decimal.AtoiOfItoa: the overflow of a count past 64 bits is not modelled.
- The SDK, HTTP routing, tokens, flags, logging and error wording.
- The download itself: network, redirects, address checks, sniffing, XML; a download is its bytes or a failure.
- The ripgrep subprocess, regular expressions, glob matching and directory walks; a line's match flag is an input.
- mkdir, whose only part here is a place in the lock order like any text call's.
- Symbolic links and special files at a target, file modes, fsync, and the eight-try loop for a free temp name.
- Other programs that touch the temp files.
- The number of retries inside the machine, which allows more than `Retrier` does; the handlers allow at most three.
- A vanished parent directory, reported by the source as its own error, is one of the file system errors here.
- Reads that take time: a read is one event at its end, and returns anything if the path changed since its stat.
- Time budgets and cancellation, except as a wait given up, an expired context or a failed call.
