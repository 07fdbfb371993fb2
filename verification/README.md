# Verification of the CEOS-ARD editor's server

This project models the concurrency- and history-sensitive parts of the editor's backend in Dafny and proves what
they promise: that a workspace's Git branch and its fork stay consistent, that realtime delivery has no gaps, that
locks exclude and never deadlock, that single-use tokens are used once, and a handful of smaller algorithms. One
module follows one part of the server; `dafny verify dfyconfig.toml` checks all of them.

| module | part of the server |
| - | - |
| `Commits` | commit graph: commits with parents and path-to-blob trees, reachability |
| `Replay` | three-way merge of trees and the cherry-picking of `_replay` |
| `Unpushed` | `_unpushed_commits`: what the reflog of `origin/<branch>` says about local commits |
| `ForkProtocol` | every interleaving of other writers, fetches, local moves and pushes on one fork branch |
| `GitService` | the `Clone` class: fetch, leased push, branch-restoring push, replay, `sync_with_origin`, `ensure_branch_pushed` |
| `PersistChanges` | commit, push, recovery sync, second push and undo as one transaction |
| `Events`, `Gateway` | `EventBroker`, and the WebSocket handshake, writer, revocations, deletions and logouts around it |
| `KeyedLocks`, `LockOrder` | the self-evicting keyed locks; the nesting of all locks and slots, and the shielded tasks that outlive their request |
| `LockedWork`, `InnerTasks` | the locks the work of those tasks is done under, and the requests that await them |
| `Tokens` | renewal, login, logout and the idle job on one user's GitHub tokens and session version |
| `Glob` | the glob-to-regex compiler and the file menu rules |
| `YamlCache` | the byte-budgeted LRU parse cache, used by several threads while files change |
| `Calendar`, `Retention` | month arithmetic, the archive/reactivate transitions, the cleanup of archived workspaces |
| `Sharing` | collaborators and shares, and the three places that derive roles from them |
| `Toolchains` | the install scheduler |
| `OutputLimit` | the early-exit check of build output |

## Assumptions

- Git: commit ids are fresh and never collide (an id is the commit's index in a growing list); a non-forced push
  follows the fast-forward rule; a successful push or fetch moves the tracking ref and adds a reflog entry; a pruning
  fetch drops both when the branch is gone; merging is at path granularity.
- Between two `await`s nothing else of the process runs. Other people and GitHub can change the fork at any of them,
  and any network operation can fail, or succeed with the reply lost.
- Asyncio locks and semaphores serve their waiters first come, first served; the file lock may serve any of them.
- A database commit is one step. GitHub never issues the same refresh token twice. Monotonic time does not go back.
- What comes from outside (network results, pull request states, clocks, file states, arrivals, cancellations) is a
  parameter or a nondeterministic choice.

## Where the code gives less than it says

Each of these is stated as an if-and-only-if for all inputs, with the failing case next to it.

- **Cleanup date.** The script's comment says it selects `archived_at + 1 month <= now`; it compares `archived_at`
  with `now - 1 month`. The two differ in exactly two situations, by up to three days, never early
  (`Calendar.DueIff`, `Calendar.ThreeDaysIsTight`).
- **Parse cache.** A hit can return a version newer than the one the caller's own stat saw. All calls of a run get
  exactly the version of their stat if and only if no file is rewritten between a call's stat and its read
  (`YamlCache.CallsAreExactIffCalm`, `YamlCache.RacedHit`). A call never gets an older version, and what it gets was
  current at some moment during the call.
- **Single-use refresh tokens.** The row keeps a spent refresh token after a reply without a refresh token of its own,
  after an exchange whose reply is lost, after a request cancelled during an exchange that GitHub performed, and after a
  logout cancelled while it revokes the rotated pair; after nothing else (`Tokens.LeavesSpentExactly`,
  `Tokens.StoredTokenStaysUnspentIff`). The next renewal then sends it again (`Tokens.SpentTokenIsSentAgain`).
- **File menu.** A path with a line break matches no default rule, so `allowed_operations` fails on `None.ops` unless
  a rule of the type's own matches (`Glob.AllowedOperations`, `Glob.LineBreakHasNoRule`).
- **Output check.** Entries that vanish are counted but the limits are not looked at after them
  (`OutputLimit.ExactIff`, `OutputLimit.VanishedEntriesGoUnnoticed`).
- **`persist_changes`.** The documented outcomes are met unless the recovering sync fails while replaying and then
  cannot restore HEAD: exactly then the workspace is left wherever that reset stopped (`LeftBehind` in
  `PersistChanges.PersistChanges`).

## Model

| member | source | states |
|---|---|---|
| Commits.ReachesIffPath | app/services/git_service.py:316 | a commit reaches another if and only if a path along parents leads there |
| Replay.MergeTrees | app/services/git_service.py:349-352 | the merged tree has at every path the three-way merge of the three trees' values |
| Replay.ReplayOfLinearRun | app/services/git_service.py:339-356 | replaying a linear run conflicts if and only if at some path the fork differs from the run's base and the first local change goes to another value than the fork's; otherwise the tip has the local value at every path the run touched and the fork's elsewhere |
| Replay.ReplayOfOne | app/services/git_service.py:346-356 | what one commit does: a merge is passed over, a root fails, and any other conflicts exactly where it, the fork and its parent all differ, or else gives every path the changed value, in a commit of its own unless nothing changed |
| Replay.ReplayInParts | app/services/git_service.py:344-356 | replaying any list, merges included, is replaying its first part and then, unless that failed, the rest on the tree that was reached |
| Replay.ReplayShape | app/services/git_service.py:346-355 | for any list of commits: the picks are some of them, in their order, none of them merges, and no new commit is empty |
| Replay.ChainShape | app/services/git_service.py:355-356 | the new commits are a single-parent chain on the fork's tip that keeps each commit's author and message |
| Replay.TipReach | app/services/git_service.py:355-356 | the new tip reaches exactly the new commits and what the fork's tip reaches |
| Unpushed.RewrittenIffHoldsDropped | app/services/git_service.py:334-337 | the comparison of the two walks' lengths is true if and only if HEAD holds a commit that the reflog reaches and the tip does not |
| Unpushed.LogReachesIff | app/services/git_service.py:334 | both sides of every reflog entry count as seen |
| Unpushed.NeverOnOrigin | app/services/git_service.py:334-336 | the list holds exactly the commits of HEAD that neither the tip nor any reflog entry reaches |
| Unpushed.WalkSorted | app/services/git_service.py:328-332 | parents come before children and nothing is listed twice |
| Unpushed.UnpushedIsSuffix | app/services/git_service.py:320-337 | on linear history the list is a contiguous suffix that ends at HEAD |
| ForkProtocol.LeasedPushOnlyAdvances | app/services/git_service.py:280-289 | a push without set_upstream leaves the fork branch alone or moves it from the last seen tip to a descendant, and adds nothing that was recorded as dropped |
| ForkProtocol.UncontestedPushAllowed | app/services/git_service.py:280-289 | the lease is no obstacle to a HEAD on top of the last fetched tip that holds nothing dropped |
| ForkProtocol.RepeatedPushAllowed | app/utils/git_utils.py:199-202 | nor to pushing what is on the fork already |
| ForkProtocol.RestorePushOnlyAdds | app/services/git_service.py:271-279 | restoring a branch takes nothing off the fork |
| ForkProtocol.RunKeepsRecord | app/services/git_service.py:320-326 | what the server saw on the fork stays in the record over every run, as long as the tracking ref is kept |
| ForkProtocol.NoResurrection | app/services/git_service.py:255-261 | over every interleaving, a commit seen on the fork and dropped there since does not come back through a leased push |
| ForkProtocol.RecordIsForkHistory | app/services/git_service.py:324-326 | the reflog only names former tips of the fork |
| GitService.UpToDateIffSettled | app/services/git_service.py:422-439 | a clean workspace counts as up to date if and only if HEAD is on top of the fetched tip and holds nothing dropped |
| GitService.ReplayedIsSettled | app/services/git_service.py:443-464 | a replayed HEAD is on top of the fetched tip and holds nothing dropped |
| GitService.LinearSync | app/services/git_service.py:422-466 | on linear history, a sync decides for CONFLICT exactly when a path is contested, and otherwise leads to the local values where local commits touched a path and the fork's elsewhere |
| GitService.Clone.Fetch | app/services/git_service.py:388-397 | the tracking ref and reflog after a fetch; a pruning fetch alone notices a missing branch |
| GitService.Clone.PushNegotiation | app/utils/git_utils.py:199-202 | a push may go on if and only if every ref is where it was last seen, or already where it should go |
| GitService.Clone.Push | app/services/git_service.py:280-300 | refuses, without a step, exactly when HEAD holds dropped commits; a successful push is one leased step that leaves the fork at HEAD and moves the tracking ref there; a failed one takes at most that leased step; nothing of the working copy changes |
| GitService.Clone.PushSetUpstream | app/services/git_service.py:271-279 | the branch-restoring push, then a fetch; on success the reflog reaches HEAD; the working copy is untouched |
| GitService.Clone.CherryPick | app/services/git_service.py:344-356 | the loop creates exactly the chain of the replay's specification, or stops at the first conflict with its files |
| GitService.Clone.ReplayCommits | app/services/git_service.py:339-356 | a replay leaves HEAD, the index and the files as they are |
| GitService.Clone.TakeRemote | app/services/git_service.py:441-454 | moves HEAD, index and files to the replayed tip, or leaves them as before on a conflict or an error whose restoring reset succeeds |
| GitService.Clone.SyncWithOrigin | app/services/git_service.py:358-466 | a pruning fetch comes first, and what it found decides everything: a missing branch means REMOTE_MISSING unless it is to be restored, and then DIRTY with uncommitted work or else REMOTE_RESTORED, with the reflog reaching HEAD; with the branch there, DIRTY exactly with uncommitted work, UP_TO_DATE exactly if HEAD is settled, and else UPDATED, MERGED or CONFLICT; or a failure. The counts; what each leaves behind: only UPDATED and MERGED move HEAD, to the replayed tip, on top of the fetched one and without dropped commits; which pushes are tried, none without a lease but to restore a missing branch, and that only if asked to |
| GitService.Clone.SyncTwice | app/services/git_service.py:432-466 | a second sync after UP_TO_DATE, UPDATED or MERGED moves nothing if its fetch fails, or finds the fork where it was last seen or at HEAD; in the latter case it returns UP_TO_DATE, or cannot read the status: also when the first one's best-effort push failed, or was applied and its reply lost |
| GitService.Clone.EnsureBranchPushed | app/services/git_service.py:468-516 | unless it fails, it fetched, and every commit of HEAD was on the fork by the tracking ref or its reflog; something was delivered only if the branch was missing or HEAD held a commit that was never there; it fails only if the fetch or a push does, or HEAD holds dropped commits; the branch is restored only if that fetch found none |
| GitService.Clone.NeverResurrects | app/services/git_service.py:255-261 | for any sequence of the clone's own operations and everybody else's: no leased push brought back a dropped commit |
| PersistChanges.CommitChanges | app/services/git_service.py:220-253 | one new commit of the index on HEAD, or nothing |
| PersistChanges.RevertCommit | app/services/file_service.py:632-643 | a soft reset to the parent exactly when HEAD is that commit and has one; index and files stay |
| PersistChanges.PushWithRecovery | app/services/workspace_service.py:285-298 | the fork is looked at exactly when the push failed on the remote, and the push retried exactly when the fork was recreated; success leaves the fork at HEAD; the working copy is untouched |
| PersistChanges.PersistChanges | app/services/file_service.py:664-752 | returns the commit of this call, or HEAD if the replay replaced it, and HEAD and the fork contain it; or raises with HEAD and index as before; or raises with the local commits on the tip that the recovering sync's recorded fetch found; or, if and only if that sync failed while replaying and could not restore HEAD, leaves whatever that left; the sync follows exactly when neither the first push nor its retry after a fork repair got through, and the first push is refused exactly when HEAD held dropped commits; the undo only takes off the commit of this call; every push is leased unless a branch or fork had to be put back |
| PersistChanges.RecoverFromRejectedPush | app/services/file_service.py:689-743 | what each outcome of the recovering sync, and the state its fetch left, lead to: which raise with the commit undone, which commit is returned, and with what status, when a second push is made, and the one that leaves the workspace behind |
| Events.SubscribedKeepsGood | app/services/events_service.py:64-68 | both registries list exactly the live queues, without empty sets |
| Events.UnsubscribedKeepsGood | app/services/events_service.py:70-81 | both registries still list exactly the live queues, without empty sets, after a queue is discarded |
| Events.PublishedKeepsGood | app/services/events_service.py:87-103 | a publish keeps every queue within its bound and a close signal only at its head |
| Events.AudienceByTopic | app/services/events_service.py:91-93 | an event goes to a subscription if and only if its topic is the workspace, or one of the users |
| Events.SameLiveQueues | app/services/events_service.py:59-62 | a queue is in one registry if and only if it is in the other |
| Events.EventBroker.Subscribe | app/services/events_service.py:64-68 | a new queue in both registries, nothing else changed |
| Events.EventBroker.Unsubscribe | app/services/events_service.py:70-72 | the queue leaves both registries, and with it an empty set |
| Events.EventBroker.Publish | app/services/events_service.py:87-103 | every queue of the audience gets the numbered event, or is drained for the signal to reconnect if full; the others stay |
| Events.EventBroker.CloseUserConnections | app/services/events_service.py:105-117 | every queue of the user holds just the signal, and their number is returned |
| Gateway.Writer | app/api/collab.py:159-185 | takes items up to the first signal, or the first event that deletes the workspace or revokes this user's own access to it, and closes with its code; of the events taken it sends exactly those for everyone or for this user that are not the tab's own, in order and once each |
| Gateway.StepKeepsInv | app/api/collab.py:94-201 | every step of handshakes, writers, publishes, revocations, deletions and logouts keeps the invariant |
| Gateway.AccessDecides | app/api/collab.py:129-139 | a handshake gets through if and only if the user has access to the workspace, or the stream is the user's own |
| Gateway.SubscriberIsServed | app/services/events_service.py:87-103 | a connection that has caught up takes what is published next |
| Gateway.DeliveryIsGapFree | app/services/events_service.py:87-117 | in every run, what a socket took is a gap-free prefix of everything published to its topic since it subscribed, by the topic alone and whatever the registries hold, each once, in increasing order; a client is only told to reconnect with a full queue of events outstanding |
| Gateway.NobodyStaysUnnoticed | app/api/collab.py:129-139 | in every run, a connection that lost access to its workspace, or whose user logged out, has the closing event or signal in its queue or about to be emitted |
| Gateway.RevocationTakesEffect | app/services/share_service.py:269-281 | a revocation takes exactly that access away, and once emitted every open connection of the user to the workspace is about to close |
| Gateway.DeletionTakesEffect | app/services/workspace_service.py:594-623 | a deletion takes everyone's access to the workspace away, and once emitted all its connections are about to close |
| Gateway.LogoutTakesEffect | app/services/events_service.py:105-117 | a logout leaves just the signal to each live connection of the user, and nothing changed for anyone else |
| Gateway.ClosedForAReason | app/api/collab.py:173-185 | in every run, the server closes a socket only because the event it took last deletes its workspace or revokes its own user's access, because its user logged out, or because a full queue of events is outstanding |
| Gateway.StreamsAreKeptApart | app/api/collab.py:129-131 | in every run, a workspace's stream only carries its own events, and a user's stream is the user's own |
| Gateway.DoomApproaches | app/api/collab.py:173-185 | taking items brings a doomed connection to its end, and publishing does not push the end away |
| KeyedLocks.Locks.Enter | app/utils/locks.py:44-50 | the entry counts the user before it waits, and hands out the key's one lock object |
| KeyedLocks.Locks.Leave | app/utils/locks.py:63-67 | the entry is counted down, and evicted with its last user |
| KeyedLocks.KeyedMutualExclusion | app/utils/locks.py:42-67 | in every run of arrivals, acquisitions, endings and cancellations: one holder per key, one lock object per key, counts are holders plus waiters, and an entry exists exactly while there are any |
| KeyedLocks.CanAlwaysLeave | app/utils/locks.py:58-67 | every user inside can leave: the unguarded indexing is safe |
| LockOrder.ProgramsAreNested | app/utils/locks.py:4-13 | every kind of work takes its locks and awaits its inner tasks in increasing order, gives the locks back last in, first out, and shields what it awaits |
| LockOrder.NoDeadlock | app/utils/locks.py:4-13 | in every run, for any number of users, workspaces and requests, while something is unfinished, something can step |
| LockOrder.NeverOverbooked | app/utils/sandbox.py:280 | no lock has two holders, and no more tasks hold a build slot than there are |
| LockOrder.EveryRunFinishes | app/utils/locks.py:4-13 | once no requests come in, the number of steps left is bounded, however requests are cancelled and work fails, and where no step is left every task is finished |
| LockOrder.OnlyOwnSteps | app/utils/locks.py:126-135 | a transaction or install, in its asyncio task, changes by its own steps alone, whatever else runs or is cancelled |
| LockOrder.InnerTaskRunsToTheEnd | app/utils/locks.py:122-144 | whoever is cancelled at any time, what a transaction or install started by a request got done and what it has left are together its program, unless its own work fails; where no step is left it got its whole program done, in order, and holds nothing |
| InnerTasks.EveryMutationStartsItsOwn | app/utils/locks.py:128 | a request starts a transaction of its own, never joins another's |
| InnerTasks.TransactionsAreAwaited | app/utils/locks.py:128-135 | in every run, a request gets past its transaction only when that has ended, unless it raises or is cancelled |
| InnerTasks.CancelledGivesUp | app/utils/locks.py:122-135 | a request can be cancelled as long as it lasts, then only gives back what it holds, and touches no other |
| InnerTasks.FailedGivesUp | app/utils/locks.py:138-144 | work that fails, of a request or an inner task, only gives back what is held, and touches no other |
| InnerTasks.OneInstallPerToolchain | app/utils/toolchains.py:157-165 | in every run, a toolchain is installed by one task at a time, which everyone who needs it joins |
| LockOrder.UnshieldedIsCut | app/utils/locks.py:126-130 | awaited without the shield, it would be cancelled with the request |
| LockedWork.WorksUnderLocks | app/utils/locks.py:138-144 | in every run, however requests are cancelled and work fails: a transaction only works under its workspace lock and file lock, and repairs a fork under that user's fork lock; a build runs under its user's build lock and with a slot, a preview under its build lock, renewals, installs and cleanups under theirs |
| LockedWork.OneWriterPerWorkspace | app/utils/locks.py:75-78 | no two transactions of a workspace work at once, nor a transaction and a cleanup |
| LockedWork.BuildsAreLimited | app/utils/sandbox.py:280 | no more builds run at once than there are slots |
| LockedWork.OneBuildPerUser | app/utils/locks.py:88-90 | no two builds of one user run at once |
| LockedWork.ProgramOutline | app/utils/locks.py:122-144 | what each kind of request, transaction and install does and awaits, in order |
| Tokens.OldJwtsStayRefused | app/services/token_refresh_service.py:190-198 | in every run, no JWT issued before a logout is accepted after it, also after new logins |
| Tokens.OnlyLogoutRaisesVersion | app/services/token_refresh_service.py:190-198 | a step raises the version if and only if it ends a logout |
| Tokens.LeavesSpentExactly | app/services/token_refresh_service.py:118-142 | after a step, the refresh lock is free and the stored token spent if and only if the sent token is still stored and the step is a reply without a refresh token, an exchange whose reply is lost, the cancellation of a request whose exchange was performed, or that of a logout that rotated it |
| Tokens.StoredTokenStaysUnspentIff | app/services/token_refresh_service.py:33-47 | over every run of requests, logins, logouts and cancellations in one process: the stored token is unspent whenever no exchange is in flight, if and only if none of those steps occurs |
| Tokens.NoTokenSentTwice | app/services/token_refresh_service.py:118-142 | over every such run of one process without those steps, no refresh token is sent again after GitHub exchanged it |
| Tokens.SpentTokenIsSentAgain | app/services/token_refresh_service.py:137-139 | after any of those steps the next request that finds the access token expired sends the spent token |
| Tokens.EndedSessionStaysEnded | app/services/token_refresh_service.py:132-135 | over every run, once the tokens are cleared they stay cleared and every request is refused until the next login, also when GitHub answers an exchange later |
| Tokens.AcceptedIsFresh | app/services/token_refresh_service.py:290-302 | a request is accepted with an access token that lasts more than five minutes, or with the pair it just received |
| Tokens.AcceptsIff | app/services/token_refresh_service.py:33-47 | a step accepts a request if and only if its JWT has the current session version, and the access token lasts five more minutes or was just renewed in a session nobody ended |
| Tokens.StoredPair | app/services/token_refresh_service.py:126-142 | what a login or renewal stores; a pair that comes after a logout is not stored |
| Tokens.RevokedBeforeCleared | app/services/token_refresh_service.py:153-198 | in every run, an access token leaves the row only when a logout's revocation is answered or its exchange fails, or by an idle job for the same session whose revocation was confirmed, answered after a rotation, or refused as already used, unless that job had found another session |
| Tokens.RevokesOnlyValid | app/services/token_refresh_service.py:216-250 | a token is only revoked as it is if it lasts five more minutes or cannot be renewed |
| Tokens.ExchangesOnlyExpired | app/services/token_refresh_service.py:218-229 | only the stored refresh token is exchanged, and only once the access token is about to expire |
| Tokens.OldJwtEndsNothing | app/services/token_refresh_service.py:190-198 | a JWT from before a logout cannot log anyone out |
| Tokens.ExpiredRequestRenews | app/services/token_refresh_service.py:33-47 | a request that finds the token expired and the lock free sends the stored refresh token and is accepted with the new pair |
| Tokens.ExpiredLogoutRotates | app/services/token_refresh_service.py:218-246 | a logout with an expired token renews it, revokes what it got and never stores it |
| Glob.CompileGlob | app/workspace_types/base.py:63-76 | the loop builds the pattern of the recursive compiler |
| Glob.PatternParses | app/workspace_types/base.py:63-76 | for every glob, the text of the pattern parses to the intended expression: no piece changes the meaning of its neighbours |
| Glob.TranslationMeans | app/workspace_types/base.py:61-77 | for every glob and text, that expression matches exactly what the glob accepts |
| Glob.MatchGlob | app/workspace_types/base.py:61-77 | matches if and only if the glob accepts the path stripped of slashes |
| Glob.StripDropsSlashes | app/workspace_types/base.py:77 | stripping a path takes nothing but the slashes at its ends |
| Glob.PlainGlob | app/workspace_types/base.py:61-77 | a glob without wildcards accepts itself alone |
| Glob.AnyFolders | app/workspace_types/base.py:64-67 | `**/` takes any folders, also none |
| Glob.DoubleStarAccepts | app/workspace_types/base.py:55-58 | `**` accepts exactly the paths without line breaks |
| Glob.SameDepth | app/workspace_types/base.py:62 | without `**`, a glob only accepts paths of its own depth |
| Glob.LeadingSlashMatchesNothing | app/workspace_types/base.py:27-30 | a glob with a leading slash matches no path |
| Glob.AllowedOperations | app/workspace_types/base.py:118-126 | the operations of the last applicable rule; no rule if and only if the path has a line break and no own rule applies |
| Glob.DefaultOperations | app/workspace_types/base.py:55-58 | exactly one default rule applies to a path without a line break, the one of its kind, and what it offers |
| Glob.LineBreakHasNoRule | app/workspace_types/base.py:118-126 | such a path, for which no default rule applies |
| YamlCache.Cache.Lookup | app/utils/yaml_cache.py:38-44 | finds exactly what is cached under that key and stamp; a hit moves the entry to the end; a miss changes nothing |
| YamlCache.Cache.Insert | app/utils/yaml_cache.py:47-55 | the byte counter equals the sum of the sizes and stays within 16 MB, keys stay unique and ordered by last use, the new entry is never evicted, and none is while everything fits |
| YamlCache.TrimKeepsLongestEnd | app/utils/yaml_cache.py:53-55 | what stays is the longest end of the list within the budget |
| YamlCache.EvictsLeastRecentlyUsed | app/utils/yaml_cache.py:53-55 | every evicted key was last used before every key that stays |
| YamlCache.ReturnsAVersionCurrentDuringTheCall | app/utils/yaml_cache.py:28-56 | for every interleaving of threads and writes, a call returns a version that was current between its stat and its return |
| YamlCache.HitIsNotOlder | app/utils/yaml_cache.py:41-44 | a hit never returns a version older than the stat's |
| YamlCache.CallsAreExactIffCalm | app/utils/yaml_cache.py:35-56 | for every run, all calls get exactly the version their stat saw if and only if no file is rewritten between a call's stat and its read |
| YamlCache.CacheStaysWithinBudget | app/utils/yaml_cache.py:35-56 | in every run of any number of threads, one entry per file, none larger than may be read, all within 16 MB |
| YamlCache.RacedHit | app/utils/yaml_cache.py:46-50 | a run in which a hit returns a newer version |
| Calendar.DueIff | scripts/cleanup_archived_workspaces.py:54-66 | the cutoff query and `deletion_at` agree except in two exactly described cases |
| Calendar.NeverEarly | scripts/cleanup_archived_workspaces.py:54-66 | a selected workspace has reached its deletion date, for all timestamps |
| Calendar.AtMostThreeDaysLate | scripts/cleanup_archived_workspaces.py:54-66 | three days after its deletion date a workspace is selected |
| Calendar.ThreeDaysIsTight | app/models/workspace.py:79-86 | one microsecond less than three days is not enough |
| Calendar.MonthsAreNotMonotone | app/models/workspace.py:79-86 | neither month operation keeps the order of timestamps |
| Calendar.MonthShifts | app/models/workspace.py:79-86 | a month later or earlier is the neighbouring calendar month, on the same day or its last |
| Retention.GitWorkspace.ApplyPullRequestState | app/services/workspace_service.py:399-429 | the new row, and whether this archived it |
| Retention.GitWorkspace.UpdateStatus | app/services/workspace_service.py:555-574 | the status part of an update, with its archival date |
| Retention.GitWorkspace.Propose | app/services/workspace_service.py:838-893 | which proposals are refused, and the row after the others |
| Retention.GitWorkspace.CheckPullRequest | scripts/check_pr_status.py:119-193 | the nightly check of one workspace; `changed` is exact |
| Retention.ArchivedIffDated | app/services/workspace_service.py:424-428 | after every history, a workspace is archived if and only if it has an archival date |
| Retention.ArchivedSince | app/services/workspace_service.py:424-428 | it has been archived with that date without interruption since the event that set it |
| Retention.ArchivesIff | app/services/workspace_service.py:399-429 | an event archives an active workspace if and only if its owner does, or GitHub shows the proposal merged, or closed with its fork still there, and the event is not a refused proposal |
| Retention.ReactivatesIff | scripts/check_pr_status.py:170-189 | an event reactivates an archived workspace if and only if its owner does, an unmerged proposal is reopened, or the nightly check finds the pull request open that was not; anything else keeps the archival date |
| Retention.RecordedStatus | scripts/check_pr_status.py:124-138 | the pull request status an event records, in GitHub's terms; a refused proposal records none |
| Retention.DetachedNeverArchives | app/services/workspace_service.py:412-418 | histories in which GitHub only shows detached pull requests never archive a workspace |
| Retention.ArchivedByHandStays | scripts/check_pr_status.py:182-189 | a workspace archived by hand with an open pull request stays so over any number of nightly checks |
| Retention.DeletedOnlyAfterAMonthArchived | scripts/cleanup_archived_workspaces.py:54-66 | nothing is deleted that was not archived without interruption up to its deletion date |
| Retention.CleanupIsTimely | scripts/cleanup_archived_workspaces.py:58-66 | a workspace that can be locked and deleted is gone three days after its deletion date, and never before it |
| Retention.Database.CleanupArchivedWorkspaces | scripts/cleanup_archived_workspaces.py:40-122 | exactly the selected workspaces that can be locked and deleted are gone, none in a dry run, and the counters add up |
| Sharing.RoleIsUnique | app/services/share_service.py:40-66 | the role does not depend on the order of rows |
| Sharing.OwnerHasNoRow | app/services/share_service.py:219-220 | no row grants the owner access |
| Sharing.ShareTables.ResolveRole | app/services/share_service.py:40-66 | the role, or none if the user cannot open the workspace |
| Sharing.ShareTables.WorkspaceMembers | app/services/share_service.py:69-72 | exactly the users who can open the workspace, each once |
| Sharing.ShareTables.GetUserWorkspaces | app/services/workspace_service.py:133-154 | every workspace once, exactly those with a role, with exactly that role |
| Sharing.ShareTables.UpsertCollaborators | app/services/share_service.py:210-251 | all of the invitations or none; when refused, when in conflict; the tables stay valid |
| Sharing.UpsertRoles | app/services/share_service.py:210-251 | each invited user has the invitation's mode afterwards, and nobody else's role changed |
| Sharing.UpsertOutcomeIff | app/services/share_service.py:210-251 | invitations are refused if and only if the owner is among them, and all made if and only if not and no unknown account is invited twice |
| Sharing.ShareTables.ActivatePendingCollaborators | app/services/share_service.py:75-101 | exactly the pending rows of a GitHub account are accepted |
| Sharing.ActivationLetsIn | app/services/share_service.py:75-101 | a login opens every workspace the account is invited to |
| Sharing.ActivatedRole | app/services/share_service.py:75-101 | with the role of the invitation |
| Sharing.NothingToActivate | app/services/share_service.py:81-89 | without an invitation, or for a user who is not from GitHub, a login changes no role |
| Sharing.ActivationKeepsOtherRoles | app/services/share_service.py:75-101 | a login changes nobody else's role |
| Sharing.ShareTables.Login | app/utils/handle_oauth_callback.py:61-127 | finds or creates the user and activates the invitations, or changes nothing; the tables stay valid |
| Sharing.ShareTables.RedeemShare | app/services/share_service.py:355-406 | a live share is accepted for anyone but the owner; the tables stay valid |
| Sharing.AcceptLetsIn | app/services/share_service.py:377-406 | redeeming lets the user in |
| Sharing.AcceptedRole | app/services/share_service.py:377-406 | a user without access gets the share's mode, or the mode of the pending invitation |
| Sharing.AcceptKeepsOtherRoles | app/services/share_service.py:377-406 | redeeming changes nobody else's role, and no role the user had |
| Sharing.ShareTables.RevokeCollaborator | app/services/share_service.py:269-281 | the row is deleted, or not found |
| Sharing.RevokeRoles | app/services/share_service.py:269-281 | the row's account loses its access, as no other row grants it, and nobody else does |
| Sharing.ShareTables.DeleteShare | app/services/share_service.py:324-333 | references to the share are cleared; the tables stay valid |
| Sharing.DeleteShareRoles | app/services/share_service.py:324-333 | deleting a share changes nobody's role |
| Sharing.DeleteWorkspaceRoles | app/models/workspace.py:52-53 | deleting a workspace takes its roles away, and no others |
| Toolchains.Scheduler.Start | app/utils/toolchains.py:157-165 | joins, refuses a fifth install, or registers a new one; over any use of the scheduler none starts within ten minutes of a recorded failure of its toolchain |
| Toolchains.Scheduler.Ensure | app/utils/toolchains.py:106-115 | which of installed, reported failure, too many, joined and new it is |
| Toolchains.Scheduler.Prepare | app/utils/toolchains.py:117-121 | starts an install exactly when `ensure` would |
| Toolchains.Scheduler.RecentFailure | app/utils/toolchains.py:146-148 | reports a text exactly when a failure is recent, and then its message |
| Toolchains.Scheduler.Finished | app/utils/toolchains.py:167-177 | the failure is recorded and only expired ones are dropped; a success or cancellation forgets it |
| Toolchains.RecordKeepsFailures | app/utils/toolchains.py:173-175 | recording and pruning keep exactly the unexpired failures |
| Toolchains.Scheduler.OneBodyRuns | app/utils/toolchains.py:179-181 | at most one install body runs |
| Toolchains.Scheduler.FailAndRetry | app/utils/toolchains.py:106-177 | after any failure, a retry within ten minutes is refused with the error's text, or a general one, and a later one starts a new install |
| OutputLimit.OutputExceeds | app/utils/sandbox.py:57-78 | terminates on every forest, and is true if and only if the total size exceeds the limit or more than 10,000 entries were visited up to the last readable one |
| OutputLimit.PopScans | app/utils/sandbox.py:60-63 | each scanned folder leaves one less to scan |
| OutputLimit.BytesAreSize | app/utils/sandbox.py:57-78 | the worklist's size and count are those of a plain recursion over the forest |
| OutputLimit.NoFalseAlarm | app/utils/sandbox.py:76-77 | true means that a limit is passed, whatever could not be read |
| OutputLimit.ExactIff | app/utils/sandbox.py:68-77 | the answer is that of the plain count if and only if the size is passed, or the count is not, or some readable entry is visited after the first 10,000: an excess of vanished entries alone goes unnoticed |
| OutputLimit.ExactWhenReadable | app/utils/sandbox.py:57-78 | without vanishing entries, true if and only if the total size exceeds the limit or the number of entries exceeds 10,000 |
| OutputLimit.VanishedEntriesGoUnnoticed | app/utils/sandbox.py:74-75 | any number of entries that vanish goes unnoticed |

## Left out

- GitService.Clone.SyncWithOrigin: the refresh of the upstream remote, ahead and behind counts and the log messages are not modelled; conflicting files are a set, where the code returns a sorted list.
- GitService.Clone.HardReset: a reset that fails may leave any HEAD, index and files behind; untracked files it leaves are part of that.
- PersistChanges.PersistChanges: the access and status checks before the lock, the emitted events, an unborn HEAD, non-HTTP exceptions that escape the fork repair, and a push whose success response was lost before its commit was dropped on the fork.
- ForkProtocol.NoResurrection: speaks of the time since the tracking ref was last created, as a pruning fetch deletes the reflog with the ref.
- Unpushed.WalkSorted: the walk orders commits by creation, one of the topological orders libgit2 may return.
- Replay: line-level merging, file modes and rename detection; a file changed on both sides conflicts.
- Gateway.Writer: heartbeat pings and the close at the JWT's expiry (a `Leave` step of the state machine covers the latter); the cleanup script deletes workspaces without emitting an event.
- LockOrder.NoDeadlock: lock timeouts, the unlinking of the file lock, the logged outcome of an abandoned transaction, and a server that shuts down and cancels inner tasks.
- Tokens: Google tokens, which are reusable; the idle job runs in another process and can spend a token the server also holds, so the single-use promises are stated for runs without it. SQLAlchemy leaves unchanged columns out of an UPDATE; every row write is modelled whole.
- Glob: constructs of `re` that the compiler does not emit; Python strings with lone surrogates.
- YamlCache: deleted files, and reads that overlap a write; `check_read_size` appears as the larger of its two limits.
- Retention.GitWorkspace.UpdateStatus: the reactivation guard of `update_workspace`, which compares two different enums and is never taken; title, description and PFS.
- Retention.Database.CleanupArchivedWorkspaces: the query and the deletions are one step, so a reactivation in between is not seen.
- Calendar: years outside Python's range of 1 to 9999, where the arithmetic raises.
- Sharing.ShareTables.UpsertCollaborators: the lookup of usernames at GitHub, their validation and deduplication; the retry after losing a race is the same step taken later. `update_collaborator`, `update_share` and the emitted events are left out as easy members.
- Sharing.ShareTables.GetUserWorkspaces: the order of the list (newest first for owned workspaces).
- Toolchains.Scheduler.Finished: what an install body does; `remove_unused`, and one lock per event loop.
- OutputLimit.OutputExceeds: folders that change while they are counted.
- HTTP routing, cookies, mail, OAuth redirects, the GitHub REST client, bubblewrap, cgroups, pixi, PFS documents, schemas, search and ETags.
