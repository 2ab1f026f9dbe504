# Repository synchroniser: a verified Dafny model

This project models `git_temp_clone` and its helper `branch_exists` from
`integrations/git/git_clone.py`. Given a repository locator, the routine
derives a fixed local path: `/tmp/` followed by the last `/`-separated
segment of the locator, with no normalisation. It then looks at what is on
disk there and takes exactly one action:

- **clone** when the path is absent;
- **check out `main` and hard-reset it to `origin/main`** when `main` is a ref;
- **the same with `master`**, only when `main` is not a ref;
- **delete the tree and clone afresh** when neither is found. A failed
  inspection that raises a git command error counts as "not found".

After the sync it tells the recorder (`Replay`) to compress the source, if a
recorder exists and is recording. It returns the path.

## How the model is built

- `Paths` (`paths.dfy`): Python's `str.split("/")` as a function, proved
  to be a real split (`Join(Split(s)) == s`, no piece contains `/`). Its
  last piece is proved to be the longest `/`-free suffix of the locator, and
  that characterisation picks out exactly one string. `RepoPath` is
  `"/tmp/" + LastSegment(locator)`.
- `Git` (`git.dfy`): the state and the GitPython and filesystem calls, as
  pure functions.
  - The disk is `map<string, Entry>`. An entry is a `Repository`, a
    `PlainDirectory` (opening it raises `InvalidGitRepositoryError`), or
    `Unreadable` (inspecting it raises `GitCommandError`).
  - A `WorkingCopy` holds its origin, local heads, tags, remote-tracking refs
    `origin/<b>` as last fetched, the checked-out branch, the index and the
    working tree.
  - The network is `map<string, Remote>`. A locator that is not a key is
    unreachable.
  - `rmtree` removes the path and everything inside it.
- `Workspace` (`workspace.dfy`): the state the routine changes in place, as
  classes.
  - `Host` holds the disk map and a log of started operations. Its
    methods wrap the GitPython and filesystem calls.
  - `Replay` is the recorder, with its `recording` flag and the list of
    trees it was asked to archive.
- `GitClone` (`git_clone.dfy`): `BranchExists` and the decision `Resolve`,
  both pure. `Outcome` is the specification of one call. The imperative
  `GitTempClone` follows the code's own order of probes and operations, and
  is proved to end in exactly the state `Outcome` gives. The recorder is
  notified only after the sync succeeds, and it archives the synced tree.
- `GitCloneProperties`: properties of the call as written, proved over
  `Outcome`: cloning a missing path, the branch preference, renewal when
  neither branch is found, which operations can start, the frame, and
  idempotence (each is a row of the "## Model" table).
- `Intended`: the behaviour the code announces, where it departs from it (see
  Findings), with its own convergence and idempotence proofs. A failed
  inspection counts as "branch absent", which is what the `return False` at
  lines 12-16 aims at. The remote is fetched before the reset, so the copy
  holds the "latest changes" that line 41 reports.
- `Scenarios`: concrete cases worked through the model. Its method
  `RecordedCalls` is a client of `GitTempClone`. It makes three calls: with
  a recording recorder, with none, and with one that is not recording. Only
  the first call archives anything.

The model follows the code as written. Two of its consequences are easy to
miss:

- `compress_source` is not guarded (lines 60-61). An exception there escapes
  after the sync, and the derived path is not returned. The model treats the
  call as an event that always succeeds.
- A clone creates only the remote's HEAD branch locally, so after a re-clone
  `main` or `master` is found only if it is the remote's HEAD branch or one
  of its tags (a tag is found but cannot be checked out, see
  `Scenarios.TagNamedMainBreaksRerun`). Lemma
  `Scenarios.OtherDefaultBranchReclonesEachTime` shows a remote whose HEAD is
  `develop` being deleted and re-cloned on every call, even though the remote
  also has `main`.

## Model

| member | source | states |
|---|---|---|
| `Paths.Split` | integrations/git/git_clone.py:29 | `repo.split("/")` always yields at least one piece |
| `Paths.SplitJoin` | integrations/git/git_clone.py:29 | the split is faithful: no piece contains `/`, and joining the pieces with `/` gives the locator back |
| `Paths.JoinEndsWithLast` | integrations/git/git_clone.py:29 | the last piece is a suffix of the joined string, and is either the whole string or immediately preceded by `/` |
| `Paths.LastSegment` | integrations/git/git_clone.py:29 | `split("/")[-1]` is the longest `/`-free suffix of the locator; nothing is stripped |
| `Paths.LastSegmentIs` | integrations/git/git_clone.py:29 | any `/`-free suffix that is the whole locator or follows a `/` is the last segment, so the segment is unique |
| `Paths.RepoPath` | integrations/git/git_clone.py:29-30 | the path is `/tmp/` followed by the longest `/`-free suffix of the locator |
| `Git.PlainNameInRefs` | integrations/git/git_clone.py:11 | a name without `/` is in `repo.refs` exactly when it is a local branch or a tag |
| `Git.Cloned` | integrations/git/git_clone.py:53 | a fresh clone tracks every remote branch, copies its tags, checks out the remote's HEAD branch, and has converged to the remote |
| `Git.CheckedOut` | integrations/git/git_clone.py:38-39 | `heads[b].checkout()` fails exactly when `b` is not a local branch; otherwise HEAD is `b` with index and tree at its tip, and the refs are unchanged |
| `Git.HardReset` | integrations/git/git_clone.py:40 | reset to `origin/b` fails exactly when that tracking ref is missing; otherwise the checked-out branch, index and tree move to the tracking tip, and other branches are unchanged |
| `Git.Removed` | integrations/git/git_clone.py:52 | after `rmtree` the path and everything inside it are gone, and every other path keeps its entry |
| `Git.CloneStep` | integrations/git/git_clone.py:57 | in the model, `clone_from` succeeds exactly when the destination is absent and the remote reachable; on failure nothing changes |
| `Git.RmTreeStep` | integrations/git/git_clone.py:52 | in the model, `rmtree` fails only on a missing path; otherwise it leaves `Removed` |
| `Git.AndThen` | integrations/git/git_clone.py:38-40 | two operations in sequence: an exception in the first skips the second and is the result; otherwise the second's result and disk, with both logs |
| `Git.Open` | integrations/git/git_clone.py:10 | `Repo(path)` succeeds exactly on a repository |
| `Git.CheckoutStep` | integrations/git/git_clone.py:37-39 | the checkout runs, and is logged, exactly when the path holds a repository with that local branch; otherwise nothing is started |
| `Git.ResetStep` | integrations/git/git_clone.py:40 | the reset succeeds exactly when the tracking ref exists, and leaves the path holding the reset copy |
| `Workspace.Host.CloneFrom` | integrations/git/git_clone.py:57 | the disk and log change as `CloneStep` says |
| `Workspace.Host.RmTree` | integrations/git/git_clone.py:52 | the disk and log change as `RmTreeStep` says |
| `Workspace.Host.Checkout` | integrations/git/git_clone.py:38-39 | the disk and log change as `CheckoutStep` says |
| `Workspace.Host.Reset` | integrations/git/git_clone.py:40 | the disk and log change as `ResetStep` says |
| `Workspace.Replay.IsRecording` | integrations/git/git_clone.py:60 | reports the recorder's recording flag |
| `Workspace.Replay.CompressSource` | integrations/git/git_clone.py:61 | archives the path with the tree found there at the time of the call, and nothing else changes |
| `GitClone.BranchExists` | integrations/git/git_clone.py:8-16 | true exactly when a repository at the path has the name among its refs; a git command error yields false; a missing path or a non-repository directory raises |
| `GitClone.Resolve` | integrations/git/git_clone.py:33-58 | clone iff absent; `main` iff it is a ref; `master` iff `main` is not and `master` is; delete-and-clone iff neither is found and inspection did not raise; error iff a plain directory; no other branch is ever chosen |
| `GitClone.Apply` | integrations/git/git_clone.py:37-57 | clone logs one clone; delete-and-clone and checkout-and-reset log a prefix of their two operations, the second starting exactly when the first succeeds (the path exists; the branch is a local head), and a sequence cut short is a failure; success leaves a repository at the path; nothing outside the path changes and no other path appears |
| `GitClone.Sync` | integrations/git/git_clone.py:33-58 | when the decision raises, no operation starts and the disk is unchanged; success implies the decision succeeded and a repository is at the path |
| `GitClone.Outcome` | integrations/git/git_clone.py:29-63 | every successful call returns the derived path and leaves a repository there |
| `GitClone.CheckoutAndReset` | integrations/git/git_clone.py:37-47 | checkout then reset; the reset is skipped if the checkout fails |
| `GitClone.DeleteAndCloneAgain` | integrations/git/git_clone.py:52-53 | delete then clone; the clone is skipped if the delete fails |
| `GitClone.SyncPath` | integrations/git/git_clone.py:33-58 | the probes and operations in the code's order end exactly as `Resolve` followed by its action |
| `GitClone.GitTempClone` | integrations/git/git_clone.py:19-63 | the disk, log and result are those of `Outcome`; success returns the derived path; an existing, recording recorder archives the synced tree after the sync, and otherwise archives nothing |
| `GitCloneProperties.ClonesWhenMissing` | integrations/git/git_clone.py:55-58 | an absent path gets exactly one clone and no checkout, reset or delete; a failed clone changes nothing and its error escapes |
| `GitCloneProperties.ResetsPreferredBranch` | integrations/git/git_clone.py:35-48 | with `main` a ref (or only `master`), that branch is checked out and its tip, index and tree equal its tracking ref; nothing is cloned or deleted; a tag-only name fails at the checkout with nothing changed; a missing tracking ref fails at the reset, leaving the copy checked out on the branch |
| `GitCloneProperties.RenewsWhenNeitherBranch` | integrations/git/git_clone.py:49-54 | with neither branch found, the tree is deleted and then cloned; if the clone fails the path stays deleted |
| `GitCloneProperties.OperationsAreGuarded` | integrations/git/git_clone.py:33-58 | every operation started meets `Guarded`: only `main` or `master` is checked out or reset to (`origin/main` or `origin/master`), `master` only without a `main` ref; clone and delete touch only the derived path, and only when it is absent or neither branch was found; no fetch is ever started |
| `GitCloneProperties.RenewalIsGuarded` | integrations/git/git_clone.py:49-54 | the delete and the clone of the renewal path are both guarded |
| `GitCloneProperties.ResetIsGuarded` | integrations/git/git_clone.py:35-48 | the checkout and reset of `main`, or of `master` when it is a ref and `main` is not, are guarded |
| `GitCloneProperties.ResetOpsGuarded` | integrations/git/git_clone.py:35-47 | the checkout of `main`, or of `master` when it is a ref and `main` is not, and the reset to its tracking ref both meet `Guarded` |
| `GitCloneProperties.ResetSucceeds` | integrations/git/git_clone.py:37-40 | with the branch local and its tracking ref present, both operations run and the branch ends at the tracking tip, with the other refs and paths unchanged |
| `GitCloneProperties.ResetNeedsBoth` | integrations/git/git_clone.py:37-40 | checkout then reset succeeds only on a repository at the path where the branch is a local head and has a tracking ref |
| `GitCloneProperties.ResetRunsBothSteps` | integrations/git/git_clone.py:37-40 | on a repository where the branch is local and has a tracking ref, checkout and reset both run and succeed; the copy ends on the branch at its tracking tip with the other heads, the tracking refs, the tags and the origin unchanged, and no other path changes |
| `GitCloneProperties.SuccessMatchesTracking` | integrations/git/git_clone.py:35-58 | after success the checked-out branch, index and tree agree with its tracking ref |
| `GitCloneProperties.PlainDirectoryRaises` | integrations/git/git_clone.py:8-16 | a non-repository directory at the path makes the call fail with nothing changed, because only `GitCommandError` is caught |
| `GitCloneProperties.OnlyPathChanges` | integrations/git/git_clone.py:33-58 | nothing outside the derived path changes, and only that path can appear |
| `GitCloneProperties.RerunIsStable` | integrations/git/git_clone.py:19-63 | a second call with the remotes unchanged succeeds and leaves the same tree (remotes without tags named `main` or `master`) |
| `GitCloneProperties.RerunAfterFirstReset` | integrations/git/git_clone.py:35-48 | after a successful reset, a second call succeeds and leaves the same tree |
| `GitCloneProperties.RerunAfterClone` | integrations/git/git_clone.py:33-58 | a call on a fresh clone of a remote without tags named `main` or `master` rebuilds exactly that clone |
| `GitCloneProperties.RerunAfterReset` | integrations/git/git_clone.py:35-48 | a call on a copy whose branch is `main`, or `master` with no `main` head or tag, and is at its tracking tip, succeeds and leaves it unchanged |
| `Intended.BranchFound` | integrations/git/git_clone.py:8-16 | with every inspection error read as absent, true exactly when the name is a ref of a repository at the path; agrees with `BranchExists` whenever that does not raise |
| `Intended.ResolveIntended` | integrations/git/git_clone.py:33-54 | the same decision without the error case; it agrees with `Resolve` wherever `Resolve` succeeds |
| `Intended.Fetched` | integrations/git/git_clone.py:40 | a pruning fetch sets the tracking refs to the remote's branches, adds its tags, and leaves the rest |
| `Intended.FetchStep` | integrations/git/git_clone.py:40 | the fetch succeeds exactly when the path holds a repository whose origin is reachable |
| `Intended.ApplyIntended` | integrations/git/git_clone.py:37-47 | cloning and renewing are as in `Apply`; the reset path logs a prefix of checkout, fetch, reset; success leaves a repository at the path |
| `Intended.IntendedResetSteps` | integrations/git/git_clone.py:37-40 | the intended reset succeeds exactly when the branch is local and the origin is reachable and has it; it then runs all three operations and ends at the fetched tip |
| `Intended.IntendedOutcome` | integrations/git/git_clone.py:29-63 | a successful intended call returns the derived path and leaves a repository there |
| `Intended.IntendedRecoversPlainDirectory` | integrations/git/git_clone.py:8-16 | a non-repository directory is deleted and cloned afresh |
| `Intended.IntendedAgreesOffResetPath` | integrations/git/git_clone.py:49-58 | when the code decides to clone, or to delete and clone, the intended call equals the code's call |
| `Intended.IntendedAddsOnlyTheFetch` | integrations/git/git_clone.py:35-48 | when the copy's origin is reachable, its tracking refs equal the remote's branches and it already has the remote's tags, the intended call has the code's result and disk and differs from it only by the logged fetch (no operation at all when the code's checkout fails) |
| `Intended.IntendedConverges` | integrations/git/git_clone.py:35-58 | after success the checked-out branch, index and tree equal the remote's branch tip |
| `Intended.IntendedRerunIsStable` | integrations/git/git_clone.py:19-63 | a second intended call with the remotes unchanged succeeds and leaves the same tree (remotes without tags named `main` or `master`) |
| `Intended.IntendedRerunAfterReset` | integrations/git/git_clone.py:35-48 | after a successful intended reset, a second intended call succeeds and leaves the same tree (remotes without tags named `main` or `master`) |
| `Intended.FetchedResetCopy` | integrations/git/git_clone.py:38-40 | after fetch and reset, the branch is at the remote's tip, the tracking refs are the remote's branches, and the set of local branches is kept |
| `Intended.IntendedAfterClone` | integrations/git/git_clone.py:33-58 | an intended call on a fresh clone of a remote without tags named `main` or `master` rebuilds exactly that clone |
| `Intended.IntendedAfterReset` | integrations/git/git_clone.py:35-48 | an intended call on a copy whose tracking refs equal the remote's branches, which already has the remote's tags, and whose branch, `main` or `master` with no `main` head or tag, is at its tracking tip, succeeds and leaves it unchanged |
| `Scenarios.ExamplePath` | integrations/git/git_clone.py:29-30 | `https://example.com/org/repo` maps to `/tmp/repo` |
| `Scenarios.TrailingSlashPath` | integrations/git/git_clone.py:29-30 | a locator ending in `/` maps to `/tmp/` |
| `Scenarios.DotGitPath` | integrations/git/git_clone.py:29-30 | a `.git` suffix is kept in the path |
| `Scenarios.CloneThenReset` | integrations/git/git_clone.py:33-58 | with no local state, the first call clones and the second resets to the same tip without cloning |
| `Scenarios.FeatureBranchOnly` | integrations/git/git_clone.py:49-54 | a copy with only `feature-x` is deleted and re-cloned, and `feature-x` is never checked out |
| `Scenarios.LocalDivergenceDiscarded` | integrations/git/git_clone.py:40 | local commits on `main` are discarded by the hard reset |
| `Scenarios.ResetKeepsStaleTip` | integrations/git/git_clone.py:40-41 | with the remote ahead of the last fetch, the call succeeds but stays at the old tip |
| `Scenarios.IntendedFollowsRemote` | integrations/git/git_clone.py:40-41 | the intended call fetches and ends at the remote's new tip |
| `Scenarios.PlainDirectoryStopsCall` | integrations/git/git_clone.py:8-16 | a plain directory at `/tmp/repo` makes the call fail with nothing changed |
| `Scenarios.IntendedReplacesPlainDirectory` | integrations/git/git_clone.py:8-16 | the intended call replaces that directory with a fresh clone |
| `Scenarios.SharedPathAcrossOwners` | integrations/git/git_clone.py:29-41 | `alice/tool` and `bob/tool` share `/tmp/tool`; a call for Bob's repository resets Alice's copy and reports success |
| `Scenarios.TagNamedMainBreaksRerun` | integrations/git/git_clone.py:35-38 | a tag named `main` with `master` as HEAD: the clone succeeds, and the next call fails looking up the local branch `main` |
| `Scenarios.OtherDefaultBranchReclonesEachTime` | integrations/git/git_clone.py:49-54 | a remote whose HEAD is `develop` is deleted and re-cloned on every call |
| `Scenarios.TrailingSlashSparesScratchRoot` | integrations/git/git_clone.py:29-35 | as written, a trailing-slash locator with `/tmp/` a plain directory fails and changes nothing |
| `Scenarios.IntendedTrailingSlashClearsScratchRoot` | integrations/git/git_clone.py:29-35 | with inspection errors read as absent, the same call deletes all of `/tmp/`, including other working copies |

## Left out

- Printing (lines 13-15, 36, 41, 43, 48, 50-51, 54, 56, 58) is left out: it changes no state.
- Network transport, authentication and the wire protocol are left out. A remote is reachable exactly when its locator is a key of the remotes map, and every clone failure becomes `CloneFailed`.
- What `Replay.compress_source` does is left out; the call is an event that records the tree it was given. Its failures are not modelled. The code does not guard them, so they would escape after the sync.
- `Replay.instance_exists()` and `get_instance()` are modelled as a nullable recorder parameter instead of process-wide state.
- Uncommitted changes in the working tree are left out: index and working tree hold commit trees only. So a checkout that git refuses because of conflicting local changes is not modelled.
- A regular file at the derived path is left out: every entry is a directory.
- The disk map does not force parent directories to exist, and `/tmp/` exists only when it is a key.
- Concurrent calls on the same path are left out: each call is modelled as one uninterrupted step.
- `Intended` is modelled only as pure functions; it has no imperative executor.
- GitCloneProperties.RerunIsStable: idempotence is proved only when no remote has a tag named `main` or `master`. The same condition applies to `GitCloneProperties.RerunAfterClone`, `Intended.IntendedRerunIsStable`, `Intended.IntendedRerunAfterReset` and `Intended.IntendedAfterClone`. `Scenarios.TagNamedMainBreaksRerun` shows a second call failing when one does.
- Git.CloneStep, Git.RmTreeStep: the primitives are simplified. `git clone` also succeeds into an existing empty directory; the code never clones into an existing path, so the model does not reach this case. `rmtree` also fails on permission errors and on a symbolic link; the model has neither permissions nor links.
- Paths are compared as strings. A last segment of `.` or `..` gives `/tmp/.` or `/tmp/..`, which on disk are `/tmp` and `/`. The model treats them as distinct names: it neither opens them as those directories nor lets `rmtree` reach what lies under them.
- The Slack wrappers, the parallel-pytest lock coordination and their tests are not part of this model: they are network calls and cross-process locking.

## Findings

| source | as written | input that shows it | evidently intended | confidence | as-written member | corrected member |
|---|---|---|---|---|---|---|
| integrations/git/git_clone.py:12 | only `GitCommandError` is caught; `Repo(path)` on a directory that is not a repository raises `InvalidGitRepositoryError`, which is not a `GitCommandError`, so it escapes from `git_temp_clone` | `/tmp/repo` exists as a plain directory | a failed inspection counts as "branch absent", and the directory is deleted and cloned afresh | medium (not executed) | `GitCloneProperties.PlainDirectoryRaises` | `Intended.IntendedRecoversPlainDirectory` |
| integrations/git/git_clone.py:40-41 | the hard reset targets the local tracking ref `origin/main` and nothing fetches first, although line 41 reports "pulled latest changes" | local `main` and `origin/main` at commit 1, remote `main` at commit 2: the call succeeds at commit 1 | fetch from the remote, then reset, so the copy ends at the remote's tip | medium (not executed) | `Scenarios.ResetKeepsStaleTip` | `Intended.IntendedConverges` |
