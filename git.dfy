/** The state the synchroniser observes and changes, and the version-control
    and filesystem operations it calls, as pure functions on that state.
    Network transport is the `remotes` map: a locator that is not a key is
    unreachable. */
module Git {

  type Commit = nat

  /** What an index or working tree holds: nothing yet, or a commit's tree. */
  datatype Snapshot = NoCommit | Tree(commit: Commit)

  /** A repository as seen over the network: branch tips, the branch its HEAD
      names (which may be missing from `branches`, as in an empty
      repository) and its tag names. */
  datatype Remote = Remote(branches: map<string, Commit>, head: string, tags: set<string>)

  /** A local clone: where it was cloned from, its local branches, its tags,
      its remote-tracking refs `origin/<name>` as last fetched, the branch
      HEAD names, and the index and working tree. */
  datatype WorkingCopy = WorkingCopy(
    origin: string,
    heads: map<string, Commit>,
    tags: set<string>,
    tracking: map<string, Commit>,
    branch: string,
    index: Snapshot,
    worktree: Snapshot)

  /** What exists at a path: a repository, a directory that is not one
      (opening it raises InvalidGitRepositoryError), or a repository whose
      inspection fails with a git command error (GitCommandError). */
  datatype Entry = Repository(copy: WorkingCopy) | PlainDirectory | Unreadable

  datatype Failure =
    | CloneFailed(source: string)        // unreachable or refused remote
    | DestinationExists(path: string)    // clone into an existing path
    | NoSuchPath(path: string)           // opening or deleting a missing path
    | InvalidRepository(path: string)    // opening a directory that is not a repository
    | CommandFailed(path: string)        // a git command on the repository fails
    | NoSuchHead(name: string)           // `heads[name]` without such a branch
    | BadRevision(rev: string)           // reset to a revision that does not resolve
    | FetchFailed(source: string)        // fetch from an unreachable remote

  datatype Result<T> = Ok(value: T) | Err(error: Failure)

  /** A filesystem or version-control operation that was started. */
  datatype Op =
    | CloneOp(source: string, dest: string)
    | RmTreeOp(path: string)
    | CheckoutOp(path: string, branch: string)
    | ResetOp(path: string, rev: string)
    | FetchOp(path: string)

  /** What one or more operations did: how they ended, the paths afterwards,
      and the operations started, in order. */
  datatype Effect = Effect(status: Result<()>, entries: map<string, Entry>, ops: seq<Op>)

  const TrackingPrefix: string := "origin/"

  /** The names `repo.refs` answers to: local branches, tags and the
      remote-tracking refs named `origin/<branch>`. */
  function RefNames(w: WorkingCopy): set<string>
  {
    w.heads.Keys + w.tags + set b | b in w.tracking :: TrackingPrefix + b
  }

  /** A name without "/" (such as "main") is a ref exactly when it is a local
      branch or a tag: no remote-tracking ref has such a name. */
  lemma PlainNameInRefs(w: WorkingCopy, name: string)
    requires '/' !in name
    ensures name in RefNames(w) <==> name in w.heads || name in w.tags
  {
    forall b | b in w.tracking ensures TrackingPrefix + b != name {
      assert (TrackingPrefix + b)[6] == '/';
    }
  }

  /** HEAD names a branch at `tip`, and index and working tree hold its tree. */
  predicate AtTip(w: WorkingCopy, tip: Commit)
  {
    w.branch in w.heads && w.heads[w.branch] == tip &&
    w.index == Tree(tip) && w.worktree == Tree(tip)
  }

  /** The tree the remote's branch `b` points at, if it has one. */
  function TipOf(remote: Remote, b: string): Snapshot
  {
    if b in remote.branches then Tree(remote.branches[b]) else NoCommit
  }

  /** The checked-out branch matches the remote: index and working tree hold
      the remote branch's tree, and the local branch points at its tip. */
  predicate Converged(w: WorkingCopy, remote: Remote)
  {
    w.index == TipOf(remote, w.branch) && w.worktree == TipOf(remote, w.branch) &&
    (w.branch in remote.branches ==> AtTip(w, remote.branches[w.branch]))
  }

  /** The checked-out branch agrees with its remote-tracking ref as last
      fetched (which may lag behind the remote itself). */
  predicate MatchesTracking(w: WorkingCopy)
  {
    if w.branch in w.tracking then AtTip(w, w.tracking[w.branch])
    else w.index == NoCommit && w.worktree == NoCommit
  }

  /** A fresh clone: every remote branch becomes a tracking ref, tags are
      copied, and the remote's HEAD branch is created and checked out. */
  function Cloned(source: string, remote: Remote): (w: WorkingCopy)
    ensures Converged(w, remote)
    ensures w.origin == source && w.branch == remote.head
    ensures w.tracking == remote.branches && w.tags == remote.tags
    ensures w.heads.Keys <= {remote.head}
  {
    WorkingCopy(
      origin := source,
      heads := if remote.head in remote.branches then map[remote.head := remote.branches[remote.head]] else map[],
      tags := remote.tags,
      tracking := remote.branches,
      branch := remote.head,
      index := TipOf(remote, remote.head),
      worktree := TipOf(remote, remote.head))
  }

  /** `repo.heads[b].checkout()`: fails when `b` is not a local branch;
      otherwise HEAD names `b` and index and working tree hold its tip. */
  function CheckedOut(w: WorkingCopy, b: string): (r: Result<WorkingCopy>)
    ensures r.Ok? <==> b in w.heads
    ensures r.Err? ==> r.error == NoSuchHead(b)
    ensures r.Ok? ==> r.value.branch == b && AtTip(r.value, w.heads[b])
    ensures r.Ok? ==> r.value.heads == w.heads && r.value.tracking == w.tracking &&
                      r.value.tags == w.tags && r.value.origin == w.origin
  {
    if b in w.heads then
      Ok(w.(branch := b, index := Tree(w.heads[b]), worktree := Tree(w.heads[b])))
    else Err(NoSuchHead(b))
  }

  /** `repo.head.reset("origin/" + b, index=True, working_tree=True)`: moves
      the checked-out branch to the LOCAL tracking ref `origin/<b>` and
      overwrites index and working tree, discarding local divergence; fails
      when that tracking ref does not exist. */
  function HardReset(w: WorkingCopy, b: string): (r: Result<WorkingCopy>)
    ensures r.Ok? <==> b in w.tracking
    ensures r.Err? ==> r.error == BadRevision(TrackingPrefix + b)
    ensures r.Ok? ==> r.value.branch == w.branch && AtTip(r.value, w.tracking[b])
    ensures r.Ok? ==> r.value.heads.Keys == w.heads.Keys + {w.branch} &&
                      (forall h :: h in w.heads && h != w.branch ==> r.value.heads[h] == w.heads[h])
    ensures r.Ok? ==> r.value.tracking == w.tracking && r.value.tags == w.tags &&
                      r.value.origin == w.origin
  {
    if b in w.tracking then
      var tip := w.tracking[b];
      Ok(w.(heads := w.heads[w.branch := tip], index := Tree(tip), worktree := Tree(tip)))
    else Err(BadRevision(TrackingPrefix + b))
  }

  /** `k` is `p` itself or lies inside the directory `p`. */
  predicate Under(k: string, p: string)
  {
    |p| <= |k| && k[..|p|] == p &&
    (|k| == |p| || (|p| > 0 && p[|p| - 1] == '/') || k[|p|] == '/')
  }

  /** The paths left after deleting `p` recursively. */
  function Removed(entries: map<string, Entry>, p: string): (r: map<string, Entry>)
    ensures p !in r
    ensures forall k :: k in r <==> k in entries && !Under(k, p)
    ensures forall k :: k in r ==> r[k] == entries[k]
  {
    assert Under(p, p) by { assert p[..|p|] == p; }
    map k | k in entries && !Under(k, p) :: entries[k]
  }

  /** `Repo.clone_from(source, dest)`: fails when `dest` already exists or the
      remote is unreachable, changing nothing; otherwise `dest` holds a fresh
      clone. */
  function CloneStep(entries: map<string, Entry>, remotes: map<string, Remote>,
                     source: string, dest: string): (e: Effect)
    ensures e.ops == [CloneOp(source, dest)]
    ensures e.status.Ok? <==> dest !in entries && source in remotes
    ensures e.status.Ok? ==> e.entries == entries[dest := Repository(Cloned(source, remotes[source]))]
    ensures e.status.Err? ==> e.entries == entries
  {
    if dest in entries then Effect(Err(DestinationExists(dest)), entries, [CloneOp(source, dest)])
    else if source !in remotes then Effect(Err(CloneFailed(source)), entries, [CloneOp(source, dest)])
    else Effect(Ok(()), entries[dest := Repository(Cloned(source, remotes[source]))], [CloneOp(source, dest)])
  }

  /** `shutil.rmtree(path)`: fails on a missing path; otherwise the path and
      everything inside it are gone. */
  function RmTreeStep(entries: map<string, Entry>, path: string): (e: Effect)
    ensures e.ops == [RmTreeOp(path)]
    ensures e.status.Ok? <==> path in entries
    ensures e.status.Ok? ==> e.entries == Removed(entries, path)
    ensures e.status.Err? ==> e.entries == entries
  {
    if path in entries then Effect(Ok(()), Removed(entries, path), [RmTreeOp(path)])
    else Effect(Err(NoSuchPath(path)), entries, [RmTreeOp(path)])
  }

  /** Opens the repository at `path` the way `Repo(path)` does. */
  function Open(entries: map<string, Entry>, path: string): (r: Result<WorkingCopy>)
    ensures r.Ok? <==> path in entries && entries[path].Repository?
    ensures r.Ok? ==> r.value == entries[path].copy
  {
    if path !in entries then Err(NoSuchPath(path))
    else match entries[path]
      case Repository(w) => Ok(w)
      case PlainDirectory => Err(InvalidRepository(path))
      case Unreadable => Err(CommandFailed(path))
  }

  /** `Repo(path).heads[b].checkout()`: the lookup fails before anything is
      started when the path is no repository or `b` is no local branch. */
  function CheckoutStep(entries: map<string, Entry>, path: string, b: string): (e: Effect)
    ensures e.status.Ok? <==> path in entries && entries[path].Repository? && b in entries[path].copy.heads
    ensures e.status.Ok? ==> e.ops == [CheckoutOp(path, b)]
    ensures e.status.Ok? ==> e.entries == entries[path := Repository(CheckedOut(entries[path].copy, b).value)]
    ensures e.status.Err? ==> e.ops == [] && e.entries == entries
  {
    match Open(entries, path)
    case Err(f) => Effect(Err(f), entries, [])
    case Ok(w) =>
      match CheckedOut(w, b)
      case Err(f) => Effect(Err(f), entries, [])
      case Ok(w') => Effect(Ok(()), entries[path := Repository(w')], [CheckoutOp(path, b)])
  }

  /** `repo.head.reset("origin/" + b, index=True, working_tree=True)` on the
      repository at `path`. */
  function ResetStep(entries: map<string, Entry>, path: string, b: string): (e: Effect)
    ensures e.status.Ok? <==> path in entries && entries[path].Repository? && b in entries[path].copy.tracking
    ensures e.ops == if path in entries && entries[path].Repository? then [ResetOp(path, TrackingPrefix + b)] else []
    ensures e.status.Ok? ==> e.entries == entries[path := Repository(HardReset(entries[path].copy, b).value)]
    ensures e.status.Err? ==> e.entries == entries
  {
    match Open(entries, path)
    case Err(f) => Effect(Err(f), entries, [])
    case Ok(w) =>
      match HardReset(w, b)
      case Err(f) => Effect(Err(f), entries, [ResetOp(path, TrackingPrefix + b)])
      case Ok(w') => Effect(Ok(()), entries[path := Repository(w')], [ResetOp(path, TrackingPrefix + b)])
  }

  /** Two effects one after the other; the second is skipped when the first
      fails. */
  function AndThen(first: Effect, second: Effect): (e: Effect)
    ensures first.status.Err? ==> e == first
    ensures first.status.Ok? ==> e.status == second.status && e.entries == second.entries &&
                                 e.ops == first.ops + second.ops
  {
    if first.status.Err? then first
    else Effect(second.status, second.entries, first.ops + second.ops)
  }
}
