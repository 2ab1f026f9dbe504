/** `branch_exists` and `git_temp_clone`: inspect what is at the derived
    path, pick one action, carry it out, notify the recorder, return the
    path. Everything in this module follows the code as written. */
module GitClone {
  import opened Paths
  import opened Git
  import opened Workspace

  /** What the synchroniser decides to do with the derived path. */
  datatype Action = Clone | ResetTo(branch: string) | DeleteAndClone

  /** One call: the returned path or the error that escapes, the paths
      afterwards, and the operations started, in order. */
  datatype Run = Run(result: Result<string>, entries: map<string, Entry>, ops: seq<Op>)

  const Main: string := "main"
  const Master: string := "master"

  /** `branch_exists(repo_path, branch_name)`: membership of the name in
      `repo.refs`. Only a git command error is caught and read as "absent";
      opening a path that is missing or is not a repository raises. */
  function BranchExists(entries: map<string, Entry>, repoPath: string, branchName: string): (r: Result<bool>)
    ensures r == Ok(true) <==>
      repoPath in entries && entries[repoPath].Repository? && branchName in RefNames(entries[repoPath].copy)
    ensures repoPath in entries && entries[repoPath].Unreadable? ==> r == Ok(false)
    ensures r.Err? <==> repoPath !in entries || entries[repoPath].PlainDirectory?
  {
    if repoPath !in entries then Err(NoSuchPath(repoPath))
    else match entries[repoPath]
      case PlainDirectory => Err(InvalidRepository(repoPath))
      case Unreadable => Ok(false)
      case Repository(w) => Ok(branchName in RefNames(w))
  }

  /** A repository at `path` whose refs include `name`. */
  predicate HasRef(entries: map<string, Entry>, path: string, name: string)
  {
    path in entries && entries[path].Repository? && name in RefNames(entries[path].copy)
  }

  /** The decision `git_temp_clone` makes from what it observes, in the
      order the code probes: absent path, then `main`, then `master`. */
  function Resolve(entries: map<string, Entry>, path: string): (r: Result<Action>)
    ensures r == Ok(Clone) <==> path !in entries
    ensures r == Ok(ResetTo(Main)) <==> HasRef(entries, path, Main)
    ensures r == Ok(ResetTo(Master)) <==> !HasRef(entries, path, Main) && HasRef(entries, path, Master)
    ensures r == Ok(DeleteAndClone) <==>
      path in entries && !entries[path].PlainDirectory? &&
      !HasRef(entries, path, Main) && !HasRef(entries, path, Master)
    ensures r.Err? <==> path in entries && entries[path].PlainDirectory?
    ensures r.Ok? && r.value.ResetTo? ==> r.value.branch == Main || r.value.branch == Master
  {
    if path !in entries then Ok(Clone)
    else match BranchExists(entries, path, Main)
      case Err(f) => Err(f)
      case Ok(hasMain) =>
        if hasMain then Ok(ResetTo(Main))
        else match BranchExists(entries, path, Master)
          case Err(f) => Err(f)
          case Ok(hasMaster) => if hasMaster then Ok(ResetTo(Master)) else Ok(DeleteAndClone)
  }

  /** The operations an action stands for, as the code runs them: the second
      operation of a sequence starts exactly when the first succeeds, a
      sequence cut short is a failure, only the path and what lies inside it
      can change, and success leaves a repository at the path. */
  function Apply(action: Action, entries: map<string, Entry>, remotes: map<string, Remote>,
                 source: string, path: string): (e: Effect)
    ensures action.Clone? ==> e.ops == [CloneOp(source, path)]
    ensures action.DeleteAndClone? ==> e.ops <= [RmTreeOp(path), CloneOp(source, path)]
    ensures action.ResetTo? ==>
      e.ops <= [CheckoutOp(path, action.branch), ResetOp(path, TrackingPrefix + action.branch)]
    ensures action.DeleteAndClone? ==> (|e.ops| == 2 <==> path in entries)
    ensures action.ResetTo? ==>
      (|e.ops| == 2 <==> path in entries && entries[path].Repository? && action.branch in entries[path].copy.heads)
    ensures !action.Clone? && |e.ops| < 2 ==> e.status.Err?
    ensures e.status.Ok? ==> path in e.entries && e.entries[path].Repository?
    ensures forall k :: k in entries && !Under(k, path) ==> k in e.entries && e.entries[k] == entries[k]
    ensures forall k :: k in e.entries ==> k in entries || k == path
  {
    match action
    case Clone => CloneStep(entries, remotes, source, path)
    case DeleteAndClone =>
      var rm := RmTreeStep(entries, path);
      AndThen(rm, CloneStep(rm.entries, remotes, source, path))
    case ResetTo(b) =>
      var co := CheckoutStep(entries, path, b);
      AndThen(co, ResetStep(co.entries, path, b))
  }

  /** The decision followed by its operations, for a source and a path. When
      the decision itself raises, nothing is started and nothing changes. */
  function Sync(entries: map<string, Entry>, remotes: map<string, Remote>, source: string, path: string): (e: Effect)
    ensures Resolve(entries, path).Err? ==>
      e == Effect(Err(Resolve(entries, path).error), entries, [])
    ensures e.status.Ok? ==> Resolve(entries, path).Ok? && path in e.entries && e.entries[path].Repository?
  {
    match Resolve(entries, path)
    case Err(f) => Effect(Err(f), entries, [])
    case Ok(action) => Apply(action, entries, remotes, source, path)
  }

  /** What one call of `git_temp_clone(locator)` does to the disk, not
      counting the recorder. Whatever branch is taken, success returns the
      derived path and leaves a repository there. */
  function Outcome(entries: map<string, Entry>, remotes: map<string, Remote>, locator: string): (run: Run)
    ensures run.result.Ok? ==> run.result.value == RepoPath(locator)
    ensures run.result.Ok? ==> RepoPath(locator) in run.entries && run.entries[RepoPath(locator)].Repository?
  {
    var path := RepoPath(locator);
    var e := Sync(entries, remotes, locator, path);
    Run(if e.status.Ok? then Ok(path) else Err(e.status.error), e.entries, e.ops)
  }

  /** Lines 37-40 (or 44-47): check out the branch, then hard-reset it to
      its tracking ref. */
  method CheckoutAndReset(host: Host, path: string, branch: string) returns (s: Result<()>)
    modifies host
    ensures var co := CheckoutStep(old(host.entries), path, branch);
      var e := AndThen(co, ResetStep(co.entries, path, branch));
      s == e.status && host.entries == e.entries && host.log == old(host.log) + e.ops
  {
    s := host.Checkout(path, branch);
    if s.Ok? {
      s := host.Reset(path, branch);
    }
  }

  /** Lines 52-53: delete the tree, then clone afresh. */
  method DeleteAndCloneAgain(host: Host, remotes: map<string, Remote>, source: string, path: string)
    returns (s: Result<()>)
    modifies host
    ensures var e := Apply(DeleteAndClone, old(host.entries), remotes, source, path);
      s == e.status && host.entries == e.entries && host.log == old(host.log) + e.ops
  {
    s := host.RmTree(path);
    if s.Ok? {
      s := host.CloneFrom(remotes, source, path);
    }
  }

  /** Lines 33-58: the probes and the action they pick, in the code's order. */
  method SyncPath(host: Host, remotes: map<string, Remote>, repo: string, repoPath: string)
    returns (s: Result<()>)
    modifies host
    ensures var e := Sync(old(host.entries), remotes, repo, repoPath);
      s == e.status && host.entries == e.entries && host.log == old(host.log) + e.ops
  {
    if repoPath in host.entries {
      match BranchExists(host.entries, repoPath, Main)
      case Err(f) => return Err(f);
      case Ok(hasMain) =>
        if hasMain {
          s := CheckoutAndReset(host, repoPath, Main);
        } else {
          match BranchExists(host.entries, repoPath, Master)
          case Err(f) => return Err(f);
          case Ok(hasMaster) =>
            if hasMaster {
              s := CheckoutAndReset(host, repoPath, Master);
            } else {
              s := DeleteAndCloneAgain(host, remotes, repo, repoPath);
            }
        }
    } else {
      s := host.CloneFrom(remotes, repo, repoPath);
    }
  }

  /** `git_temp_clone(repo)`. The disk ends as `Outcome` says; the recorder,
      when one exists and is recording, is handed the derived path after the
      sync and sees the synced tree; an error escapes before it is called. */
  method GitTempClone(host: Host, remotes: map<string, Remote>, repo: string, recorder: Replay?)
    returns (r: Result<string>)
    modifies host, recorder
    ensures var run := Outcome(old(host.entries), remotes, repo);
      r == run.result && host.entries == run.entries && host.log == old(host.log) + run.ops
    ensures r.Ok? ==> r.value == RepoPath(repo)
    ensures recorder != null ==> recorder.recording == old(recorder.recording)
    ensures recorder != null && r.Ok? && old(recorder.recording) ==>
      RepoPath(repo) in host.entries &&
      recorder.archives == old(recorder.archives) + [Archive(RepoPath(repo), host.entries[RepoPath(repo)])]
    ensures recorder != null && !(r.Ok? && old(recorder.recording)) ==>
      recorder.archives == old(recorder.archives)
  {
    var repoName := LastSegment(repo);
    var repoPath := ScratchRoot + repoName;
    assert repoPath == RepoPath(repo);
    ghost var before := host.entries;
    ghost var run := Outcome(before, remotes, repo);
    var s := SyncPath(host, remotes, repo, repoPath);
    assert host.entries == run.entries && host.log == old(host.log) + run.ops;
    if s.Err? {
      assert run.result == Err(s.error);
      return Err(s.error);
    }
    assert run.result == Ok(repoPath);
    if recorder != null {
      var recording := recorder.IsRecording();
      if recording {
        recorder.CompressSource(host, repoPath);
      }
    }
    return Ok(repoPath);
  }
}
