/** The synchroniser as its own handling and messages announce it, differing
    from the code in two places. A failed inspection of any kind (including a
    directory that is not a repository) reads as "branch absent", as the
    `return False` after a failed check intends. The tracking refs are
    fetched from the remote before the hard reset, so that the copy really
    holds the "latest changes" the reset message reports. */
module Intended {
  import opened Paths
  import opened Git
  import opened GitClone
  import opened GitCloneProperties

  /** `branch_exists` with every inspection error read as "absent". */
  function BranchFound(entries: map<string, Entry>, repoPath: string, branchName: string): (found: bool)
    ensures found <==> HasRef(entries, repoPath, branchName)
    ensures BranchExists(entries, repoPath, branchName).Ok? ==>
      found == BranchExists(entries, repoPath, branchName).value
  {
    match BranchExists(entries, repoPath, branchName)
    case Ok(b) => b
    case Err(_) => false
  }

  /** The decision with inspection errors read as "absent": it never fails. */
  function ResolveIntended(entries: map<string, Entry>, path: string): (a: Action)
    ensures a == Clone <==> path !in entries
    ensures a == ResetTo(Main) <==> HasRef(entries, path, Main)
    ensures a == ResetTo(Master) <==> !HasRef(entries, path, Main) && HasRef(entries, path, Master)
    ensures a == DeleteAndClone <==>
      path in entries && !HasRef(entries, path, Main) && !HasRef(entries, path, Master)
    ensures Resolve(entries, path).Ok? ==> a == Resolve(entries, path).value
  {
    if path !in entries then Clone
    else if BranchFound(entries, path, Main) then ResetTo(Main)
    else if BranchFound(entries, path, Master) then ResetTo(Master)
    else DeleteAndClone
  }

  /** `git fetch --prune origin`: the tracking refs become the remote's
      branches and the remote's tags are added. */
  function Fetched(w: WorkingCopy, remote: Remote): (w': WorkingCopy)
    ensures w'.tracking == remote.branches && w'.tags == w.tags + remote.tags
    ensures w'.heads == w.heads && w'.branch == w.branch && w'.origin == w.origin
    ensures w'.index == w.index && w'.worktree == w.worktree
  {
    w.(tracking := remote.branches, tags := w.tags + remote.tags)
  }

  /** Fetching into the repository at `path` from the remote it was cloned
      from; fails when that remote is unreachable. */
  function FetchStep(entries: map<string, Entry>, remotes: map<string, Remote>, path: string): (e: Effect)
    ensures e.status.Ok? <==>
      path in entries && entries[path].Repository? && entries[path].copy.origin in remotes
    ensures e.status.Ok? ==> e.ops == [FetchOp(path)]
    ensures e.status.Ok? ==> e.entries == entries[path := Repository(Fetched(entries[path].copy, remotes[entries[path].copy.origin]))]
    ensures e.status.Err? ==> e.entries == entries
  {
    match Open(entries, path)
    case Err(f) => Effect(Err(f), entries, [])
    case Ok(w) =>
      if w.origin in remotes then
        Effect(Ok(()), entries[path := Repository(Fetched(w, remotes[w.origin]))], [FetchOp(path)])
      else Effect(Err(FetchFailed(w.origin)), entries, [FetchOp(path)])
  }

  /** The operations of an action, with a fetch between checkout and reset;
      cloning and renewing are as in the code. */
  function ApplyIntended(action: Action, entries: map<string, Entry>, remotes: map<string, Remote>,
                         source: string, path: string): (e: Effect)
    ensures !action.ResetTo? ==> e == Apply(action, entries, remotes, source, path)
    ensures action.ResetTo? ==>
      e.ops <= [CheckoutOp(path, action.branch), FetchOp(path), ResetOp(path, TrackingPrefix + action.branch)]
    ensures e.status.Ok? ==> path in e.entries && e.entries[path].Repository?
  {
    match action
    case Clone => Apply(Clone, entries, remotes, source, path)
    case DeleteAndClone => Apply(DeleteAndClone, entries, remotes, source, path)
    case ResetTo(b) =>
      var co := CheckoutStep(entries, path, b);
      var fe := FetchStep(co.entries, remotes, path);
      AndThen(co, AndThen(fe, ResetStep(fe.entries, path, b)))
  }

  /** One intended call: the derived path, or an error, with the disk
      afterwards and the operations started. */
  function IntendedOutcome(entries: map<string, Entry>, remotes: map<string, Remote>, locator: string): (run: Run)
    ensures run.result.Ok? ==> run.result.value == RepoPath(locator)
    ensures run.result.Ok? ==> RepoPath(locator) in run.entries && run.entries[RepoPath(locator)].Repository?
  {
    var path := RepoPath(locator);
    var e := ApplyIntended(ResolveIntended(entries, path), entries, remotes, locator, path);
    Run(if e.status.Ok? then Ok(path) else Err(e.status.error), e.entries, e.ops)
  }

  /** A directory that is not a repository is deleted and cloned afresh,
      like any other path where neither branch is found. */
  lemma IntendedRecoversPlainDirectory(entries: map<string, Entry>, remotes: map<string, Remote>, locator: string)
    requires RepoPath(locator) in entries && entries[RepoPath(locator)] == PlainDirectory
    ensures var run, p := IntendedOutcome(entries, remotes, locator), RepoPath(locator);
      run.ops == [RmTreeOp(p), CloneOp(locator, p)] &&
      (run.result.Ok? <==> locator in remotes) &&
      (run.result.Ok? ==> run.entries == Removed(entries, p)[p := Repository(Cloned(locator, remotes[locator]))])
  {
    var p := RepoPath(locator);
    assert ResolveIntended(entries, p) == DeleteAndClone;
    var rm := RmTreeStep(entries, p);
    assert rm.status.Ok? && rm.entries == Removed(entries, p);
    var cl := CloneStep(rm.entries, remotes, locator, p);
    assert ApplyIntended(DeleteAndClone, entries, remotes, locator, p) == AndThen(rm, cl);
  }

  /** When the code decides to clone, or to delete and clone, the intended
      call does what the code does. */
  lemma IntendedAgreesOffResetPath(entries: map<string, Entry>, remotes: map<string, Remote>, locator: string)
    requires Resolve(entries, RepoPath(locator)) == Ok(Clone) ||
             Resolve(entries, RepoPath(locator)) == Ok(DeleteAndClone)
    ensures IntendedOutcome(entries, remotes, locator) == Outcome(entries, remotes, locator)
  {
  }

  /** On the reset path, when the copy's origin is reachable, its tracking
      refs equal the remote's branches and it already has the remote's tags,
      the intended call only adds the fetch. */
  lemma IntendedAddsOnlyTheFetch(entries: map<string, Entry>, remotes: map<string, Remote>, locator: string)
    requires var p := RepoPath(locator);
      Resolve(entries, p).Ok? && Resolve(entries, p).value.ResetTo? &&
      var w := entries[p].copy;
      w.origin in remotes && w.tracking == remotes[w.origin].branches && remotes[w.origin].tags <= w.tags
    ensures var mine, theirs := IntendedOutcome(entries, remotes, locator), Outcome(entries, remotes, locator);
      mine.result == theirs.result && mine.entries == theirs.entries &&
      (theirs.ops == [] ==> mine.ops == []) &&
      (theirs.ops == [] || theirs.ops == mine.ops[..1] + mine.ops[2..])
  {
    var p := RepoPath(locator);
    var w := entries[p].copy;
    var b := Resolve(entries, p).value.branch;
    var co := CheckoutStep(entries, p, b);
    if co.status.Ok? {
      var w1 := co.entries[p].copy;
      assert Fetched(w1, remotes[w1.origin]) == w1;
      assert co.entries[p := Repository(w1)] == co.entries;
    }
  }

  /** The invariant the intended call keeps: a successful call leaves the
      checked-out branch equal to the remote's branch, tip, index and working
      tree. */
  lemma IntendedConverges(entries: map<string, Entry>, remotes: map<string, Remote>, locator: string)
    requires IntendedOutcome(entries, remotes, locator).result.Ok?
    ensures var run, p := IntendedOutcome(entries, remotes, locator), RepoPath(locator);
      p in run.entries && run.entries[p].Repository? &&
      var w := run.entries[p].copy;
      w.origin in remotes && Converged(w, remotes[w.origin])
  {
    var p := RepoPath(locator);
    match ResolveIntended(entries, p)
    case Clone =>
    case DeleteAndClone =>
    case ResetTo(b) =>
      IntendedResetSteps(entries, remotes, locator, p, b);
  }

  /** The intended reset, step by step: checkout, fetch, reset. It succeeds
      exactly when the branch is local and the remote reachable and has it. */
  lemma IntendedResetSteps(entries: map<string, Entry>, remotes: map<string, Remote>,
                           source: string, p: string, b: string)
    requires p in entries && entries[p].Repository?
    ensures var e, w := ApplyIntended(ResetTo(b), entries, remotes, source, p), entries[p].copy;
      (e.status.Ok? <==> b in w.heads && w.origin in remotes && b in remotes[w.origin].branches) &&
      (e.status.Ok? ==>
         e.ops == [CheckoutOp(p, b), FetchOp(p), ResetOp(p, TrackingPrefix + b)] &&
         e.entries == entries[p := Repository(HardReset(Fetched(CheckedOut(w, b).value, remotes[w.origin]), b).value)])
  {
    var w := entries[p].copy;
    var co := CheckoutStep(entries, p, b);
    if b in w.heads {
      var w1 := CheckedOut(w, b).value;
      assert co.entries == entries[p := Repository(w1)];
      var fe := FetchStep(co.entries, remotes, p);
      if w.origin in remotes {
        var w2 := Fetched(w1, remotes[w1.origin]);
        assert fe.entries == entries[p := Repository(w2)];
      }
    }
  }

  /** Idempotence of the intended call: with the remotes unchanged, a second
      call succeeds and leaves the same tree. */
  lemma IntendedRerunIsStable(entries: map<string, Entry>, remotes: map<string, Remote>, locator: string)
    requires NoBranchNamedTags(remotes)
    requires IntendedOutcome(entries, remotes, locator).result.Ok?
    ensures var first := IntendedOutcome(entries, remotes, locator);
      var second := IntendedOutcome(first.entries, remotes, locator);
      var p := RepoPath(locator);
      second.result == first.result && p in first.entries && p in second.entries &&
      second.entries[p] == first.entries[p]
  {
    var p := RepoPath(locator);
    var first := IntendedOutcome(entries, remotes, locator);
    match ResolveIntended(entries, p)
    case Clone =>
      IntendedAfterClone(first.entries, remotes, locator);
    case DeleteAndClone =>
      IntendedAfterClone(first.entries, remotes, locator);
    case ResetTo(b) =>
      IntendedRerunAfterReset(entries, remotes, locator, b);
  }

  /** `IntendedRerunIsStable` when the first call reset branch `b`: the copy
      it leaves meets what `IntendedAfterReset` asks. */
  lemma IntendedRerunAfterReset(entries: map<string, Entry>, remotes: map<string, Remote>, locator: string, b: string)
    requires NoBranchNamedTags(remotes)
    requires ResolveIntended(entries, RepoPath(locator)) == ResetTo(b)
    requires IntendedOutcome(entries, remotes, locator).result.Ok?
    ensures var first := IntendedOutcome(entries, remotes, locator);
      var second := IntendedOutcome(first.entries, remotes, locator);
      var p := RepoPath(locator);
      second.result == first.result && p in first.entries && p in second.entries &&
      second.entries[p] == first.entries[p]
  {
    var p := RepoPath(locator);
    var w0 := entries[p].copy;
    IntendedResetSteps(entries, remotes, locator, p, b);
    var remote := remotes[w0.origin];
    var w := HardReset(Fetched(CheckedOut(w0, b).value, remote), b).value;
    FetchedResetCopy(w0, remote, b);
    var first := IntendedOutcome(entries, remotes, locator);
    assert first.entries == entries[p := Repository(w)];
    PlainNameInRefs(w0, Main);
    assert Main !in remote.tags;
    assert b == Main || (b == Master && Main !in w.heads && Main !in w.tags);
    IntendedAfterReset(first.entries, remotes, locator, w);
  }

  /** The copy an intended reset of `b` leaves: fetched from `remote`, with
      `b` checked out at the remote's tip and the set of local branches kept. */
  lemma FetchedResetCopy(w0: WorkingCopy, remote: Remote, b: string)
    requires b in w0.heads && b in remote.branches
    ensures var w := HardReset(Fetched(CheckedOut(w0, b).value, remote), b).value;
      w.origin == w0.origin && w.tracking == remote.branches && w.tags == w0.tags + remote.tags &&
      w.branch == b && AtTip(w, remote.branches[b]) && w.heads.Keys == w0.heads.Keys
  {
    var w1 := CheckedOut(w0, b).value;
    assert w1.heads.Keys + {b} == w0.heads.Keys;
  }

  /** The second intended call after a clone rebuilds the same tree. */
  lemma IntendedAfterClone(entries: map<string, Entry>, remotes: map<string, Remote>, locator: string)
    requires locator in remotes && Main !in remotes[locator].tags && Master !in remotes[locator].tags
    requires var p := RepoPath(locator);
      p in entries && entries[p] == Repository(Cloned(locator, remotes[locator]))
    ensures var second, p := IntendedOutcome(entries, remotes, locator), RepoPath(locator);
      second.result == Ok(p) && p in second.entries && second.entries[p] == entries[p]
  {
    var p := RepoPath(locator);
    var w := Cloned(locator, remotes[locator]);
    PlainNameInRefs(w, Main);
    PlainNameInRefs(w, Master);
    match ResolveIntended(entries, p)
    case DeleteAndClone =>
      RenewsWhenNeitherBranch(entries, remotes, locator);
    case ResetTo(b) =>
      IntendedAddsOnlyTheFetch(entries, remotes, locator);
      RerunAfterClone(entries, remotes, locator);
  }

  /** The second intended call after a reset, with the tracking refs and tags
      already fetched, resets the same branch to the same tip. */
  lemma IntendedAfterReset(entries: map<string, Entry>, remotes: map<string, Remote>, locator: string, w: WorkingCopy)
    requires var p := RepoPath(locator); p in entries && entries[p] == Repository(w)
    requires w.origin in remotes && w.tracking == remotes[w.origin].branches && remotes[w.origin].tags <= w.tags
    requires w.branch in w.tracking && AtTip(w, w.tracking[w.branch])
    requires w.branch == Main || (w.branch == Master && Main !in w.heads && Main !in w.tags)
    ensures var second, p := IntendedOutcome(entries, remotes, locator), RepoPath(locator);
      second.result == Ok(p) && p in second.entries && second.entries[p] == entries[p]
  {
    PlainNameInRefs(w, Main);
    IntendedAddsOnlyTheFetch(entries, remotes, locator);
    RerunAfterReset(entries, remotes, locator, w);
  }
}
