/** What `git_temp_clone` guarantees, as written, stated over `Outcome`
    (which the imperative `GitTempClone` is proved to follow). */
module GitCloneProperties {
  import opened Paths
  import opened Git
  import opened GitClone

  /** Something is at the path, it is not a plain directory, and neither
      `main` nor `master` is found there. */
  predicate NeitherBranchUsable(entries: map<string, Entry>, p: string)
    requires p in entries
  {
    !entries[p].PlainDirectory? && !HasRef(entries, p, Main) && !HasRef(entries, p, Master)
  }

  /** An absent path is cloned into, and nothing is checked out, reset or
      deleted; a failing clone leaves the disk as it was. */
  lemma ClonesWhenMissing(entries: map<string, Entry>, remotes: map<string, Remote>, locator: string)
    requires RepoPath(locator) !in entries
    ensures var run, p := Outcome(entries, remotes, locator), RepoPath(locator);
      run.ops == [CloneOp(locator, p)] &&
      (run.result.Ok? <==> locator in remotes) &&
      (run.result.Ok? ==> run.entries == entries[p := Repository(Cloned(locator, remotes[locator]))]) &&
      (run.result.Err? ==> run.result.error == CloneFailed(locator) && run.entries == entries)
  {
  }

  /** `main` when it is a ref, otherwise `master` when that is one: the
      branch is checked out and hard-reset to its tracking ref, and nothing
      is cloned or deleted. The call fails when the name is a ref but not a
      local branch (a tag, say), or when its tracking ref is missing. */
  lemma ResetsPreferredBranch(entries: map<string, Entry>, remotes: map<string, Remote>,
                              locator: string, b: string)
    requires HasRef(entries, RepoPath(locator), b)
    requires b == Main || (b == Master && !HasRef(entries, RepoPath(locator), Main))
    ensures var run, p := Outcome(entries, remotes, locator), RepoPath(locator);
      var w := entries[p].copy;
      run.ops <= [CheckoutOp(p, b), ResetOp(p, TrackingPrefix + b)] &&
      (run.result.Ok? <==> b in w.heads && b in w.tracking) &&
      (b !in w.heads ==> run.result == Err(NoSuchHead(b)) && run.entries == entries) &&
      (b in w.heads && b !in w.tracking ==>
         run.result == Err(BadRevision(TrackingPrefix + b)) &&
         run.entries == entries[p := Repository(CheckedOut(w, b).value)]) &&
      (run.result.Ok? ==>
         run.ops == [CheckoutOp(p, b), ResetOp(p, TrackingPrefix + b)] &&
         run.entries.Keys == entries.Keys &&
         (forall k :: k in entries && k != p ==> run.entries[k] == entries[k]) &&
         run.entries[p].Repository? &&
         var w' := run.entries[p].copy;
         w'.branch == b && AtTip(w', w.tracking[b]) &&
         w'.origin == w.origin && w'.tracking == w.tracking && w'.tags == w.tags &&
         w'.heads.Keys == w.heads.Keys &&
         (forall h :: h in w.heads && h != b ==> w'.heads[h] == w.heads[h]))
  {
    var p := RepoPath(locator);
    var w := entries[p].copy;
    PlainNameInRefs(w, Main);
    assert Resolve(entries, p) == Ok(ResetTo(b));
    if b in w.heads && b in w.tracking {
      ResetSucceeds(entries, remotes, locator, b);
    } else if b in w.heads {
      var co := CheckoutStep(entries, p, b);
      assert co.entries == entries[p := Repository(CheckedOut(w, b).value)];
      assert Outcome(entries, remotes, locator).entries == co.entries;
    }
  }

  /** The success case of `ResetsPreferredBranch`, step by step. */
  lemma ResetSucceeds(entries: map<string, Entry>, remotes: map<string, Remote>, locator: string, b: string)
    requires Resolve(entries, RepoPath(locator)) == Ok(ResetTo(b))
    requires var w := entries[RepoPath(locator)].copy; b in w.heads && b in w.tracking
    ensures var run, p := Outcome(entries, remotes, locator), RepoPath(locator);
      var w := entries[p].copy;
      run.result.Ok? &&
      run.ops == [CheckoutOp(p, b), ResetOp(p, TrackingPrefix + b)] &&
      run.entries.Keys == entries.Keys &&
      (forall k :: k in entries && k != p ==> run.entries[k] == entries[k]) &&
      run.entries[p].Repository? &&
      var w' := run.entries[p].copy;
      w'.branch == b && AtTip(w', w.tracking[b]) &&
      w'.origin == w.origin && w'.tracking == w.tracking && w'.tags == w.tags &&
      w'.heads.Keys == w.heads.Keys &&
      (forall h :: h in w.heads && h != b ==> w'.heads[h] == w.heads[h])
  {
    var p := RepoPath(locator);
    assert Sync(entries, remotes, locator, p) == Apply(ResetTo(b), entries, remotes, locator, p);
    ResetRunsBothSteps(entries, remotes, locator, p, b);
  }

  /** Checkout then reset succeeds only on a repository where the branch is
      local and has a tracking ref. */
  lemma ResetNeedsBoth(entries: map<string, Entry>, remotes: map<string, Remote>,
                       source: string, p: string, b: string)
    ensures Apply(ResetTo(b), entries, remotes, source, p).status.Ok? ==>
      p in entries && entries[p].Repository? && b in entries[p].copy.heads && b in entries[p].copy.tracking
  {
    var co := CheckoutStep(entries, p, b);
    if co.status.Ok? {
      assert co.entries[p] == Repository(CheckedOut(entries[p].copy, b).value);
    }
  }

  /** Checkout then reset, on a repository where the branch is local and has
      a tracking ref: both succeed, and the copy ends checked out and reset. */
  lemma ResetRunsBothSteps(entries: map<string, Entry>, remotes: map<string, Remote>,
                           source: string, p: string, b: string)
    requires p in entries && entries[p].Repository?
    requires b in entries[p].copy.heads && b in entries[p].copy.tracking
    ensures var e, w := Apply(ResetTo(b), entries, remotes, source, p), entries[p].copy;
      e.status.Ok? && e.ops == [CheckoutOp(p, b), ResetOp(p, TrackingPrefix + b)] &&
      e.entries.Keys == entries.Keys &&
      (forall k :: k in entries && k != p ==> e.entries[k] == entries[k]) &&
      e.entries[p].Repository? &&
      var w' := e.entries[p].copy;
      w'.branch == b && AtTip(w', w.tracking[b]) &&
      w'.origin == w.origin && w'.tracking == w.tracking && w'.tags == w.tags &&
      w'.heads.Keys == w.heads.Keys &&
      (forall h :: h in w.heads && h != b ==> w'.heads[h] == w.heads[h])
  {
    var w := entries[p].copy;
    var co := CheckoutStep(entries, p, b);
    var w1 := CheckedOut(w, b).value;
    assert co.entries == entries[p := Repository(w1)];
    var re := ResetStep(co.entries, p, b);
    var w2 := HardReset(w1, b).value;
    assert re.status.Ok? && re.ops == [ResetOp(p, TrackingPrefix + b)];
    assert re.entries == entries[p := Repository(w2)];
  }


  /** Neither `main` nor `master` found (no such ref, or inspection failed
      with a git command error): the tree is deleted and cloned afresh. A
      failing clone leaves the path deleted. */
  lemma RenewsWhenNeitherBranch(entries: map<string, Entry>, remotes: map<string, Remote>, locator: string)
    requires RepoPath(locator) in entries && NeitherBranchUsable(entries, RepoPath(locator))
    ensures var run, p := Outcome(entries, remotes, locator), RepoPath(locator);
      run.ops == [RmTreeOp(p), CloneOp(locator, p)] &&
      (run.result.Ok? <==> locator in remotes) &&
      (run.result.Ok? ==> run.entries == Removed(entries, p)[p := Repository(Cloned(locator, remotes[locator]))]) &&
      (run.result.Err? ==> run.result.error == CloneFailed(locator) && run.entries == Removed(entries, p))
  {
    var p := RepoPath(locator);
    assert Resolve(entries, p) == Ok(DeleteAndClone);
  }

  /** An operation a call may start for `locator` on the disk `entries`:
      only `main` or `master` is checked out or reset to, `master` only when
      `main` is not a ref; a clone or delete touches only the derived path,
      and only when it is missing or neither branch was found. */
  predicate Guarded(entries: map<string, Entry>, locator: string, op: Op)
  {
    var p := RepoPath(locator);
    (op.CheckoutOp? ==> op.path == p && (op.branch == Main || op.branch == Master)) &&
    (op == CheckoutOp(p, Master) ==> HasRef(entries, p, Master) && !HasRef(entries, p, Main)) &&
    (op.ResetOp? ==> op.path == p && (op.rev == TrackingPrefix + Main || op.rev == TrackingPrefix + Master)) &&
    (op == ResetOp(p, TrackingPrefix + Master) ==> HasRef(entries, p, Master) && !HasRef(entries, p, Main)) &&
    (op.CloneOp? ==> op == CloneOp(locator, p)) &&
    (op.CloneOp? ==> p !in entries || NeitherBranchUsable(entries, p)) &&
    (op.RmTreeOp? ==> op.path == p && p in entries && NeitherBranchUsable(entries, p)) &&
    !op.FetchOp?
  }

  /** Every operation a call starts is guarded as `Guarded` says. */
  lemma OperationsAreGuarded(entries: map<string, Entry>, remotes: map<string, Remote>, locator: string)
    ensures forall op :: op in Outcome(entries, remotes, locator).ops ==> Guarded(entries, locator, op)
  {
    var p := RepoPath(locator);
    var ops := Sync(entries, remotes, locator, p).ops;
    assert Outcome(entries, remotes, locator).ops == ops;
    match Resolve(entries, p)
    case Err(_) =>
    case Ok(Clone) =>
      assert Guarded(entries, locator, CloneOp(locator, p));
    case Ok(DeleteAndClone) =>
      RenewalIsGuarded(entries, remotes, locator);
    case Ok(ResetTo(b)) =>
      ResetIsGuarded(entries, remotes, locator, b);
  }

  lemma RenewalIsGuarded(entries: map<string, Entry>, remotes: map<string, Remote>, locator: string)
    requires Resolve(entries, RepoPath(locator)) == Ok(DeleteAndClone)
    ensures var p := RepoPath(locator);
      forall op :: op in Apply(DeleteAndClone, entries, remotes, locator, p).ops ==> Guarded(entries, locator, op)
  {
    var p := RepoPath(locator);
    var all := [RmTreeOp(p), CloneOp(locator, p)];
    var ops := Apply(DeleteAndClone, entries, remotes, locator, p).ops;
    assert ops <= all;
    forall op | op in ops ensures Guarded(entries, locator, op) {
      assert op in all;
    }
  }

  lemma ResetIsGuarded(entries: map<string, Entry>, remotes: map<string, Remote>, locator: string, b: string)
    requires var p := RepoPath(locator);
      b == Main || (b == Master && HasRef(entries, p, Master) && !HasRef(entries, p, Main))
    ensures var p := RepoPath(locator);
      forall op :: op in Apply(ResetTo(b), entries, remotes, locator, p).ops ==> Guarded(entries, locator, op)
  {
    var p := RepoPath(locator);
    var all := [CheckoutOp(p, b), ResetOp(p, TrackingPrefix + b)];
    var ops := Apply(ResetTo(b), entries, remotes, locator, p).ops;
    assert ops <= all;
    ResetOpsGuarded(entries, locator, b);
    PrefixGuarded(entries, locator, ops, all);
  }

  /** A prefix of guarded operations is guarded. */
  lemma PrefixGuarded(entries: map<string, Entry>, locator: string, ops: seq<Op>, all: seq<Op>)
    requires ops <= all
    requires forall i :: 0 <= i < |all| ==> Guarded(entries, locator, all[i])
    ensures forall op :: op in ops ==> Guarded(entries, locator, op)
  {
    forall op | op in ops ensures Guarded(entries, locator, op) {
      var i :| 0 <= i < |ops| && ops[i] == op;
      assert all[i] == op;
    }
  }

  /** The checkout and the reset of the preferred branch are both guarded. */
  lemma ResetOpsGuarded(entries: map<string, Entry>, locator: string, b: string)
    requires var p := RepoPath(locator);
      b == Main || (b == Master && HasRef(entries, p, Master) && !HasRef(entries, p, Main))
    ensures var p := RepoPath(locator);
      Guarded(entries, locator, CheckoutOp(p, b)) && Guarded(entries, locator, ResetOp(p, TrackingPrefix + b))
  {
    assert |TrackingPrefix + Main| < |TrackingPrefix + Master|;
  }

  /** A successful call leaves at the derived path a repository whose
      checked-out branch agrees with its tracking ref. */
  lemma SuccessMatchesTracking(entries: map<string, Entry>, remotes: map<string, Remote>, locator: string)
    requires Outcome(entries, remotes, locator).result.Ok?
    ensures var run, p := Outcome(entries, remotes, locator), RepoPath(locator);
      p in run.entries && run.entries[p].Repository? && MatchesTracking(run.entries[p].copy)
  {
    var p := RepoPath(locator);
    match Resolve(entries, p)
    case Ok(Clone) => ClonesWhenMissing(entries, remotes, locator);
    case Ok(DeleteAndClone) => RenewsWhenNeitherBranch(entries, remotes, locator);
    case Ok(ResetTo(b)) => ResetsPreferredBranch(entries, remotes, locator, b);
  }

  /** Opening a directory that is not a repository raises inside
      `branch_exists` (only GitCommandError is caught), so the call fails and
      changes nothing. */
  lemma PlainDirectoryRaises(entries: map<string, Entry>, remotes: map<string, Remote>, locator: string)
    requires RepoPath(locator) in entries && entries[RepoPath(locator)] == PlainDirectory
    ensures Outcome(entries, remotes, locator) == Run(Err(InvalidRepository(RepoPath(locator))), entries, [])
  {
  }

  /** Only the derived path and what lies inside it can change. */
  lemma OnlyPathChanges(entries: map<string, Entry>, remotes: map<string, Remote>, locator: string)
    ensures var run, p := Outcome(entries, remotes, locator), RepoPath(locator);
      (forall k :: k in entries && !Under(k, p) ==> k in run.entries && run.entries[k] == entries[k]) &&
      (forall k :: k in run.entries ==> k in entries || k == p)
  {
    var p := RepoPath(locator);
    assert Outcome(entries, remotes, locator).entries == Sync(entries, remotes, locator, p).entries;
  }

  /** No remote has a tag named like one of the preferred branches. */
  predicate NoBranchNamedTags(remotes: map<string, Remote>)
  {
    forall k :: k in remotes ==> Main !in remotes[k].tags && Master !in remotes[k].tags
  }

  /** Idempotence: after a successful call, calling again with the remotes
      unchanged succeeds and leaves the same tree at the path. */
  lemma RerunIsStable(entries: map<string, Entry>, remotes: map<string, Remote>, locator: string)
    requires NoBranchNamedTags(remotes)
    requires Outcome(entries, remotes, locator).result.Ok?
    ensures var first := Outcome(entries, remotes, locator);
      var second := Outcome(first.entries, remotes, locator);
      var p := RepoPath(locator);
      second.result == first.result && p in first.entries && p in second.entries &&
      second.entries[p] == first.entries[p]
  {
    var p := RepoPath(locator);
    var first := Outcome(entries, remotes, locator);
    match Resolve(entries, p)
    case Ok(Clone) =>
      ClonesWhenMissing(entries, remotes, locator);
      RerunAfterClone(first.entries, remotes, locator);
    case Ok(DeleteAndClone) =>
      RenewsWhenNeitherBranch(entries, remotes, locator);
      RerunAfterClone(first.entries, remotes, locator);
    case Ok(ResetTo(b)) =>
      RerunAfterFirstReset(entries, remotes, locator, b);
  }

  /** `RerunIsStable` when the first call reset branch `b`: the copy it
      leaves meets what `RerunAfterReset` asks. */
  lemma RerunAfterFirstReset(entries: map<string, Entry>, remotes: map<string, Remote>, locator: string, b: string)
    requires Resolve(entries, RepoPath(locator)) == Ok(ResetTo(b))
    requires Outcome(entries, remotes, locator).result.Ok?
    ensures var first := Outcome(entries, remotes, locator);
      var second := Outcome(first.entries, remotes, locator);
      var p := RepoPath(locator);
      second.result == first.result && p in first.entries && p in second.entries &&
      second.entries[p] == first.entries[p]
  {
    var p := RepoPath(locator);
    var w0 := entries[p].copy;
    assert Sync(entries, remotes, locator, p) == Apply(ResetTo(b), entries, remotes, locator, p);
    ResetNeedsBoth(entries, remotes, locator, p, b);
    ResetSucceeds(entries, remotes, locator, b);
    var first := Outcome(entries, remotes, locator);
    var w := first.entries[p].copy;
    PlainNameInRefs(w0, Main);
    assert b == Main || (b == Master && Main !in w.heads && Main !in w.tags);
    RerunAfterReset(first.entries, remotes, locator, w);
  }

  /** The second call after a clone of a remote without tags named `main`
      or `master` rebuilds the same tree. */
  lemma RerunAfterClone(entries: map<string, Entry>, remotes: map<string, Remote>, locator: string)
    requires locator in remotes && Main !in remotes[locator].tags && Master !in remotes[locator].tags
    requires var p := RepoPath(locator);
      p in entries && entries[p] == Repository(Cloned(locator, remotes[locator]))
    ensures var second, p := Outcome(entries, remotes, locator), RepoPath(locator);
      second.result == Ok(p) && p in second.entries && second.entries[p] == entries[p]
  {
    var p := RepoPath(locator);
    var w := Cloned(locator, remotes[locator]);
    PlainNameInRefs(w, Main);
    PlainNameInRefs(w, Master);
    match Resolve(entries, p)
    case Ok(DeleteAndClone) =>
      RenewsWhenNeitherBranch(entries, remotes, locator);
    case Ok(ResetTo(b)) =>
      assert b in w.heads && b in w.tracking;
      ResetSucceeds(entries, remotes, locator, b);
      var w' := Outcome(entries, remotes, locator).entries[p].copy;
      assert w'.heads == w.heads;
      assert w' == w;
  }

  /** The second call after a reset of `main`, or of `master` with no `main`
      ref, resets the same branch to the same tip. */
  lemma RerunAfterReset(entries: map<string, Entry>, remotes: map<string, Remote>, locator: string, w: WorkingCopy)
    requires var p := RepoPath(locator); p in entries && entries[p] == Repository(w)
    requires w.branch in w.tracking && AtTip(w, w.tracking[w.branch])
    requires w.branch == Main || (w.branch == Master && Main !in w.heads && Main !in w.tags)
    ensures var second, p := Outcome(entries, remotes, locator), RepoPath(locator);
      second.result == Ok(p) && p in second.entries && second.entries[p] == entries[p]
  {
    var p := RepoPath(locator);
    PlainNameInRefs(w, Main);
    PlainNameInRefs(w, Master);
    var b := w.branch;
    assert Resolve(entries, p) == Ok(ResetTo(b));
    ResetSucceeds(entries, remotes, locator, b);
    var w' := Outcome(entries, remotes, locator).entries[p].copy;
    assert w'.heads == w.heads;
    assert w' == w;
  }
}
