/** Concrete situations, each worked through the model: ordinary use, and
    the inputs that show where the code departs from what it announces. */
module Scenarios {
  import opened Paths
  import opened Git
  import opened GitClone
  import opened GitCloneProperties
  import opened Intended
  import opened Workspace

  // Each lemma takes its locator as a parameter fixed by a `requires`, so
  // that the verifier reaches the path through the lemmas of `Paths`
  // instead of unfolding `Split` character by character.

  const Path: string := "/tmp/repo"

  lemma ExamplePath(locator: string)
    requires locator == "https://example.com/org/repo"
    ensures RepoPath(locator) == Path
  {
    LastSegmentIs(locator, "repo");
  }

  /** Nothing is normalised: a trailing "/" gives the scratch root itself. */
  lemma TrailingSlashPath(slash: string)
    requires slash == "https://github.com/org/repo/"
    ensures RepoPath(slash) == ScratchRoot
  {
    LastSegmentIs(slash, "");
  }

  /** Nothing is normalised: a ".git" suffix stays. */
  lemma DotGitPath(dotGit: string)
    requires dotGit == "https://github.com/org/repo.git"
    ensures RepoPath(dotGit) == "/tmp/repo.git"
  {
    LastSegmentIs(dotGit, "repo.git");
  }

  /** A remote whose `main` is at `tip`. */
  function MainAt(tip: Commit): Remote
  {
    Remote(map["main" := tip], "main", {})
  }

  /** A copy cloned from `origin` with `main` at `local`, when the remote's
      `main` was last fetched at `fetched`. */
  function CopyAt(origin: string, local: Commit, fetched: Commit): WorkingCopy
  {
    WorkingCopy(origin, map["main" := local], {}, map["main" := fetched], "main", Tree(local), Tree(local))
  }

  /** With no local state, the first call clones and the second resets to the
      same tip, with no clone. */
  lemma CloneThenReset(locator: string)
    requires locator == "https://example.com/org/repo"
    ensures var remotes := map[locator := MainAt(7)];
      var first := Outcome(map[], remotes, locator);
      var second := Outcome(first.entries, remotes, locator);
      first.result == Ok(Path) && first.ops == [CloneOp(locator, Path)] &&
      second.result == Ok(Path) &&
      second.ops == [CheckoutOp(Path, "main"), ResetOp(Path, "origin/main")] &&
      second.entries == first.entries && second.entries[Path] == Repository(CopyAt(locator, 7, 7))
  {
    ExamplePath(locator);
    var remotes := map[locator := MainAt(7)];
    ClonesWhenMissing(map[], remotes, locator);
    var first := Outcome(map[], remotes, locator);
    assert first.entries == map[Path := Repository(CopyAt(locator, 7, 7))];
    PlainNameInRefs(CopyAt(locator, 7, 7), "main");
    ResetsPreferredBranch(first.entries, remotes, locator, "main");
    assert TrackingPrefix + "main" == "origin/main";
    var second := Outcome(first.entries, remotes, locator);
    assert second.entries[Path] == Repository(CopyAt(locator, 7, 7));
    assert second.entries.Keys == {Path};
  }

  /** Only a `feature-x` branch: the copy is destroyed and cloned again, and
      `feature-x` is never checked out. */
  lemma FeatureBranchOnly(locator: string)
    requires locator == "https://example.com/org/repo"
    ensures var remotes := map[locator := MainAt(7)];
      var w := WorkingCopy(locator, map["feature-x" := 3], {}, map["feature-x" := 3], "feature-x", Tree(3), Tree(3));
      var run := Outcome(map[Path := Repository(w)], remotes, locator);
      run.result == Ok(Path) && run.ops == [RmTreeOp(Path), CloneOp(locator, Path)] &&
      run.entries == map[Path := Repository(CopyAt(locator, 7, 7))]
  {
    ExamplePath(locator);
    var w := WorkingCopy(locator, map["feature-x" := 3], {}, map["feature-x" := 3], "feature-x", Tree(3), Tree(3));
    PlainNameInRefs(w, "main");
    PlainNameInRefs(w, "master");
    assert Removed(map[Path := Repository(w)], Path) == map[];
  }

  /** Local commits on `main` are discarded: the branch is put back on its
      tracking ref. */
  lemma LocalDivergenceDiscarded(locator: string)
    requires locator == "https://example.com/org/repo"
    ensures var run := Outcome(map[Path := Repository(CopyAt(locator, 9, 7))], map[], locator);
      run.result == Ok(Path) && run.entries[Path] == Repository(CopyAt(locator, 7, 7))
  {
    ExamplePath(locator);
  }

  /** As written: the reset targets the tracking ref as last fetched, and
      nothing fetches, so a remote that moved from tip 1 to tip 2 is not
      followed; the call still succeeds. */
  lemma ResetKeepsStaleTip(locator: string)
    requires locator == "https://example.com/org/repo"
    ensures var remotes := map[locator := MainAt(2)];
      var run := Outcome(map[Path := Repository(CopyAt(locator, 1, 1))], remotes, locator);
      run.result == Ok(Path) && run.entries[Path] == Repository(CopyAt(locator, 1, 1)) &&
      !Converged(run.entries[Path].copy, remotes[locator])
  {
    ExamplePath(locator);
  }

  /** Intended: the same situation fetches first and ends at tip 2. */
  lemma IntendedFollowsRemote(locator: string)
    requires locator == "https://example.com/org/repo"
    ensures var remotes := map[locator := MainAt(2)];
      var run := IntendedOutcome(map[Path := Repository(CopyAt(locator, 1, 1))], remotes, locator);
      run.result == Ok(Path) && run.entries[Path] == Repository(CopyAt(locator, 2, 2)) &&
      Converged(run.entries[Path].copy, remotes[locator])
  {
    ExamplePath(locator);
  }

  /** As written: a directory that is not a repository stops the call. */
  lemma PlainDirectoryStopsCall(locator: string)
    requires locator == "https://example.com/org/repo"
    ensures Outcome(map[Path := PlainDirectory], map[locator := MainAt(7)], locator) ==
      Run(Err(InvalidRepository(Path)), map[Path := PlainDirectory], [])
  {
    ExamplePath(locator);
  }

  /** Intended: the same directory is replaced by a fresh clone. */
  lemma IntendedReplacesPlainDirectory(locator: string)
    requires locator == "https://example.com/org/repo"
    ensures var run := IntendedOutcome(map[Path := PlainDirectory], map[locator := MainAt(7)], locator);
      run.result == Ok(Path) && run.entries == map[Path := Repository(CopyAt(locator, 7, 7))]
  {
    ExamplePath(locator);
    assert Removed(map[Path := PlainDirectory], Path) == map[];
  }

  /** Two owners' repositories with the same name share one path: a call for
      Bob's repository resets the copy of Alice's it finds there and reports
      success. */
  lemma SharedPathAcrossOwners(alice: string, bob: string)
    requires alice == "https://github.com/alice/tool" && bob == "https://github.com/bob/tool"
    ensures RepoPath(alice) == RepoPath(bob) == "/tmp/tool"
    ensures var w := CopyAt(alice, 5, 5);
      var run := Outcome(map["/tmp/tool" := Repository(w)], map[alice := MainAt(5), bob := MainAt(8)], bob);
      run.result == Ok("/tmp/tool") && run.entries["/tmp/tool"] == Repository(w)
  {
    LastSegmentIs(alice, "tool");
    LastSegmentIs(bob, "tool");
  }

  /** A remote whose default branch is `master` and which has a tag named
      `main`: the clone succeeds, but the next call finds `main` among the
      refs, looks it up as a local branch and fails. */
  lemma TagNamedMainBreaksRerun(locator: string)
    requires locator == "https://example.com/org/repo"
    ensures var remotes := map[locator := Remote(map["master" := 4], "master", {"main"})];
      var first := Outcome(map[], remotes, locator);
      var second := Outcome(first.entries, remotes, locator);
      first.result == Ok(Path) && second.result == Err(NoSuchHead("main")) &&
      second.entries == first.entries
  {
    ExamplePath(locator);
  }

  /** A remote whose HEAD names `develop` though it also has `main`: the fresh
      clone has only `develop` as a local branch, so every later call deletes
      and clones again. */
  lemma OtherDefaultBranchReclonesEachTime(locator: string)
    requires locator == "https://example.com/org/repo"
    ensures var remotes := map[locator := Remote(map["develop" := 1, "main" := 2], "develop", {})];
      var first := Outcome(map[], remotes, locator);
      var second := Outcome(first.entries, remotes, locator);
      first.result == Ok(Path) && second.result == Ok(Path) &&
      second.ops == [RmTreeOp(Path), CloneOp(locator, Path)] &&
      second.entries == first.entries
  {
    ExamplePath(locator);
    var w := Cloned(locator, Remote(map["develop" := 1, "main" := 2], "develop", {}));
    PlainNameInRefs(w, "main");
    PlainNameInRefs(w, "master");
    assert Removed(map[Path := Repository(w)], Path) == map[];
  }

  /** A locator ending in "/" maps to the scratch root. As written, opening
      the root as a repository raises, so nothing under it is touched. */
  lemma TrailingSlashSparesScratchRoot(slash: string)
    requires slash == "https://github.com/org/repo/"
    ensures var e := map[ScratchRoot := PlainDirectory, "/tmp/other" := Repository(CopyAt("https://example.com/org/other", 1, 1))];
      Outcome(e, map[slash := MainAt(7)], slash) == Run(Err(InvalidRepository(ScratchRoot)), e, [])
  {
    TrailingSlashPath(slash);
  }

  /** With every inspection error read as "absent", the same call deletes the
      whole scratch root, including other working copies, before cloning. */
  lemma IntendedTrailingSlashClearsScratchRoot(slash: string)
    requires slash == "https://github.com/org/repo/"
    ensures var e := map[ScratchRoot := PlainDirectory, "/tmp/other" := Repository(CopyAt("https://example.com/org/other", 1, 1))];
      var run := IntendedOutcome(e, map[slash := MainAt(7)], slash);
      run.ops == [RmTreeOp(ScratchRoot), CloneOp(slash, ScratchRoot)] &&
      "/tmp/other" !in run.entries
  {
    TrailingSlashPath(slash);
    var e := map[ScratchRoot := PlainDirectory, "/tmp/other" := Repository(CopyAt("https://example.com/org/other", 1, 1))];
    IntendedRecoversPlainDirectory(e, map[slash := MainAt(7)], slash);
    assert Under("/tmp/other", ScratchRoot);
  }

  /** A caller with a recording recorder: the first call archives the fresh
      clone at the derived path; a second call without a recorder, and a
      third with one that is not recording, archive nothing. */
  method RecordedCalls(locator: string)
    requires locator == "https://example.com/org/repo"
  {
    ExamplePath(locator);
    var remotes := map[locator := MainAt(7)];
    var host := new Host(map[]);
    var recorder := new Replay(true);
    var r := GitTempClone(host, remotes, locator, recorder);
    assert r == Ok(Path);
    assert host.log == [CloneOp(locator, Path)];
    assert recorder.archives == [Archive(Path, Repository(CopyAt(locator, 7, 7)))];
    r := GitTempClone(host, remotes, locator, null);
    assert r == Ok(Path);
    assert recorder.archives == [Archive(Path, Repository(CopyAt(locator, 7, 7)))];
    var idle := new Replay(false);
    r := GitTempClone(host, map[], locator, idle);
    assert r == Ok(Path) && idle.archives == [];
  }
}
