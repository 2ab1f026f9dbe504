/** Where a locator's working copy lives: the last "/"-separated segment of
    the locator, under the scratch root, with no normalisation at all. */
module Paths {

  /** The fixed scratch root every working copy is placed under. */
  const ScratchRoot: string := "/tmp/"

  /** Python's `s.split("/")`: the pieces between separators, always at least
      one (an empty string splits into one empty piece, a trailing "/" gives
      an empty last piece). */
  function Split(s: string): (parts: seq<string>)
    ensures |parts| >= 1
  {
    if s == [] then [""]
    else
      var rest := Split(s[1..]);
      if s[0] == '/' then [""] + rest
      else [[s[0]] + rest[0]] + rest[1..]
  }

  /** Glues pieces back together with "/" between them. */
  function Join(parts: seq<string>): string
    requires |parts| >= 1
  {
    if |parts| == 1 then parts[0] else parts[0] + "/" + Join(parts[1..])
  }

  /** `Split` is a faithful split: no piece holds the separator, and joining
      the pieces with it gives the input back. */
  lemma {:induction false} SplitJoin(s: string)
    ensures forall i :: 0 <= i < |Split(s)| ==> '/' !in Split(s)[i]
    ensures Join(Split(s)) == s
  {
    if s != [] {
      SplitJoin(s[1..]);
      var rest := Split(s[1..]);
      if s[0] == '/' {
        assert Split(s) == [""] + rest;
        assert Split(s)[1..] == rest;
      } else {
        var parts := Split(s);
        assert parts == [[s[0]] + rest[0]] + rest[1..];
        forall i | 0 <= i < |parts| ensures '/' !in parts[i] {
          if i > 0 { assert parts[i] == rest[i]; }
        }
        if |rest| > 1 {
          assert parts[1..] == rest[1..];
          assert Join(rest) == rest[0] + "/" + Join(rest[1..]);
          assert s == [s[0]] + s[1..];
        }
      }
    }
  }

  /** A join of separator-free pieces ends with its last piece, and that
      piece is either the whole string or is preceded by a separator. */
  lemma {:induction false} JoinEndsWithLast(parts: seq<string>)
    requires |parts| >= 1
    ensures var s, last := Join(parts), parts[|parts| - 1];
      |last| <= |s| && s[|s| - |last|..] == last &&
      (|parts| == 1 <==> |last| == |s|) &&
      (|parts| > 1 ==> s[|s| - |last| - 1] == '/')
  {
    if |parts| > 1 {
      JoinEndsWithLast(parts[1..]);
      var tail := Join(parts[1..]);
      var s := Join(parts);
      assert s == parts[0] + "/" + tail;
      assert parts[|parts| - 1] == parts[1..][|parts[1..]| - 1];
      assert s[|s| - |tail|..] == tail;
    }
  }

  /** Python's `s.split("/")[-1]`: exactly the longest suffix of `s` that
      has no "/" in it. Nothing is stripped, so a trailing "/" yields "" and
      a ".git" suffix is kept. */
  function LastSegment(s: string): (seg: string)
    ensures |seg| <= |s| && s[|s| - |seg|..] == seg && '/' !in seg
    ensures |seg| == |s| || s[|s| - |seg| - 1] == '/'
  {
    SplitJoin(s);
    JoinEndsWithLast(Split(s));
    var parts := Split(s);
    parts[|parts| - 1]
  }

  /** Any "/"-free suffix that is the whole locator or follows a "/" is the
      last segment: the characterisation in `LastSegment`'s contract
      determines it. */
  lemma LastSegmentIs(s: string, t: string)
    requires |t| <= |s| && s[|s| - |t|..] == t && '/' !in t
    requires |t| == |s| || s[|s| - |t| - 1] == '/'
    ensures LastSegment(s) == t
  {
  }

  /** `f"/tmp/{repo.split('/')[-1]}"`: the scratch root followed by the
      longest "/"-free suffix of the locator. */
  function RepoPath(locator: string): (path: string)
    ensures |path| >= |ScratchRoot| && path[..|ScratchRoot|] == ScratchRoot
    ensures var name := path[|ScratchRoot|..];
      |name| <= |locator| && locator[|locator| - |name|..] == name && '/' !in name &&
      (|name| == |locator| || locator[|locator| - |name| - 1] == '/')
  {
    var path := ScratchRoot + LastSegment(locator);
    assert path[|ScratchRoot|..] == LastSegment(locator);
    path
  }

}
