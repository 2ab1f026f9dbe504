/** The machine the synchroniser runs on, as objects whose state its calls
    change: the paths on disk with a log of the operations started on them,
    and the optional recorder that archives source trees. */
module Workspace {
  import opened Git

  /** The local disk: what exists at each path, and every filesystem or
      version-control operation started so far. */
  class Host {
    var entries: map<string, Entry>
    var log: seq<Op>

    constructor (entries: map<string, Entry>)
      ensures this.entries == entries && log == []
    {
      this.entries := entries;
      log := [];
    }

    /** `Repo.clone_from(source, dest)`. */
    method CloneFrom(remotes: map<string, Remote>, source: string, dest: string) returns (s: Result<()>)
      modifies this
      ensures var e := CloneStep(old(entries), remotes, source, dest);
        s == e.status && entries == e.entries && log == old(log) + e.ops
    {
      var e := CloneStep(entries, remotes, source, dest);
      s, entries, log := e.status, e.entries, log + e.ops;
    }

    /** `shutil.rmtree(path)`. */
    method RmTree(path: string) returns (s: Result<()>)
      modifies this
      ensures var e := RmTreeStep(old(entries), path);
        s == e.status && entries == e.entries && log == old(log) + e.ops
    {
      var e := RmTreeStep(entries, path);
      s, entries, log := e.status, e.entries, log + e.ops;
    }

    /** `Repo(path).heads[branch].checkout()`. */
    method Checkout(path: string, branch: string) returns (s: Result<()>)
      modifies this
      ensures var e := CheckoutStep(old(entries), path, branch);
        s == e.status && entries == e.entries && log == old(log) + e.ops
    {
      var e := CheckoutStep(entries, path, branch);
      s, entries, log := e.status, e.entries, log + e.ops;
    }

    /** `repo.head.reset("origin/" + branch, index=True, working_tree=True)`. */
    method Reset(path: string, branch: string) returns (s: Result<()>)
      modifies this
      ensures var e := ResetStep(old(entries), path, branch);
        s == e.status && entries == e.entries && log == old(log) + e.ops
    {
      var e := ResetStep(entries, path, branch);
      s, entries, log := e.status, e.entries, log + e.ops;
    }
  }

  /** A source tree handed to the recorder, as it was when handed over. */
  datatype Archive = Archive(path: string, tree: Entry)

  /** The process-wide recorder: whether it is recording, and the source
      trees it has been asked to compress. What compressing does is not
      modelled; the call is recorded as an event. */
  class Replay {
    var recording: bool
    var archives: seq<Archive>

    constructor (recording: bool)
      ensures this.recording == recording && archives == []
    {
      this.recording := recording;
      archives := [];
    }

    /** `is_recording()`. */
    method IsRecording() returns (b: bool)
      ensures b == recording
    {
      b := recording;
    }

    /** `compress_source(path)`: archives the tree found at `path` now. */
    method CompressSource(host: Host, path: string)
      requires path in host.entries
      modifies this
      ensures recording == old(recording)
      ensures archives == old(archives) + [Archive(path, host.entries[path])]
    {
      archives := archives + [Archive(path, host.entries[path])];
    }
  }
}
