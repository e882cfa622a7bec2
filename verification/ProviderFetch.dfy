/** Fetching a provider: checkout into a staging directory, swap by renames, roll
    back on failure. Any file operation may fail, and the process may be cut off
    between any two. */
module ProviderFetch {

  /** A directory: anything but a whole checkout is `Partial`. */
  datatype Tree = Partial(id: int, marked: bool) | Checkout(commit: string, hasConfig: bool, marked: bool)

  /** Directories by name, below the parent of the target. */
  type FileSystem = map<string, Tree>

  datatype Outcome =
    | Fetched          // success
    | Refused          // the target is not ours to replace
    | Reported         // a failure reported after cleaning up
    | Raised           // an exception nobody catches

  function Target(name: string): string { name }

  /** The staging directory; `unique` is what makes its name new. */
  function Staging(name: string, unique: string): string {
    ".fetch-" + name + "-" + unique
  }

  function Previous(name: string, unique: string): string {
    Staging(name, unique) + "-previous"
  }

  lemma PathsDiffer(name: string, unique: string)
    ensures Target(name) != Staging(name, unique) && Staging(name, unique) != Previous(name, unique)
    ensures Target(name) != Previous(name, unique)
  {
  }

  function Pinned(commit: string): Tree {
    Checkout(commit, true, true)
  }

  predicate At(fs: FileSystem, path: string, tree: Tree) {
    path in fs && fs[path] == tree
  }

  /** A checkout that was at the target is whole there or at the previous path, or
      the new one is whole at the target. */
  predicate Safe(before: FileSystem, fs: FileSystem, name: string, unique: string, commit: string) {
    Target(name) in before ==>
      || At(fs, Target(name), before[Target(name)])
      || At(fs, Previous(name, unique), before[Target(name)])
      || At(fs, Target(name), Pinned(commit))
  }

  function Own(name: string, unique: string): set<string> {
    {Target(name), Staging(name, unique), Previous(name, unique)}
  }

  ghost predicate Agree(a: FileSystem, b: FileSystem, but: set<string>) {
    forall p {:trigger p in a} {:trigger p in b} | p !in but :: (p in a <==> p in b) && (p in a ==> a[p] == b[p])
  }

  /** Nothing outside the three paths changes. */
  ghost predicate OthersKept(before: FileSystem, fs: FileSystem, name: string, unique: string) {
    Agree(before, fs, Own(name, unique))
  }

  predicate SameAt(before: FileSystem, fs: FileSystem, path: string) {
    if path in before then At(fs, path, before[path]) else path !in fs
  }

  /** Where an exception leaves things: nothing moved, or the previous checkout moved
      away whole and nothing put in its place, or the new one in its place. */
  predicate Stranded(before: FileSystem, fs: FileSystem, name: string, unique: string, commit: string) {
    || (SameAt(before, fs, Target(name)) && Previous(name, unique) !in fs)
    || (Target(name) in before && Target(name) !in fs && At(fs, Previous(name, unique), before[Target(name)]))
    || (Target(name) in before && At(fs, Target(name), Pinned(commit)))
  }

  class Fetcher {
    var fs: FileSystem

    /** Every state since the start of the fetch, in order. */
    ghost var trace: seq<FileSystem>

    /** Operations that failed, a fetch of something other than the pinned provider among them. */
    ghost var failures: nat

    const name: string
    const unique: string
    const commit: string

    constructor (fs: FileSystem, name: string, unique: string, commit: string)
      ensures this.fs == fs && this.trace == [fs] && failures == 0
      ensures this.name == name && this.unique == unique && this.commit == commit
    {
      this.fs, this.trace, this.failures := fs, [fs], 0;
      this.name, this.unique, this.commit := name, unique, commit;
    }

    /** All states so far are safe, the current one among them. */
    ghost predicate Sound(before: FileSystem)
      reads this
    {
      && trace != [] && trace[0] == before && trace[|trace| - 1] == fs
      && (forall k | 0 <= k < |trace| :: Safe(before, trace[k], name, unique, commit))
      && (forall k | 0 <= k < |trace| :: OthersKept(before, trace[k], name, unique))
    }

    /** One atomic change of the file system. */
    method Change(ghost before: FileSystem, next: FileSystem)
      requires Sound(before) && Safe(before, next, name, unique, commit) && OthersKept(before, next, name, unique)
      modifies this`fs, this`trace
      ensures Sound(before) && fs == next && trace == old(trace) + [next]
    {
      fs := next;
      trace := trace + [next];
    }

    /** Write into the staging directory, in any number of steps. */
    method Scribble(ghost before: FileSystem)
      requires Sound(before) && Staging(name, unique) in fs
      modifies this`fs, this`trace
      ensures Sound(before) && Staging(name, unique) in fs
      ensures Agree(old(fs), fs, {Staging(name, unique)})
    {
      PathsDiffer(name, unique);
      var steps: nat := *;
      while steps > 0
        invariant Sound(before) && Staging(name, unique) in fs
        invariant Agree(old(fs), fs, {Staging(name, unique)})
      {
        var id, marked := *, *;
        Change(before, fs[Staging(name, unique) := Partial(id, marked)]);
        steps := steps - 1;
      }
    }

    /** `_fetch_revision`: some commit checked out, or a failure midway. */
    method FetchRevision(ghost before: FileSystem) returns (ok: bool, head: string)
      requires Sound(before) && Staging(name, unique) in fs
      modifies this
      ensures Sound(before) && Staging(name, unique) in fs
      ensures Agree(old(fs), fs, {Staging(name, unique)})
      ensures failures == old(failures) + if ok then 0 else 1
      ensures ok ==> exists hasConfig :: At(fs, Staging(name, unique), Checkout(head, hasConfig, false))
    {
      PathsDiffer(name, unique);
      Scribble(before);
      ok, head := *, *;
      if ok {
        var hasConfig := *;
        Change(before, fs[Staging(name, unique) := Checkout(head, hasConfig, false)]);
        assert At(fs, Staging(name, unique), Checkout(head, hasConfig, false));
      } else {
        failures := failures + 1;
      }
    }

    /** Remove a directory piece by piece; on failure some of it may remain. */
    method RemoveTree(ghost before: FileSystem, path: string) returns (ok: bool)
      requires Sound(before) && path in fs
      requires path in {Staging(name, unique), Previous(name, unique)}
      requires path == Previous(name, unique) ==> At(fs, Target(name), Pinned(commit))
      requires path == Staging(name, unique) ==> SameAt(before, fs, Target(name))
      modifies this
      ensures Sound(before) && Agree(old(fs), fs, {path})
      ensures ok ==> path !in fs
      ensures failures == old(failures) + if ok then 0 else 1
    {
      PathsDiffer(name, unique);
      ghost var start := fs;
      var steps: nat := *;
      while steps > 0
        invariant Sound(before) && path in fs && Agree(start, fs, {path})
        invariant SameAt(start, fs, Target(name)) && failures == old(failures)
      {
        var id, marked := *, *;
        Change(before, fs[path := Partial(id, marked)]);
        steps := steps - 1;
      }
      ok := *;
      if ok {
        Change(before, fs - {path});
      } else {
        failures := failures + 1;
      }
    }

    /** An atomic rename to a free path. */
    method Rename(ghost before: FileSystem, source: string, target: string) returns (ok: bool)
      requires Sound(before) && source in fs && target !in fs && source != target
      requires var next := (fs - {source})[target := fs[source]];
               Safe(before, next, name, unique, commit) && OthersKept(before, next, name, unique)
      modifies this
      ensures failures == old(failures) + if ok then 0 else 1
      ensures Sound(before) && fs == if ok then (old(fs) - {source})[target := old(fs)[source]] else old(fs)
    {
      ok := *;
      if ok {
        Change(before, (fs - {source})[target := fs[source]]);
      } else {
        failures := failures + 1;
      }
    }

    /** `fetch_cmd` from the look at the target to the end. Whatever fails, and
        wherever it is cut off, no previous checkout is lost and nothing else is
        touched. It succeeds exactly when nothing fails, and then leaves exactly the
        pinned commit at the target; a reported failure leaves there exactly what
        was there before. */
    method Fetch() returns (outcome: Outcome)
      requires trace == [fs] && failures == 0
      requires Staging(name, unique) !in fs && Previous(name, unique) !in fs
      modifies this
      ensures forall k | 0 <= k < |trace| :: Safe(old(fs), trace[k], name, unique, commit)
      ensures forall k | 0 <= k < |trace| :: OthersKept(old(fs), trace[k], name, unique)
      ensures trace != [] && trace[0] == old(fs) && trace[|trace| - 1] == fs
      ensures outcome == Refused <==> Target(name) in old(fs) && !old(fs)[Target(name)].marked
      ensures outcome == Refused ==> trace == old(trace)
      ensures outcome == Fetched <==> outcome != Refused && failures == 0
      ensures outcome == Fetched ==> fs == old(fs)[Target(name) := Pinned(commit)]
      ensures outcome == Reported ==> SameAt(old(fs), fs, Target(name)) && Previous(name, unique) !in fs
      ensures outcome == Raised ==> Stranded(old(fs), fs, name, unique, commit)
    {
      ghost var before := fs;
      if Target(name) in fs && !fs[Target(name)].marked {
        return Refused;
      }
      var staged;
      staged, outcome := Stage(before);
      if staged {
        outcome := Swap(before);
      }
    }

    /** Up to the marked staging directory; the outcome counts when it is not reached. */
    method Stage(ghost before: FileSystem) returns (staged: bool, outcome: Outcome)
      requires Sound(before) && fs == before && Staging(name, unique) !in fs && Previous(name, unique) !in fs
      requires failures == 0
      modifies this
      ensures Sound(before) && (staged <==> failures == 0)
      ensures staged ==> fs == before[Staging(name, unique) := Pinned(commit)]
      ensures !staged ==> outcome == Reported || outcome == Raised
      ensures SameAt(before, fs, Target(name)) && Previous(name, unique) !in fs
    {
      PathsDiffer(name, unique);
      var staging := Staging(name, unique);
      var created := *;
      if !created {
        failures := failures + 1;
        return false, Raised;
      }
      Change(before, fs[staging := Partial(0, false)]);
      var ok, head := FetchRevision(before);
      var caught := *;
      if !ok && !caught {
        return false, Raised;
      }
      if !ok || head != commit || !HasConfig(fs[staging]) {
        failures := failures + 1;
        ok := RemoveTree(before, staging);
        return false, Reported;
      }
      var marked := *;
      if !marked {
        failures := failures + 1;
        return false, Raised;
      }
      Change(before, fs[staging := Pinned(commit)]);
      return true, Raised;
    }

    predicate HasConfig(tree: Tree) {
      tree.Checkout? && tree.hasConfig
    }

    /** The renames. */
    method Swap(ghost before: FileSystem) returns (outcome: Outcome)
      requires Sound(before) && Staging(name, unique) !in before && Previous(name, unique) !in before
      requires fs == before[Staging(name, unique) := Pinned(commit)] && failures == 0
      modifies this
      ensures Sound(before) && outcome != Refused && (outcome == Fetched <==> failures == 0)
      ensures outcome == Fetched ==> fs == before[Target(name) := Pinned(commit)]
      ensures outcome == Reported ==> SameAt(before, fs, Target(name)) && Previous(name, unique) !in fs
      ensures outcome == Raised ==> Stranded(before, fs, name, unique, commit)
    {
      PathsDiffer(name, unique);
      var target, staging, previous := Target(name), Staging(name, unique), Previous(name, unique);
      var hadTarget := target in fs;
      if hadTarget {
        var ok := Rename(before, target, previous);
        if !ok {
          return Raised;
        }
      }
      var ok := Rename(before, staging, target);
      if !ok {
        if hadTarget {
          var back := Rename(before, previous, target);
          if !back {
            return Raised;
          }
        }
        assert SameAt(before, fs, target);
        var removed := RemoveTree(before, staging);
        return Reported;
      }
      if hadTarget {
        var removed := RemoveTree(before, previous);
        if !removed {
          return Raised;
        }
      }
      assert fs == before[target := Pinned(commit)];
      return Fetched;
    }
  }
}
