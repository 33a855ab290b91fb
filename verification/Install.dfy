/**
 Staging an update on disk (internal/update/manager.go): whatever step the
 process stops at, the state names only versions whose binary is there.
 */
module Install {
  import opened Basics
  import opened Launcher

  datatype Snapshot = Snapshot(stored: State, binaries: set<string>)

  /** Both slots of the stored state have their binary. */
  predicate Complete(s: Snapshot) {
    && (s.stored.current.Some? ==> s.stored.current.value.version in s.binaries)
    && (s.stored.previous.Some? ==> s.stored.previous.value.version in s.binaries)
  }

  function Kept(st: State): set<string> {
    (if st.current.Some? then {st.current.value.version} else {}) + (if st.previous.Some? then {st.previous.value.version} else {})
  }

  /** Which of the steps of an install work. */
  datatype Works = Works(dir: bool, written: bool, renamed: bool, runs: bool, accepts: bool, backedUp: bool, loaded: bool, saved: bool)

  class Disk {
    var stored: State              // state.json, replaced in one rename
    var dirs: set<string>          // staged version directories
    var binaries: set<string>      // those that hold a whole binary
    const isRelease: string -> bool
    ghost var past: seq<Snapshot>  // what a reader would have found after each change

    constructor (stored: State, dirs: set<string>, binaries: set<string>, isRelease: string -> bool)
      ensures this.stored == stored && this.dirs == dirs && this.binaries == binaries && this.isRelease == isRelease
      ensures past == [Snapshot(stored, binaries)]
    {
      this.stored, this.dirs, this.binaries, this.isRelease := stored, dirs, binaries, isRelease;
      past := [Snapshot(stored, binaries)];
    }

    method MakeDir(version: string)
      modifies this
      ensures dirs == old(dirs) + {version} && stored == old(stored) && binaries == old(binaries)
      ensures past == old(past) + [Snapshot(stored, binaries)]
    {
      dirs := dirs + {version};
      past := past + [Snapshot(stored, binaries)];
    }

    /** The finished temporary file takes the binary's name; a binary already there stays until that moment. */
    method RenameIn(version: string)
      modifies this
      ensures dirs == old(dirs) && stored == old(stored) && binaries == old(binaries) + {version}
      ensures past == old(past) + [Snapshot(stored, binaries)]
    {
      binaries := binaries + {version};
      past := past + [Snapshot(stored, binaries)];
    }

    method Save(st: State)
      modifies this
      ensures dirs == old(dirs) && stored == st && binaries == old(binaries)
      ensures past == old(past) + [Snapshot(stored, binaries)]
    {
      stored := st;
      past := past + [Snapshot(stored, binaries)];
    }

    method RemoveDir(version: string)
      modifies this
      ensures dirs == old(dirs) - {version} && stored == old(stored) && binaries == old(binaries) - {version}
      ensures past == old(past) + [Snapshot(stored, binaries)]
    {
      dirs, binaries := dirs - {version}, binaries - {version};
      past := past + [Snapshot(stored, binaries)];
    }

    ghost predicate AlwaysComplete(from: nat)
      reads this
    {
      forall i :: from <= i < |past| ==> Complete(past[i])
    }

    /** Takes the directories one by one in no fixed order: releases outside Kept go, except where that is refused. */
    method Prune(removable: string -> bool)
      requires Complete(Snapshot(stored, binaries)) && binaries <= dirs
      modifies this
      ensures stored == old(stored) && binaries <= dirs
      ensures |past| >= |old(past)| && past[..|old(past)|] == old(past) && AlwaysComplete(|old(past)|)
      ensures Complete(Snapshot(stored, binaries))
      ensures dirs == old(set v | v in dirs && !(isRelease(v) && v !in Kept(stored) && removable(v)))
      ensures binaries == old(binaries) * dirs
    {
      var keep := Kept(stored);
      var todo := dirs;
      while todo != {}
        invariant stored == old(stored) && binaries <= dirs && todo <= old(dirs)
        invariant |past| >= |old(past)| && past[..|old(past)|] == old(past) && AlwaysComplete(|old(past)|)
        invariant Complete(Snapshot(stored, binaries))
        invariant forall v :: v in dirs <==> v in old(dirs) && (v in todo || !(isRelease(v) && v !in keep && removable(v)))
        invariant binaries == old(binaries) * dirs
        decreases todo
      {
        var v :| v in todo;
        todo := todo - {v};
        if isRelease(v) && v !in keep && removable(v) {
          RemoveDir(v);
        }
      }
    }

    /** Everything so far was complete, and nothing earlier was changed. */
    twostate predicate StillComplete()
      reads this
    {
      && |past| >= |old(past)| && past[..|old(past)|] == old(past) && AlwaysComplete(|old(past)|)
      && Complete(Snapshot(stored, binaries)) && binaries <= dirs
    }

    /** Puts the binary next to the others. */
    method Stage(version: string, w: Works) returns (ok: bool)
      requires Complete(Snapshot(stored, binaries)) && binaries <= dirs
      modifies this
      ensures StillComplete() && stored == old(stored)
      ensures ok <==> w.dir && w.written && w.renamed
      ensures binaries == if ok then old(binaries) + {version} else old(binaries)
      ensures dirs == if w.dir then old(dirs) + {version} else old(dirs)
    {
      // MkdirAll, WriteFile to the temporary name
      if !w.dir { return false; }
      MakeDir(version);
      if !w.written || !w.renamed { return false; }
      RenameIn(version);
      return true;
    }

    /** install from the point where the download is verified. */
    method StageAndApply(version: string, now: int, w: Works, removable: string -> bool) returns (ok: bool)
      requires Complete(Snapshot(stored, binaries)) && binaries <= dirs
      modifies this
      ensures StillComplete()
      ensures ok <==> w.dir && w.written && w.renamed && w.runs && w.accepts && w.backedUp && w.loaded && w.saved
      ensures stored == if ok then Applied(old(stored), version, now) else old(stored)
      ensures ok ==> version in binaries
      ensures ok ==> dirs == old(set v | v in dirs + {version} && !(isRelease(v) && v !in Kept(Applied(stored, version, now)) && removable(v)))
      ensures !ok ==> dirs == if w.dir then old(dirs) + {version} else old(dirs)
    {
      ok := Stage(version, w);
      // it must run here, accept the config, and the database must be backed up
      if !ok || !w.runs || !w.accepts || !w.backedUp || !w.loaded { return false; }
      if !w.saved { return false; }
      ghost var staged := past;
      Save(Applied(stored, version, now));
      assert past[..|staged|] == staged;
      ghost var saved := past;
      Prune(removable);
      assert past[..|staged|] == saved[..|staged|];
      assert version in dirs;
    }
  }
}
