/** The install transaction: marker, backups, installation, rollback, with a
    failure or a crash possible at every file-system operation. */
module Transaction {

  datatype Artifact = Packages | Autoload | Lock | Manifest | State

  /** The identity of a file's or a tree's contents. */
  type Content = nat

  /** The artifacts that exist, with their contents. */
  type Files = map<Artifact, Content>

  const ARTIFACTS := [Packages, Autoload, Lock, Manifest, State]

  lemma EveryArtifactIsListed(a: Artifact)
    ensures a in ARTIFACTS
  {
    assert ARTIFACTS[0] == Packages && ARTIFACTS[1] == Autoload && ARTIFACTS[2] == Lock;
    assert ARTIFACTS[3] == Manifest && ARTIFACTS[4] == State;
  }

  ghost predicate Same(current: Files, before: Files, a: Artifact) {
    (a in current <==> a in before) && (a in before ==> current[a] == before[a])
  }

  /** The two differ at most at `a`. */
  ghost predicate SameExcept(files: Files, before: Files, a: Artifact) {
    && (forall b :: b != a ==> (b in files <==> b in before))
    && (forall b :: b != a && b in before ==> files[b] == before[b])
  }

  /** The set one command stages, each artifact under its own name: all but the
      manifest always, the manifest when the command edits it. */
  type Payload = files: Files | {Packages, Autoload, Lock, State} <= files.Keys
    witness map[Packages := 0, Autoload := 0, Lock := 0, State := 0]

  // ----- The file system -----

  datatype Fault = Works | Fails | Crashes

  /** The paths the transaction touches. A failed or interrupted rename, link or
      removal of one file has no effect; a failed or interrupted write or
      recursive removal leaves anything at its path. After a crash nothing changes. */
  class FileSystem {
    var current: Files
    var backup: Files
    var marker: bool
    var alive: bool
    /** How many operations failed or were interrupted so far. */
    ghost var faults: nat

    /** No fault since the old state: the process runs and `worked` holds. */
    twostate predicate Smooth(worked: bool)
      reads this
    {
      faults >= old(faults) && (faults == old(faults) && old(alive) ==> alive && worked)
    }

    constructor (files: Files)
      ensures current == files && backup == map[] && !marker && alive
    {
      current, backup, marker, alive, faults := files, map[], false, true, 0;
    }

    /** The next process starts. */
    method Restart()
      modifies this`alive
      ensures alive
    {
      alive := true;
    }

    /** Any operation that reads, or writes where nothing else looks. */
    method Touch() returns (ok: bool)
      modifies this`alive, this`faults
      ensures ok ==> old(alive) && alive
      ensures Smooth(ok)
      ensures !old(alive) ==> !alive
    {
      var fault: Fault := *;
      ok := alive && fault.Works?;
      alive := alive && !fault.Crashes?;
      faults := if fault.Works? then faults else faults + 1;
    }

    method MoveToBackup(a: Artifact) returns (ok: bool)
      modifies this`current, this`backup, this`alive, this`faults
      ensures ok ==> a in old(current) && current == old(current) - {a} && backup == old(backup)[a := old(current)[a]]
      ensures !ok ==> current == old(current) && backup == old(backup)
      ensures ok ==> old(alive) && alive
      ensures Smooth(a in old(current) && !(a == Packages && a in old(backup)) ==> ok)
      ensures !old(alive) ==> !alive
    {
      ok := Touch();
      if a !in current || (a == Packages && a in backup) {
        ok := false;
      }
      if ok {
        backup := backup[a := current[a]];
        current := current - {a};
      }
    }

    method LinkToBackup(a: Artifact) returns (ok: bool)
      modifies this`backup, this`alive, this`faults
      ensures ok ==> a in current && backup == old(backup)[a := current[a]]
      ensures !ok ==> backup == old(backup)
      ensures ok ==> old(alive) && alive
      ensures Smooth(a in current && a !in old(backup) ==> ok)
      ensures !old(alive) ==> !alive
    {
      ok := Touch();
      if a !in current || a in backup {
        ok := false;
      }
      if ok {
        backup := backup[a := current[a]];
      }
    }

    method MoveFromBackup(a: Artifact) returns (ok: bool)
      modifies this`current, this`backup, this`alive, this`faults
      ensures ok ==> a in old(backup) && current == old(current)[a := old(backup)[a]] && backup == old(backup) - {a}
      ensures !ok ==> current == old(current) && backup == old(backup)
      ensures ok ==> old(alive) && alive
      ensures Smooth(a in old(backup) && !(a == Packages && a in old(current)) ==> ok)
      ensures !old(alive) ==> !alive
    {
      ok := Touch();
      if a !in backup || (a == Packages && a in current) {
        ok := false;
      }
      if ok {
        current := current[a := backup[a]];
        backup := backup - {a};
      }
    }

    /** Renames a staged file or directory into place. */
    method MoveFromStage(a: Artifact, content: Content) returns (ok: bool)
      modifies this`current, this`alive, this`faults
      ensures ok ==> current == old(current)[a := content]
      ensures !ok ==> current == old(current)
      ensures ok ==> old(alive) && alive
      ensures Smooth(!(a == Packages && a in old(current)) ==> ok)
      ensures !old(alive) ==> !alive
    {
      ok := Touch();
      if a == Packages && a in current {
        ok := false;
      }
      if ok {
        current := current[a := content];
      }
    }

    method WriteCurrent(a: Artifact, content: Content) returns (ok: bool)
      modifies this`current, this`alive, this`faults
      ensures ok ==> current == old(current)[a := content]
      ensures SameExcept(current, old(current), a)
      ensures !old(alive) ==> current == old(current)
      ensures ok ==> old(alive) && alive
      ensures Smooth(ok)
      ensures !old(alive) ==> !alive
    {
      var was := alive;
      ok := Touch();
      if ok {
        current := current[a := content];
      } else if was {
        var torn: Content := *;
        var untouched: bool := *;
        current := if untouched then current else current[a := torn];
      }
    }

    method RemoveCurrent(a: Artifact) returns (ok: bool)
      modifies this`current, this`alive, this`faults
      ensures ok ==> current == old(current) - {a}
      ensures SameExcept(current, old(current), a)
      ensures !ok && (a != Packages || !old(alive)) ==> current == old(current)
      ensures ok ==> old(alive) && alive
      ensures Smooth(ok)
      ensures !old(alive) ==> !alive
    {
      var was := alive;
      ok := Touch();
      if ok {
        current := current - {a};
      } else if was && a == Packages && a in current {
        var torn: Content := *;
        current := current[a := torn];
      }
    }

    method RemoveBackup(a: Artifact) returns (ok: bool)
      modifies this`backup, this`alive, this`faults
      ensures ok ==> backup == old(backup) - {a}
      ensures SameExcept(backup, old(backup), a)
      ensures !old(alive) ==> backup == old(backup)
      ensures ok ==> old(alive) && alive
      ensures Smooth(ok)
      ensures !old(alive) ==> !alive
    {
      var was := alive;
      ok := Touch();
      if ok {
        backup := backup - {a};
      } else if was && a == Packages && a in backup {
        var torn: Content := *;
        backup := backup[a := torn];
      }
    }

    method WriteMarker() returns (ok: bool)
      modifies this`marker, this`alive, this`faults
      ensures ok ==> marker
      ensures !old(alive) ==> marker == old(marker)
      ensures old(marker) ==> marker
      ensures ok ==> old(alive) && alive
      ensures Smooth(ok)
      ensures !old(alive) ==> !alive
    {
      var was := alive;
      ok := Touch();
      if ok {
        marker := true;
      } else if was {
        var created: bool := *;
        marker := marker || created;
      }
    }

    /** Fails when there is no marker, as removing a missing file does. */
    method RemoveMarkerFile() returns (ok: bool)
      modifies this`marker, this`alive, this`faults
      ensures ok ==> !marker
      ensures !ok ==> marker == old(marker)
      ensures ok ==> old(alive) && alive
      ensures Smooth(old(marker) ==> ok)
      ensures !old(alive) ==> !alive
    {
      ok := Touch();
      if !marker {
        ok := false;
      }
      if ok {
        marker := false;
      }
    }

    /** Removes the marker if it is there. */
    method RemoveMarkerPath() returns (ok: bool)
      modifies this`marker, this`alive, this`faults
      ensures ok ==> !marker
      ensures !ok ==> marker == old(marker)
      ensures ok ==> old(alive) && alive
      ensures Smooth(ok)
      ensures !old(alive) ==> !alive
    {
      ok := Touch();
      if ok {
        marker := false;
      }
    }
  }

  // ----- What a commit keeps true -----

  /** Each artifact of `before` is safe: as its backup, or untouched where it
      was; and nothing that did not exist has a backup. */
  ghost predicate Guarded(current: Files, backup: Files, before: Files, changesManifest: bool) {
    && (forall a :: a in before && a !in backup ==> a in current && current[a] == before[a])
    && (forall a :: a in backup ==> a in before && backup[a] == before[a])
    && (!changesManifest ==> Manifest !in backup && Same(current, before, Manifest))
  }

  /** Every artifact that had to be backed up is. */
  ghost predicate BackedUp(backup: Files, before: Files, changesManifest: bool) {
    forall a :: a in before && (a != Manifest || changesManifest) ==> a in backup && backup[a] == before[a]
  }

  /** Every artifact of `before` still exists, as its current copy or its backup. */
  ghost predicate Recoverable(fs: FileSystem, before: Files)
    reads fs
  {
    forall a :: a in before ==>
      (a in fs.current && fs.current[a] == before[a]) || (a in fs.backup && fs.backup[a] == before[a])
  }

  /** Crash safety: without a marker the artifacts are one whole set or the
      other; with one, nothing of the old set is lost. */
  ghost predicate CrashSafe(fs: FileSystem, before: Files, after: Files)
    reads fs
  {
    if fs.marker then Recoverable(fs, before) else fs.current == before || fs.current == after
  }

  lemma SameEverywhere(current: Files, before: Files)
    requires forall a: Artifact :: Same(current, before, a)
    ensures current == before
  {
    assert current.Keys == before.Keys by {
      forall a: Artifact
        ensures a in current <==> a in before
      {
        assert Same(current, before, a);
      }
    }
    forall a | a in current
      ensures current[a] == before[a]
    {
      assert Same(current, before, a);
    }
  }

  /** Which return of `commit` was taken. */
  datatype Outcome = Committed | NotStarted | RolledBack | RollbackFailed | NotSynced

  datatype Plan = Plan(previous: set<Artifact>, changesManifest: bool)

  /** The artifacts to back up: those that exist, the manifest only when it changes. */
  method RecordPrevious(fs: FileSystem, changesManifest: bool) returns (ok: bool, plan: Plan)
    modifies fs`alive, fs`faults
    ensures ok ==> plan.changesManifest == changesManifest
    ensures ok ==> forall a :: a in plan.previous <==> a in fs.current && (a != Manifest || changesManifest)
    ensures fs.Smooth(ok)
    ensures !old(fs.alive) ==> !fs.alive
  {
    var previous: set<Artifact> := {};
    plan := Plan({}, changesManifest);
    for k := 0 to |ARTIFACTS|
      invariant forall a :: a in previous <==>
                  a in ARTIFACTS[..k] && a in fs.current && (a != Manifest || changesManifest)
      invariant !old(fs.alive) ==> !fs.alive
      invariant fs.Smooth(true)
    {
      var artifact := ARTIFACTS[k];
      if artifact != Manifest || changesManifest {
        ok := fs.Touch();
        if !ok {
          return false, plan;
        }
        if artifact in fs.current {
          previous := previous + {artifact};
        }
      }
    }
    forall a: Artifact {
      EveryArtifactIsListed(a);
    }
    assert ARTIFACTS[..|ARTIFACTS|] == ARTIFACTS;
    return true, Plan(previous, changesManifest);
  }

  ghost predicate PlanFor(plan: Plan, before: Files) {
    forall a :: a in plan.previous <==> a in before && (a != Manifest || plan.changesManifest)
  }

  /** What was backed up, but for the linked manifest, is no longer in place. */
  ghost predicate MovedOut(current: Files, backup: Files, before: Files) {
    && (forall a :: a in current <==> a in before && (a == Manifest || a !in backup))
    && (forall a :: a in current ==> current[a] == before[a])
    && (forall a :: a in backup ==> a in before && backup[a] == before[a])
  }

  method BackUp(fs: FileSystem, plan: Plan, ghost before: Files) returns (ok: bool)
    requires fs.backup == map[] && fs.current == before && PlanFor(plan, before)
    modifies fs`current, fs`backup, fs`alive, fs`faults
    ensures Guarded(fs.current, fs.backup, before, plan.changesManifest)
    ensures ok ==> BackedUp(fs.backup, before, plan.changesManifest)
    ensures ok ==> fs.current == before - (plan.previous - {Manifest})
    ensures fs.Smooth(ok)
    ensures !old(fs.alive) ==> !fs.alive
  {
    ok := true;
    for k := 0 to |ARTIFACTS|
      invariant MovedOut(fs.current, fs.backup, before) && fs.backup.Keys <= plan.previous
      invariant forall a :: a in fs.backup <==> a in ARTIFACTS[..k] && a in plan.previous
      invariant !old(fs.alive) ==> !fs.alive
      invariant fs.Smooth(true)
    {
      assert ARTIFACTS[..k + 1] == ARTIFACTS[..k] + [ARTIFACTS[k]] && ARTIFACTS[k] !in ARTIFACTS[..k];
      if ARTIFACTS[k] in plan.previous {
        ok := BackUpOne(fs, ARTIFACTS[k], before);
        if !ok { return; }
      }
    }
    forall a: Artifact
      ensures a in fs.backup <==> a in plan.previous
    {
      EveryArtifactIsListed(a);
    }
    SameEverywhere(fs.current, before - (plan.previous - {Manifest}));
  }

  /** The manifest is linked, so that it stays in place; the rest is renamed. */
  method BackUpOne(fs: FileSystem, artifact: Artifact, ghost before: Files) returns (ok: bool)
    requires MovedOut(fs.current, fs.backup, before)
    modifies fs`current, fs`backup, fs`alive, fs`faults
    ensures MovedOut(fs.current, fs.backup, before)
    ensures fs.backup.Keys == old(fs.backup.Keys) + if ok then {artifact} else {}
    ensures fs.Smooth(artifact in old(fs.current) && artifact !in old(fs.backup) ==> ok)
    ensures !old(fs.alive) ==> !fs.alive
  {
    if artifact == Manifest {
      ok := fs.LinkToBackup(artifact);
    } else {
      ok := fs.MoveToBackup(artifact);
    }
  }

  /** Moves and writes the staged set into place, piece by piece. */
  method Install(fs: FileSystem, payload: Payload) returns (ok: bool)
    modifies fs`current, fs`alive, fs`faults
    ensures Manifest !in payload ==> Same(fs.current, old(fs.current), Manifest)
    ensures ok ==> fs.current == old(fs.current) + payload
    ensures fs.Smooth(Packages !in old(fs.current) ==> ok)
    ensures !old(fs.alive) ==> !fs.alive
  {
    ok := fs.MoveFromStage(Packages, payload[Packages]);
    if !ok { return; }
    ok := fs.MoveFromStage(Autoload, payload[Autoload]);
    if !ok { return; }
    ok := fs.Touch();
    if !ok { return; }
    ok := fs.WriteCurrent(Lock, payload[Lock]);
    if !ok { return; }
    if Manifest in payload {
      ok := fs.MoveFromStage(Manifest, payload[Manifest]);
      if !ok { return; }
    }
    ok := fs.Touch();
    if !ok { return; }
    ok := fs.WriteCurrent(State, payload[State]);
    if ok {
      PiecesAreWhole(old(fs.current), payload, fs.current);
    }
  }

  /** Setting each staged artifact in turn installs the whole set. */
  lemma PiecesAreWhole(before: Files, payload: Payload, files: Files)
    requires var most := before[Packages := payload[Packages]][Autoload := payload[Autoload]][Lock := payload[Lock]];
             var all := if Manifest in payload then most[Manifest := payload[Manifest]] else most;
             files == all[State := payload[State]]
    ensures files == before + payload
  {
    var after := before + payload;
    forall a: Artifact
      ensures Same(files, after, a)
    {
      match a {
        case Packages => assert Packages in payload;
        case Autoload => assert Autoload in payload;
        case Lock => assert Lock in payload;
        case State => assert State in payload;
        case Manifest =>
      }
    }
    SameEverywhere(files, after);
  }

  /** Backs up, then installs, syncing directories in between. */
  method Apply(fs: FileSystem, plan: Plan, payload: Payload, ghost before: Files) returns (ok: bool)
    requires fs.backup == map[] && fs.current == before && PlanFor(plan, before)
    requires plan.changesManifest == (Manifest in payload)
    modifies fs`current, fs`backup, fs`alive, fs`faults
    ensures Guarded(fs.current, fs.backup, before, plan.changesManifest)
    ensures ok ==> fs.current == before + payload
    ensures fs.Smooth(ok)
    ensures !old(fs.alive) ==> !fs.alive
  {
    ok := BackUp(fs, plan, before);
    if !ok { return; }
    ok := fs.Touch();
    if !ok { return; }
    ghost var emptied := fs.current;
    ok := Install(fs, payload);
    assert ok ==> emptied + payload == before + payload by {
      InstalledOverRemainder(payload, before, plan);
    }
    if !ok { return; }
    ok := fs.Touch();
  }

  /** Installation overwrites everything that was moved out of the way. */
  lemma InstalledOverRemainder(payload: Payload, before: Files, plan: Plan)
    requires PlanFor(plan, before)
    ensures before - (plan.previous - {Manifest}) + payload == before + payload
  {
    var left, right := before - (plan.previous - {Manifest}) + payload, before + payload;
    forall a: Artifact
      ensures Same(left, right, a)
    {
    }
    SameEverywhere(left, right);
  }

  /** Puts every backup back, removes what did not exist, then the marker. */
  method Restore(fs: FileSystem, plan: Plan, ghost before: Files) returns (ok: bool)
    requires Guarded(fs.current, fs.backup, before, plan.changesManifest) && PlanFor(plan, before)
    modifies fs
    ensures Guarded(fs.current, fs.backup, before, plan.changesManifest)
    ensures fs.marker == old(fs.marker) || (!fs.marker && fs.current == before)
    ensures ok ==> fs.current == before && fs.backup == map[] && !fs.marker && fs.alive
    ensures fs.Smooth(ok)
    ensures !old(fs.alive) ==> !fs.alive
  {
    for k := 0 to |ARTIFACTS|
      invariant Guarded(fs.current, fs.backup, before, plan.changesManifest)
      invariant forall a :: a in ARTIFACTS[..k] ==> a !in fs.backup && Same(fs.current, before, a)
      invariant fs.marker == old(fs.marker)
      invariant !old(fs.alive) ==> !fs.alive
      invariant fs.Smooth(true)
    {
      var artifact := ARTIFACTS[k];
      assert artifact !in ARTIFACTS[..k];
      assert ARTIFACTS[..k + 1] == ARTIFACTS[..k] + [artifact];
      if artifact != Manifest || plan.changesManifest {
        ok := RestoreOne(fs, artifact, plan, before);
        if !ok { return; }
      }
    }
    assert ARTIFACTS[..|ARTIFACTS|] == ARTIFACTS;
    forall a: Artifact
      ensures a !in fs.backup && Same(fs.current, before, a)
    {
      EveryArtifactIsListed(a);
    }
    SameEverywhere(fs.current, before);
    assert fs.backup == map[];
    ok := fs.Touch();
    if !ok { return; }
    ok := fs.RemoveMarkerPath();
    if !ok { return; }
    ok := fs.Touch();
  }

  method RestoreOne(fs: FileSystem, artifact: Artifact, plan: Plan, ghost before: Files) returns (ok: bool)
    requires Guarded(fs.current, fs.backup, before, plan.changesManifest) && PlanFor(plan, before)
    requires artifact != Manifest || plan.changesManifest
    modifies fs`current, fs`backup, fs`alive, fs`faults
    ensures Guarded(fs.current, fs.backup, before, plan.changesManifest)
    ensures ok ==> artifact !in fs.backup && Same(fs.current, before, artifact)
    ensures SameExcept(fs.current, old(fs.current), artifact)
    ensures SameExcept(fs.backup, old(fs.backup), artifact)
    ensures fs.Smooth(ok)
    ensures !old(fs.alive) ==> !fs.alive
  {
    ok := fs.Touch();
    if !ok { return; }
    if artifact in fs.backup {
      ok := fs.RemoveCurrent(artifact);
      if !ok { return; }
      ok := fs.MoveFromBackup(artifact);
    } else if artifact !in plan.previous {
      ok := fs.RemoveCurrent(artifact);
    }
  }

  /** Checks the stage, records what exists, and sets the marker. */
  method Begin(fs: FileSystem, payload: Payload) returns (ok: bool, plan: Plan)
    modifies fs`marker, fs`alive, fs`faults
    ensures ok ==> fs.marker && PlanFor(plan, fs.current) && plan.changesManifest == (Manifest in payload)
    ensures fs.Smooth(ok)
    ensures !old(fs.alive) ==> !fs.alive && !ok && fs.marker == old(fs.marker)
  {
    plan := Plan({}, Manifest in payload);
    ok := fs.Touch();
    if !ok { return; }
    if Manifest in payload {
      ok := fs.Touch();
      if !ok { return; }
    }
    ok, plan := RecordPrevious(fs, Manifest in payload);
    if !ok { return; }
    ok := fs.WriteMarker();
    if !ok { return; }
    ok := fs.Touch();
  }

  /** The whole protocol. Whatever fails and wherever it stops, crash safety
      holds; the outcome says which set is in place. */
  method Commit(fs: FileSystem, payload: Payload) returns (r: Outcome)
    requires fs.backup == map[] && !fs.marker
    modifies fs
    ensures CrashSafe(fs, old(fs.current), old(fs.current) + payload)
    ensures fs.marker ==> Guarded(fs.current, fs.backup, old(fs.current), Manifest in payload)
    ensures r.Committed? ==> fs.current == old(fs.current) + payload && !fs.marker
    ensures r.NotSynced? ==> fs.current == old(fs.current) + payload && !fs.marker
    ensures r.NotStarted? ==> fs.current == old(fs.current) && fs.backup == map[]
    ensures r.RolledBack? ==> fs.current == old(fs.current) && fs.backup == map[] && !fs.marker
    ensures r.RollbackFailed? && !fs.marker ==> fs.current == old(fs.current)
    ensures fs.Smooth(r.Committed? && fs.backup == map[])
    ensures !old(fs.alive) ==> fs.current == old(fs.current) && !fs.marker
  {
    ghost var before := fs.current;
    var ok, plan := Begin(fs, payload);
    if !ok { return NotStarted; }
    ok := Apply(fs, plan, payload, before);
    if !ok {
      ok := Restore(fs, plan, before);
      return if ok then RolledBack else RollbackFailed;
    }
    ok := fs.RemoveMarkerFile();
    if !ok {
      ok := Restore(fs, plan, before);
      return if ok then RolledBack else RollbackFailed;
    }
    ok := fs.Touch();
    if !ok { return NotSynced; }
    RemoveBackups(fs);
    ok := fs.Touch();
    return if ok then Committed else NotSynced;
  }

  /** Best effort after the commit point: failures are only logged. */
  method RemoveBackups(fs: FileSystem)
    modifies fs`backup, fs`alive, fs`faults
    ensures fs.Smooth(fs.backup == map[])
  {
    for k := 0 to |ARTIFACTS|
      invariant fs.Smooth(forall a :: a in ARTIFACTS[..k] ==> a !in fs.backup)
    {
      assert ARTIFACTS[..k + 1] == ARTIFACTS[..k] + [ARTIFACTS[k]];
      var _ := fs.RemoveBackup(ARTIFACTS[k]);
    }
    forall a: Artifact {
      EveryArtifactIsListed(a);
    }
    assert ARTIFACTS[..|ARTIFACTS|] == ARTIFACTS;
    assert (forall a :: a !in fs.backup) ==> fs.backup == map[];
  }

  /** Opens a project: refuses while a marker is there, then clears stale backups. */
  method Prepare(fs: FileSystem) returns (ok: bool)
    modifies fs`backup, fs`alive, fs`faults
    ensures ok ==> !fs.marker && fs.backup == map[]
    ensures fs.marker ==> !ok && fs.backup == old(fs.backup)
    ensures fs.Smooth(!fs.marker ==> ok)
  {
    ok := fs.Touch();
    if !ok || fs.marker {
      return false;
    }
    for k := 0 to |ARTIFACTS|
      invariant forall a :: a in ARTIFACTS[..k] ==> a !in fs.backup
      invariant fs.Smooth(true)
    {
      ok := fs.RemoveBackup(ARTIFACTS[k]);
      if !ok { return; }
      assert ARTIFACTS[..k + 1] == ARTIFACTS[..k] + [ARTIFACTS[k]];
    }
    assert ARTIFACTS[..|ARTIFACTS|] == ARTIFACTS;
    forall a: Artifact {
      EveryArtifactIsListed(a);
    }
    assert fs.backup == map[];
    ok := fs.Touch();
  }

  /** One command from a fresh process: open, then commit if that went well. */
  method RunCommand(fs: FileSystem, payload: Payload)
    modifies fs
    ensures CrashSafe(fs, old(fs.current), old(fs.current) + payload) || old(fs.marker)
    ensures fs.marker && !old(fs.marker) ==>
              Guarded(fs.current, fs.backup, old(fs.current), Manifest in payload)
    ensures old(fs.marker) ==> fs.marker && fs.current == old(fs.current) && fs.backup == old(fs.backup)
    ensures !old(fs.marker) && fs.faults == old(fs.faults) ==>
              fs.current == old(fs.current) + payload && !fs.marker && fs.backup == map[]
  {
    fs.Restart();
    var ready := Prepare(fs);
    if ready {
      var _ := Commit(fs, payload);
    }
  }

  /** Crash safety over whole runs. `history` lists the artifact sets between
      commands. Up to the command that leaves a marker (`interrupted`), each
      command either changed nothing or installed its whole set; the set that
      command began from is recoverable, and nothing changes after it. */
  method RunCommands(fs: FileSystem, commands: seq<Payload>) returns (ghost history: seq<Files>, ghost interrupted: nat)
    requires !fs.marker
    modifies fs
    ensures |history| == |commands| + 1 && history[0] == old(fs.current) && history[|commands|] == fs.current
    ensures forall k :: 0 <= k < interrupted && k < |commands| ==> WholeStep(history[k], commands[k], history[k + 1])
    ensures fs.marker <==> interrupted < |commands|
    ensures fs.marker ==> Recoverable(fs, history[interrupted])
    ensures fs.marker ==>
              Guarded(fs.current, fs.backup, history[interrupted], Manifest in commands[interrupted])
    ensures fs.marker ==> forall k :: interrupted < k < |history| ==> history[k] == fs.current
  {
    history, interrupted := [fs.current], |commands|;
    for k := 0 to |commands|
      invariant |history| == k + 1 && history[0] == old(fs.current) && history[k] == fs.current
      invariant forall i :: 0 <= i < interrupted && i < k ==> WholeStep(history[i], commands[i], history[i + 1])
      invariant if fs.marker then interrupted < k else interrupted == |commands|
      invariant fs.marker ==> Recoverable(fs, history[interrupted])
      invariant fs.marker ==>
                  Guarded(fs.current, fs.backup, history[interrupted], Manifest in commands[interrupted])
      invariant fs.marker ==> forall i :: interrupted < i < |history| ==> history[i] == fs.current
    {
      ghost var marked := fs.marker;
      RunCommand(fs, commands[k]);
      if fs.marker && !marked {
        interrupted := k;
      }
      history := history + [fs.current];
    }
  }

  ghost predicate WholeStep(before: Files, payload: Payload, after: Files) {
    after == before || after == before + payload
  }
}
