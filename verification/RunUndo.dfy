/** One run that never overwrites, followed by one rollback, changes nothing. */
module RunUndo {
  import opened Wrappers
  import opened FileSystem
  import opened Execution
  import opened Rollback

  /** Copies are exact or leave nothing behind, and a source copied away can be removed. Renames and
      copies may still be refused. */
  predicate Faithful(io: Io) {
    io.corrupt.None? && io.partial.None? && io.removes
  }

  ghost predicate AlwaysFaithful(env: nat -> Io) {
    forall i :: Faithful(env(i))
  }

  ghost predicate Willing(os: nat -> bool) {
    forall i :: os(i)
  }

  /** The target chosen under Skip or Rename is free. */
  lemma ResolvedIsFree(fs: Files, candidate: Path, fallback: Path, name: string, conflict: ConflictStrategy)
    requires conflict != Overwrite
    ensures var r := Resolve(fs, candidate, fallback, name, conflict); r.Use? ==> r.path !in fs
  {
    var _ := FirstFreeMeaning(fs, if candidate == [] then fallback else Parent(candidate), name, FIRST_NUMBER);
  }

  /** A faithful transfer to a free target either does nothing or does exactly what its mode says. */
  lemma TransferShape(job: Job, io: Io, digest: Digest, fs: Files, source: Path, target: Path)
    requires target !in fs && Faithful(io)
    ensures CopyFile(job, io, digest, fs, source, target)
            == if source in fs && io.copies then Effect(fs[target := fs[source]], Done(target, Copied)) else Effect(fs, Failed)
    ensures MoveFile(job, io, digest, fs, source, target)
            == if source in fs && (io.renames || io.copies) then Effect(Renamed(fs, source, target), Done(target, Moved))
               else Effect(fs, Failed)
  {
    if source in fs {
      assert fs[target := fs[source]] - {source} == Renamed(fs, source, target);
    }
  }

  /** A copy or a move to a free target is revertible, and reverting it gives the disk back. */
  lemma TransferUndone(job: Job, digest: Digest, fs: Files, source: Path, target: Path)
    requires target !in fs && source in fs
    ensures var fs' := fs[target := fs[source]];
            var item := ItemFor(job, digest, fs', source, target, Copied);
            Revertible(fs', item, digest) && Reverted(fs', item) == fs
    ensures var fs' := Renamed(fs, source, target);
            var item := ItemFor(job, digest, fs', source, target, Moved);
            Revertible(fs', item, digest) && Reverted(fs', item) == fs
  {
    assert fs[target := fs[source]] - {target} == fs;
    assert Renamed(Renamed(fs, source, target), target, source) == fs;
  }

  /** A file that failed or was skipped left the disk alone; otherwise undoing its item restores the disk. */
  ghost predicate Undoable(job: Job, digest: Digest, fs: Files, source: Path, effect: Effect) {
    match effect.outcome
    case Failed => effect.files == fs
    case Done(target, status) =>
      var item := ItemFor(job, digest, effect.files, source, target, status);
      if status == Ignored then effect.files == fs && !Revertible(fs, item, digest)
      else Revertible(effect.files, item, digest) && Reverted(effect.files, item) == fs
  }

  lemma ProcessUndoable(job: Job, io: Io, digest: Digest, fs: Files, source: Path)
    requires job.conflict != Overwrite && Faithful(io)
    ensures Undoable(job, digest, fs, source, Process(job, io, digest, fs, source))
  {
    if source != [] {
      var candidate := TargetPath(job, source);
      var r := Resolve(fs, candidate, job.targetDir, FileName(source), job.conflict);
      ResolvedIsFree(fs, candidate, job.targetDir, FileName(source), job.conflict);
      if r.Use? {
        TransferShape(job, io, digest, fs, source, r.path);
        if source in fs {
          TransferUndone(job, digest, fs, source, r.path);
        }
      }
    }
  }

  /** A handler whose every effect can be undone. */
  ghost predicate AllUndoable(job: Job, handler: Handler, digest: Digest) {
    forall fs, source, k :: Undoable(job, digest, fs, source, handler(fs, source, k))
  }

  lemma HandlingUndoable(job: Job, env: nat -> Io, digest: Digest)
    requires job.conflict != Overwrite && AlwaysFaithful(env)
    ensures AllUndoable(job, Handling(job, env, digest), digest)
  {
    forall fs, source, k: nat ensures Undoable(job, digest, fs, source, Handling(job, env, digest)(fs, source, k)) {
      ProcessUndoable(job, env(k), digest, fs, source);
    }
  }

  /** Undoing the items of a run state restores `fs` and reverts exactly what the run processed. */
  ghost predicate Restores(st: RunState, fs: Files, digest: Digest, os: nat -> bool) {
    UndoItems(st.files, st.items, digest, os) == Undone(fs, st.processed, st.skipped)
  }

  lemma RecordedRestores(job: Job, digest: Digest, st: RunState, file: Path, effect: Effect, fs: Files, os: nat -> bool)
    requires Willing(os) && Restores(st, fs, digest, os) && Undoable(job, digest, st.files, file, effect)
    ensures Restores(Recorded(job, digest, st, file, effect), fs, digest, os)
  {
    match effect.outcome
    case Failed =>
    case Done(target, status) =>
      assert os(|st.items|);
      UndoLast(effect.files, st.items, ItemFor(job, digest, effect.files, file, target, status), digest, os);
  }

  lemma {:induction false} PrefixRestores(
    job: Job, handler: Handler, digest: Digest, fs: Files, paths: seq<Path>, n: nat, os: nat -> bool)
    requires n <= |paths| && AllUndoable(job, handler, digest) && Willing(os)
    ensures Restores(RunPrefix(job, handler, digest, fs, paths, n), fs, digest, os)
  {
    if n > 0 {
      PrefixRestores(job, handler, digest, fs, paths, n - 1, os);
      var st := RunPrefix(job, handler, digest, fs, paths, n - 1);
      RecordedRestores(job, digest, st, paths[n - 1], handler(st.files, paths[n - 1], n - 1), fs, os);
    }
  }

  /** One run, stopped anywhere, then one rollback: the disk is as it was. */
  lemma RunThenUndo(
    job: Job, env: nat -> Io, digest: Digest, fs: Files, paths: seq<Path>, cancelAt: nat, os: nat -> bool)
    requires job.conflict != Overwrite && AlwaysFaithful(env) && Willing(os)
    ensures var st := Run(job, env, digest, fs, paths, cancelAt);
            UndoItems(st.files, st.items, digest, os) == Undone(fs, st.processed, st.skipped)
  {
    HandlingUndoable(job, env, digest);
    PrefixRestores(job, Handling(job, env, digest), digest, fs, paths, Min(cancelAt, |paths|), os);
  }
}
