/** One run of a transfer job: what happens to each file, and what the run records. */
module Execution {
  import opened Wrappers
  import opened FileSystem

  datatype JobMode = Copy | Move

  datatype ConflictStrategy = Skip | Overwrite | Rename

  datatype AuditStatus = Copied | Moved | Ignored

  datatype TransferOptions = TransferOptions(
    smartSync: bool,
    strictHashSync: bool,
    verifyAfterCopy: bool,
    stopOnIntegrityError: bool)

  datatype Job = Job(
    sourceRoot: Path,
    rootIsFile: bool,
    targetDir: Path,
    mode: JobMode,
    conflict: ConflictStrategy,
    options: TransferOptions)

  datatype RollbackItem = RollbackItem(
    source: Path,
    target: Path,
    mode: JobMode,
    status: AuditStatus,
    targetHash: Option<string>)

  datatype Outcome = Done(target: Path, status: AuditStatus) | Failed

  datatype Effect = Effect(files: Files, outcome: Outcome)

  type Digest = Bytes -> string

  // ---- choosing the target ----

  function Relative(root: Path, source: Path): Path {
    if root <= source then source[|root|..]
    else if source != [] then [FileName(source)]
    else source
  }

  function TargetPath(job: Job, source: Path): Path
    requires job.rootIsFile ==> source != []
  {
    if job.rootIsFile then job.targetDir + [FileName(source)]
    else job.targetDir + Relative(job.sourceRoot, source)
  }

  function Numbered(parent: Path, name: string, i: nat): Path {
    parent + [Stem(name) + " (" + Decimal(i) + ")" + Extension(name)]
  }

  const FIRST_NUMBER: nat := 1

  const NUMBER_LIMIT: nat := 1000

  datatype Resolution = Use(path: Path) | SkipFile | Exhausted

  /** The first free numbered name from `i` on, below the limit. */
  function FirstFree(fs: Files, parent: Path, name: string, i: nat): Resolution
    requires i <= NUMBER_LIMIT
    decreases NUMBER_LIMIT - i
  {
    if i == NUMBER_LIMIT then Exhausted
    else if Numbered(parent, name, i) !in fs then Use(Numbered(parent, name, i))
    else FirstFree(fs, parent, name, i + 1)
  }

  /** How a conflict at `candidate` is settled. `fallback` is the parent of a path without one. */
  function Resolve(fs: Files, candidate: Path, fallback: Path, name: string, conflict: ConflictStrategy): Resolution {
    if candidate !in fs then Use(candidate)
    else match conflict
      case Skip => SkipFile
      case Overwrite => Use(candidate)
      case Rename => FirstFree(fs, if candidate == [] then fallback else Parent(candidate), name, FIRST_NUMBER)
  }

  method ResolveTarget(disk: Disk, candidate: Path, fallback: Path, name: string, conflict: ConflictStrategy)
    returns (r: Resolution)
    ensures r == Resolve(disk.files, candidate, fallback, name, conflict)
  {
    if candidate !in disk.files {
      return Use(candidate);
    }
    match conflict
    case Skip => return SkipFile;
    case Overwrite => return Use(candidate);
    case Rename =>
      var parent := if candidate == [] then fallback else Parent(candidate);
      for i := FIRST_NUMBER to NUMBER_LIMIT
        invariant FirstFree(disk.files, parent, name, FIRST_NUMBER) == FirstFree(disk.files, parent, name, i)
      {
        if Numbered(parent, name, i) !in disk.files {
          return Use(Numbered(parent, name, i));
        }
      }
      return Exhausted;
  }

  /** All numbers from `i` up to `k` are taken. */
  predicate Taken(fs: Files, parent: Path, name: string, i: nat, k: nat) {
    forall j :: i <= j < k ==> Numbered(parent, name, j) in fs
  }

  /** The numbered search returns the least free number, and gives up exactly when all are taken. */
  lemma {:induction false} FirstFreeMeaning(fs: Files, parent: Path, name: string, i: nat) returns (k: nat)
    requires i <= NUMBER_LIMIT
    ensures i <= k <= NUMBER_LIMIT && Taken(fs, parent, name, i, k)
    ensures FirstFree(fs, parent, name, i) == if k == NUMBER_LIMIT then Exhausted else Use(Numbered(parent, name, k))
    ensures k < NUMBER_LIMIT ==> Numbered(parent, name, k) !in fs
    decreases NUMBER_LIMIT - i
  {
    if i < NUMBER_LIMIT && Numbered(parent, name, i) in fs {
      k := FirstFreeMeaning(fs, parent, name, i + 1);
    } else {
      k := i;
    }
  }

  // ---- handling one file ----

  /** Whether smart sync takes the file for unchanged. */
  predicate FilesEqual(digest: Digest, strict: bool, sameMtime: bool, a: Bytes, b: Bytes) {
    |a| == |b| && ((!strict && sameMtime) || digest(a) == digest(b))
  }

  function CopyFile(job: Job, io: Io, digest: Digest, fs: Files, source: Path, target: Path): Effect {
    if source !in fs then Effect(fs, Failed)
    else if !io.copies then Effect(Torn(io, fs, target), Failed)
    else
      var fs' := fs[target := Landed(io, fs[source])];
      if job.options.verifyAfterCopy && digest(fs'[source]) != digest(fs'[target]) then Effect(fs', Failed)
      else Effect(fs', Done(target, Copied))
  }

  function MoveFile(job: Job, io: Io, digest: Digest, fs: Files, source: Path, target: Path): Effect {
    var verify := job.options.verifyAfterCopy;
    if verify && source !in fs then Effect(fs, Failed)
    else if target in fs && job.conflict == Overwrite then
      if !io.clears then Effect(fs, Failed)
      else MoveInto(verify, io, digest, fs - {target}, if verify then digest(fs[source]) else "", source, target)
    else MoveInto(verify, io, digest, fs, if verify then digest(fs[source]) else "", source, target)
  }

  function MoveInto(verify: bool, io: Io, digest: Digest, fs: Files, expected: string, source: Path, target: Path): Effect {
    if source !in fs then Effect(fs, Failed)
    else if io.renames then
      var fs' := Renamed(fs, source, target);
      if verify && expected != digest(fs'[target]) then Effect(fs', Failed)
      else Effect(fs', Done(target, Moved))
    else if !io.copies then Effect(Torn(io, fs, target), Failed)
    else
      var fs' := fs[target := Landed(io, fs[source])];
      if verify && expected != digest(fs'[target]) then
        Effect(if io.discards then fs' - {target} else fs', Failed)
      else if !io.removes then Effect(fs', Failed)
      else Effect(fs' - {source}, Done(target, Moved))
  }

  function Process(job: Job, io: Io, digest: Digest, fs: Files, source: Path): Effect {
    if source == [] then Effect(fs, Failed)
    else
      var candidate := TargetPath(job, source);
      if job.options.smartSync && candidate in fs && source !in fs then Effect(fs, Failed)
      else if job.options.smartSync && candidate in fs
              && FilesEqual(digest, job.options.strictHashSync, io.sameMtime, fs[source], fs[candidate]) then
        Effect(fs, Done(candidate, Ignored))
      else match Resolve(fs, candidate, job.targetDir, FileName(source), job.conflict)
        case Exhausted => Effect(fs, Failed)
        case SkipFile => Effect(fs, Done(candidate, Ignored))
        case Use(target) =>
          if !io.parentReady then Effect(fs, Failed)
          else if job.mode.Copy? then CopyFile(job, io, digest, fs, source, target)
          else MoveFile(job, io, digest, fs, source, target)
  }

  method ProcessFile(disk: Disk, job: Job, io: Io, digest: Digest, source: Path) returns (r: Outcome)
    modifies disk
    ensures Effect(disk.files, r) == Process(job, io, digest, old(disk.files), source)
  {
    if source == [] {
      return Failed;
    }
    var candidate := TargetPath(job, source);
    if job.options.smartSync && candidate in disk.files {
      if source !in disk.files {
        return Failed;
      }
      if FilesEqual(digest, job.options.strictHashSync, io.sameMtime, disk.files[source], disk.files[candidate]) {
        return Done(candidate, Ignored);
      }
    }
    var resolved := ResolveTarget(disk, candidate, job.targetDir, FileName(source), job.conflict);
    match resolved
    case Exhausted => return Failed;
    case SkipFile => return Done(candidate, Ignored);
    case Use(target) =>
      if !io.parentReady {
        return Failed;
      }
      if job.mode.Copy? {
        r := CopyAndVerify(disk, job, io, digest, source, target);
      } else {
        r := MoveAndVerify(disk, job, io, digest, source, target);
      }
  }

  method CopyAndVerify(disk: Disk, job: Job, io: Io, digest: Digest, source: Path, target: Path) returns (r: Outcome)
    modifies disk
    ensures Effect(disk.files, r) == CopyFile(job, io, digest, old(disk.files), source, target)
  {
    var copied := disk.Copy(source, target, io);
    if !copied {
      return Failed;
    }
    if job.options.verifyAfterCopy && digest(disk.files[source]) != digest(disk.files[target]) {
      return Failed;
    }
    return Done(target, Copied);
  }

  method MoveAndVerify(disk: Disk, job: Job, io: Io, digest: Digest, source: Path, target: Path) returns (r: Outcome)
    modifies disk
    ensures Effect(disk.files, r) == MoveFile(job, io, digest, old(disk.files), source, target)
  {
    var verify := job.options.verifyAfterCopy;
    if verify && source !in disk.files {
      return Failed;
    }
    var expected := if verify then digest(disk.files[source]) else "";
    if target in disk.files && job.conflict == Overwrite {
      var cleared := disk.Remove(target, io.clears);
      if !cleared {
        return Failed;
      }
    }
    var renamed := disk.Rename(source, target, io.renames);
    if !renamed {
      var copied := disk.Copy(source, target, io);
      if !copied {
        return Failed;
      }
      if verify && expected != digest(disk.files[target]) {
        var _ := disk.Remove(target, io.discards);
        return Failed;
      }
      var removed := disk.Remove(source, io.removes);
      if !removed {
        return Failed;
      }
    } else if verify && expected != digest(disk.files[target]) {
      return Failed;
    }
    return Done(target, Moved);
  }

  // ---- the run ----

  datatype RunState = RunState(
    files: Files,
    items: seq<RollbackItem>,
    processed: nat,
    failed: nat,
    skipped: nat,
    aborted: bool)

  function ItemFor(job: Job, digest: Digest, fs: Files, source: Path, target: Path, status: AuditStatus): RollbackItem {
    RollbackItem(source, target, job.mode, status,
                 if status != Ignored && target in fs then Some(digest(fs[target])) else None)
  }

  /** What the run makes of the outcome of one file. */
  function Recorded(job: Job, digest: Digest, st: RunState, file: Path, effect: Effect): RunState {
    match effect.outcome
    case Failed => st.(files := effect.files, failed := st.failed + 1, aborted := job.options.stopOnIntegrityError)
    case Done(target, status) =>
      var item := ItemFor(job, digest, effect.files, file, target, status);
      if status == Ignored then st.(files := effect.files, items := st.items + [item], skipped := st.skipped + 1)
      else st.(files := effect.files, items := st.items + [item], processed := st.processed + 1)
  }

  /** How the `k`th file of a run is handled on a given disk. */
  type Handler = (Files, Path, nat) -> Effect

  /** Handling under the conditions `env` gives for each file. */
  function Handling(job: Job, env: nat -> Io, digest: Digest): Handler {
    (fs: Files, path: Path, k: nat) => Process(job, env(k), digest, fs, path)
  }

  /** One iteration of the run loop; nothing more happens once the run has aborted. */
  function Step(job: Job, handler: Handler, digest: Digest, st: RunState, file: Path, k: nat): RunState {
    if st.aborted then st
    else if !(job.sourceRoot <= file) then st.(failed := st.failed + 1)
    else Recorded(job, digest, st, file, handler(st.files, file, k))
  }

  /** The state after the first `n` files. */
  function RunPrefix(job: Job, handler: Handler, digest: Digest, fs: Files, paths: seq<Path>, n: nat): RunState
    requires n <= |paths|
  {
    if n == 0 then RunState(fs, [], 0, 0, 0, false)
    else Step(job, handler, digest, RunPrefix(job, handler, digest, fs, paths, n - 1), paths[n - 1], n - 1)
  }

  function Min(a: nat, b: nat): nat {
    if a < b then a else b
  }

  /** The state in which the loop ends when the cancellation token trips after `cancelAt` polls. */
  function Run(job: Job, env: nat -> Io, digest: Digest, fs: Files, paths: seq<Path>, cancelAt: nat): RunState {
    RunPrefix(job, Handling(job, env, digest), digest, fs, paths, Min(cancelAt, |paths|))
  }

  lemma {:induction false} AbortedStays(job: Job, handler: Handler, digest: Digest, fs: Files, paths: seq<Path>, m: nat, n: nat)
    requires m <= n <= |paths|
    requires RunPrefix(job, handler, digest, fs, paths, m).aborted
    ensures RunPrefix(job, handler, digest, fs, paths, n) == RunPrefix(job, handler, digest, fs, paths, m)
  {
    if m < n {
      AbortedStays(job, handler, digest, fs, paths, m, n - 1);
    }
  }

  lemma {:induction false} AbortedFailed(job: Job, handler: Handler, digest: Digest, fs: Files, paths: seq<Path>, n: nat)
    requires n <= |paths|
    ensures var st := RunPrefix(job, handler, digest, fs, paths, n); st.aborted ==> st.failed > 0
  {
    if n > 0 {
      AbortedFailed(job, handler, digest, fs, paths, n - 1);
    }
  }

  method VisitFile(disk: Disk, job: Job, env: nat -> Io, digest: Digest, st: RunState, file: Path, k: nat)
    returns (next: RunState)
    requires st.files == disk.files && !st.aborted
    modifies disk
    ensures next == Step(job, Handling(job, env, digest), digest, st, file, k) && disk.files == next.files
  {
    next := st;
    if !(job.sourceRoot <= file) {
      next := next.(failed := next.failed + 1);
      return;
    }
    var outcome := ProcessFile(disk, job, env(k), digest, file);
    next := next.(files := disk.files);
    match outcome
    case Done(target, status) =>
      next := next.(items := next.items + [ItemFor(job, digest, disk.files, file, target, status)]);
      if status == Ignored {
        next := next.(skipped := next.skipped + 1);
      } else {
        next := next.(processed := next.processed + 1);
      }
    case Failed =>
      next := next.(failed := next.failed + 1, aborted := job.options.stopOnIntegrityError);
  }

  method RunJob(disk: Disk, job: Job, env: nat -> Io, digest: Digest, paths: seq<Path>, cancelAt: nat)
    returns (st: RunState, success: bool)
    modifies disk
    ensures st == Run(job, env, digest, old(disk.files), paths, cancelAt) && disk.files == st.files
    ensures success <==> st.failed == 0 && !st.aborted && cancelAt > |paths|
  {
    st := RunState(disk.files, [], 0, 0, 0, false);
    ghost var handler := Handling(job, env, digest);
    var polls := 0;
    var index := 0;
    while index < |paths| && polls < cancelAt && !st.aborted
      invariant index == polls <= |paths| && polls <= cancelAt
      invariant st.files == disk.files
      invariant st == RunPrefix(job, handler, digest, old(disk.files), paths, index)
    {
      polls := polls + 1;
      st := VisitFile(disk, job, env, digest, st, paths[index], index);
      index := index + 1;
    }
    if st.aborted {
      AbortedStays(job, handler, digest, old(disk.files), paths, index, Min(cancelAt, |paths|));
    }
    success := st.failed == 0 && polls < cancelAt && !st.aborted;
    AbortedFailed(job, handler, digest, old(disk.files), paths, index);
  }

  // ---- what the counters mean ----

  /** Every file visited is counted once; without a failure the manifest has the files visited, in order. */
  lemma {:induction false} RunCounts(job: Job, handler: Handler, digest: Digest, fs: Files, paths: seq<Path>, n: nat)
    requires n <= |paths|
    ensures var st := RunPrefix(job, handler, digest, fs, paths, n);
            && st.processed + st.skipped == |st.items| && |st.items| + st.failed <= n
            && (!st.aborted ==> |st.items| + st.failed == n)
            && (st.failed == 0 ==> forall i :: 0 <= i < |st.items| ==> i < n && st.items[i].source == paths[i])
  {
    if n > 0 {
      RunCounts(job, handler, digest, fs, paths, n - 1);
    }
  }
}
