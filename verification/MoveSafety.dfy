/** What a run may lose: nothing in Move mode with verification, and under Overwrite exactly the
    targets it replaced. */
module MoveSafety {
  import opened Wrappers
  import opened FileSystem
  import opened Execution
  import opened Rollback
  import opened RunUndo

  /** A file the job may collect: at or under the source root. */
  predicate FileOf(job: Job, path: Path) {
    path != [] && job.sourceRoot <= path && (job.rootIsFile ==> path == job.sourceRoot)
  }

  /** What file collection hands to a run: distinct existing files of the job. */
  ghost predicate Collected(job: Job, fs: Files, paths: seq<Path>) {
    && (forall i :: 0 <= i < |paths| ==> paths[i] in fs && FileOf(job, paths[i]))
    && (forall i, j :: 0 <= i < j < |paths| ==> paths[i] != paths[j])
  }

  /** Job validation refuses a source and a target of which one contains the other. */
  ghost predicate Separate(job: Job) {
    !(job.sourceRoot <= job.targetDir) && !(job.targetDir <= job.sourceRoot)
  }

  lemma PrefixesCompare(a: Path, b: Path, p: Path)
    requires a <= p && b <= p
    ensures a <= b || b <= a
  {
    if |a| <= |b| {
      assert a == p[..|a|] == b[..|a|];
    } else {
      assert b == p[..|b|] == a[..|b|];
    }
  }

  lemma TargetNotSource(job: Job, p: Path, q: Path)
    requires Separate(job) && FileOf(job, p) && FileOf(job, q)
    ensures TargetPath(job, p) != q
  {
    if TargetPath(job, p) == q {
      assert job.targetDir <= q;
      PrefixesCompare(job.sourceRoot, job.targetDir, q);
    }
  }

  lemma TargetInjective(job: Job, p: Path, q: Path)
    requires FileOf(job, p) && FileOf(job, q)
    requires TargetPath(job, p) == TargetPath(job, q)
    ensures p == q
  {
    var root, n := job.sourceRoot, |job.targetDir|;
    if !job.rootIsFile {
      assert p == root + p[|root|..] && q == root + q[|root|..];
      assert TargetPath(job, p)[n..] == p[|root|..] && TargetPath(job, q)[n..] == q[|root|..];
    }
  }

  // ---- Overwrite ----

  /** A disk that refuses nothing and copies exactly. */
  predicate Reliable(io: Io) {
    Faithful(io) && io.copies
  }

  ghost predicate AlwaysReliable(env: nat -> Io) {
    forall i :: Reliable(env(i))
  }

  /** The targets of the manifest that existed before the run. */
  function Overwritten(items: seq<RollbackItem>, fs: Files): set<Path> {
    if items == [] then {}
    else
      var last := items[|items| - 1];
      Overwritten(items[..|items| - 1], fs) + (if last.status != Ignored && last.target in fs then {last.target} else {})
  }

  lemma {:induction false} OverwrittenMeaning(items: seq<RollbackItem>, fs: Files)
    ensures forall p :: p in Overwritten(items, fs) <==> p in fs && exists item <- items :: item.status != Ignored && item.target == p
  {
    if items != [] {
      OverwrittenMeaning(items[..|items| - 1], fs);
      assert forall item :: item in items <==> item in items[..|items| - 1] || item == items[|items| - 1];
    }
  }

  /** Undoing does not look at, and does not touch, a path no item names. */
  lemma {:induction false} UndoFrame(fs: Files, items: seq<RollbackItem>, digest: Digest, os: nat -> bool, t: Path)
    requires forall item <- items :: item.target != t && item.source != t
    ensures var u, u' := UndoItems(fs, items, digest, os), UndoItems(fs - {t}, items, digest, os);
            u'.files == u.files - {t} && u'.reverted == u.reverted && u'.skipped == u.skipped
    decreases |items|
  {
    if items != [] {
      var n := |items| - 1;
      assert items[n] in items;
      if Revertible(fs, items[n], digest) && os(n) {
        assert Reverted(fs - {t}, items[n]) == Reverted(fs, items[n]) - {t};
        UndoFrame(Reverted(fs, items[n]), items[..n], digest, os, t);
      } else {
        UndoFrame(fs, items[..n], digest, os, t);
      }
    }
  }

  /** The disk after `source` replaced whatever was at `target`. */
  function Replaced(mode: JobMode, fs: Files, source: Path, target: Path): Files
    requires source in fs && source != target
  {
    if mode.Copy? then fs[target := fs[source]] else Renamed(fs - {target}, source, target)
  }

  /** A reliable transfer under Overwrite replaces the target or leaves everything alone. */
  lemma ReplaceShape(job: Job, io: Io, digest: Digest, fs: Files, source: Path, target: Path)
    requires job.conflict == Overwrite && Reliable(io) && source in fs && source != target
    ensures CopyFile(job, io, digest, fs, source, target) == Effect(Replaced(Copy, fs, source, target), Done(target, Copied))
    ensures MoveFile(job, io, digest, fs, source, target)
            == if target in fs && !io.clears then Effect(fs, Failed)
               else Effect(Replaced(Move, fs, source, target), Done(target, Moved))
  {
    assert target !in fs ==> fs - {target} == fs;
    assert (fs - {target})[target := fs[source]] - {source} == Renamed(fs - {target}, source, target);
  }

  /** Undoing a replacement leaves the target empty. */
  lemma ReplaceUndone(job: Job, digest: Digest, fs: Files, source: Path, target: Path, status: AuditStatus)
    requires source in fs && source != target
    requires status == if job.mode.Copy? then Copied else Moved
    ensures var fs' := Replaced(job.mode, fs, source, target);
            var item := ItemFor(job, digest, fs', source, target, status);
            Revertible(fs', item, digest) && Reverted(fs', item) == fs - {target}
  {
    assert fs[target := fs[source]] - {target} == fs - {target};
    assert Renamed(Renamed(fs - {target}, source, target), target, source) == fs - {target};
  }

  /** What can become of one file under Overwrite. */
  predicate ReplacedOrKept(job: Job, fs: Files, source: Path, effect: Effect)
    requires source in fs && source != [] && TargetPath(job, source) != source
  {
    var target := TargetPath(job, source);
    match effect.outcome
    case Failed => effect.files == fs
    case Done(t, status) =>
      t == target && if status == Ignored then effect.files == fs
                     else && status == (if job.mode.Copy? then Copied else Moved)
                          && effect.files == Replaced(job.mode, fs, source, target)
  }

  /** Handling one file under Overwrite on a reliable disk. */
  lemma OverwriteShape(job: Job, io: Io, digest: Digest, fs: Files, source: Path)
    requires job.conflict == Overwrite && Reliable(io)
    requires source in fs && source != [] && TargetPath(job, source) != source
    ensures ReplacedOrKept(job, fs, source, Process(job, io, digest, fs, source))
  {
    ReplaceShape(job, io, digest, fs, source, TargetPath(job, source));
  }

  /** An item of one of the files before the `n`th, with the file's own target. */
  predicate EarlierItem(job: Job, paths: seq<Path>, n: nat, item: RollbackItem)
    requires n <= |paths|
  {
    && FileOf(job, item.source) && item.target == TargetPath(job, item.source)
    && forall k :: n <= k < |paths| ==> item.source != paths[k]
  }

  /** After `n` files of an overwriting run: later files and their targets are as they were, and the
      items are those of earlier files. */
  ghost predicate LaterKept(job: Job, fs: Files, paths: seq<Path>, n: nat, st: RunState)
    requires n <= |paths| && Collected(job, fs, paths)
  {
    && (forall k :: n <= k < |paths| ==> paths[k] in st.files)
    && (forall k :: n <= k < |paths| ==> (TargetPath(job, paths[k]) in st.files <==> TargetPath(job, paths[k]) in fs))
    && (forall item <- st.items :: EarlierItem(job, paths, n, item))
  }

  /** Undoing the items so far loses exactly what was overwritten. */
  ghost predicate LosesOverwritten(digest: Digest, fs: Files, st: RunState, os: nat -> bool) {
    UndoItems(st.files, st.items, digest, os) == Undone(fs - Overwritten(st.items, fs), st.processed, st.skipped)
  }

  lemma EarlierItemApart(job: Job, fs: Files, paths: seq<Path>, n: nat, item: RollbackItem)
    requires n < |paths| && Collected(job, fs, paths) && Separate(job) && EarlierItem(job, paths, n, item)
    ensures item.target != TargetPath(job, paths[n]) && item.source != TargetPath(job, paths[n])
  {
    TargetNotSource(job, paths[n], item.source);
    if item.target == TargetPath(job, paths[n]) {
      TargetInjective(job, item.source, paths[n]);
    }
  }

  /** Replacing the target of the `n`th file does not change what later files see. */
  lemma LaterUntouched(job: Job, fs: Files, paths: seq<Path>, n: nat, k: nat, files: Files)
    requires n < k < |paths| && Collected(job, fs, paths) && Separate(job)
    requires paths[n] in files && TargetPath(job, paths[n]) != paths[n]
    ensures var files' := Replaced(job.mode, files, paths[n], TargetPath(job, paths[n]));
            && (paths[k] in files' <==> paths[k] in files)
            && (TargetPath(job, paths[k]) in files' <==> TargetPath(job, paths[k]) in files)
  {
    TargetNotSource(job, paths[n], paths[k]);
    TargetNotSource(job, paths[k], paths[n]);
    if TargetPath(job, paths[n]) == TargetPath(job, paths[k]) {
      TargetInjective(job, paths[n], paths[k]);
    }
  }

  /** What undoing loses grows by the target of the last item when it was a file before. */
  lemma UndoOneMore(job: Job, digest: Digest, fs: Files, st: RunState, os: nat -> bool, files: Files, item: RollbackItem)
    requires Willing(os) && UndoItems(st.files, st.items, digest, os).files == fs - Overwritten(st.items, fs)
    requires item.target in st.files <==> item.target in fs
    requires if item.status == Ignored then files == st.files
             else && Revertible(files, item, digest) && Reverted(files, item) == st.files - {item.target}
                  && forall it <- st.items :: it.target != item.target && it.source != item.target
    ensures var u, u' := UndoItems(st.files, st.items, digest, os), UndoItems(files, st.items + [item], digest, os);
            u' == if item.status == Ignored then Undone(fs - Overwritten(st.items + [item], fs), u.reverted, u.skipped + 1)
                  else Undone(fs - Overwritten(st.items + [item], fs), u.reverted + 1, u.skipped)
  {
    var n, items := |st.items|, st.items + [item];
    assert items[..n] == st.items && os(n);
    UndoLast(files, st.items, item, digest, os);
    if item.status == Ignored {
      assert Overwritten(items, fs) == Overwritten(st.items, fs);
    } else {
      UndoFrame(st.files, st.items, digest, os, item.target);
      assert fs - Overwritten(items, fs) == fs - Overwritten(st.items, fs) - {item.target};
    }
  }

  /** Replacing the `n`th file's target and recording it. */
  lemma LosesReplaced(
    job: Job, digest: Digest, fs: Files, paths: seq<Path>, n: nat, st: RunState, os: nat -> bool, status: AuditStatus)
    requires Willing(os) && n < |paths| && Collected(job, fs, paths) && Separate(job)
    requires LaterKept(job, fs, paths, n, st) && LosesOverwritten(digest, fs, st, os)
    requires TargetPath(job, paths[n]) != paths[n]
    requires status == if job.mode.Copy? then Copied else Moved
    ensures var target := TargetPath(job, paths[n]);
            var files := Replaced(job.mode, st.files, paths[n], target);
            var items := st.items + [ItemFor(job, digest, files, paths[n], target, status)];
            UndoItems(files, items, digest, os) == Undone(fs - Overwritten(items, fs), st.processed + 1, st.skipped)
  {
    var source, target := paths[n], TargetPath(job, paths[n]);
    var files := Replaced(job.mode, st.files, source, target);
    ReplaceUndone(job, digest, st.files, source, target, status);
    forall it | it in st.items ensures it.target != target && it.source != target {
      EarlierItemApart(job, fs, paths, n, it);
    }
    UndoOneMore(job, digest, fs, st, os, files, ItemFor(job, digest, files, source, target, status));
  }

  lemma LosesKept(job: Job, digest: Digest, fs: Files, st: RunState, source: Path, target: Path, os: nat -> bool)
    requires Willing(os) && LosesOverwritten(digest, fs, st, os)
    requires target in st.files <==> target in fs
    ensures var items := st.items + [ItemFor(job, digest, st.files, source, target, Ignored)];
            UndoItems(st.files, items, digest, os) == Undone(fs - Overwritten(items, fs), st.processed, st.skipped + 1)
  {
    UndoOneMore(job, digest, fs, st, os, st.files, ItemFor(job, digest, st.files, source, target, Ignored));
  }

  lemma LosesRecorded(
    job: Job, digest: Digest, fs: Files, paths: seq<Path>, n: nat, st: RunState, os: nat -> bool, effect: Effect)
    requires Willing(os) && n < |paths| && Collected(job, fs, paths) && Separate(job)
    requires LaterKept(job, fs, paths, n, st) && LosesOverwritten(digest, fs, st, os)
    requires TargetPath(job, paths[n]) != paths[n]
    requires ReplacedOrKept(job, st.files, paths[n], effect)
    ensures LosesOverwritten(digest, fs, Recorded(job, digest, st, paths[n], effect), os)
  {
    var st' := Recorded(job, digest, st, paths[n], effect);
    if effect.outcome.Done? {
      var target, status := effect.outcome.target, effect.outcome.status;
      var items := st.items + [ItemFor(job, digest, effect.files, paths[n], target, status)];
      if status == Ignored {
        LosesKept(job, digest, fs, st, paths[n], target, os);
        assert st' == st.(files := effect.files, items := items, skipped := st.skipped + 1);
      } else {
        LosesReplaced(job, digest, fs, paths, n, st, os, status);
        assert st' == st.(files := effect.files, items := items, processed := st.processed + 1);
      }
      assert UndoItems(effect.files, items, digest, os) == Undone(fs - Overwritten(items, fs), st'.processed, st'.skipped);
    } else {
      assert st'.files == st.files && st'.items == st.items;
    }
  }

  lemma LaterKeptRecorded(
    job: Job, digest: Digest, fs: Files, paths: seq<Path>, n: nat, st: RunState, effect: Effect)
    requires n < |paths| && Collected(job, fs, paths) && Separate(job)
    requires LaterKept(job, fs, paths, n, st)
    requires TargetPath(job, paths[n]) != paths[n]
    requires ReplacedOrKept(job, st.files, paths[n], effect)
    ensures LaterKept(job, fs, paths, n + 1, Recorded(job, digest, st, paths[n], effect))
  {
    if effect.outcome.Done? && effect.outcome.status != Ignored {
      forall k | n < k < |paths|
        ensures paths[k] in effect.files
        ensures TargetPath(job, paths[k]) in effect.files <==> TargetPath(job, paths[k]) in st.files
      {
        LaterUntouched(job, fs, paths, n, k, st.files);
      }
    }
  }

  /** A handler that replaces the file's own target or leaves everything alone. */
  ghost predicate AllReplacing(job: Job, handler: Handler) {
    forall fs, source, k {:trigger ReplacedOrKept(job, fs, source, handler(fs, source, k))} ::
      source in fs && source != [] && TargetPath(job, source) != source
      ==> ReplacedOrKept(job, fs, source, handler(fs, source, k))
  }

  lemma HandlingReplaces(job: Job, env: nat -> Io, digest: Digest)
    requires job.conflict == Overwrite && AlwaysReliable(env)
    ensures AllReplacing(job, Handling(job, env, digest))
  {
    forall fs, source: Path, k: nat | source in fs && source != [] && TargetPath(job, source) != source
      ensures ReplacedOrKept(job, fs, source, Handling(job, env, digest)(fs, source, k))
    {
      assert Reliable(env(k));
      OverwriteShape(job, env(k), digest, fs, source);
    }
  }

  lemma OverwriteNext(
    job: Job, handler: Handler, digest: Digest, fs: Files, paths: seq<Path>, n: nat, st: RunState, os: nat -> bool)
    returns (st': RunState)
    requires AllReplacing(job, handler) && Willing(os)
    requires n < |paths| && Collected(job, fs, paths) && Separate(job)
    requires LaterKept(job, fs, paths, n, st) && LosesOverwritten(digest, fs, st, os)
    ensures st' == Step(job, handler, digest, st, paths[n], n)
    ensures LaterKept(job, fs, paths, n + 1, st') && LosesOverwritten(digest, fs, st', os)
  {
    st' := Step(job, handler, digest, st, paths[n], n);
    if !st.aborted {
      TargetNotSource(job, paths[n], paths[n]);
      var effect := handler(st.files, paths[n], n);
      assert ReplacedOrKept(job, st.files, paths[n], handler(st.files, paths[n], n));
      LaterKeptRecorded(job, digest, fs, paths, n, st, effect);
      LosesRecorded(job, digest, fs, paths, n, st, os, effect);
    }
  }

  lemma {:induction false} OverwritePrefix(
    job: Job, handler: Handler, digest: Digest, fs: Files, paths: seq<Path>, n: nat, os: nat -> bool) returns (st: RunState)
    requires AllReplacing(job, handler) && Willing(os)
    requires n <= |paths| && Collected(job, fs, paths) && Separate(job)
    ensures st == RunPrefix(job, handler, digest, fs, paths, n)
    ensures LaterKept(job, fs, paths, n, st) && LosesOverwritten(digest, fs, st, os)
  {
    if n > 0 {
      var before := OverwritePrefix(job, handler, digest, fs, paths, n - 1, os);
      st := OverwriteNext(job, handler, digest, fs, paths, n - 1, before, os);
    } else {
      st := RunState(fs, [], 0, 0, 0, false);
      assert fs - {} == fs;
    }
  }

  /** An overwriting run, stopped anywhere, then a rollback: every file is back except the targets
      that existed and were overwritten, which are gone; so the disk is restored exactly when no
      target was overwritten. */
  lemma OverwriteThenUndo(
    job: Job, env: nat -> Io, digest: Digest, fs: Files, paths: seq<Path>, cancelAt: nat, os: nat -> bool)
    requires job.conflict == Overwrite && AlwaysReliable(env) && Willing(os)
    requires Collected(job, fs, paths) && Separate(job)
    ensures var st := Run(job, env, digest, fs, paths, cancelAt);
            var restored := UndoItems(st.files, st.items, digest, os).files;
            && restored == fs - Overwritten(st.items, fs)
            && (restored == fs <==> Overwritten(st.items, fs) == {})
  {
    HandlingReplaces(job, env, digest);
    var st := OverwritePrefix(job, Handling(job, env, digest), digest, fs, paths, Min(cancelAt, |paths|), os);
    OverwrittenMeaning(st.items, fs);
    if p :| p in Overwritten(st.items, fs) {
      assert p in fs && p !in fs - Overwritten(st.items, fs);
    }
  }

  // ---- Overwrite, foreseen ----

  /** Whether smart sync takes a file and its target for the same on a given disk. */
  predicate Unchanged(job: Job, io: Io, digest: Digest, fs: Files, source: Path)
    requires source in fs && source != []
  {
    var target := TargetPath(job, source);
    job.options.smartSync && target in fs && FilesEqual(digest, job.options.strictHashSync, io.sameMtime, fs[source], fs[target])
  }

  /** A disk that moreover can clear a target and has or makes its directory. */
  predicate Ready(io: Io) {
    Reliable(io) && io.clears && io.parentReady
  }

  ghost predicate AlwaysReady(env: nat -> Io) {
    forall i :: Ready(env(i))
  }

  /** What a ready disk makes of a file under Overwrite. */
  function ReadyEffect(job: Job, io: Io, digest: Digest, fs: Files, source: Path): Effect
    requires source in fs && source != [] && TargetPath(job, source) != source
  {
    var target := TargetPath(job, source);
    if Unchanged(job, io, digest, fs, source) then Effect(fs, Done(target, Ignored))
    else Effect(Replaced(job.mode, fs, source, target), Done(target, if job.mode.Copy? then Copied else Moved))
  }

  lemma ReadyShape(job: Job, io: Io, digest: Digest, fs: Files, source: Path)
    requires job.conflict == Overwrite && Ready(io)
    requires source in fs && source != [] && TargetPath(job, source) != source
    ensures Process(job, io, digest, fs, source) == ReadyEffect(job, io, digest, fs, source)
  {
    ReplaceShape(job, io, digest, fs, source, TargetPath(job, source));
  }

  /** The targets a run over the first `n` files is going to replace, told from the disk before it. */
  function Foreseen(job: Job, env: nat -> Io, digest: Digest, fs: Files, paths: seq<Path>, n: nat): set<Path>
    requires n <= |paths| && forall i :: 0 <= i < |paths| ==> paths[i] in fs && paths[i] != []
  {
    set i | 0 <= i < n && TargetPath(job, paths[i]) in fs && !Unchanged(job, env(i), digest, fs, paths[i]) ::
      TargetPath(job, paths[i])
  }

  lemma ForeseenNext(job: Job, env: nat -> Io, digest: Digest, fs: Files, paths: seq<Path>, n: nat)
    requires n < |paths| && forall i :: 0 <= i < |paths| ==> paths[i] in fs && paths[i] != []
    ensures Foreseen(job, env, digest, fs, paths, n + 1)
            == Foreseen(job, env, digest, fs, paths, n)
               + (if TargetPath(job, paths[n]) in fs && !Unchanged(job, env(n), digest, fs, paths[n])
                  then {TargetPath(job, paths[n])} else {})
  {
  }

  /** A handler that does what a ready disk does. */
  ghost predicate AllReady(job: Job, handler: Handler, env: nat -> Io, digest: Digest) {
    forall fs, source, k {:trigger ReadyEffect(job, env(k), digest, fs, source)} ::
      source in fs && source != [] && TargetPath(job, source) != source
      ==> handler(fs, source, k) == ReadyEffect(job, env(k), digest, fs, source)
  }

  lemma HandlingReady(job: Job, env: nat -> Io, digest: Digest)
    requires job.conflict == Overwrite && AlwaysReady(env)
    ensures AllReady(job, Handling(job, env, digest), env, digest)
  {
    forall fs, source: Path, k: nat | source in fs && source != [] && TargetPath(job, source) != source
      ensures Handling(job, env, digest)(fs, source, k) == ReadyEffect(job, env(k), digest, fs, source)
    {
      ReadyShape(job, env(k), digest, fs, source);
    }
  }

  /** A path holds on one disk what it holds on another. */
  predicate SameAt(files: Files, fs: Files, path: Path) {
    (path in files <==> path in fs) && (path in fs ==> files[path] == fs[path])
  }

  /** After `n` files nothing failed, and later files and their targets are as they were. */
  ghost predicate LaterSame(job: Job, fs: Files, paths: seq<Path>, n: nat, st: RunState)
    requires n <= |paths| && Collected(job, fs, paths)
  {
    !st.aborted && forall k :: n <= k < |paths| ==> SameAt(st.files, fs, paths[k]) && SameAt(st.files, fs, TargetPath(job, paths[k]))
  }

  /** Replacing the target of the `n`th file leaves a later file and its target alone. */
  lemma LaterSameAt(job: Job, fs: Files, paths: seq<Path>, n: nat, k: nat, files: Files)
    requires n < k < |paths| && Collected(job, fs, paths) && Separate(job)
    requires paths[n] in files && TargetPath(job, paths[n]) != paths[n]
    requires SameAt(files, fs, paths[k]) && SameAt(files, fs, TargetPath(job, paths[k]))
    ensures var files' := Replaced(job.mode, files, paths[n], TargetPath(job, paths[n]));
            SameAt(files', fs, paths[k]) && SameAt(files', fs, TargetPath(job, paths[k]))
  {
    TargetNotSource(job, paths[n], paths[k]);
    TargetNotSource(job, paths[k], paths[n]);
    if TargetPath(job, paths[n]) == TargetPath(job, paths[k]) {
      TargetInjective(job, paths[n], paths[k]);
    }
  }

  lemma OverwrittenNext(items: seq<RollbackItem>, item: RollbackItem, fs: Files)
    ensures Overwritten(items + [item], fs)
            == Overwritten(items, fs) + (if item.status != Ignored && item.target in fs then {item.target} else {})
  {
    assert (items + [item])[..|items|] == items;
  }

  lemma ReadyItem(job: Job, io: Io, digest: Digest, st: RunState, source: Path) returns (item: RollbackItem)
    requires source in st.files && source != [] && TargetPath(job, source) != source && !st.aborted
    ensures Recorded(job, digest, st, source, ReadyEffect(job, io, digest, st.files, source)).items == st.items + [item]
    ensures item.target == TargetPath(job, source)
    ensures item.status == Ignored <==> Unchanged(job, io, digest, st.files, source)
  {
    item := Recorded(job, digest, st, source, ReadyEffect(job, io, digest, st.files, source)).items[|st.items|];
  }

  lemma StillUnchanged(job: Job, io: Io, digest: Digest, fs: Files, files: Files, source: Path)
    requires source in fs && source in files && source != []
    requires SameAt(files, fs, source) && SameAt(files, fs, TargetPath(job, source))
    ensures Unchanged(job, io, digest, files, source) <==> Unchanged(job, io, digest, fs, source)
  {
  }

  lemma ReadyLater(
    job: Job, env: nat -> Io, digest: Digest, fs: Files, paths: seq<Path>, n: nat, st: RunState)
    requires n < |paths| && Collected(job, fs, paths) && Separate(job)
    requires LaterSame(job, fs, paths, n, st) && TargetPath(job, paths[n]) != paths[n]
    ensures LaterSame(job, fs, paths, n + 1,
                      Recorded(job, digest, st, paths[n], ReadyEffect(job, env(n), digest, st.files, paths[n])))
  {
    assert SameAt(st.files, fs, paths[n]);
    if !Unchanged(job, env(n), digest, st.files, paths[n]) {
      var files := Replaced(job.mode, st.files, paths[n], TargetPath(job, paths[n]));
      forall k | n < k < |paths| ensures SameAt(files, fs, paths[k]) && SameAt(files, fs, TargetPath(job, paths[k])) {
        LaterSameAt(job, fs, paths, n, k, st.files);
      }
    }
  }

  lemma ReadyNext(
    job: Job, env: nat -> Io, digest: Digest, fs: Files, paths: seq<Path>, n: nat, st: RunState, st': RunState)
    requires n < |paths| && Collected(job, fs, paths) && Separate(job)
    requires LaterSame(job, fs, paths, n, st) && TargetPath(job, paths[n]) != paths[n]
    requires Overwritten(st.items, fs) == Foreseen(job, env, digest, fs, paths, n)
    requires st' == Recorded(job, digest, st, paths[n], ReadyEffect(job, env(n), digest, st.files, paths[n]))
    ensures LaterSame(job, fs, paths, n + 1, st')
    ensures Overwritten(st'.items, fs) == Foreseen(job, env, digest, fs, paths, n + 1)
  {
    ReadyLater(job, env, digest, fs, paths, n, st);
    var source := paths[n];
    assert SameAt(st.files, fs, source) && SameAt(st.files, fs, TargetPath(job, source));
    StillUnchanged(job, env(n), digest, fs, st.files, source);
    ForeseenNext(job, env, digest, fs, paths, n);
    var item := ReadyItem(job, env(n), digest, st, source);
    OverwrittenNext(st.items, item, fs);
  }

  lemma {:induction false} ReadyPrefix(
    job: Job, handler: Handler, env: nat -> Io, digest: Digest, fs: Files, paths: seq<Path>, n: nat) returns (st: RunState)
    requires AllReady(job, handler, env, digest)
    requires n <= |paths| && Collected(job, fs, paths) && Separate(job)
    ensures st == RunPrefix(job, handler, digest, fs, paths, n) && LaterSame(job, fs, paths, n, st)
    ensures Overwritten(st.items, fs) == Foreseen(job, env, digest, fs, paths, n)
  {
    if n > 0 {
      var before := ReadyPrefix(job, handler, env, digest, fs, paths, n - 1);
      var source := paths[n - 1];
      assert SameAt(before.files, fs, source);
      TargetNotSource(job, source, source);
      var effect := ReadyEffect(job, env(n - 1), digest, before.files, source);
      assert handler(before.files, source, n - 1) == effect;
      st := Recorded(job, digest, before, source, effect);
      ReadyNext(job, env, digest, fs, paths, n - 1, before, st);
    } else {
      st := RunState(fs, [], 0, 0, 0, false);
    }
  }

  /** On a ready disk what an overwriting run and a rollback lose is known before the run: the targets
      of the files it gets to that exist and that smart sync does not take for unchanged. */
  lemma OverwriteForeseen(
    job: Job, env: nat -> Io, digest: Digest, fs: Files, paths: seq<Path>, cancelAt: nat, os: nat -> bool)
    requires job.conflict == Overwrite && AlwaysReady(env) && Willing(os)
    requires Collected(job, fs, paths) && Separate(job)
    ensures var st := Run(job, env, digest, fs, paths, cancelAt);
            UndoItems(st.files, st.items, digest, os).files
            == fs - Foreseen(job, env, digest, fs, paths, Min(cancelAt, |paths|))
  {
    assert forall i: nat :: Ready(env(i)) ==> Reliable(env(i));
    HandlingReady(job, env, digest);
    var st := ReadyPrefix(job, Handling(job, env, digest), env, digest, fs, paths, Min(cancelAt, |paths|));
    OverwriteThenUndo(job, env, digest, fs, paths, cancelAt, os);
  }

  // ---- Move with verification loses nothing ----

  /** The bytes a file had at first, up to hash, are at its path or at a target recorded for it. */
  ghost predicate Accounted(digest: Digest, fs: Files, st: RunState, path: Path)
    requires path in fs
  {
    || (path in st.files && digest(st.files[path]) == digest(fs[path]))
    || exists item <- st.items ::
         item.source == path && item.target in st.files && digest(st.files[item.target]) == digest(fs[path])
  }

  /** What a verified move of `source` may do to the disk; `t` is where it put the file, or `source`. */
  ghost predicate SafeMove(job: Job, digest: Digest, fs: Files, source: Path, t: Path, effect: Effect)
    requires source in fs && source != []
  {
    && (t == source || t !in fs || (job.conflict == Overwrite && t == TargetPath(job, source)))
    && (forall p :: p in fs && p != source && p != t ==> p in effect.files && effect.files[p] == fs[p])
    && if effect.outcome.Done? && effect.outcome.status == Moved
       then && t != source && t == effect.outcome.target && t in effect.files
            && digest(effect.files[t]) == digest(fs[source])
            && (job.conflict == Overwrite ==> t == TargetPath(job, source))
       else && source in effect.files && effect.files[source] == fs[source]
            && (effect.outcome.Done? ==> effect.outcome.target == TargetPath(job, source))
  }

  lemma VerifiedMoveInto(job: Job, io: Io, digest: Digest, fs: Files, source: Path, t: Path)
    requires job.options.verifyAfterCopy && source in fs && source != [] && t != source
    requires if job.conflict == Overwrite then t == TargetPath(job, source) else t !in fs
    ensures SafeMove(job, digest, fs, source, t, MoveFile(job, io, digest, fs, source, t))
  {
  }

  /** Whatever the disk does, a verified move touches only the file and its target, and ends with
      the file in place or with its hash at the recorded target. */
  lemma VerifiedMove(job: Job, io: Io, digest: Digest, fs: Files, source: Path) returns (t: Path)
    requires job.mode.Move? && job.options.verifyAfterCopy
    requires source in fs && source != [] && TargetPath(job, source) != source
    ensures SafeMove(job, digest, fs, source, t, Process(job, io, digest, fs, source))
  {
    var candidate := TargetPath(job, source);
    var r := Resolve(fs, candidate, job.targetDir, FileName(source), job.conflict);
    t := source;
    if r.Use? && Process(job, io, digest, fs, source) == MoveFile(job, io, digest, fs, source, r.path) {
      if job.conflict != Overwrite {
        ResolvedIsFree(fs, candidate, job.targetDir, FileName(source), job.conflict);
      }
      t := r.path;
      VerifiedMoveInto(job, io, digest, fs, source, t);
    }
  }

  /** An item of one of the files before the `n`th; its target is no later file. */
  predicate EarlierMove(job: Job, paths: seq<Path>, n: nat, item: RollbackItem)
    requires n <= |paths|
  {
    && (forall k :: n <= k < |paths| ==> item.target != paths[k])
    && (job.conflict == Overwrite ==> EarlierItem(job, paths, n, item))
  }

  /** After `n` files of a verified move: later files are as they were, and the items are those of
      earlier files. */
  ghost predicate LaterStay(job: Job, fs: Files, paths: seq<Path>, n: nat, st: RunState)
    requires n <= |paths| && Collected(job, fs, paths)
  {
    && (forall k :: n <= k < |paths| ==> SameAt(st.files, fs, paths[k]))
    && (forall item <- st.items :: EarlierMove(job, paths, n, item))
  }

  ghost predicate SafelyMoved(job: Job, digest: Digest, fs: Files, source: Path, effect: Effect)
    requires source in fs && source != []
  {
    exists t :: SafeMove(job, digest, fs, source, t, effect)
  }

  lemma LaterStayRecorded(
    job: Job, digest: Digest, fs: Files, paths: seq<Path>, n: nat, st: RunState, effect: Effect)
    requires n < |paths| && Collected(job, fs, paths) && Separate(job)
    requires paths[n] in st.files && LaterStay(job, fs, paths, n, st)
    requires SafelyMoved(job, digest, st.files, paths[n], effect)
    ensures LaterStay(job, fs, paths, n + 1, Recorded(job, digest, st, paths[n], effect))
  {
    var t :| SafeMove(job, digest, st.files, paths[n], t, effect);
    forall k | n < k < |paths| ensures paths[k] != t && TargetPath(job, paths[n]) != paths[k] {
      assert SameAt(st.files, fs, paths[k]);
      TargetNotSource(job, paths[n], paths[k]);
    }
  }

  /** A move that puts its file at `t` disturbs neither another file nor an earlier recorded target. */
  lemma StillAccounted(
    job: Job, digest: Digest, fs: Files, paths: seq<Path>, n: nat, st: RunState, effect: Effect, t: Path, k: nat)
    requires n < |paths| && k < |paths| && Collected(job, fs, paths) && Separate(job)
    requires SameAt(st.files, fs, paths[n]) && LaterStay(job, fs, paths, n, st)
    requires Accounted(digest, fs, st, paths[k]) && SafeMove(job, digest, st.files, paths[n], t, effect)
    ensures Accounted(digest, fs, Recorded(job, digest, st, paths[n], effect), paths[k])
  {
    var st' := Recorded(job, digest, st, paths[n], effect);
    if k == n {
      if effect.outcome.Done? && effect.outcome.status == Moved {
        var item := st'.items[|st.items|];
        assert item in st'.items && item.source == paths[k] && item.target == t;
      }
    } else if paths[k] in st.files && digest(st.files[paths[k]]) == digest(fs[paths[k]]) {
      TargetNotSource(job, paths[n], paths[k]);
    } else {
      var item :| item in st.items && item.source == paths[k] && item.target in st.files
                  && digest(st.files[item.target]) == digest(fs[paths[k]]);
      assert item in st'.items;
      assert EarlierMove(job, paths, n, item);
      if job.conflict == Overwrite {
        EarlierItemApart(job, fs, paths, n, item);
      }
    }
  }

  /** A handler that moves safely. */
  ghost predicate AllSafe(job: Job, handler: Handler, digest: Digest) {
    forall fs, source, k {:trigger SafelyMoved(job, digest, fs, source, handler(fs, source, k))} ::
      source in fs && source != [] && TargetPath(job, source) != source
      ==> SafelyMoved(job, digest, fs, source, handler(fs, source, k))
  }

  lemma HandlingSafe(job: Job, env: nat -> Io, digest: Digest)
    requires job.mode.Move? && job.options.verifyAfterCopy
    ensures AllSafe(job, Handling(job, env, digest), digest)
  {
    forall fs, source: Path, k: nat | source in fs && source != [] && TargetPath(job, source) != source
      ensures SafelyMoved(job, digest, fs, source, Handling(job, env, digest)(fs, source, k))
    {
      var t := VerifiedMove(job, env(k), digest, fs, source);
    }
  }

  /** What the handler does with the next file is safe. */
  lemma NextSafe(job: Job, handler: Handler, digest: Digest, fs: Files, paths: seq<Path>, n: nat, st: RunState)
    requires AllSafe(job, handler, digest)
    requires n < |paths| && Collected(job, fs, paths) && Separate(job) && LaterStay(job, fs, paths, n, st)
    ensures paths[n] in st.files && SameAt(st.files, fs, paths[n])
    ensures SafelyMoved(job, digest, st.files, paths[n], handler(st.files, paths[n], n))
  {
    assert SameAt(st.files, fs, paths[n]);
    TargetNotSource(job, paths[n], paths[n]);
  }

  lemma LaterStayNext(job: Job, handler: Handler, digest: Digest, fs: Files, paths: seq<Path>, n: nat, st: RunState)
    requires AllSafe(job, handler, digest)
    requires n < |paths| && Collected(job, fs, paths) && Separate(job) && LaterStay(job, fs, paths, n, st)
    ensures LaterStay(job, fs, paths, n + 1, Step(job, handler, digest, st, paths[n], n))
  {
    if !st.aborted {
      NextSafe(job, handler, digest, fs, paths, n, st);
      LaterStayRecorded(job, digest, fs, paths, n, st, handler(st.files, paths[n], n));
    }
  }

  lemma {:induction false} LaterStayPrefix(job: Job, handler: Handler, digest: Digest, fs: Files, paths: seq<Path>, n: nat)
    requires AllSafe(job, handler, digest)
    requires n <= |paths| && Collected(job, fs, paths) && Separate(job)
    ensures LaterStay(job, fs, paths, n, RunPrefix(job, handler, digest, fs, paths, n))
  {
    if n > 0 {
      LaterStayPrefix(job, handler, digest, fs, paths, n - 1);
      LaterStayNext(job, handler, digest, fs, paths, n - 1, RunPrefix(job, handler, digest, fs, paths, n - 1));
    }
  }

  lemma AccountedNext(
    job: Job, handler: Handler, digest: Digest, fs: Files, paths: seq<Path>, n: nat, st: RunState, k: nat)
    requires AllSafe(job, handler, digest)
    requires n < |paths| && k < |paths| && Collected(job, fs, paths) && Separate(job)
    requires LaterStay(job, fs, paths, n, st) && Accounted(digest, fs, st, paths[k])
    ensures Accounted(digest, fs, Step(job, handler, digest, st, paths[n], n), paths[k])
  {
    if !st.aborted {
      NextSafe(job, handler, digest, fs, paths, n, st);
      var effect := handler(st.files, paths[n], n);
      var t :| SafeMove(job, digest, st.files, paths[n], t, effect);
      StillAccounted(job, digest, fs, paths, n, st, effect, t, k);
    }
  }

  lemma {:induction false} AccountedPrefix(
    job: Job, handler: Handler, digest: Digest, fs: Files, paths: seq<Path>, n: nat, k: nat)
    requires AllSafe(job, handler, digest)
    requires n <= |paths| && k < |paths| && Collected(job, fs, paths) && Separate(job)
    ensures Accounted(digest, fs, RunPrefix(job, handler, digest, fs, paths, n), paths[k])
  {
    if n > 0 {
      var st := RunPrefix(job, handler, digest, fs, paths, n - 1);
      AccountedPrefix(job, handler, digest, fs, paths, n - 1, k);
      LaterStayPrefix(job, handler, digest, fs, paths, n - 1);
      AccountedNext(job, handler, digest, fs, paths, n - 1, st, k);
    }
  }

  /** Nothing is lost in Move mode with verification, under every conflict strategy and whatever
      the disk refuses, garbles or leaves half-written, wherever the run stops. */
  lemma NothingLost(job: Job, env: nat -> Io, digest: Digest, fs: Files, paths: seq<Path>, cancelAt: nat)
    requires job.mode.Move? && job.options.verifyAfterCopy
    requires Collected(job, fs, paths) && Separate(job)
    ensures forall k :: 0 <= k < |paths| ==>
              Accounted(digest, fs, Run(job, env, digest, fs, paths, cancelAt), paths[k])
  {
    HandlingSafe(job, env, digest);
    forall k | 0 <= k < |paths| ensures Accounted(digest, fs, Run(job, env, digest, fs, paths, cancelAt), paths[k]) {
      AccountedPrefix(job, Handling(job, env, digest), digest, fs, paths, Min(cancelAt, |paths|), k);
    }
  }

  // ---- Move conserves contents ----

  /** The contents at some paths, with multiplicity. */
  ghost function ContentsAt(fs: Files, paths: set<Path>): multiset<Bytes>
    requires paths <= fs.Keys
  {
    if paths == {} then multiset{}
    else
      var p :| p in paths;
      multiset{fs[p]} + ContentsAt(fs, paths - {p})
  }

  /** The contents on the disk, with multiplicity. */
  ghost function Contents(fs: Files): multiset<Bytes> {
    ContentsAt(fs, fs.Keys)
  }

  lemma {:induction false} ContentsWithout(fs: Files, paths: set<Path>, q: Path)
    requires paths <= fs.Keys && q in paths
    ensures ContentsAt(fs, paths) == multiset{fs[q]} + ContentsAt(fs, paths - {q})
    decreases |paths|
  {
    var p :| p in paths && ContentsAt(fs, paths) == multiset{fs[p]} + ContentsAt(fs, paths - {p});
    if p != q {
      ContentsWithout(fs, paths - {p}, q);
      ContentsWithout(fs, paths - {q}, p);
      assert paths - {p} - {q} == paths - {q} - {p};
    }
  }

  lemma {:induction false} ContentsAgree(fs: Files, fs': Files, paths: set<Path>)
    requires paths <= fs.Keys && paths <= fs'.Keys && forall p <- paths :: fs[p] == fs'[p]
    ensures ContentsAt(fs, paths) == ContentsAt(fs', paths)
    decreases |paths|
  {
    if paths != {} {
      var p :| p in paths;
      ContentsWithout(fs, paths, p);
      ContentsWithout(fs', paths, p);
      ContentsAgree(fs, fs', paths - {p});
    }
  }

  lemma RenamedContents(fs: Files, source: Path, target: Path)
    requires source in fs && target !in fs
    ensures Contents(Renamed(fs, source, target)) == Contents(fs)
  {
    var fs' := Renamed(fs, source, target);
    var rest := fs.Keys - {source};
    assert fs'.Keys - {target} == rest;
    ContentsWithout(fs, fs.Keys, source);
    ContentsWithout(fs', fs'.Keys, target);
    ContentsAgree(fs, fs', rest);
  }

  lemma ProcessConserves(job: Job, io: Io, digest: Digest, fs: Files, file: Path)
    requires job.mode.Move? && job.conflict != Overwrite && Faithful(io)
    ensures Contents(Process(job, io, digest, fs, file).files) == Contents(fs)
  {
    if file != [] {
      var candidate := TargetPath(job, file);
      var r := Resolve(fs, candidate, job.targetDir, FileName(file), job.conflict);
      ResolvedIsFree(fs, candidate, job.targetDir, FileName(file), job.conflict);
      if r.Use? {
        TransferShape(job, io, digest, fs, file, r.path);
        if file in fs {
          RenamedContents(fs, file, r.path);
        }
      }
    }
  }

  /** What every handling of a file keeps, a run keeps. */
  lemma {:induction false} PrefixKeeps(
    job: Job, handler: Handler, digest: Digest, fs: Files, paths: seq<Path>, n: nat, measure: Files -> multiset<Bytes>)
    requires forall files, path, k :: measure(handler(files, path, k).files) == measure(files)
    requires n <= |paths|
    ensures measure(RunPrefix(job, handler, digest, fs, paths, n).files) == measure(fs)
  {
    if n > 0 {
      PrefixKeeps(job, handler, digest, fs, paths, n - 1, measure);
    }
  }

  /** A faithful Move run under Skip or Rename, wherever it stops, conserves the multiset of contents. */
  lemma MoveConserves(job: Job, env: nat -> Io, digest: Digest, fs: Files, paths: seq<Path>, cancelAt: nat)
    requires job.mode.Move? && job.conflict != Overwrite && AlwaysFaithful(env)
    ensures Contents(Run(job, env, digest, fs, paths, cancelAt).files) == Contents(fs)
  {
    var handler := Handling(job, env, digest);
    var measure := files => Contents(files);
    forall files, path, k: nat ensures measure(handler(files, path, k).files) == measure(files) {
      ProcessConserves(job, env(k), digest, files, path);
    }
    PrefixKeeps(job, handler, digest, fs, paths, Min(cancelAt, |paths|), measure);
  }
}
