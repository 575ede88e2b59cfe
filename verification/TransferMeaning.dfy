/** What a transfer does to the disk, said by paths and bytes. */
module TransferMeaning {
  import opened Wrappers
  import opened FileSystem
  import opened Execution
  import opened RunUndo
  import opened MoveSafety

  // ---- names ----

  /** A file keeps its place below the root; a root that is a file keeps its name. */
  lemma TargetMeaning(job: Job, below: Path)
    requires job.rootIsFile ==> below == [] && job.sourceRoot != []
    ensures TargetPath(job, job.sourceRoot + below)
            == job.targetDir + (if job.rootIsFile then [job.sourceRoot[|job.sourceRoot| - 1]] else below)
  {
    var source := job.sourceRoot + below;
    if job.rootIsFile {
      assert source == job.sourceRoot;
    } else {
      assert job.sourceRoot <= source && source[|job.sourceRoot|..] == below;
    }
  }

  /** The number goes before the last extension; a leading dot starts no extension. */
  lemma NumberedMeaning(parent: Path, stem: string, ext: string, name: string, i: nat)
    requires stem != "" && '.' !in ext && '.' !in name
    ensures Numbered(parent, stem + ("." + ext), i) == parent + [stem + " (" + Decimal(i) + ")" + ("." + ext)]
    ensures Numbered(parent, name, i) == parent + [name + " (" + Decimal(i) + ")"]
    ensures Numbered(parent, "." + name, i) == parent + ["." + name + " (" + Decimal(i) + ")"]
  {
    var full := stem + ("." + ext);
    LastDotAt(full, |full|, |stem|);
    NoDot(name, |name|);
    var hidden := "." + name;
    assert forall k :: 0 < k < |hidden| ==> hidden[k] == name[k - 1];
    LastDotAt(hidden, |hidden|, 0);
    assert full[..|stem|] == stem && full[|stem|..] == "." + ext;
    assert name[..|name|] == name && name[|name|..] == "";
    assert hidden[..|hidden|] == hidden && hidden[|hidden|..] == "";
    NothingAdded(name + " (" + Decimal(i) + ")");
    NothingAdded(hidden + " (" + Decimal(i) + ")");
  }

  lemma NothingAdded(s: string)
    ensures s + "" == s
  {
  }

  lemma {:induction false} LastDotAt(name: string, from: nat, dot: nat)
    requires dot < from <= |name| && name[dot] == '.' && forall k :: dot < k < from ==> name[k] != '.'
    ensures LastDot(name, from) == dot
  {
    if from > dot + 1 {
      LastDotAt(name, from - 1, dot);
    }
  }

  lemma {:induction false} NoDot(name: string, from: nat)
    requires from <= |name| && '.' !in name
    ensures LastDot(name, from) == |name|
  {
    if from > 0 {
      assert name[from - 1] in name;
      NoDot(name, from - 1);
    }
  }

  // ---- one file ----

  /** `source` is at `target`, too, or instead, by the mode of the job; nothing else changed. */
  predicate Transferred(job: Job, fs: Files, source: Path, target: Path, effect: Effect)
    requires source in fs
  {
    match job.mode
    case Copy => effect.files == fs[target := fs[source]] && effect.outcome == Done(target, Copied)
    case Move => effect.files == (fs - {source})[target := fs[source]] && effect.outcome == Done(target, Moved)
  }

  /** Nothing changed, and the file counts as skipped at `target`. */
  predicate LeftAlone(fs: Files, target: Path, effect: Effect) {
    effect.files == fs && effect.outcome == Done(target, Ignored)
  }

  /** Smart sync takes two files for the same: equal sizes, and equal times unless that is not
      enough, or equal hashes. */
  predicate TakenForSame(job: Job, io: Io, digest: Digest, a: Bytes, b: Bytes) {
    && job.options.smartSync && |a| == |b|
    && ((io.sameMtime && !job.options.strictHashSync) || digest(a) == digest(b))
  }

  /** A file whose target is free is transferred to it, under every conflict strategy. */
  lemma FreeTarget(job: Job, io: Io, digest: Digest, fs: Files, source: Path)
    requires Faithful(io) && io.parentReady && (io.copies || (job.mode.Move? && io.renames))
    requires source in fs && source != [] && TargetPath(job, source) !in fs
    ensures Transferred(job, fs, source, TargetPath(job, source), Process(job, io, digest, fs, source))
  {
    var target := TargetPath(job, source);
    TransferShape(job, io, digest, fs, source, target);
    assert Renamed(fs, source, target) == (fs - {source})[target := fs[source]];
  }

  /** A file whose target is taken is left alone when smart sync takes the two for the same; else the
      strategy decides: Skip leaves it alone, Overwrite replaces the target, Rename puts it under the
      least free number from 1 on, and fails when all below 1000 are taken. */
  lemma TakenTarget(job: Job, io: Io, digest: Digest, fs: Files, source: Path) returns (k: nat)
    requires Ready(io) && source in fs && source != []
    requires TargetPath(job, source) in fs && TargetPath(job, source) != source
    ensures var target := TargetPath(job, source);
            var effect := Process(job, io, digest, fs, source);
            var parent, name := if target == [] then job.targetDir else target[..|target| - 1], source[|source| - 1];
            && (TakenForSame(job, io, digest, fs[source], fs[target]) ==> LeftAlone(fs, target, effect))
            && (!TakenForSame(job, io, digest, fs[source], fs[target]) ==>
                  match job.conflict
                  case Skip => LeftAlone(fs, target, effect)
                  case Overwrite => Transferred(job, fs, source, target, effect)
                  case Rename =>
                    && 1 <= k <= 1000 && (forall j: nat :: 1 <= j < k ==> Numbered(parent, name, j) in fs)
                    && if k == 1000 then effect == Effect(fs, Failed)
                       else Numbered(parent, name, k) !in fs && Transferred(job, fs, source, Numbered(parent, name, k), effect))
  {
    var target := TargetPath(job, source);
    k := 0;
    if !TakenForSame(job, io, digest, fs[source], fs[target]) {
      match job.conflict
      case Skip =>
      case Overwrite => ReplacedTarget(job, io, digest, fs, source);
      case Rename => k := RenamedTarget(job, io, digest, fs, source);
    }
  }

  lemma ReplacedTarget(job: Job, io: Io, digest: Digest, fs: Files, source: Path)
    requires Ready(io) && source in fs && source != [] && job.conflict == Overwrite
    requires TargetPath(job, source) in fs && TargetPath(job, source) != source
    requires !TakenForSame(job, io, digest, fs[source], fs[TargetPath(job, source)])
    ensures Transferred(job, fs, source, TargetPath(job, source), Process(job, io, digest, fs, source))
  {
    var target := TargetPath(job, source);
    ReplaceShape(job, io, digest, fs, source, target);
    assert Renamed(fs - {target}, source, target) == (fs - {source})[target := fs[source]];
  }

  lemma RenamedTarget(job: Job, io: Io, digest: Digest, fs: Files, source: Path) returns (k: nat)
    requires Ready(io) && source in fs && source != [] && job.conflict == Rename
    requires TargetPath(job, source) in fs && TargetPath(job, source) != source
    requires !TakenForSame(job, io, digest, fs[source], fs[TargetPath(job, source)])
    ensures var target := TargetPath(job, source);
            var effect := Process(job, io, digest, fs, source);
            var parent, name := if target == [] then job.targetDir else target[..|target| - 1], source[|source| - 1];
            && 1 <= k <= 1000 && (forall j: nat :: 1 <= j < k ==> Numbered(parent, name, j) in fs)
            && if k == 1000 then effect == Effect(fs, Failed)
               else Numbered(parent, name, k) !in fs && Transferred(job, fs, source, Numbered(parent, name, k), effect)
  {
    var target := TargetPath(job, source);
    var parent := if target == [] then job.targetDir else Parent(target);
    k := FirstFreeMeaning(fs, parent, FileName(source), FIRST_NUMBER);
    assert Taken(fs, parent, FileName(source), FIRST_NUMBER, k);
    if k < NUMBER_LIMIT {
      var free := Numbered(parent, FileName(source), k);
      TransferShape(job, io, digest, fs, source, free);
      assert Renamed(fs, source, free) == (fs - {source})[free := fs[source]];
    }
  }

  /** A missing file is not transferred, and nothing changes unless a target was to be overwritten. */
  lemma MissingFile(job: Job, io: Io, digest: Digest, fs: Files, source: Path)
    requires source !in fs || source == []
    ensures var effect := Process(job, io, digest, fs, source);
            && (effect.outcome.Failed? || effect.outcome.status == Ignored)
            && (job.conflict != Overwrite ==> effect.files == fs)
  {
  }

  /** Without a directory to put it in, a file is not transferred and nothing changes. */
  lemma NoDirectory(job: Job, io: Io, digest: Digest, fs: Files, source: Path)
    requires !io.parentReady
    ensures var effect := Process(job, io, digest, fs, source);
            effect.files == fs && (effect.outcome.Failed? || effect.outcome.status == Ignored)
  {
  }

  /** Whatever the disk does, copying never touches a file that was there, unless it may overwrite the
      file's own target. */
  lemma CopyKeepsOthers(job: Job, io: Io, digest: Digest, fs: Files, source: Path, p: Path)
    requires job.mode.Copy? && p in fs
    requires job.conflict == Overwrite ==> source != [] ==> p != TargetPath(job, source)
    ensures var files := Process(job, io, digest, fs, source).files; p in files && files[p] == fs[p]
  {
    if source != [] && job.conflict != Overwrite {
      ResolvedIsFree(fs, TargetPath(job, source), job.targetDir, FileName(source), job.conflict);
    }
  }

  /** Whatever the disk does, a copy reported as done with verification on has the hash of its source,
      which is still there. */
  lemma VerifiedCopy(job: Job, io: Io, digest: Digest, fs: Files, source: Path)
    requires job.mode.Copy? && job.options.verifyAfterCopy && source in fs
    requires source != [] && TargetPath(job, source) != source
    ensures var effect := Process(job, io, digest, fs, source);
            effect.outcome.Done? && effect.outcome.status != Ignored ==>
              var t := effect.outcome.target;
              && effect.outcome.status == Copied && t in effect.files && digest(effect.files[t]) == digest(fs[source])
              && source in effect.files && effect.files[source] == fs[source]
  {
    if job.conflict != Overwrite {
      ResolvedIsFree(fs, TargetPath(job, source), job.targetDir, FileName(source), job.conflict);
    }
  }

  /** Whatever the disk does, a file reported as moved is at the target reported and no longer at its
      source; with verification on, with its hash. */
  lemma MovedIsMoved(job: Job, io: Io, digest: Digest, fs: Files, source: Path)
    requires job.mode.Move? && source != [] && TargetPath(job, source) != source
    ensures var effect := Process(job, io, digest, fs, source);
            effect.outcome.Done? && effect.outcome.status != Ignored ==>
              var t := effect.outcome.target;
              && effect.outcome.status == Moved && source in fs && source !in effect.files && t in effect.files
              && (job.options.verifyAfterCopy ==> digest(effect.files[t]) == digest(fs[source]))
  {
    if job.conflict != Overwrite {
      ResolvedIsFree(fs, TargetPath(job, source), job.targetDir, FileName(source), job.conflict);
    }
  }

  /** A verified copy that does not match is left where it is, and the file counts as failed. */
  lemma MismatchedCopyStays(job: Job, io: Io, digest: Digest, fs: Files, source: Path)
    requires job.mode.Copy? && job.options.verifyAfterCopy && io.parentReady && io.copies
    requires source in fs && source != [] && TargetPath(job, source) !in fs
    requires digest(Landed(io, fs[source])) != digest(fs[source])
    ensures Process(job, io, digest, fs, source) == Effect(fs[TargetPath(job, source) := Landed(io, fs[source])], Failed)
  {
  }

  /** A move to a free target that fails leaves nothing behind, as long as the system breaks off no copy
      and removes what it is told to. */
  lemma FailedMoveLeavesNothing(job: Job, io: Io, digest: Digest, fs: Files, source: Path)
    requires job.mode.Move? && io.copies && io.discards && io.removes
    requires source != [] && TargetPath(job, source) !in fs
    ensures var effect := Process(job, io, digest, fs, source);
            && (effect.outcome.Failed? ==> effect.files == fs)
            && (source in fs && io.parentReady ==>
                  (effect.outcome.Failed?
                   <==> !io.renames && job.options.verifyAfterCopy && digest(Landed(io, fs[source])) != digest(fs[source])))
  {
    var target := TargetPath(job, source);
    if source in fs {
      assert fs[target := Landed(io, fs[source])] - {target} == fs;
    }
  }

  // ---- a run ----

  lemma {:induction false} CopyPrefixKeeps(
    job: Job, handler: Handler, digest: Digest, fs: Files, paths: seq<Path>, n: nat, p: Path)
    requires forall files, path, k :: p in files ==> p in handler(files, path, k).files && handler(files, path, k).files[p] == files[p]
    requires n <= |paths| && p in fs
    ensures var files := RunPrefix(job, handler, digest, fs, paths, n).files; p in files && files[p] == fs[p]
  {
    if n > 0 {
      CopyPrefixKeeps(job, handler, digest, fs, paths, n - 1, p);
    }
  }

  /** A Copy run under Skip or Rename keeps every file that was there, byte for byte, whatever the disk
      does and wherever the run stops. */
  lemma CopyRunKeeps(job: Job, env: nat -> Io, digest: Digest, fs: Files, paths: seq<Path>, cancelAt: nat)
    requires job.mode.Copy? && job.conflict != Overwrite
    ensures var files := Run(job, env, digest, fs, paths, cancelAt).files;
            forall p <- fs :: p in files && files[p] == fs[p]
  {
    var handler := Handling(job, env, digest);
    forall p | p in fs
      ensures var files := Run(job, env, digest, fs, paths, cancelAt).files; p in files && files[p] == fs[p]
    {
      forall files, path, k: nat | p in files
        ensures p in handler(files, path, k).files && handler(files, path, k).files[p] == files[p]
      {
        CopyKeepsOthers(job, env(k), digest, files, path, p);
      }
      CopyPrefixKeeps(job, handler, digest, fs, paths, Min(cancelAt, |paths|), p);
    }
  }

  /** Whether smart sync leaves the `i`th file alone, told from the disk before the run. */
  predicate Kept(job: Job, env: nat -> Io, digest: Digest, fs: Files, paths: seq<Path>, i: nat)
    requires i < |paths| && paths[i] in fs && paths[i] != []
  {
    var target := TargetPath(job, paths[i]);
    target in fs && TakenForSame(job, env(i), digest, fs[paths[i]], fs[target])
  }

  /** What one file comes to on a ready disk when its target is free or may be overwritten. */
  predicate FileDelivered(job: Job, io: Io, digest: Digest, fs: Files, source: Path, effect: Effect)
    requires source in fs && source != []
  {
    var target := TargetPath(job, source);
    if target in fs && TakenForSame(job, io, digest, fs[source], fs[target]) then LeftAlone(fs, target, effect)
    else Transferred(job, fs, source, target, effect)
  }

  lemma DeliversFile(job: Job, io: Io, digest: Digest, fs: Files, source: Path)
    requires Ready(io) && source in fs && source != [] && TargetPath(job, source) != source
    requires job.conflict == Overwrite || TargetPath(job, source) !in fs
    ensures FileDelivered(job, io, digest, fs, source, Process(job, io, digest, fs, source))
  {
    if TargetPath(job, source) in fs {
      var _ := TakenTarget(job, io, digest, fs, source);
    } else {
      FreeTarget(job, io, digest, fs, source);
    }
  }

  ghost predicate AllDelivered(job: Job, handler: Handler, env: nat -> Io, digest: Digest) {
    forall fs, source, k {:trigger FileDelivered(job, env(k), digest, fs, source, handler(fs, source, k))} ::
      source in fs && source != [] && TargetPath(job, source) != source
      && (job.conflict == Overwrite || TargetPath(job, source) !in fs)
      ==> FileDelivered(job, env(k), digest, fs, source, handler(fs, source, k))
  }

  lemma HandlingDelivers(job: Job, env: nat -> Io, digest: Digest)
    requires AlwaysReady(env)
    ensures AllDelivered(job, Handling(job, env, digest), env, digest)
  {
    forall fs, source: Path, k: nat
      | source in fs && source != [] && TargetPath(job, source) != source
        && (job.conflict == Overwrite || TargetPath(job, source) !in fs)
      ensures FileDelivered(job, env(k), digest, fs, source, Handling(job, env, digest)(fs, source, k))
    {
      DeliversFile(job, env(k), digest, fs, source);
    }
  }

  /** The record of the `i`th file: its hash is that of the bytes transferred. */
  predicate RecordOf(job: Job, env: nat -> Io, digest: Digest, fs: Files, paths: seq<Path>, i: nat, item: RollbackItem)
    requires i < |paths| && paths[i] in fs && paths[i] != []
  {
    && item.source == paths[i] && item.target == TargetPath(job, paths[i]) && item.mode == job.mode
    && if Kept(job, env, digest, fs, paths, i) then item.status == Ignored && item.targetHash == None
       else && item.status == (match job.mode case Copy => Copied case Move => Moved)
            && item.targetHash == Some(digest(fs[paths[i]]))
  }

  /** Whether handling the `i`th file bears on a path. */
  predicate BearsOn(job: Job, env: nat -> Io, digest: Digest, fs: Files, paths: seq<Path>, i: nat, p: Path)
    requires i < |paths| && paths[i] in fs && paths[i] != []
  {
    !Kept(job, env, digest, fs, paths, i) && (p == TargetPath(job, paths[i]) || (job.mode.Move? && p == paths[i]))
  }

  /** After `n` files: each of them is at its target, in Move mode not at its source any more, and
      recorded, unless smart sync kept it; every other path is as it was. */
  ghost predicate Delivered(
    job: Job, env: nat -> Io, digest: Digest, fs: Files, paths: seq<Path>, n: nat, files: Files)
    requires n <= |paths| && Collected(job, fs, paths)
  {
    && (forall i :: 0 <= i < n && !Kept(job, env, digest, fs, paths, i) ==>
          var target := TargetPath(job, paths[i]); target in files && files[target] == fs[paths[i]])
    && (forall i :: 0 <= i < n && !Kept(job, env, digest, fs, paths, i) && job.mode.Move? ==> paths[i] !in files)
    && (forall p :: (forall i :: 0 <= i < n ==> !BearsOn(job, env, digest, fs, paths, i, p)) ==> SameAt(files, fs, p))
  }

  ghost predicate RecordedAll(
    job: Job, env: nat -> Io, digest: Digest, fs: Files, paths: seq<Path>, n: nat, st: RunState)
    requires n <= |paths| && Collected(job, fs, paths)
  {
    && !st.aborted && st.failed == 0 && |st.items| == n
    && forall i :: 0 <= i < n ==> RecordOf(job, env, digest, fs, paths, i, st.items[i])
  }

  /** Handling one file bears neither on another file nor on another file's target. */
  lemma BearsApart(job: Job, env: nat -> Io, digest: Digest, fs: Files, paths: seq<Path>, i: nat, k: nat)
    requires i < |paths| && k < |paths| && i != k && Collected(job, fs, paths) && Separate(job)
    ensures !BearsOn(job, env, digest, fs, paths, i, paths[k])
    ensures !BearsOn(job, env, digest, fs, paths, i, TargetPath(job, paths[k]))
  {
    TargetNotSource(job, paths[i], paths[k]);
    TargetNotSource(job, paths[k], paths[i]);
    if TargetPath(job, paths[i]) == TargetPath(job, paths[k]) {
      TargetInjective(job, paths[i], paths[k]);
    }
  }

  /** When its turn comes, a file and its target are as they were before the run. */
  lemma StillSame(job: Job, env: nat -> Io, digest: Digest, fs: Files, paths: seq<Path>, n: nat, files: Files)
    requires n < |paths| && Collected(job, fs, paths) && Separate(job)
    requires Delivered(job, env, digest, fs, paths, n, files)
    ensures SameAt(files, fs, paths[n]) && SameAt(files, fs, TargetPath(job, paths[n]))
    ensures TargetPath(job, paths[n]) != paths[n]
  {
    forall i | 0 <= i < n
      ensures !BearsOn(job, env, digest, fs, paths, i, paths[n])
      ensures !BearsOn(job, env, digest, fs, paths, i, TargetPath(job, paths[n]))
    {
      BearsApart(job, env, digest, fs, paths, i, n);
    }
    TargetNotSource(job, paths[n], paths[n]);
  }

  /** One more file is delivered. */
  lemma DeliveredNext(
    job: Job, env: nat -> Io, digest: Digest, fs: Files, paths: seq<Path>, n: nat, files: Files, effect: Effect)
    requires n < |paths| && Collected(job, fs, paths) && Separate(job)
    requires Delivered(job, env, digest, fs, paths, n, files)
    requires paths[n] in files && FileDelivered(job, env(n), digest, files, paths[n], effect)
    ensures Delivered(job, env, digest, fs, paths, n + 1, effect.files)
  {
    StillSame(job, env, digest, fs, paths, n, files);
    var source, target := paths[n], TargetPath(job, paths[n]);
    assert target in files && TakenForSame(job, env(n), digest, files[source], files[target])
           <==> Kept(job, env, digest, fs, paths, n);
    forall i | 0 <= i < n && !Kept(job, env, digest, fs, paths, i)
      ensures TargetPath(job, paths[i]) != target && TargetPath(job, paths[i]) != source && paths[i] != target
    {
      TargetNotSource(job, paths[i], source);
      TargetNotSource(job, source, paths[i]);
      if TargetPath(job, paths[i]) == target {
        TargetInjective(job, paths[i], source);
      }
    }
    forall p | forall i :: 0 <= i < n + 1 ==> !BearsOn(job, env, digest, fs, paths, i, p)
      ensures SameAt(effect.files, fs, p)
    {
      assert !BearsOn(job, env, digest, fs, paths, n, p);
      assert SameAt(files, fs, p);
    }
  }

  lemma RecordedNext(
    job: Job, env: nat -> Io, digest: Digest, fs: Files, paths: seq<Path>, n: nat, st: RunState, effect: Effect)
    requires n < |paths| && Collected(job, fs, paths) && Separate(job)
    requires Delivered(job, env, digest, fs, paths, n, st.files) && RecordedAll(job, env, digest, fs, paths, n, st)
    requires paths[n] in st.files && FileDelivered(job, env(n), digest, st.files, paths[n], effect)
    ensures RecordedAll(job, env, digest, fs, paths, n + 1, Recorded(job, digest, st, paths[n], effect))
  {
    StillSame(job, env, digest, fs, paths, n, st.files);
    var target := TargetPath(job, paths[n]);
    assert target in st.files && TakenForSame(job, env(n), digest, st.files[paths[n]], st.files[target])
           <==> Kept(job, env, digest, fs, paths, n);
    var st' := Recorded(job, digest, st, paths[n], effect);
    assert RecordOf(job, env, digest, fs, paths, n, st'.items[n]);
    assert forall i :: 0 <= i < n ==> st'.items[i] == st.items[i];
  }

  lemma {:induction false} DeliveredPrefix(
    job: Job, handler: Handler, env: nat -> Io, digest: Digest, fs: Files, paths: seq<Path>, n: nat)
    requires AllDelivered(job, handler, env, digest)
    requires n <= |paths| && Collected(job, fs, paths) && Separate(job)
    requires job.conflict == Overwrite || forall i :: 0 <= i < |paths| ==> TargetPath(job, paths[i]) !in fs
    ensures var st := RunPrefix(job, handler, digest, fs, paths, n);
            Delivered(job, env, digest, fs, paths, n, st.files) && RecordedAll(job, env, digest, fs, paths, n, st)
  {
    if n > 0 {
      DeliveredPrefix(job, handler, env, digest, fs, paths, n - 1);
      var st := RunPrefix(job, handler, digest, fs, paths, n - 1);
      StillSame(job, env, digest, fs, paths, n - 1, st.files);
      var effect := handler(st.files, paths[n - 1], n - 1);
      assert FileDelivered(job, env(n - 1), digest, st.files, paths[n - 1], handler(st.files, paths[n - 1], n - 1));
      DeliveredNext(job, env, digest, fs, paths, n - 1, st.files, effect);
      RecordedNext(job, env, digest, fs, paths, n - 1, st, effect);
    }
  }

  /** What a run is for: on a ready disk, when the targets are free or may be overwritten, every file
      the run gets to is at its target with its bytes, in Move mode no longer at its source, and recorded
      with the hash of its bytes; every other path is as it was. A file that smart sync takes for its
      target stays, and so does the target. */
  lemma RunDelivers(job: Job, env: nat -> Io, digest: Digest, fs: Files, paths: seq<Path>, cancelAt: nat)
    requires AlwaysReady(env) && Collected(job, fs, paths) && Separate(job)
    requires job.conflict == Overwrite || forall i :: 0 <= i < |paths| ==> TargetPath(job, paths[i]) !in fs
    ensures var n, st := Min(cancelAt, |paths|), Run(job, env, digest, fs, paths, cancelAt);
            Delivered(job, env, digest, fs, paths, n, st.files) && RecordedAll(job, env, digest, fs, paths, n, st)
  {
    HandlingDelivers(job, env, digest);
    DeliveredPrefix(job, Handling(job, env, digest), env, digest, fs, paths, Min(cancelAt, |paths|));
  }

  // ---- stopping ----

  /** Whether handling the `k`th file failed. */
  predicate FailedAt(job: Job, handler: Handler, digest: Digest, fs: Files, paths: seq<Path>, k: nat)
    requires k < |paths|
  {
    var st := RunPrefix(job, handler, digest, fs, paths, k);
    !st.aborted && handler(st.files, paths[k], k).outcome.Failed?
  }

  /** Without the option a run never aborts. With it, files under the source root are handled up to the
      first failure, which aborts the run. */
  lemma {:induction false} StopsAtFirstFailure(
    job: Job, handler: Handler, digest: Digest, fs: Files, paths: seq<Path>, n: nat)
    requires n <= |paths| && forall i :: 0 <= i < |paths| ==> job.sourceRoot <= paths[i]
    ensures var st := RunPrefix(job, handler, digest, fs, paths, n);
            && (st.failed > 0 <==> exists k :: 0 <= k < n && FailedAt(job, handler, digest, fs, paths, k))
            && (st.aborted <==> job.options.stopOnIntegrityError && st.failed > 0)
            && (job.options.stopOnIntegrityError ==> st.failed <= 1)
  {
    if n > 0 {
      StopsAtFirstFailure(job, handler, digest, fs, paths, n - 1);
      assert FailedAt(job, handler, digest, fs, paths, n - 1)
             <==> !RunPrefix(job, handler, digest, fs, paths, n - 1).aborted
                  && RunPrefix(job, handler, digest, fs, paths, n).failed > RunPrefix(job, handler, digest, fs, paths, n - 1).failed;
    }
  }
}
