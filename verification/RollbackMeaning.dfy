/** What a rollback does to the disk and what it refuses to do, said by paths, bytes and hashes. */
module RollbackMeaning {
  import opened Wrappers
  import opened FileSystem
  import opened Execution
  import opened Rollback
  import opened RunUndo
  import opened MoveSafety
  import opened TransferMeaning
  import opened BlueprintApply

  /** An item is refused when it was skipped, its target is gone, its target's hash is not the one
      recorded, or it was moved and something is at its source again. */
  predicate Refused(fs: Files, item: RollbackItem, digest: Digest) {
    || item.status == Ignored
    || item.target !in fs
    || (item.targetHash.Some? && item.targetHash.value != digest(fs[item.target]))
    || (item.status == Moved && item.source in fs)
  }

  /** The last item of a manifest is skipped and the disk left to the items before it exactly when it
      is refused or the operating system fails; else a copy is removed, and a moved file goes back. */
  lemma LastItem(fs: Files, items: seq<RollbackItem>, item: RollbackItem, digest: Digest, os: nat -> bool)
    ensures var all := UndoItems(fs, items + [item], digest, os);
            if Refused(fs, item, digest) || !os(|items|) then
              var before := UndoItems(fs, items, digest, os);
              all == Undone(before.files, before.reverted, before.skipped + 1)
            else
              var files := if item.status == Copied then fs - {item.target}
                           else (fs - {item.target})[item.source := fs[item.target]];
              var before := UndoItems(files, items, digest, os);
              all == Undone(before.files, before.reverted + 1, before.skipped)
  {
    UndoLast(fs, items, item, digest, os);
    assert Revertible(fs, item, digest) <==> !Refused(fs, item, digest);
  }

  /** Every item is counted once. */
  lemma {:induction false} UndoCounts(fs: Files, items: seq<RollbackItem>, digest: Digest, os: nat -> bool)
    ensures var u := UndoItems(fs, items, digest, os); u.reverted + u.skipped == |items|
    decreases |items|
  {
    if items != [] {
      var n := |items| - 1;
      UndoCounts(if Revertible(fs, items[n], digest) && os(n) then Reverted(fs, items[n]) else fs, items[..n], digest, os);
    }
  }

  /** No item may have recorded the bytes now at `path`, or may put a file there. */
  predicate Foreign(items: seq<RollbackItem>, path: Path, hash: string) {
    forall item <- items :: item.source != path && (item.target == path ==> item.targetHash.Some? && item.targetHash.value != hash)
  }

  /** A file whose hash no item recorded for its path, and whose path is no item's source, survives the
      rollback of the whole manifest, byte for byte. */
  lemma {:induction false} ForeignStays(fs: Files, items: seq<RollbackItem>, digest: Digest, os: nat -> bool, path: Path)
    requires path in fs && Foreign(items, path, digest(fs[path]))
    ensures var files := UndoItems(fs, items, digest, os).files; path in files && files[path] == fs[path]
    decreases |items|
  {
    if items != [] {
      var n := |items| - 1;
      var item, before := items[n], items[..n];
      assert before + [item] == items && item in items;
      assert Foreign(before, path, digest(fs[path]));
      LastItem(fs, before, item, digest, os);
      if Refused(fs, item, digest) || !os(n) {
        ForeignStays(fs, before, digest, os, path);
      } else {
        var files := if item.status == Copied then fs - {item.target}
                     else (fs - {item.target})[item.source := fs[item.target]];
        assert item.target != path;
        ForeignStays(files, before, digest, os, path);
      }
    }
  }

  /** After a run that delivered its files, a target that was edited, so that its hash changed, keeps
      its edit when the run is rolled back. */
  lemma EditSurvives(
    job: Job, env: nat -> Io, digest: Digest, fs: Files, paths: seq<Path>, cancelAt: nat, os: nat -> bool, i: nat, bytes: Bytes)
    requires AlwaysReady(env) && Collected(job, fs, paths) && Separate(job)
    requires job.conflict == Overwrite || forall k :: 0 <= k < |paths| ==> TargetPath(job, paths[k]) !in fs
    requires i < Min(cancelAt, |paths|) && !Kept(job, env, digest, fs, paths, i) && digest(bytes) != digest(fs[paths[i]])
    ensures var st, target := Run(job, env, digest, fs, paths, cancelAt), TargetPath(job, paths[i]);
            var files := UndoItems(st.files[target := bytes], st.items, digest, os).files;
            target in files && files[target] == bytes
  {
    var n, st, target := Min(cancelAt, |paths|), Run(job, env, digest, fs, paths, cancelAt), TargetPath(job, paths[i]);
    RunDelivers(job, env, digest, fs, paths, cancelAt);
    forall item | item in st.items
      ensures item.source != target && (item.target == target ==> item.targetHash.Some? && item.targetHash.value != digest(bytes))
    {
      var k :| 0 <= k < n && st.items[k] == item;
      assert RecordOf(job, env, digest, fs, paths, k, item);
      TargetNotSource(job, paths[i], paths[k]);
      if item.target == target {
        TargetInjective(job, paths[k], paths[i]);
      }
    }
    ForeignStays(st.files[target := bytes], st.items, digest, os, target);
  }

  // ---- applying a blueprint ----

  /** A plan item whose target is free, or may be overwritten, is copied or moved there and recorded
      with the hash of its bytes; a taken target is left alone under Skip. */
  lemma ItemMeaning(blueprint: Blueprint, io: Io, digest: Digest, fs: Files, item: PlanItem, st: RunState)
    requires Ready(io) && item.source in fs && item.source != item.target && st.files == fs
    ensures var st' := ApplyRecorded(blueprint, digest, st, item, ExecuteItem(blueprint, io, digest, fs, item));
            if item.target !in fs || blueprint.conflict == Overwrite then
              && st'.files == (if blueprint.operation == Copy then fs else fs - {item.source})[item.target := fs[item.source]]
              && st'.items == st.items + [RollbackItem(item.source, item.target, blueprint.operation,
                                                      if blueprint.operation == Copy then Copied else Moved,
                                                      Some(digest(fs[item.source])))]
              && st'.processed == st.processed + 1 && st'.skipped == st.skipped && st'.failed == st.failed
            else
              blueprint.conflict == Skip ==> st' == st.(skipped := st.skipped + 1)
  {
    assert (fs - {item.source})[item.target := fs[item.source]] == fs[item.target := fs[item.source]] - {item.source};
  }

  /** Under Rename a taken target's file goes to the least free number from 1 on, beside the target. */
  lemma ItemRenamed(blueprint: Blueprint, io: Io, digest: Digest, fs: Files, item: PlanItem) returns (k: nat)
    requires Ready(io) && item.source in fs && item.source != item.target
    requires item.target in fs && item.target != [] && blueprint.conflict == Rename
    ensures var parent, name := item.target[..|item.target| - 1], item.target[|item.target| - 1];
            var effect := ExecuteItem(blueprint, io, digest, fs, item);
            && 1 <= k <= 1000 && (forall j: nat :: 1 <= j < k ==> Numbered(parent, name, j) in fs)
            && if k == 1000 then effect == Effect(fs, Failed)
               else var free := Numbered(parent, name, k);
                    && free !in fs && effect.outcome.Done? && effect.outcome.target == free
                    && effect.files == (if blueprint.operation == Copy then fs else fs - {item.source})[free := fs[item.source]]
  {
    var parent, name := Parent(item.target), FileName(item.target);
    k := FirstFreeMeaning(fs, parent, name, FIRST_NUMBER);
    assert Taken(fs, parent, name, FIRST_NUMBER, k);
    if k < NUMBER_LIMIT {
      var free := Numbered(parent, name, k);
      assert fs[free := fs[item.source]] - {item.source} == (fs - {item.source})[free := fs[item.source]];
    }
  }
}
