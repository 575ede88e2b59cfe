/** Whole histories of runs, blueprint applications and rollbacks of one owner. */
module UndoHistory {
  import opened Wrappers
  import opened FileSystem
  import opened Execution
  import opened Rollback
  import opened RunUndo
  import opened BlueprintApply

  datatype Command =
    | RunOnce(job: Job, env: nat -> Io, paths: seq<Path>, cancelAt: nat, id: Uuid, now: nat)
    | ApplyOnce(blueprint: Blueprint, env: nat -> Io, plan: seq<PlanItem>, id: Uuid, now: nat)
    | RollbackOnce(os: nat -> bool)

  /** A manifest is saved only when something was recorded. */
  function Saved(rows: seq<Row>, m: Manifest, now: nat): seq<Row> {
    if m.items == [] then rows else rows + [Row(m, now, false)]
  }

  /** The run of a job or the application of a blueprint, with its manifest saved, or a rollback. */
  function Execute(w: World, owner: Uuid, digest: Digest, c: Command): World {
    match c
    case RollbackOnce(os) => RolledBack(w, owner, digest, os)
    case RunOnce(job, env, paths, cancelAt, id, now) =>
      var st := Run(job, env, digest, w.files, paths, cancelAt);
      World(st.files, Saved(w.rows, Manifest(id, owner, None, st.items), now))
    case ApplyOnce(blueprint, env, plan, id, now) =>
      var st := Apply(blueprint, env, digest, w.files, plan);
      World(st.files, Saved(w.rows, Manifest(id, owner, Some(owner), st.items), now))
  }

  method RunAndRecord(
    disk: Disk, store: RollbackStore, owner: Uuid, digest: Digest, job: Job, env: nat -> Io, paths: seq<Path>,
    cancelAt: nat, id: Uuid, now: nat)
    returns (success: bool)
    modifies disk, store
    ensures World(disk.files, store.rows)
            == Execute(World(old(disk.files), old(store.rows)), owner, digest, RunOnce(job, env, paths, cancelAt, id, now))
  {
    var st;
    st, success := RunJob(disk, job, env, digest, paths, cancelAt);
    if st.items != [] {
      store.Save(Manifest(id, owner, None, st.items), now);
    }
  }

  method ApplyAndRecord(
    disk: Disk, store: RollbackStore, owner: Uuid, digest: Digest, blueprint: Blueprint, env: nat -> Io,
    plan: seq<PlanItem>, id: Uuid, now: nat)
    returns (processed: nat, failed: nat, skipped: nat)
    modifies disk, store
    ensures World(disk.files, store.rows)
            == Execute(World(old(disk.files), old(store.rows)), owner, digest, ApplyOnce(blueprint, env, plan, id, now))
    ensures processed + failed + skipped == |plan|
  {
    var st := ApplyPlan(disk, blueprint, env, digest, plan);
    ApplyCounts(blueprint, Executing(blueprint, env, digest), digest, old(disk.files), plan, |plan|);
    if st.items != [] {
      store.Save(Manifest(id, owner, Some(owner), st.items), now);
    }
    return st.processed, st.failed, st.skipped;
  }

  function History(w: World, owner: Uuid, digest: Digest, cs: seq<Command>): World
    decreases |cs|
  {
    if cs == [] then w else History(Execute(w, owner, digest, cs[0]), owner, digest, cs[1..])
  }

  /** Nothing overwrites, disks are faithful, rollbacks are carried out, plans never send a file to
      itself, and every manifest gets a new id and a later time. */
  ghost predicate Admissible(w: World, owner: Uuid, digest: Digest, cs: seq<Command>)
    decreases |cs|
  {
    cs != [] ==>
      && (match cs[0]
          case RunOnce(job, env, _, _, id, now) =>
            job.conflict != Overwrite && AlwaysFaithful(env) && Fresh(w.rows, id, now)
          case ApplyOnce(blueprint, env, plan, id, now) =>
            && blueprint.conflict != Overwrite && AlwaysFaithful(env) && Fresh(w.rows, id, now)
            && forall item <- plan :: item.source != item.target
          case RollbackOnce(os) => Willing(os))
      && Admissible(Execute(w, owner, digest, cs[0]), owner, digest, cs[1..])
  }

  /** The disk that undoing a whole stack of manifests would leave. */
  function Unwound(fs: Files, stack: seq<Manifest>, digest: Digest): Files
    decreases |stack|
  {
    if stack == [] then fs
    else
      var n := |stack| - 1;
      Unwound(UndoItems(fs, stack[n].items, digest, _ => true).files, stack[..n], digest)
  }

  function Origin(w: World, owner: Uuid, digest: Digest): Files {
    Unwound(w.files, Stack(w.rows, owner), digest)
  }

  lemma {:induction false} UndoItemsOs(fs: Files, items: seq<RollbackItem>, digest: Digest, os: nat -> bool, os': nat -> bool)
    requires Willing(os) && Willing(os')
    ensures UndoItems(fs, items, digest, os) == UndoItems(fs, items, digest, os')
    decreases |items|
  {
    if items != [] {
      var n := |items| - 1;
      assert os(n) && os'(n);
      UndoItemsOs(if Revertible(fs, items[n], digest) then Reverted(fs, items[n]) else fs, items[..n], digest, os, os');
    }
  }

  lemma SavedOrigin(fs: Files, w: World, owner: Uuid, digest: Digest, m: Manifest, now: nat)
    requires Ordered(w.rows) && Fresh(w.rows, m.id, now) && Owns(owner, m)
    requires UndoItems(fs, m.items, digest, _ => true).files == w.files
    ensures var w' := World(fs, Saved(w.rows, m, now));
            Ordered(w'.rows) && Origin(w', owner, digest) == Origin(w, owner, digest)
            && |Stack(w'.rows, owner)| <= |Stack(w.rows, owner)| + 1
  {
    if m.items != [] {
      SavePushes(w.rows, m, now, owner);
      assert (Stack(w.rows, owner) + [m])[..|Stack(w.rows, owner)|] == Stack(w.rows, owner);
    }
  }

  /** Marking the newest manifest takes what it undid off the stack. */
  lemma RolledBackOrigin(w: World, owner: Uuid, digest: Digest, os: nat -> bool)
    requires Ordered(w.rows) && Willing(os)
    ensures var w' := RolledBack(w, owner, digest, os);
            && Ordered(w'.rows) && Origin(w', owner, digest) == Origin(w, owner, digest)
            && |Stack(w'.rows, owner)| == if |Stack(w.rows, owner)| == 0 then 0 else |Stack(w.rows, owner)| - 1
  {
    NewestIsTop(w.rows, owner);
    if Newest(w.rows, owner).Some? {
      var m := Newest(w.rows, owner).value.manifest;
      MarkPops(w.rows, owner);
      MarkedOrdered(w.rows, m.id);
      UndoItemsOs(w.files, m.items, digest, os, _ => true);
    }
  }

  /** A run or a rollback leaves the origin of the disk where it was. */
  lemma ExecuteKeepsOrigin(w: World, owner: Uuid, digest: Digest, c: Command)
    requires Ordered(w.rows) && Admissible(w, owner, digest, [c])
    ensures var w' := Execute(w, owner, digest, c);
            Ordered(w'.rows) && Origin(w', owner, digest) == Origin(w, owner, digest)
            && |Stack(w'.rows, owner)| <= |Stack(w.rows, owner)| + 1
  {
    match c
    case RunOnce(job, env, paths, cancelAt, id, now) =>
      var st := Run(job, env, digest, w.files, paths, cancelAt);
      RunThenUndo(job, env, digest, w.files, paths, cancelAt, _ => true);
      SavedOrigin(st.files, w, owner, digest, Manifest(id, owner, None, st.items), now);
    case ApplyOnce(blueprint, env, plan, id, now) =>
      var st := Apply(blueprint, env, digest, w.files, plan);
      ApplyThenUndo(blueprint, env, digest, w.files, plan, _ => true);
      SavedOrigin(st.files, w, owner, digest, Manifest(id, owner, Some(owner), st.items), now);
    case RollbackOnce(os) =>
      RolledBackOrigin(w, owner, digest, os);
  }

  lemma {:induction false} HistoryKeepsOrigin(w: World, owner: Uuid, digest: Digest, cs: seq<Command>)
    requires Ordered(w.rows) && Admissible(w, owner, digest, cs)
    ensures var w' := History(w, owner, digest, cs);
            Ordered(w'.rows) && Origin(w', owner, digest) == Origin(w, owner, digest)
    decreases |cs|
  {
    if cs != [] {
      var w' := Execute(w, owner, digest, cs[0]);
      assert Admissible(w, owner, digest, [cs[0]]) by {
        assert [cs[0]][1..] == [];
      }
      ExecuteKeepsOrigin(w, owner, digest, cs[0]);
      HistoryKeepsOrigin(w', owner, digest, cs[1..]);
    }
  }

  /** `n` rollbacks in a row. */
  function Drained(w: World, owner: Uuid, digest: Digest, os: nat -> bool, n: nat): World
    decreases n
  {
    if n == 0 then w else Drained(RolledBack(w, owner, digest, os), owner, digest, os, n - 1)
  }

  /** As many rollbacks as there are manifests on the stack reach the origin; more change nothing. */
  lemma {:induction false} DrainReachesOrigin(w: World, owner: Uuid, digest: Digest, os: nat -> bool, n: nat)
    requires Ordered(w.rows) && Willing(os) && |Stack(w.rows, owner)| <= n
    ensures var w' := Drained(w, owner, digest, os, n);
            w'.files == Origin(w, owner, digest) && Newest(w'.rows, owner) == None
    decreases n
  {
    if n > 0 {
      RolledBackOrigin(w, owner, digest, os);
      DrainReachesOrigin(RolledBack(w, owner, digest, os), owner, digest, os, n - 1);
    } else {
      NewestIsTop(w.rows, owner);
    }
  }

  /** Each command puts at most one manifest on the stack. */
  lemma {:induction false} StackGrowth(w: World, owner: Uuid, digest: Digest, cs: seq<Command>)
    requires Ordered(w.rows) && Admissible(w, owner, digest, cs)
    ensures |Stack(History(w, owner, digest, cs).rows, owner)| <= |Stack(w.rows, owner)| + |cs|
    decreases |cs|
  {
    if cs != [] {
      var c := cs[0];
      assert Admissible(w, owner, digest, [c]) by {
        assert [c][1..] == [];
      }
      ExecuteKeepsOrigin(w, owner, digest, c);
      StackGrowth(Execute(w, owner, digest, c), owner, digest, cs[1..]);
    }
  }

  /** Whatever runs and rollbacks of a job came before, in any order, as many further rollbacks as
      there were commands give back exactly the files the history began with, other owners'
      manifests in the table notwithstanding. */
  lemma HistoryUndone(w: World, owner: Uuid, digest: Digest, cs: seq<Command>, os: nat -> bool)
    requires Ordered(w.rows) && Stack(w.rows, owner) == []
    requires Admissible(w, owner, digest, cs) && Willing(os)
    ensures Drained(History(w, owner, digest, cs), owner, digest, os, |cs|).files == w.files
  {
    HistoryKeepsOrigin(w, owner, digest, cs);
    StackGrowth(w, owner, digest, cs);
    DrainReachesOrigin(History(w, owner, digest, cs), owner, digest, os, |cs|);
  }
}
