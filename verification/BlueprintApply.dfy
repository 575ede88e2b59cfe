/** Applying the plan of a file blueprint. */
module BlueprintApply {
  import opened Wrappers
  import opened FileSystem
  import opened Execution
  import opened Rollback
  import opened RunUndo

  datatype Blueprint = Blueprint(operation: JobMode, conflict: ConflictStrategy)

  datatype PlanItem = PlanItem(source: Path, target: Path)

  function NameOr(path: Path, default: string): string {
    if path == [] then default else FileName(path)
  }

  function DoneStatus(blueprint: Blueprint): AuditStatus {
    if blueprint.operation.Move? then Moved else Copied
  }

  /** One plan item. `Done(_, Ignored)` is an item skipped by the conflict strategy. */
  function ExecuteItem(blueprint: Blueprint, io: Io, digest: Digest, fs: Files, item: PlanItem): Effect {
    if item.source == item.target then
      Effect(fs, if io.parentReady then Done(item.target, DoneStatus(blueprint)) else Failed)
    else match Resolve(fs, item.target, ["."], NameOr(item.target, "item"), blueprint.conflict)
      case Exhausted => Effect(fs, Failed)
      case SkipFile => Effect(fs, Done(item.target, Ignored))
      case Use(target) =>
        if !io.parentReady then Effect(fs, Failed)
        else if blueprint.operation.Move? then MoveInto(false, io, digest, fs, "", item.source, target)
        else if item.source !in fs then Effect(fs, Failed)
        else if !io.copies then Effect(Torn(io, fs, target), Failed)
        else Effect(fs[target := Landed(io, fs[item.source])], Done(target, Copied))
  }

  method ExecutePlanItem(disk: Disk, blueprint: Blueprint, io: Io, digest: Digest, item: PlanItem) returns (r: Outcome)
    modifies disk
    ensures Effect(disk.files, r) == ExecuteItem(blueprint, io, digest, old(disk.files), item)
  {
    var samePath := item.source == item.target;
    var resolved := Use(item.target);
    if !samePath {
      resolved := ResolveTarget(disk, item.target, ["."], NameOr(item.target, "item"), blueprint.conflict);
    }
    match resolved
    case Exhausted => return Failed;
    case SkipFile => return Done(item.target, Ignored);
    case Use(target) =>
      if !io.parentReady {
        return Failed;
      }
      if !samePath {
        var done := false;
        if blueprint.operation.Move? {
          done := disk.Rename(item.source, target, io.renames);
        }
        if !done {
          var copied := disk.Copy(item.source, target, io);
          if !copied {
            return Failed;
          }
          if blueprint.operation.Move? {
            var removed := disk.Remove(item.source, io.removes);
            if !removed {
              return Failed;
            }
          }
        }
      }
      return Done(target, DoneStatus(blueprint));
  }

  function ApplyRecorded(blueprint: Blueprint, digest: Digest, st: RunState, item: PlanItem, effect: Effect): RunState {
    match effect.outcome
    case Failed => st.(files := effect.files, failed := st.failed + 1)
    case Done(target, status) =>
      if status == Ignored then st.(files := effect.files, skipped := st.skipped + 1)
      else
        var hash := if target in effect.files then Some(digest(effect.files[target])) else None;
        st.(files := effect.files,
            items := st.items + [RollbackItem(item.source, target, blueprint.operation, status, hash)],
            processed := st.processed + 1)
  }

  /** How the `k`th item of a plan is executed on a given disk. */
  type ItemHandler = (Files, PlanItem, nat) -> Effect

  /** Execution under the conditions `env` gives for each item. */
  function Executing(blueprint: Blueprint, env: nat -> Io, digest: Digest): ItemHandler {
    (fs: Files, item: PlanItem, k: nat) => ExecuteItem(blueprint, env(k), digest, fs, item)
  }

  /** The state after the first `n` items of the plan. */
  function ApplyPrefix(blueprint: Blueprint, handler: ItemHandler, digest: Digest, fs: Files, plan: seq<PlanItem>, n: nat): RunState
    requires n <= |plan|
  {
    if n == 0 then RunState(fs, [], 0, 0, 0, false)
    else
      var st := ApplyPrefix(blueprint, handler, digest, fs, plan, n - 1);
      ApplyRecorded(blueprint, digest, st, plan[n - 1], handler(st.files, plan[n - 1], n - 1))
  }

  /** The state after the whole plan. */
  function Apply(blueprint: Blueprint, env: nat -> Io, digest: Digest, fs: Files, plan: seq<PlanItem>): RunState {
    ApplyPrefix(blueprint, Executing(blueprint, env, digest), digest, fs, plan, |plan|)
  }

  method ApplyPlan(disk: Disk, blueprint: Blueprint, env: nat -> Io, digest: Digest, plan: seq<PlanItem>)
    returns (st: RunState)
    modifies disk
    ensures st == Apply(blueprint, env, digest, old(disk.files), plan) && disk.files == st.files
  {
    st := RunState(disk.files, [], 0, 0, 0, false);
    ghost var handler := Executing(blueprint, env, digest);
    for index := 0 to |plan|
      invariant st == ApplyPrefix(blueprint, handler, digest, old(disk.files), plan, index) && disk.files == st.files
    {
      var outcome := ExecutePlanItem(disk, blueprint, env(index), digest, plan[index]);
      st := ApplyRecorded(blueprint, digest, st, plan[index], Effect(disk.files, outcome));
    }
  }

  /** Every item is counted once. */
  lemma {:induction false} ApplyCounts(
    blueprint: Blueprint, handler: ItemHandler, digest: Digest, fs: Files, plan: seq<PlanItem>, n: nat)
    requires n <= |plan|
    ensures var st := ApplyPrefix(blueprint, handler, digest, fs, plan, n);
            st.processed + st.failed + st.skipped == n && |st.items| == st.processed
  {
    if n > 0 {
      ApplyCounts(blueprint, handler, digest, fs, plan, n - 1);
    }
  }

  // ---- undoing ----

  /** An item that failed or was skipped left the disk alone; otherwise undoing its record restores the disk. */
  ghost predicate ItemUndoable(blueprint: Blueprint, digest: Digest, fs: Files, item: PlanItem, effect: Effect) {
    match effect.outcome
    case Failed => effect.files == fs
    case Done(target, status) =>
      if status == Ignored then effect.files == fs
      else
        && target in effect.files
        && var record := RollbackItem(item.source, target, blueprint.operation, status, Some(digest(effect.files[target])));
           Revertible(effect.files, record, digest) && Reverted(effect.files, record) == fs
  }

  lemma ExecutedUndoable(blueprint: Blueprint, io: Io, digest: Digest, fs: Files, item: PlanItem)
    requires blueprint.conflict != Overwrite && Faithful(io) && item.source != item.target
    ensures ItemUndoable(blueprint, digest, fs, item, ExecuteItem(blueprint, io, digest, fs, item))
  {
    var name := NameOr(item.target, "item");
    var r := Resolve(fs, item.target, ["."], name, blueprint.conflict);
    ResolvedIsFree(fs, item.target, ["."], name, blueprint.conflict);
    if r.Use? && item.source in fs {
      var source, target := item.source, r.path;
      assert fs[target := fs[source]] - {source} == Renamed(fs, source, target);
      assert fs[target := fs[source]] - {target} == fs;
      assert Renamed(Renamed(fs, source, target), target, source) == fs;
    }
  }

  ghost predicate AllItemsUndoable(blueprint: Blueprint, handler: ItemHandler, digest: Digest) {
    forall fs, item: PlanItem, k :: item.source != item.target ==> ItemUndoable(blueprint, digest, fs, item, handler(fs, item, k))
  }

  lemma ExecutingUndoable(blueprint: Blueprint, env: nat -> Io, digest: Digest)
    requires blueprint.conflict != Overwrite && AlwaysFaithful(env)
    ensures AllItemsUndoable(blueprint, Executing(blueprint, env, digest), digest)
  {
    forall fs, item: PlanItem, k: nat | item.source != item.target
      ensures ItemUndoable(blueprint, digest, fs, item, Executing(blueprint, env, digest)(fs, item, k))
    {
      ExecutedUndoable(blueprint, env(k), digest, fs, item);
    }
  }

  lemma ApplyStepRestores(
    blueprint: Blueprint, digest: Digest, st: RunState, item: PlanItem, effect: Effect, fs: Files, os: nat -> bool)
    requires Willing(os) && UndoItems(st.files, st.items, digest, os) == Undone(fs, st.processed, 0)
    requires ItemUndoable(blueprint, digest, st.files, item, effect)
    ensures var st' := ApplyRecorded(blueprint, digest, st, item, effect);
            UndoItems(st'.files, st'.items, digest, os) == Undone(fs, st'.processed, 0)
  {
    match effect.outcome
    case Failed =>
    case Done(target, status) =>
      if status != Ignored {
        var record := RollbackItem(item.source, target, blueprint.operation, status, Some(digest(effect.files[target])));
        assert os(|st.items|);
        UndoLast(effect.files, st.items, record, digest, os);
      }
  }

  lemma {:induction false} ApplyRestores(
    blueprint: Blueprint, handler: ItemHandler, digest: Digest, fs: Files, plan: seq<PlanItem>, n: nat, os: nat -> bool)
    requires n <= |plan| && AllItemsUndoable(blueprint, handler, digest) && Willing(os)
    requires forall item <- plan :: item.source != item.target
    ensures var st := ApplyPrefix(blueprint, handler, digest, fs, plan, n);
            UndoItems(st.files, st.items, digest, os) == Undone(fs, st.processed, 0)
  {
    if n > 0 {
      ApplyRestores(blueprint, handler, digest, fs, plan, n - 1, os);
      var st := ApplyPrefix(blueprint, handler, digest, fs, plan, n - 1);
      ApplyStepRestores(blueprint, digest, st, plan[n - 1], handler(st.files, plan[n - 1], n - 1), fs, os);
    }
  }

  /** Applying a plan and rolling it back restores the disk, also when an item's target is the
      path an earlier item's source was moved away from. */
  lemma ApplyThenUndo(
    blueprint: Blueprint, env: nat -> Io, digest: Digest, fs: Files, plan: seq<PlanItem>, os: nat -> bool)
    requires blueprint.conflict != Overwrite && AlwaysFaithful(env) && Willing(os)
    requires forall item <- plan :: item.source != item.target
    ensures var st := Apply(blueprint, env, digest, fs, plan);
            UndoItems(st.files, st.items, digest, os) == Undone(fs, st.processed, 0)
  {
    ExecutingUndoable(blueprint, env, digest);
    ApplyRestores(blueprint, Executing(blueprint, env, digest), digest, fs, plan, |plan|, os);
  }

  /** Why a plan must not send a file to itself: with Copy, rolling back removes the file. */
  lemma SamePathCopyIsRemoved(blueprint: Blueprint, io: Io, digest: Digest, fs: Files, path: Path, os: nat -> bool)
    requires blueprint.operation.Copy? && path in fs && io.parentReady && os(0)
    ensures var effect := ExecuteItem(blueprint, io, digest, fs, PlanItem(path, path));
            var st := ApplyRecorded(blueprint, digest, RunState(fs, [], 0, 0, 0, false), PlanItem(path, path), effect);
            st.files == fs && UndoItems(st.files, st.items, digest, os).files == fs - {path}
  {
    var record := RollbackItem(path, path, Copy, Copied, Some(digest(fs[path])));
    assert [record][..0] == [];
    assert UndoItems(fs, [record], digest, os).files == fs - {path};
  }
}
