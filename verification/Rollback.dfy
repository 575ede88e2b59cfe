/** Undoing a run from its manifest, and the table the manifests are kept in. */
module Rollback {
  import opened Wrappers
  import opened FileSystem
  import opened Execution

  // ---- one manifest ----

  predicate HashAgrees(item: RollbackItem, digest: Digest, bytes: Bytes) {
    item.targetHash.None? || digest(bytes) == item.targetHash.value
  }

  /** Whether the guards let one item be undone. */
  predicate Revertible(fs: Files, item: RollbackItem, digest: Digest) {
    && item.target in fs
    && HashAgrees(item, digest, fs[item.target])
    && match item.status
       case Moved => item.source !in fs
       case Copied => true
       case Ignored => false
  }

  /** The disk once a revertible item is undone. */
  function Reverted(fs: Files, item: RollbackItem): Files
    requires item.target in fs
  {
    if item.status.Moved? then Renamed(fs, item.target, item.source) else fs - {item.target}
  }

  datatype Undone = Undone(files: Files, reverted: nat, skipped: nat)

  /** The whole manifest, last item first; `os(i)` is whether the operating system carries out item `i`. */
  function UndoItems(fs: Files, items: seq<RollbackItem>, digest: Digest, os: nat -> bool): Undone
    decreases |items|
  {
    if items == [] then Undone(fs, 0, 0)
    else
      var n := |items| - 1;
      if Revertible(fs, items[n], digest) && os(n) then
        var u := UndoItems(Reverted(fs, items[n]), items[..n], digest, os);
        u.(reverted := u.reverted + 1)
      else
        var u := UndoItems(fs, items[..n], digest, os);
        u.(skipped := u.skipped + 1)
  }

  /** The last item of a manifest is undone first. */
  lemma UndoLast(fs: Files, items: seq<RollbackItem>, item: RollbackItem, digest: Digest, os: nat -> bool)
    ensures UndoItems(fs, items + [item], digest, os)
            == if Revertible(fs, item, digest) && os(|items|) then
                 var u := UndoItems(Reverted(fs, item), items, digest, os);
                 Undone(u.files, u.reverted + 1, u.skipped)
               else
                 var u := UndoItems(fs, items, digest, os);
                 Undone(u.files, u.reverted, u.skipped + 1)
  {
    assert (items + [item])[..|items|] == items;
  }

  /** The reverse loop both kinds of rollback run. */
  method RevertItems(disk: Disk, items: seq<RollbackItem>, digest: Digest, os: nat -> bool)
    returns (reverted: nat, skipped: nat)
    modifies disk
    ensures Undone(disk.files, reverted, skipped) == UndoItems(old(disk.files), items, digest, os)
  {
    reverted, skipped := 0, 0;
    var n := |items|;
    ghost var all := UndoItems(disk.files, items, digest, os);
    assert items[..n] == items;
    while n > 0
      invariant n <= |items|
      invariant var u := UndoItems(disk.files, items[..n], digest, os);
                all == Undone(u.files, reverted + u.reverted, skipped + u.skipped)
    {
      n := n - 1;
      var item := items[n];
      assert items[..n + 1][..n] == items[..n];
      var done := false;
      match item.status {
        case Moved =>
          if item.target in disk.files && item.source !in disk.files
             && HashAgrees(item, digest, disk.files[item.target]) {
            done := disk.Rename(item.target, item.source, os(n));
          }
        case Copied =>
          if item.target in disk.files && HashAgrees(item, digest, disk.files[item.target]) {
            done := disk.Remove(item.target, os(n));
          }
        case Ignored =>
      }
      if done {
        reverted := reverted + 1;
      } else {
        skipped := skipped + 1;
      }
    }
  }

  // ---- the manifest table ----

  type Uuid = nat

  datatype Manifest = Manifest(id: Uuid, jobId: Uuid, blueprintId: Option<Uuid>, items: seq<RollbackItem>)

  datatype Row = Row(manifest: Manifest, createdAt: nat, rolledBack: bool)

  predicate Owns(owner: Uuid, m: Manifest) {
    m.jobId == owner || m.blueprintId == Some(owner)
  }

  predicate Candidate(row: Row, owner: Uuid) {
    Owns(owner, row.manifest) && !row.rolledBack
  }

  /** The query of the table: among the owner's rows not rolled back, the one created last. */
  function Newest(rows: seq<Row>, owner: Uuid): Option<Row> {
    if rows == [] then None
    else
      var last := rows[|rows| - 1];
      var before := Newest(rows[..|rows| - 1], owner);
      if Candidate(last, owner) && (before.None? || before.value.createdAt < last.createdAt) then Some(last)
      else before
  }

  /** Row `i` is an open one of the owner, and no such row was created later. */
  predicate IsNewest(rows: seq<Row>, owner: Uuid, i: nat)
    requires i < |rows|
  {
    Candidate(rows[i], owner) && forall j :: 0 <= j < |rows| && Candidate(rows[j], owner) ==> rows[j].createdAt <= rows[i].createdAt
  }

  /** What the query returns. */
  lemma {:induction false} NewestMeaning(rows: seq<Row>, owner: Uuid)
    ensures Newest(rows, owner).None? <==> forall i :: 0 <= i < |rows| ==> !Candidate(rows[i], owner)
    ensures Newest(rows, owner).Some?
            ==> exists i :: 0 <= i < |rows| && IsNewest(rows, owner, i) && rows[i] == Newest(rows, owner).value
  {
    if rows != [] {
      var n := |rows| - 1;
      var init := rows[..n];
      NewestMeaning(init, owner);
      assert forall i :: 0 <= i < n ==> rows[i] == init[i];
      if Newest(init, owner).Some? {
        var k :| 0 <= k < n && IsNewest(init, owner, k) && init[k] == Newest(init, owner).value;
        assert IsNewest(rows, owner, if Newest(rows, owner) == Newest(init, owner) then k else n);
      } else if Candidate(rows[n], owner) {
        assert IsNewest(rows, owner, n);
      }
    }
  }

  function Marked(rows: seq<Row>, id: Uuid): (r: seq<Row>) {
    seq(|rows|, i requires 0 <= i < |rows| => if rows[i].manifest.id == id then rows[i].(rolledBack := true) else rows[i])
  }

  /** Rows carry distinct ids and were created one after the other. */
  ghost predicate Ordered(rows: seq<Row>) {
    && (forall i, j :: 0 <= i < j < |rows| ==> rows[i].createdAt < rows[j].createdAt)
    && (forall i, j :: 0 <= i < j < |rows| ==> rows[i].manifest.id != rows[j].manifest.id)
  }

  /** An id not in use and a time later than every row's. */
  ghost predicate Fresh(rows: seq<Row>, id: Uuid, now: nat) {
    forall i :: 0 <= i < |rows| ==> rows[i].manifest.id != id && rows[i].createdAt < now
  }

  class RollbackStore {
    var rows: seq<Row>

    constructor ()
      ensures rows == []
    {
      rows := [];
    }

    method Save(manifest: Manifest, now: nat)
      modifies this
      ensures rows == old(rows) + [Row(manifest, now, false)]
    {
      rows := rows + [Row(manifest, now, false)];
    }

    /** An open manifest of the owner that none of the owner's open ones is newer than, if there is one. */
    method LatestForJob(owner: Uuid) returns (m: Option<Manifest>)
      ensures m.None? <==> forall i :: 0 <= i < |rows| && !rows[i].rolledBack
                                       ==> rows[i].manifest.jobId != owner && rows[i].manifest.blueprintId != Some(owner)
      ensures m.Some? ==> exists i :: 0 <= i < |rows| && IsNewest(rows, owner, i) && rows[i].manifest == m.value
                                      && !rows[i].rolledBack && (m.value.jobId == owner || m.value.blueprintId == Some(owner))
      ensures m == match Newest(rows, owner) case None => None case Some(row) => Some(row.manifest)
    {
      var best: Option<Row> := None;
      assert rows[..0] == [];
      for i := 0 to |rows|
        invariant best == Newest(rows[..i], owner)
      {
        assert rows[..i + 1][..i] == rows[..i];
        if Candidate(rows[i], owner) && (best.None? || best.value.createdAt < rows[i].createdAt) {
          best := Some(rows[i]);
        }
      }
      assert rows[..|rows|] == rows;
      NewestMeaning(rows, owner);
      return if best.Some? then Some(best.value.manifest) else None;
    }

    /** Marks the rows with an id, and changes nothing else of any row. */
    method MarkRolledBack(id: Uuid)
      modifies this
      ensures |rows| == |old(rows)|
      ensures forall i :: 0 <= i < |rows| ==>
                && rows[i].manifest == old(rows)[i].manifest && rows[i].createdAt == old(rows)[i].createdAt
                && (rows[i].rolledBack <==> old(rows)[i].rolledBack || old(rows)[i].manifest.id == id)
      ensures rows == Marked(old(rows), id)
    {
      for i := 0 to |rows|
        invariant |rows| == |old(rows)|
        invariant forall j :: 0 <= j < i ==> rows[j] == Marked(old(rows), id)[j]
        invariant forall j :: i <= j < |rows| ==> rows[j] == old(rows)[j]
      {
        if rows[i].manifest.id == id {
          rows := rows[i := rows[i].(rolledBack := true)];
        }
      }
    }
  }

  datatype RollbackError = NoManifest

  datatype RollbackResult = RollbackResult(reverted: nat, skipped: nat)

  /** Disk and manifest table together. */
  datatype World = World(files: Files, rows: seq<Row>)

  function RolledBack(w: World, owner: Uuid, digest: Digest, os: nat -> bool): World {
    match Newest(w.rows, owner)
    case None => w
    case Some(row) =>
      World(UndoItems(w.files, row.manifest.items, digest, os).files, Marked(w.rows, row.manifest.id))
  }

  method RollbackJob(disk: Disk, store: RollbackStore, owner: Uuid, digest: Digest, os: nat -> bool)
    returns (r: Result<RollbackResult, RollbackError>)
    modifies disk, store
    ensures World(disk.files, store.rows) == RolledBack(World(old(disk.files), old(store.rows)), owner, digest, os)
    ensures r.Err? <==> Newest(old(store.rows), owner).None?
    ensures r.Ok? ==>
              var u := UndoItems(old(disk.files), Newest(old(store.rows), owner).value.manifest.items, digest, os);
              r.value == RollbackResult(u.reverted, u.skipped)
  {
    var latest := store.LatestForJob(owner);
    if latest.None? {
      return Err(NoManifest);
    }
    var reverted, skipped := RevertItems(disk, latest.value.items, digest, os);
    store.MarkRolledBack(latest.value.id);
    return Ok(RollbackResult(reverted, skipped));
  }

  // ---- the table is a stack per owner ----

  /** The manifests an owner can still roll back, oldest first. */
  function Stack(rows: seq<Row>, owner: Uuid): seq<Manifest> {
    if rows == [] then []
    else
      var last := rows[|rows| - 1];
      Stack(rows[..|rows| - 1], owner) + (if Candidate(last, owner) then [last.manifest] else [])
  }

  lemma {:induction false} NewestIsARow(rows: seq<Row>, owner: Uuid)
    ensures Newest(rows, owner).Some? ==> Newest(rows, owner).value in rows
  {
    if rows != [] {
      NewestIsARow(rows[..|rows| - 1], owner);
    }
  }

  /** The query hands out the top of the stack. */
  lemma {:induction false} NewestIsTop(rows: seq<Row>, owner: Uuid)
    requires Ordered(rows)
    ensures var stack := Stack(rows, owner);
            match Newest(rows, owner)
            case None => stack == []
            case Some(row) => stack != [] && stack[|stack| - 1] == row.manifest
  {
    if rows != [] {
      var init := rows[..|rows| - 1];
      NewestIsTop(init, owner);
      NewestIsARow(init, owner);
    }
  }

  lemma {:induction false} MarkedAbsent(rows: seq<Row>, id: Uuid)
    requires forall i :: 0 <= i < |rows| ==> rows[i].manifest.id != id
    ensures Marked(rows, id) == rows
  {
  }

  /** Marking what the query handed out pops the stack. */
  lemma {:induction false} MarkPops(rows: seq<Row>, owner: Uuid)
    requires Ordered(rows) && Newest(rows, owner).Some?
    ensures var stack := Stack(rows, owner);
            stack != [] && Stack(Marked(rows, Newest(rows, owner).value.manifest.id), owner) == stack[..|stack| - 1]
  {
    NewestIsTop(rows, owner);
    var n := |rows| - 1;
    var init, last := rows[..n], rows[n];
    var id := Newest(rows, owner).value.manifest.id;
    var marked := Marked(rows, id);
    assert marked[..n] == Marked(init, id);
    NewestIsARow(init, owner);
    if Candidate(last, owner) {
      assert Newest(rows, owner) == Some(last);
      MarkedAbsent(init, id);
    } else {
      MarkPops(init, owner);
      assert Newest(rows, owner) == Newest(init, owner);
    }
  }

  /** Marking keeps the order of the rows. */
  lemma MarkedOrdered(rows: seq<Row>, id: Uuid)
    requires Ordered(rows)
    ensures Ordered(Marked(rows, id))
  {
  }

  lemma {:induction false} SavePushes(rows: seq<Row>, m: Manifest, now: nat, owner: Uuid)
    requires Owns(owner, m)
    ensures Stack(rows + [Row(m, now, false)], owner) == Stack(rows, owner) + [m]
  {
    var more := rows + [Row(m, now, false)];
    assert more[..|more| - 1] == rows;
  }
}
