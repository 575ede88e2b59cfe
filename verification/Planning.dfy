/** The plan of a file blueprint, simulated with a counter cache or built for real with the store's
    counters, and the two ways a store may draw the next counter. */
module Planning {
  import opened Wrappers
  import opened FileSystem
  import opened Execution
  import opened Rollback
  import opened RunUndo
  import opened BlueprintApply

  const I64_MAX: int := 0x7FFF_FFFF_FFFF_FFFF
  const U64_SIZE: int := 0x1_0000_0000_0000_0000

  type I64 = v: int | -I64_MAX - 1 <= v <= I64_MAX
  type U64 = v: int | 0 <= v < U64_SIZE

  // ---- counters ----

  /** A stored counter. A sum that leaves the signed range is stored as a floating-point number, which
      is not decoded as a counter any more. */
  datatype Cell = Whole(value: I64) | Overflowed

  type Rows = map<(Uuid, string), Cell>

  datatype PlanError = BadStart | Undecodable | BadDestination(message: string) | EscapesRoot(target: Path)

  /** A signed 64-bit column read as unsigned. */
  function AsUnsigned(v: I64): U64 {
    if v < 0 then v + U64_SIZE else v
  }

  /** An unsigned 64-bit value stored in a signed column. */
  function AsSigned(v: U64): I64 {
    if v > I64_MAX then v - U64_SIZE else v
  }

  function SaturatingSuccessor(v: U64): U64 {
    if v + 1 >= U64_SIZE then U64_SIZE - 1 else v + 1
  }

  function GetCounter(rows: Rows, key: (Uuid, string)): Result<U64, PlanError> {
    if key !in rows then Ok(0)
    else match rows[key]
      case Whole(value) => Ok(AsUnsigned(value))
      case Overflowed => Err(Undecodable)
  }

  /** A counter that was set is read back, over the whole unsigned range. */
  lemma SetThenGet(rows: Rows, key: (Uuid, string), value: U64, other: (Uuid, string))
    ensures GetCounter(rows[key := Whole(AsSigned(value))], other) == if other == key then Ok(value) else GetCounter(rows, other)
  {
    assert AsUnsigned(AsSigned(value)) == value;
  }

  /** The next counter read and written in two calls, as the store interface defines it by default. */
  function DefaultNext(rows: Rows, key: (Uuid, string), start: U64): (Rows, Result<U64, PlanError>) {
    match GetCounter(rows, key)
    case Err(e) => (rows, Err(e))
    case Ok(current) =>
      var value := if current == 0 then start else current;
      (rows[key := Whole(AsSigned(SaturatingSuccessor(value)))], Ok(value))
  }

  /** The next counter drawn by one upsert, as the SQL store does it. */
  function SqlNext(rows: Rows, key: (Uuid, string), start: U64): (Rows, Result<U64, PlanError>) {
    if start == 0 || start >= I64_MAX then (rows, Err(BadStart))
    else if key !in rows then (rows[key := Whole(start + 1)], Ok(start))
    else match rows[key]
      case Overflowed => (rows, Err(Undecodable))
      case Whole(value) =>
        if value <= 0 then (rows[key := Whole(start + 1)], Ok(start))
        else if value == I64_MAX then (rows[key := Overflowed], Err(Undecodable))
        else (rows[key := Whole(value + 1)], Ok(value))
  }

  /** For any start and any stored value the two agree, in reply and in what they store, exactly when
      the start is valid and the stored counter is neither negative nor at its end. */
  lemma NextCountersAgree(rows: Rows, key: (Uuid, string), start: U64)
    ensures SqlNext(rows, key, start) == DefaultNext(rows, key, start)
            <==> 0 < start < I64_MAX && (key in rows && rows[key].Whole? ==> 0 <= rows[key].value < I64_MAX)
  {
    if key in rows && rows[key].Whole? && rows[key].value < 0 {
      assert DefaultNext(rows, key, start).1.value > I64_MAX;
    }
  }

  class CounterStore {
    var rows: Rows

    constructor (initial: Rows)
      ensures rows == initial
    {
      rows := initial;
    }

    /** The unsigned value whose signed form is stored, and zero when nothing is. */
    method Get(key: (Uuid, string)) returns (r: Result<U64, PlanError>)
      ensures r == GetCounter(rows, key)
      ensures match r
              case Err(_) => key in rows && rows[key] == Overflowed
              case Ok(v) => if key in rows then rows[key] == Whole(AsSigned(v)) else v == 0
    {
      if key !in rows {
        return Ok(0);
      }
      match rows[key]
      case Overflowed => return Err(Undecodable);
      case Whole(value) =>
        var wrapped: int := value;
        if wrapped < 0 {
          wrapped := wrapped + U64_SIZE;
        }
        return Ok(wrapped);
    }

    method Set(key: (Uuid, string), value: U64)
      modifies this
      ensures rows == old(rows)[key := Whole(AsSigned(value))]
      ensures GetCounter(rows, key) == Ok(value)
    {
      SetThenGet(rows, key, value, key);
      rows := rows[key := Whole(AsSigned(value))];
    }

    method NextByDefault(key: (Uuid, string), start: U64) returns (r: Result<U64, PlanError>)
      modifies this
      ensures (rows, r) == DefaultNext(old(rows), key, start)
    {
      var current := Get(key);
      if current.Err? {
        return current;
      }
      var value := if current.value == 0 then start else current.value;
      Set(key, SaturatingSuccessor(value));
      return Ok(value);
    }

    method Next(key: (Uuid, string), start: U64) returns (r: Result<U64, PlanError>)
      modifies this
      ensures (rows, r) == SqlNext(old(rows), key, start)
    {
      if start == 0 || start >= I64_MAX {
        return Err(BadStart);
      }
      var stored := if key in rows then rows[key] else Whole(0);
      if stored == Overflowed || stored.value == I64_MAX {
        assert stored == Overflowed ==> rows[key := Overflowed] == rows;
        rows := rows[key := Overflowed];
        return Err(Undecodable);
      }
      rows := rows[key := Whole(if stored.value > 0 then stored.value + 1 else start + 1)];
      return Ok(rows[key].value - 1);
    }
  }

  // ---- plans ----

  datatype CounterScope = Global | PerDay | PerFolder | PerParent

  /** A collected file: `underRoot` says whether it resolves to a place under the root. */
  datatype Candidate = Candidate(path: Path, underRoot: bool, parent: string, folder: string)

  /** A file blueprint with the clock and the generated ids fixed: `destination` maps a path, its
      position and its counter to a path relative to the root, `inside` tells which targets are under
      the root. */
  datatype PlanSpec = PlanSpec(
    id: Uuid,
    root: Path,
    scope: CounterScope,
    start: U64,
    today: string,
    destination: (Path, nat, U64) -> Result<Path, string>,
    inside: Path -> bool)

  function ScopeKey(spec: PlanSpec, c: Candidate): string {
    match spec.scope
    case Global => "global"
    case PerDay => "day:" + spec.today
    case PerFolder => "folder:" + c.folder
    case PerParent => "parent:" + c.parent
  }

  function CounterKey(spec: PlanSpec, c: Candidate): (Uuid, string) {
    (spec.id, ScopeKey(spec, c))
  }

  /** The plan items of one file: none when it is where it belongs. */
  function Placed(spec: PlanSpec, c: Candidate, index: nat, counter: U64): Result<seq<PlanItem>, PlanError> {
    match spec.destination(c.path, index + 1, counter)
    case Err(message) => Err(BadDestination(message))
    case Ok(relative) =>
      var target := spec.root + relative;
      if !spec.inside(target) then Err(EscapesRoot(target))
      else if c.path == target then Ok([])
      else Ok([PlanItem(c.path, target)])
  }

  /** The counter a dry run takes: from its cache, else the stored one, else the start. */
  function DryCounter(spec: PlanSpec, rows: Rows, cache: map<string, U64>, c: Candidate): Result<U64, PlanError> {
    var key := ScopeKey(spec, c);
    if key in cache then Ok(cache[key])
    else match GetCounter(rows, CounterKey(spec, c))
      case Err(e) => Err(e)
      case Ok(stored) => Ok(if stored == 0 then spec.start else stored)
  }

  /** The plan of the files from `k` on, by simulation. */
  function DryPlan(spec: PlanSpec, files: seq<Candidate>, k: nat, rows: Rows, cache: map<string, U64>)
    : Result<seq<PlanItem>, PlanError>
    requires k <= |files|
    decreases |files| - k
  {
    if k == |files| then Ok([])
    else if !files[k].underRoot then DryPlan(spec, files, k + 1, rows, cache)
    else match DryCounter(spec, rows, cache, files[k])
      case Err(e) => Err(e)
      case Ok(counter) =>
        match Placed(spec, files[k], k, counter)
        case Err(e) => Err(e)
        case Ok(items) =>
          Prefixed(items, DryPlan(spec, files, k + 1, rows, cache[ScopeKey(spec, files[k]) := SaturatingSuccessor(counter)]))
  }

  /** The plan of the files from `k` on, drawing counters from the store. */
  function RealPlan(spec: PlanSpec, files: seq<Candidate>, k: nat, rows: Rows): (Rows, Result<seq<PlanItem>, PlanError>)
    requires k <= |files|
    decreases |files| - k
  {
    if k == |files| then (rows, Ok([]))
    else if !files[k].underRoot then RealPlan(spec, files, k + 1, rows)
    else
      var (rows', counter) := SqlNext(rows, CounterKey(spec, files[k]), spec.start);
      match counter
      case Err(e) => (rows', Err(e))
      case Ok(value) =>
        match Placed(spec, files[k], k, value)
        case Err(e) => (rows', Err(e))
        case Ok(items) =>
          var (end, rest) := RealPlan(spec, files, k + 1, rows');
          (end, Prefixed(items, rest))
  }

  function Prefixed(items: seq<PlanItem>, r: Result<seq<PlanItem>, PlanError>): Result<seq<PlanItem>, PlanError> {
    match r case Err(e) => Err(e) case Ok(rest) => Ok(items + rest)
  }

  method BuildPlan(store: CounterStore, spec: PlanSpec, files: seq<Candidate>, dryRun: bool)
    returns (r: Result<seq<PlanItem>, PlanError>)
    modifies store
    ensures dryRun ==> store.rows == old(store.rows) && r == DryPlan(spec, files, 0, old(store.rows), map[])
    ensures !dryRun ==> (store.rows, r) == RealPlan(spec, files, 0, old(store.rows))
  {
    var plan := [];
    var counters: map<string, U64> := map[];
    PrefixedNone(DryPlan(spec, files, 0, store.rows, counters));
    PrefixedNone(RealPlan(spec, files, 0, store.rows).1);
    for k := 0 to |files|
      invariant dryRun ==> store.rows == old(store.rows)
      invariant dryRun ==>
                  DryPlan(spec, files, 0, store.rows, map[]) == Prefixed(plan, DryPlan(spec, files, k, store.rows, counters))
      invariant !dryRun ==>
                  var (rows, rest) := RealPlan(spec, files, k, store.rows);
                  RealPlan(spec, files, 0, old(store.rows)) == (rows, Prefixed(plan, rest))
    {
      var file := files[k];
      if !file.underRoot {
        continue;
      }
      var counter;
      if dryRun {
        counter := ResolveDry(store, spec, file, counters);
      } else {
        counter := store.Next(CounterKey(spec, file), spec.start);
      }
      if counter.Err? {
        return Err(counter.error);
      }
      counters := if dryRun then counters[ScopeKey(spec, file) := SaturatingSuccessor(counter.value)] else counters;
      var placed := Placed(spec, file, k, counter.value);
      if placed.Err? {
        return Err(placed.error);
      }
      PrefixedTwice(plan, placed.value, if dryRun then DryPlan(spec, files, k + 1, store.rows, counters)
                                        else RealPlan(spec, files, k + 1, store.rows).1);
      plan := plan + placed.value;
    }
    assert plan + [] == plan;
    return Ok(plan);
  }

  method ResolveDry(store: CounterStore, spec: PlanSpec, file: Candidate, counters: map<string, U64>)
    returns (counter: Result<U64, PlanError>)
    ensures counter == DryCounter(spec, store.rows, counters, file)
  {
    var key := ScopeKey(spec, file);
    if key in counters {
      return Ok(counters[key]);
    }
    counter := store.Get(CounterKey(spec, file));
    if counter == Ok(0) {
      return Ok(spec.start);
    }
  }

  lemma PrefixedNone(r: Result<seq<PlanItem>, PlanError>)
    ensures Prefixed([], r) == r
  {
    if r.Ok? {
      assert [] + r.value == r.value;
    }
  }

  lemma PrefixedSame(items: seq<PlanItem>, a: Result<seq<PlanItem>, PlanError>, b: Result<seq<PlanItem>, PlanError>)
    ensures Prefixed(items, a) == Prefixed(items, b) <==> a == b
  {
    if a.Ok? && b.Ok? {
      assert (items + a.value)[|items|..] == a.value && (items + b.value)[|items|..] == b.value;
    }
  }

  lemma PrefixedTwice(a: seq<PlanItem>, b: seq<PlanItem>, r: Result<seq<PlanItem>, PlanError>)
    ensures Prefixed(a, Prefixed(b, r)) == Prefixed(a + b, r)
  {
    if r.Ok? {
      assert a + (b + r.value) == a + b + r.value;
    }
  }

  // ---- simulation equals application ----

  /** How far the simulation gets: past the last file, or past the first it fails on. */
  function Reach(spec: PlanSpec, files: seq<Candidate>, k: nat, rows: Rows, cache: map<string, U64>): (end: nat)
    requires k <= |files|
    ensures k <= end <= |files|
    decreases |files| - k
  {
    if k == |files| then k
    else if !files[k].underRoot then Reach(spec, files, k + 1, rows, cache)
    else match DryCounter(spec, rows, cache, files[k])
      case Err(_) => k + 1
      case Ok(counter) =>
        if Placed(spec, files[k], k, counter).Err? then k + 1
        else Reach(spec, files, k + 1, rows, cache[ScopeKey(spec, files[k]) := SaturatingSuccessor(counter)])
  }

  /** How many of the files draw a counter with a key. */
  function KeyCount(spec: PlanSpec, files: seq<Candidate>, key: string): nat {
    if files == [] then 0
    else (if files[0].underRoot && ScopeKey(spec, files[0]) == key then 1 else 0) + KeyCount(spec, files[1..], key)
  }

  /** The counter the store would give next, if it can. */
  function Head(rows: Rows, key: (Uuid, string), start: U64): int {
    if key in rows && rows[key].Whole? && rows[key].value > 0 then rows[key].value else start
  }

  predicate ValidStart(start: U64) {
    0 < start < I64_MAX
  }

  /** The start is valid and no counter the files draw comes past its end. */
  ghost predicate Drawable(spec: PlanSpec, files: seq<Candidate>, rows: Rows) {
    forall c <- files :: c.underRoot ==>
      ValidStart(spec.start) && Head(rows, CounterKey(spec, c), spec.start) + KeyCount(spec, files, ScopeKey(spec, c)) <= I64_MAX
  }

  /** No counter the files draw is stored as a negative number. */
  ghost predicate Natural(spec: PlanSpec, files: seq<Candidate>, rows: Rows) {
    forall c <- files :: c.underRoot && CounterKey(spec, c) in rows && rows[CounterKey(spec, c)].Whole?
                         ==> rows[CounterKey(spec, c)].value >= 0
  }

  /** What the cache has is what the store drawn so far has; for other keys the store is as it was. */
  ghost predicate InStep(spec: PlanSpec, rows0: Rows, cache: map<string, U64>, rows: Rows) {
    forall key: string ::
      if key in cache then 0 < cache[key] <= I64_MAX && (spec.id, key) in rows && rows[(spec.id, key)] == Whole(cache[key])
      else && ((spec.id, key) in rows <==> (spec.id, key) in rows0)
           && ((spec.id, key) in rows ==> rows[(spec.id, key)] == rows0[(spec.id, key)])
  }

  lemma {:induction false} KeyDrawn(spec: PlanSpec, files: seq<Candidate>, key: string)
    ensures KeyCount(spec, files, key) > 0 <==> exists c <- files :: c.underRoot && ScopeKey(spec, c) == key
  {
    if files != [] {
      KeyDrawn(spec, files[1..], key);
      assert forall c :: c in files <==> c == files[0] || c in files[1..];
    }
  }

  /** Drawing for the first of some files leaves the others drawable exactly when all were. */
  lemma DrawableTail(spec: PlanSpec, files: seq<Candidate>, rows: Rows)
    requires files != [] && files[0].underRoot && SqlNext(rows, CounterKey(spec, files[0]), spec.start).1.Ok?
    ensures Drawable(spec, files, rows) <==> Drawable(spec, files[1..], SqlNext(rows, CounterKey(spec, files[0]), spec.start).0)
  {
    var c, rest := files[0], files[1..];
    var rows' := SqlNext(rows, CounterKey(spec, c), spec.start).0;
    assert Head(rows', CounterKey(spec, c), spec.start) == Head(rows, CounterKey(spec, c), spec.start) + 1 <= I64_MAX;
    forall d
      ensures Head(rows', CounterKey(spec, d), spec.start) + KeyCount(spec, rest, ScopeKey(spec, d))
              == Head(rows, CounterKey(spec, d), spec.start) + KeyCount(spec, files, ScopeKey(spec, d))
    {
    }
    assert forall d :: d in files <==> d == c || d in rest;
    KeyDrawn(spec, rest, ScopeKey(spec, c));
    if Drawable(spec, rest, rows') {
      if d :| d in rest && d.underRoot && ScopeKey(spec, d) == ScopeKey(spec, c) {
        assert CounterKey(spec, d) == CounterKey(spec, c);
      }
    }
  }

  lemma DrawableSkips(spec: PlanSpec, files: seq<Candidate>, rows: Rows)
    requires files != [] && !files[0].underRoot
    ensures Drawable(spec, files, rows) <==> Drawable(spec, files[1..], rows)
  {
    assert forall d :: d in files <==> d == files[0] || d in files[1..];
    assert forall key :: KeyCount(spec, files, key) == KeyCount(spec, files[1..], key);
  }

  /** A counter the store can draw is the one the dry run takes, and the cache stays in step. */
  lemma DrawKeepsStep(spec: PlanSpec, rows0: Rows, cache: map<string, U64>, rows: Rows, c: Candidate)
    requires c.underRoot && Natural(spec, [c], rows0) && InStep(spec, rows0, cache, rows)
    requires SqlNext(rows, CounterKey(spec, c), spec.start).1.Ok?
    ensures var (rows', drawn) := SqlNext(rows, CounterKey(spec, c), spec.start);
            && drawn == DryCounter(spec, rows0, cache, c)
            && InStep(spec, rows0, cache[ScopeKey(spec, c) := SaturatingSuccessor(drawn.value)], rows')
  {
    assert c in [c];
  }

  /** A counter the store cannot draw: the start is bad, or the counter was spoiled before, which the
      dry run meets too, or it is at its end. */
  lemma UndrawnBecause(spec: PlanSpec, rows0: Rows, cache: map<string, U64>, rows: Rows, c: Candidate)
    requires InStep(spec, rows0, cache, rows) && SqlNext(rows, CounterKey(spec, c), spec.start).1.Err?
    ensures var e := SqlNext(rows, CounterKey(spec, c), spec.start).1.error;
            if !ValidStart(spec.start) then e == BadStart
            else e == Undecodable
                 && (DryCounter(spec, rows0, cache, c).Err? || Head(rows, CounterKey(spec, c), spec.start) == I64_MAX)
  {
  }

  lemma {:induction false} DryError(spec: PlanSpec, files: seq<Candidate>, k: nat, rows: Rows, cache: map<string, U64>)
    requires k <= |files|
    ensures DryPlan(spec, files, k, rows, cache) != Err(BadStart)
    decreases |files| - k
  {
    if k < |files| {
      if !files[k].underRoot {
        DryError(spec, files, k + 1, rows, cache);
      } else {
        var counter := DryCounter(spec, rows, cache, files[k]);
        if counter.Ok? {
          DryError(spec, files, k + 1, rows, cache[ScopeKey(spec, files[k]) := SaturatingSuccessor(counter.value)]);
        }
      }
    }
  }

  /** When the simulated and the real plan of some files are the same: the start is valid if it is
      asked for, and no counter comes past its end, unless the simulation meets a spoiled one itself. */
  ghost predicate SamePlan(spec: PlanSpec, files: seq<Candidate>, rows: Rows, dry: Result<seq<PlanItem>, PlanError>) {
    if dry == Err(Undecodable) then ValidStart(spec.start) else Drawable(spec, files, rows)
  }

  /** The files the simulation looks at from `k` on. */
  function Looked(spec: PlanSpec, files: seq<Candidate>, k: nat, rows: Rows, cache: map<string, U64>): seq<Candidate>
    requires k <= |files|
  {
    files[k..Reach(spec, files, k, rows, cache)]
  }

  lemma LookedFirst(spec: PlanSpec, files: seq<Candidate>, k: nat, rows: Rows, cache: map<string, U64>)
    requires k < |files|
    ensures var looked := Looked(spec, files, k, rows, cache); looked != [] && looked[0] == files[k] && files[k] in looked
  {
    var looked := Looked(spec, files, k, rows, cache);
    assert looked[0] in looked;
  }

  /** The first file draws no counter: nothing changes. */
  lemma AgreeSkips(spec: PlanSpec, files: seq<Candidate>, k: nat, rows0: Rows, cache: map<string, U64>, rows: Rows)
    requires k < |files| && !files[k].underRoot
    ensures var dry := DryPlan(spec, files, k, rows0, cache);
            SamePlan(spec, Looked(spec, files, k, rows0, cache), rows, dry)
            <==> SamePlan(spec, Looked(spec, files, k + 1, rows0, cache), rows, dry)
  {
    var looked := Looked(spec, files, k, rows0, cache);
    LookedFirst(spec, files, k, rows0, cache);
    assert looked[1..] == Looked(spec, files, k + 1, rows0, cache);
    DrawableSkips(spec, looked, rows);
  }

  /** The first file's counter cannot be drawn. */
  lemma AgreeUndrawn(spec: PlanSpec, files: seq<Candidate>, k: nat, rows0: Rows, cache: map<string, U64>, rows: Rows)
    requires k < |files| && files[k].underRoot && InStep(spec, rows0, cache, rows)
    requires SqlNext(rows, CounterKey(spec, files[k]), spec.start).1.Err?
    ensures var dry := DryPlan(spec, files, k, rows0, cache);
            dry == RealPlan(spec, files, k, rows).1 <==> SamePlan(spec, Looked(spec, files, k, rows0, cache), rows, dry)
  {
    var c, looked := files[k], Looked(spec, files, k, rows0, cache);
    DryError(spec, files, k, rows0, cache);
    UndrawnBecause(spec, rows0, cache, rows, c);
    LookedFirst(spec, files, k, rows0, cache);
    KeyDrawn(spec, looked, ScopeKey(spec, c));
  }

  /** The first file's counter is drawn, but the file cannot be placed: both plans fail on it. */
  lemma AgreeUnplaced(spec: PlanSpec, files: seq<Candidate>, k: nat, rows0: Rows, cache: map<string, U64>, rows: Rows)
    requires k < |files| && files[k].underRoot && InStep(spec, rows0, cache, rows)
    requires Natural(spec, Looked(spec, files, k, rows0, cache), rows0)
    requires var drawn := SqlNext(rows, CounterKey(spec, files[k]), spec.start).1;
             drawn.Ok? && Placed(spec, files[k], k, drawn.value).Err?
    ensures var dry := DryPlan(spec, files, k, rows0, cache);
            dry == RealPlan(spec, files, k, rows).1 && SamePlan(spec, Looked(spec, files, k, rows0, cache), rows, dry)
  {
    var looked := Looked(spec, files, k, rows0, cache);
    LookedFirst(spec, files, k, rows0, cache);
    DrawKeepsStep(spec, rows0, cache, rows, files[k]);
    DrawableTail(spec, looked, rows);
    assert looked[1..] == [];
  }

  /** The first file's counter is drawn and the file placed: the rest decides. */
  lemma AgreePlaced(spec: PlanSpec, files: seq<Candidate>, k: nat, rows0: Rows, cache: map<string, U64>, rows: Rows)
    requires k < |files| && files[k].underRoot && InStep(spec, rows0, cache, rows)
    requires Natural(spec, Looked(spec, files, k, rows0, cache), rows0)
    requires var drawn := SqlNext(rows, CounterKey(spec, files[k]), spec.start).1;
             drawn.Ok? && Placed(spec, files[k], k, drawn.value).Ok?
    ensures var c := files[k]; var (rows', drawn) := SqlNext(rows, CounterKey(spec, c), spec.start);
            var cache' := cache[ScopeKey(spec, c) := SaturatingSuccessor(drawn.value)];
            var dry, rest := DryPlan(spec, files, k, rows0, cache), DryPlan(spec, files, k + 1, rows0, cache');
            var looked := Looked(spec, files, k, rows0, cache);
            && InStep(spec, rows0, cache', rows') && Looked(spec, files, k + 1, rows0, cache') == looked[1..]
            && (dry == RealPlan(spec, files, k, rows).1 <==> rest == RealPlan(spec, files, k + 1, rows').1)
            && (SamePlan(spec, looked, rows, dry) <==> SamePlan(spec, looked[1..], rows', rest))
  {
    var c, looked := files[k], Looked(spec, files, k, rows0, cache);
    var (rows', drawn) := SqlNext(rows, CounterKey(spec, c), spec.start);
    LookedFirst(spec, files, k, rows0, cache);
    DrawKeepsStep(spec, rows0, cache, rows, c);
    DrawableTail(spec, looked, rows);
    var cache' := cache[ScopeKey(spec, c) := SaturatingSuccessor(drawn.value)];
    PrefixedSame(Placed(spec, c, k, drawn.value).value, DryPlan(spec, files, k + 1, rows0, cache'),
                 RealPlan(spec, files, k + 1, rows').1);
  }

  lemma {:induction false} PlansAgree(
    spec: PlanSpec, files: seq<Candidate>, k: nat, rows0: Rows, cache: map<string, U64>, rows: Rows)
    requires k <= |files| && InStep(spec, rows0, cache, rows)
    requires Natural(spec, Looked(spec, files, k, rows0, cache), rows0)
    ensures var dry := DryPlan(spec, files, k, rows0, cache);
            dry == RealPlan(spec, files, k, rows).1 <==> SamePlan(spec, Looked(spec, files, k, rows0, cache), rows, dry)
    decreases |files| - k
  {
    if k < |files| {
      var looked := Looked(spec, files, k, rows0, cache);
      LookedFirst(spec, files, k, rows0, cache);
      if !files[k].underRoot {
        assert Looked(spec, files, k + 1, rows0, cache) == looked[1..];
        PlansAgree(spec, files, k + 1, rows0, cache, rows);
        AgreeSkips(spec, files, k, rows0, cache, rows);
      } else if SqlNext(rows, CounterKey(spec, files[k]), spec.start).1.Err? {
        AgreeUndrawn(spec, files, k, rows0, cache, rows);
      } else {
        var (rows', drawn) := SqlNext(rows, CounterKey(spec, files[k]), spec.start);
        if Placed(spec, files[k], k, drawn.value).Err? {
          AgreeUnplaced(spec, files, k, rows0, cache, rows);
        } else {
          var cache' := cache[ScopeKey(spec, files[k]) := SaturatingSuccessor(drawn.value)];
          AgreePlaced(spec, files, k, rows0, cache, rows);
          PlansAgree(spec, files, k + 1, rows0, cache', rows');
        }
      }
    }
  }

  /** For any files, scope and stored counters the simulated plan is the plan of the real run, errors
      included, exactly when the start is valid and no counter comes past its end for the files the
      simulation looks at; where the simulation meets a spoiled counter, when the start is valid. */
  lemma SimulationIsApplication(spec: PlanSpec, files: seq<Candidate>, rows: Rows)
    requires Natural(spec, Looked(spec, files, 0, rows, map[]), rows)
    ensures var dry := DryPlan(spec, files, 0, rows, map[]);
            dry == RealPlan(spec, files, 0, rows).1 <==> SamePlan(spec, Looked(spec, files, 0, rows, map[]), rows, dry)
  {
    PlansAgree(spec, files, 0, rows, map[], rows);
  }

  /** Where the two part: a counter at its end is an error of the real run only. */
  lemma FullCounterParts(spec: PlanSpec, c: Candidate, rows: Rows)
    requires c.underRoot && ValidStart(spec.start) && CounterKey(spec, c) in rows && rows[CounterKey(spec, c)] == Whole(I64_MAX)
    requires Placed(spec, c, 0, I64_MAX).Ok?
    ensures RealPlan(spec, [c], 0, rows).1 == Err(Undecodable)
    ensures DryPlan(spec, [c], 0, rows, map[]) == Placed(spec, c, 0, I64_MAX)
  {
    var items, cache: map<string, U64> := Placed(spec, c, 0, I64_MAX).value, map[];
    var cache' := cache[ScopeKey(spec, c) := SaturatingSuccessor(I64_MAX)];
    assert DryCounter(spec, rows, cache, c) == Ok(I64_MAX);
    assert DryPlan(spec, [c], 1, rows, cache') == Ok([]);
    assert items + [] == items;
  }

  /** Why stored counters must not be negative: the simulation takes a huge counter where the real run
      starts over. */
  lemma NegativeCounterParts(spec: PlanSpec, c: Candidate, rows: Rows)
    requires ValidStart(spec.start) && CounterKey(spec, c) in rows
    requires rows[CounterKey(spec, c)].Whole? && rows[CounterKey(spec, c)].value < 0
    ensures SqlNext(rows, CounterKey(spec, c), spec.start).1 == Ok(spec.start)
    ensures DryCounter(spec, rows, map[], c).Ok? && DryCounter(spec, rows, map[], c).value > I64_MAX
  {
  }

  /** Drawing never stores a negative counter. */
  lemma DrawsStayNatural(rows: Rows, key: (Uuid, string), start: U64, other: (Uuid, string))
    requires other in rows && rows[other].Whole? ==> rows[other].value >= 0
    ensures var rows' := SqlNext(rows, key, start).0; other in rows' && rows'[other].Whole? ==> rows'[other].value >= 0
  {
  }

  // ---- what a plan is ----

  /** Two files draw the same counter exactly when they agree on what the scope goes by. */
  lemma ScopeMeaning(spec: PlanSpec, c: Candidate, d: Candidate)
    ensures ScopeKey(spec, c) == ScopeKey(spec, d)
            <==> match spec.scope
                 case Global => true
                 case PerDay => true
                 case PerFolder => c.folder == d.folder
                 case PerParent => c.parent == d.parent
  {
    KeyInjective("folder:", c.folder, d.folder);
    KeyInjective("parent:", c.parent, d.parent);
  }

  /** Blueprints with different scopes, or of different days when the scope is the day, never share a counter. */
  lemma ScopesApart(a: PlanSpec, b: PlanSpec, c: Candidate, d: Candidate)
    requires a.scope != b.scope || (a.scope == PerDay && a.today != b.today)
    ensures ScopeKey(a, c) != ScopeKey(b, d)
  {
    KeyInjective("day:", a.today, b.today);
    KeyStarts(a, c);
    KeyStarts(b, d);
  }

  lemma KeyStarts(spec: PlanSpec, c: Candidate)
    ensures ScopeKey(spec, c) != ""
    ensures ScopeKey(spec, c)[0] == match spec.scope case Global => 'g' case PerDay => 'd' case PerFolder => 'f' case PerParent => 'p'
  {
  }

  lemma KeyInjective(prefix: string, a: string, b: string)
    ensures prefix + a == prefix + b <==> a == b
  {
    assert (prefix + a)[|prefix|..] == a && (prefix + b)[|prefix|..] == b;
  }

  /** The counter of the `k`th file: the next of its key, and one more for every earlier file with the key. */
  function CounterOf(spec: PlanSpec, files: seq<Candidate>, k: nat, rows: Rows): U64
    requires k < |files|
  {
    var n := Head(rows, CounterKey(spec, files[k]), spec.start) + KeyCount(spec, files[..k], ScopeKey(spec, files[k]));
    if 0 <= n < U64_SIZE then n else 0
  }

  /** The plan by counting: each file under the root goes below the root to where its position, from 1,
      and its counter send it, unless it is there; a destination that fails or leaves the root is an error. */
  function Wanted(spec: PlanSpec, files: seq<Candidate>, k: nat, rows: Rows): Result<seq<PlanItem>, PlanError>
    requires k <= |files|
    decreases |files| - k
  {
    if k == |files| then Ok([])
    else if !files[k].underRoot then Wanted(spec, files, k + 1, rows)
    else match spec.destination(files[k].path, k + 1, CounterOf(spec, files, k, rows))
      case Err(message) => Err(BadDestination(message))
      case Ok(relative) =>
        if !spec.inside(spec.root + relative) then Err(EscapesRoot(spec.root + relative))
        else match Wanted(spec, files, k + 1, rows)
          case Err(e) => Err(e)
          case Ok(rest) =>
            Ok((if files[k].path == spec.root + relative then [] else [PlanItem(files[k].path, spec.root + relative)]) + rest)
  }

  /** Every counter stands where counting the draws of the first `k` files puts it. */
  ghost predicate Counted(spec: PlanSpec, files: seq<Candidate>, k: nat, rows0: Rows, rows: Rows)
    requires k <= |files|
  {
    forall key: string :: Head(rows, (spec.id, key), spec.start)
                          == Head(rows0, (spec.id, key), spec.start) + KeyCount(spec, files[..k], key)
  }

  lemma {:induction false} KeyCountLast(spec: PlanSpec, files: seq<Candidate>, c: Candidate, key: string)
    ensures KeyCount(spec, files + [c], key)
            == KeyCount(spec, files, key) + (if c.underRoot && ScopeKey(spec, c) == key then 1 else 0)
    decreases |files|
  {
    if files == [] {
      assert files + [c] == [c] && [c][1..] == [];
    } else {
      assert (files + [c])[1..] == files[1..] + [c];
      KeyCountLast(spec, files[1..], c, key);
    }
  }

  lemma CountedNext(spec: PlanSpec, files: seq<Candidate>, k: nat, rows0: Rows, rows: Rows)
    requires k < |files| && Counted(spec, files, k, rows0, rows)
    requires files[k].underRoot ==> SqlNext(rows, CounterKey(spec, files[k]), spec.start).1.Ok?
    ensures Counted(spec, files, k + 1, rows0,
                    if files[k].underRoot then SqlNext(rows, CounterKey(spec, files[k]), spec.start).0 else rows)
  {
    var c := files[k];
    var rows' := if c.underRoot then SqlNext(rows, CounterKey(spec, c), spec.start).0 else rows;
    assert files[..k + 1] == files[..k] + [c];
    forall key: string
      ensures Head(rows', (spec.id, key), spec.start)
              == Head(rows0, (spec.id, key), spec.start) + KeyCount(spec, files[..k + 1], key)
    {
      KeyCountLast(spec, files[..k], c, key);
    }
  }

  lemma {:induction false} PlanCounts(spec: PlanSpec, files: seq<Candidate>, k: nat, rows0: Rows, rows: Rows)
    requires k <= |files| && Counted(spec, files, k, rows0, rows)
    ensures var (_, plan) := RealPlan(spec, files, k, rows);
            plan != Err(BadStart) && plan != Err(Undecodable) ==> plan == Wanted(spec, files, k, rows0)
    decreases |files| - k
  {
    if k < |files| {
      var (rows', drawn) := SqlNext(rows, CounterKey(spec, files[k]), spec.start);
      if !files[k].underRoot {
        CountedNext(spec, files, k, rows0, rows);
        PlanCounts(spec, files, k + 1, rows0, rows);
      } else if drawn.Ok? {
        CountedNext(spec, files, k, rows0, rows);
        assert drawn.value == CounterOf(spec, files, k, rows0);
        PlanCounts(spec, files, k + 1, rows0, rows');
      }
    }
  }

  /** A real plan whose counters could be drawn is the plan by counting. */
  lemma PlanMeaning(spec: PlanSpec, files: seq<Candidate>, rows: Rows)
    ensures var plan := RealPlan(spec, files, 0, rows).1;
            plan != Err(BadStart) && plan != Err(Undecodable) ==> plan == Wanted(spec, files, 0, rows)
  {
    PlanCounts(spec, files, 0, rows, rows);
  }

  /** A plan stays under the root and never sends a file to itself. */
  lemma {:induction false} PlanIsSafe(spec: PlanSpec, files: seq<Candidate>, k: nat, rows: Rows)
    requires k <= |files|
    ensures var r := RealPlan(spec, files, k, rows).1;
            r.Ok? ==> forall item <- r.value :: item.source != item.target && spec.inside(item.target)
    decreases |files| - k
  {
    if k < |files| {
      if !files[k].underRoot {
        PlanIsSafe(spec, files, k + 1, rows);
      } else {
        PlanIsSafe(spec, files, k + 1, SqlNext(rows, CounterKey(spec, files[k]), spec.start).0);
      }
    }
  }

  /** Applying a blueprint by its own plan and rolling it back restores the disk. */
  lemma PlannedThenUndone(
    spec: PlanSpec, files: seq<Candidate>, rows: Rows, blueprint: Blueprint, env: nat -> Io, digest: Digest, fs: Files,
    os: nat -> bool)
    requires blueprint.conflict != Overwrite && AlwaysFaithful(env) && Willing(os)
    requires RealPlan(spec, files, 0, rows).1.Ok?
    ensures var plan := RealPlan(spec, files, 0, rows).1.value;
            var st := Apply(blueprint, env, digest, fs, plan);
            UndoItems(st.files, st.items, digest, os).files == fs
  {
    PlanIsSafe(spec, files, 0, rows);
    ApplyThenUndo(blueprint, env, digest, fs, RealPlan(spec, files, 0, rows).1.value, os);
  }
}
