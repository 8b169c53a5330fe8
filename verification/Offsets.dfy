/**
 * Debounced offset persistence (internal/broker/offsets.go, broker.go:476-507): clear the dirty
 * flags, snapshot every consumer, write the file; acks run concurrently with all of it.
 */
module OffsetsFile {
  import opened Consumer

  type Id = nat

  /** A flush between its loops. Clearing and Snapping hold the registry's read lock. */
  datatype Flush =
    | Idle
    | Clearing(todo: set<Id>)
    | Cleared
    | Snapping(todo: set<Id>, snap: map<Id, Offsets>)
    | Writing(snap: map<Id, Offsets>)

  /**
   * acking: consumers whose Ack has changed the offsets but not yet stored the flag (it holds the
   * consumer's lock). disk: offsets.json, an absent consumer having none. stale: the last flush failed.
   */
  datatype World = World(mem: map<Id, Offsets>, dirty: set<Id>, acking: set<Id>,
                         flush: Flush, disk: map<Id, Offsets>, stale: bool)

  datatype Step =
    | Create(c: Id)
    | AckStart(c: Id, msgID: nat)
    | AckEnd(c: Id)
    | Touch(c: Id)
    | FlushStart
    | ClearOne(c: Id)
    | SnapStart
    | SnapOne(c: Id)
    | WriteStart
    | WriteEnd(ok: bool)

  function Next(x: World, step: Step): World {
    match step
    case Create(c) =>
      if c !in x.mem && !x.flush.Clearing? && !x.flush.Snapping? then x.(mem := x.mem[c := NEVER_ACKED]) else x
    case AckStart(c, id) =>
      if c in x.mem && c !in x.acking
      then x.(mem := x.mem[c := AckOffsets(x.mem[c], id)], acking := x.acking + {c})
      else x
    case AckEnd(c) => if c in x.acking then x.(acking := x.acking - {c}, dirty := x.dirty + {c}) else x
    case Touch(c) => if c in x.mem then x.(dirty := x.dirty + {c}) else x // a nack, a kill or a timeout
    case FlushStart => if x.flush == Idle && x.dirty != {} then x.(flush := Clearing(x.mem.Keys)) else x
    case ClearOne(c) =>
      if x.flush.Clearing? && c in x.flush.todo
      then x.(dirty := x.dirty - {c}, flush := if x.flush.todo == {c} then Cleared else Clearing(x.flush.todo - {c}))
      else if x.flush == Clearing({}) then x.(flush := Cleared) else x
    case SnapStart => if x.flush == Cleared then x.(flush := Snapping(x.mem.Keys, map[])) else x
    case SnapOne(c) =>
      if x.flush.Snapping? && c in x.flush.todo && c in x.mem && c !in x.acking
      then x.(flush := Snapping(x.flush.todo - {c}, x.flush.snap[c := x.mem[c]])) else x
    case WriteStart => if x.flush.Snapping? && x.flush.todo == {} then x.(flush := Writing(x.flush.snap)) else x
    case WriteEnd(ok) =>
      if !x.flush.Writing? then x
      else if ok then x.(disk := x.flush.snap, flush := Idle, stale := false)
      else x.(flush := Idle, stale := true)
  }

  function Run(x: World, steps: seq<Step>): World {
    if steps == [] then x else Next(Run(x, steps[..|steps| - 1]), steps[|steps| - 1])
  }

  /** A partition as openPartition leaves it, with the offsets of an earlier process loaded. */
  function Boot(disk: map<Id, Offsets>): World { World(disk, {}, {}, Idle, disk, false) }

  /** What loadOffsets gives consumer c back. */
  function Loaded(disk: map<Id, Offsets>, c: Id): Offsets { if c in disk then disk[c] else NEVER_ACKED }

  /** c has not changed since its flag was last cleared. */
  predicate Settled(x: World, c: Id) { c in x.mem && c !in x.dirty && c !in x.acking }

  /** Where the current offsets of a settled consumer already are, phase by phase of the flush. */
  ghost predicate Captured(x: World, c: Id)
    requires c in x.mem
  {
    match x.flush
    case Idle => !x.stale ==> Loaded(x.disk, c) == x.mem[c]
    case Clearing(_) => true
    case Cleared => true
    case Snapping(todo, snap) => c !in todo ==> c in snap && snap[c] == x.mem[c]
    case Writing(snap) => Loaded(snap, c) == x.mem[c]
  }

  ghost predicate Inv(x: World) {
    && x.acking <= x.mem.Keys && x.dirty <= x.mem.Keys && x.disk.Keys <= x.mem.Keys
    && (x.flush.Writing? ==> x.flush.snap.Keys <= x.mem.Keys)
    && (x.flush.Clearing? ==> x.flush.todo <= x.mem.Keys)
    && (x.flush.Snapping? ==> x.flush.todo + x.flush.snap.Keys == x.mem.Keys)
    && (forall c :: Settled(x, c) ==> Captured(x, c))
  }

  lemma StepKeeps(x: World, step: Step)
    requires Inv(x)
    ensures Inv(Next(x, step))
  {
    var y := Next(x, step);
    forall c | Settled(y, c) ensures Captured(y, c) {
      assert Settled(x, c) ==> Captured(x, c);
    }
  }

  lemma {:induction false} RunKeeps(disk: map<Id, Offsets>, steps: seq<Step>)
    ensures Inv(Run(Boot(disk), steps))
  {
    if steps != [] {
      RunKeeps(disk, steps[..|steps| - 1]);
      StepKeeps(Run(Boot(disk), steps[..|steps| - 1]), steps[|steps| - 1]);
    }
  }

  /** Reloading the file would restore exactly the offsets in memory. */
  ghost predicate Current(x: World) { forall c :: c in x.mem ==> Loaded(x.disk, c) == x.mem[c] }

  /**
   * For every interleaving: once no flush and no ack is running, no consumer is dirty and the last
   * flush succeeded, reloading the file restores exactly the offsets in memory.
   */
  lemma QuietFileIsCurrent(disk: map<Id, Offsets>, steps: seq<Step>)
    ensures var x := Run(Boot(disk), steps);
            x.flush == Idle && x.dirty == {} && x.acking == {} && !x.stale ==> Current(x)
  {
    hide Run;
    RunKeeps(disk, steps);
    var x := Run(Boot(disk), steps);
    forall c | c in x.mem && x.dirty == {} && x.acking == {} ensures Captured(x, c) {
      assert Settled(x, c);
    }
  }

  /** Reloading the file restores every consumer that has not changed since its flag was cleared. */
  ghost predicate CleanCurrent(x: World) { forall c :: Settled(x, c) ==> Loaded(x.disk, c) == x.mem[c] }

  /** For these consumers the file already holds what the snapshot says. */
  ghost predicate OldFileAgrees(x: World)
    requires x.flush.Writing?
  {
    forall c :: Settled(x, c) ==> Loaded(x.disk, c) == Loaded(x.flush.snap, c)
  }

  /**
   * At the end of any flush of any run, acks running or not: the file is current for every consumer without
   * unsaved changes if and only if the write succeeded, or the old file already held their snapshot.
   */
  lemma FlushOutcomeIff(disk: map<Id, Offsets>, steps: seq<Step>, ok: bool)
    requires Run(Boot(disk), steps).flush.Writing?
    ensures var x := Run(Boot(disk), steps); CleanCurrent(Next(x, WriteEnd(ok))) <==> ok || OldFileAgrees(x)
  {
    hide Run;
    var x := Run(Boot(disk), steps);
    RunKeeps(disk, steps);
    var y := Next(x, WriteEnd(ok));
    forall c | Settled(x, c) ensures Loaded(x.flush.snap, c) == x.mem[c] && Settled(y, c) {
      assert Captured(x, c);
    }
    assert forall c :: Settled(y, c) ==> Settled(x, c);
  }

  lemma RunOne(x: World, steps: seq<Step>, i: nat)
    requires i < |steps|
    ensures Run(x, steps[..i + 1]) == Next(Run(x, steps[..i]), steps[i])
  {
    assert steps[..i + 1][..i] == steps[..i];
  }

  /** One consumer acks its first message and the flush that should save it fails. */
  function FailedFlush(c: Id): seq<Step> {
    [Create(c), AckStart(c, 0), AckEnd(c), FlushStart, ClearOne(c), SnapStart, SnapOne(c), WriteStart, WriteEnd(false)]
  }

  /** From an empty file: the run ends with nothing running and nothing dirty, over a file without the ack. */
  lemma FailedFlushForgets(c: Id)
    ensures var x := Run(Boot(map[]), FailedFlush(c));
            && x.flush == Idle && x.dirty == {} && x.acking == {}
            && c in x.mem && x.mem[c].hasAcked && x.disk == map[] && !Current(x)
  {
    hide Run, Next;
    var x, steps := Boot(map[]), FailedFlush(c);
    var o := Offsets(true, 0, {});
    assert steps[..0] == [] && steps[..9] == steps;
    RunNone(x);
    AckPhase(c);
    ClearPhase(c, o, map[]);
    SnapPhase(c, o, map[]);
    RunOne(x, steps, 0);
    RunOne(x, steps, 1);
    RunOne(x, steps, 2);
    assert Run(x, steps[..3]) == World(map[c := o], {c}, {}, Idle, map[], false);
    RunOne(x, steps, 3);
    RunOne(x, steps, 4);
    RunOne(x, steps, 5);
    RunOne(x, steps, 6);
    RunOne(x, steps, 7);
    RunOne(x, steps, 8);
    assert Loaded(map[], c) == NEVER_ACKED;
  }

  lemma AckPhase(c: Id)
    ensures Next(Next(Next(Boot(map[]), Create(c)), AckStart(c, 0)), AckEnd(c))
         == World(map[c := Offsets(true, 0, {})], {c}, {}, Idle, map[], false)
  {
    assert Next(Boot(map[]), Create(c)).mem == map[c := NEVER_ACKED];
    assert AckOffsets(NEVER_ACKED, 0) == Offsets(true, 0, {});
    assert map[c := NEVER_ACKED][c := Offsets(true, 0, {})] == map[c := Offsets(true, 0, {})];
  }

  /** No later tick repairs it: without a new ack, nack or timeout the file stays stale. */
  lemma FailedFlushStaysStale(c: Id, more: seq<Step>)
    requires forall i :: 0 <= i < |more| ==> !more[i].AckStart? && !more[i].Touch?
    ensures !Current(Run(Run(Boot(map[]), FailedFlush(c)), more))
  {
    hide Run, FailedFlush;
    var x := Run(Boot(map[]), FailedFlush(c));
    FailedFlushForgets(c);
    CleanStaysUnflushed(x, more);
    MemoryStays(x, more, c);
    assert Loaded(map[], c) == NEVER_ACKED;
  }

  lemma {:induction false} MemoryStays(x: World, steps: seq<Step>, c: Id)
    requires c in x.mem && forall i :: 0 <= i < |steps| ==> !steps[i].AckStart?
    ensures c in Run(x, steps).mem && Run(x, steps).mem[c] == x.mem[c]
  {
    if steps != [] {
      MemoryStays(x, steps[..|steps| - 1], c);
    }
  }

  lemma ClearPhase(c: Id, o: Offsets, disk: map<Id, Offsets>)
    ensures Next(Next(World(map[c := o], {c}, {}, Idle, disk, false), FlushStart), ClearOne(c))
         == World(map[c := o], {}, {}, Cleared, disk, false)
  {
    assert map[c := o].Keys == {c};
  }

  lemma SnapPhase(c: Id, o: Offsets, disk: map<Id, Offsets>)
    ensures var x := World(map[c := o], {}, {}, Cleared, disk, false);
            Next(Next(Next(Next(x, SnapStart), SnapOne(c)), WriteStart), WriteEnd(false))
            == World(map[c := o], {}, {}, Idle, disk, true)
  {
    assert map[c := o].Keys == {c};
  }

  lemma RunNone(x: World)
    ensures Run(x, []) == x
  {
  }

  /** With no consumer dirty and no new ack, nack or timeout, the file never changes again. */
  lemma {:induction false} CleanStaysUnflushed(x: World, steps: seq<Step>)
    requires x.flush == Idle && x.dirty == {} && x.acking == {}
    requires forall i :: 0 <= i < |steps| ==> !steps[i].AckStart? && !steps[i].Touch?
    ensures var y := Run(x, steps); y.flush == Idle && y.dirty == {} && y.acking == {} && y.disk == x.disk
  {
    if steps != [] { CleanStaysUnflushed(x, steps[..|steps| - 1]); }
  }

  // ---- A flush on its own ----

  function ClearAll(x: World, ids: seq<Id>): World {
    if ids == [] then x else Next(ClearAll(x, ids[..|ids| - 1]), ClearOne(ids[|ids| - 1]))
  }

  function SnapAll(x: World, ids: seq<Id>): World {
    if ids == [] then x else Next(SnapAll(x, ids[..|ids| - 1]), SnapOne(ids[|ids| - 1]))
  }

  lemma {:induction false} ClearAllClears(x: World, ids: seq<Id>)
    requires Distinct(ids) && x.flush == Clearing(x.mem.Keys) && x.dirty <= x.mem.Keys && Ids(ids) <= x.mem.Keys
    ensures var todo := x.mem.Keys - Ids(ids);
            ClearAll(x, ids) == x.(dirty := x.dirty - Ids(ids),
                                   flush := if todo == {} && ids != [] then Cleared else Clearing(todo))
  {
    if ids == [] {
      assert Ids(ids) == {};
    } else {
      var n := |ids| - 1;
      var id := ids[n];
      assert Ids(ids) == Ids(ids[..n]) + {id} by { IdsSnoc(ids[..n], id); assert ids == ids[..n] + [id]; }
      ClearAllClears(x, ids[..n]);
      var before, after := x.mem.Keys - Ids(ids[..n]), x.mem.Keys - Ids(ids);
      assert id in before && before - {id} == after && (before == {id} <==> after == {});
      assert (x.dirty - Ids(ids[..n])) - {id} == x.dirty - Ids(ids);
    }
  }

  lemma IdsSnoc(ids: seq<Id>, id: Id)
    ensures Ids(ids + [id]) == Ids(ids) + {id}
  {
    assert forall n :: n in ids + [id] <==> n in ids || n == id;
  }

  function Only(m: map<Id, Offsets>, ids: set<Id>): map<Id, Offsets> { map c | c in m && c in ids :: m[c] }

  lemma {:induction false} SnapAllSnaps(x: World, ids: seq<Id>)
    requires Distinct(ids) && x.flush == Snapping(x.mem.Keys, map[]) && x.acking == {} && Ids(ids) <= x.mem.Keys
    ensures SnapAll(x, ids) == x.(flush := Snapping(x.mem.Keys - Ids(ids), Only(x.mem, Ids(ids))))
  {
    if ids == [] {
      assert Ids(ids) == {} && Only(x.mem, {}) == map[];
    } else {
      var n := |ids| - 1;
      var id := ids[n];
      assert Ids(ids) == Ids(ids[..n]) + {id} by { IdsSnoc(ids[..n], id); assert ids == ids[..n] + [id]; }
      SnapAllSnaps(x, ids[..n]);
      assert Only(x.mem, Ids(ids[..n]))[id := x.mem[id]] == Only(x.mem, Ids(ids));
      assert (x.mem.Keys - Ids(ids[..n])) - {id} == x.mem.Keys - Ids(ids);
    }
  }

  lemma NoIds()
    ensures Ids([]) == {}
  {
  }

  /** A tick that finds something dirty and whose write succeeds leaves nothing dirty and the file equal to memory. */
  lemma FlushRunsThrough(x: World, ids: seq<Id>)
    requires Inv(x) && x.flush == Idle && x.dirty != {} && x.acking == {} && Distinct(ids) && Ids(ids) == x.mem.Keys
    ensures var cleared := ClearAll(Next(x, FlushStart), ids);
            var snapped := SnapAll(Next(cleared, SnapStart), ids);
            Next(Next(snapped, WriteStart), WriteEnd(true)) == World(x.mem, {}, {}, Idle, x.mem, false)
  {
    hide ClearAll, SnapAll, Captured, Ids;
    var x1 := x.(flush := Clearing(x.mem.Keys));
    assert ids != [] by { NoIds(); }
    ClearAllClears(x1, ids);
    assert x.mem.Keys - Ids(ids) == {} && x.dirty - Ids(ids) == {};
    var x2 := World(x.mem, {}, {}, Snapping(x.mem.Keys, map[]), x.disk, x.stale);
    SnapAllSnaps(x2, ids);
    assert Only(x.mem, Ids(ids)) == x.mem;
  }

  // ---- One consumer in the file ----

  datatype Entry = Entry(hasAcked: bool, lastAcked: nat, aboveLast: seq<nat>)

  predicate Increasing(s: seq<nat>) { forall i, j :: 0 <= i < j < |s| ==> s[i] < s[j] }

  /** The place of n in an increasing list. */
  method InsertSorted(s: seq<nat>, n: nat) returns (t: seq<nat>)
    requires Increasing(s) && n !in s
    ensures Increasing(t) && Ids(t) == Ids(s) + {n}
  {
    hide InsertAt, Ids;
    var i := 0;
    while i < |s| && s[i] < n
      invariant 0 <= i <= |s|
      invariant forall j :: 0 <= j < i ==> s[j] < n
    {
      i := i + 1;
    }
    assert i < |s| ==> s[i] in s && s[i] > n;
    t := InsertAt(s, i, n);
    InsertedIds(s, i, n);
  }

  function InsertAt(s: seq<nat>, i: nat, n: nat): (t: seq<nat>)
    requires i <= |s|
    ensures |t| == |s| + 1 && t[i] == n
    ensures forall j :: 0 <= j < i ==> t[j] == s[j]
    ensures forall j :: i < j < |t| ==> t[j] == s[j - 1]
  {
    s[..i] + [n] + s[i..]
  }

  lemma InsertedIds(s: seq<nat>, i: nat, n: nat)
    requires i <= |s|
    ensures Ids(InsertAt(s, i, n)) == Ids(s) + {n}
  {
    hide InsertAt;
    var t := InsertAt(s, i, n);
    forall m | m in s ensures m in t {
      var j :| 0 <= j < |s| && s[j] == m;
      assert t[if j < i then j else j + 1] == m;
    }
    forall m | m in t ensures m in s || m == n {
      var j :| 0 <= j < |t| && t[j] == m;
      assert j != i ==> s[if j < i then j else j - 1] == m;
    }
  }

  /** snapshotOffsets for one consumer: the set as a sorted list. */
  method SnapshotEntry(o: Offsets) returns (e: Entry)
    ensures e.hasAcked == o.hasAcked && e.lastAcked == o.lastAcked
            && Increasing(e.aboveLast) && Ids(e.aboveLast) == o.above
  {
    var rest, list := o.above, [];
    while rest != {}
      invariant rest <= o.above && Increasing(list) && Ids(list) == o.above - rest
      decreases |rest|
    {
      var n :| n in rest;
      assert n !in Ids(list);
      list := InsertSorted(list, n);
      rest := rest - {n};
    }
    e := Entry(o.hasAcked, o.lastAcked, list);
  }

  /** loadOffsets for one consumer; with SnapshotEntry it gives back the offsets it was given. */
  method LoadEntry(e: Entry) returns (o: Offsets)
    ensures o == Offsets(e.hasAcked, e.lastAcked, Ids(e.aboveLast))
  {
    var above: set<nat> := {};
    for i := 0 to |e.aboveLast|
      invariant above == Ids(e.aboveLast[..i])
    {
      above := above + {e.aboveLast[i]};
      assert e.aboveLast[..i + 1] == e.aboveLast[..i] + [e.aboveLast[i]];
    }
    assert e.aboveLast[..|e.aboveLast|] == e.aboveLast;
    o := Offsets(e.hasAcked, e.lastAcked, above);
  }
}
