/**
 * A partition's log, the reader of the running subscription and the consumer it delivers to, together
 * (internal/broker/partition.go:207-318): from the moment a process has loaded the offsets until it dies.
 */
module Pipeline {
  import opened Bytes
  import opened Codec
  import opened Stream
  import opened Wal
  import opened WalSafety
  import opened WalTheorems
  import opened WalShape
  import opened Reader
  import opened Consumer
  import D = Delivery
  import R = Resume

  /** session holds the log and the reader opened last; start is what consumerStartID last returned. */
  datatype Joint = Joint(session: Session, start: Option<nat>, d: D.World)

  datatype Happening =
    | LogMove(step: Wal.Step)
    | ReaderMove
    | ChooseStart
    | Deliver(op: D.Step)

  ghost predicate Running(d: D.World, k: nat) { k < |d.subs| && D.Running(d.subs[k]) }

  /** The record that the reader has returned for the cursor of s. */
  predicate HasRead(x: Session, s: D.Sub) { s.from <= s.cursor && s.cursor - s.from < |x.out| }

  /**
   * A subscription starts where consumerStartID said, however the log has moved since, and takes the next record
   * its reader has returned. content names the payload of each MsgID.
   */
  predicate Fits(env: D.Env, j: Joint, step: D.Step) {
    match step
    case Goroutine(k, op) =>
      && (op.Start? ==> j.start == Some(op.cursor))
      && (op.Read? && k < |j.d.subs| ==>
            && HasRead(j.session, j.d.subs[k])
            && var s := j.d.subs[k]; j.session.out[s.cursor - s.from].payload == env.content(s.cursor))
    case _ => true
  }

  function Next(f: Framing, cfg: Config, env: D.Env, j: Joint, m: Happening): Joint {
    match m
    case LogMove(step) => if Crash(step) then j else j.(session := Move(f, cfg, j.session, LogMoves(step)))
    case ReaderMove => j.(session := Move(f, cfg, j.session, ReaderMoves))
    case ChooseStart => j.(start := R.StartID(j.d.c.offs, Floor(j.session.log)))
    case Deliver(step) =>
      if !Fits(env, j, step) then j else
      var d := D.Next(env, j.d, step);
      if step.Goroutine? && step.op.Start? && step.k < |j.d.subs|
         && D.Enabled(j.d.c, j.d.subs[step.k], D.Turn(j.d, step.k), step.op)
      then Joint(Session(j.session.log, NewReader(j.session.log, step.op.cursor), []), j.start, d)
      else j.(d := d)
  }

  function Run(f: Framing, cfg: Config, env: D.Env, j: Joint, ms: seq<Happening>): Joint {
    if ms == [] then j else Next(f, cfg, env, Run(f, cfg, env, j, ms[..|ms| - 1]), ms[|ms| - 1])
  }

  /** A process that found the log s and the offsets o. */
  function Boot(s: State, window: nat, o: Offsets): Joint {
    Joint(Session(s, OutOfRange, []), None, D.Initial(window, o))
  }

  // ---- The invariant ----

  /** Below c everything is acked or behind the floor. */
  ghost predicate Behind(j: Joint, c: nat) {
    forall id: nat :: id < c ==> R.Acked(j.d.c.offs, id) || id < Floor(j.session.log)
  }

  /** Only committed records are in flight or acked. */
  ghost predicate OnlyCommitted(j: Joint) {
    && (forall id: nat :: R.Acked(j.d.c.offs, id) ==> id < FirstUncommitted(j.session.log))
    && (forall id: nat :: id in j.d.c.inflight ==> id < FirstUncommitted(j.session.log))
  }

  ghost predicate AckedOk(j: Joint) {
    && (j.d.c.offs.hasAcked || j.d.c.offs.lastAcked == 0)
    && (forall id: nat :: id in j.d.acked ==> R.Acked(j.d.c.offs, id))
  }

  ghost predicate SessionFine(cfg: Config, x: Session, from: nat) {
    (x.rd == OutOfRange && x.out == []) || SessionShape(cfg, x, from)
  }

  /** What the subscription has taken is what its reader returned. */
  ghost predicate Taken(env: D.Env, x: Session, s: D.Sub) {
    && s.from <= s.cursor && s.cursor - s.from <= |x.out|
    && (forall i :: 0 <= i < s.cursor - s.from ==> x.out[i].payload == env.content(s.from + i))
  }

  ghost predicate SubFine(cfg: Config, env: D.Env, j: Joint, s: D.Sub) {
    Behind(j, s.from) && SessionFine(cfg, j.session, s.from) && Taken(env, j.session, s)
  }

  ghost predicate Inv(cfg: Config, env: D.Env, j: Joint) {
    && Shape(cfg, j.session.log) && D.Inv(env, j.d) && OnlyCommitted(j) && AckedOk(j)
    && (j.start.Some? ==> Behind(j, j.start.value) && j.start.value <= FirstUncommitted(j.session.log))
    && (forall k: nat :: Running(j.d, k) ==> SubFine(cfg, env, j, j.d.subs[k]))
  }

  // ---- The log moves ----

  lemma LogGrows(cfg: Config, s: State, step: Wal.Step)
    requires Shape(cfg, s) && !Crash(step)
    ensures var t := Wal.Next(cfg, s, step);
            Shape(cfg, t) && FirstUncommitted(s) <= FirstUncommitted(t) && Floor(s) <= Floor(t)
  {
    hide WalSafety.Inv, Wal.Next, Extends, FirstUncommitted, AsIf, Floor;
    var t, c := Wal.Next(cfg, s, step), Fsyncing(cfg);
    StepShapes(cfg, s, step);
    EndsAsIf(s);
    EndsAsIf(t);
    UncommittedGrows(c, AsIf(s, {}), AsIf(t, {}));
    FloorGrows(c, AsIf(s, {}), AsIf(t, {}));
  }

  lemma MoveFine(f: Framing, cfg: Config, x: Session, e: Event, from: nat)
    requires Lawful(f) && SessionFine(cfg, x, from) && (e.LogMoves? ==> !Crash(e.step))
    ensures SessionFine(cfg, Move(f, cfg, x, e), from) && x.out <= Move(f, cfg, x, e).out
  {
    hide Lawful, SessionShape, Wal.Next;
    if SessionShape(cfg, x, from) { MoveKeeps(f, cfg, x, e, from); }
    if e.ReaderMoves? { OutGrows(f, x); }
  }

  lemma OutGrows(f: Framing, x: Session)
    ensures var (rd, got) := ReadStep(f, x.log, x.rd);
            && x.out <= (if got.Some? then x.out + [got.value] else x.out)
            && (x.rd == OutOfRange ==> rd == OutOfRange && got == None)
  {
  }

  lemma SessionMoves(f: Framing, cfg: Config, env: D.Env, j: Joint, e: Event)
    requires Lawful(f) && Inv(cfg, env, j) && (e.LogMoves? ==> !Crash(e.step))
    ensures Inv(cfg, env, j.(session := Move(f, cfg, j.session, e)))
  {
    hide Lawful, Shape, D.Inv, SessionFine, FirstUncommitted, Floor, R.Acked, ReadStep, D.Running;
    var j' := j.(session := Move(f, cfg, j.session, e));
    if e.LogMoves? { LogGrows(cfg, j.session.log, e.step); }
    forall k: nat | Running(j'.d, k) ensures SubFine(cfg, env, j', j'.d.subs[k]) {
      assert Running(j.d, k);
      var s := j.d.subs[k];
      MoveFine(f, cfg, j.session, e, s.from);
    }
  }

  // ---- Delivery moves ----

  lemma ChooseKeeps(cfg: Config, env: D.Env, j: Joint)
    requires Inv(cfg, env, j)
    ensures Inv(cfg, env, j.(start := R.StartID(j.d.c.offs, Floor(j.session.log))))
  {
    hide WalSafety.Inv, D.Inv, SessionFine, FirstUncommitted, AsIf, Taken, D.Running;
    var s, o := j.session.log, j.d.c.offs;
    EndsAsIf(s);
    R.FloorCommitted(Fsyncing(cfg), AsIf(s, {}));
    assert o.hasAcked ==> R.Acked(o, o.lastAcked);
    var j' := j.(start := R.StartID(o, Floor(s)));
    forall k: nat | Running(j'.d, k) ensures SubFine(cfg, env, j', j'.d.subs[k]) {
      assert Running(j.d, k);
    }
  }

  /** Offsets change by acks of what is in flight only, and everything acked stays acked. */
  lemma OffsetsGrow(env: D.Env, d: D.World, step: D.Step, id: nat)
    requires d.c.offs.hasAcked || d.c.offs.lastAcked == 0
    ensures var e := D.Next(env, d, step);
            && (e.c.offs.hasAcked || e.c.offs.lastAcked == 0)
            && (R.Acked(d.c.offs, id) ==> R.Acked(e.c.offs, id))
            && (R.Acked(e.c.offs, id) ==> R.Acked(d.c.offs, id) || id in d.c.inflight)
            && (id in e.acked ==> id in d.acked || R.Acked(e.c.offs, id))
  {
    hide AckOffsets, D.Threshold, R.Acked;
    if step.AckMsg? {
      R.AckAddsOne(d.c.offs, step.id, id);
      AckedFirst(d.c.offs, step.id);
    }
  }

  lemma AckedFirst(o: Offsets, id: nat)
    requires o.hasAcked || o.lastAcked == 0
    ensures var p := AckOffsets(o, id); p.hasAcked || p.lastAcked == 0
  {
    R.DrainHasAcked(id, o.above);
  }

  /** Nothing new is in flight but what a goroutine has just read. */
  lemma InflightFrom(env: D.Env, d: D.World, step: D.Step, id: nat)
    requires id in D.Next(env, d, step).c.inflight
    ensures id in d.c.inflight
         || (step.Goroutine? && step.op.Read? && step.k < |d.subs| && d.subs[step.k].phase == D.Reading
             && id == d.subs[step.k].cursor)
  {
    hide AckOffsets, D.Threshold, Dead;
  }

  lemma PublishedBelow(cfg: Config, s: State, r: Record)
    requires Shape(cfg, s) && Published(s, r)
    ensures r.msgID < FirstUncommitted(s)
  {
    hide WalSafety.Inv, FirstUncommitted, Published, AsIf;
    EndsAsIf(s);
    PublishedAsIf(s, r);
    PublishedIsCommitted(Fsyncing(cfg), AsIf(s, {}), r);
  }

  /** The record a goroutine is about to take is committed and has the MsgID of its cursor. */
  lemma ReadIsCommitted(cfg: Config, env: D.Env, j: Joint, k: nat)
    requires Inv(cfg, env, j) && Running(j.d, k) && HasRead(j.session, j.d.subs[k])
    ensures var s := j.d.subs[k];
            var r := j.session.out[s.cursor - s.from];
            r.msgID == s.cursor && Published(j.session.log, r) && s.cursor < FirstUncommitted(j.session.log)
  {
    hide Shape, D.Inv, SessionShape, FirstUncommitted, Published, Taken, Behind, D.Running;
    var s := j.d.subs[k];
    assert SubFine(cfg, env, j, s);
    SessionReturns(cfg, j.session, s.from);
    PublishedBelow(cfg, j.session.log, j.session.out[s.cursor - s.from]);
  }

  ghost predicate Starts(j: Joint, step: D.Step) {
    && step.Goroutine? && step.op.Start? && step.k < |j.d.subs|
    && D.Enabled(j.d.c, j.d.subs[step.k], D.Turn(j.d, step.k), step.op)
  }

  lemma DeliverOffsets(cfg: Config, env: D.Env, j: Joint, step: D.Step)
    requires Inv(cfg, env, j) && Fits(env, j, step)
    ensures var j' := j.(d := D.Next(env, j.d, step));
            && OnlyCommitted(j') && AckedOk(j')
            && (forall c: nat :: Behind(j, c) ==> Behind(j', c))
  {
    hide Shape, FirstUncommitted, Floor, R.Acked, D.Next, D.Inv, SubFine;
    var j' := j.(d := D.Next(env, j.d, step));
    OffsetsGrow(env, j.d, step, 0);
    forall id: nat
      ensures R.Acked(j.d.c.offs, id) ==> R.Acked(j'.d.c.offs, id)
      ensures R.Acked(j'.d.c.offs, id) ==> id < FirstUncommitted(j.session.log)
      ensures id in j'.d.acked ==> R.Acked(j'.d.c.offs, id)
    {
      OffsetsGrow(env, j.d, step, id);
    }
    forall id: nat | id in j'.d.c.inflight ensures id < FirstUncommitted(j.session.log) {
      InflightFrom(env, j.d, step, id);
      if id !in j.d.c.inflight { ReadIsCommitted(cfg, env, j, step.k); }
    }
  }

  /** What a step does to a subscription that was running and still is. */
  lemma SubMoves(env: D.Env, d: D.World, step: D.Step, k: nat)
    requires Running(D.Next(env, d, step), k)
    ensures var s' := D.Next(env, d, step).subs[k];
            || (step.Goroutine? && step.k == k && step.op.Start? && k < |d.subs|
                && D.Enabled(d.c, d.subs[k], D.Turn(d, k), step.op) && s'.from == s'.cursor == step.op.cursor)
            || (Running(d, k) && s'.from == d.subs[k].from
                && (s'.cursor == d.subs[k].cursor
                    || (step.Goroutine? && step.k == k && step.op.Read? && s'.cursor == d.subs[k].cursor + 1)))
  {
    hide AckOffsets, D.Threshold, Dead, D.OpView;
  }

  lemma KeepsRunning(cfg: Config, env: D.Env, j: Joint, step: D.Step)
    requires Inv(cfg, env, j) && Fits(env, j, step) && !Starts(j, step)
    ensures Inv(cfg, env, j.(d := D.Next(env, j.d, step)))
  {
    hide Shape, SessionFine, FirstUncommitted, Behind, D.Next, D.Inv, OnlyCommitted, AckedOk, D.Running, D.Enabled;
    var j' := j.(d := D.Next(env, j.d, step));
    D.StepKeeps(env, j.d, step);
    DeliverOffsets(cfg, env, j, step);
    forall k: nat | Running(j'.d, k) ensures SubFine(cfg, env, j', j'.d.subs[k]) {
      SubMoves(env, j.d, step, k);
      assert Running(j.d, k);
      assert SubFine(cfg, env, j, j.d.subs[k]);
    }
  }

  /** A goroutine starts only when no other runs. */
  lemma OthersDone(env: D.Env, d: D.World, step: D.Step, k: nat)
    requires D.OneRunner(d) && D.OneRunner(D.Next(env, d, step)) && Running(D.Next(env, d, step), k)
    requires step.Goroutine? && step.op.Start? && step.k < |d.subs|
    requires D.Enabled(d.c, d.subs[step.k], D.Turn(d, step.k), step.op)
    ensures k == step.k
  {
    var e, i := D.Next(env, d, step), step.k;
    assert e.subs[i].phase == D.Gate;
  }

  lemma StartKeeps(cfg: Config, env: D.Env, j: Joint, step: D.Step)
    requires Inv(cfg, env, j) && Fits(env, j, step) && Starts(j, step)
    ensures var s := j.session.log;
            Inv(cfg, env, Joint(Session(s, NewReader(s, step.op.cursor), []), j.start, D.Next(env, j.d, step)))
  {
    hide Shape, SessionShape, FirstUncommitted, Behind, D.Next, OnlyCommitted, AckedOk, D.Running, D.Enabled, PickStart;
    hide Floor;
    hide D.WindowOk, D.NoLostWakeup, D.AttemptsOk, D.KillsOk, D.SentOk, D.OneRunner;
    var s, c := j.session.log, step.op.cursor;
    var j1 := j.(d := D.Next(env, j.d, step));
    var j' := Joint(Session(s, NewReader(s, c), []), j.start, j1.d);
    D.StepKeeps(env, j.d, step);
    DeliverOffsets(cfg, env, j, step);
    SameBehind(j1, j', c);
    if c >= Floor(s) { OpensInRange(cfg, s, c); }
    forall k: nat | Running(j'.d, k) ensures SubFine(cfg, env, j', j'.d.subs[k]) {
      OthersDone(env, j.d, step, k);
      SubMoves(env, j.d, step, k);
      StartedAt(env, j.d, step);
    }
  }

  lemma StartedAt(env: D.Env, d: D.World, step: D.Step)
    requires step.Goroutine? && step.op.Start? && step.k < |d.subs|
    requires D.Enabled(d.c, d.subs[step.k], D.Turn(d, step.k), step.op)
    ensures var s := D.Next(env, d, step).subs[step.k]; s.from == s.cursor == step.op.cursor
  {
  }

  lemma SameBehind(j: Joint, j': Joint, c: nat)
    requires j'.d == j.d && j'.session.log == j.session.log
    ensures Behind(j, c) ==> Behind(j', c)
    ensures OnlyCommitted(j) ==> OnlyCommitted(j')
    ensures AckedOk(j) ==> AckedOk(j')
  {
  }

  lemma NextKeeps(f: Framing, cfg: Config, env: D.Env, j: Joint, m: Happening)
    requires Lawful(f) && Inv(cfg, env, j)
    ensures Inv(cfg, env, Next(f, cfg, env, j, m))
  {
    hide Lawful, Inv, Move, D.Next, NewReader, Fits, D.Enabled;
    match m
    case LogMove(step) => if !Crash(step) { SessionMoves(f, cfg, env, j, LogMoves(step)); }
    case ReaderMove => SessionMoves(f, cfg, env, j, ReaderMoves);
    case ChooseStart => ChooseKeeps(cfg, env, j);
    case Deliver(step) =>
      if Fits(env, j, step) {
        if Starts(j, step) { StartKeeps(cfg, env, j, step); } else { KeepsRunning(cfg, env, j, step); }
      }
  }

  lemma {:induction false} RunKeeps(f: Framing, cfg: Config, env: D.Env, j: Joint, ms: seq<Happening>)
    requires Lawful(f) && Inv(cfg, env, j)
    ensures Inv(cfg, env, Run(f, cfg, env, j, ms))
  {
    hide Lawful, Inv, Next;
    if ms != [] {
      RunKeeps(f, cfg, env, j, ms[..|ms| - 1]);
      NextKeeps(f, cfg, env, Run(f, cfg, env, j, ms[..|ms| - 1]), ms[|ms| - 1]);
    }
  }

  /** Every allowed run of log and offsets leaves a state a process can start from. */
  lemma BootOk(cfg: Config, env: D.Env, window: nat, steps: seq<R.Step>)
    requires R.AllowedRun(cfg, steps)
    ensures var x := R.Run(cfg, R.START, steps); Inv(cfg, env, Boot(x.log, window, x.offs))
  {
    hide R.Run, R.AllowedRun, Shape, FirstUncommitted;
    R.RunKeeps(cfg, steps);
    D.RunKeeps(env, window, R.Run(cfg, R.START, steps).offs, []);
  }

  // ---- Theorems ----

  /** The record with MsgID id is dealt with, or still to come. */
  ghost predicate Safe(j: Joint, s: D.Sub, id: nat) {
    R.Acked(j.d.c.offs, id) || id in j.d.c.inflight || D.WasKilled(j.d, id) || s.cursor <= id
  }

  /**
   * Log, reader, resuming and delivery together. After any run with crashes a process loads log and offsets;
   * appends, rotations, flushes, drops, reader moves, subscription swaps, deliveries, acks, nacks, timeouts and
   * pauses then interleave in any way. While a subscription runs, every retained record is acked, in flight,
   * dead-lettered, or at or ahead of its cursor. What lies from its start to its cursor it has sent, or is sending,
   * and it read each from the log: a committed record of that MsgID with that payload.
   */
  lemma EveryRecordIsAccountedFor(f: Framing, cfg: Config, env: D.Env, window: nat,
                                  steps: seq<R.Step>, ms: seq<Happening>, k: nat)
    requires Lawful(f) && R.AllowedRun(cfg, steps)
    requires var x := R.Run(cfg, R.START, steps);
             Running(Run(f, cfg, env, Boot(x.log, window, x.offs), ms).d, k)
    ensures var x := R.Run(cfg, R.START, steps);
            var j := Run(f, cfg, env, Boot(x.log, window, x.offs), ms);
            var s, log := j.d.subs[k], j.session.log;
            && (forall i, l :: log.first <= i < |log.files| && 0 <= l < |log.files[i].recs| ==>
                  Safe(j, s, log.files[i].recs[l].msgID))
            && (forall id: nat :: s.from <= id < s.cursor ==>
                  && (id in s.sent || s.phase == D.Sending(id))
                  && exists r :: Published(log, r) && r.msgID == id && r.payload == env.content(id))
  {
    hide Lawful, R.AllowedRun, R.Run, Run, Published, Shape, R.Acked;
    var x := R.Run(cfg, R.START, steps);
    var j := Run(f, cfg, env, Boot(x.log, window, x.offs), ms);
    BootOk(cfg, env, window, steps);
    RunKeeps(f, cfg, env, Boot(x.log, window, x.offs), ms);
    var s, log := j.d.subs[k], j.session.log;
    forall i, l | log.first <= i < |log.files| && 0 <= l < |log.files[i].recs|
      ensures Safe(j, s, log.files[i].recs[l].msgID)
    {
      R.AboveFloor(cfg, log, i, l);
      IsSafe(cfg, env, j, k, log.files[i].recs[l].msgID);
    }
    forall id: nat | s.from <= id < s.cursor
      ensures id in s.sent || s.phase == D.Sending(id)
      ensures exists r :: Published(log, r) && r.msgID == id && r.payload == env.content(id)
    {
      WasSent(cfg, env, j, k, id);
      WasRead(cfg, env, j, k, id);
    }
  }

  lemma WasSent(cfg: Config, env: D.Env, j: Joint, k: nat, id: nat)
    requires Inv(cfg, env, j) && Running(j.d, k) && j.d.subs[k].from <= id < j.d.subs[k].cursor
    ensures id in j.d.subs[k].sent || j.d.subs[k].phase == D.Sending(id)
    ensures D.Accounted(j.d, id)
  {
    hide Shape, OnlyCommitted, AckedOk, SubFine, Behind, D.Accounted;
    hide D.WindowOk, D.NoLostWakeup, D.AttemptsOk, D.KillsOk, D.OneRunner;
    assert D.SubOk(j.d, j.d.subs[k]);
  }

  lemma WasRead(cfg: Config, env: D.Env, j: Joint, k: nat, id: nat)
    requires Inv(cfg, env, j) && Running(j.d, k) && j.d.subs[k].from <= id < j.d.subs[k].cursor
    ensures exists r :: Published(j.session.log, r) && r.msgID == id && r.payload == env.content(id)
  {
    hide Shape, D.Inv, SessionShape, Published, Behind, D.Running, OnlyCommitted, AckedOk;
    var s := j.d.subs[k];
    assert SubFine(cfg, env, j, s);
    SessionReturns(cfg, j.session, s.from);
    var r := j.session.out[id - s.from];
    assert Published(j.session.log, r) && r.msgID == id && r.payload == env.content(id);
  }

  lemma IsSafe(cfg: Config, env: D.Env, j: Joint, k: nat, id: nat)
    requires Inv(cfg, env, j) && Running(j.d, k) && Floor(j.session.log) <= id
    ensures Safe(j, j.d.subs[k], id)
  {
    hide Shape, D.Inv, SessionFine, Taken, OnlyCommitted, D.Running, D.WasKilled, R.Acked;
    var s := j.d.subs[k];
    assert SubFine(cfg, env, j, s);
    if s.from <= id < s.cursor { WasSent(cfg, env, j, k, id); }
  }
}
