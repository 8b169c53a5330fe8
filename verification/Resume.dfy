/**
 * A consumer's offsets against the log they refer to: delivery, acks, persisted snapshots, retention
 * and crashes together (internal/broker/partition.go:207-222, offsets.go, internal/wal).
 */
module Resume {
  import opened Bytes
  import opened Codec
  import opened Stream
  import opened Wal
  import opened WalSafety
  import opened WalTheorems
  import opened WalShape
  import opened Reader
  import opened Consumer

  /**
   * snap is a snapshot flushOffsets has taken but not renamed into place; ever is history: the records
   * this consumer acked.
   */
  datatype World = World(log: State, offs: Offsets, inflight: set<nat>,
                         snap: Option<Offsets>, disk: Offsets, ever: set<Record>)

  datatype Step = LogStep(step: Wal.Step) | Deliver(id: nat) | AckId(id: nat) | Forget(id: nat) | Snapshot | Persist

  function Live(cfg: Config, x: World, step: Step): World {
    match step
    case LogStep(st) =>
      if Crash(st) then World(Wal.Next(cfg, x.log, st), x.disk, {}, None, x.disk, x.ever)
      else x.(log := Wal.Next(cfg, x.log, st))
    case Deliver(id) => if id < FirstUncommitted(x.log) then x.(inflight := x.inflight + {id}) else x
    case AckId(id) =>
      if id in x.inflight
      then x.(offs := AckOffsets(x.offs, id), inflight := x.inflight - {id}, ever := x.ever + WithId(x.log, id)) else x
    case Forget(id) => x.(inflight := x.inflight - {id}) // dead-lettered, or a send rolled back
    case Snapshot => x.(snap := Some(x.offs))
    case Persist => if x.snap.Some? then x.(disk := x.snap.value, snap := None) else x
  }

  function WithId(s: State, id: nat): set<Record> {
    set r | r in RecordsIn(s.files, 0, |s.files|) && r.msgID == id
  }

  function Run(cfg: Config, x: World, steps: seq<Step>): World {
    if steps == [] then x else Live(cfg, Run(cfg, x, steps[..|steps| - 1]), steps[|steps| - 1])
  }

  const START := World(EMPTY, NEVER_ACKED, {}, None, NEVER_ACKED, {})

  /** consumerStartID: where delivery resumes, or None for OUT_OF_RANGE. */
  function StartID(o: Offsets, floor: nat): Option<nat> {
    if !o.hasAcked then Some(floor) else if o.lastAcked + 1 < floor then None else Some(o.lastAcked + 1)
  }

  // ---- Acked ids ----

  predicate Acked(o: Offsets, n: nat) { (o.hasAcked && n <= o.lastAcked) || n in o.above }

  lemma {:induction false} DrainKeepsAcked(last: nat, above: set<nat>, n: nat)
    ensures Acked(Drain(last, above), n) <==> n <= last || n in above
    decreases |above|
  {
    if last + 1 in above { DrainKeepsAcked(last + 1, above - {last + 1}, n); }
  }

  lemma AckAddsOne(o: Offsets, id: nat, n: nat)
    requires o.hasAcked || o.lastAcked == 0
    ensures Acked(AckOffsets(o, id), n) <==> Acked(o, n) || n == id
    ensures AckOffsets(o, id).hasAcked || AckOffsets(o, id).lastAcked == 0
  {
    DrainKeepsAcked(id, o.above, n);
    DrainHasAcked(id, o.above);
  }

  lemma {:induction false} DrainHasAcked(last: nat, above: set<nat>)
    ensures Drain(last, above).hasAcked
    decreases |above|
  {
    if last + 1 in above { DrainHasAcked(last + 1, above - {last + 1}); }
  }

  // ---- Invariant ----

  /** Acked ids are committed ids, and what the log retains under them is what the consumer acked. */
  ghost predicate Covers(s: State, ever: set<Record>, o: Offsets) {
    && (o.hasAcked || o.lastAcked == 0)
    && (forall n: nat :: Acked(o, n) ==> n < FirstUncommitted(s))
    && (forall i, k ::
          s.first <= i < |s.files| && 0 <= k < |s.files[i].recs| && Acked(o, s.files[i].recs[k].msgID) ==>
            s.files[i].recs[k] in ever)
  }

  ghost predicate Inv(cfg: Config, x: World) {
    && Shape(cfg, x.log)
    && (forall id :: id in x.inflight ==> id < FirstUncommitted(x.log))
    && Covers(x.log, x.ever, x.offs) && Covers(x.log, x.ever, x.disk)
    && (x.snap.Some? ==> Covers(x.log, x.ever, x.snap.value))
  }

  /** The power loss leaves some record, or no record was ever dropped: MsgIDs do not start over. */
  ghost predicate NoReset(s: State, keep: seq<nat>) {
    Floor(s) == 0 || (Survivable(s, keep) ==> |s.files| - s.first > 1 || Cut(Active(s), keep[|keep| - 1]).recs != [])
  }

  /** A kill finds some record, or no record was ever dropped. */
  predicate LeavesSome(s: State) { Floor(s) == 0 || |s.files| - s.first > 1 || Active(s).recs != [] }

  /** The power loss takes nothing committed: sealed files and the committed bytes of the active one stay. */
  predicate Spares(s: State, keep: seq<nat>) {
    Survivable(s, keep) ==> SealsWhole(s, keep) && s.committed - Active(s).baseOff <= keep[|keep| - 1]
  }

  /** Crashes that neither reset MsgIDs nor take what was committed, in any sync mode. */
  ghost predicate Allowed(s: State, step: Step) {
    step.LogStep? ==>
      && (step.step.Kill? ==> LeavesSome(s))
      && (step.step.PowerLoss? ==> NoReset(s, step.step.keep) && Spares(s, step.step.keep))
  }

  // ---- The log moves ----

  /** A committed MsgID names the same record before and after. */
  lemma SameRecord(cfg: Config, s: State, t: State, i: nat, k: nat)
    requires WalSafety.Inv(cfg, s) && WalSafety.Inv(cfg, t) && Extends(s, t)
    requires i < |t.files| && k < |t.files[i].recs| && t.files[i].recs[k].msgID < FirstUncommitted(s)
    ensures i < |s.files| && k < |s.files[i].recs| && s.files[i].recs[k] == t.files[i].recs[k]
  {
    hide HistoryOk, FlushOk, CommittedOk, FilesOk, Whole;
    SegmentAt(cfg, t.files, i);
    var last := |s.files| - 1;
    assert Grown(s.files[last], t.files[last]);
    if i > last {
      BasesOrdered(cfg, t.files, last, i);
    } else if i < last {
      SealedUnchanged(cfg, s, t, i);
    }
  }

  lemma CoversGrows(cfg: Config, s: State, t: State, ever: set<Record>, o: Offsets)
    requires WalSafety.Inv(cfg, s) && WalSafety.Inv(cfg, t) && Extends(s, t) && Covers(s, ever, o)
    ensures Covers(t, ever, o)
  {
    hide WalSafety.Inv, FirstUncommitted, Acked;
    UncommittedGrows(cfg, s, t);
    forall i, k | t.first <= i < |t.files| && 0 <= k < |t.files[i].recs| && Acked(o, t.files[i].recs[k].msgID)
      ensures t.files[i].recs[k] in ever
    {
      SameRecord(cfg, s, t, i, k);
      assert s.first <= t.first by { ExtendsFirst(s, t); }
    }
  }

  lemma ExtendsFirst(s: State, t: State)
    requires Extends(s, t)
    ensures s.first <= t.first
  {
  }

  // ---- The process dies ----

  lemma PowerLossCommits(cfg: Config, s: State, keep: seq<nat>)
    requires WalSafety.Inv(cfg, s) && Survivable(s, keep) && NoReset(s, keep)
    ensures FirstUncommitted(s) <= FirstUncommitted(PowerLossStep(s, keep))
  {
    hide HistoryOk, FlushOk, FilesOk, TailOk, Boundary, Len, Whole, PowerLossStep;
    var t, n := PowerLossStep(s, keep), |keep|;
    PowerLossKeeps(cfg, s, keep);
    ReopenedTail(cfg, s, keep);
    var g := Active(s);
    WholeMonotone(g.recs, s.committed - g.baseOff, keep[n - 1]);
    WholeAll(Active(t).recs);
  }

  /** After reopening everything is committed, and the active segment is where it was unless nothing is left. */
  lemma ReopenedTail(cfg: Config, s: State, keep: seq<nat>)
    requires WalSafety.Inv(cfg, s) && Survivable(s, keep)
    ensures var t := PowerLossStep(s, keep);
            && Active(t).recs == Active(s).recs[..Whole(Active(s).recs, keep[|keep| - 1])]
            && t.committed - Active(t).baseOff == Len(Active(t).recs)
            && (Active(t).baseMsgID == Active(s).baseMsgID
              || (|keep| == 1 && Active(t).recs == [] && Active(t).baseMsgID == 0))
  {
    hide HistoryOk, FlushOk, TailOk, CommittedOk, FilesOk, MaxTs, MaxVis, Len, Whole;
    var t, m, n := PowerLossStep(s, keep), CutAll(s, keep), |keep|;
    assert Active(t) == Rebuilt(m, n - 1);
    assert m[n - 1] == Cut(Active(s), keep[n - 1]);
    SegmentAt(cfg, s.files, |s.files| - 1);
    if n > 1 {
      CutImages(cfg, s, keep);
      SealedAt(cfg, s, |s.files| - 2);
      SegmentAt(cfg, s.files, |s.files| - 2);
      assert NextAfter(m, n - 1) == Some(m[n - 2].recs[|m[n - 2].recs| - 1].msgID + 1);
    }
  }

  lemma CoversPowerLoss(cfg: Config, s: State, keep: seq<nat>, ever: set<Record>, o: Offsets)
    requires WalSafety.Inv(cfg, s) && NoReset(s, keep) && Covers(s, ever, o)
    ensures Covers(PowerLossStep(s, keep), ever, o)
  {
    hide WalSafety.Inv, FirstUncommitted, Acked, NoReset, PowerLossStep, Survivable, Inv;
    if !Survivable(s, keep) {
      Unsurvivable(s, keep);
    } else {
      var t := PowerLossStep(s, keep);
      PowerLossCommits(cfg, s, keep);
      PowerLossFiles(cfg, s, keep);
      forall i, k | t.first <= i < |t.files| && 0 <= k < |t.files[i].recs| && Acked(o, t.files[i].recs[k].msgID)
        ensures t.files[i].recs[k] in ever
      {
        var j := s.first + i;
        assert s.first <= j < |s.files| && k < |s.files[j].recs| && s.files[j].recs[k] == t.files[i].recs[k];
      }
    }
  }

  lemma Unsurvivable(s: State, keep: seq<nat>)
    requires !Survivable(s, keep)
    ensures PowerLossStep(s, keep) == s
  {
  }

  /** After a power loss the offsets still speak about the log. */
  ghost predicate StillCovers(s: State, keep: seq<nat>, ever: set<Record>, o: Offsets) {
    Survivable(s, keep) ==> Covers(PowerLossStep(s, keep), ever, o)
  }

  lemma KeptNeverResets(s: State, keep: seq<nat>)
    requires KeepsARecord(s)
    ensures NoReset(s, keep)
  {
    hide Whole;
    if Survivable(s, keep) {
      WholeMonotone(Active(s).recs, Active(s).durable, keep[|keep| - 1]);
    }
  }

  lemma UnkeptResets(cfg: Config, s: State)
    requires WalSafety.Inv(cfg, s) && !KeepsARecord(s)
    ensures var keep := [Active(s).durable]; Survivable(s, keep) && !NoReset(s, keep)
  {
    hide HistoryOk, FlushOk, TailOk, CommittedOk, FilesOk, Whole, Len;
    SegmentAt(cfg, s.files, |s.files| - 1);
  }

  /**
   * A consumer's acks stay valid whatever a power loss leaves if and only if, before it, nothing had been
   * dropped, a sealed segment was retained, or a record of the active one was fsynced.
   */
  lemma CoversPowerLossIff(cfg: Config, s: State, ever: set<Record>, o: Offsets, n: nat)
    requires WalSafety.Inv(cfg, s) && Covers(s, ever, o) && Acked(o, n)
    ensures (forall keep :: StillCovers(s, keep, ever, o)) <==> KeepsARecord(s)
  {
    hide WalSafety.Inv, PowerLossStep, NoReset, KeepsARecord, FirstUncommitted;
    if KeepsARecord(s) {
      forall keep ensures StillCovers(s, keep, ever, o) {
        KeptNeverResets(s, keep);
        CoversPowerLoss(cfg, s, keep, ever, o);
      }
    } else {
      var keep := [Active(s).durable];
      UnkeptResets(cfg, s);
      ResetCommitsNothing(cfg, s, keep);
      assert !Covers(PowerLossStep(s, keep), ever, o);
      assert !StillCovers(s, keep, ever, o);
    }
  }

  lemma ResetCommitsNothing(cfg: Config, s: State, keep: seq<nat>)
    requires WalSafety.Inv(cfg, s) && Survivable(s, keep) && !NoReset(s, keep)
    ensures FirstUncommitted(PowerLossStep(s, keep)) == 0
  {
    hide HistoryOk, FlushOk, TailOk, CommittedOk, FilesOk, MaxTs, MaxVis;
    var t, m := PowerLossStep(s, keep), CutAll(s, keep);
    assert |m| == 1 && m[0] == Cut(Active(s), keep[0]) && m[0].recs == [];
    assert NextAfter(m, 0) == None;
    assert Active(t) == Rebuilt(m, 0);
  }

  // ---- In every sync mode ----

  lemma CoversAsIf(s: State, ever: set<Record>, o: Offsets)
    ensures Covers(AsIf(s, {}), ever, o) <==> Covers(s, ever, o)
  {
    hide FirstUncommitted, Acked, Len;
    var a := AsIf(s, {});
    EndsAsIf(s);
    if Covers(a, ever, o) {
      forall i, k | s.first <= i < |s.files| && 0 <= k < |s.files[i].recs| && Acked(o, s.files[i].recs[k].msgID)
        ensures s.files[i].recs[k] in ever
      {
        assert a.files[i].recs[k] in ever;
      }
    }
    if Covers(s, ever, o) {
      forall i, k | a.first <= i < |a.files| && 0 <= k < |a.files[i].recs| && Acked(o, a.files[i].recs[k].msgID)
        ensures a.files[i].recs[k] in ever
      {
        assert s.files[i].recs[k] in ever;
      }
    }
  }

  lemma CoversAlike(s: State, t: State, ever: set<Record>, o: Offsets)
    requires Alike(s, t) && Covers(s, ever, o)
    ensures Covers(t, ever, o)
  {
    hide Covers, AsIf;
    CoversAsIf(s, ever, o);
    CoversAsIf(t, ever, o);
  }

  lemma CoversKill(cfg: Config, s: State, ever: set<Record>, o: Offsets)
    requires Shape(cfg, s) && LeavesSome(s) && Covers(s, ever, o)
    ensures Covers(KillStep(s), ever, o)
  {
    hide WalSafety.Inv, Covers, PowerLossStep, KillStep, AsIf;
    var c, a := Fsyncing(cfg), AsIf(s, {});
    AsIfAlike(s, {});
    AlwaysFullySynced(s, {});
    KillIsPowerLoss(c, a);
    CoversAsIf(s, ever, o);
    NothingReset(s);
    CoversPowerLoss(c, a, KeepAll(a), ever, o);
    KillAlike(a, s);
    CoversAlike(KillStep(a), KillStep(s), ever, o);
  }

  lemma NothingReset(s: State)
    requires LeavesSome(s)
    ensures NoReset(AsIf(s, {}), KeepAll(AsIf(s, {})))
  {
    hide Whole, Len;
    var a, rs := AsIf(s, {}), Active(s).recs;
    WholeAll(rs);
    assert Active(a).recs == rs && Floor(a) == Floor(s);
    assert KeepAll(a)[|a.files| - a.first - 1] == Len(rs) && rs[..|rs|] == rs;
  }

  lemma CoversLoss(cfg: Config, s: State, keep: seq<nat>, ever: set<Record>, o: Offsets)
    requires Shape(cfg, s) && NoReset(s, keep) && Spares(s, keep) && Covers(s, ever, o)
    ensures Covers(PowerLossStep(s, keep), ever, o)
  {
    hide WalSafety.Inv, Covers, PowerLossStep, AsIf, Trimmed, SealsWhole, Boundary, NoReset;
    if Survivable(s, keep) {
      ShapeTail(cfg, s);
      LossAlike(cfg, s, keep, s.committed);
      var u := Trimmed(s, s.committed);
      TrimmedSame(s, keep, ever, o);
      CoversPowerLoss(Fsyncing(cfg), u, keep, ever, o);
      CoversAlike(PowerLossStep(u, keep), PowerLossStep(s, keep), ever, o);
    } else {
      Unsurvivable(s, keep);
    }
  }

  /** The log trimmed to its committed bytes. */
  lemma TrimmedSame(s: State, keep: seq<nat>, ever: set<Record>, o: Offsets)
    requires Active(s).baseOff <= s.committed && Survivable(s, keep) && NoReset(s, keep) && Covers(s, ever, o)
    ensures var u := Trimmed(s, s.committed); NoReset(u, keep) && Covers(u, ever, o)
  {
    hide Acked, Len, Whole;
    var u := Trimmed(s, s.committed);
    assert Active(u).recs == Active(s).recs && Active(u).baseOff == Active(s).baseOff;
    assert FirstUncommitted(u) == FirstUncommitted(s);
    assert Floor(u) == Floor(s);
    forall i, k | u.first <= i < |u.files| && 0 <= k < |u.files[i].recs| && Acked(o, u.files[i].recs[k].msgID)
      ensures u.files[i].recs[k] in ever
    {
      assert s.files[i].recs[k] in ever;
    }
  }

  lemma CoversLogStep(cfg: Config, s: State, st: Wal.Step, ever: set<Record>, o: Offsets)
    requires Shape(cfg, s) && Allowed(s, LogStep(st)) && Covers(s, ever, o)
    ensures Covers(Wal.Next(cfg, s, st), ever, o)
  {
    hide Covers, NoReset, Spares, LeavesSome, Extends, WalSafety.Inv, AsIf, AppendStep, KillStep, PowerLossStep;
    assert !s.down by { ShapeUp(cfg, s); }
    if st.Kill? {
      CoversKill(cfg, s, ever, o);
    } else if st.PowerLoss? {
      CoversLoss(cfg, s, st.keep, ever, o);
    } else {
      var t := Wal.Next(cfg, s, st);
      StepShapes(cfg, s, st);
      CoversAsIf(s, ever, o);
      CoversAsIf(t, ever, o);
      CoversGrows(Fsyncing(cfg), AsIf(s, {}), AsIf(t, {}), ever, o);
    }
  }

  lemma LogStepShapes(cfg: Config, s: State, st: Wal.Step)
    requires Shape(cfg, s) && Allowed(s, LogStep(st))
    ensures var t := Wal.Next(cfg, s, st); Shape(cfg, t) && (!Crash(st) ==> FirstUncommitted(s) <= FirstUncommitted(t))
  {
    hide NoReset, LeavesSome, Extends, WalSafety.Inv, AsIf, AppendStep, KillStep, PowerLossStep, FirstUncommitted;
    hide SealsWhole;
    assert !s.down by { ShapeUp(cfg, s); }
    var t := Wal.Next(cfg, s, st);
    if st.PowerLoss? {
      if Survivable(s, st.keep) { LossShapes(cfg, s, st.keep); } else { Unsurvivable(s, st.keep); }
    } else {
      StepShapes(cfg, s, st);
      if !Crash(st) {
        EndsAsIf(s);
        EndsAsIf(t);
        UncommittedGrows(Fsyncing(cfg), AsIf(s, {}), AsIf(t, {}));
      }
    }
  }

  lemma CoversMore(s: State, ever: set<Record>, more: set<Record>, o: Offsets)
    requires Covers(s, ever, o)
    ensures Covers(s, ever + more, o)
  {
  }

  lemma AckCovers(s: State, ever: set<Record>, o: Offsets, id: nat)
    requires Covers(s, ever, o) && id < FirstUncommitted(s)
    ensures Covers(s, ever + WithId(s, id), AckOffsets(o, id))
  {
    hide FirstUncommitted;
    var p, all := AckOffsets(o, id), ever + WithId(s, id);
    AckAddsOne(o, id, 0);
    forall n: nat | Acked(p, n) ensures n < FirstUncommitted(s) { AckAddsOne(o, id, n); }
    forall i, k | s.first <= i < |s.files| && 0 <= k < |s.files[i].recs| && Acked(p, s.files[i].recs[k].msgID)
      ensures s.files[i].recs[k] in all
    {
      AckAddsOne(o, id, s.files[i].recs[k].msgID);
      assert s.files[i].recs[k] in RecordsIn(s.files, 0, |s.files|);
    }
  }

  lemma StepKeeps(cfg: Config, x: World, step: Step)
    requires Inv(cfg, x) && Allowed(x.log, step)
    ensures Inv(cfg, Live(cfg, x, step))
  {
    hide Covers, FirstUncommitted, Shape, Wal.Next, AckOffsets, Allowed;
    match step
    case LogStep(st) =>
      LogStepShapes(cfg, x.log, st);
      CoversLogStep(cfg, x.log, st, x.ever, x.offs);
      CoversLogStep(cfg, x.log, st, x.ever, x.disk);
      if x.snap.Some? { CoversLogStep(cfg, x.log, st, x.ever, x.snap.value); }
    case AckId(id) =>
      if id in x.inflight {
        AckCovers(x.log, x.ever, x.offs, id);
        CoversMore(x.log, x.ever, WithId(x.log, id), x.disk);
        if x.snap.Some? { CoversMore(x.log, x.ever, WithId(x.log, id), x.snap.value); }
      }
    case _ => {}
  }

  ghost predicate AllowedRun(cfg: Config, steps: seq<Step>) {
    forall i :: 0 <= i < |steps| ==> Allowed(Run(cfg, START, steps[..i]).log, steps[i])
  }

  lemma NothingAcked(s: State)
    ensures Covers(s, {}, NEVER_ACKED)
  {
    hide FirstUncommitted;
    assert forall n: nat :: !Acked(NEVER_ACKED, n);
  }

  lemma NewConsumerOk(cfg: Config, s: State)
    requires Shape(cfg, s)
    ensures Inv(cfg, World(s, NEVER_ACKED, {}, None, NEVER_ACKED, {}))
  {
    hide Shape, FirstUncommitted, Covers;
    NothingAcked(s);
  }

  lemma StartOk(cfg: Config)
    ensures Inv(cfg, START)
  {
    hide Inv, Shape;
    FreshShapes(cfg);
    NewConsumerOk(cfg, EMPTY);
  }

  lemma {:induction false} RunKeeps(cfg: Config, steps: seq<Step>)
    requires AllowedRun(cfg, steps)
    ensures Inv(cfg, Run(cfg, START, steps))
  {
    hide Inv, Live, Allowed;
    if steps == [] {
      StartOk(cfg);
    } else {
      var n := |steps| - 1;
      var init := steps[..n];
      forall i | 0 <= i < n ensures Allowed(Run(cfg, START, init[..i]).log, init[i]) { assert init[..i] == steps[..i]; }
      RunKeeps(cfg, init);
      StepKeeps(cfg, Run(cfg, START, init), steps[n]);
    }
  }

  /** In the fsyncing modes it is enough that a kill leaves nothing unsynced and no crash resets MsgIDs. */
  ghost predicate DurableRun(cfg: Config, steps: seq<Step>) {
    && cfg.mode != NoSync
    && forall i :: 0 <= i < |steps| && steps[i].LogStep? ==>
         var s := Run(cfg, START, steps[..i]).log;
         && (steps[i].step.Kill? ==> FullySynced(s) && LeavesSome(s))
         && (steps[i].step.PowerLoss? ==> NoReset(s, steps[i].step.keep))
  }

  lemma DurableSpares(cfg: Config, s: State, keep: seq<nat>)
    requires WalSafety.Inv(cfg, s)
    ensures Spares(s, keep)
  {
    hide FilesOk, HistoryOk, FlushOk, TailOk, Boundary, Len;
    if Survivable(s, keep) {
      forall i | 0 <= i < |keep| - 1 ensures keep[i] == Len(s.files[s.first + i].recs) {
        SealedAt(cfg, s, s.first + i);
      }
    }
  }

  lemma {:induction false} DurableLog(cfg: Config, steps: seq<Step>)
    requires DurableRun(cfg, steps)
    ensures WalSafety.Inv(cfg, Run(cfg, START, steps).log)
  {
    hide WalSafety.Inv, Wal.Next, FullySynced, LeavesSome, NoReset, AckOffsets, FirstUncommitted;
    if steps == [] {
      FreshOk(cfg, EMPTY, EMPTY.files[0]);
    } else {
      var n := |steps| - 1;
      var init := steps[..n];
      forall i | 0 <= i < n && init[i].LogStep?
        ensures var s := Run(cfg, START, init[..i]).log;
                && (init[i].step.Kill? ==> FullySynced(s) && LeavesSome(s))
                && (init[i].step.PowerLoss? ==> NoReset(s, init[i].step.keep))
      {
        assert init[..i] == steps[..i];
      }
      DurableLog(cfg, init);
      if steps[n].LogStep? { WalSafety.StepKeeps(cfg, Run(cfg, START, init).log, steps[n].step); }
    }
  }

  lemma DurablePrefix(cfg: Config, steps: seq<Step>, n: nat)
    requires DurableRun(cfg, steps) && n <= |steps|
    ensures DurableRun(cfg, steps[..n])
  {
    hide Run, FullySynced, LeavesSome, NoReset;
    forall i | 0 <= i < n && steps[..n][i].LogStep?
      ensures var s := Run(cfg, START, steps[..n][..i]).log;
              && (steps[..n][i].step.Kill? ==> FullySynced(s) && LeavesSome(s))
              && (steps[..n][i].step.PowerLoss? ==> NoReset(s, steps[..n][i].step.keep))
    {
      assert steps[..n][..i] == steps[..i];
    }
  }

  /** What an fsyncing log has committed no power loss takes, so the theorems below hold of all such runs. */
  lemma DurableRunsAllowed(cfg: Config, steps: seq<Step>)
    requires DurableRun(cfg, steps)
    ensures AllowedRun(cfg, steps)
  {
    hide Run, WalSafety.Inv, LeavesSome, NoReset, Spares, FullySynced;
    forall i | 0 <= i < |steps| ensures Allowed(Run(cfg, START, steps[..i]).log, steps[i]) {
      DurablePrefix(cfg, steps, i);
      DurableLog(cfg, steps[..i]);
      if steps[i].LogStep? && steps[i].step.PowerLoss? {
        DurableSpares(cfg, Run(cfg, START, steps[..i]).log, steps[i].step.keep);
      }
    }
  }

  // ---- Theorems ----

  /**
   * However delivery, acks, dead-letters, flushes, drops and crashes are interleaved, in every sync mode,
   * resuming never skips a retained record the consumer has not acked, and OUT_OF_RANGE is reported exactly
   * to a consumer that has acked before and has lost a record it had not acked to retention.
   */
  lemma ResumeNeverSkips(cfg: Config, steps: seq<Step>)
    requires AllowedRun(cfg, steps)
    ensures var x := Run(cfg, START, steps); NothingSkipped(x)
  {
    hide Run, Inv, NothingSkipped, AllowedRun;
    RunKeeps(cfg, steps);
    RunDrained(cfg, steps);
    InvNothingSkipped(cfg, Run(cfg, START, steps));
  }

  /** Every retained record below the start id was acked; no start id means an unacked one lies behind the floor. */
  ghost predicate NothingSkipped(x: World) {
    var start, s := StartID(x.offs, Floor(x.log)), x.log;
    && (start.Some? ==>
          forall i, k ::
            s.first <= i < |s.files| && 0 <= k < |s.files[i].recs| && s.files[i].recs[k].msgID < start.value ==>
              s.files[i].recs[k] in x.ever)
    && (start.None? <==> x.offs.hasAcked && exists n: nat :: n < Floor(s) && !Acked(x.offs, n))
  }

  lemma InvNothingSkipped(cfg: Config, x: World)
    requires Inv(cfg, x) && Drained(x.offs)
    ensures NothingSkipped(x)
  {
    hide Shape, FirstUncommitted;
    forall i, k | x.log.first <= i < |x.log.files| && 0 <= k < |x.log.files[i].recs|
      ensures x.log.files[i].recs[k].msgID >= Floor(x.log)
    {
      AboveFloor(cfg, x.log, i, k);
    }
    if StartID(x.offs, Floor(x.log)).None? {
      assert !Acked(x.offs, x.offs.lastAcked + 1);
    }
  }

  lemma AboveFloor(cfg: Config, s: State, i: nat, k: nat)
    requires Shape(cfg, s) && s.first <= i < |s.files| && k < |s.files[i].recs|
    ensures s.files[i].recs[k].msgID >= Floor(s)
  {
    hide WalSafety.Inv, Len;
    EndsAsIf(s);
    RetainedAboveFloor(Fsyncing(cfg), AsIf(s, {}), i, k);
  }

  lemma RetainedAboveFloor(cfg: Config, s: State, i: nat, k: nat)
    requires WalSafety.Inv(cfg, s) && s.first <= i < |s.files| && k < |s.files[i].recs|
    ensures s.files[i].recs[k].msgID >= Floor(s)
  {
    SegmentAt(cfg, s.files, i);
    if s.first < i { BasesOrdered(cfg, s.files, s.first, i); }
  }

  /** Between the floor and the committed end every MsgID has its record, and it is committed. */
  lemma {:induction false} RecordExists(cfg: Config, s: State, n: nat, i: nat)
    requires WalSafety.Inv(cfg, s) && n < FirstUncommitted(s) && s.first <= i < |s.files| && s.files[i].baseMsgID <= n
    ensures exists r: Record :: r.msgID == n && Visible(s, r)
    decreases |s.files| - i
  {
    hide HistoryOk, FlushOk, TailOk, FilesOk, Whole, Len;
    var g := s.files[i];
    SegmentAt(cfg, s.files, i);
    if n < g.baseMsgID + |g.recs| {
      var k := n - g.baseMsgID;
      if i == |s.files| - 1 {
        CommittedCovers(cfg, s, k + 1);
      } else {
        BasesOrdered(cfg, s.files, i, |s.files| - 1);
        LenPrefix(g.recs, k + 1, |g.recs|);
        assert g.recs[..|g.recs|] == g.recs;
      }
      assert s.files[i].recs[k].msgID == n && Visible(s, s.files[i].recs[k]);
    } else {
      UncommittedInActive(cfg, s);
      SealedAt(cfg, s, i);
      RecordExists(cfg, s, n, i + 1);
    }
  }

  lemma UncommittedInActive(cfg: Config, s: State)
    requires WalSafety.Inv(cfg, s)
    ensures FirstUncommitted(s) <= Active(s).baseMsgID + |Active(s).recs|
  {
  }

  /**
   * Offsets never outrun the log, not even across repeated crashes: an acked id in the persisted
   * file was dropped by retention or names a committed record, which any power loss would leave.
   */
  lemma OffsetsNeverOutrun(cfg: Config, steps: seq<Step>, n: nat)
    requires AllowedRun(cfg, steps)
    ensures var x := Run(cfg, START, steps);
            Acked(x.disk, n) ==> n < Floor(x.log) || exists r: Record :: r.msgID == n && Visible(x.log, r)
  {
    hide Run, Visible, WalSafety.Inv, FirstUncommitted, AllowedRun;
    RunKeeps(cfg, steps);
    var x := Run(cfg, START, steps);
    if Acked(x.disk, n) && n >= Floor(x.log) {
      var a := AsIf(x.log, {});
      EndsAsIf(x.log);
      RecordExists(Fsyncing(cfg), a, n, a.first);
      var r: Record :| r.msgID == n && Visible(a, r);
      VisibleAsIf(x.log, {}, r);
    }
  }

  // ---- Nor does it start too early ----

  /** The contiguous run of acks has been drained. */
  predicate Drained(o: Offsets) { o.hasAcked ==> o.lastAcked + 1 !in o.above }

  lemma {:induction false} DrainDrains(last: nat, above: set<nat>)
    ensures Drained(Drain(last, above))
    decreases |above|
  {
    if last + 1 in above { DrainDrains(last + 1, above - {last + 1}); }
  }

  lemma AckDrained(o: Offsets, id: nat)
    requires Drained(o)
    ensures Drained(AckOffsets(o, id))
  {
    DrainDrains(id, o.above);
  }

  ghost predicate AllDrained(x: World) {
    Drained(x.offs) && Drained(x.disk) && (x.snap.Some? ==> Drained(x.snap.value))
  }

  lemma {:induction false} RunDrained(cfg: Config, steps: seq<Step>)
    ensures AllDrained(Run(cfg, START, steps))
  {
    hide Wal.Next, AckOffsets;
    if steps != [] {
      var x, step := Run(cfg, START, steps[..|steps| - 1]), steps[|steps| - 1];
      RunDrained(cfg, steps[..|steps| - 1]);
      if step.AckId? {
        AckDrained(x.offs, step.id);
      }
    }
  }

  /** In every run, a consumer that has acked from the start resumes at the first id it has not acked. */
  lemma ResumeStartsUnacked(cfg: Config, steps: seq<Step>)
    ensures var x := Run(cfg, START, steps);
            var start := StartID(x.offs, Floor(x.log));
            x.offs.hasAcked && start.Some? ==>
              !Acked(x.offs, start.value) && forall n: nat :: n < start.value ==> Acked(x.offs, n)
  {
    hide Run;
    RunDrained(cfg, steps);
  }

  // ---- The reader that serves a resumed consumer ----

  lemma StartInRange(cfg: Config, x: World)
    requires Inv(cfg, x) && StartID(x.offs, Floor(x.log)).Some?
    ensures Floor(x.log) <= StartID(x.offs, Floor(x.log)).value <= FirstUncommitted(x.log)
  {
    hide WalSafety.Inv, FirstUncommitted, AsIf;
    EndsAsIf(x.log);
    FloorCommitted(Fsyncing(cfg), AsIf(x.log, {}));
    assert x.offs.hasAcked ==> Acked(x.offs, x.offs.lastAcked);
  }

  lemma FloorCommitted(cfg: Config, s: State)
    requires WalSafety.Inv(cfg, s)
    ensures Floor(s) <= FirstUncommitted(s)
  {
    hide HistoryOk, FlushOk, TailOk, Whole, Len;
    if s.first < |s.files| - 1 { BasesOrdered(cfg, s.files, s.first, |s.files| - 1); }
  }

  lemma {:induction false} MovesExtend(f: Framing, cfg: Config, x: Session, es: seq<Event>)
    requires Shape(cfg, x.log) && NoCrash(es)
    ensures var y := Moves(f, cfg, x, es); Shape(cfg, y.log) && Extends(AsIf(x.log, {}), AsIf(y.log, {}))
  {
    hide Shape, Extends, Wal.Next, ReadStep, AsIf;
    if es == [] {
      ExtendsReflexive(AsIf(x.log, {}));
    } else {
      var y, e := Moves(f, cfg, x, es[..|es| - 1]), es[|es| - 1];
      MovesExtend(f, cfg, x, es[..|es| - 1]);
      if e.LogMoves? {
        StepShapes(cfg, y.log, e.step);
        ExtendsTransitive(AsIf(x.log, {}), AsIf(y.log, {}), AsIf(Wal.Next(cfg, y.log, e.step), {}));
      }
    }
  }

  lemma OnePlace(cfg: Config, s: State, i: nat, k: nat, j: nat, l: nat)
    requires WalSafety.Inv(cfg, s) && i < |s.files| && k < |s.files[i].recs| && j < |s.files| && l < |s.files[j].recs|
    requires s.files[i].recs[k].msgID == s.files[j].recs[l].msgID
    ensures i == j && k == l
  {
    hide HistoryOk, FlushOk, TailOk, CommittedOk, Len;
    assert SegmentOk(cfg, s.files[i]) && SegmentOk(cfg, s.files[j]);
    if i < j {
      BasesOrdered(cfg, s.files, i, j);
    } else if j < i {
      BasesOrdered(cfg, s.files, j, i);
    }
  }

  /** A record committed when the reader started is the one it later returns under that id. */
  lemma SameAsCommitted(cfg: Config, s: State, t: State, i: nat, k: nat, r: Record)
    requires WalSafety.Inv(cfg, s) && WalSafety.Inv(cfg, t) && Extends(s, t) && Published(t, r)
    requires i < |s.files| && k < |s.files[i].recs| && s.files[i].recs[k].msgID == r.msgID < FirstUncommitted(s)
    ensures s.files[i].recs[k] == r
  {
    hide WalSafety.Inv, Extends, FirstUncommitted, Len;
    var j, l :| 0 <= j < |t.files| && 0 <= l < |t.files[j].recs| && t.files[j].recs[l] == r
                && t.files[j].baseOff + Len(t.files[j].recs[..l + 1]) <= t.committed;
    SameRecord(cfg, s, t, j, l);
    OnePlace(cfg, s, i, k, j, l);
  }

  /** Where the record the consumer still needs is in what the reader returns. */
  ghost predicate HandedOver(x: World, y: Session, start: nat, i: nat, k: nat)
    requires i < |x.log.files| && k < |x.log.files[i].recs|
  {
    var r := x.log.files[i].recs[k];
    start <= r.msgID && (r.msgID - start < |y.out| ==> y.out[r.msgID - start] == r)
  }

  /**
   * Resuming and reading together: after any run with crashes, if there is a start id, the reader opened there
   * returns consecutive committed records under any interleaving with the log; every retained committed record
   * the consumer has not acked is among them in its place, and the reader fails only behind the floor.
   */
  lemma ResumedConsumerGetsAll(f: Framing, cfg: Config, steps: seq<Step>, es: seq<Event>)
    requires Lawful(f) && AllowedRun(cfg, steps) && NoCrash(es)
    requires var x := Run(cfg, START, steps); StartID(x.offs, Floor(x.log)).Some?
    ensures var x := Run(cfg, START, steps);
            var start := StartID(x.offs, Floor(x.log)).value;
            var y := Moves(f, cfg, Session(x.log, NewReader(x.log, start), []), es);
            && Returned(y, start) && y.rd != OutOfRange && (y.rd == Failed ==> start + |y.out| <= Floor(y.log))
            && (forall i, k :: x.log.first <= i < |x.log.files| && 0 <= k < |x.log.files[i].recs|
                               && x.log.files[i].recs[k] !in x.ever
                               && x.log.files[i].recs[k].msgID < FirstUncommitted(x.log)
                               ==> HandedOver(x, y, start, i, k))
  {
    hide Lawful, Run, Moves, FirstUncommitted, Published, Shape, AllowedRun, Covers, SessionShape, NewReader;
    var x := Run(cfg, START, steps);
    var s, start := x.log, StartID(x.offs, Floor(x.log)).value;
    RunKeeps(cfg, steps);
    RunDrained(cfg, steps);
    InvNothingSkipped(cfg, x);
    StartInRange(cfg, x);
    OpensInRange(cfg, s, start);
    var x0 := Session(s, NewReader(s, start), []);
    MovesKeep(f, cfg, x0, es, start);
    var y := Moves(f, cfg, x0, es);
    SessionReturns(cfg, y, start);
    MovesExtend(f, cfg, x0, es);
    forall i, k | s.first <= i < |s.files| && 0 <= k < |s.files[i].recs| && s.files[i].recs[k] !in x.ever
                  && s.files[i].recs[k].msgID < FirstUncommitted(s)
      ensures HandedOver(x, y, start, i, k)
    {
      var r := s.files[i].recs[k];
      if r.msgID - start < |y.out| {
        SameRead(cfg, s, y.log, i, k, y.out[r.msgID - start]);
      }
    }
  }

  lemma SameRead(cfg: Config, s: State, t: State, i: nat, k: nat, r: Record)
    requires Shape(cfg, s) && Shape(cfg, t) && Extends(AsIf(s, {}), AsIf(t, {})) && Published(t, r)
    requires i < |s.files| && k < |s.files[i].recs| && s.files[i].recs[k].msgID == r.msgID < FirstUncommitted(s)
    ensures s.files[i].recs[k] == r
  {
    hide WalSafety.Inv, Extends, Published, FirstUncommitted, Len;
    EndsAsIf(s);
    PublishedAsIf(t, r);
    SameAsCommitted(Fsyncing(cfg), AsIf(s, {}), AsIf(t, {}), i, k, r);
  }
}
