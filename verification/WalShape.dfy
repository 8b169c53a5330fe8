/**
 * What a log keeps in every sync mode, also when it never fsyncs or is killed with unsynced bytes. But for
 * durability such a log is one that has fsynced all it wrote, and the invariant of WalSafety speaks about it.
 */
module WalShape {
  import opened Codec
  import opened Stream
  import opened Wal
  import opened WalSafety
  import opened WalTheorems

  function Fsynced(g: Segment): Segment { g.(durable := Len(g.recs)) }

  function AllFsynced(files: seq<Segment>): (r: seq<Segment>)
    ensures |r| == |files| && forall i :: 0 <= i < |files| ==> r[i] == Fsynced(files[i])
  {
    seq(|files|, i requires 0 <= i < |files| => Fsynced(files[i]))
  }

  /** s as if everything written had been fsynced, with the given records acked. */
  function AsIf(s: State, acked: set<Record>): State { s.(files := AllFsynced(s.files), acked := acked) }

  /** s and t differ in what was fsynced and acked only. */
  ghost predicate Alike(s: State, t: State) { AsIf(s, {}) == AsIf(t, {}) }

  /** The mode without fsync commits as the per-message mode does when its fsync succeeds. */
  function Fsyncing(cfg: Config): Config { if cfg.mode == NoSync then cfg.(mode := PerMessage) else cfg }

  function FsyncingIo(cfg: Config, io: Io): Io { if cfg.mode == NoSync then io.(sync := true) else io }

  function FsyncingStep(cfg: Config, step: Step): Step {
    if step.Append? then step.(io := FsyncingIo(cfg, step.io)) else step
  }

  // ---- One step, with and without fsync ----

  lemma AllFsyncedReplace(files: seq<Segment>, i: nat, g: Segment)
    requires i < |files|
    ensures AllFsynced(files[i := g]) == AllFsynced(files)[i := Fsynced(g)]
  {
  }

  lemma FsyncAlike(s: State, i: nat)
    requires i < |s.files|
    ensures AllFsynced(FsyncAt(s, i).files) == AllFsynced(s.files)
  {
    hide Len;
    AllFsyncedReplace(s.files, i, s.files[i].(durable := Len(s.files[i].recs)));
  }

  lemma AlikeFiles(s: State, t: State, i: nat)
    requires Alike(s, t) && i < |s.files|
    ensures |s.files| == |t.files| && Fsynced(s.files[i]) == Fsynced(t.files[i])
  {
    assert AllFsynced(s.files)[i] == AllFsynced(t.files)[i];
  }

  lemma RotateAlike(s: State, t: State, io: Io)
    requires Alike(s, t)
    ensures Alike(Rotate(s, io).0, Rotate(t, io).0) && Rotate(s, io).1 == Rotate(t, io).1
    ensures Rotate(s, io).0.acked == s.acked && Rotate(t, io).0.acked == t.acked
  {
    hide Len;
    AlikeFiles(s, t, |s.files| - 1);
    FsyncAlike(s, |s.files| - 1);
    FsyncAlike(t, |t.files| - 1);
    var a, b := Rotate(s, io).0, Rotate(t, io).0;
    assert AllFsynced(a.files) == AllFsynced(b.files);
  }

  lemma WriteAlike(s: State, t: State, r: Record)
    requires Alike(s, t)
    ensures Alike(WriteActive(s, r), WriteActive(t, r))
  {
    hide Len, Max;
    var n := |s.files| - 1;
    AlikeFiles(s, t, n);
    AllFsyncedReplace(s.files, n, WriteActive(s, r).files[n]);
    AllFsyncedReplace(t.files, n, WriteActive(t, r).files[n]);
  }

  lemma FenceAlike(cfg: Config, s: State, t: State, r: Record, ok: bool)
    requires Alike(s, t)
    ensures var a, b := Fence(cfg, s, r, ok), Fence(Fsyncing(cfg), t, r, cfg.mode == NoSync || ok);
            Alike(a, b) && a.acked - s.acked <= b.acked && t.acked <= b.acked
  {
    hide Len;
    AlikeFiles(s, t, 0);
    FsyncAlike(s, |s.files| - 1);
    FsyncAlike(t, |t.files| - 1);
  }

  lemma AppendAlike(cfg: Config, s: State, t: State, rec: Record, io: Io)
    requires Alike(s, t)
    ensures var a, b := AppendStep(cfg, s, rec, io), AppendStep(Fsyncing(cfg), t, rec, FsyncingIo(cfg, io));
            Alike(a, b) && a.acked - s.acked <= b.acked && t.acked <= b.acked
  {
    hide Encodable, Rotate, WriteActive, Fence, Size, Len;
    AlikeFiles(s, t, |s.files| - 1);
    if s.next < U64 {
      var r := rec.(msgID := s.next);
      assert MustRotate(cfg, s, r) == MustRotate(Fsyncing(cfg), t, r);
      RotateAlike(s, t, io);
      RotateIo(t, cfg, io);
      var (s1, t1) := if MustRotate(cfg, s, r) then (Rotate(s, io).0, Rotate(t, io).0) else (s, t);
      WriteAlike(s1, t1, r);
      FenceAlike(cfg, WriteActive(s1, r), WriteActive(t1, r), r, io.sync);
      WriteAcks(s1, r);
      WriteAcks(t1, r);
    }
  }

  lemma RotateIo(s: State, cfg: Config, io: Io)
    ensures Rotate(s, FsyncingIo(cfg, io)) == Rotate(s, io)
  {
  }

  lemma WriteAcks(s: State, r: Record)
    ensures WriteActive(s, r).acked == s.acked
  {
  }

  lemma {:induction false} DropToAlike(a: seq<Segment>, b: seq<Segment>, i: nat, keep: nat)
    requires AllFsynced(a) == AllFsynced(b) && i < |a|
    ensures |a| == |b| && DropTo(a, i, keep) == DropTo(b, i, keep)
    decreases |a| - i
  {
    assert AllFsynced(a)[i] == AllFsynced(b)[i];
    if i < |a| - 1 { DropToAlike(a, b, i + 1, keep); }
  }

  lemma RecordsAlike(a: seq<Segment>, b: seq<Segment>, lo: nat, hi: nat)
    requires AllFsynced(a) == AllFsynced(b) && lo <= hi <= |a|
    ensures |a| == |b| && RecordsIn(a, lo, hi) == RecordsIn(b, lo, hi)
  {
    hide Len;
    forall i | 0 <= i < |a| ensures a[i].recs == b[i].recs {
      assert AllFsynced(a)[i] == AllFsynced(b)[i];
    }
  }

  lemma DropAlike(s: State, t: State, keep: nat)
    requires Alike(s, t)
    ensures Alike(DropStep(s, keep), DropStep(t, keep))
  {
    hide AllFsynced, RecordsIn;
    DropToAlike(s.files, t.files, s.first, keep);
    RecordsAlike(s.files, t.files, s.first, DropTo(s.files, s.first, keep));
  }

  /** Reopening looks at the frames; what was fsynced only stays with the files. */
  ghost predicate SameFrames(m: seq<Image>, n: seq<Image>) {
    && |m| == |n|
    && forall i :: 0 <= i < |m| ==> m[i].index == n[i].index && m[i].recs == n[i].recs && m[i].torn == n[i].torn
  }

  lemma {:induction false} FramesBefore(m: seq<Image>, n: seq<Image>, i: nat)
    requires SameFrames(m, n) && i <= |m|
    ensures LenBefore(m, i) == LenBefore(n, i) && NextAfter(m, i) == NextAfter(n, i)
  {
    if i > 0 { FramesBefore(m, n, i - 1); }
  }

  lemma ReopenAlike(m: seq<Image>, n: seq<Image>, a: set<Record>, b: set<Record>, dropped: set<Record>)
    requires SameFrames(m, n) && m != []
    ensures Alike(Reopen(m, a, dropped), Reopen(n, b, dropped))
  {
    hide Len, MaxTs, MaxVis, LenBefore, NextAfter;
    var s, t := Reopen(m, a, dropped), Reopen(n, b, dropped);
    FramesBefore(m, n, |m|);
    forall i | 0 <= i < |m| ensures AllFsynced(s.files)[i] == AllFsynced(t.files)[i] {
      FramesBefore(m, n, i);
      assert s.files[i] == Rebuilt(m, i) && t.files[i] == Rebuilt(n, i);
    }
    assert AllFsynced(s.files) == AllFsynced(t.files);
    assert TornSealed(m) <==> TornSealed(n) by { SameTorn(m, n); }
  }

  lemma SameTorn(m: seq<Image>, n: seq<Image>)
    requires SameFrames(m, n)
    ensures TornSealed(m) <==> TornSealed(n)
  {
    if TornSealed(m) {
      var i :| 0 <= i < |m| - 1 && m[i].torn;
      assert n[i].torn;
    }
    if TornSealed(n) {
      var i :| 0 <= i < |n| - 1 && n[i].torn;
      assert m[i].torn;
    }
  }

  lemma KillAlike(s: State, t: State)
    requires Alike(s, t)
    ensures Alike(KillStep(s), KillStep(t))
  {
    hide Len, Reopen;
    AlikeFiles(s, t, 0);
    var m, n := CachedAll(s), CachedAll(t);
    forall i | 0 <= i < |m| ensures m[i].index == n[i].index && m[i].recs == n[i].recs && !m[i].torn && !n[i].torn {
      AlikeFiles(s, t, s.first + i);
    }
    ReopenAlike(m, n, s.acked, t.acked, s.dropped);
  }

  lemma FlushAlike(cfg: Config, s: State, t: State, ok: bool)
    requires Alike(s, t)
    ensures Alike(FlushSnapStep(cfg, s), FlushSnapStep(Fsyncing(cfg), t))
    ensures Alike(FlushSyncStep(s, ok), FlushSyncStep(t, ok))
    ensures Alike(FlushPublishStep(s), FlushPublishStep(t))
  {
    hide Len;
    AlikeFiles(s, t, 0);
    if s.flush.Snapped? && s.flush.seg < |s.files| {
      FsyncAlike(s, s.flush.seg);
      FsyncAlike(t, t.flush.seg);
    }
  }

  /** Two logs that are alike stay so when one fsyncs what the other does not. */
  lemma StepAlike(cfg: Config, s: State, t: State, step: Step)
    requires Alike(s, t) && !step.PowerLoss?
    ensures var a, b := Next(cfg, s, step), Next(Fsyncing(cfg), t, FsyncingStep(cfg, step));
            Alike(a, b) && a.acked - s.acked <= b.acked && t.acked <= b.acked
  {
    hide AppendStep, FlushSnapStep, FlushSyncStep, FlushPublishStep, DropStep, KillStep, AllFsynced;
    match step
    case Append(rec, io) => AppendAlike(cfg, s, t, rec, io);
    case Return(_, _) => {}
    case FlushSnap => FlushAlike(cfg, s, t, true); FlushAcks(cfg, s, true); FlushAcks(Fsyncing(cfg), t, true);
    case FlushSync(ok) => FlushAlike(cfg, s, t, ok); FlushAcks(cfg, s, ok); FlushAcks(cfg, t, ok);
    case FlushPublish => FlushAlike(cfg, s, t, true); FlushAcks(cfg, s, true); FlushAcks(cfg, t, true);
    case Drop(k) => DropAlike(s, t, k); CrashAcks(s, k); CrashAcks(t, k);
    case Kill => KillAlike(s, t); CrashAcks(s, 0); CrashAcks(t, 0);
  }

  lemma FlushAcks(cfg: Config, s: State, ok: bool)
    ensures FlushSnapStep(cfg, s).acked == FlushSyncStep(s, ok).acked == FlushPublishStep(s).acked == s.acked
  {
  }

  lemma CrashAcks(s: State, k: nat)
    ensures DropStep(s, k).acked == KillStep(s).acked == s.acked
  {
  }

  // ---- The invariant in every mode ----

  lemma VisibleAsIf(s: State, acked: set<Record>, r: Record)
    ensures Visible(AsIf(s, acked), r) <==> Visible(s, r)
  {
    hide Len;
    var t := AsIf(s, acked);
    if Visible(s, r) {
      var i, k :| s.first <= i < |s.files| && 0 <= k < |s.files[i].recs| && s.files[i].recs[k] == r
                  && s.files[i].baseOff + Len(s.files[i].recs[..k + 1]) <= s.committed;
      assert t.files[i].recs[k] == r;
    }
    if Visible(t, r) {
      var i, k :| t.first <= i < |t.files| && 0 <= k < |t.files[i].recs| && t.files[i].recs[k] == r
                  && t.files[i].baseOff + Len(t.files[i].recs[..k + 1]) <= t.committed;
      assert s.files[i].recs[k] == r;
    }
  }

  lemma LocatedAsIf(files: seq<Segment>, r: Record, end: nat)
    requires Located(files, r, end)
    ensures Located(AllFsynced(files), r, end)
  {
    hide Len;
    var i, k :| 0 <= i < |files| && 0 <= k < |files[i].recs|
      && files[i].recs[k] == r && end == files[i].baseOff + Len(files[i].recs[..k + 1]);
    assert AllFsynced(files)[i].recs[k] == r;
  }

  lemma FilesAsIf(cfg: Config, files: seq<Segment>)
    requires FilesOk(cfg, files)
    ensures FilesOk(cfg, AllFsynced(files))
  {
    hide Len, MaxTs, MaxVis, AllEncodable;
    var r := AllFsynced(files);
    forall i | 0 <= i < |r| ensures SegmentOk(cfg, r[i]) { assert SegmentOk(cfg, files[i]); }
    forall i, j | 0 <= i && j == i + 1 && j < |r| ensures Sealed(r[i], r[j]) { assert Sealed(files[i], files[j]); }
  }

  lemma HistoryAsIf(s: State, acked: set<Record>)
    requires HistoryOk(s) && acked <= s.acked
    ensures HistoryOk(AsIf(s, acked))
  {
    hide Visible, Located;
    var t := AsIf(s, acked);
    forall r | r in acked ensures r in t.dropped || Visible(t, r) { VisibleAsIf(s, acked, r); }
    forall p | p in t.pending ensures Located(t.files, p.0, p.1) { LocatedAsIf(s.files, p.0, p.1); }
    forall i, k | 0 <= i < t.first && 0 <= k < |t.files[i].recs| ensures t.files[i].recs[k] in t.dropped {
      assert s.files[i].recs[k] in s.dropped;
    }
  }

  /** More bytes fsynced and fewer records acked ask for less. */
  lemma InvAsIf(cfg: Config, s: State, acked: set<Record>)
    requires Inv(cfg, s) && acked <= s.acked
    ensures Inv(cfg, AsIf(s, acked))
  {
    hide FilesOk, HistoryOk, Len, AllFsynced;
    var t := AsIf(s, acked);
    FilesAsIf(cfg, s.files);
    HistoryAsIf(s, acked);
    SegmentAt(cfg, s.files, |s.files| - 1);
    BoundaryAsIf(Active(s), s.committed);
    if s.flush.Snapped? || s.flush.Synced? {
      SegmentAt(cfg, s.files, s.flush.seg);
      BoundaryAsIf(s.files[s.flush.seg], s.flush.snap);
    }
  }

  lemma BoundaryAsIf(g: Segment, off: nat)
    ensures Boundary(Fsynced(g), off) <==> Boundary(g, off)
  {
    hide Len;
  }

  /** Segments, offsets and MsgIDs are as the invariant says, whatever was fsynced and acked. */
  ghost predicate Shape(cfg: Config, s: State) { Inv(Fsyncing(cfg), AsIf(s, {})) }

  /** Besides, every acked record is retained and committed, or was dropped. */
  ghost predicate Kept(cfg: Config, s: State) { Inv(Fsyncing(cfg), AsIf(s, s.acked)) }

  lemma AsIfAlike(s: State, acked: set<Record>)
    ensures Alike(s, AsIf(s, acked))
  {
    hide Len;
    assert AllFsynced(AllFsynced(s.files)) == AllFsynced(s.files);
  }

  lemma AlikeAsIf(s: State, t: State, acked: set<Record>)
    requires Alike(s, t)
    ensures AsIf(s, acked) == AsIf(t, acked)
  {
    assert AsIf(s, acked) == AsIf(s, {}).(acked := acked);
    assert AsIf(t, acked) == AsIf(t, {}).(acked := acked);
  }

  lemma AlwaysFullySynced(s: State, acked: set<Record>)
    ensures FullySynced(AsIf(s, acked))
  {
  }

  lemma ExtendsAsIf(s: State, t: State, u: State)
    requires Extends(AsIf(s, {}), u) && Alike(t, u)
    ensures Extends(AsIf(s, {}), AsIf(t, {}))
  {
    hide Len;
    var a, b := AsIf(s, {}), AsIf(t, {});
    assert b == AsIf(u, {});
    forall i | 0 <= i < |a.files| ensures Grown(a.files[i], b.files[i]) {
      assert Grown(a.files[i], u.files[i]);
      var rs, rs' := s.files[i].recs, u.files[i].recs;
      assert b.files[i] == Fsynced(u.files[i]) && rs == rs'[..|rs|] && rs'[..|rs'|] == rs';
      LenPrefix(rs', |rs|, |rs'|);
    }
  }

  lemma StepShapes(cfg: Config, s: State, step: Step)
    requires Shape(cfg, s) && !step.PowerLoss?
    ensures var t := Next(cfg, s, step);
            Shape(cfg, t) && (!Crash(step) ==> Extends(AsIf(s, {}), AsIf(t, {})))
  {
    hide Inv, Next, AsIf, Extends;
    var c, a, b := Fsyncing(cfg), AsIf(s, {}), FsyncingStep(cfg, step);
    AsIfAlike(s, {});
    StepAlike(cfg, s, a, step);
    AlwaysFullySynced(s, {});
    StepKeeps(c, a, b);
    var t, u := Next(cfg, s, step), Next(c, a, b);
    InvAsIf(c, u, {});
    if !Crash(step) { ExtendsAsIf(s, t, u); }
  }

  lemma StepKept(cfg: Config, s: State, step: Step)
    requires Kept(cfg, s) && !step.PowerLoss?
    ensures Kept(cfg, Next(cfg, s, step))
  {
    hide Inv, Next, AsIf;
    var c, a, b := Fsyncing(cfg), AsIf(s, s.acked), FsyncingStep(cfg, step);
    AsIfAlike(s, s.acked);
    StepAlike(cfg, s, a, step);
    AlwaysFullySynced(s, s.acked);
    StepKeeps(c, a, b);
    var t, u := Next(cfg, s, step), Next(c, a, b);
    assert a.acked == s.acked by { AsIfAcks(s, s.acked); }
    assert t.acked <= u.acked;
    InvAsIf(c, u, t.acked);
    AlikeAsIf(t, u, t.acked);
  }

  lemma AsIfAcks(s: State, acked: set<Record>)
    ensures AsIf(s, acked).acked == acked
  {
  }

  // ---- Power losses that spare sealed files ----

  /** The power loss cuts no file but the active one. */
  predicate SealsWhole(s: State, keep: seq<nat>) {
    Survivable(s, keep) ==> forall i :: 0 <= i < |keep| - 1 ==> keep[i] == Len(s.files[s.first + i].recs)
  }

  /** s with its sealed files fsynced, and the active one fsynced and committed up to off. */
  function Trimmed(s: State, off: nat): State
    requires Active(s).baseOff <= off
  {
    var a := AsIf(s, {});
    a.(files := a.files[|a.files| - 1 := Active(a).(durable := off - Active(s).baseOff)], committed := off,
       flush := Idle, pending := {})
  }

  lemma TrimmedOk(cfg: Config, s: State, off: nat)
    requires Inv(cfg, AsIf(s, {})) && Active(s).baseOff <= off <= s.written && Boundary(Active(s), off)
    ensures Inv(cfg, Trimmed(s, off))
  {
    hide Len, MaxTs, MaxVis, AllEncodable, AllFsynced;
    var a, u := AsIf(s, {}), Trimmed(s, off);
    assert Active(u) == Active(a).(durable := off - Active(s).baseOff);
    BoundaryAsIf(Active(s), off);
    assert Boundary(Active(u), off) by { BoundaryTrimmed(Active(s), Active(u), off); }
    forall i | 0 <= i < |u.files| ensures SegmentOk(cfg, u.files[i]) { assert SegmentOk(cfg, a.files[i]); }
    forall i, j | 0 <= i && j == i + 1 && j < |u.files| ensures Sealed(u.files[i], u.files[j]) {
      assert Sealed(a.files[i], a.files[j]);
    }
  }

  lemma BoundaryTrimmed(g: Segment, h: Segment, off: nat)
    requires h.recs == g.recs && h.baseOff == g.baseOff && Boundary(g, off)
    ensures Boundary(h, off)
  {
  }

  lemma CutsAlike(s: State, keep: seq<nat>, off: nat)
    requires Survivable(s, keep) && SealsWhole(s, keep)
    requires Active(s).baseOff <= off && off - Active(s).baseOff <= keep[|keep| - 1]
    ensures Survivable(Trimmed(s, off), keep) && CutAll(Trimmed(s, off), keep) == CutAll(s, keep)
  {
    hide Len, Whole;
    var u := Trimmed(s, off);
    forall i | 0 <= i < |keep|
      ensures u.files[s.first + i].durable <= keep[i] <= Len(u.files[s.first + i].recs)
      ensures Cut(u.files[s.first + i], keep[i]) == Cut(s.files[s.first + i], keep[i])
    {
      assert u.files[s.first + i].recs == s.files[s.first + i].recs;
      assert u.files[s.first + i].index == s.files[s.first + i].index;
    }
  }

  /** A power loss that leaves the bytes below off is one of the trimmed log. */
  lemma LossAlike(cfg: Config, s: State, keep: seq<nat>, off: nat)
    requires Shape(cfg, s) && Survivable(s, keep) && SealsWhole(s, keep)
    requires Active(s).baseOff <= off <= s.written && Boundary(Active(s), off)
    requires off - Active(s).baseOff <= keep[|keep| - 1]
    ensures var u := Trimmed(s, off);
            && Inv(Fsyncing(cfg), u) && Survivable(u, keep)
            && Inv(Fsyncing(cfg), PowerLossStep(u, keep)) && Alike(PowerLossStep(s, keep), PowerLossStep(u, keep))
  {
    hide Inv, Trimmed, AsIf, Reopen, CutAll, Survivable, SealsWhole;
    var c, u := Fsyncing(cfg), Trimmed(s, off);
    TrimmedOk(c, s, off);
    CutsAlike(s, keep, off);
    PowerLossKeeps(c, u, keep);
    assert u.dropped == s.dropped by { TrimmedDrops(s, off); }
    SameFramesSelf(CutAll(s, keep));
    ReopenAlike(CutAll(s, keep), CutAll(s, keep), s.acked, u.acked, s.dropped);
  }

  lemma BoundaryBase(s: State)
    ensures Boundary(Active(s), Active(s).baseOff)
  {
    assert Active(s).recs[..0] == [];
  }

  lemma ShapeTail(cfg: Config, s: State)
    requires Shape(cfg, s)
    ensures s.written == Active(s).baseOff + Len(Active(s).recs)
    ensures Active(s).baseOff <= s.committed <= s.written && Boundary(Active(s), s.committed)
  {
    hide FilesOk, HistoryOk, FlushOk, Boundary, Len;
    SegmentAt(Fsyncing(cfg), AsIf(s, {}).files, |s.files| - 1);
    BoundaryAsIf(Active(s), s.committed);
    assert Active(AsIf(s, {})) == Fsynced(Active(s));
  }

  lemma LossShapes(cfg: Config, s: State, keep: seq<nat>)
    requires Shape(cfg, s) && SealsWhole(s, keep)
    ensures Shape(cfg, PowerLossStep(s, keep))
  {
    hide Inv, Trimmed, AsIf, PowerLossStep, Boundary;
    if Survivable(s, keep) {
      var c, off := Fsyncing(cfg), Active(s).baseOff;
      BoundaryBase(s);
      ShapeTail(cfg, s);
      LossAlike(cfg, s, keep, off);
      InvAsIf(c, PowerLossStep(Trimmed(s, off), keep), {});
    } else {
      NotSurvivable(s, keep);
    }
  }

  lemma NotSurvivable(s: State, keep: seq<nat>)
    requires !Survivable(s, keep)
    ensures PowerLossStep(s, keep) == s
  {
  }

  lemma SameFramesSelf(m: seq<Image>)
    ensures SameFrames(m, m)
  {
  }

  lemma TrimmedDrops(s: State, off: nat)
    requires Active(s).baseOff <= off
    ensures Trimmed(s, off).dropped == s.dropped
  {
  }

  // ---- Every run ----

  /** Every power loss of the run spares the sealed files; a process may be killed at any time, in any mode. */
  ghost predicate SealsSurvive(cfg: Config, steps: seq<Step>) {
    forall i :: 0 <= i < |steps| && steps[i].PowerLoss? ==> SealsWhole(Run(cfg, EMPTY, steps[..i]), steps[i].keep)
  }

  lemma SealsPrefix(cfg: Config, steps: seq<Step>, n: nat)
    requires SealsSurvive(cfg, steps) && n <= |steps|
    ensures SealsSurvive(cfg, steps[..n])
    ensures n < |steps| && steps[n].PowerLoss? ==> SealsWhole(Run(cfg, EMPTY, steps[..n]), steps[n].keep)
  {
    hide Run, SealsWhole;
    forall i | 0 <= i < n && steps[..n][i].PowerLoss?
      ensures SealsWhole(Run(cfg, EMPTY, steps[..n][..i]), steps[..n][i].keep)
    {
      assert steps[..n][..i] == steps[..i];
    }
  }

  lemma {:induction false} RunShapes(cfg: Config, steps: seq<Step>)
    requires SealsSurvive(cfg, steps)
    ensures Shape(cfg, Run(cfg, EMPTY, steps))
  {
    hide Shape, SealsWhole, SealsSurvive, PowerLossStep, AppendStep;
    if steps == [] {
      FreshShapes(cfg);
    } else {
      var n := |steps| - 1;
      SealsPrefix(cfg, steps, n);
      RunShapes(cfg, steps[..n]);
      var s := Run(cfg, EMPTY, steps[..n]);
      if steps[n].PowerLoss? { LossShapes(cfg, s, steps[n].keep); } else { StepShapes(cfg, s, steps[n]); }
    }
  }

  lemma FreshShapes(cfg: Config)
    ensures Shape(cfg, EMPTY) && Kept(cfg, EMPTY)
  {
    hide Inv;
    FreshOk(Fsyncing(cfg), EMPTY, EMPTY.files[0]);
    InvAsIf(Fsyncing(cfg), EMPTY, {});
  }

  /** In the fsyncing modes with clean kills every power loss spares the sealed files. */
  lemma DurableSealsSurvive(cfg: Config, steps: seq<Step>)
    requires cfg.mode != NoSync && KillsClean(cfg, steps)
    ensures SealsSurvive(cfg, steps)
  {
    hide Run, Inv;
    forall i | 0 <= i < |steps| && steps[i].PowerLoss? ensures SealsWhole(Run(cfg, EMPTY, steps[..i]), steps[i].keep) {
      var s, keep := Run(cfg, EMPTY, steps[..i]), steps[i].keep;
      forall j | 0 <= j < i && steps[..i][j].Kill? ensures FullySynced(Run(cfg, EMPTY, steps[..i][..j])) {
        assert steps[..i][..j] == steps[..j];
      }
      RunKeeps(cfg, steps[..i]);
      if Survivable(s, keep) {
        forall j | 0 <= j < |keep| - 1 ensures keep[j] == Len(s.files[s.first + j].recs) {
          SealedAt(cfg, s, s.first + j);
        }
      }
    }
  }

  predicate NoPowerLoss(steps: seq<Step>) { forall i :: 0 <= i < |steps| ==> !steps[i].PowerLoss? }

  lemma {:induction false} RunKept(cfg: Config, steps: seq<Step>)
    requires NoPowerLoss(steps)
    ensures Kept(cfg, Run(cfg, EMPTY, steps))
  {
    hide Kept, Next;
    if steps == [] {
      FreshShapes(cfg);
    } else {
      var n := |steps| - 1;
      RunKept(cfg, steps[..n]);
      StepKept(cfg, Run(cfg, EMPTY, steps[..n]), steps[n]);
    }
  }

  /**
   * A killed process loses nothing, in every sync mode: after any run without a power loss, whatever was
   * unsynced, the reopened log holds the same records, all committed, and every acked one that was not dropped.
   */
  lemma KillLosesNothing(cfg: Config, steps: seq<Step>)
    requires NoPowerLoss(steps)
    ensures var s := Run(cfg, EMPTY, steps);
            var t := KillStep(s);
            && !t.down && Retained(t) == Retained(s) && t.committed == t.written
            && (forall r :: r in s.acked ==> r in s.dropped || (r in Retained(t) && Visible(t, r)))
            && t.next == if Retained(s) == [] then 0 else s.next
  {
    hide Run, Kept, Visible, KillStep, Concat;
    var s := Run(cfg, EMPTY, steps);
    var t := KillStep(s);
    RunKept(cfg, steps);
    StepKept(cfg, s, Kill);
    KeptIs(cfg, s);
    assert Next(cfg, s, Kill) == t;
    KeptIs(cfg, t);
    KillRetains(s);
    KeptShapes(cfg, s);
    KillNext(cfg, s);
    assert t.written == t.committed && t.acked == s.acked && t.dropped == s.dropped by { KillFields(s); }
  }

  lemma KillFields(s: State)
    ensures var t := KillStep(s);
            t.written == t.committed && t.acked == s.acked && t.dropped == s.dropped && t.first == 0
  {
  }

  lemma KillRetains(s: State)
    ensures Retained(KillStep(s)) == Retained(s)
  {
    hide KillStep;
    var t, n := KillStep(s), |s.files| - s.first;
    KillFiles(s, 0);
    forall i | 0 <= i < n ensures t.files[i].recs == s.files[s.first + i].recs { KillFiles(s, i); }
    ConcatSame(s.files, s.first, t.files, n);
  }

  lemma KeptIs(cfg: Config, s: State)
    requires Kept(cfg, s)
    ensures !s.down && forall r :: r in s.acked ==> r in s.dropped || (r in Retained(s) && Visible(s, r))
  {
    hide FilesOk, Visible, Concat;
    var a := AsIf(s, s.acked);
    forall r | r in s.acked && r !in s.dropped ensures r in Retained(s) && Visible(s, r) {
      assert r in a.acked;
      VisibleAsIf(s, s.acked, r);
      VisibleRetained(s, r);
    }
  }

  lemma VisibleRetained(s: State, r: Record)
    requires Visible(s, r)
    ensures r in Retained(s)
  {
    var i, k :| s.first <= i < |s.files| && 0 <= k < |s.files[i].recs| && s.files[i].recs[k] == r
                && s.files[i].baseOff + Len(s.files[i].recs[..k + 1]) <= s.committed;
    ConcatContains(s.files, s.first, |s.files|, i, r);
  }

  lemma RetainedAsIf(s: State, acked: set<Record>)
    ensures Retained(AsIf(s, acked)) == Retained(s) && Floor(AsIf(s, acked)) == Floor(s)
  {
    hide Len;
    var t, n := AsIf(s, acked), |s.files| - s.first;
    ConcatLike(s.files, t.files, s.first, |s.files|);
  }

  lemma {:induction false} ConcatLike(a: seq<Segment>, b: seq<Segment>, lo: nat, hi: nat)
    requires lo <= hi <= |a| == |b| && forall i :: 0 <= i < |a| ==> a[i].recs == b[i].recs
    ensures Concat(a, lo, hi) == Concat(b, lo, hi)
  {
    if lo < hi { ConcatLike(a, b, lo, hi - 1); }
  }

  lemma ShapeDense(cfg: Config, s: State)
    requires Shape(cfg, s)
    ensures s.next == Floor(s) + |Retained(s)|
    ensures forall i :: 0 <= i < |Retained(s)| ==> Retained(s)[i].msgID == Floor(s) + i
  {
    hide Inv, Retained, Floor;
    RetainedAsIf(s, {});
    NextIsDense(Fsyncing(cfg), AsIf(s, {}));
    assert AsIf(s, {}).next == s.next;
  }

  lemma KeptShapes(cfg: Config, s: State)
    requires Kept(cfg, s)
    ensures Shape(cfg, s)
  {
    hide Inv;
    InvAsIf(Fsyncing(cfg), AsIf(s, s.acked), {});
    AsIfAlike(s, s.acked);
  }

  lemma KillNext(cfg: Config, s: State)
    requires Shape(cfg, s)
    ensures KillStep(s).next == if Retained(s) == [] then 0 else s.next
  {
    hide Shape, KillStep, Concat;
    var t := KillStep(s);
    KillRetains(s);
    StepShapes(cfg, s, Kill);
    assert !s.down by { ShapeUp(cfg, s); }
    ShapeDense(cfg, s);
    ShapeDense(cfg, t);
    if Retained(s) == [] {
      KillEmpty(s);
    } else {
      assert Retained(t)[0].msgID == Retained(s)[0].msgID;
    }
  }

  lemma ShapeUp(cfg: Config, s: State)
    requires Shape(cfg, s)
    ensures !s.down
  {
  }

  lemma KillEmpty(s: State)
    requires Retained(KillStep(s)) == []
    ensures KillStep(s).next == 0
  {
    var t, m := KillStep(s), CachedAll(s);
    NothingAfter(m, t.files, |m|);
  }

  // ---- Without fsync everything written is committed at once ----

  lemma {:induction false} NoSyncCommits(cfg: Config, steps: seq<Step>)
    requires cfg.mode == NoSync
    ensures var s := Run(cfg, EMPTY, steps); s.committed == s.written && s.flush == Idle
  {
    hide AppendStep, PowerLossStep, KillStep;
    if steps != [] {
      var n := |steps| - 1;
      NoSyncCommits(cfg, steps[..n]);
      var s := Run(cfg, EMPTY, steps[..n]);
      match steps[n]
      case Append(rec, io) => AppendCommits(cfg, s, rec, io);
      case PowerLoss(keep) => ReopenCommits(s, keep);
      case Kill => ReopenCommits(s, []);
      case _ => {}
    }
  }

  lemma AppendCommits(cfg: Config, s: State, rec: Record, io: Io)
    requires cfg.mode == NoSync && s.committed == s.written && s.flush == Idle
    ensures var t := AppendStep(cfg, s, rec, io); t.committed == t.written && t.flush == Idle
  {
    hide Encodable, MustRotate, Size, Len;
  }

  lemma ReopenCommits(s: State, keep: seq<nat>)
    requires s.committed == s.written && s.flush == Idle
    ensures var t := PowerLossStep(s, keep); t.committed == t.written && t.flush == Idle
    ensures var t := KillStep(s); t.committed == t.written && t.flush == Idle
  {
    hide CutAll, CachedAll, LenBefore, NextAfter;
  }

  // ---- Segments ----

  lemma PartitionedAsIf(cfg: Config, s: State, i: nat)
    requires Partitioned(Fsyncing(cfg), AsIf(s, {}), i)
    ensures Partitioned(cfg, s, i)
  {
    hide Len, Concat;
    ConcatLike(s.files, AsIf(s, {}).files, 0, i);
  }

  /**
   * At every moment of every run, in every sync mode and across crashes that spare the sealed files, the
   * segments split the written stream at record boundaries.
   */
  lemma SegmentsPartition(cfg: Config, steps: seq<Step>)
    requires SealsSurvive(cfg, steps)
    ensures var s := Run(cfg, EMPTY, steps);
            && (forall i :: 0 <= i < |s.files| ==> Partitioned(cfg, s, i))
            && s.written == Len(Concat(s.files, 0, |s.files|))
  {
    hide Inv, Run, Partitioned, Len, Concat, SealsSurvive;
    var s := Run(cfg, EMPTY, steps);
    var a := AsIf(s, {});
    RunShapes(cfg, steps);
    forall i | 0 <= i < |s.files| ensures Partitioned(cfg, s, i) {
      PartitionedAt(Fsyncing(cfg), a, i);
      PartitionedAsIf(cfg, s, i);
    }
    PartitionedAt(Fsyncing(cfg), a, 0);
    ConcatLike(s.files, a.files, 0, |s.files|);
  }

  // ---- The commit protocol in every mode ----

  /**
   * In every sync mode and after any kills, committed is at or above the active base, within the written bytes
   * and on a record boundary, and no step of a living process moves it back. Without a power loss it covers
   * every record whose Append succeeded.
   */
  lemma CommitRules(cfg: Config, steps: seq<Step>, step: Step)
    requires SealsSurvive(cfg, steps)
    ensures var s := Run(cfg, EMPTY, steps);
            && Active(s).baseOff <= s.committed <= s.written && Boundary(Active(s), s.committed)
            && (!Crash(step) ==> s.committed <= Next(cfg, s, step).committed)
            && (NoPowerLoss(steps) ==> forall r :: r in s.acked ==> r in s.dropped || Visible(s, r))
  {
    hide Run, Shape, Kept, SealsSurvive, Boundary, Visible, Next, AsIf, Concat;
    var s := Run(cfg, EMPTY, steps);
    RunShapes(cfg, steps);
    ShapeTail(cfg, s);
    if !Crash(step) {
      StepShapes(cfg, s, step);
      AsIfCommits(s);
      AsIfCommits(Next(cfg, s, step));
    }
    if NoPowerLoss(steps) {
      RunKept(cfg, steps);
      KeptIs(cfg, s);
    }
  }

  lemma AsIfCommits(s: State)
    ensures AsIf(s, {}).committed == s.committed
  {
  }

  // ---- Bytes in every run ----

  /** Offsets are cumulative lengths, and a segment is within the cap or holds one record. */
  ghost predicate Laid(cfg: Config, s: State) {
    && s.files[0].baseOff == 0 && s.written == Active(s).baseOff + Len(Active(s).recs)
    && (forall i, j :: 0 <= i && j == i + 1 && j < |s.files| ==>
          s.files[j].baseOff == s.files[i].baseOff + Len(s.files[i].recs))
    && (forall i :: 0 <= i < |s.files| ==> InCap(cfg, s.files[i].recs))
  }

  predicate InCap(cfg: Config, rs: seq<Record>) { cfg.segmentBytes == 0 || |rs| <= 1 || Len(rs) <= cfg.segmentBytes }

  lemma LaidLike(cfg: Config, s: State, t: State)
    requires Laid(cfg, s) && |t.files| == |s.files| && t.written == s.written
    requires forall i :: 0 <= i < |s.files| ==>
               t.files[i].recs == s.files[i].recs && t.files[i].baseOff == s.files[i].baseOff
    ensures Laid(cfg, t)
  {
    hide Len, InCap;
    forall i, j | 0 <= i && j == i + 1 && j < |t.files|
      ensures t.files[j].baseOff == t.files[i].baseOff + Len(t.files[i].recs)
    {
      assert s.files[j].baseOff == s.files[i].baseOff + Len(s.files[i].recs);
    }
  }

  lemma RotateLaid(cfg: Config, s: State, io: Io)
    requires Laid(cfg, s)
    ensures var (t, ok) := Rotate(s, io); Laid(cfg, t) && (ok ==> Active(t).recs == [])
  {
    hide Len, InCap;
    LenNothing();
    var n := |s.files|;
    var s1: State := if s.written > s.committed then FsyncActive(s).(committed := s.written) else s;
    LaidLike(cfg, s, s1);
    var (t, ok) := Rotate(s, io);
    if ok {
      assert t.files[..n] == s1.files && InCap(cfg, []) by { NoneInCap(cfg); }
      forall i, j | 0 <= i && j == i + 1 && j < |t.files|
        ensures t.files[j].baseOff == t.files[i].baseOff + Len(t.files[i].recs)
      {
        if j < n { assert s1.files[j].baseOff == s1.files[i].baseOff + Len(s1.files[i].recs); }
      }
    }
  }

  lemma NoneInCap(cfg: Config)
    ensures InCap(cfg, [])
  {
  }

  lemma WriteLaid(cfg: Config, s: State, r: Record)
    requires Laid(cfg, s) && (!MustRotate(cfg, s, r) || Active(s).recs == [])
    ensures Laid(cfg, WriteActive(s, r))
  {
    var t, n, rs := WriteActive(s, r), |s.files| - 1, Active(s).recs + [r];
    assert rs[..|rs| - 1] == Active(s).recs;
    LenZero(Active(s).recs);
    assert InCap(cfg, rs);
    forall i, j | 0 <= i && j == i + 1 && j < |t.files|
      ensures t.files[j].baseOff == t.files[i].baseOff + Len(t.files[i].recs)
    {
      assert s.files[j].baseOff == s.files[i].baseOff + Len(s.files[i].recs);
    }
  }

  lemma LenZero(rs: seq<Record>)
    ensures Len(rs) == 0 <==> rs == []
  {
  }

  lemma AppendLaid(cfg: Config, s: State, rec: Record, io: Io)
    requires Laid(cfg, s)
    ensures Laid(cfg, AppendStep(cfg, s, rec, io))
  {
    hide Laid, Encodable, Rotate, WriteActive, MustRotate, Len, Size;
    if s.next < U64 {
      var r := rec.(msgID := s.next);
      RotateLaid(cfg, s, io);
      var (s1, ok) := if MustRotate(cfg, s, r) then Rotate(s, io) else (s, true);
      if ok && io.write {
        WriteLaid(cfg, s1, r);
        var s2 := WriteActive(s1, r);
        LaidLike(cfg, s2, Fence(cfg, s2, r, io.sync));
      }
    }
  }

  lemma ReopenLaid(cfg: Config, m: seq<Image>, acked: set<Record>, dropped: set<Record>)
    requires m != [] && forall i :: 0 <= i < |m| ==> InCap(cfg, m[i].recs)
    ensures Laid(cfg, Reopen(m, acked, dropped))
  {
    hide Len, InCap, NextAfter, MaxTs, MaxVis;
    var t, n := Reopen(m, acked, dropped), |m|;
    assert forall i :: 0 <= i < n ==> t.files[i] == Rebuilt(m, i);
    assert Active(t) == Rebuilt(m, n - 1);
  }

  lemma PrefixInCap(cfg: Config, rs: seq<Record>, k: nat)
    requires InCap(cfg, rs) && k <= |rs|
    ensures InCap(cfg, rs[..k])
  {
    LenPrefix(rs, k, |rs|);
    assert rs[..|rs|] == rs;
  }

  lemma LossLaid(cfg: Config, s: State, keep: seq<nat>)
    requires Laid(cfg, s)
    ensures Laid(cfg, PowerLossStep(s, keep))
  {
    hide InCap, Reopen, Whole, Len;
    if Survivable(s, keep) {
      var m := CutAll(s, keep);
      forall i | 0 <= i < |m| ensures InCap(cfg, m[i].recs) {
        var g := s.files[s.first + i];
        PrefixInCap(cfg, g.recs, Whole(g.recs, keep[i]));
      }
      ReopenLaid(cfg, m, s.acked, s.dropped);
    }
  }

  lemma StepLaid(cfg: Config, s: State, step: Step)
    requires Laid(cfg, s)
    ensures Laid(cfg, Next(cfg, s, step))
  {
    hide Laid, AppendStep, PowerLossStep, Len, RecordsIn, KillStep;
    match step
    case Append(rec, io) => AppendLaid(cfg, s, rec, io);
    case PowerLoss(keep) => LossLaid(cfg, s, keep);
    case Kill => KillLaid(cfg, s);
    case _ => LaidLike(cfg, s, Next(cfg, s, step));
  }

  lemma KillLaid(cfg: Config, s: State)
    requires Laid(cfg, s)
    ensures Laid(cfg, KillStep(s))
  {
    hide InCap, Reopen, Len;
    ReopenLaid(cfg, CachedAll(s), s.acked, s.dropped);
  }

  lemma {:induction false} RunLaid(cfg: Config, steps: seq<Step>)
    ensures Laid(cfg, Run(cfg, EMPTY, steps))
  {
    hide Next;
    if steps == [] {
      LenNothing();
    } else {
      RunLaid(cfg, steps[..|steps| - 1]);
      StepLaid(cfg, Run(cfg, EMPTY, steps[..|steps| - 1]), steps[|steps| - 1]);
    }
  }

  lemma {:induction false} LaidOffset(cfg: Config, s: State, i: nat)
    requires Laid(cfg, s) && i <= |s.files|
    ensures Len(Concat(s.files, 0, i)) == if i < |s.files| then s.files[i].baseOff else s.written
  {
    hide Len, InCap;
    LenNothing();
    if i > 0 {
      LaidOffset(cfg, s, i - 1);
      LenAppend(Concat(s.files, 0, i - 1), s.files[i - 1].recs);
    }
  }

  /** At every moment of every run at all, whatever crashes cut: offsets are cumulative lengths, within the cap. */
  lemma BytesPartition(cfg: Config, steps: seq<Step>)
    ensures var s := Run(cfg, EMPTY, steps);
            && s.written == Len(Concat(s.files, 0, |s.files|))
            && (forall i :: 0 <= i < |s.files| ==>
                  && s.files[i].baseOff == Len(Concat(s.files, 0, i))
                  && (cfg.segmentBytes == 0 || |s.files[i].recs| <= 1 || Len(s.files[i].recs) <= cfg.segmentBytes))
  {
    hide Run, Concat, Len;
    var s := Run(cfg, EMPTY, steps);
    RunLaid(cfg, steps);
    LaidOffset(cfg, s, |s.files|);
    forall i | 0 <= i < |s.files|
      ensures s.files[i].baseOff == Len(Concat(s.files, 0, i)) && InCap(cfg, s.files[i].recs)
    {
      LaidOffset(cfg, s, i);
    }
  }
}
