/**
 * Where a power loss leaves a hole. Sealing does not fsync bytes that are already committed
 * (internal/wal/log.go:302-321), so without fsync, or after a kill that left unsynced bytes, a sealed file
 * can lose its end. Recovery then refuses the log, or opens it with MsgIDs missing.
 */
module WalGaps {
  import opened Bytes
  import opened Codec
  import opened Stream
  import opened Wal
  import opened WalSafety
  import opened WalTheorems
  import opened WalShape
  import opened Reader

  // ---- What was fsynced ends at a record ----

  ghost predicate OnBoundary(g: Segment) { exists k :: 0 <= k <= |g.recs| && g.durable == Len(g.recs[..k]) }

  ghost predicate AllOnBoundary(files: seq<Segment>) { forall i :: 0 <= i < |files| ==> OnBoundary(files[i]) }

  lemma BoundaryAll(g: Segment)
    requires g.durable == Len(g.recs)
    ensures OnBoundary(g)
  {
    assert g.recs[..|g.recs|] == g.recs;
  }

  lemma BoundaryMore(g: Segment, h: Segment)
    requires OnBoundary(g) && g.recs <= h.recs && h.durable == g.durable
    ensures OnBoundary(h)
  {
    var k :| 0 <= k <= |g.recs| && g.durable == Len(g.recs[..k]);
    assert h.recs[..k] == g.recs[..k];
  }

  lemma BoundaryNone(g: Segment)
    requires g.durable == 0
    ensures OnBoundary(g)
  {
    assert g.recs[..0] == [];
  }

  lemma BoundaryLen(g: Segment)
    requires OnBoundary(g)
    ensures g.durable <= Len(g.recs)
  {
    var k :| 0 <= k <= |g.recs| && g.durable == Len(g.recs[..k]);
    LenPrefix(g.recs, k, |g.recs|);
    assert g.recs[..|g.recs|] == g.recs;
  }

  lemma FsyncBoundary(s: State, i: nat)
    requires AllOnBoundary(s.files) && i < |s.files|
    ensures AllOnBoundary(FsyncAt(s, i).files)
  {
    hide OnBoundary, Len;
    BoundaryAll(FsyncAt(s, i).files[i]);
  }

  lemma RotateBoundary(s: State, io: Io)
    requires AllOnBoundary(s.files)
    ensures AllOnBoundary(Rotate(s, io).0.files)
  {
    hide OnBoundary, FsyncAt;
    FsyncBoundary(s, |s.files| - 1);
    BoundaryNone(Segment(Active(s).index + 1, s.next, s.written, 0, 0, [], 0));
  }

  lemma WriteBoundary(s: State, r: Record)
    requires AllOnBoundary(s.files)
    ensures AllOnBoundary(WriteActive(s, r).files)
  {
    hide OnBoundary, Max, Size;
    var n := |s.files| - 1;
    BoundaryMore(s.files[n], WriteActive(s, r).files[n]);
  }

  lemma AppendBoundary(cfg: Config, s: State, rec: Record, io: Io)
    requires AllOnBoundary(s.files)
    ensures AllOnBoundary(AppendStep(cfg, s, rec, io).files)
  {
    hide AllOnBoundary, Encodable, MustRotate, Rotate, WriteActive, FsyncAt;
    if s.next < U64 {
      var r := rec.(msgID := s.next);
      RotateBoundary(s, io);
      var s1 := if MustRotate(cfg, s, r) then Rotate(s, io).0 else s;
      WriteBoundary(s1, r);
      var s2 := WriteActive(s1, r);
      FsyncBoundary(s2, |s2.files| - 1);
    }
  }

  lemma CutBoundary(s: State, keep: seq<nat>)
    requires Survivable(s, keep)
    ensures AllOnBoundary(PowerLossStep(s, keep).files)
  {
    hide OnBoundary, Len, Whole, LenBefore, NextAfter, MaxTs, MaxVis;
    var t, m := PowerLossStep(s, keep), CutAll(s, keep);
    forall i | 0 <= i < |t.files| ensures OnBoundary(t.files[i]) {
      assert t.files[i] == Rebuilt(m, i) && m[i] == Cut(s.files[s.first + i], keep[i]);
      BoundaryAll(t.files[i]);
    }
  }

  lemma KillBoundary(s: State)
    requires AllOnBoundary(s.files)
    ensures AllOnBoundary(KillStep(s).files)
  {
    hide OnBoundary, KillStep;
    var t := KillStep(s);
    KillFiles(s, 0);
    forall i | 0 <= i < |t.files| ensures OnBoundary(t.files[i]) {
      KillFiles(s, i);
      BoundaryMore(s.files[s.first + i], t.files[i]);
    }
  }

  lemma StepBoundary(cfg: Config, s: State, step: Step)
    requires AllOnBoundary(s.files)
    ensures AllOnBoundary(Next(cfg, s, step).files)
  {
    hide AllOnBoundary, AppendStep, KillStep, PowerLossStep, FsyncAt, RecordsIn;
    match step
    case Append(rec, io) => AppendBoundary(cfg, s, rec, io);
    case FlushSync(ok) => if s.flush.Snapped? && s.flush.seg < |s.files| { FsyncBoundary(s, s.flush.seg); }
    case PowerLoss(keep) => if Survivable(s, keep) { CutBoundary(s, keep); } else { NotSurvivable(s, keep); }
    case Kill => KillBoundary(s);
    case _ => {}
  }

  lemma {:induction false} RunBoundary(cfg: Config, steps: seq<Step>)
    ensures AllOnBoundary(Run(cfg, EMPTY, steps).files)
  {
    hide AllOnBoundary, Next;
    if steps == [] {
      FreshBoundary();
    } else {
      RunBoundary(cfg, steps[..|steps| - 1]);
      StepBoundary(cfg, Run(cfg, EMPTY, steps[..|steps| - 1]), steps[|steps| - 1]);
    }
  }

  lemma FreshBoundary()
    ensures AllOnBoundary(EMPTY.files)
  {
    BoundaryNone(EMPTY.files[0]);
  }

  // ---- Does the log open? ----

  ghost predicate Opens(s: State, keep: seq<nat>) { Survivable(s, keep) ==> !PowerLossStep(s, keep).down }

  /** Every retained sealed file has been fsynced to its end. */
  ghost predicate SealsSynced(s: State) {
    forall i :: s.first <= i < |s.files| - 1 ==> s.files[i].durable == Len(s.files[i].recs)
  }

  /** KeepAll but for k bytes of files[i]. */
  function KeepBut(s: State, i: nat, k: nat): (keep: seq<nat>)
    requires s.first <= i < |s.files|
    ensures |keep| == |s.files| - s.first
  {
    KeepAll(s)[i - s.first := k]
  }

  lemma KeepButAt(s: State, i: nat, k: nat, j: nat)
    requires s.first <= i < |s.files| && j < |s.files| - s.first
    ensures KeepBut(s, i, k)[j] == if s.first + j == i then k else Len(s.files[s.first + j].recs)
  {
  }

  lemma KeepButSurvives(s: State, i: nat, k: nat)
    requires s.first <= i < |s.files| && AllOnBoundary(s.files) && s.files[i].durable <= k <= Len(s.files[i].recs)
    ensures Survivable(s, KeepBut(s, i, k))
  {
    hide OnBoundary, KeepBut, Len;
    var keep := KeepBut(s, i, k);
    forall j | 0 <= j < |keep| ensures s.files[s.first + j].durable <= keep[j] <= Len(s.files[s.first + j].recs) {
      KeepButAt(s, i, k, j);
      BoundaryLen(s.files[s.first + j]);
    }
  }

  lemma KeepAllSurvives(s: State)
    requires AllOnBoundary(s.files)
    ensures Survivable(s, KeepAll(s))
  {
    hide OnBoundary, Len;
    forall j | 0 <= j < |s.files| ensures s.files[j].durable <= Len(s.files[j].recs) { BoundaryLen(s.files[j]); }
  }

  lemma CutWhole(g: Segment)
    ensures Cut(g, Len(g.recs)).recs == g.recs && !Cut(g, Len(g.recs)).torn
  {
    WholeAll(g.recs);
    assert g.recs[..|g.recs|] == g.recs;
  }

  /** One byte past the fsynced end of an unsynced file is inside a frame. */
  lemma OneByteMoreIsTorn(g: Segment)
    requires OnBoundary(g) && g.durable < Len(g.recs)
    ensures g.durable + 1 <= Len(g.recs) && Cut(g, g.durable + 1).torn
  {
    hide Whole;
    var k :| 0 <= k <= |g.recs| && g.durable == Len(g.recs[..k]);
    assert g.recs[..|g.recs|] == g.recs;
    LenOneMore(g.recs, k);
    WholeUnique(g.recs, g.durable + 1, k);
  }

  lemma LenOneMore(rs: seq<Record>, k: nat)
    requires k < |rs|
    ensures Len(rs[..k + 1]) == Len(rs[..k]) + Size(rs[k]) && Size(rs[k]) > 1
  {
    assert rs[..k + 1][..k] == rs[..k];
  }

  lemma DownIffTorn(s: State, keep: seq<nat>)
    requires Survivable(s, keep)
    ensures PowerLossStep(s, keep).down <==> exists i :: 0 <= i < |keep| - 1 && CutAll(s, keep)[i].torn
  {
    hide Cut, LenBefore, NextAfter;
  }

  lemma SyncedOpens(s: State, keep: seq<nat>)
    requires SealsSynced(s)
    ensures Opens(s, keep)
  {
    hide Cut, Len, PowerLossStep;
    if Survivable(s, keep) {
      DownIffTorn(s, keep);
      forall i | 0 <= i < |keep| - 1 ensures !CutAll(s, keep)[i].torn { CutWhole(s.files[s.first + i]); }
    }
  }

  lemma UnsyncedSealCanFail(s: State, i: nat)
    requires s.first <= i < |s.files| - 1 && AllOnBoundary(s.files) && s.files[i].durable < Len(s.files[i].recs)
    ensures !Opens(s, KeepBut(s, i, s.files[i].durable + 1))
  {
    hide OnBoundary, Cut, Len, PowerLossStep, KeepBut;
    var k := s.files[i].durable + 1;
    var keep := KeepBut(s, i, k);
    OneByteMoreIsTorn(s.files[i]);
    KeepButSurvives(s, i, k);
    KeepButAt(s, i, k, i - s.first);
    DownIffTorn(s, keep);
    assert CutAll(s, keep)[i - s.first].torn;
  }

  /**
   * In every sync mode, after any run with kills at any time: the log opens whatever a power loss leaves if
   * and only if, before it, every retained sealed file had been fsynced to its end.
   */
  lemma OpensIff(cfg: Config, steps: seq<Step>)
    ensures var s := Run(cfg, EMPTY, steps); (forall keep :: Opens(s, keep)) <==> SealsSynced(s)
  {
    hide Run, Opens, OnBoundary, Len;
    var s := Run(cfg, EMPTY, steps);
    RunBoundary(cfg, steps);
    if SealsSynced(s) {
      forall keep ensures Opens(s, keep) { SyncedOpens(s, keep); }
    } else {
      var i :| s.first <= i < |s.files| - 1 && s.files[i].durable != Len(s.files[i].recs);
      BoundaryLen(s.files[i]);
      UnsyncedSealCanFail(s, i);
    }
  }

  // ---- Are MsgIDs missing if it opens? ----

  /** If the log opens, its records have consecutive MsgIDs from the floor on. */
  ghost predicate NoGap(s: State, keep: seq<nat>) {
    var t := PowerLossStep(s, keep);
    Survivable(s, keep) && !t.down ==> forall i :: 0 <= i < |Retained(t)| ==> Retained(t)[i].msgID == Floor(t) + i
  }

  ghost predicate Behind(s: State, i: nat) { exists j :: i < j < |s.files| && s.files[j].recs != [] }

  /** Every retained sealed file with a record behind it has been fsynced to its end. */
  ghost predicate GapsClosed(s: State) {
    forall i :: s.first <= i < |s.files| - 1 && Behind(s, i) ==> s.files[i].durable == Len(s.files[i].recs)
  }

  lemma ShapeSealed(cfg: Config, s: State, i: nat)
    requires Shape(cfg, s) && i < |s.files| - 1
    ensures s.files[i].recs != []
  {
    hide Inv, Len;
    SealedAt(Fsyncing(cfg), AsIf(s, {}), i);
  }

  lemma {:induction false} ConcatPrefix(files: seq<Segment>, lo: nat, mid: nat, hi: nat)
    requires lo <= mid <= hi <= |files|
    ensures Concat(files, lo, mid) <= Concat(files, lo, hi)
  {
    if mid < hi { ConcatPrefix(files, lo, mid, hi - 1); }
  }

  lemma {:induction false} ConcatEmpties(files: seq<Segment>, lo: nat, mid: nat, hi: nat)
    requires lo <= mid <= hi <= |files| && forall i :: mid <= i < hi ==> files[i].recs == []
    ensures Concat(files, lo, hi) == Concat(files, lo, mid)
  {
    if mid < hi { ConcatEmpties(files, lo, mid, hi - 1); }
  }

  /** Whole files, then one that may be cut, then empty ones: a prefix. */
  lemma CutOnceIsPrefix(a: seq<Segment>, lo: nat, b: seq<Segment>, j: nat)
    requires lo + |b| <= |a| && j < |b| && b[j].recs <= a[lo + j].recs
    requires forall i :: 0 <= i < j ==> b[i].recs == a[lo + i].recs
    requires forall i :: j < i < |b| ==> b[i].recs == []
    ensures Concat(b, 0, |b|) <= Concat(a, lo, lo + |b|)
  {
    hide Concat;
    ConcatEmpties(b, 0, j + 1, |b|);
    ConcatSame(a, lo, b, j);
    ConcatSnoc(b, 0, j);
    ConcatSnoc(a, lo, lo + j);
    AppendPrefix(Concat(a, lo, lo + j), b[j].recs, a[lo + j].recs);
    ConcatPrefix(a, lo, lo + j + 1, lo + |b|);
    PrefixChain(Concat(b, 0, |b|), Concat(a, lo, lo + j + 1), Concat(a, lo, lo + |b|));
  }

  lemma ConcatSnoc(files: seq<Segment>, lo: nat, hi: nat)
    requires lo <= hi < |files|
    ensures Concat(files, lo, hi + 1) == Concat(files, lo, hi) + files[hi].recs
  {
  }

  lemma AppendPrefix(x: seq<Record>, y: seq<Record>, z: seq<Record>)
    requires y <= z
    ensures x + y <= x + z
  {
    assert x + z == (x + y) + z[|y|..];
  }

  lemma PrefixChain(x: seq<Record>, y: seq<Record>, z: seq<Record>)
    requires x <= y <= z
    ensures x <= z
  {
    assert z[..|x|] == y[..|x|];
  }

  lemma LeftOf(s: State, keep: seq<nat>, i: nat)
    requires Survivable(s, keep) && i < |keep|
    ensures var t, m := PowerLossStep(s, keep), Cut(s.files[s.first + i], keep[i]);
            && t.first == 0 && |t.files| == |keep| == |s.files| - s.first
            && t.files[i].recs == m.recs && m.recs <= s.files[s.first + i].recs
            && (keep[i] == Len(s.files[s.first + i].recs) ==> m.recs == s.files[s.first + i].recs)
  {
    hide Whole, Len, MaxTs, MaxVis, NextAfter, LenBefore;
    var m := CutAll(s, keep);
    assert PowerLossStep(s, keep).files[i] == Rebuilt(m, i) && m[i] == Cut(s.files[s.first + i], keep[i]);
    CutWhole(s.files[s.first + i]);
  }

  /** The floor is the first record's MsgID, or zero when the first file has none. */
  lemma FloorAfter(s: State, keep: seq<nat>)
    requires Survivable(s, keep)
    ensures var t := PowerLossStep(s, keep);
            Floor(t) == if t.files[0].recs != [] then t.files[0].recs[0].msgID else 0
  {
    hide Cut, LenBefore, MaxTs, MaxVis;
    var m := CutAll(s, keep);
    assert PowerLossStep(s, keep).files[0] == Rebuilt(m, 0) && NextAfter(m, 0) == None;
  }

  lemma {:induction false} FirstOfConcat(files: seq<Segment>, hi: nat)
    requires 0 < hi <= |files| && files[0].recs != []
    ensures Concat(files, 0, hi) != [] && Concat(files, 0, hi)[0] == files[0].recs[0]
  {
    if hi > 1 { FirstOfConcat(files, hi - 1); } else { assert Concat(files, 0, 0) == []; }
  }

  /** At most the last file with records is cut. */
  lemma PrefixIsDense(cfg: Config, s: State, keep: seq<nat>, j: nat)
    requires Shape(cfg, s) && Survivable(s, keep) && j < |keep|
    requires forall i :: 0 <= i < j ==> keep[i] == Len(s.files[s.first + i].recs)
    requires forall x :: s.first + j < x < |s.files| ==> s.files[x].recs == []
    ensures NoGap(s, keep)
  {
    hide Shape, Cut, Len, Concat, PowerLossStep, Survivable;
    var t, n := PowerLossStep(s, keep), |keep|;
    LeftOf(s, keep, 0);
    forall i | 0 <= i < n
      ensures t.files[i].recs <= s.files[s.first + i].recs
      ensures i < j ==> t.files[i].recs == s.files[s.first + i].recs
      ensures i > j ==> t.files[i].recs == []
    {
      LeftOf(s, keep, i);
      assert i > j ==> s.files[s.first + i].recs == [];
    }
    CutOnceIsPrefix(s.files, s.first, t.files, j);
    ShapeDense(cfg, s);
    FloorAfter(s, keep);
    if t.files[0].recs != [] {
      FirstOfConcat(t.files, n);
      assert Retained(t)[0] == Retained(s)[0];
    } else {
      if j > 0 { ShapeSealed(cfg, s, s.first); }
      ConcatEmpties(t.files, 0, 0, n);
      assert Concat(t.files, 0, 0) == [] by { NoFiles(t.files); }
    }
  }

  lemma NoFiles(files: seq<Segment>)
    ensures Concat(files, 0, 0) == []
  {
  }

  lemma ClosedHasNoGap(cfg: Config, s: State, keep: seq<nat>)
    requires Shape(cfg, s) && GapsClosed(s)
    ensures NoGap(s, keep)
  {
    hide Shape, Len, PowerLossStep;
    if Survivable(s, keep) {
      var n, last := |keep|, |s.files| - 1;
      var j := if n > 1 && Active(s).recs == [] then n - 2 else n - 1;
      forall i | 0 <= i < j ensures keep[i] == Len(s.files[s.first + i].recs) {
        if Active(s).recs == [] { ShapeSealed(cfg, s, s.first + j); }
        assert s.files[s.first + j].recs != [] || n == 1;
        assert Behind(s, s.first + i);
      }
      PrefixIsDense(cfg, s, keep, j);
    }
  }

  // ---- A hole ----

  lemma {:induction false} ConcatFewer(a: seq<Segment>, lo: nat, b: seq<Segment>, n: nat, x: nat)
    requires lo + n <= |a| && n <= |b| && x < |b| && lo + x < |a|
    requires forall i :: 0 <= i < n && i != x ==> b[i].recs == a[lo + i].recs
    ensures |Concat(b, 0, n)| + (if x < n then |a[lo + x].recs| - |b[x].recs| else 0) == |Concat(a, lo, lo + n)|
  {
    if n > 0 { ConcatFewer(a, lo, b, n - 1, x); }
  }

  lemma LastOfConcat(files: seq<Segment>, lo: nat, hi: nat, j: nat)
    requires lo <= j < hi <= |files| && files[j].recs != [] && forall i :: j < i < hi ==> files[i].recs == []
    ensures var c := Concat(files, lo, hi); c != [] && c[|c| - 1] == files[j].recs[|files[j].recs| - 1]
  {
    ConcatEmpties(files, lo, j + 1, hi);
  }

  lemma CutAtBoundary(g: Segment)
    requires OnBoundary(g) && g.durable < Len(g.recs)
    ensures var m := Cut(g, g.durable); !m.torn && m.recs < g.recs
  {
    hide Whole;
    var k :| 0 <= k <= |g.recs| && g.durable == Len(g.recs[..k]);
    assert g.recs[..|g.recs|] == g.recs;
    LenOneMore(g.recs, k);
    WholeUnique(g.recs, g.durable, k);
  }

  /** The last file with records, behind files[i]. */
  lemma LastBehind(cfg: Config, s: State, i: nat) returns (j: nat)
    requires Shape(cfg, s) && s.first <= i < |s.files| - 1 && Behind(s, i)
    ensures i < j < |s.files| && s.files[j].recs != [] && forall x :: j < x < |s.files| ==> s.files[x].recs == []
  {
    hide Shape;
    var last := |s.files| - 1;
    if s.files[last].recs != [] {
      j := last;
    } else {
      j := last - 1;
      ShapeSealed(cfg, s, j);
      var x :| i < x < |s.files| && s.files[x].recs != [];
    }
  }

  lemma HoleOpens(s: State, i: nat)
    requires s.first <= i < |s.files| - 1 && AllOnBoundary(s.files) && s.files[i].durable < Len(s.files[i].recs)
    ensures var keep := KeepBut(s, i, s.files[i].durable); Survivable(s, keep) && !PowerLossStep(s, keep).down
  {
    hide OnBoundary, Cut, Len, PowerLossStep, KeepBut;
    var g := s.files[i];
    var keep := KeepBut(s, i, g.durable);
    KeepButSurvives(s, i, g.durable);
    DownIffTorn(s, keep);
    CutAtBoundary(g);
    forall x | 0 <= x < |keep| - 1 ensures !CutAll(s, keep)[x].torn {
      KeepButAt(s, i, g.durable, x);
      CutWhole(s.files[s.first + x]);
    }
  }

  lemma HoleFiles(s: State, i: nat, x: nat)
    requires s.first <= i < |s.files| - 1 && AllOnBoundary(s.files) && s.files[i].durable < Len(s.files[i].recs)
    requires x < |s.files| - s.first
    ensures var t := PowerLossStep(s, KeepBut(s, i, s.files[i].durable));
            && t.first == 0 && |t.files| == |s.files| - s.first
            && if s.first + x == i then t.files[x].recs < s.files[i].recs
               else t.files[x].recs == s.files[s.first + x].recs
  {
    hide OnBoundary, Cut, Len, PowerLossStep, KeepBut;
    var g := s.files[i];
    var keep := KeepBut(s, i, g.durable);
    KeepButSurvives(s, i, g.durable);
    KeepButAt(s, i, g.durable, x);
    LeftOf(s, keep, x);
    CutAtBoundary(g);
  }

  lemma UnsyncedSealLeavesGap(cfg: Config, s: State, i: nat)
    requires Shape(cfg, s) && s.first <= i < |s.files| - 1 && Behind(s, i)
    requires AllOnBoundary(s.files) && s.files[i].durable < Len(s.files[i].recs)
    ensures !NoGap(s, KeepBut(s, i, s.files[i].durable))
  {
    hide Shape, AllOnBoundary, Len, PowerLossStep, KeepBut, Survivable, Concat;
    var keep := KeepBut(s, i, s.files[i].durable);
    var t, n := PowerLossStep(s, keep), |s.files| - s.first;
    HoleOpens(s, i);
    HoleFiles(s, i, 0);
    forall x | 0 <= x < n && s.first + x != i ensures t.files[x].recs == s.files[s.first + x].recs {
      HoleFiles(s, i, x);
    }
    HoleFiles(s, i, i - s.first);
    ConcatFewer(s.files, s.first, t.files, n, i - s.first);
    var j := LastBehind(cfg, s, i);
    LastOfConcat(s.files, s.first, |s.files|, j);
    LastOfConcat(t.files, 0, n, j - s.first);
    ShapeDense(cfg, s);
    FloorAfter(s, keep);
    FloorNotAbove(cfg, s, keep);
    var c := Retained(t);
    assert c[|c| - 1].msgID > Floor(t) + (|c| - 1);
  }

  lemma FloorNotAbove(cfg: Config, s: State, keep: seq<nat>)
    requires Shape(cfg, s) && Survivable(s, keep)
    ensures Floor(PowerLossStep(s, keep)) <= Floor(s)
  {
    hide Shape, PowerLossStep, Concat, Len;
    var t := PowerLossStep(s, keep);
    FloorAfter(s, keep);
    LeftOf(s, keep, 0);
    if t.files[0].recs != [] {
      ShapeDense(cfg, s);
      FirstRetained(s);
    }
  }

  lemma {:induction false} FirstFrom(files: seq<Segment>, lo: nat, hi: nat)
    requires lo < hi <= |files| && files[lo].recs != []
    ensures Concat(files, lo, hi) != [] && Concat(files, lo, hi)[0] == files[lo].recs[0]
  {
    if hi > lo + 1 { FirstFrom(files, lo, hi - 1); } else { assert Concat(files, lo, lo) == []; }
  }

  lemma FirstRetained(s: State)
    requires s.files[s.first].recs != []
    ensures Retained(s) != [] && Retained(s)[0] == s.files[s.first].recs[0]
  {
    FirstFrom(s.files, s.first, |s.files|);
  }

  /**
   * In every sync mode, after any run whose power losses so far spared the sealed files: the next power loss
   * leaves no hole in a log that opens if and only if, before it, every retained sealed file with a record
   * behind it had been fsynced to its end.
   */
  lemma NoGapIff(cfg: Config, steps: seq<Step>)
    requires SealsSurvive(cfg, steps)
    ensures var s := Run(cfg, EMPTY, steps); (forall keep :: NoGap(s, keep)) <==> GapsClosed(s)
  {
    hide Run, NoGap, Shape, OnBoundary, Len, Behind, SealsSurvive;
    var s := Run(cfg, EMPTY, steps);
    RunShapes(cfg, steps);
    RunBoundary(cfg, steps);
    if GapsClosed(s) {
      forall keep ensures NoGap(s, keep) { ClosedHasNoGap(cfg, s, keep); }
    } else {
      var i :| s.first <= i < |s.files| - 1 && Behind(s, i) && s.files[i].durable != Len(s.files[i].recs);
      BoundaryLen(s.files[i]);
      UnsyncedSealLeavesGap(cfg, s, i);
    }
  }

  // ---- Runs that leave one, and the reader that steps over it ----

  /** a sealed with nothing fsynced, then r in the active file. */
  predicate TwoFiles(s: State, a: Record, r: Record) {
    && |s.files| == 2 && s.first == 0 && a.msgID == 0 && r.msgID == 1
    && s.files[0].index == 0 && s.files[0].recs == [a] && s.files[0].durable == 0
    && s.files[1].index == 1 && s.files[1].recs == [r] && s.files[1].durable <= Len([r])
  }

  /** MsgID 0 is gone, the floor is 0, and the first record is r. */
  predicate Hole(t: State, r: Record) {
    && |t.files| == 2 && t.first == 0 && !t.down && r.msgID == 1 && t.committed == Size(r)
    && t.files[0].index == 0 && t.files[0].baseMsgID == 0 && t.files[0].baseOff == 0 && t.files[0].recs == []
    && t.files[1].index == 1 && t.files[1].baseMsgID == 1 && t.files[1].baseOff == 0 && t.files[1].recs == [r]
  }

  lemma LosesFirstFile(s: State, a: Record, r: Record)
    requires TwoFiles(s, a, r)
    ensures var keep := [0, Size(r)]; Survivable(s, keep) && Hole(PowerLossStep(s, keep), r)
  {
    hide MaxTs, MaxVis, Encodable;
    var keep := [0, Size(r)];
    LenOneMore([a], 0);
    LenOneMore([r], 0);
    assert [a][..0] == [] && [a][..1] == [a] && [r][..0] == [] && [r][..1] == [r];
    WholeUnique([a], 0, 0);
    WholeUnique([r], Size(r), 1);
    var m := CutAll(s, keep);
    assert m[0].recs == [] && !m[0].torn && m[1].recs == [r];
    assert NextAfter(m, 0) == None && LenBefore(m, 0) == 0 && LenBefore(m, 1) == 0 && LenBefore(m, 2) == Size(r);
  }

  lemma SealsUnsynced(cfg: Config, s: State, a: Record, b: Record)
    requires Unsynced(s, a) && a.msgID == 0
    requires 0 < cfg.segmentBytes < Size(a) + Size(b) && Encodable(b.(msgID := 1))
    ensures TwoFiles(AppendStep(cfg, s, b, OK), a, b.(msgID := 1))
  {
    hide Encodable, Len;
    var t, r := AppendStep(cfg, s, b, OK), b.(msgID := 1);
    assert MustRotate(cfg, s, r);
    assert t.files[0] == s.files[0] && t.files[1].recs == [r];
  }

  /** Without fsync, at every cap b does not fit under, a power loss can leave MsgID 1 without MsgID 0. */
  lemma NoSyncLeavesHole(cap: nat, a: Record, b: Record)
    requires Encodable(a.(msgID := 0)) && Encodable(b.(msgID := 1)) && 0 < cap < Size(a) + Size(b)
    ensures var cfg := Config(NoSync, cap);
            var s, keep := Run(cfg, EMPTY, [Append(a, OK), Append(b, OK)]), [0, Size(b)];
            a.(msgID := 0) in s.acked && Survivable(s, keep) && Hole(PowerLossStep(s, keep), b.(msgID := 1))
  {
    hide AppendStep, Encodable, Hole, PowerLossStep, Survivable;
    var cfg, r := Config(NoSync, cap), a.(msgID := 0);
    var s1 := AppendStep(cfg, EMPTY, a, OK);
    FirstAppend(cfg, EMPTY, a, OK);
    SealedUnsyncedFailsToOpen(cfg, s1, r, b);
    RunTwo(cfg, Append(a, OK), Append(b, OK));
    SealsUnsynced(cfg, s1, r, b);
    LosesFirstFile(AppendStep(cfg, s1, b, OK), r, b.(msgID := 1));
  }

  /** In the fsyncing modes a kill between write and fsync, the next rotation and a power loss do the same. */
  lemma KillLeavesHole(mode: SyncMode, cap: nat, a: Record, b: Record)
    requires mode != NoSync && Encodable(a.(msgID := 0)) && Encodable(b.(msgID := 1)) && 0 < cap < Size(a) + Size(b)
    ensures var cfg := Config(mode, cap);
            var s, keep := Run(cfg, EMPTY, [Append(a, SYNC_FAILS), Kill, Append(b, OK)]), [0, Size(b)];
            && (mode == PerMessage ==> b.(msgID := 1) in s.acked)
            && Survivable(s, keep) && Hole(PowerLossStep(s, keep), b.(msgID := 1))
  {
    hide AppendStep, KillStep, Encodable, Hole, PowerLossStep, Survivable;
    var cfg, r := Config(mode, cap), a.(msgID := 0);
    var s1 := AppendStep(cfg, EMPTY, a, SYNC_FAILS);
    FirstAppend(cfg, EMPTY, a, SYNC_FAILS);
    KillPublishesUnsynced(cfg, s1, r);
    var s2 := KillStep(s1);
    SealedUnsyncedFailsToOpen(cfg, s2, r, b);
    var steps := [Append(a, SYNC_FAILS), Kill, Append(b, OK)];
    RunTwo(cfg, Append(a, SYNC_FAILS), Kill);
    assert steps[..2] == [Append(a, SYNC_FAILS), Kill];
    SealsUnsynced(cfg, s2, r, b);
    LosesFirstFile(AppendStep(cfg, s2, b, OK), r, b.(msgID := 1));
  }

  lemma HoleLimits(t: State, r: Record)
    requires Hole(t, r)
    ensures PickStart(t, 0, 0) == 0 && SegmentAfter(t, 0, 0) == Some(1)
    ensures ReadableLen(t, 0) == (0, false) && ReadableLen(t, 1) == (Size(r), true)
  {
    assert SegmentAfter(t, 1, 0) == Some(1);
  }

  lemma HoleMoves(f: Framing, cfg: Config, t: State, r: Record)
    requires Lawful(f) && Encodable(r) && Hole(t, r)
    ensures ReadStep(f, t, Opening(0, 0)) == (Scanning(0, 0, 0), None)
    ensures ReadStep(f, t, Scanning(0, 0, 0)) == (Ready(0, 0), None)
    ensures ReadStep(f, t, Ready(0, 0)) == (Rolling(1), None)
    ensures ReadStep(f, t, Rolling(1)) == (Ready(1, 0), None)
    ensures ReadStep(f, t, Ready(1, 0)) == (Decoding(1, 0), None)
    ensures ReadStep(f, t, Decoding(1, 0)) == (Ready(1, Size(r)), Some(r))
  {
    hide Lawful, Encodable, EncodeAll, ReadableLen, SegmentAfter;
    HoleLimits(t, r);
    assert AllEncodable([r]);
    DecodeAt(f, [r], 0);
    assert [r][..0] == [] && Len([]) == 0;
    assert EncodeAll(f, [r])[0..] == EncodeAll(f, [r]);
  }

  /** A reader opened at the floor of such a log does not fail: its first record is the one after the hole. */
  lemma ReaderStepsOverHole(f: Framing, cfg: Config, t: State, r: Record)
    requires Lawful(f) && Encodable(r) && Hole(t, r)
    ensures Floor(t) == 0 && r.msgID == 1
    ensures Moves(f, cfg, Session(t, NewReader(t, 0), []), seq(6, _ => ReaderMoves))
         == Session(t, Ready(1, Size(r)), [r])
  {
    hide Lawful, Encodable, ReadStep, PickStart, Moves;
    HoleLimits(t, r);
    HoleMoves(f, cfg, t, r);
    var x := Session(t, NewReader(t, 0), []);
    NoMoves(f, cfg, x);
    OneMoreMove(f, cfg, x, 0);
    OneMoreMove(f, cfg, x, 1);
    OneMoreMove(f, cfg, x, 2);
    OneMoreMove(f, cfg, x, 3);
    OneMoreMove(f, cfg, x, 4);
    OneMoreMove(f, cfg, x, 5);
  }

  lemma NoMoves(f: Framing, cfg: Config, x: Session)
    ensures Moves(f, cfg, x, seq(0, _ => ReaderMoves)) == x
  {
  }

  lemma OneMoreMove(f: Framing, cfg: Config, x: Session, n: nat)
    ensures Moves(f, cfg, x, seq(n + 1, _ => ReaderMoves))
         == Move(f, cfg, Moves(f, cfg, x, seq(n, _ => ReaderMoves)), ReaderMoves)
  {
    hide Move;
    var es := seq(n + 1, _ => ReaderMoves);
    assert es[..n] == seq(n, _ => ReaderMoves);
  }
}
