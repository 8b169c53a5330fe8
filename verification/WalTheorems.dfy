/** The log's promises, stated over whole runs from an empty directory. */
module WalTheorems {
  import opened Bytes
  import opened Codec
  import opened Stream
  import opened Wal
  import opened WalSafety

  /** The records of files[lo..hi], oldest first. */
  function Concat(files: seq<Segment>, lo: nat, hi: nat): seq<Record>
    requires lo <= hi <= |files|
  {
    if lo == hi then [] else Concat(files, lo, hi - 1) + files[hi - 1].recs
  }

  /** What the log still holds, written or recovered. */
  function Retained(s: State): seq<Record> { Concat(s.files, s.first, |s.files|) }

  function Floor(s: State): nat { s.files[s.first].baseMsgID }

  lemma SealedIn(cfg: Config, files: seq<Segment>, i: nat)
    requires FilesOk(cfg, files) && i + 1 < |files|
    ensures Sealed(files[i], files[i + 1])
  {
  }

  /** rs carries on the MsgIDs of c, which start at base. */
  lemma DenseOn(c: seq<Record>, rs: seq<Record>, base: nat)
    requires forall i :: 0 <= i < |c| ==> c[i].msgID == base + i
    requires forall i :: 0 <= i < |rs| ==> rs[i].msgID == base + |c| + i
    ensures forall i :: 0 <= i < |c + rs| ==> (c + rs)[i].msgID == base + i
  {
    var all := c + rs;
    forall i | 0 <= i < |all| ensures all[i].msgID == base + i {
      assert all[i] == if i < |c| then c[i] else rs[i - |c|];
    }
  }

  lemma {:induction false} ConcatDense(cfg: Config, files: seq<Segment>, lo: nat, hi: nat)
    requires FilesOk(cfg, files) && lo < hi <= |files|
    ensures var c := Concat(files, lo, hi);
            && (forall i :: 0 <= i < |c| ==> c[i].msgID == files[lo].baseMsgID + i)
            && files[lo].baseMsgID + |c| == files[hi - 1].baseMsgID + |files[hi - 1].recs|
            && files[lo].baseOff + Len(c) == files[hi - 1].baseOff + Len(files[hi - 1].recs)
  {
    hide FilesOk, MaxTs, MaxVis, AllEncodable, Len;
    var g := files[hi - 1];
    SegmentAt(cfg, files, hi - 1);
    if lo + 1 < hi {
      ConcatDense(cfg, files, lo, hi - 1);
      SealedIn(cfg, files, hi - 2);
      var c := Concat(files, lo, hi - 1);
      LenAppend(c, g.recs);
      DenseOn(c, g.recs, files[lo].baseMsgID);
      assert Concat(files, lo, hi) == c + g.recs;
    } else {
      assert Concat(files, lo, hi) == [] + g.recs == g.recs;
    }
  }

  lemma {:induction false} ConcatContains(files: seq<Segment>, lo: nat, hi: nat, i: nat, r: Record)
    requires lo <= i < hi <= |files| && r in files[i].recs
    ensures r in Concat(files, lo, hi)
  {
    if i < hi - 1 { ConcatContains(files, lo, hi - 1, i, r); }
  }

  lemma {:induction false} ConcatSame(a: seq<Segment>, lo: nat, b: seq<Segment>, n: nat)
    requires lo + n <= |a| && n <= |b|
    requires forall i :: 0 <= i < n ==> b[i].recs == a[lo + i].recs
    ensures Concat(b, 0, n) == Concat(a, lo, lo + n)
  {
    if n > 0 { ConcatSame(a, lo, b, n - 1); }
  }

  // ---- Commit protocol ----

  /**
   * committed never passes the durable bytes, never falls below the active segment, never moves
   * back, sits on a record boundary, and covers every record whose Append succeeded.
   */
  lemma CommitProtocol(cfg: Config, steps: seq<Step>, step: Step)
    requires cfg.mode != NoSync && KillsClean(cfg, steps + [step])
    ensures var s := Run(cfg, EMPTY, steps);
            && Active(s).baseOff <= s.committed <= Active(s).baseOff + Active(s).durable
            && Boundary(Active(s), s.committed)
            && (forall r :: r in s.acked ==> r in s.dropped || Visible(s, r))
            && (!Crash(step) ==> s.committed <= Next(cfg, s, step).committed)
  {
    var s := Run(cfg, EMPTY, steps);
    CleanPrefix(cfg, steps, step);
    RunKeeps(cfg, steps);
    StepKeeps(cfg, s, step);
  }

  lemma CleanPrefix(cfg: Config, steps: seq<Step>, step: Step)
    requires KillsClean(cfg, steps + [step])
    ensures KillsClean(cfg, steps) && (step.Kill? ==> FullySynced(Run(cfg, EMPTY, steps)))
  {
    var all := steps + [step];
    forall i | 0 <= i < |all| && all[i].Kill? ensures FullySynced(Run(cfg, EMPTY, all[..i])) {}
    forall i | 0 <= i < |steps| && steps[i].Kill? ensures FullySynced(Run(cfg, EMPTY, steps[..i])) {
      assert all[i].Kill? && all[..i] == steps[..i];
    }
    if step.Kill? {
      assert all[|steps|].Kill? && all[..|steps|] == steps;
    }
  }

  // ---- Segments ----

  /** files[i] starts where the records before it end, and is within the cap unless it holds a single record. */
  ghost predicate Partitioned(cfg: Config, s: State, i: nat) {
    && i < |s.files|
    && var g, before := s.files[i], Concat(s.files, 0, i);
       && g.baseOff == Len(before)
       && g.baseMsgID == s.files[0].baseMsgID + |before|
       && (g.recs != [] ==> g.recs[0].msgID == g.baseMsgID)
       && (cfg.segmentBytes == 0 || |g.recs| <= 1 || Len(g.recs) <= cfg.segmentBytes)
  }

  lemma PartitionedAt(cfg: Config, s: State, i: nat)
    requires Inv(cfg, s) && i < |s.files|
    ensures Partitioned(cfg, s, i) && s.written == Len(Concat(s.files, 0, |s.files|))
  {
    hide HistoryOk, FlushOk, CommittedOk, FilesOk, Len;
    SegmentAt(cfg, s.files, i);
    StartsAtZero(cfg, s);
    ConcatDense(cfg, s.files, 0, |s.files|);
    if i > 0 {
      ConcatDense(cfg, s.files, 0, i);
      SealedIn(cfg, s.files, i - 1);
    }
  }

  lemma StartsAtZero(cfg: Config, s: State)
    requires Inv(cfg, s)
    ensures s.files[0].baseOff == 0 && Len([]) == 0
  {
  }

  // ---- Power loss ----

  /** t is what reopening makes of s after a power loss. */
  ghost predicate Recovered(s: State, t: State) {
    && !t.down && t.first == 0 && |t.files| == |s.files| - s.first
    && Retained(t) <= Retained(s)
    && (forall r :: r in s.acked ==> r in s.dropped || r in Retained(t))
    && (forall i :: 0 <= i < |t.files| - 1 ==> t.files[i].recs == s.files[s.first + i].recs)
    && (forall i :: 0 <= i < |Retained(t)| ==> Retained(t)[i].msgID == Floor(s) + i)
    && t.next == (if Retained(t) == [] then 0 else Floor(s) + |Retained(t)|)
  }

  lemma PowerLossFiles(cfg: Config, s: State, keep: seq<nat>)
    requires Inv(cfg, s) && Survivable(s, keep)
    ensures var t := PowerLossStep(s, keep);
            && Inv(cfg, t) && t.first == 0 && |t.files| == |s.files| - s.first
            && (forall i :: 0 <= i < |t.files| - 1 ==> t.files[i].recs == s.files[s.first + i].recs)
            && Active(t).recs <= Active(s).recs
            && (forall r :: r in s.acked && r !in s.dropped ==> exists i :: 0 <= i < |t.files| && r in t.files[i].recs)
  {
    hide Inv, Cut, MaxTs, MaxVis, NextAfter, LenBefore;
    var t, m := PowerLossStep(s, keep), CutAll(s, keep);
    PowerLossKeeps(cfg, s, keep);
    CutImages(cfg, s, keep);
    CutImage(cfg, s, keep, |keep| - 1);
    assert forall i :: 0 <= i < |m| ==> t.files[i].recs == m[i].recs;
    forall r | r in s.acked && r !in s.dropped ensures exists i :: 0 <= i < |t.files| && r in t.files[i].recs {
      assert Visible(s, r) by { assert HistoryOk(s) by { InvHistory(cfg, s); } }
      VisibleSurvives(cfg, s, keep, r);
      var i :| 0 <= i < |m| && r in m[i].recs;
      assert r in t.files[i].recs;
    }
  }

  lemma InvHistory(cfg: Config, s: State)
    requires Inv(cfg, s)
    ensures HistoryOk(s) && FilesOk(cfg, s.files) && !s.down
  {
  }

  lemma NextIsDense(cfg: Config, s: State)
    requires Inv(cfg, s)
    ensures s.next == Floor(s) + |Retained(s)|
    ensures forall i :: 0 <= i < |Retained(s)| ==> Retained(s)[i].msgID == Floor(s) + i
  {
    ConcatDense(cfg, s.files, s.first, |s.files|);
  }

  /** Recovery in record terms, from any state a run reaches. */
  lemma PowerLossRecovers(cfg: Config, s: State, keep: seq<nat>)
    requires Inv(cfg, s) && Survivable(s, keep)
    ensures Recovered(s, PowerLossStep(s, keep)) && Inv(cfg, PowerLossStep(s, keep))
  {
    hide Inv, PowerLossStep, HistoryOk, FilesOk;
    var t := PowerLossStep(s, keep);
    var n := |t.files|;
    PowerLossFiles(cfg, s, keep);
    EmptyRestart(s, keep);
    InvHistory(cfg, t);
    ConcatSame(s.files, s.first, t.files, n - 1);
    NextIsDense(cfg, s);
    NextIsDense(cfg, t);
    forall r | r in s.acked && r !in s.dropped ensures r in Retained(t) {
      var i :| 0 <= i < n && r in t.files[i].recs;
      ConcatContains(t.files, 0, n, i, r);
    }
    if Retained(t) != [] { assert Retained(t)[0] == Retained(s)[0]; }
  }

  /** With no record left in any file, MsgIDs start over at zero. */
  lemma EmptyRestart(s: State, keep: seq<nat>)
    requires Survivable(s, keep)
    ensures var t := PowerLossStep(s, keep); t.first == 0 && (Retained(t) == [] ==> t.next == 0)
  {
    var t, m := PowerLossStep(s, keep), CutAll(s, keep);
    if Retained(t) == [] { NothingAfter(m, t.files, |m|); }
  }

  lemma {:induction false} NothingAfter(m: seq<Image>, files: seq<Segment>, n: nat)
    requires n <= |m| == |files|
             && (forall i :: 0 <= i < |m| ==> files[i].recs == m[i].recs) && Concat(files, 0, n) == []
    ensures NextAfter(m, n) == None
  {
    if n > 0 { NothingAfter(m, files, n - 1); }
  }

  /**
   * After any run and any power loss the log opens, holds a prefix of what was written, and that
   * prefix has every record whose Append succeeded and retention did not drop; only the active
   * segment is cut, and MsgIDs go on densely.
   */
  lemma Durability(cfg: Config, steps: seq<Step>, keep: seq<nat>)
    requires cfg.mode != NoSync && KillsClean(cfg, steps) && Survivable(Run(cfg, EMPTY, steps), keep)
    ensures Recovered(Run(cfg, EMPTY, steps), Run(cfg, EMPTY, steps + [PowerLoss(keep)]))
  {
    hide Inv, Recovered, PowerLossStep, HistoryOk, FilesOk, Survivable;
    var s := Run(cfg, EMPTY, steps);
    RunKeeps(cfg, steps);
    InvHistory(cfg, s);
    var all := steps + [PowerLoss(keep)];
    assert all[..|all| - 1] == steps;
    PowerLossRecovers(cfg, s, keep);
  }

  // ---- Where MsgIDs go on ----

  /** A record is sure to survive a power loss, or none was ever dropped. */
  predicate KeepsARecord(s: State) {
    Floor(s) == 0 || |s.files| - s.first > 1 || Whole(Active(s).recs, Active(s).durable) > 0
  }

  /** MsgIDs go on right after the records a power loss leaves. */
  ghost predicate GoesOn(s: State, keep: seq<nat>) {
    var t := PowerLossStep(s, keep);
    Survivable(s, keep) ==> t.next == Floor(s) + |Retained(t)|
  }

  /** What a power loss leaves of the active segment. */
  lemma ActiveAfter(s: State, keep: seq<nat>)
    requires Survivable(s, keep)
    ensures var g := Active(s); Active(PowerLossStep(s, keep)).recs == g.recs[..Whole(g.recs, keep[|keep| - 1])]
  {
    hide Whole, Len, MaxTs, MaxVis, NextAfter, LenBefore;
    var m, n := CutAll(s, keep), |keep|;
    assert Active(PowerLossStep(s, keep)) == Rebuilt(m, n - 1);
    assert m[n - 1] == Cut(Active(s), keep[n - 1]);
  }

  lemma KeptGoesOn(cfg: Config, s: State, keep: seq<nat>)
    requires Inv(cfg, s) && KeepsARecord(s)
    ensures GoesOn(s, keep)
  {
    hide Inv, PowerLossStep, Whole, Concat, HistoryOk, FilesOk;
    if Survivable(s, keep) {
      var t, n := PowerLossStep(s, keep), |keep|;
      PowerLossRecovers(cfg, s, keep);
      InvHistory(cfg, s);
      if n > 1 {
        SealedIn(cfg, s.files, s.first);
        var r := s.files[s.first].recs[0];
        assert r in t.files[0].recs;
        ConcatContains(t.files, 0, n, 0, r);
      } else if Whole(Active(s).recs, Active(s).durable) > 0 {
        ActiveAfter(s, keep);
        WholeMonotone(Active(s).recs, Active(s).durable, keep[n - 1]);
        ConcatContains(t.files, 0, n, n - 1, Active(t).recs[0]);
      }
    }
  }

  lemma LostStartsOver(cfg: Config, s: State)
    requires Inv(cfg, s) && !KeepsARecord(s)
    ensures !GoesOn(s, [Active(s).durable])
  {
    hide Inv, PowerLossStep, Whole, HistoryOk, FilesOk;
    var keep := [Active(s).durable];
    InvHistory(cfg, s);
    SegmentAt(cfg, s.files, |s.files| - 1);
    PowerLossRecovers(cfg, s, keep);
    ActiveAfter(s, keep);
    var t := PowerLossStep(s, keep);
    assert Concat(t.files, 0, 0) == [] && t.files[0] == Active(t);
  }

  /**
   * After any run, MsgIDs go on densely whatever a power loss leaves if and only if, before it, nothing had
   * been dropped, a sealed segment was retained, or a record of the active one was fsynced.
   */
  lemma DenseRestartIff(cfg: Config, steps: seq<Step>)
    requires cfg.mode != NoSync && KillsClean(cfg, steps)
    ensures var s := Run(cfg, EMPTY, steps); (forall keep :: GoesOn(s, keep)) <==> KeepsARecord(s)
  {
    hide Run, Inv, GoesOn, KeepsARecord;
    var s := Run(cfg, EMPTY, steps);
    RunKeeps(cfg, steps);
    if KeepsARecord(s) {
      forall keep ensures GoesOn(s, keep) { KeptGoesOn(cfg, s, keep); }
    } else {
      LostStartsOver(cfg, s);
    }
  }

  // ---- When a kill is safe ----

  /** A power loss leaves every committed record of t in a log that opens. */
  ghost predicate KeepsCommitted(t: State, keep: seq<nat>) {
    var u := PowerLossStep(t, keep);
    Survivable(t, keep) ==> !u.down && forall r :: Visible(t, r) ==> r in Retained(u)
  }

  lemma CommittedKept(cfg: Config, s: State, keep: seq<nat>)
    requires Inv(cfg, s)
    ensures KeepsCommitted(s, keep)
  {
    hide Inv, Visible, Concat, Cut;
    if Survivable(s, keep) {
      var t, m := PowerLossStep(s, keep), CutAll(s, keep);
      PowerLossKeeps(cfg, s, keep);
      InvHistory(cfg, t);
      assert forall i :: 0 <= i < |m| ==> t.files[i].recs == m[i].recs;
      forall r | Visible(s, r) ensures r in Retained(t) {
        VisibleSurvives(cfg, s, keep, r);
        var i :| 0 <= i < |m| && r in m[i].recs;
        ConcatContains(t.files, 0, |m|, i, r);
      }
    }
  }

  /** Everything but the unsynced end of the active segment. */
  function KeepSynced(s: State): (keep: seq<nat>)
    ensures |keep| == |s.files| - s.first
  {
    KeepAll(s)[..|s.files| - s.first - 1] + [Active(s).durable]
  }

  lemma KillFiles(s: State, i: nat)
    requires i < |s.files| - s.first
    ensures var t := KillStep(s);
            && t.first == 0 && |t.files| == |s.files| - s.first
            && t.files[i].recs == s.files[s.first + i].recs && t.files[i].durable == s.files[s.first + i].durable
  {
  }

  lemma KillCommits(s: State)
    ensures var t := KillStep(s); t.committed == Active(t).baseOff + Len(Active(t).recs)
  {
    var m := CachedAll(s);
    var n := |m|;
    assert Active(KillStep(s)) == Rebuilt(m, n - 1);
  }

  lemma KeepSyncedSurvives(cfg: Config, s: State)
    requires Inv(cfg, s)
    ensures Survivable(KillStep(s), KeepSynced(s))
  {
    hide Inv, Len, KillStep;
    var t, keep := KillStep(s), KeepSynced(s);
    SegmentsDurable(cfg, s);
    KillFiles(s, 0);
    forall i | 0 <= i < |keep| ensures t.files[t.first + i].durable <= keep[i] <= Len(t.files[t.first + i].recs) {
      KillFiles(s, i);
    }
  }

  lemma {:induction false} ConcatElement(files: seq<Segment>, lo: nat, hi: nat, r: Record)
    requires lo <= hi <= |files| && r in Concat(files, lo, hi)
    ensures exists i :: lo <= i < hi && r in files[i].recs
  {
    if lo < hi && r !in files[hi - 1].recs {
      ConcatElement(files, lo, hi - 1, r);
    }
  }

  /** MsgIDs below the last record of the active segment. */
  lemma BelowLast(cfg: Config, s: State, i: nat, k: nat)
    requires Inv(cfg, s) && i < |s.files| && k < |s.files[i].recs| && Active(s).recs != []
    requires i < |s.files| - 1 || k < |Active(s).recs| - 1
    ensures s.files[i].recs[k].msgID < Active(s).recs[|Active(s).recs| - 1].msgID
  {
    hide HistoryOk, FlushOk, CommittedOk, TailOk, Len;
    var last := |s.files| - 1;
    assert SegmentOk(cfg, s.files[i]) && SegmentOk(cfg, s.files[last]);
    if i < last {
      BasesOrdered(cfg, s.files, i, last);
    }
  }

  /** With unsynced bytes left, the kill commits a record that a power loss then takes. */
  lemma UnsyncedKillLoses(cfg: Config, s: State)
    requires Inv(cfg, s) && !FullySynced(s)
    ensures !KeepsCommitted(KillStep(s), KeepSynced(s))
  {
    hide Inv, KillStep, PowerLossStep, Concat, FilesOk, HistoryOk, Survivable, KeepSynced;
    var t, keep, g := KillStep(s), KeepSynced(s), Active(s);
    var n := |s.files| - s.first;
    KeepSyncedSurvives(cfg, s);
    SegmentsDurable(cfg, s);
    KillFiles(s, n - 1);
    KillCommits(s);
    LenNothing();
    var r := g.recs[|g.recs| - 1];
    assert g.recs[..|g.recs|] == g.recs;
    assert Visible(t, r) by {
      assert t.files[n - 1].recs[|g.recs| - 1] == r;
      assert t.files[n - 1].baseOff + Len(t.files[n - 1].recs[..|g.recs| - 1 + 1]) <= t.committed;
    }
    LastIsLost(cfg, s);
  }

  lemma AfterFiles(s: State, keep: seq<nat>, i: nat)
    requires Survivable(s, keep) && i < |keep|
    ensures var t := PowerLossStep(s, keep);
            t.first == 0 && |t.files| == |keep| == |s.files| - s.first && t.files[i].recs <= s.files[s.first + i].recs
  {
    hide Whole, Len, MaxTs, MaxVis, NextAfter, LenBefore;
    var m := CutAll(s, keep);
    assert PowerLossStep(s, keep).files[i] == Rebuilt(m, i) && m[i] == Cut(s.files[s.first + i], keep[i]);
  }

  lemma KeepSyncedLast(s: State)
    ensures KeepSynced(s)[|s.files| - s.first - 1] == Active(s).durable
  {
    hide KeepAll;
  }

  /** Every record left by that power loss is below the last one of the active segment. */
  lemma LeftBelowLast(cfg: Config, s: State, i: nat, k: nat)
    requires Inv(cfg, s) && Active(s).durable < Len(Active(s).recs) && Active(s).recs != []
    requires Survivable(KillStep(s), KeepSynced(s))
    requires var u := PowerLossStep(KillStep(s), KeepSynced(s)); i < |u.files| && k < |u.files[i].recs|
    ensures var t := PowerLossStep(KillStep(s), KeepSynced(s));
            t.files[i].recs[k].msgID < Active(s).recs[|Active(s).recs| - 1].msgID
  {
    hide Inv, KillStep, PowerLossStep, Survivable, Whole, Len, KeepSynced;
    var t, keep, g, n := KillStep(s), KeepSynced(s), Active(s), |s.files| - s.first;
    AfterFiles(t, keep, n - 1);
    AfterFiles(t, keep, i);
    KillFiles(s, i);
    if i == n - 1 {
      ActiveAfter(t, keep);
      KeepSyncedLast(s);
      WholeIsMaximal(g.recs, g.durable);
      assert g.recs[..|g.recs|] == g.recs;
    }
    BelowLast(cfg, s, s.first + i, k);
  }

  lemma LastIsLost(cfg: Config, s: State)
    requires Inv(cfg, s) && Active(s).durable < Len(Active(s).recs) && Active(s).recs != []
    requires Survivable(KillStep(s), KeepSynced(s))
    ensures Active(s).recs[|Active(s).recs| - 1] !in Retained(PowerLossStep(KillStep(s), KeepSynced(s)))
  {
    hide Inv, KillStep, PowerLossStep, Concat, Survivable, Len, KeepSynced;
    var u, r := PowerLossStep(KillStep(s), KeepSynced(s)), Active(s).recs[|Active(s).recs| - 1];
    if r in Retained(u) {
      ConcatElement(u.files, u.first, |u.files|, r);
      var i :| u.first <= i < |u.files| && r in u.files[i].recs;
      var k :| 0 <= k < |u.files[i].recs| && u.files[i].recs[k] == r;
      LeftBelowLast(cfg, s, i, k);
    }
  }

  /** What a killed process commits on reopening is safe from every power loss if and only if nothing was unsynced. */
  lemma KillSafeIff(cfg: Config, s: State)
    requires Inv(cfg, s)
    ensures (forall keep :: KeepsCommitted(KillStep(s), keep)) <==> FullySynced(s)
  {
    hide Inv, KeepsCommitted, KillStep;
    if FullySynced(s) {
      KillKeeps(cfg, s);
      forall keep ensures KeepsCommitted(KillStep(s), keep) { CommittedKept(cfg, KillStep(s), keep); }
    } else {
      UnsyncedKillLoses(cfg, s);
    }
  }

  /** With everything fsynced a kill is a power loss that takes nothing. */
  lemma KillIsPowerLoss(cfg: Config, s: State)
    requires Inv(cfg, s) && FullySynced(s)
    ensures Survivable(s, KeepAll(s)) && KillStep(s) == PowerLossStep(s, KeepAll(s))
  {
    hide Cut, Len, Inv;
    var keep := KeepAll(s);
    assert Survivable(s, keep) by { SegmentsDurable(cfg, s); }
    forall i | 0 <= i < |keep| ensures CutAll(s, keep)[i] == CachedAll(s)[i] { CutNothing(cfg, s, i); }
    assert CutAll(s, keep) == CachedAll(s);
  }

  // ---- Nobody waits forever ----

  lemma LocatedEnds(cfg: Config, s: State, r: Record, end: nat)
    requires Inv(cfg, s) && Located(s.files, r, end)
    ensures end <= s.written
  {
    hide HistoryOk, FlushOk, CommittedOk, FilesOk, Len;
    var i, k :| 0 <= i < |s.files| && 0 <= k < |s.files[i].recs|
      && s.files[i].recs[k] == r && end == s.files[i].baseOff + Len(s.files[i].recs[..k + 1]);
    var g, last := s.files[i], |s.files| - 1;
    LenPrefix(g.recs, k + 1, |g.recs|);
    assert g.recs[..|g.recs|] == g.recs;
    if i < last {
      BasesOrdered(cfg, s.files, i, last);
    }
  }

  /** One flush that succeeds commits everything written so far, so every blocked appender can return. */
  lemma FlushReleases(cfg: Config, s: State, r: Record, end: nat)
    requires Inv(cfg, s) && cfg.mode == Batched && s.flush == Idle && !s.commitErr && (r, end) in s.pending
    ensures var t := FlushPublishStep(FlushSyncStep(FlushSnapStep(cfg, s), true));
            t.committed == s.written && t.flush == Idle && t.pending == s.pending && r in ReturnStep(t, r, end).acked
  {
    assert Located(s.files, r, end) by { InvHistory(cfg, s); }
    hide HistoryOk, FlushOk, FilesOk, Located, Boundary;
    LocatedEnds(cfg, s, r, end);
    assert s.committed <= s.written by { SegmentAt(cfg, s.files, |s.files| - 1); }
  }

  // ---- Where the promises stop ----

  const OK := Io(true, true, true, true)
  const SYNC_FAILS := Io(true, true, true, false)

  /** One record written, nothing fsynced, and committed claims it all. */
  predicate Unsynced(s: State, r: Record) {
    && !s.down && s.first == 0 && s.next == 1
    && s.files == [Segment(0, 0, 0, r.tsNs, r.visibleAtNs, [r], 0)]
    && s.written == s.committed == Size(r)
  }

  /**
   * rotate sees nothing above committed, so it seals the segment without an fsync; half of its frame may
   * then be lost.
   */
  lemma SealedUnsyncedFailsToOpen(cfg: Config, s: State, a: Record, b: Record)
    requires Unsynced(s, a) && 0 < cfg.segmentBytes < Size(a) + Size(b) && Encodable(b.(msgID := 1))
    ensures var t := AppendStep(cfg, s, b, OK);
            && |t.files| == 2 && !t.down && t.first == 0 && s.acked <= t.acked
            && (cfg.mode != Batched ==> b.(msgID := 1) in t.acked)
            && var keep := [1, Len(t.files[1].recs)]; Survivable(t, keep) && PowerLossStep(t, keep).down
  {
    hide Encodable, CutAll, Survivable, PowerLossStep, Len;
    var t, r := AppendStep(cfg, s, b, OK), b.(msgID := 1);
    assert MustRotate(cfg, s, r);
    assert t.files[0] == s.files[0] && t.files[1].recs == [r];
    assert t.files[1].durable <= Len([r]);
    TornFailsToOpen(t, a);
  }

  lemma TornFailsToOpen(t: State, a: Record)
    requires |t.files| == 2 && t.first == 0 && t.files[0].recs == [a] && t.files[0].durable == 0
    requires t.files[1].durable <= Len(t.files[1].recs)
    ensures var keep := [1, Len(t.files[1].recs)]; Survivable(t, keep) && PowerLossStep(t, keep).down
  {
    hide Encodable;
    var recs, keep := t.files[0].recs, [1, Len(t.files[1].recs)];
    assert Len(recs) == Size(a) by { assert recs[..0] == []; }
    WholeIsMaximal(recs, 1);
    assert recs[..1] == recs;
    assert CutAll(t, keep)[0].torn;
  }

  /** The first append of a log does not rotate. */
  lemma FirstStep(cfg: Config, a: Record, io: Io)
    requires Encodable(a.(msgID := 0)) && io.write
    ensures var r := a.(msgID := 0);
            && AppendStep(cfg, EMPTY, a, io) == Fence(cfg, WriteActive(EMPTY, r), r, io.sync)
            && WriteActive(EMPTY, r)
               == EMPTY.(files := [Segment(0, 0, 0, r.tsNs, r.visibleAtNs, [r], 0)], next := 1, written := Size(r))
  {
    hide Encodable, Fence, Rotate, Size;
    var r := a.(msgID := 0);
    assert [] + [r] == [r];
    assert WriteActive(EMPTY, r).files[0] == Segment(0, 0, 0, r.tsNs, r.visibleAtNs, [r], 0);
  }

  lemma FirstAppend(cfg: Config, s: State, a: Record, io: Io)
    requires s == EMPTY && Encodable(a.(msgID := 0)) && io.write && (cfg.mode == PerMessage ==> !io.sync)
    ensures var r, t := a.(msgID := 0), AppendStep(cfg, s, a, io);
            && !t.down && t.first == 0 && t.next == 1 && t.written == Size(r)
            && (cfg.mode == NoSync ==> r in t.acked && t.committed == t.written)
            && t.files == [Segment(0, 0, 0, r.tsNs, r.visibleAtNs, [r], 0)]
  {
    hide Encodable, AppendStep, WriteActive, Size;
    FirstStep(cfg, a, io);
  }

  lemma RunTwo(cfg: Config, x: Step, y: Step)
    ensures Run(cfg, EMPTY, [x]) == Next(cfg, EMPTY, x)
    ensures Run(cfg, EMPTY, [x, y]) == Next(cfg, Next(cfg, EMPTY, x), y)
  {
    hide Next;
    assert [x][..0] == [];
    assert [x, y][..1] == [x];
  }

  /** Without fsync an acked record is gone, whatever the segment cap. */
  lemma NoSyncLoses(cfg: Config, a: Record)
    requires cfg.mode == NoSync && Encodable(a.(msgID := 0))
    ensures var s := Run(cfg, EMPTY, [Append(a, OK)]);
            && Survivable(s, [0]) && a.(msgID := 0) in s.acked
            && s.dropped == {} && Retained(Next(cfg, s, PowerLoss([0]))) == []
  {
    hide AppendStep, Encodable;
    var r, s := a.(msgID := 0), AppendStep(cfg, EMPTY, a, OK);
    FirstAppend(cfg, EMPTY, a, OK);
    RunTwo(cfg, Append(a, OK), FlushSnap);
    assert s.dropped == {} by { AppendDropsNothing(cfg, EMPTY, a, OK); }
    StartsOver(s, s.files[0]);
    ActiveAfter(s, [0]);
    WholeIsMaximal([r], 0);
    assert [r][..1] == [r];
    var t := PowerLossStep(s, [0]);
    assert |t.files| == 1 && t.files[0] == Active(t) && Concat(t.files, 0, 0) == [];
  }

  lemma AppendDropsNothing(cfg: Config, s: State, rec: Record, io: Io)
    ensures AppendStep(cfg, s, rec, io).dropped == s.dropped
  {
    hide MustRotate, Encodable, Len, Size, Active;
  }

  /** The durability promise for one run and one power loss. */
  ghost predicate Promise(cfg: Config, steps: seq<Step>, keep: seq<nat>) {
    var s := Run(cfg, EMPTY, steps);
    KillsClean(cfg, steps) && Survivable(s, keep) ==> Recovered(s, Run(cfg, EMPTY, steps + [PowerLoss(keep)]))
  }

  /** The promise holds for all runs and all power losses if and only if the mode fsyncs, for every segment cap. */
  lemma DurableIff(cfg: Config)
    ensures (forall steps, keep :: Promise(cfg, steps, keep)) <==> cfg.mode != NoSync
  {
    if cfg.mode != NoSync {
      forall steps, keep ensures Promise(cfg, steps, keep) {
        hide Run, Recovered, KillsClean, Survivable;
        if KillsClean(cfg, steps) && Survivable(Run(cfg, EMPTY, steps), keep) {
          Durability(cfg, steps, keep);
        }
      }
    } else {
      NoSyncBreaksPromise(cfg, Record(0, 0, [], [], 0, 0));
    }
  }

  lemma NoSyncBreaksPromise(cfg: Config, a: Record)
    requires cfg.mode == NoSync && Encodable(a.(msgID := 0))
    ensures !Promise(cfg, [Append(a, OK)], [0])
  {
    hide Run, Encodable, Survivable, Retained;
    var steps := [Append(a, OK)];
    NoSyncLoses(cfg, a);
    RunMore(cfg, steps, PowerLoss([0]));
  }

  lemma RunMore(cfg: Config, steps: seq<Step>, step: Step)
    ensures Run(cfg, EMPTY, steps + [step]) == Next(cfg, Run(cfg, EMPTY, steps), step)
  {
    hide Next;
    assert (steps + [step])[..|steps|] == steps;
  }

  /**
   * Nor is a sealed segment durable then: at every cap b does not fit under, a power loss can keep the
   * log from opening.
   */
  lemma NoSyncIsNotDurable(cap: nat, a: Record, b: Record)
    requires Encodable(a.(msgID := 0)) && Encodable(b.(msgID := 1)) && 0 < cap < Size(a) + Size(b)
    ensures var cfg := Config(NoSync, cap);
            var s := Run(cfg, EMPTY, [Append(a, OK), Append(b, OK)]);
            a.(msgID := 0) in s.acked && exists keep :: Survivable(s, keep) && Next(cfg, s, PowerLoss(keep)).down
  {
    hide AppendStep, Encodable;
    var cfg := Config(NoSync, cap);
    var s1 := AppendStep(cfg, EMPTY, a, OK);
    FirstAppend(cfg, EMPTY, a, OK);
    SealedUnsyncedFailsToOpen(cfg, s1, a.(msgID := 0), b);
    RunTwo(cfg, Append(a, OK), Append(b, OK));
    var s2 := AppendStep(cfg, s1, b, OK);
    var keep := [1, Len(s2.files[1].recs)];
    assert Survivable(s2, keep) && Next(cfg, s2, PowerLoss(keep)).down;
  }

  /** A killed process reopens its unsynced tail as committed. */
  lemma KillPublishesUnsynced(cfg: Config, s: State, r: Record)
    requires !s.down && s.first == 0 && s.files == [Segment(0, 0, 0, r.tsNs, r.visibleAtNs, [r], 0)] && r.msgID == 0
    ensures Unsynced(KillStep(s), r)
  {
    var m := CachedAll(s);
    assert |m| == 1 && m[0] == Image(0, [r], 0, false);
    assert MaxTs([r]) == r.tsNs && MaxVis([r]) == r.visibleAtNs by { assert [r][..0] == []; }
    assert Len([r]) == Size(r) by { assert [r][..0] == []; }
    assert KillStep(s).files[0] == Rebuilt(m, 0);
  }

  /**
   * In the durable modes, at every cap b does not fit under, a kill between write and fsync breaks the
   * durability promise: the next rotation seals the unsynced bytes, and a later power loss can keep the
   * log from opening even though an Append after the kill succeeded.
   */
  lemma KillBreaksDurability(mode: SyncMode, cap: nat, a: Record, b: Record)
    requires mode != NoSync && Encodable(a.(msgID := 0)) && Encodable(b.(msgID := 1)) && 0 < cap < Size(a) + Size(b)
    ensures var cfg := Config(mode, cap);
            var s := Run(cfg, EMPTY, [Append(a, SYNC_FAILS), Kill, Append(b, OK)]);
            && (mode == PerMessage ==> b.(msgID := 1) in s.acked)
            && exists keep :: Survivable(s, keep) && Next(cfg, s, PowerLoss(keep)).down
  {
    hide AppendStep, KillStep, Encodable;
    var cfg := Config(mode, cap);
    var s1 := AppendStep(cfg, EMPTY, a, SYNC_FAILS);
    FirstAppend(cfg, EMPTY, a, SYNC_FAILS);
    KillPublishesUnsynced(cfg, s1, a.(msgID := 0));
    var s2 := KillStep(s1);
    SealedUnsyncedFailsToOpen(cfg, s2, a.(msgID := 0), b);
    var steps := [Append(a, SYNC_FAILS), Kill, Append(b, OK)];
    RunTwo(cfg, Append(a, SYNC_FAILS), Kill);
    assert steps[..2] == [Append(a, SYNC_FAILS), Kill];
    var s3 := AppendStep(cfg, s2, b, OK);
    var keep := [1, Len(s3.files[1].recs)];
    assert Survivable(s3, keep) && Next(cfg, s3, PowerLoss(keep)).down;
  }

  /** Each step of a run, one at a time. */
  lemma RunOne(cfg: Config, s: State, steps: seq<Step>, i: nat)
    requires i < |steps|
    ensures Run(cfg, s, steps[..i + 1]) == Next(cfg, Run(cfg, s, steps[..i]), steps[i])
  {
    hide Next;
    assert steps[..i + 1][..i] == steps[..i];
  }

  /** a durable, then b in a fresh segment whose fsync failed. */
  lemma SecondSegment(cfg: Config, s: State, a: Record, b: Record)
    requires var r := a.(msgID := 0); Encodable(r) && cfg.mode == PerMessage && s == AppendStep(cfg, EMPTY, a, OK)
    requires Encodable(b.(msgID := 1)) && 0 < cfg.segmentBytes < Size(a) + Size(b)
    ensures var t := AppendStep(cfg, s, b, SYNC_FAILS);
            && !s.down && !t.down && t.first == 0 && |t.files| == 2 && a.(msgID := 0) in t.acked
            && t.files[0].index == 0 && t.files[1] == Segment(1, 1, Size(a), b.tsNs, b.visibleAtNs, [b.(msgID := 1)], 0)
  {
    hide AppendStep;
    DurableFirst(cfg, s, a);
    UnsyncedSecond(cfg, s, a.(msgID := 0), b);
  }

  lemma DurableFirst(cfg: Config, s: State, a: Record)
    requires var r := a.(msgID := 0); Encodable(r) && cfg.mode == PerMessage && s == AppendStep(cfg, EMPTY, a, OK)
    ensures var r := a.(msgID := 0);
            && !s.down && s.first == 0 && s.next == 1 && s.written == s.committed == Size(r) && r in s.acked
            && s.files == [Segment(0, 0, 0, r.tsNs, r.visibleAtNs, [r], Len([r]))]
  {
    hide Encodable, AppendStep, WriteActive, Size, Len;
    FirstStep(cfg, a, OK);
    var r := a.(msgID := 0);
    assert s.files == [Segment(0, 0, 0, r.tsNs, r.visibleAtNs, [r], Len([r]))];
  }

  lemma UnsyncedSecond(cfg: Config, s: State, r: Record, b: Record)
    requires cfg.mode == PerMessage && 0 < cfg.segmentBytes < Size(r) + Size(b)
    requires !s.down && s.first == 0 && s.next == 1 && s.written == s.committed == Size(r) && r in s.acked
    requires s.files == [Segment(0, 0, 0, r.tsNs, r.visibleAtNs, [r], Len([r]))] && Encodable(b.(msgID := 1))
    ensures var t := AppendStep(cfg, s, b, SYNC_FAILS);
            && !t.down && t.first == 0 && |t.files| == 2 && r in t.acked
            && t.files[0].index == 0 && t.files[1] == Segment(1, 1, Size(r), b.tsNs, b.visibleAtNs, [b.(msgID := 1)], 0)
  {
    hide Len;
    var r' := b.(msgID := 1);
    assert [] + [r'] == [r'];
    assert MustRotate(cfg, s, r');
  }

  /**
   * Retention can leave nothing but a segment whose only record is not yet durable; a power loss
   * then restarts MsgIDs at zero, under offsets that were acked before.
   */
  lemma MsgIDsCanStartOver(cap: nat, a: Record, b: Record)
    requires Encodable(a.(msgID := 0)) && Encodable(b.(msgID := 1)) && 0 < cap < Size(a) + Size(b)
    ensures var cfg := Config(PerMessage, cap);
            var s := Run(cfg, EMPTY, [Append(a, OK), Append(b, SYNC_FAILS), Drop(1)]);
            var t := Next(cfg, s, PowerLoss([0]));
            Survivable(s, [0]) && a.(msgID := 0) in s.acked && Floor(s) == 1 && t.next == 0 && Floor(t) == 0
  {
    hide AppendStep, Run, Encodable;
    var cfg := Config(PerMessage, cap);
    var steps := [Append(a, OK), Append(b, SYNC_FAILS), Drop(1)];
    assert steps[..2] == [Append(a, OK), Append(b, SYNC_FAILS)] && steps[..3] == steps;
    RunTwo(cfg, Append(a, OK), Append(b, SYNC_FAILS));
    RunOne(cfg, EMPTY, steps, 2);
    var s1 := AppendStep(cfg, EMPTY, a, OK);
    SecondSegment(cfg, s1, a, b);
    var s2 := AppendStep(cfg, s1, b, SYNC_FAILS);
    assert DropTo(s2.files, 0, 1) == 1;
    StartsOver(DropStep(s2, 1), s2.files[1]);
  }

  lemma StartsOver(s: State, g: Segment)
    requires !s.down && s.first == |s.files| - 1 && s.files[s.first] == g && |g.recs| == 1 && g.durable == 0
    ensures Survivable(s, [0]) && PowerLossStep(s, [0]).next == 0 && Floor(PowerLossStep(s, [0])) == 0
  {
    WholeIsMaximal(g.recs, 0);
    assert g.recs[..1] == g.recs;
    var m := CutAll(s, [0]);
    assert m[0].recs == [];
    assert NextAfter(m, 0) == None;
  }
}
