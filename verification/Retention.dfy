/** The retention sweep (internal/broker/retention.go, internal/wal/retention.go). */
module Retention {
  import opened Bytes
  import opened Codec
  import opened Stream
  import opened Wal
  import opened WalSafety
  import opened WalTheorems
  import opened WalShape
  import opened Reader

  datatype SegmentInfo = SegmentInfo(index: nat, bytes: nat, maxTs: nat, maxVis: nat, active: bool)

  /** retainBytes == 0 and retainDur <= 0 disable their policy; now and retainDur are nanoseconds. */
  datatype Policy = Policy(retainBytes: nat, retainDur: int, now: int)

  /** uint64(now.UnixNano()) and uint64(now.Add(-retainDur).UnixNano()). */
  function NowNs(p: Policy): nat { p.now % U64 }

  function Cutoff(p: Policy): nat { (p.now - p.retainDur) % U64 }

  function SumFrom(segs: seq<SegmentInfo>, i: nat): nat
    requires i <= |segs|
    decreases |segs| - i
  {
    if i == |segs| then 0 else segs[i].bytes + SumFrom(segs, i + 1)
  }

  /** Oldest first, indices increasing, only the last one active: what SegmentInfos returns. */
  ghost predicate Snapshot(segs: seq<SegmentInfo>) {
    && segs != []
    && (forall i, j :: 0 <= i < j < |segs| ==> segs[i].index < segs[j].index)
    && (forall i :: 0 <= i < |segs| ==> (segs[i].active <==> i == |segs| - 1))
  }

  /** Everything from segs[i] to the newest is over budget. */
  ghost predicate OverBudget(p: Policy, segs: seq<SegmentInfo>, i: nat)
    requires i < |segs|
  {
    p.retainBytes > 0 && SumFrom(segs, i) > p.retainBytes
  }

  predicate Old(p: Policy, g: SegmentInfo) { g.maxTs != 0 && g.maxTs < Cutoff(p) }

  ghost predicate Expired(p: Policy, segs: seq<SegmentInfo>, i: nat)
    requires i < |segs|
  {
    p.retainDur > 0 && forall j :: 0 <= j <= i ==> Old(p, segs[j])
  }

  /** segs[i] or something older holds a delayed record that has not fired. */
  ghost predicate Guarded(p: Policy, segs: seq<SegmentInfo>, i: nat)
    requires i < |segs|
  {
    exists j :: 0 <= j <= i && segs[j].maxVis > NowNs(p)
  }

  /** keep drops exactly the sealed segments one policy evicts and no pending delay protects. */
  ghost predicate Decides(p: Policy, segs: seq<SegmentInfo>, keep: nat) {
    forall i :: 0 <= i < |segs| ==>
      (segs[i].index < keep <==>
       i < |segs| - 1 && (OverBudget(p, segs, i) || Expired(p, segs, i)) && !Guarded(p, segs, i))
  }

  lemma {:induction false} SumMonotone(segs: seq<SegmentInfo>, i: nat, j: nat)
    requires i <= j <= |segs|
    ensures SumFrom(segs, j) <= SumFrom(segs, i)
    decreases j - i
  {
    if i < j { SumMonotone(segs, i + 1, j); }
  }

  method KeepIndexByBytes(p: Policy, segs: seq<SegmentInfo>) returns (keep: nat)
    requires Snapshot(segs)
    ensures forall i :: 0 <= i < |segs| ==> (segs[i].index < keep <==> i < |segs| - 1 && OverBudget(p, segs, i))
    ensures exists i :: 0 <= i < |segs| && keep == segs[i].index
  {
    var n := |segs|;
    if p.retainBytes == 0 {
      return segs[0].index;
    }
    var keepFrom := n - 1;
    var total: nat := 0;
    var i := n;
    while i > 0
      invariant 0 <= i <= n && total == SumFrom(segs, i)
      invariant i == n ==> keepFrom == n - 1
      invariant i < n ==> keepFrom == i && total <= p.retainBytes
    {
      total := total + segs[i - 1].bytes;
      if total > p.retainBytes {
        break;
      }
      i := i - 1;
      keepFrom := i;
    }
    forall k | 0 <= k < n ensures segs[k].index < segs[keepFrom].index <==> k < n - 1 && OverBudget(p, segs, k) {
      if i > 0 && k <= i - 1 { SumMonotone(segs, k, i - 1); }
      if k >= i { SumMonotone(segs, i, k); }
      if k < keepFrom { assert segs[k].index < segs[keepFrom].index; }
      if k > keepFrom { assert segs[keepFrom].index < segs[k].index; }
    }
    return segs[keepFrom].index;
  }

  method KeepIndexByAge(p: Policy, segs: seq<SegmentInfo>) returns (keep: nat)
    requires Snapshot(segs)
    ensures forall i :: 0 <= i < |segs| ==> (segs[i].index < keep <==> i < |segs| - 1 && Expired(p, segs, i))
    ensures exists i :: 0 <= i < |segs| && keep == segs[i].index
  {
    if p.retainDur <= 0 {
      return segs[0].index;
    }
    var n := |segs|;
    var keepFrom := n - 1;
    var i := 0;
    while i < n
      invariant 0 <= i <= n - 1 && keepFrom == n - 1
      invariant forall j :: 0 <= j < i ==> Old(p, segs[j])
    {
      if segs[i].active {
        break;
      }
      if segs[i].maxTs == 0 || segs[i].maxTs >= Cutoff(p) {
        keepFrom := i;
        break;
      }
      i := i + 1;
    }
    forall k | 0 <= k < n ensures segs[k].index < segs[keepFrom].index <==> k < n - 1 && Expired(p, segs, k) {
      if k < keepFrom { assert segs[k].index < segs[keepFrom].index; }
      if k > keepFrom { assert segs[keepFrom].index < segs[k].index; }
      if keepFrom <= k < n - 1 { assert !Old(p, segs[keepFrom]); }
    }
    return segs[keepFrom].index;
  }

  method OldestUnfiredDelay(p: Policy, segs: seq<SegmentInfo>) returns (r: Option<nat>)
    requires Snapshot(segs)
    ensures forall i :: 0 <= i < |segs| ==> (Guarded(p, segs, i) <==> r.Some? && r.value <= segs[i].index)
  {
    for i := 0 to |segs|
      invariant forall j :: 0 <= j < i ==> segs[j].maxVis <= NowNs(p)
    {
      if segs[i].maxVis > NowNs(p) {
        return Some(segs[i].index);
      }
    }
    return None;
  }

  /** A segment goes if either policy evicts it, it is sealed, and no unfired delay is in it or behind it. */
  method RetentionKeepIndex(p: Policy, segs: seq<SegmentInfo>) returns (keep: nat, drop: bool)
    requires segs == [] || Snapshot(segs)
    ensures drop ==> segs != [] && Decides(p, segs, keep)
    ensures drop <==>
              && segs != [] && |segs| > 1
              && (OverBudget(p, segs, 0) || Expired(p, segs, 0)) && !Guarded(p, segs, 0)
  {
    hide OverBudget, Expired, Guarded;
    if segs == [] {
      return 0, false;
    }
    var activeIdx := segs[|segs| - 1].index;
    keep := KeepIndexByBytes(p, segs);
    var ageFloor := KeepIndexByAge(p, segs);
    if ageFloor > keep {
      keep := ageFloor;
    }
    if keep > activeIdx {
      keep := activeIdx;
    }
    var delay := OldestUnfiredDelay(p, segs);
    if delay.Some? && delay.value < keep {
      keep := delay.value;
    }
    drop := keep > segs[0].index;
  }

  // ---- The sweep against a log that has moved on ----

  function InfoAt(s: State, i: nat): SegmentInfo
    requires i < |s.files|
  {
    var (len, active) := ReadableLen(s, i);
    SegmentInfo(s.files[i].index, if len >= 0 then len else 0, s.files[i].maxTs, s.files[i].maxVis, active)
  }

  function SegmentInfos(s: State): (segs: seq<SegmentInfo>)
    ensures |segs| == |s.files| - s.first
  {
    seq(|s.files| - s.first, i requires 0 <= i < |s.files| - s.first => InfoAt(s, s.first + i))
  }

  lemma SegmentInfosIsSnapshot(cfg: Config, s: State)
    requires Inv(cfg, s)
    ensures Snapshot(SegmentInfos(s))
  {
    hide Inv, ReadableLen;
    var segs := SegmentInfos(s);
    assert forall i :: 0 <= i < |segs| ==> segs[i] == InfoAt(s, s.first + i);
    forall i, j | 0 <= i < j < |segs| ensures segs[i].index < segs[j].index {
      InvHistory(cfg, s);
      BasesOrdered(cfg, s.files, s.first + i, s.first + j);
    }
    forall i | 0 <= i < |segs| ensures segs[i].active <==> i == |segs| - 1 { ReadableLenIs(cfg, s, s.first + i); }
  }

  lemma {:induction false} DropToExact(cfg: Config, s: State, i: nat, keep: nat)
    requires Inv(cfg, s) && i < |s.files|
    ensures var j := DropTo(s.files, i, keep);
            forall k :: i <= k < |s.files| - 1 ==> (k < j <==> s.files[k].index < keep)
    decreases |s.files| - i
  {
    if i < |s.files| - 1 {
      if s.files[i].index < keep { DropToExact(cfg, s, i + 1, keep); }
      else {
        forall k | i < k < |s.files| - 1 ensures s.files[k].index >= keep { BasesOrdered(cfg, s.files, i, k); }
      }
    }
  }

  lemma {:induction false} MaxBounds(rs: seq<Record>, k: nat)
    requires k < |rs|
    ensures rs[k].tsNs <= MaxTs(rs) && rs[k].visibleAtNs <= MaxVis(rs)
  {
    if k < |rs| - 1 { MaxBounds(rs[..|rs| - 1], k); }
  }

  lemma {:induction false} RunExtends(cfg: Config, s: State, steps: seq<Step>)
    requires Shape(cfg, s) && forall i :: 0 <= i < |steps| ==> !Crash(steps[i])
    ensures var t := Run(cfg, s, steps); Shape(cfg, t) && Extends(AsIf(s, {}), AsIf(t, {}))
  {
    hide Shape, Next, Extends, AsIf;
    if steps == [] {
      ExtendsReflexive(AsIf(s, {}));
    } else {
      var n := |steps| - 1;
      RunExtends(cfg, s, steps[..n]);
      var t := Run(cfg, s, steps[..n]);
      StepShapes(cfg, t, steps[n]);
      ExtendsTransitive(AsIf(s, {}), AsIf(t, {}), AsIf(Run(cfg, s, steps), {}));
    }
  }

  /**
   * files[j] was rightly dropped at sweep time: sealed in the snapshot, evicted by a policy, and nothing
   * in it was waiting to fire.
   */
  ghost predicate RightlyDropped(p: Policy, s: State, t: State, j: nat) {
    && s.first <= j < |s.files| - 1 && j < |t.files| && t.files[j].recs == s.files[j].recs
    && (forall k :: 0 <= k < |t.files[j].recs| ==> t.files[j].recs[k].visibleAtNs <= NowNs(p))
    && (OverBudget(p, SegmentInfos(s), j - s.first)
        || (p.retainDur > 0 && forall k :: 0 <= k < |t.files[j].recs| ==> t.files[j].recs[k].tsNs < Cutoff(p)))
  }

  lemma DroppedRightly(cfg: Config, p: Policy, s: State, t: State, keep: nat, j: nat)
    requires Inv(cfg, s) && Inv(cfg, t) && Extends(s, t) && Decides(p, SegmentInfos(s), keep)
    requires t.first <= j < DropStep(t, keep).first
    ensures RightlyDropped(p, s, t, j)
  {
    hide HistoryOk, FlushOk, TailOk, CommittedOk, MaxTs, MaxVis, ReadableLen, SumFrom, FilesOk, Len;
    DropToExact(cfg, t, t.first, keep);
    var segs := SegmentInfos(s);
    InSnapshot(cfg, p, s, t, keep, j);
    var i := j - s.first;
    assert segs[i] == InfoAt(s, j) && segs[i].index < keep;
    SealedUnchanged(cfg, s, t, j);
    SegmentAt(cfg, s.files, j);
    forall k | 0 <= k < |s.files[j].recs|
      ensures s.files[j].recs[k].tsNs <= segs[i].maxTs && s.files[j].recs[k].visibleAtNs <= segs[i].maxVis
    {
      MaxBounds(s.files[j].recs, k);
    }
  }

  lemma InSnapshot(cfg: Config, p: Policy, s: State, t: State, keep: nat, j: nat)
    requires Inv(cfg, s) && Inv(cfg, t) && Extends(s, t) && Decides(p, SegmentInfos(s), keep)
    requires t.first <= j < |t.files| && t.files[j].index < keep
    ensures s.first <= j < |s.files| - 1 && s.files[j].index < keep
  {
    hide HistoryOk, FlushOk, TailOk, CommittedOk, ReadableLen, SumFrom, FilesOk;
    var segs := SegmentInfos(s);
    var last := |s.files| - 1;
    assert segs[last - s.first] == InfoAt(s, last);
    assert s.files[last].index >= keep;
    assert Grown(s.files[last], t.files[last]);
    if j > last { BasesOrdered(cfg, t.files, last, j); }
    if j <= last { assert Grown(s.files[j], t.files[j]); }
  }

  lemma InfosAsIf(s: State)
    ensures SegmentInfos(AsIf(s, {})) == SegmentInfos(s)
  {
    hide ReadableLen, Len;
    var segs, segs' := SegmentInfos(s), SegmentInfos(AsIf(s, {}));
    forall i | 0 <= i < |segs| ensures segs'[i] == segs[i] {
      ReadableAsIf(s, s.first + i);
      assert segs'[i] == InfoAt(AsIf(s, {}), s.first + i) && segs[i] == InfoAt(s, s.first + i);
    }
  }

  lemma RightlyAsIf(p: Policy, s: State, t: State, j: nat)
    requires RightlyDropped(p, AsIf(s, {}), AsIf(t, {}), j)
    ensures RightlyDropped(p, s, t, j)
  {
    hide SegmentInfos, OverBudget, Len;
    InfosAsIf(s);
    assert AsIf(t, {}).files[j].recs == t.files[j].recs && AsIf(s, {}).files[j].recs == s.files[j].recs;
  }

  lemma DropAsIf(t: State, keep: nat)
    ensures DropStep(AsIf(t, {}), keep).first == DropStep(t, keep).first
  {
    hide AllFsynced, RecordsIn;
    AsIfAlike(t, {});
    DropToAlike(t.files, AsIf(t, {}).files, t.first, keep);
  }

  /**
   * In every sync mode, a drop decided from a snapshot, however far appends, rotations and other drops have
   * overtaken it: the active segment stays, exactly the retained segments below the decided index go, and
   * each of them was rightly dropped.
   */
  lemma StaleSweepIsSafe(cfg: Config, before: seq<Step>, between: seq<Step>, p: Policy, keep: nat)
    requires SealsSurvive(cfg, before) && (forall i :: 0 <= i < |between| ==> !Crash(between[i]))
    requires Decides(p, SegmentInfos(Run(cfg, EMPTY, before)), keep)
    ensures var s := Run(cfg, EMPTY, before);
            var t := Run(cfg, s, between);
            var u := DropStep(t, keep);
            && t.first <= u.first < |u.files| && u.files == t.files
            && (forall j :: t.first <= j < |t.files| - 1 ==> (j < u.first <==> t.files[j].index < keep))
            && (forall j :: t.first <= j < u.first ==> RightlyDropped(p, s, t, j))
  {
    hide Inv, Run, RightlyDropped, Decides, Next, SegmentInfos, Extends, SealsSurvive, Len;
    var s := Run(cfg, EMPTY, before);
    var t := Run(cfg, s, between);
    var c, a, b := Fsyncing(cfg), AsIf(s, {}), AsIf(t, {});
    RunShapes(cfg, before);
    RunExtends(cfg, s, between);
    InfosAsIf(s);
    DropAsIf(t, keep);
    DropToExact(c, b, b.first, keep);
    forall j | t.first <= j < DropStep(t, keep).first ensures RightlyDropped(p, s, t, j) {
      DroppedRightly(c, p, a, b, keep, j);
      RightlyAsIf(p, s, t, j);
    }
  }
}
