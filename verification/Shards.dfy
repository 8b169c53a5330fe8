/** One partition under replay: its WAL with nothing dropped, and its dedupe index. */
module Shards {
  import opened Codec
  import opened Stream
  import opened Wal
  import opened WalSafety
  import opened WalTheorems
  import opened ReplaySpec
  import Dedupe

  datatype Shard = Shard(log: State, lru: seq<Dedupe.Entry>)

  /** A log no retention sweep has touched. */
  ghost predicate LogSound(cfg: Config, s: State) { Inv(cfg, s) && s.first == 0 && Floor(s) == 0 }

  /** No fsync of the committer has failed. */
  predicate NoErrors(s: State) { !s.commitErr && (s.flush.Synced? ==> s.flush.ok) }

  ghost predicate LogOk(cfg: Config, s: State) { LogSound(cfg, s) && NoErrors(s) }

  /** Everything written is committed. */
  predicate Settled(s: State) { s.committed == s.written }

  /** Every byte but those of the last record is committed. */
  predicate NearlySettled(s: State) {
    Active(s).recs != [] && s.committed + Size(Active(s).recs[|Active(s).recs| - 1]) >= s.written
  }

  // ---- What each step does to the records ----

  lemma LogDense(cfg: Config, s: State)
    requires LogSound(cfg, s)
    ensures s.next == |Retained(s)|
    ensures forall i :: 0 <= i < |Retained(s)| ==> Retained(s)[i].msgID == i
  {
    hide Inv, Retained;
    NextIsDense(cfg, s);
  }

  lemma RetainedLast(s: State)
    requires s.first == 0
    ensures Retained(s) == Concat(s.files, 0, |s.files| - 1) + Active(s).recs
  {
  }

  lemma {:induction false} ConcatPrefix(a: seq<Segment>, b: seq<Segment>, n: nat)
    requires n <= |a| && n <= |b| && forall i :: 0 <= i < n ==> a[i].recs == b[i].recs
    ensures Concat(a, 0, n) == Concat(b, 0, n)
  {
    ConcatSame(a, 0, b, n);
  }

  /** The fields a step of the appender leaves alone. */
  predicate SameErrors(s: State, t: State) { t.commitErr == s.commitErr && t.flush == s.flush && t.first == s.first }

  lemma RotateRetains(s: State, io: Io)
    requires s.first == 0
    ensures var (t, ok) := Rotate(s, io);
            && Retained(t) == Retained(s) && SameErrors(s, t) && t.next == s.next && t.written == s.written
            && (Settled(s) ==> Settled(t)) && (io == OK ==> ok)
  {
    hide Len;
    var (t, ok) := Rotate(s, io);
    var n := |s.files|;
    ConcatPrefix(s.files, t.files, n);
    if |t.files| > n {
      RetainedLast(t);
      assert Active(t).recs == [];
      assert Concat(t.files, 0, n) + [] == Concat(t.files, 0, n);
    }
  }

  lemma WriteRetains(s: State, r: Record)
    requires s.first == 0
    ensures var t := WriteActive(s, r);
            && Retained(t) == Retained(s) + [r] && SameErrors(s, t) && t.written == s.written + Size(r)
            && t.committed == s.committed && Active(t).recs != [] && Active(t).recs[|Active(t).recs| - 1] == r
  {
    var t := WriteActive(s, r);
    RetainedLast(s);
    RetainedLast(t);
    ConcatPrefix(s.files, t.files, |s.files| - 1);
  }

  lemma FenceRetains(cfg: Config, s: State, r: Record, sync: bool)
    requires s.first == 0 && cfg.mode != NoSync
    ensures var t := Fence(cfg, s, r, sync);
            && Retained(t) == Retained(s) && SameErrors(s, t)
            && t.written == s.written && Active(t).recs == Active(s).recs
            && (t.committed == s.committed || Settled(t))
            && (cfg.mode == PerMessage && sync ==> Settled(t)) && (cfg.mode == Batched ==> (r, t.written) in t.pending)
  {
    hide Len;
    var t := Fence(cfg, s, r, sync);
    RetainedLast(s);
    RetainedLast(t);
    ConcatPrefix(s.files, t.files, |s.files| - 1);
  }

  /** What an append leaves of a settled log, wherever its system calls stop. */
  ghost predicate Appended(s: State, t: State, r: Record) {
    || (Retained(t) == Retained(s) && (Settled(s) ==> Settled(t)))
    || (Retained(t) == Retained(s) + [r] && (Settled(s) ==> NearlySettled(t)))
  }

  lemma AppendGrows(cfg: Config, s: State, rec: Record, io: Io)
    requires LogSound(cfg, s) && cfg.mode != NoSync && |Retained(s)| < U64
    ensures var t := AppendStep(cfg, s, rec, io);
            LogSound(cfg, t) && SameErrors(s, t) && Appended(s, t, rec.(msgID := |Retained(s)|))
  {
    hide Inv, Rotate, WriteActive, Fence, Retained, Encodable, MustRotate, Extends, Floor;
    LogDense(cfg, s);
    AppendKeeps(cfg, s, rec, io);
    var r := rec.(msgID := s.next);
    var t := AppendStep(cfg, s, rec, io);
    RotateRetains(s, io);
    var s1 := if MustRotate(cfg, s, r) then Rotate(s, io).0 else s;
    WriteRetains(s1, r);
    FenceRetains(cfg, WriteActive(s1, r), r, io.sync);
    FloorStays(s, t);
  }

  /** An append that the file system lets through adds exactly its record, whatever failed before it. */
  lemma AppendWrites(cfg: Config, s: State, rec: Record)
    requires LogSound(cfg, s) && cfg.mode != NoSync && |Retained(s)| < U64 && Encodable(rec.(msgID := |Retained(s)|))
    ensures var t := AppendStep(cfg, s, rec, OK);
            var r := rec.(msgID := |Retained(s)|);
            && LogSound(cfg, t) && SameErrors(s, t) && Retained(t) == Retained(s) + [r]
            && (Settled(s) ==> NearlySettled(t))
            && (if cfg.mode == PerMessage then Settled(t) else (r, t.written) in t.pending)
  {
    hide Inv, Rotate, WriteActive, Fence, Retained, Encodable, MustRotate, Floor;
    LogDense(cfg, s);
    AppendGrows(cfg, s, rec, OK);
    var r := rec.(msgID := s.next);
    var t := AppendStep(cfg, s, rec, OK);
    RotateRetains(s, OK);
    var s1 := if MustRotate(cfg, s, r) then Rotate(s, OK).0 else s;
    WriteRetains(s1, r);
    FenceRetains(cfg, WriteActive(s1, r), r, true);
    assert t == Fence(cfg, WriteActive(s1, r), r, true);
  }

  lemma AppendAdds(cfg: Config, s: State, rec: Record)
    requires LogOk(cfg, s) && cfg.mode != NoSync && Settled(s)
    requires |Retained(s)| < U64 && Encodable(rec.(msgID := |Retained(s)|))
    ensures var t := AppendStep(cfg, s, rec, OK);
            var r := rec.(msgID := |Retained(s)|);
            && LogOk(cfg, t) && Retained(t) == Retained(s) + [r]
            && (if cfg.mode == PerMessage then Settled(t) else NearlySettled(t) && (r, t.written) in t.pending)
  {
    hide LogSound, AppendStep, Retained, Encodable, Settled, NearlySettled;
    AppendWrites(cfg, s, rec);
  }

  lemma FloorStays(s: State, t: State)
    requires Extends(s, t) && s.first == t.first
    ensures Floor(t) == Floor(s)
  {
    assert Grown(s.files[s.first], t.files[s.first]);
  }

  lemma CommitGrows(s: State, t: State)
    requires Extends(s, t)
    ensures s.committed <= t.committed
  {
  }

  lemma AppendRefused(cfg: Config, s: State, rec: Record, io: Io)
    requires LogSound(cfg, s) && (|Retained(s)| >= U64 || !Encodable(rec.(msgID := |Retained(s)|)))
    ensures AppendStep(cfg, s, rec, io) == s
  {
    hide Inv, Retained, Encodable;
    LogDense(cfg, s);
  }

  lemma CommittedBound(cfg: Config, s: State)
    requires Inv(cfg, s)
    ensures s.committed <= s.written
  {
    hide FilesOk, HistoryOk, FlushOk, Boundary;
    SegmentAt(cfg, s.files, |s.files| - 1);
  }

  /** The steps of the background committer and an appender's return. */
  predicate Background(step: Wal.Step) { step.FlushSnap? || step.FlushSync? || step.FlushPublish? || step.Return? }

  /** The same with fsyncs that succeed. */
  predicate Quiet(step: Wal.Step) { Background(step) && (step.FlushSync? ==> step.ok) }

  lemma BackgroundFiles(cfg: Config, s: State, step: Wal.Step)
    requires Background(step)
    ensures var t := Wal.Next(cfg, s, step);
            && |t.files| == |s.files| && t.first == s.first && t.written == s.written
            && (forall i :: 0 <= i < |s.files| ==> t.files[i].recs == s.files[i].recs)
            && (!step.Return? ==> t.pending == s.pending)
  {
    hide Len;
  }

  lemma QuietHasNoErrors(cfg: Config, s: State, step: Wal.Step)
    requires LogOk(cfg, s) && Quiet(step)
    ensures NoErrors(Wal.Next(cfg, s, step))
  {
    hide FilesOk, HistoryOk, TailOk, CommittedOk, Len;
    assert FlushOk(s);
  }

  lemma BackgroundRetains(cfg: Config, s: State, step: Wal.Step)
    requires LogSound(cfg, s) && cfg.mode != NoSync && Background(step)
    ensures var t := Wal.Next(cfg, s, step); LogSound(cfg, t) && Retained(t) == Retained(s)
  {
    hide Inv, Wal.Next, Extends, Floor;
    var t := Wal.Next(cfg, s, step);
    StepKeeps(cfg, s, step);
    BackgroundFiles(cfg, s, step);
    ConcatPrefix(s.files, t.files, |s.files|);
    FloorStays(s, t);
  }

  lemma QuietRetains(cfg: Config, s: State, step: Wal.Step)
    requires LogOk(cfg, s) && cfg.mode != NoSync && Quiet(step)
    ensures var t := Wal.Next(cfg, s, step);
            && LogOk(cfg, t) && Retained(t) == Retained(s) && t.written == s.written
            && (Settled(s) ==> Settled(t)) && (NearlySettled(s) ==> NearlySettled(t))
            && (!step.Return? ==> t.pending == s.pending)
  {
    hide Inv, Wal.Next, Extends, Floor, Retained;
    var t := Wal.Next(cfg, s, step);
    BackgroundRetains(cfg, s, step);
    BackgroundFiles(cfg, s, step);
    QuietHasNoErrors(cfg, s, step);
    StepKeeps(cfg, s, step);
    CommitGrows(s, t);
    CommittedBound(cfg, t);
    CommittedBound(cfg, s);
  }

  // ---- Power loss ----

  lemma SurvivesUpTo(cfg: Config, s: State, keep: seq<nat>, c: nat)
    requires LogSound(cfg, s) && Survivable(s, keep) && c <= |Active(s).recs|
    requires Active(s).baseOff + Len(Active(s).recs[..c]) <= s.committed
    ensures |Active(PowerLossStep(s, keep)).recs| >= c
  {
    hide HistoryOk, FlushOk, FilesOk, TailOk, MaxTs, MaxVis, NextAfter, LenBefore, Whole, Len, Boundary;
    var t, m, n := PowerLossStep(s, keep), CutAll(s, keep), |keep|;
    assert Active(t) == Rebuilt(m, n - 1);
    assert m[n - 1] == Cut(Active(s), keep[n - 1]);
    FitsWhole(Active(s).recs, keep[n - 1], c);
    WholeIsMaximal(Active(s).recs, keep[n - 1]);
  }

  lemma ReopenedSettled(s: State, keep: seq<nat>)
    requires Survivable(s, keep)
    ensures var t := PowerLossStep(s, keep); Settled(t) && NoErrors(t) && t.first == 0
  {
  }

  /** Whatever failed before, recovery gives a sound log with everything committed and a prefix of the records. */
  lemma CrashSound(cfg: Config, s: State, keep: seq<nat>)
    requires LogSound(cfg, s) && Survivable(s, keep)
    ensures var t := PowerLossStep(s, keep); LogOk(cfg, t) && Settled(t) && Retained(t) <= Retained(s)
  {
    hide PowerLossStep, Survivable, Inv, Retained, Floor, Settled, NoErrors;
    var t := PowerLossStep(s, keep);
    PowerLossRecovers(cfg, s, keep);
    ReopenedSettled(s, keep);
    NextIsDense(cfg, t);
  }

  /** How the recovered records end, given how the active segment's end. */
  lemma CrashTail(cfg: Config, s: State, keep: seq<nat>, c: nat)
    requires LogSound(cfg, s) && Survivable(s, keep) && c <= |Active(s).recs| <= |Retained(s)|
    requires Active(s).baseOff + Len(Active(s).recs[..c]) <= s.committed
    ensures |Retained(PowerLossStep(s, keep))| >= |Retained(s)| - |Active(s).recs| + c
  {
    hide PowerLossStep, Survivable, Inv, Retained, Concat, Len, Floor;
    var t := PowerLossStep(s, keep);
    SurvivesUpTo(cfg, s, keep, c);
    PowerLossFiles(cfg, s, keep);
    RetainedLast(s);
    RetainedLast(t);
    ConcatSame(s.files, 0, t.files, |s.files| - 1);
  }

  lemma CrashWhole(cfg: Config, s: State, keep: seq<nat>)
    requires LogSound(cfg, s) && Survivable(s, keep) && Settled(s)
    ensures Retained(PowerLossStep(s, keep)) == Retained(s)
  {
    hide PowerLossStep, Survivable, Retained, Concat, Len, FilesOk, HistoryOk, FlushOk, CommittedOk, Floor;
    var g := Active(s);
    assert g.recs[..|g.recs|] == g.recs;
    RetainedLast(s);
    CrashSound(cfg, s, keep);
    CrashTail(cfg, s, keep, |g.recs|);
  }

  lemma CrashNearly(cfg: Config, s: State, keep: seq<nat>)
    requires LogSound(cfg, s) && Survivable(s, keep) && NearlySettled(s)
    ensures var rs, got := Retained(s), Retained(PowerLossStep(s, keep));
            rs != [] && (got == rs || got == rs[..|rs| - 1])
  {
    hide PowerLossStep, Survivable, Retained, Concat, FilesOk, HistoryOk, FlushOk, CommittedOk, Floor;
    var g := Active(s);
    var n := |g.recs|;
    assert g.recs[..n - 1] + [g.recs[n - 1]] == g.recs;
    LenAppend(g.recs[..n - 1], [g.recs[n - 1]]);
    RetainedLast(s);
    CrashSound(cfg, s, keep);
    CrashTail(cfg, s, keep, n - 1);
  }

  /** Recovery restores a log, whole if everything was committed, and short of at most the last record otherwise. */
  lemma CrashRestores(cfg: Config, s: State, keep: seq<nat>)
    requires LogSound(cfg, s) && Survivable(s, keep)
    ensures var t := PowerLossStep(s, keep);
            && LogOk(cfg, t) && Settled(t) && Retained(t) <= Retained(s)
            && (Settled(s) ==> Retained(t) == Retained(s))
            && (NearlySettled(s) ==> Retained(t) == Retained(s) || Retained(t) == Retained(s)[..|Retained(s)| - 1])
  {
    hide PowerLossStep, Survivable, LogSound, LogOk, Retained, Settled, NearlySettled;
    CrashSound(cfg, s, keep);
    if Settled(s) {
      CrashWhole(cfg, s, keep);
    }
    if NearlySettled(s) {
      CrashNearly(cfg, s, keep);
    }
  }

  // ---- The dedupe index knows every logged key ----

  function Keys(rs: seq<Record>): (ks: seq<Dedupe.Key>)
    ensures |ks| == |rs| && forall i :: 0 <= i < |rs| ==> ks[i] == rs[i].key
  {
    seq(|rs|, i requires 0 <= i < |rs| => rs[i].key)
  }

  ghost predicate Knows(lru: seq<Dedupe.Entry>, rs: seq<Record>) {
    && Dedupe.DistinctKeys(lru)
    && (forall i :: 0 <= i < |lru| ==> Known(rs, lru[i].key))
    && (forall k :: 0 <= k < |rs| && rs[k].key != [] ==> Dedupe.Has(lru, rs[k].key))
  }

  lemma HitIff(lru: seq<Dedupe.Entry>, rs: seq<Record>, key: Dedupe.Key)
    requires Knows(lru, rs) && key != []
    ensures Dedupe.Has(lru, key) <==> Known(rs, key)
  {
  }

  lemma KnowsBump(lru: seq<Dedupe.Entry>, rs: seq<Record>, key: Dedupe.Key)
    requires Knows(lru, rs)
    ensures Knows(Dedupe.Bump(lru, key), rs)
  {
    hide Known, Dedupe.Pos, Dedupe.Bump;
    var l' := Dedupe.Bump(lru, key);
    Dedupe.BumpKeeps(lru, key, |lru|);
    forall i | 0 <= i < |l'| ensures Known(rs, l'[i].key) {
      assert l'[i] in lru;
    }
    forall k | 0 <= k < |rs| && rs[k].key != [] ensures Dedupe.Has(l', rs[k].key) {
      HasMember(lru, l', rs[k].key);
    }
  }

  lemma HasMember(l: seq<Dedupe.Entry>, l': seq<Dedupe.Entry>, key: Dedupe.Key)
    requires Dedupe.Has(l, key) && forall e :: e in l ==> e in l'
    ensures Dedupe.Has(l', key)
  {
    hide Dedupe.Pos;
    var e := l[Dedupe.Pos(l, key)];
    assert e in l;
    var j :| 0 <= j < |l'| && l'[j] == e;
    Dedupe.HasAt(l', j);
  }

  /** A record without a key, or with a new one for which there is room. */
  lemma KnowsPut(lru: seq<Dedupe.Entry>, rs: seq<Record>, r: Record, cap: int)
    requires Knows(lru, rs) && !Known(rs, r.key) && (r.key != [] ==> |lru| < cap)
    ensures Knows(if r.key == [] then lru else Dedupe.Put(lru, cap, r.key, r.msgID), rs + [r])
  {
    hide Known, Dedupe.Pos;
    var lru', rs' := if r.key == [] then lru else Dedupe.Put(lru, cap, r.key, r.msgID), rs + [r];
    if r.key != [] {
      HitIff(lru, rs, r.key);
      Dedupe.WithoutMiss(lru, r.key);
      assert lru' == [Dedupe.Entry(r.key, r.msgID)] + lru;
      Dedupe.HasAt(lru', 0);
      Dedupe.PutKeeps(lru, |lru|, r.key, r.msgID);
    }
    forall i | 0 <= i < |lru'| ensures Known(rs', lru'[i].key) {
      if r.key != [] && i == 0 {
        KnownAt(rs', |rs|);
      } else {
        KnownMore(rs, r, lru'[i].key);
      }
    }
    forall k | 0 <= k < |rs'| && rs'[k].key != [] ensures Dedupe.Has(lru', rs'[k].key) {
      if k < |rs| {
        assert rs'[k] == rs[k];
        HasMember(lru, lru', rs[k].key);
      }
    }
  }

  lemma KnownAt(rs: seq<Record>, k: nat)
    requires k < |rs| && rs[k].key != []
    ensures Known(rs, rs[k].key)
  {
  }

  lemma KnownMore(rs: seq<Record>, r: Record, key: Dedupe.Key)
    requires Known(rs, key)
    ensures Known(rs + [r], key)
  {
    var k :| 0 <= k < |rs| && rs[k].key == key;
    assert (rs + [r])[k].key == key;
  }

  /** With at most cap distinct keys in the log, the rebuilt index knows them all. */
  lemma KnowsRebuilt(rs: seq<Record>, cap: int, keys: set<Dedupe.Key>)
    requires (forall k :: 0 <= k < |rs| && rs[k].key != [] ==> rs[k].key in keys) && |keys| <= cap
    ensures Knows(Dedupe.Rebuild(cap, Keys(rs), 0), rs)
  {
    hide Dedupe.Rebuild, Dedupe.Pos, Known;
    var ks, l := Keys(rs), Dedupe.Rebuild(cap, Keys(rs), 0);
    Dedupe.RebuildLatest(cap, ks, 0);
    Dedupe.RebuildComplete(cap, ks);
    forall i | 0 <= i < |l| ensures Known(rs, l[i].key) && l[i].key in keys {
      assert l[i] in l;
      assert Dedupe.Latest(ks, l[i].key, l[i].msgID);
      KnownAt(rs, l[i].msgID);
    }
    forall k | 0 <= k < |rs| && rs[k].key != [] ensures Dedupe.Has(l, rs[k].key) {
      var id := Dedupe.LastLogged(ks, rs[k].key, k);
      if !Dedupe.Has(l, rs[k].key) {
        TooManyKeys(l, rs[k].key, keys, cap);
      }
    }
  }

  lemma TooManyKeys(l: seq<Dedupe.Entry>, key: Dedupe.Key, keys: set<Dedupe.Key>, cap: int)
    requires Dedupe.DistinctKeys(l) && !Dedupe.Has(l, key) && key in keys && |keys| <= cap
    requires forall i :: 0 <= i < |l| ==> l[i].key in keys
    ensures |l| < cap
  {
    Dedupe.KeysOfSize(l);
    var s := Dedupe.KeysOf(l);
    assert key !in s;
    assert s + {key} <= keys;
    Dedupe.Subset(s + {key}, keys);
  }
}
