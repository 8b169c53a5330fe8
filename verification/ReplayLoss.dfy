/** What the logs must be like before a power loss for replay to be right afterwards, whatever the loss takes. */
module ReplayLoss {
  import opened Codec
  import opened Stream
  import opened Wal
  import opened WalSafety
  import opened WalTheorems
  import opened WalShape
  import WalGaps
  import opened ReplaySpec
  import opened Shards
  import opened Replay
  import opened ReplayFailures
  import opened ReplayExact
  import opened ReplayKills
  import opened ReplayCap
  import opened ReplayWindow
  import opened ReplayAnyCap
  import Dedupe

  // ---- One log ----

  /** How many records no power loss takes that cuts the active file only. */
  function Sure(s: State): nat {
    |Concat(s.files, s.first, |s.files| - 1)| + Whole(Active(s).recs, Active(s).durable)
  }

  lemma RetainedEnd(s: State)
    ensures Retained(s) == Concat(s.files, s.first, |s.files| - 1) + Active(s).recs
  {
  }

  lemma SealedWhole(s: State, keep: seq<nat>, i: nat)
    requires Survivable(s, keep) && SealsWhole(s, keep) && i < |keep| - 1
    ensures var t := PowerLossStep(s, keep);
            t.first == 0 && |t.files| == |s.files| - s.first && t.files[i].recs == s.files[s.first + i].recs
  {
    hide Whole, Len, MaxTs, MaxVis, NextAfter, LenBefore;
    var m, g := CutAll(s, keep), s.files[s.first + i];
    assert PowerLossStep(s, keep).files[i] == Rebuilt(m, i) && m[i] == Cut(g, keep[i]);
    WholeAll(g.recs);
    assert g.recs[..|g.recs|] == g.recs;
  }

  lemma LossLeaves(s: State, keep: seq<nat>)
    requires Survivable(s, keep) && SealsWhole(s, keep)
    ensures |keep| > 0
    ensures Retained(PowerLossStep(s, keep))
         == Concat(s.files, s.first, |s.files| - 1) + Active(s).recs[..Whole(Active(s).recs, keep[|keep| - 1])]
  {
    hide PowerLossStep, Whole, Len, SealsWhole;
    var t, n := PowerLossStep(s, keep), |keep| - 1;
    ActiveAfter(s, keep);
    AfterFiles(s, keep, n);
    forall i | 0 <= i < n ensures t.files[i].recs == s.files[s.first + i].recs { SealedWhole(s, keep, i); }
    ConcatSame(s.files, s.first, t.files, n);
    RetainedEnd(t);
  }

  /** A power loss leaves the sure records and any number of the others. */
  lemma LossBounds(s: State, keep: seq<nat>)
    requires Survivable(s, keep) && SealsWhole(s, keep)
    ensures var got := Retained(PowerLossStep(s, keep)); got <= Retained(s) && Sure(s) <= |got|
  {
    hide PowerLossStep, Whole, Len, SealsWhole, Concat;
    LossLeaves(s, keep);
    RetainedEnd(s);
    WholeMonotone(Active(s).recs, Active(s).durable, keep[|keep| - 1]);
  }

  /** Everything is left but what the active file has not fsynced. */
  function KeepSure(s: State): seq<nat> { WalGaps.KeepBut(s, |s.files| - 1, Active(s).durable) }

  lemma SureLoss(s: State)
    requires WalGaps.AllOnBoundary(s.files)
    ensures Survivable(s, KeepSure(s)) && SealsWhole(s, KeepSure(s))
    ensures Retained(PowerLossStep(s, KeepSure(s))) == Retained(s)[..Sure(s)] && Sure(s) <= |Retained(s)|
  {
    hide WalGaps.OnBoundary, PowerLossStep, Whole, Len, Survivable, WalGaps.KeepBut;
    var n, k := |s.files| - 1, KeepSure(s);
    WalGaps.BoundaryLen(s.files[n]);
    WalGaps.KeepButSurvives(s, n, Active(s).durable);
    forall j | 0 <= j < |k| ensures k[j] == if j == |k| - 1 then Active(s).durable else Len(s.files[s.first + j].recs) {
      WalGaps.KeepButAt(s, n, Active(s).durable, j);
    }
    LossLeaves(s, k);
    RetainedEnd(s);
  }

  lemma WholeLoss(s: State)
    requires WalGaps.AllOnBoundary(s.files)
    ensures Survivable(s, KeepAll(s)) && SealsWhole(s, KeepAll(s))
    ensures Retained(PowerLossStep(s, KeepAll(s))) == Retained(s)
  {
    hide WalGaps.OnBoundary, PowerLossStep, Whole, Len, Survivable;
    assert Survivable(s, KeepAll(s)) by { WalGaps.KeepAllSurvives(s); }
    LossLeaves(s, KeepAll(s));
    RetainedEnd(s);
    WholeAll(Active(s).recs);
    assert Active(s).recs[..|Active(s).recs|] == Active(s).recs;
  }

  // ---- All partitions ----

  ghost predicate AllBound(topics: Topics) {
    forall t, p :: t in topics && 0 <= p < |topics[t]| ==> WalGaps.AllOnBoundary(topics[t][p].log.files)
  }

  /** A power loss can take the record. */
  predicate Loose(topics: Topics, t: Name, p: int, k: int) {
    t in topics && 0 <= p < |topics[t]| && Sure(topics[t][p].log) <= k < |Retained(topics[t][p].log)|
  }

  /** No record of another partition has a larger raft index. */
  ghost predicate OutranksOthers(m: Logs, t: Name, p: int, k: int)
    requires t in m && 0 <= p < |m[t]| && 0 <= k < |m[t][p]|
  {
    forall u, q, j :: u in m && 0 <= q < |m[u]| && 0 <= j < |m[u][q]| && (u != t || q != p) ==>
      m[u][q][j].raftIndex <= m[t][p][k].raftIndex
  }

  ghost predicate LooseAreLast(topics: Topics) {
    forall t, p, k :: Loose(topics, t, p, k) ==> OutranksOthers(View(topics), t, p, k)
  }

  /** The records are those of an uninterrupted run up to the mark a restart would find. */
  ghost predicate Right(env: Env, log: RaftLog, topics: Topics) {
    var m := View(topics);
    MaxOf(Indexes(m)) <= |log| && Indexes(m) == Indexes(Spec(env.defaultPartitions, log, MaxOf(Indexes(m))))
  }

  /** Right, whatever a power loss leaves that cuts active files only. */
  ghost predicate RightAfterLoss(env: Env, log: RaftLog, topics: Topics) {
    forall keep :: Possible(topics, keep) && SealsSpared(topics, keep) ==>
      Right(env, log, RecoverAll(env.cap, topics, keep))
  }

  /** m' holds a prefix of each partition of m. */
  lemma CutIndexes(m: Logs, m': Logs)
    requires m.Keys == m'.Keys && forall t :: t in m ==> |m[t]| == |m'[t]|
    requires forall t, p :: t in m && 0 <= p < |m[t]| ==> m'[t][p] <= m[t][p]
    ensures Indexes(m') <= Indexes(m)
  {
    forall i | i in Indexes(m') ensures i in Indexes(m) {
      var t, p, k :| t in m' && 0 <= p < |m'[t]| && 0 <= k < |m'[t][p]| && m'[t][p][k].raftIndex as nat == i;
      assert m[t][p][k] == m'[t][p][k];
      IndexIn(m, t, p, k);
    }
  }

  lemma RecoverView(cap: int, topics: Topics, keep: Remains, t: Name, p: nat)
    requires Possible(topics, keep) && t in topics && p < |topics[t]|
    ensures var m' := View(RecoverAll(cap, topics, keep));
            && m'.Keys == topics.Keys && |m'[t]| == |topics[t]|
            && m'[t][p] == Retained(PowerLossStep(topics[t][p].log, keep[t][p]))
  {
    hide Retained, PowerLossStep, Survivable, View, Dedupe.Rebuild;
    ViewAt(RecoverAll(cap, topics, keep), t, p);
  }

  /** What a power loss takes lies above everything it leaves. */
  lemma LostAreAbove(cap: int, log: RaftLog, n: nat, topics: Topics, keep: Remains, i: nat, j: nat)
    requires LogsOk(log, n, View(topics)) && LooseAreLast(topics) && Possible(topics, keep) && SealsSpared(topics, keep)
    requires i in Indexes(View(topics)) && i !in Indexes(View(RecoverAll(cap, topics, keep)))
    requires j in Indexes(View(RecoverAll(cap, topics, keep)))
    ensures j < i
  {
    hide LogsOk, View, Retained, PowerLossStep, Survivable, SealsWhole, Sure, RecoverAll, Indexes;
    var m, m' := View(topics), View(RecoverAll(cap, topics, keep));
    var t, p, k := Find(m, i);
    var u, q, l := Find(m', j);
    CutIsPrefix(cap, topics, keep);
    RecoverView(cap, topics, keep, t, p);
    RecoverView(cap, topics, keep, u, q);
    ViewAt(topics, t, p);
    ViewAt(topics, u, q);
    LossBounds(topics[t][p].log, keep[t][p]);
    LossBounds(topics[u][q].log, keep[u][q]);
    assert m'[u][q][l] == m[u][q][l];
    if k < |m'[t][p]| { IndexIn(m', t, p, k); }
    assert Loose(topics, t, p, k);
    if t == u && p == q {
      PartitionIn(log, n, m, t, p);
    } else {
      assert OutranksOthers(m, t, p, k);
    }
  }

  lemma Find(m: Logs, i: nat) returns (t: Name, p: nat, k: nat)
    requires i in Indexes(m)
    ensures t in m && p < |m[t]| && k < |m[t][p]| && m[t][p][k].raftIndex as nat == i
  {
    t, p, k :| t in m && 0 <= p < |m[t]| && 0 <= k < |m[t][p]| && m[t][p][k].raftIndex as nat == i;
  }

  lemma RightIsEnough(env: Env, log: RaftLog, n: nat, topics: Topics, keep: Remains)
    requires n <= |log| && LogsOk(log, n, View(topics)) && Right(env, log, topics) && LooseAreLast(topics)
    requires Possible(topics, keep) && SealsSpared(topics, keep)
    ensures Right(env, log, RecoverAll(env.cap, topics, keep))
  {
    hide LogsOk, View, Spec, Indexes, MaxOf, Possible, SealsSpared, RecoverAll, LooseAreLast, Low;
    var d, m, m' := env.defaultPartitions, View(topics), View(RecoverAll(env.cap, topics, keep));
    CutIsPrefix(env.cap, topics, keep);
    CutIndexes(m, m');
    var h, h' := MaxOf(Indexes(m)), MaxOf(Indexes(m'));
    SubsetMax(Indexes(m'), Indexes(m));
    SpecKeepsLow(d, log, h', h);
    forall i | i in Indexes(m) && i <= h' ensures i in Indexes(m') {
      if i !in Indexes(m') && Indexes(m') != {} {
        LostAreAbove(env.cap, log, n, topics, keep, i, h');
      }
      if Indexes(m') == {} { Positive(log, n, m, i); }
    }
    LowIs(Spec(d, log, h), h', Indexes(m), Indexes(m'));
  }

  lemma LowIs(s: Logs, h: nat, a: set<nat>, b: set<nat>)
    requires Indexes(s) == a && b <= a && (forall i :: i in b ==> i <= h) && forall i :: i in a && i <= h ==> i in b
    ensures Low(s, h) == b
  {
    hide Indexes;
  }

  lemma Positive(log: RaftLog, n: nat, m: Logs, i: nat)
    requires LogsOk(log, n, m) && i in Indexes(m)
    ensures i > 0
  {
    var k := IndexAt(log, n, m, i);
  }

  lemma SubsetMax(a: set<nat>, b: set<nat>)
    requires a <= b
    ensures MaxOf(a) <= MaxOf(b)
  {
    hide MaxOf;
  }

  lemma CutIsPrefix(cap: int, topics: Topics, keep: Remains)
    requires Possible(topics, keep) && SealsSpared(topics, keep)
    ensures var m, m' := View(topics), View(RecoverAll(cap, topics, keep));
            && m.Keys == m'.Keys && (forall t :: t in m ==> |m[t]| == |m'[t]|)
            && (forall t, p :: t in m && 0 <= p < |m[t]| ==> m'[t][p] <= m[t][p])
  {
    hide View, Retained, PowerLossStep, Survivable, SealsWhole, Sure, Dedupe.Rebuild;
    var m, m' := View(topics), View(RecoverAll(cap, topics, keep));
    forall t, p | t in m && 0 <= p < |m[t]| ensures m'[t][p] <= m[t][p] {
      RecoverView(cap, topics, keep, t, p);
      ViewAt(topics, t, p);
      LossBounds(topics[t][p].log, keep[t][p]);
    }
  }

  // ---- And it is needed ----

  /** One partition loses all it can, the others nothing. */
  function KeepsBut(topics: Topics, t0: Name, p0: int): (keep: Remains)
    ensures keep.Keys == topics.Keys
    ensures forall t :: t in topics ==> |keep[t]| == |topics[t]|
    ensures forall t, p :: t in topics && 0 <= p < |topics[t]| ==>
              keep[t][p] == if t == t0 && p == p0 then KeepSure(topics[t][p].log) else KeepAll(topics[t][p].log)
  {
    map t | t in topics ::
      seq(|topics[t]|, p requires 0 <= p < |topics[t]| =>
        if t == t0 && p == p0 then KeepSure(topics[t][p].log) else KeepAll(topics[t][p].log))
  }

  lemma KeepsButLeaves(cap: int, topics: Topics, t0: Name, p0: int)
    requires AllBound(topics)
    ensures var keep := KeepsBut(topics, t0, p0);
            && Possible(topics, keep) && SealsSpared(topics, keep)
            && var m, m' := View(topics), View(RecoverAll(cap, topics, keep));
               && m'.Keys == m.Keys && (forall t :: t in m ==> |m'[t]| == |m[t]|)
               && (forall t, p :: t in m && 0 <= p < |m[t]| ==>
                     && Sure(topics[t][p].log) <= |m[t][p]|
                     && m'[t][p] == if t == t0 && p == p0 then m[t][p][..Sure(topics[t][p].log)] else m[t][p])
  {
    hide View, Retained, PowerLossStep, Survivable, SealsWhole, Sure, Dedupe.Rebuild, KeepAll, KeepSure;
    hide WalGaps.AllOnBoundary;
    var keep := KeepsBut(topics, t0, p0);
    forall t, p | t in topics && 0 <= p < |topics[t]|
      ensures Survivable(topics[t][p].log, keep[t][p]) && SealsWhole(topics[t][p].log, keep[t][p])
      ensures var rs := Retained(topics[t][p].log);
              && Sure(topics[t][p].log) <= |rs|
              && Retained(PowerLossStep(topics[t][p].log, keep[t][p]))
                 == if t == t0 && p == p0 then rs[..Sure(topics[t][p].log)] else rs
    {
      SureLoss(topics[t][p].log);
      WholeLoss(topics[t][p].log);
    }
    assert Possible(topics, keep);
    forall t, p | t in topics && 0 <= p < |topics[t]|
      ensures View(RecoverAll(cap, topics, keep))[t][p] == Retained(PowerLossStep(topics[t][p].log, keep[t][p]))
      ensures View(topics)[t][p] == Retained(topics[t][p].log)
    {
      RecoverView(cap, topics, keep, t, p);
      ViewAt(topics, t, p);
    }
  }

  lemma SameLogsOf(m: Logs, m': Logs)
    requires m.Keys == m'.Keys && (forall t :: t in m ==> |m[t]| == |m'[t]|)
    requires forall t, p :: t in m && 0 <= p < |m[t]| ==> m'[t][p] == m[t][p]
    ensures m == m'
  {
    forall t | t in m ensures m[t] == m'[t] {
    }
  }

  /** Losing nothing is one of the possible losses. */
  lemma NeedsRight(env: Env, log: RaftLog, topics: Topics)
    requires AllBound(topics) && RightAfterLoss(env, log, topics)
    ensures Right(env, log, topics)
  {
    hide View, Spec, Indexes, MaxOf, Possible, SealsSpared, RecoverAll, Sure, WalGaps.AllOnBoundary;
    var t0: Name := [];
    KeepsButLeaves(env.cap, topics, t0, -1);
    var keep := KeepsBut(topics, t0, -1);
    SameLogsOf(View(topics), View(RecoverAll(env.cap, topics, keep)));
    assert Right(env, log, RecoverAll(env.cap, topics, keep));
  }

  lemma NeedsLast(env: Env, log: RaftLog, n: nat, topics: Topics, t: Name, p: nat, k: nat, u: Name, q: nat, j: nat)
    requires AllBound(topics) && RightAfterLoss(env, log, topics)
    requires n <= |log| && LogsOk(log, n, View(topics)) && Loose(topics, t, p, k)
    requires var m := View(topics); u in m && q < |m[u]| && j < |m[u][q]| && (u != t || q != p)
    ensures var m := View(topics); m[u][q][j].raftIndex <= m[t][p][k].raftIndex
  {
    hide View, Spec, Indexes, MaxOf, Possible, SealsSpared, RecoverAll, Sure, WalGaps.AllOnBoundary, LogsOk, Retained;
    hide Low;
    var d, keep, m: Logs := env.defaultPartitions, KeepsBut(topics, t, p), View(topics);
    NeedsRight(env, log, topics);
    KeepsButLeaves(env.cap, topics, t, p);
    ViewAt(topics, t, p);
    var m' := View(RecoverAll(env.cap, topics, keep));
    assert Right(env, log, RecoverAll(env.cap, topics, keep));
    var h, h', i := MaxOf(Indexes(m)), MaxOf(Indexes(m')), m[t][p][k].raftIndex as nat;
    if m[u][q][j].raftIndex > m[t][p][k].raftIndex {
      IndexIn(m, t, p, k);
      IndexIn(m', u, q, j);
      CutIndexes(m, m');
      SubsetMax(Indexes(m'), Indexes(m));
      SpecKeepsLow(d, log, h', h);
      InLow(Spec(d, log, h), h', i);
      CutOut(log, n, m, m', t, p, k, i);
    }
  }

  lemma InLow(s: Logs, h: nat, i: nat)
    requires i in Indexes(s) && i <= h
    ensures i in Low(s, h)
  {
    hide Indexes;
  }

  /** The record cut off is nowhere else. */
  lemma CutOut(log: RaftLog, n: nat, m: Logs, m': Logs, t: Name, p: nat, k: nat, i: nat)
    requires LogsOk(log, n, m) && m'.Keys == m.Keys && (forall t :: t in m ==> |m'[t]| == |m[t]|)
    requires forall u, q :: u in m && 0 <= q < |m[u]| ==> m'[u][q] <= m[u][q]
    requires t in m && p < |m[t]| && |m'[t][p]| <= k < |m[t][p]| && m[t][p][k].raftIndex as nat == i
    ensures i !in Indexes(m')
  {
    hide LogsOk, Indexes;
    if i in Indexes(m') {
      var u, q, j := Find(m', i);
      assert m'[u][q] <= m[u][q];
      assert m[u][q][j] == m'[u][q][j];
      IndexOnce(log, n, m, t, p, k, u, q, j);
    }
  }

  /**
   * Whatever a power loss takes of the active files, the recovered records are those of an uninterrupted run up to
   * the recovered mark, if and only if before it the records were right and no record that is not fsynced has one
   * with a larger raft index in another partition.
   */
  lemma SafeLossIff(env: Env, log: RaftLog, n: nat, topics: Topics)
    requires n <= |log| && LogsOk(log, n, View(topics)) && AllBound(topics)
    ensures RightAfterLoss(env, log, topics) <==> Right(env, log, topics) && LooseAreLast(topics)
  {
    hide LogsOk, View, Right, Possible, SealsSpared, RecoverAll, AllBound, Sure, Retained;
    if Right(env, log, topics) && LooseAreLast(topics) {
      forall keep | Possible(topics, keep) && SealsSpared(topics, keep)
        ensures Right(env, log, RecoverAll(env.cap, topics, keep))
      {
        RightIsEnough(env, log, n, topics, keep);
      }
    }
    if RightAfterLoss(env, log, topics) {
      NeedsRight(env, log, topics);
      forall t, p, k | Loose(topics, t, p, k) ensures OutranksOthers(View(topics), t, p, k) {
        ViewAt(topics, t, p);
        forall u, q, j | var m := View(topics);
            u in m && 0 <= q < |m[u]| && 0 <= j < |m[u][q]| && (u != t || q != p)
          ensures View(topics)[u][q][j].raftIndex <= View(topics)[t][p][k].raftIndex
        {
          NeedsLast(env, log, n, topics, t, p, k, u, q, j);
        }
      }
    }
  }

  // ---- Runs ----

  lemma BoundSet(topics: Topics, t: Name, p: nat, sh: Shard)
    requires AllBound(topics) && t in topics && p < |topics[t]| && WalGaps.AllOnBoundary(sh.log.files)
    ensures AllBound(SetShard(topics, t, p, sh))
  {
    hide WalGaps.AllOnBoundary;
  }

  lemma BeginBound(env: Env, log: RaftLog, x: World)
    requires AllBound(x.topics)
    ensures AllBound(BeginStep(env, log, x).topics)
  {
    hide WalGaps.AllOnBoundary, CountFor;
    WalGaps.FreshBoundary();
  }

  lemma PublishBound(env: Env, log: RaftLog, x: World, io: Io)
    requires AllBound(x.topics)
    ensures AllBound(PublishStep(env, log, x, io).topics)
  {
    hide WalGaps.AllOnBoundary, AppendStep, Hit, Dedupe.Bump, PublishStep, Missed;
    if !x.phase.Routed? || !Routable(log, x) {
      NoPublish(env, log, x, io);
    } else {
      var e, sh := log[x.cursor], Target(log, x);
      var rec := Stamp(e, x.cursor + 1, 0);
      WalGaps.AppendBoundary(env.cfg, sh.log, rec, io);
      if Hit(log, x) {
        PublishHit(env, log, x, io);
        BoundSet(x.topics, e.topic, e.partition, sh.(lru := Dedupe.Bump(sh.lru, e.key)));
      } else {
        PublishMiss(env, log, x, io);
        var l := MissedShard(env, log, x, io);
        BoundSet(x.topics, e.topic, e.partition, Shard(AppendStep(env.cfg, sh.log, rec, io), l));
      }
    }
  }

  lemma NoPublish(env: Env, log: RaftLog, x: World, io: Io)
    requires !x.phase.Routed? || !Routable(log, x)
    ensures PublishStep(env, log, x, io).topics == x.topics
  {
  }

  lemma FinishBound(env: Env, log: RaftLog, x: World)
    requires AllBound(x.topics)
    ensures AllBound(FinishStep(env, log, x).topics)
  {
    hide WalGaps.AllOnBoundary, Wal.Next, Dedupe.Put;
    if x.phase.Waiting? && Routable(log, x) {
      WalGaps.StepBoundary(env.cfg, Target(log, x).log, Return(x.phase.rec, x.phase.end));
    }
  }

  lemma CommitterBound(env: Env, x: World, t: Name, p: nat, step: Wal.Step)
    requires AllBound(x.topics)
    ensures AllBound(CommitterStep(env, x, t, p, step).topics)
  {
    hide WalGaps.AllOnBoundary, Wal.Next;
    if t in x.topics && p < |x.topics[t]| { WalGaps.StepBoundary(env.cfg, x.topics[t][p].log, step); }
  }

  lemma RecoverBound(cap: int, topics: Topics, keep: Remains)
    requires Possible(topics, keep)
    ensures AllBound(RecoverAll(cap, topics, keep))
  {
    hide WalGaps.AllOnBoundary, PowerLossStep, Survivable, Retained, Dedupe.Rebuild;
    forall t, p | t in topics && 0 <= p < |topics[t]|
      ensures WalGaps.AllOnBoundary(PowerLossStep(topics[t][p].log, keep[t][p]).files)
    {
      WalGaps.CutBoundary(topics[t][p].log, keep[t][p]);
    }
  }

  lemma KillBound(cap: int, topics: Topics)
    requires AllBound(topics)
    ensures AllBound(KillAll(cap, topics))
  {
    hide WalGaps.AllOnBoundary, KillStep, Retained, Dedupe.Rebuild;
    forall t, p | t in topics && 0 <= p < |topics[t]|
      ensures WalGaps.AllOnBoundary(KillStep(topics[t][p].log).files)
    {
      WalGaps.KillBoundary(topics[t][p].log);
    }
  }

  lemma MidBound(env: Env, log: RaftLog, x: World, io: Io)
    requires AllBound(x.topics) && Appends(log, x)
    ensures AllBound(MidAppend(env, log, x, io))
  {
    hide WalGaps.AllOnBoundary, AppendStep, Dedupe.Pos;
    WalGaps.AppendBoundary(env.cfg, Target(log, x).log, Stamp(log[x.cursor], x.cursor + 1, 0), io);
  }

  lemma ActBound(env: Env, log: RaftLog, x: World, act: Act)
    requires AllBound(x.topics)
    ensures AllBound(ActNext(env, log, x, act).topics)
  {
    hide AllBound, BeginStep, PublishStep, FinishStep, CommitterStep, KillAll, RecoverAll, MidAppend, Appends, Possible;
    hide View, MaxOf, Indexes;
    match act
    case Killed => KillBound(env.cap, x.topics);
    case KilledIn(io) =>
      if Appends(log, x) {
        MidBound(env, log, x, io);
        KillBound(env.cap, MidAppend(env, log, x, io));
      }
    case Does(step) =>
      match step
      case Begin => BeginBound(env, log, x);
      case Publish(io) => PublishBound(env, log, x, io);
      case Finish => FinishBound(env, log, x);
      case Committer(t, p, st) => CommitterBound(env, x, t, p, st);
      case Crash(keep) => if Possible(x.topics, keep) { RecoverBound(env.cap, x.topics, keep); }
      case Dies(io, keep) =>
        if Appends(log, x) && Possible(MidAppend(env, log, x, io), keep) {
          RecoverBound(env.cap, MidAppend(env, log, x, io), keep);
        }
  }

  lemma {:induction false} RunBound(env: Env, log: RaftLog, acts: seq<Act>)
    ensures AllBound(ActRun(env, log, acts).topics)
  {
    hide ActNext;
    if acts != [] {
      RunBound(env, log, acts[..|acts| - 1]);
      ActBound(env, log, ActRun(env, log, acts[..|acts| - 1]), acts[|acts| - 1]);
    }
  }

  /** The condition at every moment of every run, in every sync mode, whatever failed and whoever was killed. */
  lemma SafeAfterRunIff(env: Env, log: RaftLog, acts: seq<Act>)
    requires LossesSpare(env, log, acts)
    ensures var x := ActRun(env, log, acts);
            RightAfterLoss(env, log, x.topics) <==> Right(env, log, x.topics) && LooseAreLast(x.topics)
  {
    hide ActRun, LossesSpare, WeakInv, LogsOk, TopicsOk, View, Sound, AllBound, RightAfterLoss, Right, LooseAreLast;
    var x := ActRun(env, log, acts);
    var n := ActsKeep(env, log, acts);
    WeakParts(env, log, x, n);
    RunBound(env, log, acts);
    SafeLossIff(env, log, Bound(x), x.topics);
  }

  /** Likewise in the middle of an append. */
  lemma SafeMidAppendIff(env: Env, log: RaftLog, acts: seq<Act>, io: Io)
    requires LossesSpare(env, log, acts) && Appends(log, ActRun(env, log, acts))
    ensures var topics := MidAppend(env, log, ActRun(env, log, acts), io);
            RightAfterLoss(env, log, topics) <==> Right(env, log, topics) && LooseAreLast(topics)
  {
    hide ActRun, LossesSpare, WeakInv, LogsOk, TopicsOk, View, Sound, AllBound, RightAfterLoss, Right, LooseAreLast;
    hide MidAppend, Appends;
    var x := ActRun(env, log, acts);
    var n := ActsKeep(env, log, acts);
    MidParts(env, log, x, n, io);
    RunBound(env, log, acts);
    MidBound(env, log, x, io);
    SafeLossIff(env, log, x.cursor + 1, MidAppend(env, log, x, io));
  }

  /** Where the condition holds, every power loss and every undisturbed replay after it end with the right logs. */
  lemma SafeLossReplays(env: Env, log: RaftLog, acts: seq<Act>, keep: Remains, after: seq<Replay.Step>)
    requires LossesSpare(env, log, acts) && NeverForgets(env, log, |log|) && AllAlive(after)
    requires var x := ActRun(env, log, acts);
             && Right(env, log, x.topics) && LooseAreLast(x.topics)
             && Possible(x.topics, keep) && SealsSpared(x.topics, keep)
    requires var y := RunFrom(env, log, CrashStep(env, ActRun(env, log, acts), keep), after);
             y.phase.Ready? && y.cursor == |log|
    ensures View(RunFrom(env, log, CrashStep(env, ActRun(env, log, acts), keep), after).topics)
         == Spec(env.defaultPartitions, log, |log|)
  {
    hide ActRun, LossesSpare, View, LooseAreLast, Possible, SealsSpared, RecoverAll, RunFrom, Spec, Indexes, MaxOf;
    hide Enough;
    hide AllAlive;
    var d, x := env.defaultPartitions, ActRun(env, log, acts);
    var z := CrashStep(env, x, keep);
    SafeAfterRunIff(env, log, acts);
    assert Right(env, log, z.topics);
    SpecGrows(d, log, z.hw, |log|);
    GrowsIndexes(Spec(d, log, z.hw), Spec(d, log, |log|));
    assert Mark(d, log, z.hw);
    AnyActsIff(env, log, acts, Does(Replay.Crash(keep)), after);
  }
}
