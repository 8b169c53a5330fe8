/** When a replay is right whatever failed before it, with a dedupe index of any size. */
module ReplayAnyCap {
  import opened Bytes
  import opened Codec
  import opened Wal
  import opened WalTheorems
  import WalShape
  import opened ReplaySpec
  import opened Shards
  import opened Replay
  import opened ReplayFailures
  import opened ReplayExact
  import opened ReplayKills
  import opened ReplayCap
  import opened ReplayWindow
  import Dedupe

  // ---- What a living process adds ----

  /** The step adds at most the index of the command under the cursor. */
  ghost predicate Adds(x: World, y: World) {
    && Indexes(View(x.topics)) <= Indexes(View(y.topics))
    && (forall i :: i in Indexes(View(y.topics)) ==> i in Indexes(View(x.topics)) || (i == x.cursor + 1 && i > x.hw))
  }

  lemma AddsNothing(x: World, y: World)
    requires Indexes(View(x.topics)) == Indexes(View(y.topics))
    ensures Adds(x, y)
  {
  }

  lemma SnocAdds(log: RaftLog, x: World, sh: Shard, r: Record)
    requires Routable(log, x) && x.hw <= x.cursor && r.raftIndex as nat == x.cursor + 1
    requires Retained(sh.log) == Retained(Target(log, x).log) + [r]
    ensures Adds(x, SetTarget(log, x, sh))
  {
    hide View, Indexes, Retained;
    var e := log[x.cursor];
    var m := View(x.topics);
    ViewAt(x.topics, e.topic, e.partition);
    ViewSet(x.topics, e.topic, e.partition, sh);
    SnocIndexes(m, e.topic, e.partition, r);
    var m' := View(SetTarget(log, x, sh).topics);
    assert m[e.topic][e.partition] <= m'[e.topic][e.partition];
    assert Grows(m, m');
    GrowsIndexes(m, m');
  }

  lemma SameAdds(log: RaftLog, x: World, sh: Shard)
    requires Routable(log, x) && Retained(sh.log) == Retained(Target(log, x).log)
    ensures Adds(x, SetTarget(log, x, sh))
  {
    hide View, Indexes, Retained;
    ViewSame(x.topics, log[x.cursor].topic, log[x.cursor].partition, sh);
  }

  lemma AppendStepAdds(env: Env, log: RaftLog, x: World, n: nat, io: Io, lru: seq<Dedupe.Entry>)
    requires env.cfg.mode != NoSync && WeakInv(env, log, x, n) && x.phase.Routed? && Routable(log, x)
    ensures var s := AppendStep(env.cfg, Target(log, x).log, Stamp(log[x.cursor], x.cursor + 1, 0), io);
            Adds(x, SetTarget(log, x, Shard(s, lru)))
  {
    hide LogSound, View, Retained, AppendStep, Encodable, Sound, LogsOk, TopicsOk, Adds, SetTarget, Settled;
    hide NearlySettled;
    var e, s := log[x.cursor], Target(log, x).log;
    var rec := Stamp(e, x.cursor + 1, 0);
    TargetParts(env, log, x, n);
    if |Retained(s)| < U64 {
      AppendGrows(env.cfg, s, rec, io);
      var t := AppendStep(env.cfg, s, rec, io);
      if Retained(t) == Retained(s) {
        SameAdds(log, x, Shard(t, lru));
      } else {
        SnocAdds(log, x, Shard(t, lru), rec.(msgID := |Retained(s)|));
      }
    } else {
      AppendRefused(env.cfg, s, rec, io);
      SameAdds(log, x, Shard(s, lru));
    }
  }

  lemma SameTopicsAdd(x: World, y: World, z: World)
    requires Adds(x, y) && z.topics == y.topics
    ensures Adds(x, z)
  {
  }

  lemma MissedShard(env: Env, log: RaftLog, x: World, io: Io) returns (l: seq<Dedupe.Entry>)
    requires Routable(log, x)
    ensures var s := AppendStep(env.cfg, Target(log, x).log, Stamp(log[x.cursor], x.cursor + 1, 0), io);
            Missed(env, log, x, io).topics == SetTarget(log, x, Shard(s, l)).topics
  {
    hide AppendStep, AppendErrs, Encodable, Dedupe.Put;
    var sh, rec := Target(log, x), Stamp(log[x.cursor], x.cursor + 1, 0);
    var sh' := sh.(log := AppendStep(env.cfg, sh.log, rec, io));
    l := sh.lru;
    if !(Refused(sh.log, rec) || AppendErrs(env.cfg, sh.log, rec, io)) && env.cfg.mode != Batched {
      l := Remember(env, sh', rec.(msgID := sh.log.next)).lru;
    }
  }

  lemma PublishAdds(env: Env, log: RaftLog, x: World, n: nat, io: Io)
    requires env.cfg.mode != NoSync && WeakInv(env, log, x, n)
    ensures Adds(x, PublishStep(env, log, x, io))
  {
    hide WeakInv, View, Retained, AppendStep, Adds, SetTarget, Refused, AppendErrs, Hit, Dedupe.Put, Dedupe.Bump;
    var y := PublishStep(env, log, x, io);
    if x.phase.Routed? && Routable(log, x) {
      var sh, rec := Target(log, x), Stamp(log[x.cursor], x.cursor + 1, 0);
      if Hit(log, x) {
        PublishHit(env, log, x, io);
        var sh' := sh.(lru := Dedupe.Bump(sh.lru, log[x.cursor].key));
        SameAdds(log, x, sh');
        SameTopicsAdd(x, SetTarget(log, x, sh'), y);
      } else {
        PublishMiss(env, log, x, io);
        var s := AppendStep(env.cfg, sh.log, rec, io);
        var l := MissedShard(env, log, x, io);
        AppendStepAdds(env, log, x, n, io, l);
        SameTopicsAdd(x, SetTarget(log, x, Shard(s, l)), y);
      }
    } else {
      AddsNothing(x, y);
    }
  }

  lemma BeginAdds(env: Env, log: RaftLog, x: World)
    ensures Adds(x, BeginStep(env, log, x))
  {
    hide View, Open, Ensure, Indexes, Adds;
    if x.phase.Ready? && x.cursor < |log| {
      var e, d := log[x.cursor], env.defaultPartitions;
      var want := if e.Create? then e.partitions else 0;
      ViewOpen(d, x.topics, e.topic, want);
      EnsureTwice(d, View(x.topics), e.topic, want);
    }
    AddsNothing(x, BeginStep(env, log, x));
  }

  lemma FinishAdds(env: Env, log: RaftLog, x: World, n: nat)
    requires env.cfg.mode != NoSync && WeakInv(env, log, x, n)
    ensures Adds(x, FinishStep(env, log, x))
  {
    hide LogSound, View, Retained, Wal.Next, Sound, LogsOk, TopicsOk, Dedupe.Put, SetTarget, Adds;
    var y := FinishStep(env, log, x);
    if x.phase.Waiting? && Routable(log, x) && x.phase.end <= Target(log, x).log.committed {
      var sh := Target(log, x);
      TargetParts(env, log, x, n);
      BackgroundRetains(env.cfg, sh.log, Return(x.phase.rec, x.phase.end));
      var sh' := Remember(env, sh.(log := Wal.Next(env.cfg, sh.log, Return(x.phase.rec, x.phase.end))), x.phase.rec);
      SameAdds(log, x, sh');
      SameTopicsAdd(x, SetTarget(log, x, sh'), y);
    } else {
      AddsNothing(x, y);
    }
  }

  lemma CommitterAdds(env: Env, log: RaftLog, x: World, n: nat, t: Name, p: nat, step: Wal.Step)
    requires env.cfg.mode != NoSync && WeakInv(env, log, x, n)
    ensures Adds(x, CommitterStep(env, x, t, p, step))
  {
    hide LogSound, View, Retained, Wal.Next, LogsOk, TopicsOk, Adds;
    if t in x.topics && p < |x.topics[t]| && (step.FlushSnap? || step.FlushSync? || step.FlushPublish?) {
      var sh := x.topics[t][p];
      assert LogSound(env.cfg, sh.log);
      BackgroundRetains(env.cfg, sh.log, step);
      ViewSame(x.topics, t, p, sh.(log := Wal.Next(env.cfg, sh.log, step)));
    }
    AddsNothing(x, CommitterStep(env, x, t, p, step));
  }

  /** Whatever has been fsynced. */
  lemma AliveAdds(env: Env, log: RaftLog, x: World, n: nat, step: Replay.Step)
    requires WeakInv(AsIfEnv(env), log, AsIfWorld(x), n) && Alive(step)
    ensures Adds(x, Replay.Next(env, log, x, step))
  {
    hide WeakInv, View, Indexes, AsIfTopics, BeginStep, PublishStep, FinishStep, CommitterStep, Adds;
    var e, y, step' := AsIfEnv(env), AsIfWorld(x), FsyncingAct(env, step);
    LivesAsIf(env, log, x, step);
    match step' {
      case Begin => BeginAdds(e, log, y);
      case Publish(io) => PublishAdds(e, log, y, n, io);
      case Finish => FinishAdds(e, log, y, n);
      case Committer(t, p, st) => CommitterAdds(e, log, y, n, t, p, st);
    }
    AddsAsIf(x, Replay.Next(env, log, x, step), y, Replay.Next(e, log, y, step'));
  }

  lemma AddsAsIf(x: World, x': World, y: World, y': World)
    requires y == AsIfWorld(x) && AsIfWorld(x') == AsIfWorld(y') && Adds(y, y')
    ensures Adds(x, x')
  {
    hide View, Indexes, AsIfTopics;
    ViewAsIf(x.topics);
    ViewAsIf(x'.topics);
    ViewAsIf(y'.topics);
  }

  // ---- A replay beside the roomy one ----

  /** The roomy node over the same logs. */
  function RoomyTopics(topics: Topics, cap: int): (after: Topics)
    ensures SameLogs(topics, after)
    ensures forall t, p :: t in topics && 0 <= p < |topics[t]| ==>
              after[t][p] == Shard(topics[t][p].log, Dedupe.Rebuild(cap, Keys(Retained(topics[t][p].log)), 0))
  {
    map t | t in topics ::
      seq(|topics[t]|, p requires 0 <= p < |topics[t]| =>
        Shard(topics[t][p].log, Dedupe.Rebuild(cap, Keys(Retained(topics[t][p].log)), 0)))
  }

  function RoomyWorld(x: World, cap: int): World { x.(topics := RoomyTopics(x.topics, cap)) }

  lemma RoomyRestored(env: Env, log: RaftLog, x: World)
    requires Restored(AsIfEnv(env), log, AsIfWorld(x))
    ensures Restarted(AsIfEnv(Roomy(env, log)), log, AsIfWorld(RoomyWorld(x, |log|)))
    ensures Same(x, RoomyWorld(x, |log|)) && View(RoomyWorld(x, |log|).topics) == View(x.topics)
    ensures Tracks(env, log, View(x.topics), x)
  {
    hide View, LogSound, Settled, Retained, Dedupe.Rebuild, MaxOf, Indexes, LogsOk, TopicsOk, WalShape.AsIf, Keys;
    hide Restarted, Part;
    var r, y := Roomy(env, log), RoomyWorld(x, |log|);
    var a: Topics, b: Topics := AsIfTopics(x.topics), AsIfTopics(y.topics);
    SameLogsView(x.topics, y.topics);
    ViewAsIf(x.topics);
    ViewAsIf(y.topics);
    forall t, p | t in x.topics && 0 <= p < |x.topics[t]|
      ensures ShardRestored(AsIfEnv(r), b[t][p]) && Retained(x.topics[t][p].log) == Part(View(x.topics), t, p)
      ensures x.topics[t][p].lru == Dedupe.Rebuild(env.cap, Keys(Retained(x.topics[t][p].log)), 0)
    {
      assert ShardRestored(AsIfEnv(env), a[t][p]);
      WalShape.RetainedAsIf(x.topics[t][p].log, {});
      ViewAt(x.topics, t, p);
      InPart(View(x.topics), t, p);
    }
    assert Restored(AsIfEnv(r), log, AsIfWorld(y));
    assert x == Restart(x.topics);
    TrackRestart(env, log, View(x.topics), x.topics);
    assert WithinCap(AsIfEnv(r), log) by { RoomForAll(env, log); CapAsIf(r, log); }
    RestoredKnows(AsIfEnv(r), log, AsIfWorld(y));
  }

  /** Logs a replay can start over. */
  ghost predicate Base(env: Env, log: RaftLog, m: Logs, hw: nat) {
    hw <= |log| && LogsOk(log, hw, m) && TopicsOk(env.defaultPartitions, log, hw, m)
  }

  lemma ReplayView(env: Env, log: RaftLog, m: Logs, hw: nat, y: World)
    requires Replaying(env, log, m, hw, y) && Base(env, log, m, hw)
    ensures LogsOk(log, |log|, View(y.topics))
    ensures TopicsOk(env.defaultPartitions, log, Max(hw, y.cursor), View(y.topics))
    ensures Sound(env.cfg, y.topics)
  {
    hide AllOk, View, Fold, LogsOk, TopicsOk, SpecApply, Ensure, Writes, Sound, AllBlockedOk;
    var d, c := env.defaultPartitions, y.cursor;
    var v := Fold(d, log, m, hw, c);
    FoldOk(d, log, m, hw, c);
    FoldTopics(d, log, m, hw, c);
    LogsOkLater(log, Max(hw, c), |log|, v);
    if y.phase.Ready? {
      AllOkSound(env.cfg, y.topics);
    } else if y.phase.Routed? {
      EnsureOk(d, log, |log|, v, log[c].topic, 0);
      OpenTopics(d, log, Max(hw, c), v, c);
      TopicsOkEarlier(d, log, Max(hw, c), Max(Max(hw, c), c + 1), View(y.topics));
      AllOkSound(env.cfg, y.topics);
    } else {
      ApplyOk(d, log, c, v);
      LogsOkLater(log, c + 1, |log|, View(y.topics));
      ApplyTopics(d, log, Max(hw, c), v, c);
      TopicsOkEarlier(d, log, Max(hw, c), Max(Max(hw, c), c + 1), View(y.topics));
      BlockedSound(env, log, y);
    }
  }

  lemma TopicsOkEarlier(default: int, log: RaftLog, n: nat, n': nat, m: Logs)
    requires n <= n' <= |log| && TopicsOk(default, log, n', m)
    ensures TopicsOk(default, log, n, m)
  {
    hide Spec;
  }

  lemma AllOkSound(cfg: Config, topics: Topics)
    requires AllOk(cfg, topics)
    ensures Sound(cfg, topics)
  {
    hide LogSound, Settled, Knows, Retained;
    forall t, p | t in topics && 0 <= p < |topics[t]| ensures LogSound(cfg, topics[t][p].log) {
      assert ShardOk(cfg, topics[t][p]);
    }
  }

  lemma BlockedSound(env: Env, log: RaftLog, x: World)
    requires AllBlockedOk(env, log, x)
    ensures Sound(env.cfg, x.topics)
  {
    hide LogSound, Settled, NearlySettled, Knows, Known, Retained;
    forall t, p | t in x.topics && 0 <= p < |x.topics[t]| ensures LogSound(env.cfg, x.topics[t][p].log) {
      if t == log[x.cursor].topic && p == log[x.cursor].partition {
        assert BlockedOk(env.cfg, Target(log, x), x.phase.rec, x.phase.end);
      } else {
        assert ShardOk(env.cfg, x.topics[t][p]);
      }
    }
  }

  lemma ReplayingIsOrderly(env: Env, log: RaftLog, m: Logs, hw: nat, y: World)
    requires Replaying(env, log, m, hw, y) && Base(env, log, m, hw)
    ensures Orderly(log, y)
  {
    hide AllOk, View, Fold, LogsOk, Spec, SpecApply, Ensure, Writes, Sound, AllBlockedOk, Knows, Retained, Fits;
    var v := Fold(env.defaultPartitions, log, m, hw, y.cursor);
    ReplayView(env, log, m, hw, y);
    NextsAre(env.cfg, log, |log|, y.topics);
    if y.phase.Waiting? {
      BlockedKey(env, log, y, v);
    } else if y.phase.Routed? && Routable(log, y) {
      ShardIn(env.cfg, y.topics, log[y.cursor].topic, log[y.cursor].partition);
      ShardKnowsAll(env.cfg, Target(log, y));
    }
  }

  lemma ShardKnowsAll(cfg: Config, sh: Shard)
    requires ShardOk(cfg, sh)
    ensures Knows(sh.lru, Retained(sh.log))
  {
  }

  /** Both replay m alike so far. */
  ghost predicate InStep(env: Env, log: RaftLog, m: Logs, hw: nat, x: World, y: World) {
    && Same(x, y) && Tracks(env, log, m, x)
    && Replaying(AsIfEnv(Roomy(env, log)), log, m, hw, AsIfWorld(y))
    && Suffices(env, log, m, hw, x.cursor)
  }

  /** A command the node forgot has been logged again. */
  ghost predicate Astray(env: Env, log: RaftLog, m: Logs, hw: nat, x: World) {
    exists i :: hw <= i < |log| && Forgets(env, log, m, hw, i) && i + 1 in Indexes(View(x.topics))
  }

  lemma InStepOrderly(env: Env, log: RaftLog, m: Logs, hw: nat, x: World, y: World)
    requires InStep(env, log, m, hw, x, y) && Base(env, log, m, hw)
    ensures Orderly(log, y) && x.hw == y.hw == hw
  {
    hide Orderly, LogsOk, TopicsOk, Tracks, SameLogs, AsIfTopics, AllOk, Blocked, View, Fold, Ensure;
    ReplayingIsOrderly(AsIfEnv(Roomy(env, log)), log, m, hw, AsIfWorld(y));
    OrderlyAsIf(log, y);
  }

  lemma InStepAnswers(env: Env, log: RaftLog, m: Logs, hw: nat, x: World, y: World)
    requires InStep(env, log, m, hw, x, y) && Base(env, log, m, hw) && x.phase.Routed? && Routable(log, x)
    ensures Routable(log, y) && hw <= x.cursor < |log|
    ensures SameAnswer(log, x, y) || Forgets(env, log, m, hw, x.cursor)
    ensures Forgets(env, log, m, hw, x.cursor) ==> Hit(log, y) && !Hit(log, x)
  {
    hide LogsOk, TopicsOk, Tracks, SameLogs, AsIfTopics, AllOk, Blocked, View, Fold, Ensure, SameAnswer, Forgets, Hit;
    hide Spec;
    hide Orderly, Part, Routable;
    var e, d, t, p := log[x.cursor], env.defaultPartitions, log[x.cursor].topic, log[x.cursor].partition;
    var v := Fold(d, log, m, hw, x.cursor);
    InStepOrderly(env, log, m, hw, x, y);
    SameTarget(log, x, y);
    ViewAsIf(y.topics);
    PartEnsure(d, v, t, 0, t, p);
    FoldTopics(d, log, m, hw, x.cursor);
    RangeOf(env, log, y, v, hw);
    Answers(env, log, m, x, y);
  }

  lemma RangeOf(env: Env, log: RaftLog, y: World, v: Logs, hw: nat)
    requires Routable(log, y) && hw <= y.cursor < |log| && TopicsOk(env.defaultPartitions, log, Max(hw, y.cursor), v)
    requires View(y.topics) == Ensure(env.defaultPartitions, v, log[y.cursor].topic, 0)
    ensures var full, e := Spec(env.defaultPartitions, log, |log|), log[y.cursor];
            e.topic in full && e.partition < |full[e.topic]|
  {
    hide Spec, View, Ensure;
    OpenTopics(env.defaultPartitions, log, y.cursor, v, y.cursor);
    ViewAt(y.topics, log[y.cursor].topic, log[y.cursor].partition);
  }

  lemma PartRoutable(log: RaftLog, y: World)
    requires y.cursor < |log| && log[y.cursor].Pub?
    requires Part(View(y.topics), log[y.cursor].topic, log[y.cursor].partition) != []
    ensures Routable(log, y)
  {
    hide Retained;
  }

  /** The cursor only passes a command that was not forgotten. */
  lemma NotForgotten(env: Env, log: RaftLog, m: Logs, hw: nat, x: World, y: World, step: Replay.Step)
    requires InStep(env, log, m, hw, x, y) && Base(env, log, m, hw) && Alive(step) && hw <= x.cursor < |log|
    requires Replay.Next(env, log, x, step).cursor == x.cursor + 1
    requires x.phase.Routed? && Routable(log, x) ==> !Forgets(env, log, m, hw, x.cursor)
    ensures !Forgets(env, log, m, hw, x.cursor)
  {
    hide LogsOk, TopicsOk, Tracks, SameLogs, AsIfTopics, AllOk, AllBlockedOk, View, Fold, Ensure, Uses, Remembers, Fits;
    hide Part, Known, PublishStep, FinishStep, CommitterStep, Open;
    var v := Fold(env.defaultPartitions, log, m, hw, x.cursor);
    ViewAsIf(y.topics);
    if x.phase.Routed? {
      var t, p := log[x.cursor].topic, log[x.cursor].partition;
      PartEnsure(env.defaultPartitions, v, t, 0, t, p);
      SameTarget(log, x, y);
      if Forgets(env, log, m, hw, x.cursor) {
        KnownSome(Part(v, t, p), log[x.cursor].key);
        PartRoutable(log, y);
      }
    } else if x.phase.Waiting? {
      assert Blocked(AsIfEnv(Roomy(env, log)), log, AsIfWorld(y), v);
      BlockedUnknown(env.defaultPartitions, v, log[x.cursor]);
    } else {
      StaysReady(env, log, x, step);
    }
  }

  lemma KnownSome(rs: seq<Record>, key: Dedupe.Key)
    requires Known(rs, key)
    ensures rs != []
  {
  }

  lemma BlockedUnknown(default: int, v: Logs, e: Command)
    requires Writes(Ensure(default, v, e.topic, 0), e)
    ensures !Known(Part(v, e.topic, e.partition), e.key)
  {
    hide Known;
    var m1 := Ensure(default, v, e.topic, 0);
    WritesKnows(m1, e);
    InPart(m1, e.topic, e.partition);
    PartEnsure(default, v, e.topic, 0, e.topic, e.partition);
  }

  lemma StaysReady(env: Env, log: RaftLog, x: World, step: Replay.Step)
    requires x.phase.Ready? && Alive(step) && x.hw <= x.cursor < |log|
    requires Replay.Next(env, log, x, step).cursor == x.cursor + 1
    ensures log[x.cursor].Create?
  {
    hide AppendStep, Open, Dedupe.Put, Dedupe.Pos, Dedupe.Bump, Encodable, MustRotate, Wal.Next;
  }

  lemma CursorMoves(env: Env, log: RaftLog, x: World, step: Replay.Step)
    requires Alive(step)
    ensures var y := Replay.Next(env, log, x, step);
            (y.cursor == x.cursor || y.cursor == x.cursor + 1) && y.hw == x.hw
  {
    hide AppendStep, Open, Dedupe.Put, Dedupe.Pos, Dedupe.Bump, Encodable, MustRotate, Wal.Next;
  }

  lemma NextMatches(env: Env, log: RaftLog, m: Logs, hw: nat, x: World, y: World, step: Replay.Step)
    requires InStep(env, log, m, hw, x, y) && Base(env, log, m, hw) && Alive(step)
    requires step.Publish? && x.phase.Routed? && Routable(log, x) ==> !Forgets(env, log, m, hw, x.cursor)
    ensures Same(Replay.Next(env, log, x, step), Replay.Next(Roomy(env, log), log, y, step))
    ensures Tracks(env, log, m, Replay.Next(env, log, x, step))
  {
    hide Replaying, BeginStep, PublishStep, FinishStep, CommitterStep, Tracks, SameLogs, SameAnswer, Forgets;
    hide AsIfTopics;
    hide Knows, Retained, Fits, LogsOk, TopicsOk;
    InStepOrderly(env, log, m, hw, x, y);
    match step
    case Begin =>
      BeginSame(env, |log|, log, x, y);
      MTopics(env, log, m, hw, x, y);
      TrackBegin(env, log, m, x);
    case Publish(_) =>
      SameTarget(log, x, y);
      if x.phase.Routed? && Routable(log, x) { InStepAnswers(env, log, m, hw, x, y); }
      PublishSame(env, |log|, log, x, y, OK);
      TrackPublish(env, log, m, x, y);
    case Committer(t, p, st) =>
      CommitterSame(env, |log|, x, y, t, p, st);
      TrackCommitter(env, log, m, x, t, p, st);
    case Finish =>
      FinishSame(env, |log|, log, x, y);
      TrackFinish(env, log, m, x, y);
  }

  lemma MTopics(env: Env, log: RaftLog, m: Logs, hw: nat, x: World, y: World)
    requires InStep(env, log, m, hw, x, y) && Base(env, log, m, hw)
    ensures x.phase.Ready? ==> forall t :: t in m ==> t in x.topics
    ensures forall j :: 0 <= j < x.cursor ==> log[j].topic in x.topics
  {
    hide LogsOk, TopicsOk, Tracks, AsIfTopics, AllOk, Blocked, View, Fold, Ensure, Knows, Retained, Fits;
    InStepOrderly(env, log, m, hw, x, y);
    if x.phase.Ready? {
      ViewAsIf(y.topics);
      forall t | t in m ensures t in x.topics { FoldKeepsTopics(env.defaultPartitions, log, m, hw, x.cursor, t); }
    }
  }

  lemma {:induction false} FoldKeepsTopics(default: int, log: RaftLog, m: Logs, hw: nat, c: nat, t: Name)
    requires c <= |log| && t in m
    ensures t in Fold(default, log, m, hw, c)
  {
    hide Grows;
    if c > 0 {
      FoldKeepsTopics(default, log, m, hw, c - 1, t);
      FoldGrows(default, log, m, hw, c - 1);
      GrowsCount(Fold(default, log, m, hw, c - 1), Fold(default, log, m, hw, c), t);
    }
  }

  lemma InStepNext(env: Env, log: RaftLog, m: Logs, hw: nat, x: World, y: World, step: Replay.Step)
    requires InStep(env, log, m, hw, x, y) && Base(env, log, m, hw) && Alive(step)
    requires x.phase.Routed? && Routable(log, x) ==> step.Publish? ==> !Forgets(env, log, m, hw, x.cursor)
    ensures InStep(env, log, m, hw, Replay.Next(env, log, x, step), Replay.Next(Roomy(env, log), log, y, step))
  {
    hide Replaying, Replay.Next, Tracks, Forgets, LogsOk, TopicsOk, AsIfTopics, SameLogs, WithinCap, Orderly;
    var r, x' := Roomy(env, log), Replay.Next(env, log, x, step);
    InStepOrderly(env, log, m, hw, x, y);
    NextMatches(env, log, m, hw, x, y, step);
    RoomForAll(env, log);
    AliveReplays(r, log, m, hw, y, step);
    CursorMoves(env, log, x, step);
    assert x'.cursor <= |log| by { TracksCursor(env, log, m, x'); }
    if x'.cursor == x.cursor + 1 && hw <= x.cursor {
      if x.phase.Routed? && Routable(log, x) { RoutedMoves(env, log, x, step); }
      NotForgotten(env, log, m, hw, x, y, step);
    }
  }

  lemma TracksCursor(env: Env, log: RaftLog, m: Logs, x: World)
    requires Tracks(env, log, m, x)
    ensures x.cursor <= |log|
  {
  }

  lemma RoutedMoves(env: Env, log: RaftLog, x: World, step: Replay.Step)
    requires x.phase.Routed? && Alive(step) && Replay.Next(env, log, x, step).cursor == x.cursor + 1
    ensures step.Publish?
  {
    hide AppendStep, Open, Dedupe.Put, Dedupe.Pos, Dedupe.Bump, Encodable, MustRotate, Wal.Next;
  }

  // ---- Going astray ----

  lemma AppendLogsAny(env: Env, log: RaftLog, y: World)
    requires Routable(log, y) && Fits(log[y.cursor]) && Target(log, y).log.next < U64
    requires LogSound(AsIfEnv(env).cfg, WalShape.AsIf(Target(log, y).log, {}))
    ensures var s := Target(log, y).log;
            var rec := Stamp(log[y.cursor], y.cursor + 1, 0);
            Retained(AppendStep(env.cfg, s, rec, OK)) == Retained(s) + [rec.(msgID := s.next)]
  {
    hide LogSound, Retained, AppendStep, Fits, WalShape.AsIf, Target, Settled, NearlySettled;
    var s, rec, e := Target(log, y).log, Stamp(log[y.cursor], y.cursor + 1, 0), AsIfEnv(env);
    var u := WalShape.AsIf(s, {});
    LogDense(e.cfg, u);
    AsIfFields(s);
    WalShape.RetainedAsIf(s, {});
    FitsAny(log[y.cursor], y.cursor + 1, s.next);
    StampIs(log[y.cursor], y.cursor + 1, s.next);
    AppendWrites(e.cfg, u, rec);
    WalShape.AsIfAlike(s, {});
    WalShape.AppendAlike(env.cfg, s, u, rec, OK);
    AlikeRetains(AppendStep(env.cfg, s, rec, OK), AppendStep(e.cfg, u, rec, OK));
  }

  lemma GoesAstray(env: Env, log: RaftLog, m: Logs, hw: nat, x: World, y: World)
    requires InStep(env, log, m, hw, x, y) && Base(env, log, m, hw) && x.phase.Routed? && Routable(log, x)
    requires x.cursor < |log| && Forgets(env, log, m, hw, x.cursor)
    ensures x.cursor + 1 in Indexes(View(PublishStep(env, log, x, OK).topics))
  {
    hide LogsOk, TopicsOk, Tracks, AsIfTopics, AllOk, AllBlockedOk, View, Fold, Ensure, Hit, PublishStep, Indexes, Fits;
    hide AppendStep, Retained, LogSound, Sound, WalShape.AsIf, Knows, SameAnswer, Uses, Known, Remembers;
    InStepAnswers(env, log, m, hw, x, y);
    InStepOrderly(env, log, m, hw, x, y);
    SameTarget(log, x, y);
    var e, a := AsIfEnv(Roomy(env, log)), AsIfWorld(y);
    AllOkSound(e.cfg, a.topics);
    RoutableAsIf(log, y);
    TargetSound(e.cfg, log, a);
    AppendLogsAny(env, log, x);
    MissLogs(env, log, x);
  }

  lemma TargetSound(cfg: Config, log: RaftLog, x: World)
    requires Sound(cfg, x.topics) && Routable(log, x)
    ensures LogSound(cfg, Target(log, x).log)
  {
  }

  // ---- The replay ----

  /** Where an undisturbed replay can be: beside the roomy one, or astray for good. */
  ghost predicate Replays(env: Env, log: RaftLog, m: Logs, hw: nat, x: World, y: World, n: nat) {
    && x.hw == hw && WeakInv(AsIfEnv(env), log, AsIfWorld(x), n) && Low(View(x.topics), hw) == Indexes(m)
    && (InStep(env, log, m, hw, x, y) || Astray(env, log, m, hw, x))
  }

  lemma AddsLow(x: World, y: World, hw: nat)
    requires Adds(x, y) && x.hw == hw
    ensures Low(View(y.topics), hw) == Low(View(x.topics), hw)
  {
    hide View, Indexes;
  }

  lemma StaysAstray(env: Env, log: RaftLog, m: Logs, hw: nat, x: World, y: World)
    requires Astray(env, log, m, hw, x) && Adds(x, y)
    ensures Astray(env, log, m, hw, y)
  {
    hide View, Indexes, Forgets;
  }

  lemma ReplayStep(env: Env, log: RaftLog, m: Logs, hw: nat, x: World, y: World, n: nat, step: Replay.Step)
    returns (n': nat)
    requires Replays(env, log, m, hw, x, y, n) && Base(env, log, m, hw) && Alive(step)
    ensures Replays(env, log, m, hw, Replay.Next(env, log, x, step), Replay.Next(Roomy(env, log), log, y, step), n')
  {
    hide WeakInv, InStep, Astray, Replay.Next, View, Indexes, Low, Adds, AsIfTopics, Base, Forgets;
    var x' := Replay.Next(env, log, x, step);
    n' := LivesWeak(env, log, x, n, step);
    AliveAdds(env, log, x, n, step);
    AddsLow(x, x', hw);
    CursorMoves(env, log, x, step);
    if Astray(env, log, m, hw, x) {
      StaysAstray(env, log, m, hw, x, x');
    } else if step.Publish? && x.phase.Routed? && Routable(log, x) {
      PublishOrAstray(env, log, m, hw, x, y, step);
    } else {
      InStepNext(env, log, m, hw, x, y, step);
    }
  }

  lemma PublishOrAstray(env: Env, log: RaftLog, m: Logs, hw: nat, x: World, y: World, step: Replay.Step)
    requires InStep(env, log, m, hw, x, y) && Base(env, log, m, hw) && Alive(step)
    requires step.Publish? && x.phase.Routed? && Routable(log, x)
    ensures var x', y' := Replay.Next(env, log, x, step), Replay.Next(Roomy(env, log), log, y, step);
            InStep(env, log, m, hw, x', y') || Astray(env, log, m, hw, x')
  {
    hide InStep, View, Indexes, Base, Forgets, PublishStep, SameAnswer, Hit;
    InStepAnswers(env, log, m, hw, x, y);
    if Forgets(env, log, m, hw, x.cursor) {
      GoesAstray(env, log, m, hw, x, y);
    } else {
      InStepNext(env, log, m, hw, x, y, step);
    }
  }

  lemma {:induction false} ReplayPath(env: Env, log: RaftLog, x: World, n: nat, steps: seq<Replay.Step>)
    returns (n': nat)
    requires Restored(AsIfEnv(env), log, AsIfWorld(x)) && WeakInv(AsIfEnv(env), log, AsIfWorld(x), n) && AllAlive(steps)
    ensures Base(env, log, View(x.topics), x.hw)
    ensures var r := Roomy(env, log);
            Replays(env, log, View(x.topics), x.hw, RunFrom(env, log, x, steps),
                    RunFrom(r, log, RoomyWorld(x, |log|), steps), n')
  {
    hide Restored, WeakInv, Replay.Next, View, AsIfTopics, Replays, Base, RoomyTopics;
    var m, hw, r := View(x.topics), x.hw, Roomy(env, log);
    if steps == [] {
      n' := n;
      ReplayStarts(env, log, x, n);
    } else {
      var init, step := steps[..|steps| - 1], steps[|steps| - 1];
      n' := ReplayPath(env, log, x, n, init);
      assert Alive(step);
      var z, y := RunFrom(env, log, x, init), RunFrom(r, log, RoomyWorld(x, |log|), init);
      n' := ReplayStep(env, log, m, hw, z, y, n', step);
    }
  }

  lemma ReplayStarts(env: Env, log: RaftLog, x: World, n: nat)
    requires Restored(AsIfEnv(env), log, AsIfWorld(x)) && WeakInv(AsIfEnv(env), log, AsIfWorld(x), n)
    ensures Base(env, log, View(x.topics), x.hw)
    ensures Replays(env, log, View(x.topics), x.hw, x, RoomyWorld(x, |log|), n)
  {
    hide WeakInv, View, AsIfTopics, RoomyTopics, LogsOk, TopicsOk, AllRestored, AllOk, MaxOf, Indexes, Tracks, Forgets;
    hide Replaying, SameLogs;
    ViewAsIf(x.topics);
    RoomyRestored(env, log, x);
    RestartedParts(AsIfEnv(Roomy(env, log)), log, AsIfWorld(RoomyWorld(x, |log|)));
    ViewAsIf(RoomyWorld(x, |log|).topics);
    assert Low(View(x.topics), x.hw) == Indexes(View(x.topics)) by {
      assert forall i :: i in Indexes(View(x.topics)) ==> i <= MaxOf(Indexes(View(x.topics)));
    }
  }

  // ---- Exactly when ----

  lemma AheadPart(f: Logs, s: Logs, full: Logs, t: Name, p: int)
    requires Ahead(f, s, full)
    ensures Part(f, t, p) == Part(s, t, p)
  {
  }

  /** Over logs with the right indexes the node forgets what it would forget over those of the uninterrupted run. */
  lemma ForgetsAhead(env: Env, log: RaftLog, m: Logs, hw: nat, i: nat)
    requires Base(env, log, m, hw) && Indexes(m) == Indexes(Spec(env.defaultPartitions, log, hw)) && hw <= i < |log|
    ensures Forgets(env, log, m, hw, i) <==> Forgets(env, log, Spec(env.defaultPartitions, log, hw), hw, i)
    ensures Forgets(env, log, m, hw, i) ==>
              && log[i].Pub?
              && Known(Part(Spec(env.defaultPartitions, log, i), log[i].topic, log[i].partition), log[i].key)
  {
    hide LogsOk, Indexes, Spec, Fold, Ahead, Part, Known, Uses, Remembers, Fits;
    var d := env.defaultPartitions;
    var s, full := Spec(d, log, hw), Spec(d, log, |log|);
    RestartedIsAhead(d, log, m, hw);
    FoldAhead(d, log, m, hw, i);
    FoldOfSpec(d, log, hw, i);
    if log[i].Pub? {
      var t, p := log[i].topic, log[i].partition;
      AheadPart(m, s, full, t, p);
      AheadPart(Fold(d, log, m, hw, i), Spec(d, log, i), full, t, p);
    }
  }

  lemma EnoughIff(env: Env, log: RaftLog, m: Logs, hw: nat)
    requires Base(env, log, m, hw) && Indexes(m) == Indexes(Spec(env.defaultPartitions, log, hw))
    ensures Suffices(env, log, m, hw, |log|) <==> Enough(env, log, hw, |log|)
  {
    hide Base, Indexes, Spec, Forgets;
    forall i | hw <= i < |log|
      ensures Forgets(env, log, m, hw, i) <==> Forgets(env, log, Spec(env.defaultPartitions, log, hw), hw, i)
    {
      ForgetsAhead(env, log, m, hw, i);
    }
  }

  lemma AstrayIsWrong(env: Env, log: RaftLog, m: Logs, hw: nat, x: World)
    requires Base(env, log, m, hw) && Indexes(m) == Indexes(Spec(env.defaultPartitions, log, hw))
    requires Astray(env, log, m, hw, x)
    ensures View(x.topics) != Spec(env.defaultPartitions, log, |log|)
  {
    hide Base, Indexes, Spec, Forgets, View, Known;
    var i :| hw <= i < |log| && Forgets(env, log, m, hw, i) && i + 1 in Indexes(View(x.topics));
    ForgetsAhead(env, log, m, hw, i);
    KnownNotLogged(env.defaultPartitions, log, i, |log|);
  }

  /**
   * An undisturbed replay over whatever was recovered ends with the logs of an uninterrupted run if and only if the
   * recovered records have exactly the raft indexes of such a run up to the mark, and each later publish that
   * repeats a logged key finds it among the last cap keys used since then.
   */
  lemma ReplayIff(env: Env, log: RaftLog, x: World, n: nat, steps: seq<Replay.Step>)
    requires Restored(AsIfEnv(env), log, AsIfWorld(x)) && WeakInv(AsIfEnv(env), log, AsIfWorld(x), n) && AllAlive(steps)
    requires var z := RunFrom(env, log, x, steps); z.phase.Ready? && z.cursor == |log|
    ensures x.hw <= |log|
    ensures View(RunFrom(env, log, x, steps).topics) == Spec(env.defaultPartitions, log, |log|)
       <==> && Indexes(View(x.topics)) == Indexes(Spec(env.defaultPartitions, log, x.hw))
            && Enough(env, log, x.hw, |log|)
  {
    hide Restored, WeakInv, View, AsIfTopics, RunFrom, Indexes, Spec, Fold, LogsOk, TopicsOk, Low, Enough, Astray;
    hide Suffices;
    hide Tracks, RoomyTopics, Replaying;
    var d, m, hw, r := env.defaultPartitions, View(x.topics), x.hw, Roomy(env, log);
    var z, y := RunFrom(env, log, x, steps), RunFrom(r, log, RoomyWorld(x, |log|), steps);
    var n' := ReplayPath(env, log, x, n, steps);
    SpecKeepsLow(d, log, hw, |log|);
    if Indexes(m) == Indexes(Spec(d, log, hw)) {
      EnoughIff(env, log, m, hw);
      if Astray(env, log, m, hw, z) {
        AstrayIsWrong(env, log, m, hw, z);
        AstrayForgets(env, log, m, hw, z);
      } else {
        ReplayedView(r, log, m, hw, y);
        SameLogsView(z.topics, y.topics);
        FoldIsSpecIff(d, log, m, hw);
      }
    }
  }

  lemma AstrayForgets(env: Env, log: RaftLog, m: Logs, hw: nat, x: World)
    requires Astray(env, log, m, hw, x)
    ensures !Suffices(env, log, m, hw, |log|)
  {
    hide Forgets, View, Indexes;
  }

  lemma StartRestored(env: Env, log: RaftLog)
    ensures Restored(AsIfEnv(env), log, AsIfWorld(START)) && WeakInv(AsIfEnv(env), log, AsIfWorld(START), 0)
  {
    StartWeak(AsIfEnv(env), log);
    WeakAsIf(AsIfEnv(env), log, START, 0);
    var a: Topics := AsIfTopics(START.topics);
    assert a == map[];
    assert Indexes(View(a)) == {};
  }

  /** In every sync mode, a run nothing disturbs ends with the specified logs if and only if no key is forgotten. */
  lemma UninterruptedIff(env: Env, log: RaftLog, steps: seq<Replay.Step>)
    requires AllAlive(steps)
    requires var z := RunFrom(env, log, START, steps); z.phase.Ready? && z.cursor == |log|
    ensures View(RunFrom(env, log, START, steps).topics) == Spec(env.defaultPartitions, log, |log|)
       <==> Enough(env, log, 0, |log|)
  {
    hide RunFrom, View, Spec, Enough, Restored, WeakInv, AsIfTopics, Indexes;
    StartRestored(env, log);
    ReplayIff(env, log, START, 0, steps);
    NothingYet(env, log);
  }

  lemma NothingYet(env: Env, log: RaftLog)
    ensures Indexes(View(START.topics)) == Indexes(Spec(env.defaultPartitions, log, 0))
  {
    assert View(START.topics) == map[];
  }

  /** After any run with failing writes and fsyncs, and any power loss. */
  lemma AnyRunIff(env: Env, log: RaftLog, before: seq<Replay.Step>, failure: Replay.Step, after: seq<Replay.Step>)
    requires env.cfg.mode != NoSync && AllAlive(after) && Fails(env, log, Replay.Run(env, log, before), failure)
    requires var y := RunFrom(env, log, Replay.Next(env, log, Replay.Run(env, log, before), failure), after);
             y.phase.Ready? && y.cursor == |log|
    ensures var x := Replay.Next(env, log, Replay.Run(env, log, before), failure);
            var y := RunFrom(env, log, x, after);
            && x.hw <= |log|
            && (View(y.topics) == Spec(env.defaultPartitions, log, |log|)
                <==> && Indexes(View(x.topics)) == Indexes(Spec(env.defaultPartitions, log, x.hw))
                     && Enough(env, log, x.hw, |log|))
  {
    hide Replay.Run, Replay.Next, RunFrom, View, Spec, Enough, Restored, WeakInv, Indexes, AsIfTopics, Fails, WithinCap;
    hide Restarted;
    var w := Replay.Run(env, log, before);
    var x := Replay.Next(env, log, w, failure);
    AnyRunRestarts(env, log, before, failure);
    var n := AnyRunKeeps(env, log, before);
    n := StepWeak(env, log, w, n, failure);
    RestoredAsIf(env, log, x);
    WeakAsIf(env, log, x, n);
    assert AsIfEnv(env) == env;
    ReplayIff(env, log, x, n, after);
  }

  /** After any run with failures, kills at any point and power losses that cut active files only, in every mode. */
  lemma AnyActsIff(env: Env, log: RaftLog, before: seq<Act>, end: Act, after: seq<Replay.Step>)
    requires LossesSpare(env, log, before) && AllAlive(after)
    requires var w := ActRun(env, log, before); Ends(env, log, w, end) && Spared(env, log, w, end)
    requires var y := RunFrom(env, log, ActNext(env, log, ActRun(env, log, before), end), after);
             y.phase.Ready? && y.cursor == |log|
    ensures var x := ActNext(env, log, ActRun(env, log, before), end);
            var y := RunFrom(env, log, x, after);
            && x.hw <= |log|
            && (View(y.topics) == Spec(env.defaultPartitions, log, |log|)
                <==> && Indexes(View(x.topics)) == Indexes(Spec(env.defaultPartitions, log, x.hw))
                     && Enough(env, log, x.hw, |log|))
  {
    hide ActRun, ActNext, RunFrom, View, Spec, Enough, Restored, WeakInv, Indexes, AsIfTopics, LossesSpare, Ends;
    hide Spared;
    var w := ActRun(env, log, before);
    var n := ActsKeep(env, log, before);
    EndRestarts(env, log, w, n, end);
    n := ActWeak(env, log, w, n, end);
    ReplayIff(env, log, ActNext(env, log, w, end), n, after);
  }

  // ---- What the replay makes of recovered logs ----

  lemma {:induction false} FoldHigh(default: int, log: RaftLog, m: Logs, hw: nat, i: nat, c: nat)
    requires hw <= i < c <= |log| && NoneAbove(m, hw) && log[i].Pub? && LogsOk(log, hw, m) && hw <= |log|
    requires Known(Part(Fold(default, log, m, hw, i), log[i].topic, log[i].partition), log[i].key)
    ensures i + 1 !in Indexes(Fold(default, log, m, hw, c))
    decreases c
  {
    hide Indexes, Fold, LogsOk, Known, SpecApply;
    var f := Fold(default, log, m, hw, c - 1);
    FoldStep(default, log, m, hw, c - 1);
    if c == i + 1 {
      FoldOk(default, log, m, hw, i);
      IndexesBounded(log, Max(hw, i), f);
      KnownAddsNothing(default, f, log[i], c);
    } else {
      FoldHigh(default, log, m, hw, i, c - 1);
      ApplyAdds(default, f, log[c - 1], c);
    }
  }

  lemma KnownAddsNothing(default: int, m: Logs, e: Command, index: u64)
    requires e.Pub? && Known(Part(m, e.topic, e.partition), e.key)
    ensures Indexes(SpecApply(default, m, e, index)) == Indexes(m)
  {
    hide Known, Indexes;
    EnsureTwice(default, m, e.topic, 0);
  }

  /**
   * An undisturbed replay over whatever was recovered applies each command above the mark exactly once to it if
   * and only if none of them is forgotten.
   */
  lemma ReplayFoldsIff(env: Env, log: RaftLog, x: World, n: nat, steps: seq<Replay.Step>)
    requires Restored(AsIfEnv(env), log, AsIfWorld(x)) && WeakInv(AsIfEnv(env), log, AsIfWorld(x), n) && AllAlive(steps)
    requires var z := RunFrom(env, log, x, steps); z.phase.Ready? && z.cursor == |log|
    ensures View(RunFrom(env, log, x, steps).topics) == Fold(env.defaultPartitions, log, View(x.topics), x.hw, |log|)
       <==> Suffices(env, log, View(x.topics), x.hw, |log|)
  {
    hide Restored, WeakInv, View, AsIfTopics, RunFrom, Indexes, Fold, LogsOk, TopicsOk, Low, Suffices, Tracks;
    hide RoomyTopics;
    hide Replaying, NoneAbove, Known;
    var d, m, hw, r := env.defaultPartitions, View(x.topics), x.hw, Roomy(env, log);
    var z, y := RunFrom(env, log, x, steps), RunFrom(r, log, RoomyWorld(x, |log|), steps);
    var n' := ReplayPath(env, log, x, n, steps);
    IndexesBounded(log, hw, m);
    if Astray(env, log, m, hw, z) {
      AstrayForgets(env, log, m, hw, z);
      var i :| hw <= i < |log| && Forgets(env, log, m, hw, i) && i + 1 in Indexes(View(z.topics));
      FoldHigh(d, log, m, hw, i, |log|);
    } else {
      ReplayedView(r, log, m, hw, y);
      SameLogsView(z.topics, y.topics);
    }
  }

  // ---- The straight run ----

  lemma {:induction false} StraightCoupled(env: Env, log: RaftLog, n: nat) returns (k: nat)
    requires n <= |log| && Enough(env, log, 0, n)
    ensures Coupled(env, true, log, Straight(env, log, n), Straight(Roomy(env, log), log, n), k)
    ensures var x := Straight(env, log, n); x.phase.Ready? && x.hw == 0 && x.cursor == n && AllIdle(x.topics)
  {
    hide Coupled, Enough, ApplyOne, AllIdle;
    if n == 0 {
      k := 0;
      StartCoupled(env, true, log);
      assert AllIdle(START.topics) by { NoneIdle(); }
    } else {
      EnoughBelow(env, log, n - 1, n);
      k := StraightCoupled(env, log, n - 1);
      k := ApplyCoupled(env, log, Straight(env, log, n - 1), Straight(Roomy(env, log), log, n - 1), k, n);
    }
  }

  lemma EnoughBelow(env: Env, log: RaftLog, b: nat, c: nat)
    requires b <= c <= |log| && Enough(env, log, 0, c)
    ensures Enough(env, log, 0, b)
  {
    hide Forgets;
  }

  lemma ApplyCoupled(env: Env, log: RaftLog, x: World, y: World, k: nat, b: nat) returns (k': nat)
    requires Coupled(env, true, log, x, y, k) && x.phase.Ready? && x.hw == 0 && AllIdle(x.topics)
    requires x.cursor < b <= |log| && Enough(env, log, 0, b)
    ensures Coupled(env, true, log, ApplyOne(env, log, x), ApplyOne(Roomy(env, log), log, y), k')
    ensures var z := ApplyOne(env, log, x); z.phase.Ready? && z.hw == 0 && z.cursor == x.cursor + 1 && AllIdle(z.topics)
  {
    hide Coupled, Enough, AllIdle, BeginStep, PublishStep, FinishStep, CommitterStep, Routable;
    var r := Roomy(env, log);
    var y1, y2;
    y1, k' := StepCoupled(env, true, log, x, y, k, Does(Begin), b);
    var x1 := BeginStep(env, log, x);
    BeginCursor(env, log, x);
    LivesMark(env, log, x, Begin);
    LivesMark(env, log, x1, Publish(OK));
    y2, k' := StepCoupled(env, true, log, x1, y1, k', Does(Publish(OK)), b);
    var x2 := PublishStep(env, log, x1, OK);
    PairAdvances(env, log, x);
    PairIdle(env, log, x);
    CoupledPhase(env, log, x2, y2, k');
    if x2.phase.Waiting? {
      BeginNotWaiting(env, log, x);
      WaitsOnlyBatched(env, log, x1);
      k' := FlushCoupled(env, log, x2, y2, k', b);
    }
  }

  lemma CoupledPhase(env: Env, log: RaftLog, x: World, y: World, k: nat)
    requires Coupled(env, true, log, x, y, k)
    ensures x.phase == y.phase && (Routable(log, x) <==> Routable(log, y))
  {
    hide InvSome, Tracks, Mark, Spec;
    SameTarget(log, x, y);
  }

  lemma FlushCoupled(env: Env, log: RaftLog, x: World, y: World, k: nat, b: nat) returns (k': nat)
    requires Coupled(env, true, log, x, y, k) && x.phase.Waiting? && x.hw == 0 && AllIdle(x.topics)
    requires env.cfg.mode == Batched && b <= |log| && Enough(env, log, 0, b)
    ensures Routable(log, x) && Routable(log, y)
    ensures var z := FinishStep(env, log, FlushTarget(env, log, x));
            && z.phase.Ready? && z.hw == 0 && z.cursor == x.cursor + 1 && AllIdle(z.topics)
            && Coupled(env, true, log, z, FinishStep(Roomy(env, log), log, FlushTarget(Roomy(env, log), log, y)), k')
  {
    hide Enough, AllIdle, InvSome, Tracks, Mark, FinishStep, SameLogs, Spec;
    FlushBoth(env, true, log, x, y, k);
    CoupledPhase(env, log, x, y, k);
    var t, p := log[x.cursor].topic, log[x.cursor].partition;
    var y1, y2, y3, y4;
    y1, k' := StepCoupled(env, true, log, x, y, k, Does(Committer(t, p, FlushSnap)), b);
    var x1 := CommitterStep(env, x, t, p, FlushSnap);
    y2, k' := StepCoupled(env, true, log, x1, y1, k', Does(Committer(t, p, FlushSync(true))), b);
    var x2 := CommitterStep(env, x1, t, p, FlushSync(true));
    y3, k' := StepCoupled(env, true, log, x2, y2, k', Does(Committer(t, p, FlushPublish)), b);
    var x3 := CommitterStep(env, x2, t, p, FlushPublish);
    LivesMark(env, log, x3, Finish);
    y4, k' := StepCoupled(env, true, log, x3, y3, k', Does(Finish), b);
  }

  lemma {:induction false} StraightRuns(env: Env, log: RaftLog, n: nat) returns (steps: seq<Replay.Step>)
    ensures AllAlive(steps) && RunFrom(env, log, START, steps) == Straight(env, log, n)
  {
    hide BeginStep, PublishStep, FinishStep, CommitterStep;
    steps := [];
    if n > 0 {
      var x := Straight(env, log, n - 1);
      steps := StraightRuns(env, log, n - 1);
      steps := One(env, log, START, steps, Begin);
      steps := One(env, log, START, steps, Publish(OK));
      var y := PublishStep(env, log, BeginStep(env, log, x), OK);
      if y.phase.Waiting? && Routable(log, y) {
        var t, p := log[y.cursor].topic, log[y.cursor].partition;
        steps := One(env, log, START, steps, Committer(t, p, FlushSnap));
        steps := One(env, log, START, steps, Committer(t, p, FlushSync(true)));
        steps := One(env, log, START, steps, Committer(t, p, FlushPublish));
        steps := One(env, log, START, steps, Finish);
      }
    }
  }

  lemma One(env: Env, log: RaftLog, x: World, steps: seq<Replay.Step>, step: Replay.Step)
    returns (more: seq<Replay.Step>)
    requires AllAlive(steps) && Alive(step)
    ensures AllAlive(more) && RunFrom(env, log, x, more) == Replay.Next(env, log, RunFrom(env, log, x, steps), step)
  {
    hide Replay.Next;
    more := steps + [step];
    assert more[..|steps|] == steps;
  }

  /**
   * In every sync mode, applying the log straight through, a batched command with the flush it waits for, reaches
   * its end with the specified logs if and only if each repeated key is among the last cap used when it comes.
   */
  lemma StraightIff(env: Env, log: RaftLog)
    ensures (var x := Straight(env, log, |log|);
             x.phase.Ready? && x.cursor == |log| && View(x.topics) == Spec(env.defaultPartitions, log, |log|))
       <==> Enough(env, log, 0, |log|)
  {
    hide Straight, View, Spec, Enough, RunFrom, AllAlive, Coupled, AllIdle;
    var x := Straight(env, log, |log|);
    var steps := StraightRuns(env, log, |log|);
    if Enough(env, log, 0, |log|) {
      var k := StraightCoupled(env, log, |log|);
    }
    if x.phase.Ready? && x.cursor == |log| { UninterruptedIff(env, log, steps); }
  }
}
