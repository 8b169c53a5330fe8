/**
 * Replay in every sync mode, with processes killed at any point, also with bytes they had not fsynced. Such a
 * kill keeps every record in the page cache, so the high-water mark rises over it, and a later power loss can
 * still take it. As in WalShape, a world is compared with one that has fsynced all it wrote.
 */
module ReplayKills {
  import opened Codec
  import opened Stream
  import opened Wal
  import opened WalSafety
  import opened WalTheorems
  import opened WalShape
  import opened ReplaySpec
  import opened Shards
  import opened Replay
  import opened ReplayFailures
  import Dedupe

  // ---- Runs with kills ----

  /** Killed and KilledIn: a SIGKILL between steps, and inside Append after the system calls io lets through. */
  datatype Act = Does(step: Replay.Step) | Killed | KilledIn(io: Io)

  function Reread(cap: int, s: State): Shard { Shard(s, Dedupe.Rebuild(cap, Keys(Retained(s)), 0)) }

  /** openPartition over what the page cache holds. */
  function KillAll(cap: int, topics: Topics): (after: Topics)
    ensures after.Keys == topics.Keys
    ensures forall t :: t in topics ==> |after[t]| == |topics[t]|
    ensures forall t, p :: t in topics && 0 <= p < |topics[t]| ==>
              after[t][p] == Reread(cap, KillStep(topics[t][p].log))
  {
    map t | t in topics ::
      seq(|topics[t]|, p requires 0 <= p < |topics[t]| => Reread(cap, KillStep(topics[t][p].log)))
  }

  ghost function Restart(topics: Topics): World { World(topics, MaxOf(Indexes(View(topics))), 0, Ready) }

  ghost function ActNext(env: Env, log: RaftLog, x: World, act: Act): World {
    match act
    case Does(step) => Replay.Next(env, log, x, step)
    case Killed => Restart(KillAll(env.cap, x.topics))
    case KilledIn(io) => if Appends(log, x) then Restart(KillAll(env.cap, MidAppend(env, log, x, io))) else x
  }

  ghost function ActRun(env: Env, log: RaftLog, acts: seq<Act>): World {
    if acts == [] then START else ActNext(env, log, ActRun(env, log, acts[..|acts| - 1]), acts[|acts| - 1])
  }

  lemma ActSnoc(env: Env, log: RaftLog, acts: seq<Act>, act: Act)
    ensures ActRun(env, log, acts + [act]) == ActNext(env, log, ActRun(env, log, acts), act)
  {
    assert (acts + [act])[..|acts|] == acts;
  }

  lemma ActNothing(env: Env, log: RaftLog)
    ensures ActRun(env, log, []) == START
  {
  }

  // ---- The same world with everything fsynced ----

  function AsIfShard(sh: Shard): Shard { sh.(log := AsIf(sh.log, {})) }

  function AsIfTopics(topics: Topics): (after: Topics)
    ensures after.Keys == topics.Keys
    ensures forall t :: t in topics ==> |after[t]| == |topics[t]|
    ensures forall t, p :: t in topics && 0 <= p < |topics[t]| ==> after[t][p] == AsIfShard(topics[t][p])
  {
    map t | t in topics :: seq(|topics[t]|, p requires 0 <= p < |topics[t]| => AsIfShard(topics[t][p]))
  }

  function AsIfWorld(x: World): World { x.(topics := AsIfTopics(x.topics)) }

  function AsIfEnv(env: Env): Env { env.(cfg := Fsyncing(env.cfg)) }

  lemma SameTopics(a: Topics, b: Topics)
    requires a.Keys == b.Keys && (forall t :: t in a ==> |a[t]| == |b[t]|)
    requires forall t, p :: t in a && 0 <= p < |a[t]| ==> a[t][p] == b[t][p]
    ensures a == b
  {
    forall t | t in a ensures a[t] == b[t] {
    }
  }

  lemma ViewAsIf(topics: Topics)
    ensures View(AsIfTopics(topics)) == View(topics)
  {
    hide Retained, AsIf;
    forall t, p | t in topics && 0 <= p < |topics[t]|
      ensures Retained(AsIfTopics(topics)[t][p].log) == Retained(topics[t][p].log)
    {
      RetainedAsIf(topics[t][p].log, {});
    }
    SameView(AsIfTopics(topics), topics);
  }

  lemma AsIfSet(topics: Topics, t: Name, p: nat, sh: Shard)
    requires t in topics && p < |topics[t]|
    ensures AsIfTopics(SetShard(topics, t, p, sh)) == SetShard(AsIfTopics(topics), t, p, AsIfShard(sh))
  {
    hide AsIf;
    SameTopics(AsIfTopics(SetShard(topics, t, p, sh)), SetShard(AsIfTopics(topics), t, p, AsIfShard(sh)));
  }

  lemma AsIfTwice(topics: Topics)
    ensures AsIfTopics(AsIfTopics(topics)) == AsIfTopics(topics)
  {
    hide AsIf;
    forall t, p | t in topics && 0 <= p < |topics[t]|
      ensures AsIf(AsIf(topics[t][p].log, {}), {}) == AsIf(topics[t][p].log, {})
    {
      AsIfAlike(topics[t][p].log, {});
    }
    SameTopics(AsIfTopics(AsIfTopics(topics)), AsIfTopics(topics));
  }

  // ---- Steps of a living process ----

  lemma BeginAsIf(env: Env, log: RaftLog, x: World)
    ensures AsIfWorld(BeginStep(env, log, x)) == AsIfWorld(BeginStep(AsIfEnv(env), log, AsIfWorld(x)))
  {
    hide AsIf, Open;
    AsIfTwice(x.topics);
    if x.cursor < |log| {
      var e := log[x.cursor];
      OpenAsIf(env.defaultPartitions, x.topics, e.topic, if e.Create? then e.partitions else 0);
    }
  }

  lemma OpenAsIf(default: int, topics: Topics, t: Name, want: int)
    ensures AsIfTopics(Open(default, topics, t, want)) == AsIfTopics(Open(default, AsIfTopics(topics), t, want))
  {
    hide AsIf, CountFor;
    AsIfTwice(topics);
    SameTopics(AsIfTopics(Open(default, topics, t, want)), AsIfTopics(Open(default, AsIfTopics(topics), t, want)));
  }

  lemma RoutableAsIf(log: RaftLog, x: World)
    ensures Routable(log, AsIfWorld(x)) <==> Routable(log, x)
    ensures Routable(log, x) ==> Target(log, AsIfWorld(x)) == AsIfShard(Target(log, x))
  {
    hide AsIf;
  }

  lemma SetTargetAsIf(log: RaftLog, x: World, sh: Shard, sh': Shard)
    requires Routable(log, x) && AsIfShard(sh) == AsIfShard(sh')
    ensures Routable(log, AsIfWorld(x))
    ensures AsIfWorld(SetTarget(log, x, sh)) == AsIfWorld(SetTarget(log, AsIfWorld(x), sh'))
  {
    hide AsIf;
    RoutableAsIf(log, x);
    var e := log[x.cursor];
    AsIfSet(x.topics, e.topic, e.partition, sh);
    AsIfSet(AsIfTopics(x.topics), e.topic, e.partition, sh');
    AsIfTwice(x.topics);
  }

  lemma AppendShardAsIf(env: Env, sh: Shard, rec: Record, io: Io)
    ensures AsIfShard(sh.(log := AppendStep(env.cfg, sh.log, rec, io)))
         == AsIfShard(AsIfShard(sh).(log :=
              AppendStep(Fsyncing(env.cfg), AsIf(sh.log, {}), rec, FsyncingIo(env.cfg, io))))
  {
    hide AsIf, AppendStep;
    AsIfAlike(sh.log, {});
    AppendAlike(env.cfg, sh.log, AsIf(sh.log, {}), rec, io);
  }

  /** The error checks and the offset of an append do not depend on what was fsynced. */
  lemma AppendChecksAsIf(cfg: Config, s: State, rec: Record, io: Io)
    ensures var a := AsIf(s, {});
            && Refused(a, rec) == Refused(s, rec) && a.next == s.next
            && (s.next < U64 ==> AppendErrs(Fsyncing(cfg), a, rec, FsyncingIo(cfg, io)) == AppendErrs(cfg, s, rec, io))
            && AppendStep(Fsyncing(cfg), a, rec, FsyncingIo(cfg, io)).written == AppendStep(cfg, s, rec, io).written
  {
    hide AppendStep, Encodable, Size, Len;
    var a := AsIf(s, {});
    AsIfAlike(s, {});
    AppendAlike(cfg, s, a, rec, io);
    assert Active(a).baseOff == Active(s).baseOff;
  }

  lemma PublishAsIf(env: Env, log: RaftLog, x: World, io: Io)
    ensures AsIfWorld(PublishStep(env, log, x, io))
         == AsIfWorld(PublishStep(AsIfEnv(env), log, AsIfWorld(x), FsyncingIo(env.cfg, io)))
  {
    hide AsIf, AsIfTopics, AppendStep, AppendErrs, Dedupe.Put, Dedupe.Pos, Dedupe.Bump, SetTarget, Target;
    hide Encodable, FsyncingIo;
    AsIfTwice(x.topics);
    RoutableAsIf(log, x);
    if x.phase.Routed? && Routable(log, x) {
      var e, sh := log[x.cursor], Target(log, x);
      var rec := Stamp(e, x.cursor + 1, 0);
      var a := AsIfShard(sh);
      AsIfShardTwice(sh);
      if e.key != [] && Dedupe.Has(sh.lru, e.key) {
        var l := Dedupe.Bump(sh.lru, e.key);
        SetTargetAsIf(log, x, sh.(lru := l), a.(lru := l));
      } else {
        var b := AppendStep(env.cfg, sh.log, rec, io);
        var b' := AppendStep(Fsyncing(env.cfg), a.log, rec, FsyncingIo(env.cfg, io));
        AppendShardAsIf(env, sh, rec, io);
        AppendChecksAsIf(env.cfg, sh.log, rec, io);
        var r := rec.(msgID := if sh.log.next < U64 then sh.log.next else 0);
        SetTargetAsIf(log, x, sh.(log := b), a.(log := b'));
        RememberBoth(env, sh.(log := b), a.(log := b'), r);
        SetTargetAsIf(log, x, Remember(env, sh.(log := b), r), Remember(AsIfEnv(env), a.(log := b'), r));
      }
    }
  }

  lemma AsIfShardTwice(sh: Shard)
    ensures AsIfShard(AsIfShard(sh)) == AsIfShard(sh) && AsIfShard(sh).lru == sh.lru
  {
    hide AsIf;
    AsIfAlike(sh.log, {});
  }

  lemma RememberBoth(env: Env, sh: Shard, sh': Shard, r: Record)
    requires AsIfShard(sh) == AsIfShard(sh')
    ensures AsIfShard(Remember(env, sh, r)) == AsIfShard(Remember(AsIfEnv(env), sh', r))
  {
    hide AsIf, Dedupe.Put;
  }

  lemma FinishAsIf(env: Env, log: RaftLog, x: World)
    ensures AsIfWorld(FinishStep(env, log, x)) == AsIfWorld(FinishStep(AsIfEnv(env), log, AsIfWorld(x)))
  {
    hide AsIf, AsIfTopics, Wal.Next, Dedupe.Put, SetTarget, Target, Remember;
    AsIfTwice(x.topics);
    RoutableAsIf(log, x);
    if x.phase.Waiting? && Routable(log, x) {
      var sh, rec, end := Target(log, x), x.phase.rec, x.phase.end;
      var a := AsIfShard(sh);
      var b := Wal.Next(env.cfg, sh.log, Return(rec, end));
      var b' := Wal.Next(Fsyncing(env.cfg), a.log, Return(rec, end));
      AsIfFields(sh.log);
      AsIfAlike(sh.log, {});
      StepAlike(env.cfg, sh.log, a.log, Return(rec, end));
      RememberBoth(env, sh.(log := b), a.(log := b'), rec);
      SetTargetAsIf(log, x, Remember(env, sh.(log := b), rec), Remember(AsIfEnv(env), a.(log := b'), rec));
    }
  }

  lemma AsIfFields(s: State)
    ensures var a := AsIf(s, {});
            a.committed == s.committed && a.commitErr == s.commitErr && a.first == s.first && a.next == s.next
  {
  }

  lemma CommitterAsIf(env: Env, x: World, t: Name, p: nat, step: Wal.Step)
    ensures AsIfWorld(CommitterStep(env, x, t, p, step))
         == AsIfWorld(CommitterStep(AsIfEnv(env), AsIfWorld(x), t, p, step))
  {
    hide AsIf, Wal.Next, SetShard;
    AsIfTwice(x.topics);
    if t in x.topics && p < |x.topics[t]| && (step.FlushSnap? || step.FlushSync? || step.FlushPublish?) {
      var sh := x.topics[t][p];
      var a := AsIfShard(sh);
      AsIfAlike(sh.log, {});
      StepAlike(env.cfg, sh.log, a.log, step);
      AsIfSet(x.topics, t, p, sh.(log := Wal.Next(env.cfg, sh.log, step)));
      AsIfSet(AsIfTopics(x.topics), t, p, a.(log := Wal.Next(Fsyncing(env.cfg), a.log, step)));
    }
  }

  lemma AppendsAsIf(log: RaftLog, x: World)
    ensures Appends(log, AsIfWorld(x)) <==> Appends(log, x)
  {
    hide AsIf, AsIfTopics, Dedupe.Pos, Target;
    RoutableAsIf(log, x);
  }

  lemma MidAppendAsIf(env: Env, log: RaftLog, x: World, io: Io)
    requires Appends(log, x) && Appends(log, AsIfWorld(x))
    ensures AsIfTopics(MidAppend(env, log, x, io))
         == AsIfTopics(MidAppend(AsIfEnv(env), log, AsIfWorld(x), FsyncingIo(env.cfg, io)))
  {
    hide AsIf, AsIfTopics, AppendStep, Dedupe.Pos, SetTarget, Target, FsyncingIo;
    RoutableAsIf(log, x);
    var sh, rec := Target(log, x), Stamp(log[x.cursor], x.cursor + 1, 0);
    var a := AsIfShard(sh);
    var b := AppendStep(env.cfg, sh.log, rec, io);
    var b' := AppendStep(Fsyncing(env.cfg), a.log, rec, FsyncingIo(env.cfg, io));
    AppendShardAsIf(env, sh, rec, io);
    SetTargetAsIf(log, x, sh.(log := b), a.(log := b'));
  }

  // ---- What a world keeps when more is fsynced ----

  lemma LogSoundAsIf(cfg: Config, s: State)
    requires LogSound(cfg, s)
    ensures LogSound(cfg, AsIf(s, {}))
  {
    hide Inv, Floor, Retained;
    InvAsIf(cfg, s, {});
    RetainedAsIf(s, {});
    AsIfFields(s);
  }

  lemma SoundAsIf(cfg: Config, topics: Topics)
    requires Sound(cfg, topics)
    ensures Sound(cfg, AsIfTopics(topics))
  {
    hide LogSound, AsIf;
    forall t, p | t in topics && 0 <= p < |topics[t]| ensures LogSound(cfg, AsIf(topics[t][p].log, {})) {
      LogSoundAsIf(cfg, topics[t][p].log);
    }
  }

  lemma WeakAsIf(env: Env, log: RaftLog, x: World, n: nat)
    requires WeakInv(env, log, x, n)
    ensures WeakInv(env, log, AsIfWorld(x), n)
  {
    hide Sound, LogsOk, TopicsOk, View, AsIfTopics;
    SoundAsIf(env.cfg, x.topics);
    ViewAsIf(x.topics);
  }

  lemma ShardOkAsIf(cfg: Config, sh: Shard)
    requires ShardOk(cfg, sh)
    ensures ShardOk(cfg, AsIfShard(sh))
  {
    hide LogSound, Knows, Retained, AllFsynced;
    LogSoundAsIf(cfg, sh.log);
    RetainedAsIf(sh.log, {});
  }

  lemma AllOkAsIf(cfg: Config, topics: Topics)
    requires AllOk(cfg, topics)
    ensures AllOk(cfg, AsIfTopics(topics))
  {
    hide ShardOk, AsIfShard;
    forall t, p | t in topics && 0 <= p < |topics[t]| ensures ShardOk(cfg, AsIfShard(topics[t][p])) {
      ShardOkAsIf(cfg, topics[t][p]);
    }
  }

  lemma BlockedOkAsIf(cfg: Config, sh: Shard, r: Record, end: nat)
    requires BlockedOk(cfg, sh, r, end)
    ensures BlockedOk(cfg, AsIfShard(sh), r, end)
  {
    hide LogSound, Knows, Known, Retained, AllFsynced, Size, Len;
    LogSoundAsIf(cfg, sh.log);
    RetainedAsIf(sh.log, {});
    assert Active(AsIf(sh.log, {})) == Fsynced(Active(sh.log)) by { ActiveAsIf(sh.log); }
  }

  lemma ActiveAsIf(s: State)
    ensures Active(AsIf(s, {})) == Fsynced(Active(s))
  {
    hide Len;
  }

  lemma BlockedAsIf(env: Env, log: RaftLog, x: World, v: Logs)
    requires Blocked(env, log, x, v)
    ensures Blocked(env, log, AsIfWorld(x), v)
  {
    hide BlockedOk, ShardOk, SpecApply, Writes, Ensure, View, AsIfShard;
    ViewAsIf(x.topics);
    var e := log[x.cursor];
    BlockedOkAsIf(env.cfg, Target(log, x), x.phase.rec, x.phase.end);
    forall t, p | t in x.topics && 0 <= p < |x.topics[t]| && (t != e.topic || p != e.partition)
      ensures ShardOk(env.cfg, AsIfShard(x.topics[t][p]))
    {
      ShardOkAsIf(env.cfg, x.topics[t][p]);
    }
  }

  lemma ReplayingAsIf(env: Env, log: RaftLog, m: Logs, hw: nat, x: World)
    requires Replaying(env, log, m, hw, x)
    ensures Replaying(env, log, m, hw, AsIfWorld(x))
  {
    hide AllOk, Blocked, View, Ensure, Fold, AsIfShard;
    ViewAsIf(x.topics);
    if x.phase.Waiting? {
      BlockedAsIf(env, log, x, Fold(env.defaultPartitions, log, m, hw, x.cursor));
    } else {
      AllOkAsIf(env.cfg, x.topics);
    }
  }

  lemma ShardRestoredAsIf(env: Env, sh: Shard)
    requires ShardRestored(env, sh)
    ensures ShardRestored(env, AsIfShard(sh))
  {
    hide LogSound, Retained, AllFsynced, Dedupe.Rebuild, Keys;
    LogSoundAsIf(env.cfg, sh.log);
    RetainedAsIf(sh.log, {});
  }

  lemma RestoredAsIf(env: Env, log: RaftLog, x: World)
    requires Restored(env, log, x)
    ensures Restored(env, log, AsIfWorld(x))
  {
    hide ShardRestored, View, LogsOk, TopicsOk, MaxOf, Indexes, AsIfShard;
    ViewAsIf(x.topics);
    forall t, p | t in x.topics && 0 <= p < |x.topics[t]| ensures ShardRestored(env, AsIfShard(x.topics[t][p])) {
      ShardRestoredAsIf(env, x.topics[t][p]);
    }
  }

  // ---- Restarts ----

  /** y and z restart over logs that are alike. */
  lemma RestartAlike(env: Env, log: RaftLog, n: nat, a: Topics, b: Topics)
    requires AsIfTopics(a) == AsIfTopics(b)
    requires Restored(env, log, Restart(b)) && WeakInv(env, log, Restart(b), n)
    ensures Restored(env, log, AsIfWorld(Restart(a))) && WeakInv(env, log, AsIfWorld(Restart(a)), n)
  {
    hide Restored, WeakInv, View, MaxOf, Indexes, AsIfTopics;
    ViewAsIf(a);
    ViewAsIf(b);
    assert AsIfWorld(Restart(a)) == AsIfWorld(Restart(b));
    RestoredAsIf(env, log, Restart(b));
    WeakAsIf(env, log, Restart(b), n);
  }

  function KeepsAll(topics: Topics): (keep: Remains)
    ensures keep.Keys == topics.Keys
    ensures forall t :: t in topics ==> |keep[t]| == |topics[t]|
    ensures forall t, p :: t in topics && 0 <= p < |topics[t]| ==> keep[t][p] == KeepAll(topics[t][p].log)
  {
    map t | t in topics :: seq(|topics[t]|, p requires 0 <= p < |topics[t]| => KeepAll(topics[t][p].log))
  }

  lemma LossOfNothing(s: State)
    requires Survivable(s, KeepAll(s))
    ensures Alike(PowerLossStep(s, KeepAll(s)), KillStep(s))
  {
    hide Len, Reopen, Whole;
    var m, n := CutAll(s, KeepAll(s)), CachedAll(s);
    forall i | 0 <= i < |m| ensures m[i].index == n[i].index && m[i].recs == n[i].recs && m[i].torn == n[i].torn {
      var g := s.files[s.first + i];
      WholeAll(g.recs);
      assert g.recs[..|g.recs|] == g.recs;
    }
    ReopenAlike(m, n, s.acked, s.acked, s.dropped);
  }

  lemma AlikeRetains(s: State, t: State)
    requires Alike(s, t)
    ensures Retained(s) == Retained(t)
  {
    hide AsIf, Retained, Floor;
    RetainedAsIf(s, {});
    RetainedAsIf(t, {});
  }

  /** A kill of one partition, and a power loss that takes nothing from one that is alike. */
  lemma KillShardAlike(cap: int, sh: Shard, b: Shard)
    requires Alike(sh.log, b.log) && Survivable(b.log, KeepAll(b.log))
    ensures AsIfShard(Reread(cap, KillStep(sh.log))) == AsIfShard(Recover(cap, b, KeepAll(b.log)))
  {
    hide AsIf, KillStep, PowerLossStep, KeepAll, Retained, Dedupe.Rebuild, Survivable;
    LossOfNothing(b.log);
    KillAlike(sh.log, b.log);
    AlikeRetains(KillStep(sh.log), PowerLossStep(b.log, KeepAll(b.log)));
  }

  /** Nothing is fsynced that was not written. */
  ghost predicate AllSurvive(topics: Topics) {
    forall t, p :: t in topics && 0 <= p < |topics[t]| ==> Survivable(topics[t][p].log, KeepAll(topics[t][p].log))
  }

  lemma AlikeTopics(a: Topics, b: Topics, t: Name, p: nat)
    requires AsIfTopics(a) == AsIfTopics(b) && t in a && p < |a[t]|
    ensures t in b && p < |b[t]| && AsIfShard(a[t][p]) == AsIfShard(b[t][p])
  {
    hide AsIf;
    assert t in AsIfTopics(a) && t in AsIfTopics(b);
    assert AsIfTopics(a)[t][p] == AsIfTopics(b)[t][p];
  }

  lemma KillAlikeAll(cap: int, a: Topics, b: Topics)
    requires AsIfTopics(a) == AsIfTopics(b) && AllSurvive(b)
    ensures Possible(b, KeepsAll(b)) && AsIfTopics(KillAll(cap, a)) == AsIfTopics(RecoverAll(cap, b, KeepsAll(b)))
  {
    hide AsIf, Recover, Reread, Survivable, KeepAll, KillStep;
    SameKeys(a, b);
    var keep := KeepsAll(b);
    forall t, p | t in a && 0 <= p < |a[t]|
      ensures AsIfShard(Reread(cap, KillStep(a[t][p].log))) == AsIfShard(Recover(cap, b[t][p], keep[t][p]))
    {
      AlikeTopics(a, b, t, p);
      KillShardAlike(cap, a[t][p], b[t][p]);
    }
    SameTopics(AsIfTopics(KillAll(cap, a)), AsIfTopics(RecoverAll(cap, b, keep)));
  }

  lemma SameKeys(a: Topics, b: Topics)
    requires AsIfTopics(a) == AsIfTopics(b)
    ensures a.Keys == b.Keys && forall t :: t in a ==> |a[t]| == |b[t]|
  {
    assert AsIfTopics(a).Keys == AsIfTopics(b).Keys;
    forall t | t in a ensures |a[t]| == |b[t]| {
      assert |AsIfTopics(a)[t]| == |AsIfTopics(b)[t]|;
    }
  }

  lemma SoundSurvives(cfg: Config, topics: Topics)
    requires Sound(cfg, topics)
    ensures AllSurvive(topics)
  {
    hide Inv, Len, Floor;
    forall t, p | t in topics && 0 <= p < |topics[t]| ensures Survivable(topics[t][p].log, KeepAll(topics[t][p].log)) {
      assert LogSound(cfg, topics[t][p].log);
      SegmentsDurable(cfg, topics[t][p].log);
    }
  }

  lemma KillWeak(env: Env, log: RaftLog, n: nat, b: nat, topics: Topics)
    requires Sound(Fsyncing(env.cfg), AsIfTopics(topics)) && b <= n <= |log|
    requires LogsOk(log, b, View(topics)) && TopicsOk(env.defaultPartitions, log, n, View(topics))
    ensures var y := Restart(KillAll(env.cap, topics));
            Restored(AsIfEnv(env), log, AsIfWorld(y)) && WeakInv(AsIfEnv(env), log, AsIfWorld(y), n)
  {
    hide LogSound, LogsOk, TopicsOk, View, Restored, WeakInv, AsIfShard, Recover, Reread, MaxOf, Indexes;
    var a := AsIfTopics(topics);
    var keep := KeepsAll(a);
    AsIfTwice(topics);
    SoundSurvives(Fsyncing(env.cfg), a);
    KillAlikeAll(env.cap, topics, a);
    ViewAsIf(topics);
    CrashWeak(AsIfEnv(env), log, n, b, a, keep);
    RestartAlike(AsIfEnv(env), log, n, KillAll(env.cap, topics), RecoverAll(env.cap, a, keep));
  }

  lemma CapAsIf(env: Env, log: RaftLog)
    requires WithinCap(env, log)
    ensures WithinCap(AsIfEnv(env), log)
  {
  }

  // ---- Power losses ----

  /** The power loss cuts active files only. */
  ghost predicate SealsSpared(topics: Topics, keep: Remains)
    requires Possible(topics, keep)
  {
    forall t, p :: t in topics && 0 <= p < |topics[t]| ==> SealsWhole(topics[t][p].log, keep[t][p])
  }

  function TrimShard(sh: Shard): Shard { sh.(log := Trimmed(sh.log, Active(sh.log).baseOff)) }

  function TrimTopics(topics: Topics): (after: Topics)
    ensures after.Keys == topics.Keys
    ensures forall t :: t in topics ==> |after[t]| == |topics[t]|
    ensures forall t, p :: t in topics && 0 <= p < |topics[t]| ==> after[t][p] == TrimShard(topics[t][p])
  {
    map t | t in topics :: seq(|topics[t]|, p requires 0 <= p < |topics[t]| => TrimShard(topics[t][p]))
  }

  lemma TrimmedLog(cfg: Config, s: State)
    requires LogSound(Fsyncing(cfg), AsIf(s, {}))
    ensures var u := Trimmed(s, Active(s).baseOff);
            LogSound(Fsyncing(cfg), u) && Retained(u) == Retained(s) && Floor(u) == Floor(s)
  {
    hide Inv, Boundary, Len, Concat;
    var off := Active(s).baseOff;
    BoundaryBase(s);
    ShapeTail(cfg, s);
    TrimmedOk(Fsyncing(cfg), s, off);
    var u := Trimmed(s, off);
    ConcatLike(s.files, u.files, s.first, |s.files|);
  }

  lemma LossShardAlike(cfg: Config, cap: int, sh: Shard, keep: seq<nat>)
    requires LogSound(Fsyncing(cfg), AsIf(sh.log, {})) && Survivable(sh.log, keep) && SealsWhole(sh.log, keep)
    ensures var u := TrimShard(sh);
            && Survivable(u.log, keep) && AsIfShard(Recover(cap, sh, keep)) == AsIfShard(Recover(cap, u, keep))
  {
    hide Inv, AsIf, Trimmed, PowerLossStep, Retained, Dedupe.Rebuild, Survivable, Floor, Boundary, SealsWhole;
    var s, off := sh.log, Active(sh.log).baseOff;
    BoundaryBase(s);
    ShapeTail(cfg, s);
    NotNegative(s, keep);
    LossAlike(cfg, s, keep, off);
    var t, v := PowerLossStep(s, keep), PowerLossStep(Trimmed(s, off), keep);
    RetainedAsIf(t, {});
    RetainedAsIf(v, {});
  }

  lemma NotNegative(s: State, keep: seq<nat>)
    requires Survivable(s, keep)
    ensures |keep| > 0
  {
  }

  lemma LossPossible(env: Env, topics: Topics, keep: Remains)
    requires Sound(Fsyncing(env.cfg), AsIfTopics(topics)) && Possible(topics, keep) && SealsSpared(topics, keep)
    ensures var u := TrimTopics(topics);
            && Sound(Fsyncing(env.cfg), u) && View(u) == View(topics) && Possible(u, keep)
            && AsIfTopics(RecoverAll(env.cap, topics, keep)) == AsIfTopics(RecoverAll(env.cap, u, keep))
  {
    hide LogSound, AsIf, Recover, Survivable, Trimmed, SealsWhole, View, Retained, Floor;
    var a: Topics, u: Topics, c := AsIfTopics(topics), TrimTopics(topics), Fsyncing(env.cfg);
    forall t, p | t in topics && 0 <= p < |topics[t]|
      ensures LogSound(c, u[t][p].log) && Retained(u[t][p].log) == Retained(topics[t][p].log)
      ensures Survivable(u[t][p].log, keep[t][p])
      ensures AsIfShard(Recover(env.cap, topics[t][p], keep[t][p])) == AsIfShard(Recover(env.cap, u[t][p], keep[t][p]))
    {
      assert LogSound(c, a[t][p].log);
      TrimmedLog(env.cfg, topics[t][p].log);
      LossShardAlike(env.cfg, env.cap, topics[t][p], keep[t][p]);
    }
    SameView(u, topics);
    SameTopics(AsIfTopics(RecoverAll(env.cap, topics, keep)), AsIfTopics(RecoverAll(env.cap, u, keep)));
  }

  lemma LossWeak(env: Env, log: RaftLog, n: nat, b: nat, topics: Topics, keep: Remains)
    requires Sound(Fsyncing(env.cfg), AsIfTopics(topics)) && b <= n <= |log|
    requires LogsOk(log, b, View(topics)) && TopicsOk(env.defaultPartitions, log, n, View(topics))
    requires Possible(topics, keep) && SealsSpared(topics, keep)
    ensures var y := Restart(RecoverAll(env.cap, topics, keep));
            Restored(AsIfEnv(env), log, AsIfWorld(y)) && WeakInv(AsIfEnv(env), log, AsIfWorld(y), n)
  {
    hide Sound, LogsOk, TopicsOk, View, Restored, WeakInv, AsIfTopics, RecoverAll, Possible, MaxOf, Indexes;
    hide TrimTopics, SealsSpared;
    var u := TrimTopics(topics);
    LossPossible(env, topics, keep);
    CrashWeak(AsIfEnv(env), log, n, b, u, keep);
    RestartAlike(AsIfEnv(env), log, n, RecoverAll(env.cap, topics, keep), RecoverAll(env.cap, u, keep));
  }

  // ---- Every run ----

  /** If the act is a power loss, it cuts active files only. */
  ghost predicate Spared(env: Env, log: RaftLog, x: World, act: Act) {
    match act
    case Does(Crash(keep)) => Possible(x.topics, keep) ==> SealsSpared(x.topics, keep)
    case Does(Dies(io, keep)) =>
      Appends(log, x) && Possible(MidAppend(env, log, x, io), keep) ==> SealsSpared(MidAppend(env, log, x, io), keep)
    case _ => true
  }

  ghost predicate LossesSpare(env: Env, log: RaftLog, acts: seq<Act>) {
    forall i :: 0 <= i < |acts| ==> Spared(env, log, ActRun(env, log, acts[..i]), acts[i])
  }

  function FsyncingAct(env: Env, step: Replay.Step): Replay.Step {
    if step.Publish? then Publish(FsyncingIo(env.cfg, step.io)) else step
  }

  lemma LivesAsIf(env: Env, log: RaftLog, x: World, step: Replay.Step)
    requires !step.Crash? && !step.Dies?
    ensures AsIfWorld(Replay.Next(env, log, x, step))
         == AsIfWorld(Replay.Next(AsIfEnv(env), log, AsIfWorld(x), FsyncingAct(env, step)))
  {
    hide BeginStep, PublishStep, FinishStep, CommitterStep, AsIfTopics, FsyncingIo;
    match step
    case Begin => BeginAsIf(env, log, x);
    case Publish(io) => PublishAsIf(env, log, x, io);
    case Finish => FinishAsIf(env, log, x);
    case Committer(t, p, st) => CommitterAsIf(env, x, t, p, st);
  }

  lemma WeakParts(env: Env, log: RaftLog, x: World, n: nat)
    requires WeakInv(AsIfEnv(env), log, AsIfWorld(x), n)
    ensures Bound(x) <= n <= |log| && Sound(Fsyncing(env.cfg), AsIfTopics(x.topics))
    ensures LogsOk(log, Bound(x), View(x.topics)) && TopicsOk(env.defaultPartitions, log, n, View(x.topics))
  {
    hide Sound, LogsOk, TopicsOk, View, AsIfTopics;
    ViewAsIf(x.topics);
  }

  lemma MidParts(env: Env, log: RaftLog, x: World, n: nat, io: Io)
    requires WeakInv(AsIfEnv(env), log, AsIfWorld(x), n) && Appends(log, x)
    ensures var topics := MidAppend(env, log, x, io);
            && x.cursor + 1 <= n <= |log| && Sound(Fsyncing(env.cfg), AsIfTopics(topics))
            && LogsOk(log, x.cursor + 1, View(topics)) && TopicsOk(env.defaultPartitions, log, n, View(topics))
  {
    hide Sound, LogsOk, TopicsOk, View, AsIfTopics, MidAppend, Appends, FsyncingIo, WeakInv;
    var e, y := AsIfEnv(env), AsIfWorld(x);
    AppendsAsIf(log, x);
    WeakBound(e, log, y, n);
    MidAppendWeak(e, log, y, n, FsyncingIo(env.cfg, io));
    MidAppendAsIf(env, log, x, io);
    var a, b := MidAppend(env, log, x, io), MidAppend(e, log, y, FsyncingIo(env.cfg, io));
    SoundAsIf(e.cfg, b);
    ViewAsIf(a);
    ViewAsIf(b);
  }

  lemma ActWeak(env: Env, log: RaftLog, x: World, n: nat, act: Act) returns (n': nat)
    requires WeakInv(AsIfEnv(env), log, AsIfWorld(x), n) && Spared(env, log, x, act)
    ensures WeakInv(AsIfEnv(env), log, AsIfWorld(ActNext(env, log, x, act)), n')
  {
    hide WeakInv, Sound, LogsOk, TopicsOk, View, AsIfTopics, Possible, RecoverAll, KillAll, MidAppend;
    hide Appends, MaxOf, Indexes, SealsSpared, BeginStep, PublishStep, FinishStep, CommitterStep, FsyncingIo, Restored;
    n' := n;
    match act
    case Killed => WeakParts(env, log, x, n); KillWeak(env, log, n, Bound(x), x.topics);
    case KilledIn(io) =>
      if Appends(log, x) {
        MidParts(env, log, x, n, io);
        KillWeak(env, log, n, x.cursor + 1, MidAppend(env, log, x, io));
      }
    case Does(step) =>
      if step.Crash? {
        if Possible(x.topics, step.keep) {
          WeakParts(env, log, x, n);
          LossWeak(env, log, n, Bound(x), x.topics, step.keep);
        }
      } else if step.Dies? {
        if Appends(log, x) && Possible(MidAppend(env, log, x, step.io), step.keep) {
          MidParts(env, log, x, n, step.io);
          LossWeak(env, log, n, x.cursor + 1, MidAppend(env, log, x, step.io), step.keep);
        }
      } else {
        n' := LivesWeak(env, log, x, n, step);
      }
  }

  lemma LivesWeak(env: Env, log: RaftLog, x: World, n: nat, step: Replay.Step) returns (n': nat)
    requires WeakInv(AsIfEnv(env), log, AsIfWorld(x), n) && !step.Crash? && !step.Dies?
    ensures WeakInv(AsIfEnv(env), log, AsIfWorld(Replay.Next(env, log, x, step)), n')
  {
    hide WeakInv, AsIfTopics, Replay.Next;
    var e, y := AsIfEnv(env), AsIfWorld(x);
    n' := StepWeak(e, log, y, n, FsyncingAct(env, step));
    LivesAsIf(env, log, x, step);
    WeakAsIf(e, log, Replay.Next(e, log, y, FsyncingAct(env, step)), n');
  }

  lemma {:induction false} ActsKeep(env: Env, log: RaftLog, acts: seq<Act>) returns (n: nat)
    requires LossesSpare(env, log, acts)
    ensures WeakInv(AsIfEnv(env), log, AsIfWorld(ActRun(env, log, acts)), n)
  {
    hide WeakInv, ActNext, Spared, AsIfWorld;
    if acts == [] {
      n := 0;
      StartWeak(AsIfEnv(env), log);
      WeakAsIf(AsIfEnv(env), log, START, 0);
    } else {
      var init := acts[..|acts| - 1];
      forall i | 0 <= i < |init| ensures Spared(env, log, ActRun(env, log, init[..i]), init[i]) {
        assert init[..i] == acts[..i];
      }
      n := ActsKeep(env, log, init);
      n := ActWeak(env, log, ActRun(env, log, init), n, acts[|acts| - 1]);
    }
  }

  /** The process dies: killed, or with the power, between steps or inside an append. */
  ghost predicate Ends(env: Env, log: RaftLog, x: World, act: Act) {
    match act
    case Killed => true
    case KilledIn(_) => Appends(log, x)
    case Does(step) => Fails(env, log, x, step)
  }

  lemma EndRestarts(env: Env, log: RaftLog, x: World, n: nat, act: Act)
    requires WeakInv(AsIfEnv(env), log, AsIfWorld(x), n)
    requires Ends(env, log, x, act) && Spared(env, log, x, act)
    ensures Restored(AsIfEnv(env), log, AsIfWorld(ActNext(env, log, x, act)))
  {
    hide WeakInv, Sound, LogsOk, TopicsOk, View, AsIfTopics, Possible, RecoverAll, KillAll, MidAppend;
    hide Appends, MaxOf, Indexes, SealsSpared, Restored;
    match act
    case Killed => WeakParts(env, log, x, n); KillWeak(env, log, n, Bound(x), x.topics);
    case KilledIn(io) =>
      MidParts(env, log, x, n, io);
      KillWeak(env, log, n, x.cursor + 1, MidAppend(env, log, x, io));
    case Does(step) =>
      if step.Crash? {
        WeakParts(env, log, x, n);
        LossWeak(env, log, n, Bound(x), x.topics, step.keep);
      } else {
        MidParts(env, log, x, n, step.io);
        LossWeak(env, log, n, x.cursor + 1, MidAppend(env, log, x, step.io), step.keep);
      }
  }

  // ---- The replay ----

  lemma AliveReplays(env: Env, log: RaftLog, m: Logs, hw: nat, x: World, step: Replay.Step)
    requires WithinCap(env, log) && hw <= |log| && LogsOk(log, hw, m) && Alive(step)
    requires Replaying(AsIfEnv(env), log, m, hw, AsIfWorld(x))
    ensures Replaying(AsIfEnv(env), log, m, hw, AsIfWorld(Replay.Next(env, log, x, step)))
  {
    hide WithinCap, Replaying, BeginStep, PublishStep, FinishStep, CommitterStep, LogsOk, AsIfTopics;
    var e, y := AsIfEnv(env), AsIfWorld(x);
    CapAsIf(env, log);
    LivesAsIf(env, log, x, step);
    match step {
      case Begin => BeginReplays(e, log, m, hw, y);
      case Publish(_) => if y.phase.Routed? { PublishReplays(e, log, m, hw, y); } else { NotRouted(e, log, y); }
      case Finish => if y.phase.Waiting? { FinishReplays(e, log, m, hw, y); } else { NotWaiting(e, log, y); }
      case Committer(t, p, st) => CommitterReplays(e, log, m, hw, y, t, p, st);
    }
    ReplayingAsIf(e, log, m, hw, Replay.Next(e, log, y, FsyncingAct(env, step)));
  }

  lemma ReplayedView(env: Env, log: RaftLog, m: Logs, hw: nat, y: World)
    requires Replaying(AsIfEnv(env), log, m, hw, AsIfWorld(y)) && y.phase.Ready? && y.cursor == |log|
    ensures View(y.topics) == Fold(env.defaultPartitions, log, m, hw, |log|)
  {
    hide AllOk, Blocked, View, Ensure, Fold, AsIfTopics;
    ViewAsIf(y.topics);
  }

  /**
   * No raft index is written twice, in one partition or across them, in any run: whatever writes and fsyncs
   * failed, whoever was killed, in every sync mode and whatever the dedupe indexes have forgotten.
   */
  lemma NoIndexTwice(env: Env, log: RaftLog, acts: seq<Act>, t1: Name, p1: nat, k1: nat, t2: Name, p2: nat, k2: nat)
    requires LossesSpare(env, log, acts)
    requires var m := View(ActRun(env, log, acts).topics);
             && t1 in m && p1 < |m[t1]| && k1 < |m[t1][p1]| && t2 in m && p2 < |m[t2]| && k2 < |m[t2][p2]|
             && m[t1][p1][k1].raftIndex == m[t2][p2][k2].raftIndex
    ensures t1 == t2 && p1 == p2 && k1 == k2
  {
    hide ActRun, LossesSpare, LogsOk, TopicsOk, View, WeakInv, Sound;
    var x := ActRun(env, log, acts);
    var n := ActsKeep(env, log, acts);
    WeakParts(env, log, x, n);
    IndexOnce(log, Bound(x), View(x.topics), t1, p1, k1, t2, p2, k2);
  }

  // ---- Kills alone ----

  lemma AllBlockedAsIf(env: Env, log: RaftLog, x: World)
    requires AllBlockedOk(env, log, x)
    ensures AllBlockedOk(env, log, AsIfWorld(x))
  {
    hide BlockedOk, ShardOk, AsIfShard;
    var e := log[x.cursor];
    BlockedOkAsIf(env.cfg, Target(log, x), x.phase.rec, x.phase.end);
    forall t, p | t in x.topics && 0 <= p < |x.topics[t]| && (t != e.topic || p != e.partition)
      ensures ShardOk(env.cfg, AsIfShard(x.topics[t][p]))
    {
      ShardOkAsIf(env.cfg, x.topics[t][p]);
    }
  }

  lemma InvAtAsIf(env: Env, log: RaftLog, x: World, n: nat)
    requires InvAt(env, log, x, n)
    ensures InvAt(env, log, AsIfWorld(x), n)
  {
    hide AllOk, AllBlockedOk, View, Reflects, NoneAbove, Writes, Spec, Ensure, AsIfShard;
    ViewAsIf(x.topics);
    if x.phase.Waiting? { AllBlockedAsIf(env, log, x); } else { AllOkAsIf(env.cfg, x.topics); }
  }

  lemma InvAtSound(env: Env, log: RaftLog, x: World, n: nat)
    requires InvAt(env, log, x, n)
    ensures Sound(env.cfg, x.topics)
  {
    hide LogSound, Settled, NearlySettled, Knows, Known, View, Reflects, NoneAbove, Writes, Spec, Ensure, Retained;
    forall t, p | t in x.topics && 0 <= p < |x.topics[t]| ensures LogSound(env.cfg, x.topics[t][p].log) {
      if x.phase.Waiting? && t == log[x.cursor].topic && p == log[x.cursor].partition {
        assert BlockedOk(env.cfg, Target(log, x), x.phase.rec, x.phase.end);
      } else {
        assert ShardOk(env.cfg, x.topics[t][p]);
      }
    }
  }

  lemma MidSurvives(env: Env, log: RaftLog, x: World, io: Io)
    requires env.cfg.mode != NoSync && Sound(env.cfg, x.topics) && Appends(log, x)
    ensures AllSurvive(MidAppend(env, log, x, io))
  {
    hide Inv, AppendStep, Floor, Dedupe.Pos, Survivable, KeepAll;
    SoundSurvives(env.cfg, x.topics);
    var sh, rec := Target(log, x), Stamp(log[x.cursor], x.cursor + 1, 0);
    assert LogSound(env.cfg, sh.log);
    AppendKeeps(env.cfg, sh.log, rec, io);
    InvSurvives(env.cfg, AppendStep(env.cfg, sh.log, rec, io));
  }

  lemma InvSurvives(cfg: Config, s: State)
    requires Inv(cfg, s)
    ensures Survivable(s, KeepAll(s))
  {
    hide Inv, Len;
    SegmentsDurable(cfg, s);
  }

  lemma SameRestart(a: Topics, b: Topics)
    requires AsIfTopics(a) == AsIfTopics(b)
    ensures AsIfWorld(Restart(a)) == AsIfWorld(Restart(b))
  {
    hide View, MaxOf, Indexes, AsIfTopics;
    ViewAsIf(a);
    ViewAsIf(b);
  }

  lemma KillKeepsInv(env: Env, log: RaftLog, x: World, n: nat) returns (n': nat)
    requires WithinCap(env, log) && InvAt(AsIfEnv(env), log, AsIfWorld(x), n)
    ensures InvAt(AsIfEnv(env), log, AsIfWorld(Restart(KillAll(env.cap, x.topics))), n')
  {
    hide InvAt, WithinCap, Sound, View, Indexes, MaxOf, AsIfTopics, RecoverAll, Possible, KillAll, KeepsAll, AllSurvive;
    var e, y := AsIfEnv(env), AsIfWorld(x);
    CapAsIf(env, log);
    InvAtSound(e, log, y, n);
    SoundSurvives(e.cfg, y.topics);
    AsIfTwice(x.topics);
    KillAlikeAll(env.cap, x.topics, y.topics);
    n' := CrashKeeps(e, log, y, n, KeepsAll(y.topics));
    var b := RecoverAll(env.cap, y.topics, KeepsAll(y.topics));
    SameRestart(KillAll(env.cap, x.topics), b);
    InvAtAsIf(e, log, Restart(b), n');
  }

  lemma KillInKeepsInv(env: Env, log: RaftLog, x: World, n: nat, io: Io) returns (n': nat)
    requires WithinCap(env, log) && InvAt(AsIfEnv(env), log, AsIfWorld(x), n) && Appends(log, x)
    ensures InvAt(AsIfEnv(env), log, AsIfWorld(Restart(KillAll(env.cap, MidAppend(env, log, x, io)))), n')
  {
    hide InvAt, WithinCap, Sound, View, Indexes, MaxOf, AsIfTopics, RecoverAll, Possible, KillAll, KeepsAll, AllSurvive;
    hide MidAppend, Appends, FsyncingIo;
    var e, y, io' := AsIfEnv(env), AsIfWorld(x), FsyncingIo(env.cfg, io);
    CapAsIf(env, log);
    InvAtSound(e, log, y, n);
    AppendsAsIf(log, x);
    MidSurvives(e, log, y, io');
    MidAppendAsIf(env, log, x, io);
    var a, b := MidAppend(env, log, x, io), MidAppend(e, log, y, io');
    KillAlikeAll(env.cap, a, b);
    n' := DiesKeeps(e, log, y, n, io', KeepsAll(b));
    var after := RecoverAll(env.cap, b, KeepsAll(b));
    assert DiesStep(e, log, y, io', KeepsAll(b)) == Restart(after);
    SameRestart(KillAll(env.cap, a), after);
    InvAtAsIf(e, log, Restart(after), n');
  }

  /** Nothing fails while the process lives, and it dies of kills only. */
  predicate Unharmed(act: Act) { act.Does? ==> Alive(act.step) }

  lemma UnharmedKeeps(env: Env, log: RaftLog, x: World, n: nat, act: Act) returns (n': nat)
    requires WithinCap(env, log) && InvAt(AsIfEnv(env), log, AsIfWorld(x), n) && Unharmed(act)
    ensures InvAt(AsIfEnv(env), log, AsIfWorld(ActNext(env, log, x, act)), n')
  {
    hide InvAt, WithinCap, AsIfTopics, KillAll, MidAppend, Appends, Replay.Next, MaxOf, Indexes, View;
    n' := n;
    match act
    case Killed => n' := KillKeepsInv(env, log, x, n);
    case KilledIn(io) => if Appends(log, x) { n' := KillInKeepsInv(env, log, x, n, io); }
    case Does(step) =>
      var e, y := AsIfEnv(env), AsIfWorld(x);
      CapAsIf(env, log);
      LivesAsIf(env, log, x, step);
      n' := Replay.StepKeeps(e, log, y, n, FsyncingAct(env, step));
      InvAtAsIf(e, log, Replay.Next(e, log, y, FsyncingAct(env, step)), n');
  }

  lemma ReflectsAsIf(env: Env, log: RaftLog, m: Logs, n: nat)
    requires n <= |log| && Reflects(AsIfEnv(env), log, m, n)
    ensures Reflects(env, log, m, n)
  {
  }

  lemma InvAtReflects(env: Env, log: RaftLog, x: World, n: nat) returns (n': nat)
    requires InvAt(env, log, x, n)
    ensures x.cursor <= n' <= |log| && Reflects(env, log, View(x.topics), n')
    ensures x.phase.Ready? && x.cursor == |log| ==> View(x.topics) == Spec(env.defaultPartitions, log, |log|)
  {
    hide AllOk, AllBlockedOk, View, NoneAbove, Writes, Spec, Ensure;
    n' := if x.phase.Waiting? then n + 1 else n;
    if x.phase.Ready? && x.cursor == |log| { CaughtUp(env, log, x, n); }
  }

  lemma FlushTargetAsIf(env: Env, log: RaftLog, x: World)
    requires Routable(log, x) && Routable(log, AsIfWorld(x))
    ensures AsIfWorld(FlushTarget(env, log, x)) == AsIfWorld(FlushTarget(AsIfEnv(env), log, AsIfWorld(x)))
  {
    hide CommitterStep, AsIfTopics;
    var e, t, p := AsIfEnv(env), log[x.cursor].topic, log[x.cursor].partition;
    var x1 := CommitterStep(env, x, t, p, FlushSnap);
    var x2 := CommitterStep(env, x1, t, p, FlushSync(true));
    var y1 := CommitterStep(e, AsIfWorld(x), t, p, FlushSnap);
    var y2 := CommitterStep(e, y1, t, p, FlushSync(true));
    CommitterAsIf(env, x, t, p, FlushSnap);
    CommitterAsIf(env, x1, t, p, FlushSync(true));
    CommitterAsIf(e, y1, t, p, FlushSync(true));
    CommitterAsIf(env, x2, t, p, FlushPublish);
    CommitterAsIf(e, y2, t, p, FlushPublish);
  }
}
