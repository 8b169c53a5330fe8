/**
 * Runs whose replay goes wrong: appliedHighWater is one number for all partitions, and a rebuilt dedupe index does
 * not know about hits.
 */
module ReplayLimits {
  import opened Codec
  import opened Stream
  import opened Wal
  import opened WalSafety
  import opened WalTheorems
  import opened ReplaySpec
  import opened Shards
  import opened Replay
  import opened ReplayFailures
  import opened ReplayExact
  import opened WalShape
  import opened ReplayKills
  import opened ReplayCap
  import opened ReplayWindow
  import opened ReplayAnyCap
  import Dedupe

  /** A publish without a dedupe key to the first partition of its topic. */
  predicate Plain(e: Command) { e.Pub? && e.partition == 0 && e.key == [] && Fits(e) }

  lemma FailedAppendIsLost(cfg: Config, e: Command)
    requires cfg.mode == PerMessage && e.Pub? && Fits(e)
    ensures var s := AppendStep(cfg, EMPTY, Stamp(e, 1, 0), SYNC_FAILS);
            Survivable(s, [0]) && Retained(PowerLossStep(s, [0])) == []
  {
    hide AppendStep, Inv, PowerLossStep, Survivable, Retained;
    var s := AppendStep(cfg, EMPTY, Stamp(e, 1, 0), SYNC_FAILS);
    FirstAppend(cfg, EMPTY, Stamp(e, 1, 0), SYNC_FAILS);
    StartsOver(s, s.files[0]);
    FreshOk(cfg, EMPTY, EMPTY.files[0]);
    AppendKeeps(cfg, EMPTY, Stamp(e, 1, 0), SYNC_FAILS);
    PowerLossRecovers(cfg, s, [0]);
    FilesFloor(s);
  }

  lemma FilesFloor(s: State)
    ensures Floor(s) == s.files[s.first].baseMsgID
  {
  }

  lemma KeepAllSurvives(cfg: Config, s: State)
    requires Inv(cfg, s)
    ensures Survivable(s, KeepAll(s))
  {
    hide Inv, FilesOk, HistoryOk, Len, KeepAll;
    InvHistory(cfg, s);
    var keep := KeepAll(s);
    forall i | 0 <= i < |keep|
      ensures keep[i] == Len(s.files[s.first + i].recs) && s.files[s.first + i].durable <= keep[i]
    {
      KeepAllAt(s, i);
      DurableBound(cfg, s.files, s.first + i);
    }
  }

  lemma KeepAllAt(s: State, i: nat)
    requires i < |s.files| - s.first
    ensures KeepAll(s)[i] == Len(s.files[s.first + i].recs)
  {
  }

  lemma DurableBound(cfg: Config, files: seq<Segment>, i: nat)
    requires FilesOk(cfg, files) && i < |files|
    ensures files[i].durable <= Len(files[i].recs)
  {
    hide FilesOk;
    SegmentAt(cfg, files, i);
  }

  lemma GoodAppendIsKept(cfg: Config, e: Command)
    requires cfg.mode == PerMessage && Plain(e)
    ensures var s := AppendStep(cfg, EMPTY, Stamp(e, 2, 0), OK);
            Survivable(s, KeepAll(s)) && Retained(PowerLossStep(s, KeepAll(s))) == [Stamp(e, 2, 0)]
  {
    hide AppendStep, Inv, PowerLossStep, Survivable, Retained, Knows, Encodable;
    var s := AppendStep(cfg, EMPTY, Stamp(e, 2, 0), OK);
    FreshShard(cfg);
    EmptyRetains();
    FitsAny(e, 2, 0);
    AppendAdds(cfg, EMPTY, Stamp(e, 2, 0));
    KeepAllSurvives(cfg, s);
    CrashRestores(cfg, s, KeepAll(s));
  }

  function After(cfg: Config, e1: Command, e2: Command): (State, State)
    requires Plain(e1) && Plain(e2)
  {
    (AppendStep(cfg, EMPTY, Stamp(e1, 1, 0), SYNC_FAILS), AppendStep(cfg, EMPTY, Stamp(e2, 2, 0), OK))
  }

  lemma OneShard(topics: Topics, t: Name)
    requires t !in topics
    ensures Open(1, topics, t, 0) == topics[t := [Shard(EMPTY, [])]]
  {
    assert seq(CountFor(1, 0), _ => Shard(EMPTY, [])) == [Shard(EMPTY, [])];
  }

  ghost predicate Setting(env: Env, e1: Command, e2: Command, log: RaftLog) {
    && env.cfg.mode == PerMessage && env.defaultPartitions == 1 && env.cap >= 0
    && Plain(e1) && Plain(e2) && e1.topic != e2.topic && log == [e1, e2]
  }

  /** Begin and Publish of a plain command whose topic is new. */
  lemma PublishNew(env: Env, log: RaftLog, x: World, io: Io)
    requires env.cfg.mode == PerMessage && env.defaultPartitions == 1 && io.write
    requires x.phase.Ready? && x.hw <= x.cursor < |log| && Plain(log[x.cursor]) && log[x.cursor].topic !in x.topics
    ensures var e := log[x.cursor];
            var s := AppendStep(env.cfg, EMPTY, Stamp(e, x.cursor + 1, 0), io);
            PublishStep(env, log, BeginStep(env, log, x), io)
            == World(x.topics[e.topic := [Shard(s, [])]], x.hw, x.cursor + 1, Ready)
  {
    hide AppendStep, Encodable, Size, Open;
    var e := log[x.cursor];
    var s := AppendStep(env.cfg, EMPTY, Stamp(e, x.cursor + 1, 0), io);
    OneShard(x.topics, e.topic);
    var y := BeginStep(env, log, x);
    assert y == World(x.topics[e.topic := [Shard(EMPTY, [])]], x.hw, x.cursor, Routed);
    FitsAny(e, x.cursor + 1, 0);
    var z := PublishStep(env, log, y, io);
    assert z.topics[e.topic] == [Shard(s, [])];
    assert z.topics == x.topics[e.topic := [Shard(s, [])]];
  }

  function Keep(cfg: Config, e1: Command, e2: Command): map<Name, seq<seq<nat>>>
    requires Plain(e1) && Plain(e2)
  {
    map[e1.topic := [[0]], e2.topic := [KeepAll(After(cfg, e1, e2).1)]]
  }

  /** The power fails: the first record is gone, the second is not, and its index becomes the high-water mark. */
  lemma PowerFails(env: Env, log: RaftLog, e1: Command, e2: Command)
    requires Setting(env, e1, e2, log)
    ensures var (sa, sb) := After(env.cfg, e1, e2);
            var x := World(map[e1.topic := [Shard(sa, [])], e2.topic := [Shard(sb, [])]], 0, 2, Ready);
            var y := CrashStep(env, x, Keep(env.cfg, e1, e2));
            && Possible(x.topics, Keep(env.cfg, e1, e2))
            && y.phase.Ready? && y.cursor == 0 && y.hw == 2
            && View(y.topics) == map[e1.topic := [[]], e2.topic := [[Stamp(e2, 2, 0)]]]
  {
    hide AppendStep, PowerLossStep, Survivable, Retained, Encodable, KeepAll, Dedupe.Rebuild, View;
    var (sa, sb) := After(env.cfg, e1, e2);
    var keep := Keep(env.cfg, e1, e2);
    FailedAppendIsLost(env.cfg, e1);
    GoodAppendIsKept(env.cfg, e2);
    var topics: Topics := map[e1.topic := [Shard(sa, [])], e2.topic := [Shard(sb, [])]];
    assert Possible(topics, keep);
    var after: Topics := RecoverAll(env.cap, topics, keep);
    var m: Logs := map[e1.topic := [[]], e2.topic := [[Stamp(e2, 2, 0)]]];
    assert View(after)[e1.topic] == m[e1.topic];
    assert View(after)[e2.topic] == m[e2.topic];
    assert View(after) == m;
    OneIndex(m, e1, e2);
  }

  lemma OneIndex(m: Logs, e1: Command, e2: Command)
    requires Plain(e1) && Plain(e2) && e1.topic != e2.topic
             && m == map[e1.topic := [[]], e2.topic := [[Stamp(e2, 2, 0)]]]
    ensures MaxOf(Indexes(m)) == 2 && Indexes(m) == {2}
  {
    assert m[e2.topic][0][0].raftIndex as nat == 2;
    assert Indexes(m) == {2};
  }

  lemma SkipTwo(env: Env, log: RaftLog, x: World)
    requires x.phase.Ready? && x.cursor == 0 && x.hw == 2 && |log| == 2 && log[0].Pub? && log[1].Pub?
    ensures BeginStep(env, log, BeginStep(env, log, x)) == World(x.topics, 2, 2, Ready)
  {
  }

  lemma RunSnoc(env: Env, log: RaftLog, steps: seq<Replay.Step>, step: Replay.Step)
    ensures Replay.Run(env, log, steps + [step]) == Replay.Next(env, log, Replay.Run(env, log, steps), step)
  {
    assert (steps + [step])[..|steps|] == steps;
  }

  /** The run below, two steps at a time. */
  lemma RunTwoMore(env: Env, log: RaftLog, steps: seq<Replay.Step>, a: Replay.Step, b: Replay.Step)
    ensures Replay.Run(env, log, steps + [a, b])
         == Replay.Next(env, log, Replay.Next(env, log, Replay.Run(env, log, steps), a), b)
  {
    hide Replay.Run, Replay.Next;
    RunSnoc(env, log, steps, a);
    RunSnoc(env, log, steps + [a], b);
    assert steps + [a] + [b] == steps + [a, b];
  }

  lemma RunNothing(env: Env, log: RaftLog)
    ensures Replay.Run(env, log, []) == START
  {
  }

  /** The first four steps of that run. */
  lemma RunBefore(env: Env, log: RaftLog, e1: Command, e2: Command)
    requires Setting(env, e1, e2, log)
    ensures var (sa, sb) := After(env.cfg, e1, e2);
            Replay.Run(env, log, [Begin, Publish(SYNC_FAILS), Begin, Publish(OK)])
            == World(map[e1.topic := [Shard(sa, [])], e2.topic := [Shard(sb, [])]], 0, 2, Ready)
  {
    hide Replay.Run, AppendStep, BeginStep, PublishStep, CrashStep, View, Encodable;
    var (sa, sb) := After(env.cfg, e1, e2);
    RunNothing(env, log);
    var s2 := [Begin, Publish(SYNC_FAILS)];
    assert [] + s2 == s2;
    RunTwoMore(env, log, [], Begin, Publish(SYNC_FAILS));
    PublishNew(env, log, START, SYNC_FAILS);
    var x2 := World(map[e1.topic := [Shard(sa, [])]], 0, 1, Ready);
    assert Replay.Run(env, log, s2) == x2;
    assert s2 + [Begin, Publish(OK)] == [Begin, Publish(SYNC_FAILS), Begin, Publish(OK)];
    RunTwoMore(env, log, s2, Begin, Publish(OK));
    PublishNew(env, log, x2, OK);
  }

  /**
   * With one failed fsync the property is false: the first publish is lost with the power, the second
   * survives in another log and lifts the high-water mark over both, and the replay skips the first one
   * for good although the raft log still holds it.
   */
  lemma LostAfterFailedFsync(env: Env, log: RaftLog, e1: Command, e2: Command)
    requires Setting(env, e1, e2, log)
    ensures var crash := Replay.Crash(Keep(env.cfg, e1, e2));
            var steps := [Begin, Publish(SYNC_FAILS), Begin, Publish(OK), crash, Begin, Begin];
            var x := Replay.Run(env, log, steps);
            && x.phase.Ready? && x.cursor == |log|
            && View(x.topics) == map[e1.topic := [[]], e2.topic := [[Stamp(e2, 2, 0)]]]
  {
    hide Replay.Run, AppendStep, BeginStep, PublishStep, CrashStep, View, Keep, Encodable;
    var (sa, sb) := After(env.cfg, e1, e2);
    RunBefore(env, log, e1, e2);
    var x4 := World(map[e1.topic := [Shard(sa, [])], e2.topic := [Shard(sb, [])]], 0, 2, Ready);
    var s4 := [Begin, Publish(SYNC_FAILS), Begin, Publish(OK)];
    var s5 := s4 + [Replay.Crash(Keep(env.cfg, e1, e2))];
    RunSnoc(env, log, s4, Replay.Crash(Keep(env.cfg, e1, e2)));
    PowerFails(env, log, e1, e2);
    SkipTwo(env, log, CrashStep(env, x4, Keep(env.cfg, e1, e2)));
    RunTwoMore(env, log, s5, Begin, Begin);
    assert s5 + [Begin, Begin]
        == [Begin, Publish(SYNC_FAILS), Begin, Publish(OK), Replay.Crash(Keep(env.cfg, e1, e2)), Begin, Begin];
  }

  // ---- The exact condition at that run ----

  lemma FirstIsLogged(default: int, log: RaftLog, n: nat)
    requires 1 <= n <= |log| && default == 1 && Plain(log[0])
    ensures 1 in Indexes(Spec(default, log, n))
  {
    hide Encodable;
    var m: Logs := Spec(default, log, 1);
    assert Spec(default, log, 0) == map[];
    var e := log[0];
    var m1: Logs := Ensure(default, map[], e.topic, 0);
    assert m1[e.topic] == [[]];
    assert Writes(m1, e);
    assert m[e.topic][0][0].raftIndex as nat == 1;
    IndexIn(m, e.topic, 0, 0);
    SpecGrows(default, log, 1, n);
    GrowsIndexes(m, Spec(default, log, n));
  }

  lemma TwoBegins(env: Env, log: RaftLog, x: World)
    ensures RunFrom(env, log, x, [Begin, Begin]) == BeginStep(env, log, BeginStep(env, log, x))
  {
    assert [Begin, Begin][..1] == [Begin] && [Begin][..0] == [];
    assert RunFrom(env, log, x, []) == x;
    assert RunFrom(env, log, x, [Begin]) == BeginStep(env, log, x);
  }

  /** The recovered records lack an index below the mark, so by the exact condition the replay cannot be right. */
  lemma LostRunIsInexact(env: Env, log: RaftLog, e1: Command, e2: Command)
    requires Setting(env, e1, e2, log)
    ensures var before := [Begin, Publish(SYNC_FAILS), Begin, Publish(OK)];
            var failure := Replay.Crash(Keep(env.cfg, e1, e2));
            var x := Replay.Next(env, log, Replay.Run(env, log, before), failure);
            var y := RunFrom(env, log, x, [Begin, Begin]);
            && x.hw == 2 && Indexes(View(x.topics)) != Indexes(Spec(1, log, x.hw))
            && y.phase.Ready? && y.cursor == |log| && View(y.topics) != Spec(1, log, |log|)
  {
    hide Replay.Run, Replay.Next, After, View, Keep, Encodable, RunFrom, Spec, BeginStep, Indexes, Fails;
    var before, failure := [Begin, Publish(SYNC_FAILS), Begin, Publish(OK)], Replay.Crash(Keep(env.cfg, e1, e2));
    var x := Replay.Next(env, log, Replay.Run(env, log, before), failure);
    LostRunRecovers(env, log, e1, e2);
    SkipTwo(env, log, x);
    TwoBegins(env, log, x);
    FirstIsLogged(1, log, 2);
    AnyRunIff(env, log, before, failure, [Begin, Begin]);
  }

  lemma LostRunRecovers(env: Env, log: RaftLog, e1: Command, e2: Command)
    requires Setting(env, e1, e2, log)
    ensures var before := [Begin, Publish(SYNC_FAILS), Begin, Publish(OK)];
            var failure := Replay.Crash(Keep(env.cfg, e1, e2));
            var w := Replay.Run(env, log, before);
            var x := Replay.Next(env, log, w, failure);
            && Fails(env, log, w, failure) && x.phase.Ready?
            && x.cursor == 0 && x.hw == 2 && Indexes(View(x.topics)) == {2}
  {
    hide Replay.Run, After, View, Keep, Encodable, Indexes, Possible, CrashStep;
    RunBefore(env, log, e1, e2);
    PowerFails(env, log, e1, e2);
    var (sa, sb) := After(env.cfg, e1, e2);
    var w := World(map[e1.topic := [Shard(sa, [])], e2.topic := [Shard(sb, [])]], 0, 2, Ready);
    OneIndex(View(CrashStep(env, w, Keep(env.cfg, e1, e2)).topics), e1, e2);
  }

  // ---- A power loss between write and fsync ----

  lemma FailedAppendWrites(cfg: Config, e: Command)
    requires cfg.mode == PerMessage && e.Pub? && Fits(e)
    ensures var s := AppendStep(cfg, EMPTY, Stamp(e, 1, 0), SYNC_FAILS);
            LogSound(cfg, s) && Retained(s) == [Stamp(e, 1, 0)]
  {
    hide AppendStep, LogSound, Encodable;
    var s := AppendStep(cfg, EMPTY, Stamp(e, 1, 0), SYNC_FAILS);
    FirstAppend(cfg, EMPTY, Stamp(e, 1, 0), SYNC_FAILS);
    assert LogSound(cfg, EMPTY) by { FreshShard(cfg); ShardParts(cfg, Shard(EMPTY, [])); }
    EmptyRetains();
    AppendGrows(cfg, EMPTY, Stamp(e, 1, 0), SYNC_FAILS);
    assert Concat(s.files, 0, 0) == [];
  }

  lemma BeginNew(env: Env, log: RaftLog)
    requires env.defaultPartitions == 1 && log != [] && log[0].Pub?
    ensures Replay.Run(env, log, [Begin]) == World(map[log[0].topic := [Shard(EMPTY, [])]], 0, 0, Routed)
  {
    assert [Begin][..0] == [];
    RunNothing(env, log);
    OneShard(START.topics, log[0].topic);
  }

  lemma MidFirstAppend(env: Env, log: RaftLog)
    requires env.defaultPartitions == 1 && log != [] && Plain(log[0])
    ensures var x := Replay.Run(env, log, [Begin]);
            var s := AppendStep(env.cfg, EMPTY, Stamp(log[0], 1, 0), SYNC_FAILS);
            Appends(log, x) && MidAppend(env, log, x, SYNC_FAILS) == map[log[0].topic := [Shard(s, [])]]
  {
    hide Replay.Run, AppendStep, Encodable;
    BeginNew(env, log);
    var s := AppendStep(env.cfg, EMPTY, Stamp(log[0], 1, 0), SYNC_FAILS);
    assert [Shard(EMPTY, [])][0 := Shard(s, [])] == [Shard(s, [])];
  }

  /** In a run without failures the record is in its file when the power fails, and gone afterwards. */
  lemma PowerLossMidAppend(env: Env, log: RaftLog)
    requires env.cfg.mode == PerMessage && env.defaultPartitions == 1 && log != [] && Plain(log[0])
    ensures var t, x := log[0].topic, Replay.Run(env, log, [Begin]);
            var y := Replay.Next(env, log, x, Dies(SYNC_FAILS, map[t := [[0]]]));
            && Appends(log, x) && View(MidAppend(env, log, x, SYNC_FAILS)) == map[t := [[Stamp(log[0], 1, 0)]]]
            && y.phase.Ready? && y.cursor == 0 && View(y.topics) == map[t := [[]]]
  {
    hide Replay.Run, AppendStep, Encodable, Retained, View, PowerLossStep, Survivable, Dedupe.Rebuild, MaxOf, Indexes;
    hide MidAppend, Appends;
    var t, s := log[0].topic, AppendStep(env.cfg, EMPTY, Stamp(log[0], 1, 0), SYNC_FAILS);
    MidFirstAppend(env, log);
    FailedAppendWrites(env.cfg, log[0]);
    FailedAppendIsLost(env.cfg, log[0]);
    var topics: Topics, keep := map[t := [Shard(s, [])]], map[t := [[0]]];
    assert View(topics)[t] == [[Stamp(log[0], 1, 0)]];
    assert View(topics) == map[t := [[Stamp(log[0], 1, 0)]]];
    assert Possible(topics, keep);
    var after: Topics := RecoverAll(env.cap, topics, keep);
    assert View(after)[t] == [[]];
    assert View(after) == map[t := [[]]];
  }

  // ---- Too many records instead of too few ----

  /** Two publishes of one key to the first partition of one topic. */
  ghost predicate Twice(env: Env, e1: Command, e2: Command, log: RaftLog) {
    && env.cfg.mode == PerMessage && env.defaultPartitions == 1 && log == [e1, e2]
    && e1.Pub? && e2.Pub? && e1.partition == e2.partition == 0 && Fits(e1) && Fits(e2)
    && e1.topic == e2.topic && e1.key == e2.key != []
  }

  function Both(cfg: Config, e1: Command, e2: Command): State
    requires e1.Pub? && e2.Pub?
  {
    AppendStep(cfg, AppendStep(cfg, EMPTY, Stamp(e1, 1, 0), SYNC_FAILS), Stamp(e2, 2, 0), OK)
  }

  lemma BothKept(cfg: Config, e1: Command, e2: Command)
    requires cfg.mode == PerMessage && e1.Pub? && e2.Pub? && Fits(e1) && Fits(e2)
    ensures var s := Both(cfg, e1, e2);
            Survivable(s, KeepAll(s)) && Retained(PowerLossStep(s, KeepAll(s))) == [Stamp(e1, 1, 0), Stamp(e2, 2, 1)]
  {
    hide AppendStep, Inv, PowerLossStep, Survivable, Retained, Encodable, Floor, Settled;
    var s1, s := AppendStep(cfg, EMPTY, Stamp(e1, 1, 0), SYNC_FAILS), Both(cfg, e1, e2);
    FailedAppendWrites(cfg, e1);
    FitsAny(e2, 2, 1);
    AppendWrites(cfg, s1, Stamp(e2, 2, 0));
    KeepAllSurvives(cfg, s);
    CrashWhole(cfg, s, KeepAll(s));
  }

  /** The fsync of the first fails, so the index does not learn the key and the second is logged as well. */
  lemma RunTwice(env: Env, log: RaftLog, e1: Command, e2: Command)
    requires Twice(env, e1, e2, log)
    ensures var x := Replay.Run(env, log, [Begin, Publish(SYNC_FAILS), Begin, Publish(OK)]);
            && x.topics.Keys == {e1.topic} && |x.topics[e1.topic]| == 1
            && x.topics[e1.topic][0].log == Both(env.cfg, e1, e2) && x.phase.Ready?
  {
    hide Replay.Run, AppendStep, Encodable, Size, BeginStep, PublishStep;
    RunNothing(env, log);
    var s2 := [Begin, Publish(SYNC_FAILS)];
    assert [] + s2 == s2;
    RunTwoMore(env, log, [], Begin, Publish(SYNC_FAILS));
    FailNew(env, log, e1);
    var s := AppendStep(env.cfg, EMPTY, Stamp(e1, 1, 0), SYNC_FAILS);
    assert s2 + [Begin, Publish(OK)] == [Begin, Publish(SYNC_FAILS), Begin, Publish(OK)];
    RunTwoMore(env, log, s2, Begin, Publish(OK));
    FailedAppendWrites(env.cfg, e1);
    PublishSecond(env, log, e2, s);
  }

  lemma FailNew(env: Env, log: RaftLog, e: Command)
    requires env.cfg.mode == PerMessage && env.defaultPartitions == 1 && log != [] && log[0] == e
    requires e.Pub? && e.partition == 0 && Fits(e)
    ensures PublishStep(env, log, BeginStep(env, log, START), SYNC_FAILS)
         == World(map[e.topic := [Shard(AppendStep(env.cfg, EMPTY, Stamp(e, 1, 0), SYNC_FAILS), [])]], 0, 1, Ready)
  {
    hide AppendStep, Encodable, Size, Open;
    OneShard(START.topics, e.topic);
    var y := BeginStep(env, log, START);
    assert y == World(map[e.topic := [Shard(EMPTY, [])]], 0, 0, Routed);
    var z := PublishStep(env, log, y, SYNC_FAILS);
    assert z.topics[e.topic] == [Shard(AppendStep(env.cfg, EMPTY, Stamp(e, 1, 0), SYNC_FAILS), [])];
  }

  lemma PublishSecond(env: Env, log: RaftLog, e: Command, s: State)
    requires env.cfg.mode == PerMessage && |log| == 2 && log[1] == e && e.Pub? && e.partition == 0 && Fits(e)
    requires LogSound(env.cfg, s) && |Retained(s)| == 1
    ensures var x := World(map[e.topic := [Shard(s, [])]], 0, 1, Ready);
            var y := PublishStep(env, log, BeginStep(env, log, x), OK);
            && y.topics.Keys == {e.topic} && |y.topics[e.topic]| == 1 && y.phase.Ready?
            && y.topics[e.topic][0].log == AppendStep(env.cfg, s, Stamp(e, 2, 0), OK)
  {
    hide AppendStep, Encodable, Size, LogSound, Retained, Dedupe.Put;
    LogDense(env.cfg, s);
    FitsAny(e, 2, 1);
  }

  /** The recovered logs hold every record of the uninterrupted run and one more. */
  lemma ExtraAfterFailedFsync(env: Env, log: RaftLog, e1: Command, e2: Command)
    requires Twice(env, e1, e2, log)
    ensures var w := Replay.Run(env, log, [Begin, Publish(SYNC_FAILS), Begin, Publish(OK)]);
            var keep := map[e1.topic := [KeepAll(Both(env.cfg, e1, e2))]];
            var x := Replay.Next(env, log, w, Replay.Crash(keep));
            && Possible(w.topics, keep)
            && View(x.topics) == map[e1.topic := [[Stamp(e1, 1, 0), Stamp(e2, 2, 1)]]]
            && Spec(1, log, 2) == map[e1.topic := [[Stamp(e1, 1, 0)]]]
  {
    hide Replay.Run, Both, Encodable, Retained, View, PowerLossStep, Survivable, Dedupe.Rebuild, MaxOf, Indexes, Spec;
    RunTwice(env, log, e1, e2);
    BothKept(env.cfg, e1, e2);
    SpecOfTwice(env, log, e1, e2);
    var t, keep := e1.topic, map[e1.topic := [KeepAll(Both(env.cfg, e1, e2))]];
    var w := Replay.Run(env, log, [Begin, Publish(SYNC_FAILS), Begin, Publish(OK)]);
    assert Possible(w.topics, keep);
    var after: Topics := RecoverAll(env.cap, w.topics, keep);
    assert View(after)[t] == [[Stamp(e1, 1, 0), Stamp(e2, 2, 1)]];
    assert View(after) == map[t := [[Stamp(e1, 1, 0), Stamp(e2, 2, 1)]]];
  }

  lemma SpecOfTwice(env: Env, log: RaftLog, e1: Command, e2: Command)
    requires Twice(env, e1, e2, log)
    ensures Spec(1, log, 2) == map[e1.topic := [[Stamp(e1, 1, 0)]]]
  {
    hide Encodable;
    var t := e1.topic;
    var m0: Logs := Ensure(1, map[], t, 0);
    var m1: Logs := map[t := [[Stamp(e1, 1, 0)]]];
    assert m0[t] == [[]];
    assert Writes(m0, e1);
    assert m0[t][0] + [Stamp(e1, 1, 0)] == [Stamp(e1, 1, 0)];
    assert m0[t][0 := [Stamp(e1, 1, 0)]] == m1[t];
    assert Spec(1, log, 0) == map[];
    assert Spec(1, log, 1) == m1;
    assert Known(m1[t][0], e2.key) by { assert m1[t][0][0].key == e2.key; }
  }

  // ---- A kill between write and fsync ----

  /** What the killed process reopens holds the record, and a power loss still takes it. */
  lemma KilledAppendIsLost(cfg: Config, e: Command)
    requires cfg.mode == PerMessage && Plain(e)
    ensures var s := KillStep(AppendStep(cfg, EMPTY, Stamp(e, 1, 0), SYNC_FAILS));
            && Retained(s) == [Stamp(e, 1, 0)] && |s.files| - s.first == 1
            && Survivable(s, [0]) && Retained(PowerLossStep(s, [0])) == []
  {
    hide AppendStep, KillStep, PowerLossStep, Survivable, Encodable, Concat, Len;
    var s, r := AppendStep(cfg, EMPTY, Stamp(e, 1, 0), SYNC_FAILS), Stamp(e, 1, 0);
    FirstAppend(cfg, EMPTY, r, SYNC_FAILS);
    FailedAppendWrites(cfg, e);
    KillRetains(s);
    KillPublishesUnsynced(cfg, s, r);
    var t := KillStep(s);
    StartsOver(t, t.files[0]);
    LosesAll(t, r);
  }

  lemma LosesAll(s: State, r: Record)
    requires s.first == 0 && |s.files| == 1 && s.files[0].recs == [r] && Survivable(s, [0])
    ensures Retained(PowerLossStep(s, [0])) == []
  {
    hide PowerLossStep;
    ActiveAfter(s, [0]);
    AfterFiles(s, [0], 0);
    WholeIsMaximal([r], 0);
    assert [r][..1] == [r] && [r][..0] == [];
    var t := PowerLossStep(s, [0]);
    assert t.files[0] == Active(t) && Concat(t.files, 0, 0) == [];
  }

  function KilledLog(cfg: Config, e: Command): State
    requires e.Pub?
  {
    KillStep(AppendStep(cfg, EMPTY, Stamp(e, 1, 0), SYNC_FAILS))
  }

  lemma KilledInFirst(env: Env, log: RaftLog)
    requires env.cfg.mode == PerMessage && env.defaultPartitions == 1 && log != [] && Plain(log[0])
    ensures var x := Replay.Run(env, log, [Begin]);
            ActNext(env, log, x, KilledIn(SYNC_FAILS))
            == World(map[log[0].topic := [Shard(KilledLog(env.cfg, log[0]), [])]], 1, 0, Ready)
  {
    hide Replay.Run, AppendStep, KillStep, Encodable, Retained, View, MidAppend, Appends, PowerLossStep, Survivable;
    var t, s := log[0].topic, KilledLog(env.cfg, log[0]);
    MidFirstAppend(env, log);
    KilledAppendIsLost(env.cfg, log[0]);
    var after: Topics := map[t := [Shard(s, [])]];
    KillOne(env.cap, t, AppendStep(env.cfg, EMPTY, Stamp(log[0], 1, 0), SYNC_FAILS), Stamp(log[0], 1, 0));
    assert View(after)[t] == [[Stamp(log[0], 1, 0)]];
    assert View(after) == map[t := [[Stamp(log[0], 1, 0)]]];
    OnlyFirst(View(after), log[0]);
  }

  lemma NoKeyNoEntry(cap: int, r: Record)
    requires r.key == []
    ensures Dedupe.Rebuild(cap, Keys([r]), 0) == []
  {
    var ks := Keys([r]);
    assert ks[..0] == [] && ks[0] == [];
    assert Dedupe.Rebuild(cap, ks[..0], 0) == [];
  }

  lemma KillOne(cap: int, t: Name, s: State, r: Record)
    requires Retained(KillStep(s)) == [r] && r.key == []
    ensures KillAll(cap, map[t := [Shard(s, [])]]) == map[t := [Shard(KillStep(s), [])]]
  {
    hide Retained, KillStep, Dedupe.Rebuild;
    NoKeyNoEntry(cap, r);
    SameTopics(KillAll(cap, map[t := [Shard(s, [])]]), map[t := [Shard(KillStep(s), [])]]);
  }

  lemma OnlyFirst(m: Logs, e: Command)
    requires e.Pub? && m == map[e.topic := [[Stamp(e, 1, 0)]]]
    ensures MaxOf(Indexes(m)) == 1
  {
    assert m[e.topic][0][0].raftIndex as nat == 1;
    assert Indexes(m) == {1};
  }

  const KILLED_RUN := [Does(Begin), KilledIn(SYNC_FAILS), Does(Begin), Does(Begin), Does(Publish(OK))]

  /** The replay skips the first publish, whose record is in its log, and logs the second. */
  lemma RunKilled(env: Env, log: RaftLog, e1: Command, e2: Command)
    requires Setting(env, e1, e2, log)
    ensures var s := AppendStep(env.cfg, EMPTY, Stamp(e2, 2, 0), OK);
            ActRun(env, log, KILLED_RUN)
            == World(map[e1.topic := [Shard(KilledLog(env.cfg, e1), [])], e2.topic := [Shard(s, [])]], 1, 2, Ready)
  {
    hide ActRun, Replay.Run, AppendStep, KilledLog, BeginStep, PublishStep, Encodable, KillAll, MidAppend;
    hide Appends, Fits;
    var a1 := [Does(Begin)];
    var a2 := a1 + [KilledIn(SYNC_FAILS)];
    var a3 := a2 + [Does(Begin)];
    var a4 := a3 + [Does(Begin)];
    assert KILLED_RUN == a4 + [Does(Publish(OK))];
    assert [] + a1 == a1;
    ActNothing(env, log);
    ActSnoc(env, log, [], Does(Begin));
    ActSnoc(env, log, a1, KilledIn(SYNC_FAILS));
    ActSnoc(env, log, a2, Does(Begin));
    ActSnoc(env, log, a3, Does(Begin));
    ActSnoc(env, log, a4, Does(Publish(OK)));
    BeginNew(env, log);
    FirstBegin(env, log);
    KilledInFirst(env, log);
    var k: Topics := map[e1.topic := [Shard(KilledLog(env.cfg, e1), [])]];
    SkipOne(env, log, k);
    PublishNew(env, log, World(k, 1, 1, Ready), OK);
  }

  lemma FirstBegin(env: Env, log: RaftLog)
    ensures Replay.Run(env, log, [Begin]) == BeginStep(env, log, START)
  {
    assert [Begin][..0] == [];
    RunNothing(env, log);
  }

  lemma SkipOne(env: Env, log: RaftLog, topics: Topics)
    requires |log| == 2 && log[0].Pub?
    ensures BeginStep(env, log, World(topics, 1, 0, Ready)) == World(topics, 1, 1, Ready)
  {
  }

  lemma OneFileSpared(s: State, keep: seq<nat>)
    requires |s.files| - s.first == 1
    ensures SealsWhole(s, keep)
  {
  }

  /**
   * No fsync fails and still a publish is lost for good: the process is killed between write and fsync, its
   * replay skips the publish because the record is there, the second publish is fsynced in another log, and
   * the power loss takes the first record below the mark the second one sets.
   */
  lemma LostAfterKill(env: Env, log: RaftLog, e1: Command, e2: Command)
    requires Setting(env, e1, e2, log)
    ensures var w, end := ActRun(env, log, KILLED_RUN), Does(Replay.Crash(Keep(env.cfg, e1, e2)));
            var x := ActNext(env, log, w, end);
            var y := RunFrom(env, log, x, [Begin, Begin]);
            && Ends(env, log, w, end) && Spared(env, log, w, end) && LossesSpare(env, log, KILLED_RUN)
            && x.hw == 2 && View(x.topics) == map[e1.topic := [[]], e2.topic := [[Stamp(e2, 2, 0)]]]
            && y.phase.Ready? && y.cursor == |log| && View(y.topics) != Spec(1, log, |log|)
  {
    hide ActRun, RunFrom, BeginStep, Encodable, KilledLog, After, Spec, Indexes, View, Keep, LossesSpare, ActNext;
    var w, end := ActRun(env, log, KILLED_RUN), Does(Replay.Crash(Keep(env.cfg, e1, e2)));
    KilledPowerFails(env, log, e1, e2);
    NoLosses(env, log);
    var x := ActNext(env, log, w, end);
    SkipTwo(env, log, x);
    TwoBegins(env, log, x);
    OneIndex(View(x.topics), e1, e2);
    FirstIsLogged(1, log, 2);
    AnyActsIff(env, log, KILLED_RUN, end, [Begin, Begin]);
  }

  lemma NoLosses(env: Env, log: RaftLog)
    ensures LossesSpare(env, log, KILLED_RUN)
  {
    hide ActRun;
  }

  lemma KilledPowerFails(env: Env, log: RaftLog, e1: Command, e2: Command)
    requires Setting(env, e1, e2, log)
    ensures var w, end := ActRun(env, log, KILLED_RUN), Does(Replay.Crash(Keep(env.cfg, e1, e2)));
            var x := ActNext(env, log, w, end);
            && Ends(env, log, w, end) && Spared(env, log, w, end)
            && x.phase.Ready? && x.cursor == 0 && x.hw == 2
            && View(x.topics) == map[e1.topic := [[]], e2.topic := [[Stamp(e2, 2, 0)]]]
  {
    hide ActRun, AppendStep, KillStep, PowerLossStep, Survivable, Retained, Encodable, KeepAll, Dedupe.Rebuild, View;
    var sa, sb := KilledLog(env.cfg, e1), AppendStep(env.cfg, EMPTY, Stamp(e2, 2, 0), OK);
    var keep := Keep(env.cfg, e1, e2);
    RunKilled(env, log, e1, e2);
    KilledAppendIsLost(env.cfg, e1);
    GoodAppendIsKept(env.cfg, e2);
    OneFileSpared(sa, [0]);
    OneFileSpared(sb, KeepAll(sb)) by { OneFile(env.cfg, e2); }
    var topics: Topics := map[e1.topic := [Shard(sa, [])], e2.topic := [Shard(sb, [])]];
    assert Possible(topics, keep) && SealsSpared(topics, keep);
    TwoRecovered(env.cap, topics, keep, e1, e2, sa, sb);
    OneIndex(View(RecoverAll(env.cap, topics, keep)), e1, e2);
  }

  lemma TwoRecovered(cap: int, topics: Topics, keep: Remains, e1: Command, e2: Command, sa: State, sb: State)
    requires Plain(e1) && Plain(e2) && e1.topic != e2.topic && Possible(topics, keep)
    requires topics == map[e1.topic := [Shard(sa, [])], e2.topic := [Shard(sb, [])]]
    requires Retained(PowerLossStep(sa, keep[e1.topic][0])) == []
    requires Retained(PowerLossStep(sb, keep[e2.topic][0])) == [Stamp(e2, 2, 0)]
    ensures View(RecoverAll(cap, topics, keep)) == map[e1.topic := [[]], e2.topic := [[Stamp(e2, 2, 0)]]]
  {
    hide PowerLossStep, Survivable, Retained, Encodable, Dedupe.Rebuild, View;
    var after: Topics := RecoverAll(cap, topics, keep);
    var m: Logs := map[e1.topic := [[]], e2.topic := [[Stamp(e2, 2, 0)]]];
    assert View(after)[e1.topic] == m[e1.topic];
    assert View(after)[e2.topic] == m[e2.topic];
  }

  lemma OneFile(cfg: Config, e: Command)
    requires cfg.mode == PerMessage && Plain(e)
    ensures var s := AppendStep(cfg, EMPTY, Stamp(e, 2, 0), OK); |s.files| == 1 && s.first == 0
  {
    hide AppendStep, Encodable;
    FitsAny(e, 2, 0);
    DurableFirst(cfg, AppendStep(cfg, EMPTY, Stamp(e, 2, 0), OK), Stamp(e, 2, 0));
  }

  // ---- A full dedupe index ----

  /** Publishes of a, b, a, c and a again to one partition of a node with room for two keys. */
  ghost predicate Five(env: Env, log: RaftLog) {
    && env.cap == 2 && env.defaultPartitions == 1 && |log| == 5
    && (forall i :: 0 <= i < 5 ==> log[i].Pub? && log[i].topic == log[0].topic && log[i].partition == 0 && Fits(log[i]))
    && log[0].key == log[2].key == log[4].key
    && log[0].key != [] && log[1].key != [] && log[3].key != []
    && log[0].key != log[1].key && log[1].key != log[3].key && log[0].key != log[3].key
  }

  lemma SpecMore(log: RaftLog, n: nat, t: Name, rs: seq<Record>)
    requires n < |log| && Spec(1, log, n) == (if n == 0 then map[] else map[t := [rs]]) && (n == 0 ==> rs == [])
    requires log[n].Pub? && log[n].topic == t && log[n].partition == 0 && Fits(log[n]) && |rs| < U64
    ensures Spec(1, log, n + 1)
         == map[t := [if Known(rs, log[n].key) then rs else rs + [Stamp(log[n], n + 1, |rs|)]]]
  {
    hide Encodable, Known;
    var m1: Logs := Ensure(1, Spec(1, log, n), t, 0);
    assert m1[t] == [rs];
    assert m1 == map[t := [rs]];
    assert [rs][0 := rs + [Stamp(log[n], n + 1, |rs|)]] == [rs + [Stamp(log[n], n + 1, |rs|)]];
  }

  /** What the uninterrupted run logs: a, b and c. */
  function Logged(log: RaftLog): seq<Record>
    requires |log| == 5 && forall i :: 0 <= i < 5 ==> log[i].Pub?
  {
    [Stamp(log[0], 1, 0), Stamp(log[1], 2, 1), Stamp(log[3], 4, 2)]
  }

  lemma SpecOfFive(env: Env, log: RaftLog)
    requires Five(env, log)
    ensures var t, rs := log[0].topic, Logged(log);
            && Spec(1, log, 0) == map[] && Spec(1, log, 1) == map[t := [rs[..1]]]
            && Spec(1, log, 2) == Spec(1, log, 3) == map[t := [rs[..2]]]
            && Spec(1, log, 4) == Spec(1, log, 5) == map[t := [rs]]
  {
    hide Spec, Fits;
    var t, rs := log[0].topic, Logged(log);
    assert Spec(1, log, 0) == map[] by { SpecNothing(log); }
    SpecMore(log, 0, t, []);
    assert [] + [rs[0]] == rs[..1];
    SpecMore(log, 1, t, rs[..1]);
    assert rs[..1] + [rs[1]] == rs[..2];
    KnownAt(rs[..2], 0);
    SpecMore(log, 2, t, rs[..2]);
    SpecMore(log, 3, t, rs[..2]);
    assert rs[..2] + [rs[2]] == rs;
    KnownAt(rs, 0);
    SpecMore(log, 4, t, rs);
  }

  lemma SpecNothing(log: RaftLog)
    ensures Spec(1, log, 0) == map[]
  {
  }

  lemma UsesOfFive(env: Env, log: RaftLog)
    requires Five(env, log)
    ensures var t, a, b, c := log[0].topic, log[0].key, log[1].key, log[3].key;
            && Uses(2, log, t, 0, [], 0, 2) == [a, b] && Uses(2, log, t, 0, [], 0, 4) == [a, b, a, c]
            && Uses(2, log, t, 0, Logged(log), 4, 4) == [a, b, c]
  {
    hide Fits, Remembers;
    var t, a, b, c := log[0].topic, log[0].key, log[1].key, log[3].key;
    assert Uses(2, log, t, 0, [], 0, 0) == [];
    assert Uses(2, log, t, 0, [], 0, 1) == [a];
    assert Uses(2, log, t, 0, [], 0, 2) == [a, b];
    assert Uses(2, log, t, 0, [], 0, 3) == [a, b, a];
    assert Keys(Logged(log)) == [a, b, c];
  }

  lemma TwoRemembered(a: Dedupe.Key, b: Dedupe.Key, c: Dedupe.Key)
    requires a != [] && b != [] && c != [] && a != b && b != c && a != c
    ensures Remembers(2, [a, b], a) && Remembers(2, [a, b, a, c], a) && !Remembers(2, [a, b, c], a)
  {
    OneAfter([a, b], 0);
    assert Dedupe.Latest([a, b], a, 0);
    OneAfter([a, b, a, c], 2);
    assert Dedupe.Latest([a, b, a, c], a, 2);
    var v := [a, b, c];
    forall id: nat | Dedupe.Latest(v, a, id) ensures |Dedupe.KeysAfter(v, id)| >= 2 {
      assert id == 0 by { assert v[0] == a && v[1] == b && v[2] == c; }
      assert v[1] in Dedupe.KeysAfter(v, 0) && v[2] in Dedupe.KeysAfter(v, 0);
      Dedupe.Subset({b, c}, Dedupe.KeysAfter(v, 0));
    }
  }

  lemma OneAfter(v: seq<Dedupe.Key>, i: nat)
    requires |v| == i + 2
    ensures |Dedupe.KeysAfter(v, i)| <= 1
  {
    forall k | k in Dedupe.KeysAfter(v, i) ensures k in {v[i + 1]} {
    }
    Dedupe.Subset(Dedupe.KeysAfter(v, i), {v[i + 1]});
  }

  /** Without a restart every repeated a is answered as a duplicate. */
  lemma FiveStraight(env: Env, log: RaftLog)
    requires Five(env, log)
    ensures Enough(env, log, 0, 5)
  {
    hide Spec, Fold, Uses, Remembers, Fits;
    var t, rs := log[0].topic, Logged(log);
    SpecOfFive(env, log);
    UsesOfFive(env, log);
    TwoRemembered(log[0].key, log[1].key, log[3].key);
    forall i | 0 <= i < 5 ensures !Forgets(env, log, Spec(1, log, 0), 0, i) {
      FoldOfSpec(1, log, 0, i);
    }
  }

  lemma FiveForgets(env: Env, log: RaftLog)
    requires Five(env, log)
    ensures Mark(1, log, 4) && Forgets(env, log, Spec(1, log, 4), 4, 4) && 5 !in Indexes(Spec(1, log, 5))
  {
    hide Spec, Fold, Uses, Remembers, Fits;
    var t, rs := log[0].topic, Logged(log);
    SpecOfFive(env, log);
    UsesOfFive(env, log);
    TwoRemembered(log[0].key, log[1].key, log[3].key);
    FoldOfSpec(1, log, 4, 4);
    KnownAt(rs, 0);
    IndexIn(Spec(1, log, 5), t, 0, 2);
    KnownNotLogged(1, log, 4, 5);
  }

  /**
   * Two runs of one node without any failure that disagree. Straight through, the last a is a duplicate. Restarted
   * after c, the index is rebuilt from the log, which does not tell that a was used after b: a is forgotten, and
   * its last publish is logged again.
   */
  lemma RestartLogsAgain(env: Env, kills: bool, log: RaftLog) returns (acts: seq<Act>)
    requires Five(env, log) && (kills || env.cfg.mode != NoSync)
    ensures var x := Straight(env, log, 5);
            x.phase.Ready? && x.cursor == 5 && View(x.topics) == map[log[0].topic := [Logged(log)]]
    ensures AllAllowed(kills, acts)
    ensures var x := ActRun(env, log, acts); 5 in Indexes(View(x.topics)) && !Exact(env, log, x)
  {
    hide Spec, Straight, ActRun, View, Indexes, Exact, AllAllowed, Forgets, Mark, Five;
    FiveIs(env, log);
    SpecOfFive(env, log);
    FiveStraight(env, log);
    FiveForgets(env, log);
    StraightIff(env, log);
    acts := ForgottenIsLogged(env, kills, log, 4, 4);
  }

  lemma FiveIs(env: Env, log: RaftLog)
    requires Five(env, log)
    ensures |log| == 5 && env.defaultPartitions == 1 && forall i :: 0 <= i < 5 ==> log[i].Pub?
  {
  }
}
