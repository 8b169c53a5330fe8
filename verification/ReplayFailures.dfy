/**
 * Replay after any run at all, failed writes and fsyncs included: what recovery still guarantees, and what
 * applying the raft log again makes of the recovered logs.
 */
module ReplayFailures {
  import opened Bytes
  import opened Codec
  import opened Wal
  import opened WalTheorems
  import opened ReplaySpec
  import opened Shards
  import opened Replay
  import Dedupe

  // ---- What every run keeps ----

  ghost predicate Sound(cfg: Config, topics: Topics) {
    forall t, p :: t in topics && 0 <= p < |topics[t]| ==> LogSound(cfg, topics[t][p].log)
  }

  /** The largest raft index a record can have. */
  function Bound(x: World): nat { Max(x.hw, if x.phase.Waiting? then x.cursor + 1 else x.cursor) }

  /** The topics of the first n commands exist, and every topic has the count an uninterrupted run gives it. */
  ghost predicate TopicsOk(default: int, log: RaftLog, n: nat, m: Logs)
    requires n <= |log|
  {
    && (forall j :: 0 <= j < n ==> log[j].topic in m)
    && (forall t :: t in m ==> t in Spec(default, log, |log|) && |m[t]| == |Spec(default, log, |log|)[t]|)
  }

  /** n commands have been begun. */
  ghost predicate WeakInv(env: Env, log: RaftLog, x: World, n: nat) {
    && x.cursor <= n <= |log| && x.hw <= n && Bound(x) <= n
    && Sound(env.cfg, x.topics)
    && LogsOk(log, Bound(x), View(x.topics))
    && TopicsOk(env.defaultPartitions, log, n, View(x.topics))
    && (!x.phase.Ready? ==> x.cursor < n && log[x.cursor].Pub? && x.hw <= x.cursor)
  }

  lemma LogsOkLater(log: RaftLog, n: nat, n': nat, m: Logs)
    requires LogsOk(log, n, m) && n <= n' <= |log|
    ensures LogsOk(log, n', m)
  {
    forall t, p | t in m && 0 <= p < |m[t]| ensures PartitionOk(log, n', t, p, m[t][p]) {
      assert PartitionOk(log, n, t, p, m[t][p]);
      assert forall k :: 0 <= k < |m[t][p]| ==> RecordOk(log, n, t, p, k, m[t][p][k]);
    }
  }

  // ---- Topics ----

  lemma {:induction false} SpecTopics(default: int, log: RaftLog, n: nat, t: Name)
    requires n <= |log| && t in Spec(default, log, n)
    ensures exists j :: 0 <= j < n && log[j].topic == t
  {
    if t in Spec(default, log, n - 1) {
      SpecTopics(default, log, n - 1, t);
    } else {
      assert log[n - 1].topic == t;
    }
  }

  /** A topic opened for the command under the cursor gets the count the uninterrupted run gives it. */
  lemma OpenTopics(default: int, log: RaftLog, n: nat, m: Logs, c: nat)
    requires c <= n <= |log| && c < |log| && TopicsOk(default, log, n, m)
    ensures var e := log[c];
            TopicsOk(default, log, Max(n, c + 1), Ensure(default, m, e.topic, if e.Create? then e.partitions else 0))
  {
    hide Spec, SpecApply, Writes;
    var e := log[c];
    if e.topic !in m {
      assert c == n;
      if e.topic in Spec(default, log, c) {
        SpecTopics(default, log, c, e.topic);
      }
      SpecStep(default, log, c);
      SpecGrows(default, log, c + 1, |log|);
      CountIs(default, Spec(default, log, c), e, c + 1);
    }
  }

  lemma CountIs(default: int, m: Logs, e: Command, index: u64)
    requires e.topic !in m
    ensures var m' := SpecApply(default, m, e, index);
            e.topic in m' && |m'[e.topic]| == CountFor(default, if e.Create? then e.partitions else 0)
  {
  }

  lemma SoundOpen(cfg: Config, default: int, topics: Topics, t: Name, want: int)
    requires Sound(cfg, topics)
    ensures Sound(cfg, Open(default, topics, t, want))
  {
    hide LogSound, CountFor;
    assert LogSound(cfg, EMPTY) by { FreshShard(cfg); ShardParts(cfg, Shard(EMPTY, [])); }
  }

  lemma BeginWeak(env: Env, log: RaftLog, x: World, n: nat)
    requires WeakInv(env, log, x, n) && x.phase.Ready? && x.cursor < |log|
    ensures WeakInv(env, log, BeginStep(env, log, x), Max(n, x.cursor + 1))
  {
    hide Sound, LogsOk, TopicsOk, View, Open, Ensure;
    var e, d := log[x.cursor], env.defaultPartitions;
    var want := if e.Create? then e.partitions else 0;
    var y, n' := BeginStep(env, log, x), Max(n, x.cursor + 1);
    ViewOpen(d, x.topics, e.topic, want);
    OpenTopics(d, log, n, View(x.topics), x.cursor);
    SoundOpen(env.cfg, d, x.topics, e.topic, want);
    EnsureOk(d, log, Bound(x), View(x.topics), e.topic, want);
    LogsOkLater(log, Bound(x), Bound(y), View(y.topics));
  }

  // ---- One partition changes ----

  lemma SoundSet(cfg: Config, topics: Topics, t: Name, p: nat, sh: Shard)
    requires Sound(cfg, topics) && t in topics && p < |topics[t]| && LogSound(cfg, sh.log)
    ensures Sound(cfg, SetShard(topics, t, p, sh))
  {
    hide LogSound;
  }

  lemma TopicsSet(default: int, log: RaftLog, n: nat, m: Logs, t: Name, p: nat, rs: seq<Record>)
    requires n <= |log| && TopicsOk(default, log, n, m) && t in m && p < |m[t]|
    ensures TopicsOk(default, log, n, m[t := m[t][p := rs]])
  {
    hide Spec;
  }

  lemma LogsSet(log: RaftLog, n: nat, m: Logs, t: Name, p: nat, rs: seq<Record>)
    requires LogsOk(log, n, m) && t in m && p < |m[t]| && PartitionOk(log, n, t, p, rs)
    ensures LogsOk(log, n, m[t := m[t][p := rs]])
  {
    hide PartitionOk;
  }

  /** The world after the target of the command under the cursor has been set. */
  lemma SetWeak(env: Env, log: RaftLog, x: World, n: nat, y: World, sh: Shard)
    requires WeakInv(env, log, x, n) && Routable(log, x) && LogSound(env.cfg, sh.log)
    requires y.topics == SetTarget(log, x, sh).topics && y.hw == x.hw
    requires y.cursor <= n && Bound(x) <= Bound(y) <= n
    requires !y.phase.Ready? ==> y.cursor < n && log[y.cursor].Pub? && y.hw <= y.cursor
    requires PartitionOk(log, Bound(y), log[x.cursor].topic, log[x.cursor].partition, Retained(sh.log))
    ensures WeakInv(env, log, y, n)
  {
    hide Sound, LogsOk, TopicsOk, View, LogSound, PartitionOk, Retained;
    var e, m := log[x.cursor], View(x.topics);
    ViewAt(x.topics, e.topic, e.partition);
    ViewSet(x.topics, e.topic, e.partition, sh);
    SoundSet(env.cfg, x.topics, e.topic, e.partition, sh);
    LogsOkLater(log, Bound(x), Bound(y), m);
    LogsSet(log, Bound(y), m, e.topic, e.partition, Retained(sh.log));
    TopicsSet(env.defaultPartitions, log, n, m, e.topic, e.partition, Retained(sh.log));
  }

  lemma TargetParts(env: Env, log: RaftLog, x: World, n: nat)
    requires WeakInv(env, log, x, n) && Routable(log, x)
    ensures LogSound(env.cfg, Target(log, x).log)
    ensures PartitionOk(log, Bound(x), log[x.cursor].topic, log[x.cursor].partition, Retained(Target(log, x).log))
  {
    hide LogSound, PartitionOk, View, Retained;
    ViewAt(x.topics, log[x.cursor].topic, log[x.cursor].partition);
    assert PartitionOk(log, Bound(x), log[x.cursor].topic, log[x.cursor].partition,
                       View(x.topics)[log[x.cursor].topic][log[x.cursor].partition]);
  }

  /** Whatever the append's system calls do, its partition holds stamped records of growing index. */
  lemma AppendWeak(env: Env, log: RaftLog, x: World, n: nat, io: Io)
    requires env.cfg.mode != NoSync && WeakInv(env, log, x, n) && x.phase.Routed? && Routable(log, x)
    ensures var e, s := log[x.cursor], Target(log, x).log;
            var t := AppendStep(env.cfg, s, Stamp(e, x.cursor + 1, 0), io);
            LogSound(env.cfg, t) && PartitionOk(log, x.cursor + 1, e.topic, e.partition, Retained(t))
  {
    hide LogSound, PartitionOk, View, Retained, AppendStep, Encodable, Sound, LogsOk, TopicsOk;
    var e, s := log[x.cursor], Target(log, x).log;
    TargetParts(env, log, x, n);
    assert Bound(x) == x.cursor;
    PartitionOkLater(log, x.cursor, e.topic, e.partition, Retained(s));
    if |Retained(s)| < U64 {
      AppendGrows(env.cfg, s, Stamp(e, x.cursor + 1, 0), io);
      PartitionOkSnoc(log, x.cursor, e.topic, e.partition, Retained(s));
    } else {
      AppendRefused(env.cfg, s, Stamp(e, x.cursor + 1, 0), io);
    }
  }

  lemma AdvanceWeak(env: Env, log: RaftLog, x: World, n: nat)
    requires WeakInv(env, log, x, n) && !x.phase.Ready?
    ensures WeakInv(env, log, Advance(x), n)
  {
    hide Sound, LogsOk, TopicsOk, View;
    LogsOkLater(log, Bound(x), Bound(Advance(x)), View(x.topics));
  }

  lemma PublishWeak(env: Env, log: RaftLog, x: World, n: nat, io: Io)
    requires env.cfg.mode != NoSync && WeakInv(env, log, x, n) && x.phase.Routed?
    ensures WeakInv(env, log, PublishStep(env, log, x, io), n)
  {
    hide LogSound, PartitionOk, View, Retained, AppendStep, Encodable, Sound, LogsOk, TopicsOk, Refused, AppendErrs;
    hide Dedupe.Pos, Dedupe.Bump, Dedupe.Put;
    if !Routable(log, x) {
      AdvanceWeak(env, log, x, n);
    } else {
      var e, sh, y := log[x.cursor], Target(log, x), PublishStep(env, log, x, io);
      TargetParts(env, log, x, n);
      AppendWeak(env, log, x, n, io);
      PartitionOkLater(log, x.cursor, e.topic, e.partition, Retained(sh.log));
      var sh' := Target(log, y.(cursor := x.cursor));
      assert sh'.log == sh.log || sh'.log == AppendStep(env.cfg, sh.log, Stamp(e, x.cursor + 1, 0), io);
      SetWeak(env, log, x, n, y, sh');
    }
  }

  lemma FinishWeak(env: Env, log: RaftLog, x: World, n: nat)
    requires env.cfg.mode != NoSync && WeakInv(env, log, x, n)
    ensures WeakInv(env, log, FinishStep(env, log, x), n)
  {
    hide LogSound, PartitionOk, View, Retained, Wal.Next, Sound, LogsOk, TopicsOk, Dedupe.Put;
    if x.phase.Waiting? && Routable(log, x) {
      var sh, y := Target(log, x), FinishStep(env, log, x);
      if x.phase.end > sh.log.committed {
        AdvanceWeak(env, log, x, n);
      } else {
        TargetParts(env, log, x, n);
        BackgroundRetains(env.cfg, sh.log, Return(x.phase.rec, x.phase.end));
        SetWeak(env, log, x, n, y, Target(log, y.(cursor := x.cursor)));
      }
    }
  }

  lemma CommitterWeak(env: Env, log: RaftLog, x: World, n: nat, t: Name, p: nat, step: Wal.Step)
    requires env.cfg.mode != NoSync && WeakInv(env, log, x, n)
    ensures WeakInv(env, log, CommitterStep(env, x, t, p, step), n)
  {
    hide LogSound, View, Retained, Wal.Next, LogsOk, TopicsOk;
    if t in x.topics && p < |x.topics[t]| && (step.FlushSnap? || step.FlushSync? || step.FlushPublish?) {
      var sh := x.topics[t][p];
      var sh' := sh.(log := Wal.Next(env.cfg, sh.log, step));
      assert LogSound(env.cfg, sh.log);
      BackgroundRetains(env.cfg, sh.log, step);
      SoundSet(env.cfg, x.topics, t, p, sh');
      ViewSame(x.topics, t, p, sh');
    }
  }

  // ---- Restarts ----

  /** A partition as recovery leaves it: a settled log without errors, and the index rebuilt from it. */
  ghost predicate ShardRestored(env: Env, sh: Shard) {
    LogOk(env.cfg, sh.log) && Settled(sh.log) && sh.lru == Dedupe.Rebuild(env.cap, Keys(Retained(sh.log)), 0)
  }

  ghost predicate AllRestored(env: Env, topics: Topics) {
    forall t, p :: t in topics && 0 <= p < |topics[t]| ==> ShardRestored(env, topics[t][p])
  }

  /** A world as recovery leaves it: the replay starts over sound logs of stamped records. */
  ghost predicate Restored(env: Env, log: RaftLog, x: World) {
    && x.phase.Ready? && x.cursor == 0 && AllRestored(env, x.topics)
    && x.hw == MaxOf(Indexes(View(x.topics))) <= |log|
    && LogsOk(log, x.hw, View(x.topics))
    && TopicsOk(env.defaultPartitions, log, x.hw, View(x.topics))
  }

  /** Besides, every index knows all keys of its log. */
  ghost predicate Restarted(env: Env, log: RaftLog, x: World) { Restored(env, log, x) && AllOk(env.cfg, x.topics) }

  lemma ShardKnows(env: Env, log: RaftLog, n: nat, t: Name, p: nat, sh: Shard)
    requires WithinCap(env, log) && ShardRestored(env, sh) && PartitionOk(log, n, t, p, Retained(sh.log))
    ensures ShardOk(env.cfg, sh)
  {
    hide LogSound, PartitionOk, Retained, Knows, Settled, Dedupe.Rebuild, Keys;
    KeysAreFor(log, n, t, p, Retained(sh.log));
    KnowsRebuilt(Retained(sh.log), env.cap, KeysFor(log, t, p));
  }

  /** With at most cap distinct keys in each partition the rebuilt indexes know them all. */
  lemma RestoredKnows(env: Env, log: RaftLog, x: World)
    requires WithinCap(env, log) && Restored(env, log, x)
    ensures Restarted(env, log, x)
  {
    hide WithinCap, ShardOk, ShardRestored, PartitionOk, View, TopicsOk, MaxOf, Indexes;
    forall t, p | t in x.topics && 0 <= p < |x.topics[t]| ensures ShardOk(env.cfg, x.topics[t][p]) {
      ViewAt(x.topics, t, p);
      assert PartitionOk(log, x.hw, t, p, View(x.topics)[t][p]);
      ShardKnows(env, log, x.hw, t, p, x.topics[t][p]);
    }
  }

  lemma PartitionPrefix(log: RaftLog, n: nat, t: Name, p: nat, a: seq<Record>, b: seq<Record>)
    requires PartitionOk(log, n, t, p, b) && a <= b
    ensures PartitionOk(log, n, t, p, a)
  {
    forall k | 0 <= k < |a| ensures RecordOk(log, n, t, p, k, a[k]) {
      assert a[k] == b[k];
    }
  }

  /** Each partition comes back sound, with a prefix of its records. */
  lemma RecoverPrefix(env: Env, log: RaftLog, n: nat, topics: Topics, keep: Remains, t: Name, p: nat)
    requires Sound(env.cfg, topics) && LogsOk(log, n, View(topics)) && Possible(topics, keep)
    requires t in topics && p < |topics[t]|
    ensures var after := RecoverAll(env.cap, topics, keep);
            ShardRestored(env, after[t][p]) && PartitionOk(log, n, t, p, Retained(after[t][p].log))
  {
    hide LogSound, View, Survivable, PartitionOk, Retained, PowerLossStep, Settled, Dedupe.Rebuild;
    var sh, k := topics[t][p], keep[t][p];
    ViewAt(topics, t, p);
    assert PartitionOk(log, n, t, p, View(topics)[t][p]);
    CrashSound(env.cfg, sh.log, k);
    PartitionPrefix(log, n, t, p, Retained(PowerLossStep(sh.log, k)), Retained(sh.log));
  }

  lemma RecoverAllWeak(env: Env, log: RaftLog, n: nat, topics: Topics, keep: Remains)
    requires Sound(env.cfg, topics) && LogsOk(log, n, View(topics)) && Possible(topics, keep)
    ensures var after := RecoverAll(env.cap, topics, keep); AllRestored(env, after) && LogsOk(log, n, View(after))
  {
    hide Sound, LogsOk, View, Recover, PartitionOk, Retained, ShardRestored;
    var after: Topics := RecoverAll(env.cap, topics, keep);
    forall t, p | t in topics && 0 <= p < |topics[t]|
      ensures ShardRestored(env, after[t][p]) && PartitionOk(log, n, t, p, View(after)[t][p])
    {
      RecoverPrefix(env, log, n, topics, keep, t, p);
      ViewAt(after, t, p);
    }
    assert LogsOk(log, n, View(after)) by { LogsOkIntro(log, n, View(after)); }
  }

  lemma LogsOkIntro(log: RaftLog, n: nat, m: Logs)
    requires forall t, p :: t in m && 0 <= p < |m[t]| ==> PartitionOk(log, n, t, p, m[t][p])
    ensures LogsOk(log, n, m)
  {
  }

  /** The recovered high-water mark bounds every index. */
  lemma LogsOkTight(log: RaftLog, n: nat, m: Logs)
    requires n <= |log| && LogsOk(log, n, m)
    ensures MaxOf(Indexes(m)) <= n && LogsOk(log, MaxOf(Indexes(m)), m)
  {
    var hw := MaxOf(Indexes(m));
    IndexesBounded(log, n, m);
    forall t, p | t in m && 0 <= p < |m[t]| ensures PartitionOk(log, hw, t, p, m[t][p]) {
      assert PartitionOk(log, n, t, p, m[t][p]);
      forall k | 0 <= k < |m[t][p]| ensures RecordOk(log, hw, t, p, k, m[t][p][k]) {
        assert RecordOk(log, n, t, p, k, m[t][p][k]);
        assert m[t][p][k].raftIndex as nat in Indexes(m);
      }
    }
  }

  /** A restart over partitions of which the worst may have happened. */
  lemma CrashWeak(env: Env, log: RaftLog, n: nat, b: nat, topics: Topics, keep: Remains)
    requires Sound(env.cfg, topics) && b <= n <= |log| && LogsOk(log, b, View(topics))
    requires TopicsOk(env.defaultPartitions, log, n, View(topics)) && Possible(topics, keep)
    ensures var after := RecoverAll(env.cap, topics, keep);
            var y := World(after, MaxOf(Indexes(View(after))), 0, Ready);
            Restored(env, log, y) && WeakInv(env, log, y, n)
  {
    hide Sound, LogsOk, Recover, MaxOf, Indexes, Spec, AllRestored, View;
    var after := RecoverAll(env.cap, topics, keep);
    RecoverAllWeak(env, log, b, topics, keep);
    LogsOkTight(log, b, View(after));
    RestoredIsSound(env, after);
    assert View(after).Keys == View(topics).Keys;
    assert forall t :: t in View(after) ==> |View(after)[t]| == |View(topics)[t]|;
  }

  lemma RestoredIsSound(env: Env, topics: Topics)
    requires AllRestored(env, topics)
    ensures Sound(env.cfg, topics)
  {
    hide LogSound, Settled, Dedupe.Rebuild, Keys;
    forall t, p | t in topics && 0 <= p < |topics[t]| ensures LogSound(env.cfg, topics[t][p].log) {
      assert ShardRestored(env, topics[t][p]);
    }
  }

  lemma MidAppendWeak(env: Env, log: RaftLog, x: World, n: nat, io: Io)
    requires env.cfg.mode != NoSync && WeakInv(env, log, x, n) && Appends(log, x)
    ensures var topics := MidAppend(env, log, x, io);
            && Sound(env.cfg, topics) && x.cursor + 1 <= n && LogsOk(log, x.cursor + 1, View(topics))
            && TopicsOk(env.defaultPartitions, log, n, View(topics))
  {
    hide LogSound, PartitionOk, View, Retained, AppendStep, Sound, LogsOk, TopicsOk, Dedupe.Pos;
    var e, sh := log[x.cursor], Target(log, x);
    AppendWeak(env, log, x, n, io);
    var sh' := sh.(log := AppendStep(env.cfg, sh.log, Stamp(e, x.cursor + 1, 0), io));
    SetWeak(env, log, x, n, Advance(SetTarget(log, x, sh')), sh');
  }

  lemma DiesWeak(env: Env, log: RaftLog, x: World, n: nat, io: Io, keep: Remains)
    requires env.cfg.mode != NoSync && WeakInv(env, log, x, n)
    ensures WeakInv(env, log, DiesStep(env, log, x, io, keep), n)
  {
    hide WeakInv, View, Sound, LogsOk, TopicsOk, Restored, Possible, RecoverAll, MaxOf, Indexes, MidAppend, Appends;
    if Appends(log, x) && Possible(MidAppend(env, log, x, io), keep) {
      MidAppendWeak(env, log, x, n, io);
      WeakBound(env, log, x, n);
      CrashWeak(env, log, n, x.cursor + 1, MidAppend(env, log, x, io), keep);
    }
  }

  lemma WeakBound(env: Env, log: RaftLog, x: World, n: nat)
    requires WeakInv(env, log, x, n)
    ensures n <= |log|
  {
  }

  lemma StepWeak(env: Env, log: RaftLog, x: World, n: nat, step: Replay.Step) returns (n': nat)
    requires env.cfg.mode != NoSync && WeakInv(env, log, x, n)
    ensures WeakInv(env, log, Replay.Next(env, log, x, step), n')
  {
    n' := n;
    match step
    case Begin =>
      if x.phase.Ready? && x.cursor < |log| {
        n' := Max(n, x.cursor + 1);
        BeginWeak(env, log, x, n);
      }
    case Publish(io) =>
      if x.phase.Routed? { PublishWeak(env, log, x, n, io); }
    case Committer(t, p, st) => CommitterWeak(env, log, x, n, t, p, st);
    case Finish => FinishWeak(env, log, x, n);
    case Crash(keep) =>
      if Possible(x.topics, keep) { CrashWeak(env, log, n, Bound(x), x.topics, keep); }
    case Dies(io, keep) => DiesWeak(env, log, x, n, io, keep);
  }

  lemma {:induction false} AnyRunKeeps(env: Env, log: RaftLog, steps: seq<Replay.Step>) returns (n: nat)
    requires env.cfg.mode != NoSync
    ensures WeakInv(env, log, Replay.Run(env, log, steps), n)
  {
    hide WeakInv, Replay.Next;
    if steps == [] {
      n := 0;
      StartWeak(env, log);
    } else {
      n := AnyRunKeeps(env, log, steps[..|steps| - 1]);
      n := StepWeak(env, log, Replay.Run(env, log, steps[..|steps| - 1]), n, steps[|steps| - 1]);
    }
  }

  lemma StartWeak(env: Env, log: RaftLog)
    ensures WeakInv(env, log, START, 0)
  {
  }

  /** The power fails, between steps or inside an append. */
  ghost predicate Fails(env: Env, log: RaftLog, x: World, step: Replay.Step) {
    match step
    case Crash(keep) => Possible(x.topics, keep)
    case Dies(io, keep) => Appends(log, x) && Possible(MidAppend(env, log, x, io), keep)
    case _ => false
  }

  /**
   * After any run, with any failures, any power loss leaves every partition sound with the index rebuilt from
   * it; within the cap that index is complete.
   */
  lemma AnyRunRestarts(env: Env, log: RaftLog, steps: seq<Replay.Step>, step: Replay.Step)
    requires env.cfg.mode != NoSync && Fails(env, log, Replay.Run(env, log, steps), step)
    ensures var y := Replay.Next(env, log, Replay.Run(env, log, steps), step);
            Restored(env, log, y) && (WithinCap(env, log) ==> Restarted(env, log, y))
  {
    hide Replay.Run, WithinCap, Possible, RecoverAll, MaxOf, Indexes, Sound, LogsOk, TopicsOk, View, MidAppend;
    hide Restored;
    var x := Replay.Run(env, log, steps);
    var n := AnyRunKeeps(env, log, steps);
    if step.Crash? {
      CrashWeak(env, log, n, Bound(x), x.topics, step.keep);
    } else {
      MidAppendWeak(env, log, x, n, step.io);
      CrashWeak(env, log, n, x.cursor + 1, MidAppend(env, log, x, step.io), step.keep);
    }
    if WithinCap(env, log) { RestoredKnows(env, log, Replay.Next(env, log, x, step)); }
  }

  // ---- What the replay makes of recovered logs ----

  /** The first c commands applied again over the logs m, publishes at or below hw skipped. */
  function Fold(default: int, log: RaftLog, m: Logs, hw: nat, c: nat): Logs
    requires c <= |log|
  {
    if c == 0 then m else
    var v := Fold(default, log, m, hw, c - 1);
    if log[c - 1].Pub? && c <= hw then v else SpecApply(default, v, log[c - 1], c)
  }

  lemma FoldStep(default: int, log: RaftLog, m: Logs, hw: nat, c: nat)
    requires c < |log|
    ensures Fold(default, log, m, hw, c + 1) ==
      var v := Fold(default, log, m, hw, c);
      if log[c].Pub? && c + 1 <= hw then v else SpecApply(default, v, log[c], c + 1)
  {
  }

  lemma {:induction false} FoldOk(default: int, log: RaftLog, m: Logs, hw: nat, c: nat)
    requires hw <= |log| && c <= |log| && LogsOk(log, hw, m)
    ensures LogsOk(log, Max(hw, c), Fold(default, log, m, hw, c))
  {
    hide LogsOk, SpecApply;
    if c > 0 {
      FoldOk(default, log, m, hw, c - 1);
      var v := Fold(default, log, m, hw, c - 1);
      LogsOkLater(log, Max(hw, c - 1), Max(hw, c), v);
      if log[c - 1].Create? {
        CreateOk(default, log, Max(hw, c), v, log[c - 1], c);
      } else if c > hw {
        ApplyOk(default, log, c - 1, v);
      }
    }
  }

  lemma CreateOk(default: int, log: RaftLog, n: nat, m: Logs, e: Command, index: u64)
    requires n <= |log| && LogsOk(log, n, m) && e.Create?
    ensures LogsOk(log, n, SpecApply(default, m, e, index))
  {
    EnsureOk(default, log, n, m, e.topic, e.partitions);
  }

  /** A world in the middle of a replay that began over the logs m with mark hw. */
  ghost predicate Replaying(env: Env, log: RaftLog, m: Logs, hw: nat, x: World) {
    && x.hw == hw && x.cursor <= |log|
    && var v := Fold(env.defaultPartitions, log, m, hw, x.cursor);
       match x.phase
       case Ready => AllOk(env.cfg, x.topics) && View(x.topics) == v
       case Routed =>
         && AllOk(env.cfg, x.topics) && x.cursor < |log| && log[x.cursor].Pub? && x.cursor >= hw
         && log[x.cursor].topic in x.topics
         && View(x.topics) == Ensure(env.defaultPartitions, v, log[x.cursor].topic, 0)
       case Waiting(_, _) => x.cursor < |log| && x.cursor >= hw && Blocked(env, log, x, v)
  }

  /** A step of a process that lives and whose system calls succeed. */
  predicate Alive(step: Replay.Step) { Healthy(step) && !step.Crash? && !step.Dies? }

  lemma BeginReplays(env: Env, log: RaftLog, m: Logs, hw: nat, x: World)
    requires Replaying(env, log, m, hw, x)
    ensures Replaying(env, log, m, hw, BeginStep(env, log, x))
  {
    hide AllOk, Blocked, View, Open, Ensure, Fold;
    if x.phase.Ready? && x.cursor < |log| {
      var e, d := log[x.cursor], env.defaultPartitions;
      var want := if e.Create? then e.partitions else 0;
      ViewOpen(d, x.topics, e.topic, want);
      OpenOk(env.cfg, d, x.topics, e.topic, want);
      EnsureTwice(d, View(x.topics), e.topic, want);
      FoldStep(d, log, m, hw, x.cursor);
    }
  }

  lemma PublishReplays(env: Env, log: RaftLog, m: Logs, hw: nat, x: World)
    requires env.cfg.mode != NoSync && WithinCap(env, log) && hw <= |log| && LogsOk(log, hw, m)
    requires Replaying(env, log, m, hw, x) && x.phase.Routed?
    ensures Replaying(env, log, m, hw, PublishStep(env, log, x, OK))
  {
    hide AllOk, AllBlockedOk, View, Ensure, Fold, SpecApply, Writes, LogsOk, WithinCap, PublishStep;
    var e, d, c := log[x.cursor], env.defaultPartitions, x.cursor;
    var v := Fold(d, log, m, hw, c);
    FoldStep(d, log, m, hw, c);
    FoldOk(d, log, m, hw, c);
    EnsureOk(d, log, c, v, e.topic, 0);
    ApplyEnsured(d, v, e, c + 1);
    if !Writes(View(x.topics), e) {
      PublishInert(env, log, x);
    } else if env.cfg.mode == PerMessage {
      PublishDirect(env, log, c, x);
    } else {
      PublishBlocks(env, log, x);
    }
  }

  lemma FinishReplays(env: Env, log: RaftLog, m: Logs, hw: nat, x: World)
    requires env.cfg.mode != NoSync && WithinCap(env, log) && hw <= |log| && LogsOk(log, hw, m)
    requires Replaying(env, log, m, hw, x) && x.phase.Waiting?
    ensures Replaying(env, log, m, hw, FinishStep(env, log, x))
  {
    hide AllOk, AllBlockedOk, View, Ensure, Fold, SpecApply, Writes, LogsOk, WithinCap, FinishStep;
    var d, c := env.defaultPartitions, x.cursor;
    var v := Fold(d, log, m, hw, c);
    FoldStep(d, log, m, hw, c);
    FoldOk(d, log, m, hw, c);
    FinishSettles(env, log, x, v);
  }

  lemma CommitterReplays(env: Env, log: RaftLog, m: Logs, hw: nat, x: World, t: Name, p: nat, step: Wal.Step)
    requires env.cfg.mode != NoSync && Replaying(env, log, m, hw, x) && (step.FlushSync? ==> step.ok)
    ensures Replaying(env, log, m, hw, CommitterStep(env, x, t, p, step))
  {
    hide AllOk, AllBlockedOk, View, Ensure, Fold, SpecApply, Writes, CommitterStep;
    if x.phase.Waiting? {
      CommitterBlocked(env, log, x, t, p, step);
    } else {
      CommitterSettled(env, x, t, p, step);
    }
  }

  ghost function RunFrom(env: Env, log: RaftLog, x: World, steps: seq<Replay.Step>): World {
    if steps == [] then x else Replay.Next(env, log, RunFrom(env, log, x, steps[..|steps| - 1]), steps[|steps| - 1])
  }

  ghost predicate AllAlive(steps: seq<Replay.Step>) { forall i :: 0 <= i < |steps| ==> Alive(steps[i]) }

  lemma RestartedParts(env: Env, log: RaftLog, x: World)
    requires Restarted(env, log, x)
    ensures x.hw <= |log| && LogsOk(log, x.hw, View(x.topics)) && Replaying(env, log, View(x.topics), x.hw, x)
  {
  }

  lemma NotRouted(env: Env, log: RaftLog, x: World)
    requires !x.phase.Routed?
    ensures PublishStep(env, log, x, OK) == x
  {
  }

  lemma NotWaiting(env: Env, log: RaftLog, x: World)
    requires !x.phase.Waiting?
    ensures FinishStep(env, log, x) == x
  {
  }
}
