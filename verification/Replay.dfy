/**
 * Replaying the committed raft log over recovered WALs (internal/broker/broker.go:283-324 and 552-637,
 * partition.go:119-156, internal/replication/statemachine.go:70-110). One goroutine applies the log in
 * index order, the committers run beside it, and the power may fail between any two steps and inside an
 * append; a restart recovers every WAL and applies the log again from index 1.
 */
module Replay {
  import opened Bytes
  import opened Codec
  import opened Wal
  import WalSafety
  import opened WalTheorems
  import opened ReplaySpec
  import opened Shards
  import Dedupe

  datatype Env = Env(cfg: Config, cap: int, defaultPartitions: int)

  type Topics = map<Name, seq<Shard>>

  /** Where the apply goroutine is: between commands, past getOrCreateTopic, or blocked in Append. */
  datatype Phase = Ready | Routed | Waiting(rec: Record, end: nat)

  /** cursor commands have been applied since the last start; hw is appliedHighWater. */
  datatype World = World(topics: Topics, hw: nat, cursor: nat, phase: Phase)

  const START := World(map[], 0, 0, Ready)

  /** How many bytes of each file of each partition a power loss leaves. */
  type Remains = map<Name, seq<seq<nat>>>

  /** Dies is a power loss inside Append, after exactly the system calls that io lets through. */
  datatype Step =
    | Begin
    | Publish(io: Io)
    | Committer(topic: Name, partition: nat, step: Wal.Step)
    | Finish
    | Crash(keep: Remains)
    | Dies(io: Io, keep: Remains)

  function View(topics: Topics): (m: Logs)
    ensures m.Keys == topics.Keys
    ensures forall t :: t in m ==> |m[t]| == |topics[t]|
    ensures forall t, p :: t in m && 0 <= p < |m[t]| ==> m[t][p] == Retained(topics[t][p].log)
  {
    map t | t in topics :: seq(|topics[t]|, p requires 0 <= p < |topics[t]| => Retained(topics[t][p].log))
  }

  function SetShard(topics: Topics, t: Name, p: nat, sh: Shard): Topics
    requires t in topics && p < |topics[t]|
  {
    topics[t := topics[t][p := sh]]
  }

  /** openTopicLocked for a topic that is not on disk. */
  function Open(default: int, topics: Topics, t: Name, want: int): Topics {
    if t in topics then topics else topics[t := seq(CountFor(default, want), _ => Shard(EMPTY, []))]
  }

  function Advance(x: World): World { x.(cursor := x.cursor + 1, phase := Ready) }

  function BeginStep(env: Env, log: RaftLog, x: World): World {
    if !x.phase.Ready? || x.cursor >= |log| then x else
    match log[x.cursor]
    case Create(t, n) => Advance(x.(topics := Open(env.defaultPartitions, x.topics, t, n)))
    case Pub(t, _, _, _, _, _) =>
      if x.cursor + 1 <= x.hw then Advance(x)
      else x.(topics := Open(env.defaultPartitions, x.topics, t, 0), phase := Routed)
  }

  /** The partition the command under the cursor addresses. */
  predicate Routable(log: RaftLog, x: World) {
    && x.cursor < |log| && log[x.cursor].Pub? && log[x.cursor].topic in x.topics
    && 0 <= log[x.cursor].partition < |x.topics[log[x.cursor].topic]|
  }

  function Target(log: RaftLog, x: World): Shard
    requires Routable(log, x)
  {
    x.topics[log[x.cursor].topic][log[x.cursor].partition]
  }

  function SetTarget(log: RaftLog, x: World, sh: Shard): World
    requires Routable(log, x)
  {
    x.(topics := SetShard(x.topics, log[x.cursor].topic, log[x.cursor].partition, sh))
  }

  predicate Refused(s: State, rec: Record) { s.next >= U64 || !Encodable(rec.(msgID := s.next)) }

  /** A system call of the append fails. */
  predicate AppendErrs(cfg: Config, s: State, rec: Record, io: Io)
    requires s.next < U64
  {
    || !io.write || (cfg.mode == PerMessage && !io.sync)
    || (MustRotate(cfg, s, rec.(msgID := s.next)) && (!io.open || (s.written > s.committed && !io.sealSync)))
  }

  function Remember(env: Env, sh: Shard, r: Record): Shard {
    if r.key == [] then sh else sh.(lru := Dedupe.Put(sh.lru, env.cap, r.key, r.msgID))
  }

  /** applyPublish up to the point where Append returns or blocks. */
  function PublishStep(env: Env, log: RaftLog, x: World, io: Io): World {
    if !x.phase.Routed? then x else
    if !Routable(log, x) then Advance(x) else
    var e, sh := log[x.cursor], Target(log, x);
    if e.key != [] && Dedupe.Has(sh.lru, e.key)
    then Advance(SetTarget(log, x, sh.(lru := Dedupe.Bump(sh.lru, e.key))))
    else
      var rec := Stamp(e, x.cursor + 1, 0);
      var sh' := sh.(log := AppendStep(env.cfg, sh.log, rec, io));
      if Refused(sh.log, rec) || AppendErrs(env.cfg, sh.log, rec, io) then Advance(SetTarget(log, x, sh'))
      else
        var r := rec.(msgID := sh.log.next);
        if env.cfg.mode == Batched then SetTarget(log, x, sh').(phase := Waiting(r, sh'.log.written))
        else Advance(SetTarget(log, x, Remember(env, sh', r)))
  }

  /** A blocked Append wakes: its bytes are committed and applyPublish finishes, or the sticky error fails it. */
  function FinishStep(env: Env, log: RaftLog, x: World): World {
    if !x.phase.Waiting? || !Routable(log, x) then x
    else if x.phase.end > Target(log, x).log.committed then if Target(log, x).log.commitErr then Advance(x) else x
    else
      var sh := Target(log, x);
      var sh' := sh.(log := Wal.Next(env.cfg, sh.log, Return(x.phase.rec, x.phase.end)));
      Advance(SetTarget(log, x, Remember(env, sh', x.phase.rec)))
  }

  function CommitterStep(env: Env, x: World, t: Name, p: nat, step: Wal.Step): World {
    if t in x.topics && p < |x.topics[t]| && (step.FlushSnap? || step.FlushSync? || step.FlushPublish?)
    then x.(topics := SetShard(x.topics, t, p, x.topics[t][p].(log := Wal.Next(env.cfg, x.topics[t][p].log, step))))
    else x
  }

  predicate Possible(topics: Topics, keep: Remains) {
    && keep.Keys == topics.Keys
    && (forall t :: t in topics ==> |keep[t]| == |topics[t]|)
    && (forall t, p :: t in topics && 0 <= p < |topics[t]| ==> Survivable(topics[t][p].log, keep[t][p]))
  }

  /** openPartition on what the power loss left. */
  function Recover(cap: int, sh: Shard, keep: seq<nat>): Shard {
    var s := PowerLossStep(sh.log, keep);
    Shard(s, Dedupe.Rebuild(cap, Keys(Retained(s)), 0))
  }

  function RecoverAll(cap: int, topics: Topics, keep: Remains): Topics
    requires Possible(topics, keep)
  {
    map t | t in topics :: seq(|topics[t]|, p requires 0 <= p < |topics[t]| => Recover(cap, topics[t][p], keep[t][p]))
  }

  function Indexes(m: Logs): set<nat> {
    set t, p, k | t in m && 0 <= p < |m[t]| && 0 <= k < |m[t][p]| :: m[t][p][k].raftIndex as nat
  }

  ghost function MaxOf(s: set<nat>): (n: nat)
    ensures forall i :: i in s ==> i <= n
    ensures if s == {} then n == 0 else n in s
  {
    if s == {} then 0 else
    var i :| i in s;
    var n := MaxOf(s - {i});
    assert forall j :: j in s ==> j == i || j in s - {i};
    if i > n then i else n
  }

  ghost function CrashStep(env: Env, x: World, keep: Remains): World {
    if !Possible(x.topics, keep) then x
    else
      var topics := RecoverAll(env.cap, x.topics, keep);
      World(topics, MaxOf(Indexes(View(topics))), 0, Ready)
  }

  /** applyPublish reaches Append: the partition exists and the key is not known. */
  predicate Appends(log: RaftLog, x: World) {
    && x.phase.Routed? && Routable(log, x)
    && !(log[x.cursor].key != [] && Dedupe.Has(Target(log, x).lru, log[x.cursor].key))
  }

  /** The partitions in the middle of Append. */
  function MidAppend(env: Env, log: RaftLog, x: World, io: Io): Topics
    requires Appends(log, x)
  {
    var sh, rec := Target(log, x), Stamp(log[x.cursor], x.cursor + 1, 0);
    SetTarget(log, x, sh.(log := AppendStep(env.cfg, sh.log, rec, io))).topics
  }

  ghost function DiesStep(env: Env, log: RaftLog, x: World, io: Io, keep: Remains): World {
    if !Appends(log, x) || !Possible(MidAppend(env, log, x, io), keep) then x
    else CrashStep(env, x.(topics := MidAppend(env, log, x, io)), keep)
  }

  ghost function Next(env: Env, log: RaftLog, x: World, step: Step): World {
    match step
    case Begin => BeginStep(env, log, x)
    case Publish(io) => PublishStep(env, log, x, io)
    case Committer(t, p, st) => CommitterStep(env, x, t, p, st)
    case Finish => FinishStep(env, log, x)
    case Crash(keep) => CrashStep(env, x, keep)
    case Dies(io, keep) => DiesStep(env, log, x, io, keep)
  }

  /** A step in which no write and no fsync fails while the process lives; it may die anywhere. */
  predicate Healthy(step: Step) {
    match step
    case Publish(io) => io == OK
    case Committer(_, _, st) => st.FlushSync? ==> st.ok
    case _ => true
  }

  ghost function Run(env: Env, log: RaftLog, steps: seq<Step>): World {
    if steps == [] then START else Next(env, log, Run(env, log, steps[..|steps| - 1]), steps[|steps| - 1])
  }

  // ---- The invariant ----

  ghost predicate ShardOk(cfg: Config, sh: Shard) {
    LogOk(cfg, sh.log) && Settled(sh.log) && Knows(sh.lru, Retained(sh.log))
  }

  ghost predicate AllOk(cfg: Config, topics: Topics) {
    forall t, p :: t in topics && 0 <= p < |topics[t]| ==> ShardOk(cfg, topics[t][p])
  }

  /** The shard of a blocked Append: its record is in the file, perhaps not on the platter, and not yet in the index. */
  ghost predicate BlockedOk(cfg: Config, sh: Shard, r: Record, end: nat) {
    && LogOk(cfg, sh.log) && NearlySettled(sh.log) && end == sh.log.written && (r, end) in sh.log.pending
    && Retained(sh.log) != []
    && var rs := Retained(sh.log); rs[|rs| - 1] == r && Knows(sh.lru, rs[..|rs| - 1]) && !Known(rs[..|rs| - 1], r.key)
  }

  ghost predicate AllButOk(cfg: Config, topics: Topics, t0: Name, p0: int) {
    forall t, p :: t in topics && 0 <= p < |topics[t]| && (t != t0 || p != p0) ==> ShardOk(cfg, topics[t][p])
  }

  ghost predicate NoneAbove(m: Logs, hw: nat) { forall i :: i in Indexes(m) ==> i <= hw }

  /** The first n commands have taken effect; the next one, a publish, may have created its topic. */
  ghost predicate Reflects(env: Env, log: RaftLog, m: Logs, n: nat)
    requires n <= |log|
  {
    || m == Spec(env.defaultPartitions, log, n)
    || (n < |log| && log[n].Pub?
        && m == Ensure(env.defaultPartitions, Spec(env.defaultPartitions, log, n), log[n].topic, 0))
  }

  /** n commands have taken effect, those above the cursor before the last restart. */
  ghost predicate InvAt(env: Env, log: RaftLog, x: World, n: nat) {
    && x.cursor <= n <= |log| && x.hw <= n
    && match x.phase
       case Ready =>
         && AllOk(env.cfg, x.topics) && Reflects(env, log, View(x.topics), n)
         && (x.cursor < n ==> NoneAbove(View(x.topics), x.hw))
       case Routed =>
         && AllOk(env.cfg, x.topics) && Reflects(env, log, View(x.topics), n)
         && (x.cursor < n ==> NoneAbove(View(x.topics), x.hw))
         && x.cursor < |log| && log[x.cursor].Pub? && log[x.cursor].topic in x.topics && x.cursor + 1 > x.hw
       case Waiting(_, _) =>
         && x.cursor == n < |log| && AllBlockedOk(env, log, x)
         && View(x.topics) == Spec(env.defaultPartitions, log, n + 1)
         && Writes(Ensure(env.defaultPartitions, Spec(env.defaultPartitions, log, n), log[n].topic, 0), log[n])
  }

  // ---- Views ----

  lemma ViewSet(topics: Topics, t: Name, p: nat, sh: Shard)
    requires t in topics && p < |topics[t]|
    ensures View(SetShard(topics, t, p, sh)) == View(topics)[t := View(topics)[t][p := Retained(sh.log)]]
  {
    hide View, Retained;
    var m, m' := View(SetShard(topics, t, p, sh)), View(topics)[t := View(topics)[t][p := Retained(sh.log)]];
    assert m.Keys == m'.Keys;
    forall u | u in m ensures m[u] == m'[u] {
      assert |m[u]| == |m'[u]|;
      assert forall q :: 0 <= q < |m[u]| ==> m[u][q] == m'[u][q];
    }
  }

  lemma ViewSame(topics: Topics, t: Name, p: nat, sh: Shard)
    requires t in topics && p < |topics[t]| && Retained(sh.log) == Retained(topics[t][p].log)
    ensures View(SetShard(topics, t, p, sh)) == View(topics)
  {
    hide View, Retained;
    ViewSet(topics, t, p, sh);
    assert View(topics)[t][p := Retained(sh.log)] == View(topics)[t];
    assert View(topics)[t := View(topics)[t]] == View(topics);
  }

  lemma EmptyRetains()
    ensures Retained(EMPTY) == []
  {
    assert Concat(EMPTY.files, 0, 0) == [];
  }

  lemma ViewOpen(default: int, topics: Topics, t: Name, want: int)
    ensures View(Open(default, topics, t, want)) == Ensure(default, View(topics), t, want)
  {
    hide View, Retained, CountFor;
    EmptyRetains();
    var m, m' := View(Open(default, topics, t, want)), Ensure(default, View(topics), t, want);
    assert m.Keys == m'.Keys;
    forall u | u in m ensures m[u] == m'[u] {
      assert |m[u]| == |m'[u]|;
      assert forall q :: 0 <= q < |m[u]| ==> m[u][q] == m'[u][q];
    }
  }

  lemma SetOk(cfg: Config, topics: Topics, t: Name, p: nat, sh: Shard)
    requires AllOk(cfg, topics) && t in topics && p < |topics[t]| && ShardOk(cfg, sh)
    ensures AllOk(cfg, SetShard(topics, t, p, sh))
  {
    hide ShardOk;
  }

  lemma FreshShard(cfg: Config)
    ensures ShardOk(cfg, Shard(EMPTY, []))
  {
    hide WalSafety.Inv;
    WalSafety.FreshOk(cfg, EMPTY, EMPTY.files[0]);
    EmptyRetains();
  }

  lemma OpenOk(cfg: Config, default: int, topics: Topics, t: Name, want: int)
    requires AllOk(cfg, topics)
    ensures AllOk(cfg, Open(default, topics, t, want))
  {
    hide ShardOk, CountFor;
    FreshShard(cfg);
  }

  // ---- Begin ----

  lemma EnsureTwice(default: int, m: Logs, t: Name, want: int)
    ensures t in m ==> Ensure(default, m, t, want) == m
    ensures t in Ensure(default, m, t, want)
    ensures Indexes(Ensure(default, m, t, want)) == Indexes(m)
  {
    var m': Logs := Ensure(default, m, t, want);
    forall i | i in Indexes(m') ensures i in Indexes(m) {
      var u, p, k :| u in m' && 0 <= p < |m'[u]| && 0 <= k < |m'[u][p]| && m'[u][p][k].raftIndex as nat == i;
      assert u in m && m[u] == m'[u];
    }
    forall i | i in Indexes(m) ensures i in Indexes(m') {
      var u, p, k :| u in m && 0 <= p < |m[u]| && 0 <= k < |m[u][p]| && m[u][p][k].raftIndex as nat == i;
      assert u in m' && m'[u] == m[u];
    }
  }

  /** A topic named below n exists in any view that reflects n commands. */
  lemma TopicThere(env: Env, log: RaftLog, m: Logs, j: nat, n: nat)
    requires j < n <= |log| && Reflects(env, log, m, n)
    ensures log[j].topic in m
  {
    hide Spec;
    AppliedOrInert(env.defaultPartitions, log, j, n);
  }

  lemma BeginKeeps(env: Env, log: RaftLog, x: World, n: nat) returns (n': nat)
    requires InvAt(env, log, x, n)
    ensures n' >= n && InvAt(env, log, BeginStep(env, log, x), n')
  {
    hide AllOk, Spec, View, NoneAbove, Open, Ensure;
    n' := n;
    if x.phase.Ready? && x.cursor < |log| {
      var e := log[x.cursor];
      var want := if e.Create? then e.partitions else 0;
      ViewOpen(env.defaultPartitions, x.topics, e.topic, want);
      OpenOk(env.cfg, env.defaultPartitions, x.topics, e.topic, want);
      EnsureTwice(env.defaultPartitions, View(x.topics), e.topic, want);
      EnsureTwice(env.defaultPartitions, Spec(env.defaultPartitions, log, n), e.topic, want);
      if x.cursor < n {
        TopicThere(env, log, View(x.topics), x.cursor, n);
      } else if e.Create? {
        n' := n + 1;
        SpecStep(env.defaultPartitions, log, n);
      }
    }
  }

  lemma SpecStep(default: int, log: RaftLog, n: nat)
    requires n < |log|
    ensures Spec(default, log, n + 1) == SpecApply(default, Spec(default, log, n), log[n], n + 1)
  {
  }

  // ---- Room in the dedupe index ----

  /** The dedupe keys the raft log sends to one partition. */
  function KeysFor(log: RaftLog, t: Name, p: int): set<Dedupe.Key> {
    set i | 0 <= i < |log| && log[i].Pub? && log[i].topic == t
      && log[i].partition == p && log[i].key != [] :: log[i].key
  }

  ghost predicate WithinCap(env: Env, log: RaftLog) { forall t, p :: |KeysFor(log, t, p)| <= env.cap }

  lemma KeysAreFor(log: RaftLog, n: nat, t: Name, p: nat, rs: seq<Record>)
    requires PartitionOk(log, n, t, p, rs)
    ensures forall k :: 0 <= k < |rs| && rs[k].key != [] ==> rs[k].key in KeysFor(log, t, p)
  {
    forall k | 0 <= k < |rs| && rs[k].key != [] ensures rs[k].key in KeysFor(log, t, p) {
      assert RecordOk(log, n, t, p, k, rs[k]);
      var i := rs[k].raftIndex - 1;
      assert log[i].key == rs[k].key;
    }
  }

  lemma Room(env: Env, log: RaftLog, n: nat, t: Name, p: nat, rs: seq<Record>, lru: seq<Dedupe.Entry>, i: nat)
    requires WithinCap(env, log) && PartitionOk(log, n, t, p, rs) && Knows(lru, rs)
    requires i < |log| && log[i].Pub? && log[i].topic == t && log[i].partition == p
    requires log[i].key != [] && !Known(rs, log[i].key)
    ensures |lru| < env.cap
  {
    hide PartitionOk, Dedupe.Pos;
    var keys := KeysFor(log, t, p);
    KeysAreFor(log, n, t, p, rs);
    assert log[i].key in keys;
    forall j | 0 <= j < |lru| ensures lru[j].key in keys {
      assert Known(rs, lru[j].key);
    }
    HitIff(lru, rs, log[i].key);
    TooManyKeys(lru, log[i].key, keys, env.cap);
  }

  lemma FitsAny(e: Command, index: u64, id: u64)
    requires e.Pub? && index > 0
    ensures Encodable(Stamp(e, index, id)) <==> Fits(e)
  {
  }

  // ---- Publish ----

  lemma RefusedIff(cfg: Config, s: State, e: Command, index: u64)
    requires LogOk(cfg, s) && e.Pub? && index > 0
    ensures Refused(s, Stamp(e, index, 0)) <==> |Retained(s)| >= U64 || !Fits(e)
    ensures s.next == |Retained(s)|
  {
    hide LogSound, Encodable;
    LogDense(cfg, s);
    if s.next < U64 {
      FitsAny(e, index, s.next);
    }
  }

  /** A publish that writes nothing leaves every log as it is. */
  lemma PublishInert(env: Env, log: RaftLog, x: World)
    requires x.phase.Routed? && AllOk(env.cfg, x.topics) && x.cursor < |log|
             && log[x.cursor].Pub? && log[x.cursor].topic in x.topics
    requires !Writes(View(x.topics), log[x.cursor])
    ensures var y := PublishStep(env, log, x, OK);
            y == Advance(x.(topics := y.topics)) && AllOk(env.cfg, y.topics) && View(y.topics) == View(x.topics)
  {
    hide View, LogSound, Knows, Dedupe.Bump, Dedupe.Pos, AppendStep, Settled, Refused, Known, Retained;
    if Routable(log, x) {
      var e, sh := log[x.cursor], Target(log, x);
      assert ShardOk(env.cfg, sh);
      var rs := Retained(sh.log);
      RefusedIff(env.cfg, sh.log, e, x.cursor + 1);
      var sh' := sh;
      if e.key != [] && Dedupe.Has(sh.lru, e.key) {
        KnowsBump(sh.lru, rs, e.key);
        sh' := sh.(lru := Dedupe.Bump(sh.lru, e.key));
      } else {
        assert !Known(rs, e.key) by { NotKnown(sh.lru, rs, e.key); }
        StampAgain(e, x.cursor + 1, sh.log);
        AppendRefused(env.cfg, sh.log, Stamp(e, x.cursor + 1, 0), OK);
      }
      ViewSame(x.topics, e.topic, e.partition, sh');
      SetOk(env.cfg, x.topics, e.topic, e.partition, sh');
    }
  }

  lemma NotKnown(lru: seq<Dedupe.Entry>, rs: seq<Record>, key: Dedupe.Key)
    requires Knows(lru, rs) && (key == [] || !Dedupe.Has(lru, key))
    ensures !Known(rs, key)
  {
  }

  lemma StampAgain(e: Command, index: u64, s: State)
    requires e.Pub?
    ensures Refused(s, Stamp(e, index, 0)) <==> s.next >= U64 || !Encodable(Stamp(e, index, 0).(msgID := s.next))
  {
  }

  /** The shard after a successful Append and the index update that follows it. */
  lemma RememberOk(env: Env, log: RaftLog, n: nat, t: Name, p: nat,
                   lru: seq<Dedupe.Entry>, rs: seq<Record>, s: State, i: nat)
    requires WithinCap(env, log) && PartitionOk(log, n, t, p, rs) && Knows(lru, rs)
    requires i < |log| && log[i].Pub? && log[i].topic == t
             && log[i].partition == p && !Known(rs, log[i].key) && |rs| < U64
    requires LogOk(env.cfg, s) && Settled(s) && Retained(s) == rs + [Stamp(log[i], i + 1, |rs|)]
    ensures ShardOk(env.cfg, Remember(env, Shard(s, lru), Stamp(log[i], i + 1, |rs|)))
  {
    hide PartitionOk, Knows, Known, LogSound, Settled, Retained, Dedupe.Put;
    var r := Stamp(log[i], i + 1, |rs|);
    if r.key != [] {
      Room(env, log, n, t, p, rs, lru, i);
    }
    KnowsPut(lru, rs, r, env.cap);
  }

  lemma ViewAt(topics: Topics, t: Name, p: nat)
    requires t in topics && p < |topics[t]|
    ensures t in View(topics) && p < |View(topics)[t]| && View(topics)[t][p] == Retained(topics[t][p].log)
  {
  }

  lemma SpecApplyWrites(default: int, m: Logs, e: Command, index: u64)
    requires Writes(m, e)
    ensures var rs := m[e.topic][e.partition];
            SpecApply(default, m, e, index) == m[e.topic := m[e.topic][e.partition := rs + [Stamp(e, index, |rs|)]]]
  {
  }

  /** The append inside a publish that writes. */
  lemma PublishAppends(env: Env, log: RaftLog, x: World)
    requires env.cfg.mode != NoSync && AllOk(env.cfg, x.topics)
    requires x.cursor < |log| && Writes(View(x.topics), log[x.cursor])
    ensures Routable(log, x) && ShardOk(env.cfg, Target(log, x))
    ensures var e, s := log[x.cursor], Target(log, x).log;
            var rs, rec := Retained(s), Stamp(e, x.cursor + 1, 0);
            var t := AppendStep(env.cfg, s, rec, OK);
            && |rs| < U64 && s.next == |rs| && !Known(rs, e.key) && !Refused(s, rec)
            && !(e.key != [] && Dedupe.Has(Target(log, x).lru, e.key))
            && LogOk(env.cfg, t) && Retained(t) == rs + [Stamp(e, x.cursor + 1, |rs|)]
            && (if env.cfg.mode == PerMessage then Settled(t)
                else NearlySettled(t) && (Stamp(e, x.cursor + 1, |rs|), t.written) in t.pending)
  {
    hide View, LogSound, Knows, Known, Dedupe.Pos, AppendStep, Settled, NearlySettled, Retained, Encodable;
    var e := log[x.cursor];
    ViewAt(x.topics, e.topic, e.partition);
    var sh := x.topics[e.topic][e.partition];
    assert ShardOk(env.cfg, sh);
    var rs := Retained(sh.log);
    RefusedIff(env.cfg, sh.log, e, x.cursor + 1);
    if e.key != [] {
      HitIff(sh.lru, rs, e.key);
    }
    AppendAdds(env.cfg, sh.log, Stamp(e, x.cursor + 1, 0));
  }

  lemma PublishDirect(env: Env, log: RaftLog, n: nat, x: World)
    requires x.phase.Routed? && env.cfg.mode == PerMessage && WithinCap(env, log) && AllOk(env.cfg, x.topics)
    requires n <= |log| && LogsOk(log, n, View(x.topics))
    requires x.cursor < |log| && Writes(View(x.topics), log[x.cursor])
    ensures var y := PublishStep(env, log, x, OK);
            && y == Advance(x.(topics := y.topics)) && AllOk(env.cfg, y.topics)
            && View(y.topics) == SpecApply(env.defaultPartitions, View(x.topics), log[x.cursor], x.cursor + 1)
  {
    hide View, LogSound, Knows, Known, Dedupe.Pos, AppendStep, Settled, NearlySettled, Retained, Encodable, Refused;
    hide SpecApply, Writes, PartitionOk, Remember, ShardOk, AllOk, WithinCap;
    var e := log[x.cursor];
    PublishAppends(env, log, x);
    ViewAt(x.topics, e.topic, e.partition);
    SpecApplyWrites(env.defaultPartitions, View(x.topics), e, x.cursor + 1);
    var sh := Target(log, x);
    var rs := Retained(sh.log);
    var t := AppendStep(env.cfg, sh.log, Stamp(e, x.cursor + 1, 0), OK);
    var sh' := Remember(env, Shard(t, sh.lru), Stamp(e, x.cursor + 1, |rs|));
    assert PartitionOk(log, n, e.topic, e.partition, rs);
    ShardParts(env.cfg, sh);
    RememberOk(env, log, n, e.topic, e.partition, sh.lru, rs, t, x.cursor);
    RememberLog(env, Shard(t, sh.lru), Stamp(e, x.cursor + 1, |rs|));
    SetOk(env.cfg, x.topics, e.topic, e.partition, sh');
    ViewSet(x.topics, e.topic, e.partition, sh');
  }

  lemma ShardParts(cfg: Config, sh: Shard)
    requires ShardOk(cfg, sh)
    ensures LogOk(cfg, sh.log) && Settled(sh.log) && Knows(sh.lru, Retained(sh.log))
  {
  }

  lemma RememberLog(env: Env, sh: Shard, r: Record)
    ensures Remember(env, sh, r).log == sh.log
  {
  }

  lemma PublishBlocks(env: Env, log: RaftLog, x: World)
    requires x.phase.Routed? && env.cfg.mode == Batched && AllOk(env.cfg, x.topics)
    requires x.cursor < |log| && Writes(View(x.topics), log[x.cursor])
    ensures var y := PublishStep(env, log, x, OK);
            && y.phase.Waiting? && y == x.(topics := y.topics, phase := y.phase) && AllBlockedOk(env, log, y)
            && View(y.topics) == SpecApply(env.defaultPartitions, View(x.topics), log[x.cursor], x.cursor + 1)
  {
    hide View, LogSound, Knows, Known, Dedupe.Pos, AppendStep, Settled, NearlySettled, Retained, Encodable, Refused;
    hide SpecApply, Writes, ShardOk;
    var e := log[x.cursor];
    PublishAppends(env, log, x);
    ViewAt(x.topics, e.topic, e.partition);
    SpecApplyWrites(env.defaultPartitions, View(x.topics), e, x.cursor + 1);
    var sh := Target(log, x);
    var rs := Retained(sh.log);
    var t := AppendStep(env.cfg, sh.log, Stamp(e, x.cursor + 1, 0), OK);
    ShardParts(env.cfg, sh);
    assert Retained(t)[..|rs|] == rs;
    ViewSet(x.topics, e.topic, e.partition, sh.(log := t));
  }

  /** A view that reflects n commands is the view the next command acts on. */
  lemma ReflectsOk(env: Env, log: RaftLog, m: Logs, n: nat)
    requires n <= |log| && Reflects(env, log, m, n)
    ensures LogsOk(log, n, m)
    ensures Grows(Spec(env.defaultPartitions, log, n), m)
    ensures Indexes(m) == Indexes(Spec(env.defaultPartitions, log, n))
  {
    hide Spec, PartitionOk, Indexes;
    var d, m0 := env.defaultPartitions, Spec(env.defaultPartitions, log, n);
    SpecOk(d, log, n);
    if n < |log| {
      EnsureOk(d, log, n, m0, log[n].topic, 0);
      EnsureTwice(d, m0, log[n].topic, 0);
    }
  }

  /** A replayed publish above the high-water mark wrote nothing the first time and writes nothing now. */
  lemma ReplayedIsInert(env: Env, log: RaftLog, m: Logs, n: nat, j: nat, hw: nat)
    requires j < n <= |log| && Reflects(env, log, m, n) && NoneAbove(m, hw) && j + 1 > hw
    ensures Inert(m, log[j])
  {
    hide Spec, PartitionOk, Inert, Reflects, Grows;
    var m0: Logs := Spec(env.defaultPartitions, log, n);
    ReflectsOk(env, log, m, n);
    AppliedOrInert(env.defaultPartitions, log, j, n);
    assert HasIndex(m0, j + 1) ==> (j + 1) in Indexes(m0);
    InertGrows(m0, m, log[j]);
  }

  lemma InertDoesNotWrite(m: Logs, e: Command)
    requires Inert(m, e)
    ensures !Writes(m, e)
  {
  }

  /** The command under a cursor that has caught up acts on Spec(n) with its topic made. */
  lemma NextView(env: Env, log: RaftLog, m: Logs, n: nat)
    requires n < |log| && log[n].Pub? && Reflects(env, log, m, n) && log[n].topic in m
    ensures m == Ensure(env.defaultPartitions, Spec(env.defaultPartitions, log, n), log[n].topic, 0)
    ensures Spec(env.defaultPartitions, log, n + 1) == SpecApply(env.defaultPartitions, m, log[n], n + 1)
    ensures !Writes(m, log[n]) ==> Spec(env.defaultPartitions, log, n + 1) == m
  {
    hide Writes;
    EnsureTwice(env.defaultPartitions, Spec(env.defaultPartitions, log, n), log[n].topic, 0);
    EnsureTwice(env.defaultPartitions, m, log[n].topic, 0);
    SpecStep(env.defaultPartitions, log, n);
  }

  /** A replayed publish above the high-water mark. */
  lemma PublishReplayed(env: Env, log: RaftLog, x: World, n: nat)
    requires InvAt(env, log, x, n) && x.phase.Routed? && x.cursor < n
    ensures InvAt(env, log, PublishStep(env, log, x, OK), n)
  {
    hide AllOk, AllButOk, BlockedOk, Spec, View, NoneAbove, Writes, Reflects, PublishStep;
    ReplayedIsInert(env, log, View(x.topics), n, x.cursor, x.hw);
    InertDoesNotWrite(View(x.topics), log[x.cursor]);
    PublishInert(env, log, x);
  }

  /** A publish applied for the first time that writes nothing, or does not block. */
  lemma PublishFirst(env: Env, log: RaftLog, x: World, n: nat)
    requires env.cfg.mode != NoSync && WithinCap(env, log) && InvAt(env, log, x, n) && x.phase.Routed? && x.cursor == n
    requires env.cfg.mode == PerMessage || !Writes(View(x.topics), log[n])
    ensures InvAt(env, log, PublishStep(env, log, x, OK), n + 1)
  {
    hide AllOk, AllButOk, BlockedOk, Spec, SpecApply, View, NoneAbove, Writes, Reflects, WithinCap, LogsOk, PublishStep;
    NextView(env, log, View(x.topics), n);
    ReflectsOk(env, log, View(x.topics), n);
    ReflectsNow(env, log, n + 1);
    if Writes(View(x.topics), log[n]) {
      PublishDirect(env, log, n, x);
    } else {
      PublishInert(env, log, x);
    }
  }

  /** A publish that blocks on the group commit. */
  lemma PublishWaits(env: Env, log: RaftLog, x: World, n: nat)
    requires env.cfg.mode == Batched && InvAt(env, log, x, n) && x.phase.Routed? && x.cursor == n
    requires Writes(View(x.topics), log[n])
    ensures InvAt(env, log, PublishStep(env, log, x, OK), n)
  {
    hide AllOk, AllBlockedOk, Spec, SpecApply, View, NoneAbove, Writes, Reflects, PublishStep;
    NextView(env, log, View(x.topics), n);
    PublishBlocks(env, log, x);
  }

  lemma PublishKeeps(env: Env, log: RaftLog, x: World, n: nat) returns (n': nat)
    requires env.cfg.mode != NoSync && WithinCap(env, log) && InvAt(env, log, x, n)
    ensures n' >= n && InvAt(env, log, PublishStep(env, log, x, OK), n')
  {
    n' := n;
    if !x.phase.Routed? {
      assert PublishStep(env, log, x, OK) == x;
    } else {
      hide InvAt, WithinCap, Writes, View, PublishStep;
      InvCursor(env, log, x, n);
      if x.cursor < n {
        PublishReplayed(env, log, x, n);
      } else if env.cfg.mode == PerMessage || !Writes(View(x.topics), log[n]) {
        PublishFirst(env, log, x, n);
        n' := n + 1;
      } else {
        PublishWaits(env, log, x, n);
      }
    }
  }

  lemma InvCursor(env: Env, log: RaftLog, x: World, n: nat)
    requires InvAt(env, log, x, n)
    ensures x.cursor <= n <= |log| && (x.phase.Routed? ==> x.cursor < |log|)
  {
  }

  lemma ReflectsNow(env: Env, log: RaftLog, n: nat)
    requires n <= |log|
    ensures Reflects(env, log, Spec(env.defaultPartitions, log, n), n)
  {
  }

  // ---- The committers ----

  lemma BlockedQuiet(cfg: Config, sh: Shard, r: Record, end: nat, step: Wal.Step)
    requires BlockedOk(cfg, sh, r, end) && cfg.mode != NoSync && Quiet(step) && !step.Return?
    ensures BlockedOk(cfg, sh.(log := Wal.Next(cfg, sh.log, step)), r, end)
    ensures Retained(Wal.Next(cfg, sh.log, step)) == Retained(sh.log)
  {
    hide LogSound, Wal.Next, Knows, Known, NearlySettled, Retained;
    QuietRetains(cfg, sh.log, step);
  }

  lemma ShardQuiet(cfg: Config, sh: Shard, step: Wal.Step)
    requires ShardOk(cfg, sh) && cfg.mode != NoSync && Quiet(step)
    ensures ShardOk(cfg, sh.(log := Wal.Next(cfg, sh.log, step)))
    ensures Retained(Wal.Next(cfg, sh.log, step)) == Retained(sh.log)
  {
    hide LogSound, Wal.Next, Knows, NearlySettled, Retained;
    QuietRetains(cfg, sh.log, step);
  }

  lemma ShardIn(cfg: Config, topics: Topics, t: Name, p: nat)
    requires AllOk(cfg, topics) && t in topics && p < |topics[t]|
    ensures ShardOk(cfg, topics[t][p])
  {
  }

  /** The committer of a settled shard. */
  lemma CommitterSettled(env: Env, x: World, t: Name, p: nat, step: Wal.Step)
    requires env.cfg.mode != NoSync && AllOk(env.cfg, x.topics) && (step.FlushSync? ==> step.ok)
    ensures var y := CommitterStep(env, x, t, p, step);
            y == x.(topics := y.topics) && AllOk(env.cfg, y.topics) && View(y.topics) == View(x.topics)
  {
    hide AllOk, View, Wal.Next, Retained;
    if t in x.topics && p < |x.topics[t]| && (step.FlushSnap? || step.FlushSync? || step.FlushPublish?) {
      var sh := x.topics[t][p];
      var sh' := sh.(log := Wal.Next(env.cfg, sh.log, step));
      assert ShardOk(env.cfg, sh) by { ShardIn(env.cfg, x.topics, t, p); }
      ShardQuiet(env.cfg, sh, step);
      ViewSame(x.topics, t, p, sh');
      SetOk(env.cfg, x.topics, t, p, sh');
    }
  }

  /** Every shard is settled but the one a blocked Append waits for. */
  ghost predicate AllBlockedOk(env: Env, log: RaftLog, x: World) {
    && x.phase.Waiting? && Routable(log, x)
    && BlockedOk(env.cfg, Target(log, x), x.phase.rec, x.phase.end)
    && AllButOk(env.cfg, x.topics, log[x.cursor].topic, log[x.cursor].partition)
  }

  lemma CommitterBlocked(env: Env, log: RaftLog, x: World, t: Name, p: nat, step: Wal.Step)
    requires env.cfg.mode != NoSync && AllBlockedOk(env, log, x) && (step.FlushSync? ==> step.ok)
    ensures var y := CommitterStep(env, x, t, p, step);
            y == x.(topics := y.topics) && AllBlockedOk(env, log, y) && View(y.topics) == View(x.topics)
  {
    hide ShardOk, BlockedOk, View, Wal.Next, Retained;
    if t in x.topics && p < |x.topics[t]| && (step.FlushSnap? || step.FlushSync? || step.FlushPublish?) {
      var sh := x.topics[t][p];
      var sh' := sh.(log := Wal.Next(env.cfg, sh.log, step));
      if t == log[x.cursor].topic && p == log[x.cursor].partition {
        BlockedQuiet(env.cfg, sh, x.phase.rec, x.phase.end, step);
      } else {
        ShardQuiet(env.cfg, sh, step);
      }
      ViewSame(x.topics, t, p, sh');
    }
  }

  lemma CommitterKeeps(env: Env, log: RaftLog, x: World, n: nat, t: Name, p: nat, step: Wal.Step)
    requires env.cfg.mode != NoSync && InvAt(env, log, x, n) && (step.FlushSync? ==> step.ok)
    ensures InvAt(env, log, CommitterStep(env, x, t, p, step), n)
  {
    hide AllOk, AllBlockedOk, Spec, View, Writes, NoneAbove, Reflects, CommitterStep;
    if x.phase.Waiting? {
      CommitterBlocked(env, log, x, t, p, step);
    } else {
      CommitterSettled(env, x, t, p, step);
    }
  }

  // ---- Finish ----

  lemma BlockedParts(cfg: Config, sh: Shard, r: Record, end: nat)
    requires BlockedOk(cfg, sh, r, end) && cfg.mode != NoSync && end <= sh.log.committed
    ensures var s := Wal.Next(cfg, sh.log, Return(r, end));
            LogOk(cfg, s) && Settled(s) && Retained(s) == Retained(sh.log)
    ensures Retained(sh.log) != []
    ensures var rs := Retained(sh.log);
            && rs == rs[..|rs| - 1] + [r]
            && Knows(sh.lru, rs[..|rs| - 1]) && !Known(rs[..|rs| - 1], r.key)
  {
    hide WalSafety.Inv, Wal.Next, Knows, Known, NearlySettled, Retained;
    assert Settled(sh.log) by { CommittedBound(cfg, sh.log); }
    QuietRetains(cfg, sh.log, Return(r, end));
  }

  lemma LastStamp(default: int, m: Logs, e: Command, index: u64)
    requires Writes(Ensure(default, m, e.topic, 0), e)
    ensures var m1 := Ensure(default, m, e.topic, 0); var m' := SpecApply(default, m, e, index);
            && e.topic in m' && 0 <= e.partition < |m'[e.topic]|
            && m'[e.topic][e.partition] == m1[e.topic][e.partition] + [Stamp(e, index, |m1[e.topic][e.partition]|)]
            && m'[e.topic := m'[e.topic][e.partition := m1[e.topic][e.partition]]] == m1
  {
    var m1 := Ensure(default, m, e.topic, 0);
    var m' := SpecApply(default, m, e, index);
    assert m'[e.topic][e.partition := m1[e.topic][e.partition]] == m1[e.topic];
  }

  /** A blocked publish of the command under the cursor on logs v, once its record is in the file. */
  ghost predicate Blocked(env: Env, log: RaftLog, x: World, v: Logs) {
    && AllBlockedOk(env, log, x)
    && View(x.topics) == SpecApply(env.defaultPartitions, v, log[x.cursor], x.cursor + 1)
    && Writes(Ensure(env.defaultPartitions, v, log[x.cursor].topic, 0), log[x.cursor])
  }

  lemma BlockedTarget(env: Env, log: RaftLog, x: World)
    requires AllBlockedOk(env, log, x)
    ensures x.phase.Waiting? && Routable(log, x) && BlockedOk(env.cfg, Target(log, x), x.phase.rec, x.phase.end)
    ensures !Target(log, x).log.commitErr
  {
  }

  lemma UnblockOk(env: Env, log: RaftLog, x: World, sh: Shard)
    requires AllBlockedOk(env, log, x) && ShardOk(env.cfg, sh)
    ensures AllOk(env.cfg, SetTarget(log, x, sh).topics)
  {
    hide ShardOk, BlockedOk;
  }

  lemma FinishSettles(env: Env, log: RaftLog, x: World, v: Logs)
    requires env.cfg.mode != NoSync && WithinCap(env, log) && Blocked(env, log, x, v) && LogsOk(log, x.cursor, v)
    ensures var y := FinishStep(env, log, x);
            || y == x
            || (y == Advance(x.(topics := y.topics)) && AllOk(env.cfg, y.topics) && View(y.topics) == View(x.topics))
  {
    hide ShardOk, BlockedOk, AllBlockedOk, AllOk, SpecApply, Ensure, View, Writes, Wal.Next, Retained, WithinCap;
    hide PartitionOk, LogSound, Settled, Knows, Known, Remember;
    BlockedTarget(env, log, x);
    if x.phase.end <= Target(log, x).log.committed {
      var e, sh, d, n := log[x.cursor], Target(log, x), env.defaultPartitions, x.cursor;
      var s := Wal.Next(env.cfg, sh.log, Return(x.phase.rec, x.phase.end));
      BlockedParts(env.cfg, sh, x.phase.rec, x.phase.end);
      ViewAt(x.topics, e.topic, e.partition);
      LastStamp(d, v, e, n + 1);
      EnsureOk(d, log, n, v, e.topic, 0);
      var m1 := Ensure(d, v, e.topic, 0);
      WritesKnows(m1, e);
      var rs := m1[e.topic][e.partition];
      assert PartitionOk(log, n, e.topic, e.partition, rs);
      assert Retained(sh.log)[..|rs|] == rs;
      assert x.phase.rec == Stamp(e, n + 1, |rs|);
      RememberOk(env, log, n, e.topic, e.partition, sh.lru, rs, s, n);
      var sh' := Remember(env, Shard(s, sh.lru), x.phase.rec);
      RememberLog(env, Shard(s, sh.lru), x.phase.rec);
      ViewSame(x.topics, e.topic, e.partition, sh');
      UnblockOk(env, log, x, sh');
    }
  }

  lemma FinishKeeps(env: Env, log: RaftLog, x: World, n: nat) returns (n': nat)
    requires env.cfg.mode != NoSync && WithinCap(env, log) && InvAt(env, log, x, n)
    ensures n' >= n && InvAt(env, log, FinishStep(env, log, x), n')
  {
    hide AllOk, AllBlockedOk, Spec, SpecApply, Ensure, View, NoneAbove, Writes, Reflects, WithinCap, LogsOk;
    n' := n;
    if !x.phase.Waiting? {
      assert FinishStep(env, log, x) == x;
    } else {
      hide FinishStep;
      SpecStep(env.defaultPartitions, log, n);
      SpecOk(env.defaultPartitions, log, n);
      FinishSettles(env, log, x, Spec(env.defaultPartitions, log, n));
      if FinishStep(env, log, x) != x {
        ReflectsNow(env, log, n + 1);
        n' := n + 1;
      }
    }
  }

  lemma WritesKnows(m: Logs, e: Command)
    requires Writes(m, e)
    ensures e.Pub? && e.topic in m && 0 <= e.partition < |m[e.topic]|
    ensures |m[e.topic][e.partition]| < U64 && !Known(m[e.topic][e.partition], e.key)
  {
  }

  // ---- Power loss ----

  lemma RecoverOk(env: Env, log: RaftLog, n: nat, t: Name, p: nat, sh: Shard, keep: seq<nat>)
    requires LogSound(env.cfg, sh.log) && Survivable(sh.log, keep) && WithinCap(env, log)
    requires PartitionOk(log, n, t, p, Retained(PowerLossStep(sh.log, keep)))
    ensures ShardOk(env.cfg, Recover(env.cap, sh, keep))
  {
    hide LogSound, Survivable, PowerLossStep, PartitionOk, Retained, Knows, Settled, Dedupe.Rebuild, Keys;
    var s := PowerLossStep(sh.log, keep);
    CrashSound(env.cfg, sh.log, keep);
    KeysAreFor(log, n, t, p, Retained(s));
    KnowsRebuilt(Retained(s), env.cap, KeysFor(log, t, p));
  }

  /** A settled shard comes back with every record. */
  lemma RecoverWhole(env: Env, log: RaftLog, n: nat, t: Name, p: nat, sh: Shard, keep: seq<nat>)
    requires ShardOk(env.cfg, sh) && Survivable(sh.log, keep)
             && WithinCap(env, log) && PartitionOk(log, n, t, p, Retained(sh.log))
    ensures ShardOk(env.cfg, Recover(env.cap, sh, keep)) && Retained(Recover(env.cap, sh, keep).log) == Retained(sh.log)
  {
    hide LogSound, Survivable, PowerLossStep, PartitionOk, Retained, Knows, Settled, Dedupe.Rebuild, Keys;
    ShardParts(env.cfg, sh);
    CrashRestores(env.cfg, sh.log, keep);
    RecoverOk(env, log, n, t, p, sh, keep);
  }

  lemma CrashFromSettled(env: Env, log: RaftLog, n: nat, topics: Topics, keep: Remains)
    requires AllOk(env.cfg, topics) && Possible(topics, keep) && WithinCap(env, log) && LogsOk(log, n, View(topics))
    ensures AllOk(env.cfg, RecoverAll(env.cap, topics, keep)) && View(RecoverAll(env.cap, topics, keep)) == View(topics)
  {
    hide ShardOk, View, Survivable, Recover, PartitionOk, Retained, WithinCap;
    var after := RecoverAll(env.cap, topics, keep);
    forall t, p | t in topics && 0 <= p < |topics[t]|
      ensures ShardOk(env.cfg, after[t][p]) && Retained(after[t][p].log) == Retained(topics[t][p].log)
    {
      ViewAt(topics, t, p);
      assert PartitionOk(log, n, t, p, View(topics)[t][p]);
      RecoverWhole(env, log, n, t, p, topics[t][p], keep[t][p]);
    }
    SameView(topics, after);
  }

  lemma SameView(a: Topics, b: Topics)
    requires a.Keys == b.Keys && (forall t :: t in a ==> |a[t]| == |b[t]|)
    requires forall t, p :: t in a && 0 <= p < |a[t]| ==> Retained(b[t][p].log) == Retained(a[t][p].log)
    ensures View(b) == View(a)
  {
    hide View, Retained;
    forall t | t in a ensures View(a)[t] == View(b)[t] {
      assert forall p :: 0 <= p < |a[t]| ==> View(a)[t][p] == View(b)[t][p];
    }
  }

  lemma BlockedLog(cfg: Config, sh: Shard, r: Record, end: nat)
    requires BlockedOk(cfg, sh, r, end)
    ensures LogOk(cfg, sh.log) && NearlySettled(sh.log) && !sh.log.commitErr
  {
  }

  lemma RecoverLog(cap: int, sh: Shard, keep: seq<nat>)
    ensures Recover(cap, sh, keep).log == PowerLossStep(sh.log, keep)
  {
  }

  /** The record of command n is in its file and perhaps not on the platter; everything else is settled. */
  ghost predicate HalfWritten(env: Env, log: RaftLog, topics: Topics, n: nat) {
    && n < |log| && log[n].Pub? && log[n].topic in topics && 0 <= log[n].partition < |topics[log[n].topic]|
    && View(topics) == Spec(env.defaultPartitions, log, n + 1)
    && Writes(Ensure(env.defaultPartitions, Spec(env.defaultPartitions, log, n), log[n].topic, 0), log[n])
    && LogSound(env.cfg, topics[log[n].topic][log[n].partition].log)
    && NearlySettled(topics[log[n].topic][log[n].partition].log)
    && AllButOk(env.cfg, topics, log[n].topic, log[n].partition)
  }

  /** The views a power loss can then leave: with the record, or without. */
  lemma HalfWrittenViews(env: Env, log: RaftLog, topics: Topics, n: nat, keep: seq<nat>)
    requires HalfWritten(env, log, topics, n) && Survivable(topics[log[n].topic][log[n].partition].log, keep)
    ensures var t, p := log[n].topic, log[n].partition;
            var got := Retained(PowerLossStep(topics[t][p].log, keep));
            var m, m1 := View(topics), Ensure(env.defaultPartitions, Spec(env.defaultPartitions, log, n), t, 0);
            var m' := m[t := m[t][p := got]];
            (m' == m && PartitionOk(log, n + 1, t, p, got)) || (m' == m1 && PartitionOk(log, n, t, p, got))
  {
    hide AllButOk, Spec, SpecApply, Ensure, View, Writes, Retained, PartitionOk, Survivable, PowerLossStep;
    hide LogSound, NearlySettled;
    var e, d, m := log[n], env.defaultPartitions, View(topics);
    var m1 := Ensure(d, Spec(d, log, n), e.topic, 0);
    var sh := topics[e.topic][e.partition];
    CrashNearly(env.cfg, sh.log, keep);
    ViewAt(topics, e.topic, e.partition);
    SpecStep(d, log, n);
    LastStamp(d, Spec(d, log, n), e, n + 1);
    SpecOk(d, log, n);
    SpecOk(d, log, n + 1);
    EnsureOk(d, log, n, Spec(d, log, n), e.topic, 0);
    WritesKnows(m1, e);
    var rs := Retained(sh.log);
    assert rs[..|rs| - 1] == m1[e.topic][e.partition];
    assert m[e.topic][e.partition := rs] == m[e.topic];
    assert PartitionOk(log, n, e.topic, e.partition, m1[e.topic][e.partition]);
    assert PartitionOk(log, n + 1, e.topic, e.partition, m[e.topic][e.partition]);
  }

  lemma CrashHalfWritten(env: Env, log: RaftLog, topics: Topics, n: nat, keep: Remains)
    requires HalfWritten(env, log, topics, n) && Possible(topics, keep) && WithinCap(env, log)
    ensures var after := RecoverAll(env.cap, topics, keep);
            && AllOk(env.cfg, after)
            && (View(after) == View(topics)
                || View(after) == Ensure(env.defaultPartitions, Spec(env.defaultPartitions, log, n), log[n].topic, 0))
  {
    hide ShardOk, Spec, SpecApply, Ensure, View, Writes, Retained,
        PartitionOk, Survivable, PowerLossStep, Recover, WithinCap;
    hide LogSound, NearlySettled;
    var after: Topics := RecoverAll(env.cap, topics, keep);
    var e := log[n];
    var sh, k := topics[e.topic][e.partition], keep[e.topic][e.partition];
    SpecOk(env.defaultPartitions, log, n + 1);
    forall t, p | t in topics && 0 <= p < |topics[t]| && (t != e.topic || p != e.partition)
      ensures ShardOk(env.cfg, after[t][p]) && Retained(after[t][p].log) == Retained(topics[t][p].log)
    {
      ViewAt(topics, t, p);
      assert PartitionOk(log, n + 1, t, p, View(topics)[t][p]);
      RecoverWhole(env, log, n + 1, t, p, topics[t][p], keep[t][p]);
    }
    HalfWrittenViews(env, log, topics, n, k);
    var got := Retained(PowerLossStep(sh.log, k));
    var last := if PartitionOk(log, n + 1, e.topic, e.partition, got) then n + 1 else n;
    RecoverOk(env, log, last, e.topic, e.partition, sh, k);
    RecoverLog(env.cap, sh, k);
    SameView(SetShard(topics, e.topic, e.partition, after[e.topic][e.partition]), after);
    ViewSet(topics, e.topic, e.partition, after[e.topic][e.partition]);
  }

  lemma IndexesBounded(log: RaftLog, n: nat, m: Logs)
    requires LogsOk(log, n, m)
    ensures NoneAbove(m, n) && MaxOf(Indexes(m)) <= n && NoneAbove(m, MaxOf(Indexes(m)))
  {
    forall i | i in Indexes(m) ensures i <= n {
      var t, p, k :| t in m && 0 <= p < |m[t]| && 0 <= k < |m[t][p]| && m[t][p][k].raftIndex as nat == i;
      assert PartitionOk(log, n, t, p, m[t][p]);
      assert RecordOk(log, n, t, p, k, m[t][p][k]);
    }
  }

  /** A restart over logs that reflect n commands starts the replay with the invariant. */
  lemma RestartOk(env: Env, log: RaftLog, topics: Topics, n: nat)
    requires n <= |log| && AllOk(env.cfg, topics) && Reflects(env, log, View(topics), n)
    ensures InvAt(env, log, World(topics, MaxOf(Indexes(View(topics))), 0, Ready), n)
  {
    hide AllOk, Spec, View, NoneAbove, LogsOk, MaxOf, Indexes, Reflects;
    ReflectsOk(env, log, View(topics), n);
    IndexesBounded(log, n, View(topics));
  }

  lemma CrashSettledKeeps(env: Env, log: RaftLog, topics: Topics, n: nat, keep: Remains)
    requires WithinCap(env, log) && Possible(topics, keep)
    requires n <= |log| && AllOk(env.cfg, topics) && Reflects(env, log, View(topics), n)
    ensures var after := RecoverAll(env.cap, topics, keep);
            InvAt(env, log, World(after, MaxOf(Indexes(View(after))), 0, Ready), n)
  {
    hide AllOk, View, WithinCap, LogsOk, RecoverAll, MaxOf, Indexes, Reflects, InvAt, Possible;
    ReflectsOk(env, log, View(topics), n);
    CrashFromSettled(env, log, n, topics, keep);
    RestartOk(env, log, RecoverAll(env.cap, topics, keep), n);
  }

  lemma CrashHalfKeeps(env: Env, log: RaftLog, topics: Topics, n: nat, keep: Remains) returns (n': nat)
    requires WithinCap(env, log) && Possible(topics, keep) && HalfWritten(env, log, topics, n)
    ensures var after := RecoverAll(env.cap, topics, keep);
            n' >= n && InvAt(env, log, World(after, MaxOf(Indexes(View(after))), 0, Ready), n')
  {
    hide AllOk, AllButOk, View, Writes, WithinCap, RecoverAll, MaxOf, Indexes, InvAt, Possible, Spec, Ensure;
    CrashHalfWritten(env, log, topics, n, keep);
    var after := RecoverAll(env.cap, topics, keep);
    n' := if View(after) == View(topics) then n + 1 else n;
    RestartOk(env, log, after, n');
  }

  lemma WaitingIsHalfWritten(env: Env, log: RaftLog, x: World, n: nat)
    requires InvAt(env, log, x, n) && x.phase.Waiting?
    ensures HalfWritten(env, log, x.topics, n)
  {
    hide AllButOk, BlockedOk, Spec, Ensure, View, Writes, LogSound, NearlySettled;
    BlockedLog(env.cfg, Target(log, x), x.phase.rec, x.phase.end);
  }

  lemma CrashKeeps(env: Env, log: RaftLog, x: World, n: nat, keep: Remains) returns (n': nat)
    requires env.cfg.mode != NoSync && WithinCap(env, log) && InvAt(env, log, x, n)
    ensures n' >= n && InvAt(env, log, CrashStep(env, x, keep), n')
  {
    n' := n;
    if Possible(x.topics, keep) {
      if x.phase.Waiting? {
        hide InvAt, HalfWritten, View, RecoverAll, MaxOf, Indexes, Possible, WithinCap;
        WaitingIsHalfWritten(env, log, x, n);
        n' := CrashHalfKeeps(env, log, x.topics, n, keep);
      } else {
        hide AllOk, Spec, Ensure, View, NoneAbove, WithinCap, RecoverAll, MaxOf, Indexes, Reflects, Possible;
        CrashSettledKeeps(env, log, x.topics, n, keep);
      }
    }
  }

  /** Where Append can be when the power fails: nothing written yet, or its record in the file. */
  lemma MidAppendIs(env: Env, log: RaftLog, x: World, n: nat, io: Io)
    requires env.cfg.mode != NoSync && InvAt(env, log, x, n) && Appends(log, x)
    ensures var topics := MidAppend(env, log, x, io);
            || (AllOk(env.cfg, topics) && Reflects(env, log, View(topics), n))
            || HalfWritten(env, log, topics, n)
  {
    hide View, LogSound, Knows, Known, Dedupe.Pos, AppendStep, Settled, NearlySettled, Retained, Encodable, Refused;
    hide SpecApply, Writes, Spec, Reflects, NoneAbove, ShardOk, Ensure;
    var e, sh := log[x.cursor], Target(log, x);
    var rs, rec := Retained(sh.log), Stamp(e, x.cursor + 1, 0);
    ShardParts(env.cfg, sh);
    ViewAt(x.topics, e.topic, e.partition);
    if !Writes(View(x.topics), e) {
      MidAppendInert(env, log, x, io);
    } else {
      assert x.cursor == n by { NotReplayed(env, log, x, n); }
      NextView(env, log, View(x.topics), n);
      WritesKnows(View(x.topics), e);
      SpecApplyWrites(env.defaultPartitions, View(x.topics), e, n + 1);
      AppendGrows(env.cfg, sh.log, rec, io);
      var sh' := sh.(log := AppendStep(env.cfg, sh.log, rec, io));
      if Retained(sh'.log) == rs && Settled(sh'.log) {
        SettledShard(env.cfg, sh, sh'.log);
        ViewSame(x.topics, e.topic, e.partition, sh');
        SetOk(env.cfg, x.topics, e.topic, e.partition, sh');
      } else {
        ViewSet(x.topics, e.topic, e.partition, sh');
      }
    }
  }

  lemma SettledShard(cfg: Config, sh: Shard, s: State)
    requires ShardOk(cfg, sh) && LogSound(cfg, s)
             && SameErrors(sh.log, s) && Settled(s) && Retained(s) == Retained(sh.log)
    ensures ShardOk(cfg, sh.(log := s))
  {
    hide LogSound, Settled, Retained, Knows;
  }

  lemma MidAppendInert(env: Env, log: RaftLog, x: World, io: Io)
    requires AllOk(env.cfg, x.topics) && Appends(log, x) && !Writes(View(x.topics), log[x.cursor])
    ensures MidAppend(env, log, x, io) == x.topics
  {
    hide View, LogSound, Knows, Dedupe.Pos, AppendStep, Settled, Refused, Known, Retained;
    var e, sh := log[x.cursor], Target(log, x);
    assert ShardOk(env.cfg, sh);
    ViewAt(x.topics, e.topic, e.partition);
    RefusedIff(env.cfg, sh.log, e, x.cursor + 1);
    NotKnown(sh.lru, Retained(sh.log), e.key);
    StampAgain(e, x.cursor + 1, sh.log);
    AppendRefused(env.cfg, sh.log, Stamp(e, x.cursor + 1, 0), io);
    assert x.topics[e.topic][e.partition := sh] == x.topics[e.topic];
  }

  lemma NotReplayed(env: Env, log: RaftLog, x: World, n: nat)
    requires InvAt(env, log, x, n) && x.phase.Routed? && Writes(View(x.topics), log[x.cursor])
    ensures x.cursor == n
  {
    hide AllOk, AllButOk, BlockedOk, Spec, View, NoneAbove, Writes, Reflects;
    if x.cursor < n {
      ReplayedIsInert(env, log, View(x.topics), n, x.cursor, x.hw);
      InertDoesNotWrite(View(x.topics), log[x.cursor]);
    }
  }

  lemma DiesKeeps(env: Env, log: RaftLog, x: World, n: nat, io: Io, keep: Remains) returns (n': nat)
    requires env.cfg.mode != NoSync && WithinCap(env, log) && InvAt(env, log, x, n)
    ensures n' >= n && InvAt(env, log, DiesStep(env, log, x, io, keep), n')
  {
    hide InvAt, WithinCap, HalfWritten, AllOk, Reflects, View, RecoverAll, MaxOf, Indexes, MidAppend, Appends, Possible;
    n' := n;
    if Appends(log, x) && Possible(MidAppend(env, log, x, io), keep) {
      var topics := MidAppend(env, log, x, io);
      InvCursor(env, log, x, n);
      MidAppendIs(env, log, x, n, io);
      if HalfWritten(env, log, topics, n) {
        n' := CrashHalfKeeps(env, log, topics, n, keep);
      } else {
        CrashSettledKeeps(env, log, topics, n, keep);
      }
    }
  }

  lemma StepKeeps(env: Env, log: RaftLog, x: World, n: nat, step: Step) returns (n': nat)
    requires env.cfg.mode != NoSync && WithinCap(env, log) && InvAt(env, log, x, n) && Healthy(step)
    ensures n' >= n && InvAt(env, log, Next(env, log, x, step), n')
  {
    hide InvAt, WithinCap, BeginStep, PublishStep, FinishStep, CommitterStep, CrashStep, DiesStep;
    n' := n;
    match step
    case Begin => n' := BeginKeeps(env, log, x, n);
    case Publish(_) => n' := PublishKeeps(env, log, x, n);
    case Committer(t, p, st) => CommitterKeeps(env, log, x, n, t, p, st);
    case Finish => n' := FinishKeeps(env, log, x, n);
    case Crash(keep) => n' := CrashKeeps(env, log, x, n, keep);
    case Dies(io, keep) => n' := DiesKeeps(env, log, x, n, io, keep);
  }

  lemma StartOk(env: Env, log: RaftLog)
    ensures InvAt(env, log, START, 0)
  {
  }

  // ---- When a replayed publish takes effect ----

  lemma PublishView(env: Env, log: RaftLog, x: World)
    requires x.phase.Routed? && env.cfg.mode != NoSync && AllOk(env.cfg, x.topics)
    requires x.cursor < |log| && Writes(View(x.topics), log[x.cursor])
    ensures View(PublishStep(env, log, x, OK).topics)
         == SpecApply(env.defaultPartitions, View(x.topics), log[x.cursor], x.cursor + 1)
  {
    hide View, LogSound, Knows, Known, Dedupe.Pos, AppendStep, Settled, NearlySettled, Retained, Encodable, Refused;
    hide SpecApply, Writes, Remember, ShardOk, AllOk;
    var e := log[x.cursor];
    PublishAppends(env, log, x);
    ViewAt(x.topics, e.topic, e.partition);
    SpecApplyWrites(env.defaultPartitions, View(x.topics), e, x.cursor + 1);
    var sh := Target(log, x);
    var r := Stamp(e, x.cursor + 1, |Retained(sh.log)|);
    var t := AppendStep(env.cfg, sh.log, Stamp(e, x.cursor + 1, 0), OK);
    RememberLog(env, Shard(t, sh.lru), r);
    ViewSet(x.topics, e.topic, e.partition, Remember(env, Shard(t, sh.lru), r));
    ViewSet(x.topics, e.topic, e.partition, sh.(log := t));
  }

  /**
   * Whatever logs recovery produced, replaying a publish skips it exactly when its index is at or below
   * the recovered high-water mark, and otherwise does what an uninterrupted run would do to those logs.
   */
  lemma ReplayedPublish(env: Env, log: RaftLog, x: World)
    requires x.phase.Ready? && env.cfg.mode != NoSync && AllOk(env.cfg, x.topics)
    requires x.cursor < |log| && log[x.cursor].Pub?
    ensures var y := PublishStep(env, log, BeginStep(env, log, x), OK);
            View(y.topics) == if x.cursor + 1 <= x.hw then View(x.topics)
                              else SpecApply(env.defaultPartitions, View(x.topics), log[x.cursor], x.cursor + 1)
  {
    hide View, AllOk, Open, SpecApply, Writes, Ensure;
    if x.cursor + 1 <= x.hw {
      assert PublishStep(env, log, BeginStep(env, log, x), OK) == BeginStep(env, log, x);
    } else {
      hide PublishStep;
      var e, d := log[x.cursor], env.defaultPartitions;
      var x1 := BeginStep(env, log, x);
      ViewOpen(d, x.topics, e.topic, 0);
      OpenOk(env.cfg, d, x.topics, e.topic, 0);
      EnsureTwice(d, View(x.topics), e.topic, 0);
      EnsureTwice(d, View(x1.topics), e.topic, 0);
      ApplyEnsured(d, View(x.topics), e, x.cursor + 1);
      if Writes(View(x1.topics), e) {
        PublishView(env, log, x1);
      } else {
        PublishInert(env, log, x1);
      }
    }
  }

  lemma ApplyEnsured(default: int, m: Logs, e: Command, index: u64)
    requires e.Pub?
    ensures var m1 := Ensure(default, m, e.topic, 0);
            && SpecApply(default, m, e, index) == SpecApply(default, m1, e, index)
            && (!Writes(m1, e) ==> SpecApply(default, m, e, index) == m1)
  {
    EnsureTwice(default, m, e.topic, 0);
    EnsureTwice(default, Ensure(default, m, e.topic, 0), e.topic, 0);
  }

  lemma {:induction false} ApplyIndexes(default: int, m: Logs, e: Command, index: u64)
    requires e.Pub?
    ensures HasIndex(SpecApply(default, m, e, index), index)
       <==> HasIndex(m, index) || Writes(Ensure(default, m, e.topic, 0), e)
  {
    var m1: Logs := Ensure(default, m, e.topic, 0);
    var m': Logs := SpecApply(default, m, e, index);
    if HasIndex(m, index) {
      ApplyGrows(default, m, e, index);
      HasIndexGrows(m, m', index);
    }
    if Writes(m1, e) {
      assert m'[e.topic][e.partition][|m1[e.topic][e.partition]|].raftIndex == index;
    } else if HasIndex(m', index) {
      var t, p, k :| t in m' && 0 <= p < |m'[t]| && 0 <= k < |m'[t][p]| && m'[t][p][k].raftIndex == index;
      assert t in m && m[t] == m'[t];
      assert m[t][p][k].raftIndex == index;
    }
  }

  /**
   * A record a crash has lost is written again exactly when its index is above the recovered high-water
   * mark and it still writes.
   */
  lemma LostRecordReturnsIff(env: Env, log: RaftLog, x: World)
    requires x.phase.Ready? && env.cfg.mode != NoSync && AllOk(env.cfg, x.topics)
    requires x.cursor < |log| && log[x.cursor].Pub? && !HasIndex(View(x.topics), x.cursor + 1)
    ensures HasIndex(View(PublishStep(env, log, BeginStep(env, log, x), OK).topics), x.cursor + 1)
       <==> x.cursor + 1 > x.hw
            && Writes(Ensure(env.defaultPartitions, View(x.topics), log[x.cursor].topic, 0), log[x.cursor])
  {
    hide View, AllOk, SpecApply, Writes, Ensure, HasIndex, PublishStep, BeginStep;
    ReplayedPublish(env, log, x);
    ApplyIndexes(env.defaultPartitions, View(x.topics), log[x.cursor], x.cursor + 1);
  }

  // ---- The uninterrupted run ----

  /** One flush of the partition a blocked publish waits for. */
  function FlushTarget(env: Env, log: RaftLog, x: World): World
    requires Routable(log, x)
  {
    var t, p := log[x.cursor].topic, log[x.cursor].partition;
    var y := CommitterStep(env, CommitterStep(env, x, t, p, FlushSnap), t, p, FlushSync(true));
    CommitterStep(env, y, t, p, FlushPublish)
  }

  /** One command from Begin to the end of its Append, nothing failing; a batched Append needs a flush in between. */
  function ApplyOne(env: Env, log: RaftLog, x: World): World {
    var y := PublishStep(env, log, BeginStep(env, log, x), OK);
    if y.phase.Waiting? && Routable(log, y) then FinishStep(env, log, FlushTarget(env, log, y)) else y
  }

  function Straight(env: Env, log: RaftLog, n: nat): World {
    if n == 0 then START else ApplyOne(env, log, Straight(env, log, n - 1))
  }

  predicate AllIdle(topics: Topics) {
    forall t, p :: t in topics && 0 <= p < |topics[t]| ==> topics[t][p].log.flush == Idle
  }

  lemma IdleSet(topics: Topics, t: Name, p: nat, sh: Shard)
    requires AllIdle(topics) && t in topics && p < |topics[t]| && sh.log.flush == Idle
    ensures AllIdle(SetShard(topics, t, p, sh))
  {
  }

  lemma AppendIdle(cfg: Config, s: State, rec: Record, io: Io)
    ensures AppendStep(cfg, s, rec, io).flush == s.flush
  {
    hide MustRotate, Encodable, Size, Active;
  }

  lemma PairIdle(env: Env, log: RaftLog, x: World)
    requires AllIdle(x.topics)
    ensures AllIdle(PublishStep(env, log, BeginStep(env, log, x), OK).topics)
  {
    hide AppendStep, CountFor, Dedupe.Put, Dedupe.Pos, Dedupe.Bump, Encodable, Size;
    var y := BeginStep(env, log, x);
    assert AllIdle(y.topics);
    if y.phase.Routed? && Routable(log, y) {
      AppendIdle(env.cfg, Target(log, y).log, Stamp(log[y.cursor], y.cursor + 1, 0), OK);
    }
  }

  lemma PairAdvances(env: Env, log: RaftLog, x: World)
    requires x.phase.Ready? && x.cursor < |log|
    ensures var y := PublishStep(env, log, BeginStep(env, log, x), OK);
            if y.phase.Waiting? then y.cursor == x.cursor && Routable(log, y)
            else y.phase.Ready? && y.cursor == x.cursor + 1
  {
    hide AppendStep, Open, Dedupe.Put, Dedupe.Pos, Dedupe.Bump, Encodable, Remember;
  }

  /** The three phases of a flush, one after the other, on one log. */
  function FlushedLog(cfg: Config, s: State): State {
    Wal.Next(cfg, Wal.Next(cfg, Wal.Next(cfg, s, FlushSnap), FlushSync(true)), FlushPublish)
  }

  lemma FlushTargetIs(env: Env, log: RaftLog, x: World)
    requires Routable(log, x)
    ensures var sh := Target(log, x);
            FlushTarget(env, log, x) == SetTarget(log, x, sh.(log := FlushedLog(env.cfg, sh.log)))
  {
    hide Wal.Next;
    var e, sh := log[x.cursor], Target(log, x);
    var s1 := Wal.Next(env.cfg, sh.log, FlushSnap);
    var x1 := CommitterStep(env, x, e.topic, e.partition, FlushSnap);
    assert x1 == SetTarget(log, x, sh.(log := s1));
    var s2 := Wal.Next(env.cfg, s1, FlushSync(true));
    var x2 := CommitterStep(env, x1, e.topic, e.partition, FlushSync(true));
    SetAgain(log, x, sh.(log := s1), sh.(log := s2));
    assert x2 == SetTarget(log, x, sh.(log := s2));
    SetAgain(log, x, sh.(log := s2), sh.(log := FlushedLog(env.cfg, sh.log)));
  }

  lemma SetAgain(log: RaftLog, x: World, a: Shard, b: Shard)
    requires Routable(log, x)
    ensures var y := SetTarget(log, x, a);
            Routable(log, y) && Target(log, y) == a && SetTarget(log, y, b) == SetTarget(log, x, b)
  {
    var t, p := log[x.cursor].topic, log[x.cursor].partition;
    assert x.topics[t][p := a][p := b] == x.topics[t][p := b];
    assert SetShard(SetShard(x.topics, t, p, a), t, p, b) == SetShard(x.topics, t, p, b);
  }

  lemma FlushedCommits(cfg: Config, sh: Shard, r: Record, end: nat)
    requires cfg.mode == Batched && BlockedOk(cfg, sh, r, end) && sh.log.flush == Idle
    ensures var t := FlushedLog(cfg, sh.log); t.flush == Idle && end <= t.committed
  {
    hide WalSafety.Inv, Settled, NearlySettled, Knows, Known, Retained, Floor;
    hide FlushSnapStep, FlushSyncStep, FlushPublishStep;
    InvHistory(cfg, sh.log);
    FlushReleases(cfg, sh.log, r, end);
    var s := sh.log;
    assert FlushedLog(cfg, s) == FlushPublishStep(FlushSyncStep(FlushSnapStep(cfg, s), true)) by { FlushUp(cfg, s); }
  }

  lemma FlushUp(cfg: Config, s: State)
    requires !s.down
    ensures FlushedLog(cfg, s) == FlushPublishStep(FlushSyncStep(FlushSnapStep(cfg, s), true))
  {
  }

  lemma ReturnIdle(cfg: Config, s: State, r: Record, end: nat)
    ensures Wal.Next(cfg, s, Return(r, end)).flush == s.flush
  {
  }

  /** After one flush the blocked publish finishes. */
  lemma FlushFinishes(env: Env, log: RaftLog, x: World)
    requires env.cfg.mode == Batched && AllBlockedOk(env, log, x) && AllIdle(x.topics)
    ensures Routable(log, x)
    ensures var y := FinishStep(env, log, FlushTarget(env, log, x));
            y.phase.Ready? && y.cursor == x.cursor + 1 && AllIdle(y.topics)
  {
    hide BlockedOk, FlushTarget, FlushedLog, Wal.Next, Dedupe.Put, AllButOk;
    BlockedTarget(env, log, x);
    var sh, r, end := Target(log, x), x.phase.rec, x.phase.end;
    var t := FlushedLog(env.cfg, sh.log);
    FlushTargetIs(env, log, x);
    SetAgain(log, x, sh.(log := t), sh);
    FlushedCommits(env.cfg, sh, r, end);
    ReturnIdle(env.cfg, t, r, end);
    var e := log[x.cursor];
    IdleSet(x.topics, e.topic, e.partition, sh.(log := t));
  }

  lemma WaitingParts(env: Env, log: RaftLog, x: World, n: nat)
    requires InvAt(env, log, x, n) && x.phase.Waiting?
    ensures AllBlockedOk(env, log, x)
  {
  }

  lemma NoneIdle()
    ensures AllIdle(map[])
  {
  }

  lemma WaitsOnlyBatched(env: Env, log: RaftLog, x: World)
    requires !x.phase.Waiting? && PublishStep(env, log, x, OK).phase.Waiting?
    ensures env.cfg.mode == Batched
  {
    hide AppendStep, Dedupe.Put, Dedupe.Pos, Dedupe.Bump, Encodable;
  }

  lemma BeginNotWaiting(env: Env, log: RaftLog, x: World)
    requires x.phase.Ready?
    ensures !BeginStep(env, log, x).phase.Waiting?
  {
    hide Open;
  }

  lemma CaughtUp(env: Env, log: RaftLog, x: World, n: nat)
    requires InvAt(env, log, x, n) && x.phase.Ready? && x.cursor == |log|
    ensures View(x.topics) == Spec(env.defaultPartitions, log, |log|)
  {
  }
}
