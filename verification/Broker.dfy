/**
 * The broker's apply surface as the state machine drives it (internal/broker/broker.go:283-324,
 * 426-446, 552-647): the topic map and the high-water mark, updated in place. A batched publish blocks
 * inside Append until the committer has fsynced its bytes; here it comes back in two calls.
 */
module Broker {
  import opened Bytes
  import opened Codec
  import opened Wal
  import opened WalTheorems
  import opened ReplaySpec
  import opened Shards
  import opened Replay
  import opened ReplayFailures
  import Dedupe

  /** What the proposer of a publish gets back, or that its Append still waits for the bytes below end. */
  datatype Result = Applied(msgID: nat) | Duplicate(msgID: nat) | Skipped | Rejected | Blocked(rec: Record, end: nat)

  /** The apply goroutine after the call that gave r for the command at index. */
  function PhaseOf(r: Result): Phase { if r.Blocked? then Waiting(r.rec, r.end) else Ready }

  function CursorOf(r: Result, index: nat): nat
    requires index > 0
  {
    if r.Blocked? then index - 1 else index
  }

  /** The topics directory: the logs of every topic as wal.Open recovers them. */
  type Disk = map<Name, seq<State>>

  /** Nothing was dropped, so MsgIDs are positions. */
  predicate Numbered(s: State) { forall i :: 0 <= i < |Retained(s)| ==> Retained(s)[i].msgID == i }

  ghost predicate DiskOk(disk: Disk) {
    && (forall t :: t in disk ==> disk[t] != [])
    && (forall t, p :: t in disk && 0 <= p < |disk[t]| ==> Numbered(disk[t][p]))
  }

  function Opened(cap: int, s: State): Shard { Shard(s, Dedupe.Rebuild(cap, Keys(Retained(s)), 0)) }

  function OpenedParts(cap: int, logs: seq<State>): (parts: seq<Shard>)
    ensures |parts| == |logs| && forall i :: 0 <= i < |logs| ==> parts[i] == Opened(cap, logs[i])
  {
    seq(|logs|, i requires 0 <= i < |logs| => Opened(cap, logs[i]))
  }

  function OpenedAll(cap: int, disk: Disk): Topics { map t | t in disk :: OpenedParts(cap, disk[t]) }

  function RaftIndexes(rs: seq<Record>): set<nat> { set r | r in rs :: r.raftIndex as nat }

  function PartIndexes(logs: seq<State>): set<nat> {
    if logs == [] then {} else PartIndexes(logs[..|logs| - 1]) + RaftIndexes(Retained(logs[|logs| - 1]))
  }

  class Broker {
    const env: Env
    var topics: Topics
    var appliedHighWater: nat

    constructor (e: Env)
      ensures env == e && topics == map[] && appliedHighWater == 0
    {
      env, topics, appliedHighWater := e, map[], 0;
    }

    /** Open on a data directory that holds topics; names is what ReadDir lists. */
    constructor Reopen(e: Env, names: seq<Name>, disk: Disk)
      requires DiskOk(disk) && (forall t :: t in names <==> t in disk)
      requires forall i, j :: 0 <= i < j < |names| ==> names[i] != names[j]
      ensures env == e && topics == OpenedAll(e.cap, disk)
      ensures appliedHighWater == MaxOf(Indexes(View(topics)))
    {
      env, topics, appliedHighWater := e, map[], 0;
      new;
      hide Indexes, View, PartIndexes, Retained, Dedupe.Rebuild, Numbered, OpenedAll, IsMax, Listed, OpenedParts;
      NothingListed(e.cap, disk, names);
      for i := 0 to |names|
        invariant topics == OpenedAll(env.cap, Listed(disk, names[..i]))
        invariant IsMax(appliedHighWater, {0} + Indexes(View(topics)))
      {
        ListedOneMore(env.cap, disk, names, i);
        ghost var before, mark := topics, appliedHighWater;
        var ok := OpenTopic(names[i], 0, disk[names[i]]);
        MarkOneMore(env.cap, before, names[i], disk[names[i]], mark, appliedHighWater);
      }
      AllListed(disk, names);
      IsMaxOf(appliedHighWater, Indexes(View(topics)));
    }

    method AdvanceAppliedHighWater(idx: nat)
      modifies this`appliedHighWater
      ensures appliedHighWater == Max(old(appliedHighWater), idx)
    {
      if idx > appliedHighWater {
        appliedHighWater := idx;
      }
    }

    /** The recovery visitor over one partition: it rebuilds the index and raises the mark. */
    method OpenPartition(s: State) returns (sh: Shard)
      requires Numbered(s)
      modifies this`appliedHighWater
      ensures sh == Opened(env.cap, s)
      ensures IsMax(appliedHighWater, {old(appliedHighWater)} + RaftIndexes(Retained(s)))
    {
      hide Retained, Dedupe.Put, Dedupe.Rebuild, RaftIndexes, IsMax;
      ghost var start := appliedHighWater;
      var rs, lru := Retained(s), [];
      NothingVisited(env.cap, start, rs);
      for i := 0 to |rs|
        invariant IsMax(appliedHighWater, {start} + RaftIndexes(rs[..i]))
        invariant lru == Dedupe.Rebuild(env.cap, Keys(rs[..i]), 0)
      {
        VisitOneMore(env.cap, start, rs, i, appliedHighWater);
        if rs[i].key != [] {
          lru := Dedupe.Put(lru, env.cap, rs[i].key, rs[i].msgID);
        }
        AdvanceAppliedHighWater(rs[i].raftIndex);
      }
      assert rs[..|rs|] == rs;
      return Shard(s, lru);
    }

    /** createTopicLocal: false reports an existing topic with another partition count. */
    method ApplyCreateTopic(topic: Name, partitions: int) returns (ok: bool)
      modifies this`topics, this`appliedHighWater
      ensures topics == Open(env.defaultPartitions, old(topics), topic, partitions)
      ensures appliedHighWater == old(appliedHighWater)
      ensures ok <==> topic !in old(topics) || |old(topics)[topic]| == partitions
    {
      if topic in topics {
        return |topics[topic]| == partitions;
      }
      ok := OpenTopic(topic, partitions, []);
    }

    /** openTopicLocked: logs is what the topic's directory holds, empty if there is none. */
    method OpenTopic(topic: Name, want: int, logs: seq<State>) returns (ok: bool)
      requires topic !in topics && forall p :: 0 <= p < |logs| ==> Numbered(logs[p])
      modifies this`topics, this`appliedHighWater
      ensures ok <==> logs == [] || want <= 0 || |logs| == want
      ensures !ok ==> topics == old(topics) && appliedHighWater == old(appliedHighWater)
      ensures ok && logs == [] ==> topics == Open(env.defaultPartitions, old(topics), topic, want)
      ensures logs == [] ==> appliedHighWater == old(appliedHighWater)
      ensures ok && logs != [] ==> topics == old(topics)[topic := OpenedParts(env.cap, logs)]
      ensures ok ==> IsMax(appliedHighWater, {old(appliedHighWater)} + PartIndexes(logs))
    {
      hide Retained, Dedupe.Rebuild, Numbered, PartIndexes;
      if logs != [] && want > 0 && |logs| != want {
        return false;
      }
      var count := if logs != [] then |logs| else if want > 0 then want else env.defaultPartitions;
      if count < 1 {
        count := 1;
      }
      EmptyNumbered();
      var parts := OpenPartitions(if logs != [] then logs else seq(count, _ => EMPTY));
      topics := topics[topic := parts];
      if logs == [] {
        EmptyParts(env.cap, count);
      }
      return true;
    }

    method OpenPartitions(logs: seq<State>) returns (parts: seq<Shard>)
      requires forall p :: 0 <= p < |logs| ==> Numbered(logs[p])
      modifies this`appliedHighWater
      ensures parts == OpenedParts(env.cap, logs)
      ensures IsMax(appliedHighWater, {old(appliedHighWater)} + PartIndexes(logs))
    {
      hide Retained, Dedupe.Rebuild, Numbered;
      ghost var start := appliedHighWater;
      parts := [];
      for i := 0 to |logs|
        invariant parts == OpenedParts(env.cap, logs[..i])
        invariant IsMax(appliedHighWater, {start} + PartIndexes(logs[..i]))
      {
        ghost var mark := appliedHighWater;
        var sh := OpenPartition(logs[i]);
        parts := parts + [sh];
        assert logs[..i + 1][..i] == logs[..i];
        ghost var set0, set1 := {start} + PartIndexes(logs[..i]), RaftIndexes(Retained(logs[i]));
        IsMaxUnion(mark, set0, set1, appliedHighWater);
        assert set0 + set1 == {start} + PartIndexes(logs[..i + 1]);
      }
      assert logs[..|logs|] == logs;
    }

    method GetOrCreateTopic(topic: Name)
      modifies this`topics, this`appliedHighWater
      ensures topics == Open(env.defaultPartitions, old(topics), topic, 0) && topic in topics
      ensures appliedHighWater == old(appliedHighWater)
    {
      hide IsMax, PartIndexes, OpenedParts, Numbered;
      if topic !in topics {
        var ok := OpenTopic(topic, 0, []);
      }
    }

    method ApplyPublish(ghost log: RaftLog, e: Command, index: u64, io: Io) returns (r: Result)
      requires 0 < index <= |log| && log[index - 1] == e && e.Pub?
      modifies this`topics, this`appliedHighWater
      ensures appliedHighWater == old(appliedHighWater)
      ensures var x := World(old(topics), appliedHighWater, index - 1, Ready);
              World(topics, appliedHighWater, CursorOf(r, index), PhaseOf(r))
              == PublishStep(env, log, BeginStep(env, log, x), io)
      ensures r.Blocked? ==> env.cfg.mode == Batched
      ensures r.Skipped? <==> index <= appliedHighWater
      ensures r.Applied? || r.Duplicate? ==> e.topic in topics && 0 <= e.partition < |topics[e.topic]|
      ensures r.Duplicate? ==> Dedupe.Entry(e.key, r.msgID) in topics[e.topic][e.partition].lru
    {
      hide AppendStep, Open, Dedupe.Put, Dedupe.Pos, Encodable, Remember, AppendErrs;
      hide Size, MustRotate;
      if index <= appliedHighWater {
        return Skipped;
      }
      GetOrCreateTopic(e.topic);
      if e.partition < 0 || e.partition >= |topics[e.topic]| {
        return Rejected;
      }
      var sh := topics[e.topic][e.partition];
      if e.key != [] && Dedupe.Has(sh.lru, e.key) {
        var id := sh.lru[Dedupe.Pos(sh.lru, e.key)].msgID;
        topics := SetShard(topics, e.topic, e.partition, sh.(lru := Dedupe.Bump(sh.lru, e.key)));
        assert Dedupe.Bump(sh.lru, e.key)[0] == Dedupe.Entry(e.key, id);
        return Duplicate(id);
      }
      var rec := Stamp(e, index, 0);
      var sh' := sh.(log := AppendStep(env.cfg, sh.log, rec, io));
      if Refused(sh.log, rec) || AppendErrs(env.cfg, sh.log, rec, io) {
        topics := SetShard(topics, e.topic, e.partition, sh');
        return Rejected;
      }
      if env.cfg.mode == Batched {
        topics := SetShard(topics, e.topic, e.partition, sh');
        return Blocked(rec.(msgID := sh.log.next), sh'.log.written);
      }
      topics := SetShard(topics, e.topic, e.partition, Remember(env, sh', rec.(msgID := sh.log.next)));
      return Applied(sh.log.next);
    }

    /** The rest of a blocked publish, after a broadcast of the committer. */
    method FinishPublish(ghost log: RaftLog, e: Command, index: u64, rec: Record, end: nat) returns (r: Result)
      requires 0 < index <= |log| && log[index - 1] == e && e.Pub?
      requires e.topic in topics && 0 <= e.partition < |topics[e.topic]|
      modifies this`topics
      ensures World(topics, appliedHighWater, CursorOf(r, index), PhaseOf(r))
           == FinishStep(env, log, World(old(topics), appliedHighWater, index - 1, Waiting(rec, end)))
      ensures var s := old(topics)[e.topic][e.partition].log;
              && (r == Applied(rec.msgID) <==> end <= s.committed)
              && (r == Rejected <==> end > s.committed && s.commitErr)
              && (r == Blocked(rec, end) <==> end > s.committed && !s.commitErr)
    {
      hide Dedupe.Put, Remember, Wal.Next;
      var sh := topics[e.topic][e.partition];
      if end > sh.log.committed {
        return if sh.log.commitErr then Rejected else Blocked(rec, end);
      }
      var sh' := sh.(log := Wal.Next(env.cfg, sh.log, Return(rec, end)));
      topics := SetShard(topics, e.topic, e.partition, Remember(env, sh', rec));
      return Applied(rec.msgID);
    }
  }

  // ---- The high-water mark as a maximum ----

  ghost predicate IsMax(n: nat, s: set<nat>) { n in s && forall i :: i in s ==> i <= n }

  lemma IsMaxUnion(n: nat, s: set<nat>, more: set<nat>, n': nat)
    requires IsMax(n, s) && IsMax(n', {n} + more)
    ensures IsMax(n', s + more)
  {
  }

  lemma IsMaxOf(n: nat, s: set<nat>)
    requires IsMax(n, {0} + s)
    ensures n == MaxOf(s)
  {
    var m := MaxOf(s);
    if s == {} {
      assert {0} + s == {0};
    } else {
      assert m in {0} + s;
    }
  }

  lemma KeysSnoc(rs: seq<Record>, r: Record)
    ensures Keys(rs + [r]) == Keys(rs) + [r.key] && Keys(rs + [r])[..|rs|] == Keys(rs)
    ensures RaftIndexes(rs + [r]) == RaftIndexes(rs) + {r.raftIndex as nat}
  {
    assert (rs + [r])[|rs|] == r;
    forall q | q in rs + [r] ensures q in rs || q == r {
    }
    forall q | q in rs ensures q in rs + [r] {
      var i :| 0 <= i < |rs| && rs[i] == q;
      assert (rs + [r])[i] == q;
    }
  }

  lemma NothingVisited(cap: int, start: nat, rs: seq<Record>)
    ensures IsMax(start, {start} + RaftIndexes(rs[..0])) && Dedupe.Rebuild(cap, Keys(rs[..0]), 0) == []
  {
  }

  lemma VisitOneMore(cap: int, start: nat, rs: seq<Record>, i: nat, mark: nat)
    requires i < |rs| && IsMax(mark, {start} + RaftIndexes(rs[..i]))
    ensures IsMax(Max(mark, rs[i].raftIndex), {start} + RaftIndexes(rs[..i + 1]))
    ensures var lru := Dedupe.Rebuild(cap, Keys(rs[..i]), 0);
            Dedupe.Rebuild(cap, Keys(rs[..i + 1]), 0)
            == if rs[i].key == [] then lru else Dedupe.Put(lru, cap, rs[i].key, i)
  {
    hide Dedupe.Put;
    assert rs[..i + 1] == rs[..i] + [rs[i]];
    KeysSnoc(rs[..i], rs[i]);
  }

  lemma {:induction false} EmptyIndexes(n: nat)
    ensures PartIndexes(seq(n, _ => EMPTY)) == {}
  {
    if n > 0 {
      EmptyIndexes(n - 1);
      EmptyRetains();
      var logs := seq(n, _ => EMPTY);
      assert logs[..n - 1] == seq(n - 1, _ => EMPTY);
    }
  }

  lemma EmptyParts(cap: int, n: nat)
    ensures OpenedParts(cap, seq(n, _ => EMPTY)) == seq(n, _ => Shard(EMPTY, []))
    ensures PartIndexes(seq(n, _ => EMPTY)) == PartIndexes([]) == {}
  {
    EmptyRetains();
    EmptyIndexes(n);
  }

  lemma EmptyNumbered()
    ensures Numbered(EMPTY)
  {
    EmptyRetains();
  }

  lemma {:induction false} PartIndexesAre(logs: seq<State>, i: nat)
    ensures i in PartIndexes(logs)
       <==> exists p, k :: 0 <= p < |logs| && 0 <= k < |Retained(logs[p])| && Retained(logs[p])[k].raftIndex == i
  {
    hide Retained;
    if logs != [] {
      PartIndexesAre(logs[..|logs| - 1], i);
    }
  }

  lemma IndexFrom(m: Logs, i: nat) returns (t: Name, p: nat, k: nat)
    requires i in Indexes(m)
    ensures t in m && p < |m[t]| && k < |m[t][p]| && m[t][p][k].raftIndex == i
  {
    t, p, k :| t in m && 0 <= p < |m[t]| && 0 <= k < |m[t][p]| && m[t][p][k].raftIndex as nat == i;
  }

  lemma IndexInto(m: Logs, t: Name, p: nat, k: nat)
    requires t in m && p < |m[t]| && k < |m[t][p]|
    ensures m[t][p][k].raftIndex as nat in Indexes(m)
  {
  }

  lemma IndexesOfOneMore(cap: int, topics: Topics, t: Name, logs: seq<State>)
    requires t !in topics
    ensures Indexes(View(topics[t := OpenedParts(cap, logs)])) == Indexes(View(topics)) + PartIndexes(logs)
  {
    hide Retained, PartIndexes, Dedupe.Rebuild, Indexes, View;
    var after: Topics := topics[t := OpenedParts(cap, logs)];
    var m, m' := View(topics), View(after);
    assert forall u, p :: u in m && 0 <= p < |m[u]| ==> m'[u][p] == m[u][p];
    forall i | i in Indexes(m') ensures i in Indexes(m) + PartIndexes(logs) {
      var u, p, k := IndexFrom(m', i);
      if u == t {
        assert m'[u][p] == Retained(logs[p]);
        PartIndexesAre(logs, i);
      } else {
        IndexInto(m, u, p, k);
      }
    }
    forall i | i in Indexes(m) ensures i in Indexes(m') {
      var u, p, k := IndexFrom(m, i);
      IndexInto(m', u, p, k);
    }
    forall i | i in PartIndexes(logs) ensures i in Indexes(m') {
      PartIndexesAre(logs, i);
      var p, k :| 0 <= p < |logs| && 0 <= k < |Retained(logs[p])| && Retained(logs[p])[k].raftIndex == i;
      IndexInto(m', t, p, k);
    }
  }

  lemma MarkOneMore(cap: int, topics: Topics, t: Name, logs: seq<State>, mark: nat, mark': nat)
    requires t !in topics && IsMax(mark, {0} + Indexes(View(topics))) && IsMax(mark', {mark} + PartIndexes(logs))
    ensures IsMax(mark', {0} + Indexes(View(topics[t := OpenedParts(cap, logs)])))
  {
    hide Indexes, View, PartIndexes, IsMax;
    var m := Indexes(View(topics));
    IndexesOfOneMore(cap, topics, t, logs);
    IsMaxUnion(mark, {0} + m, PartIndexes(logs), mark');
    assert {0} + m + PartIndexes(logs) == {0} + (m + PartIndexes(logs));
  }

  // ---- The topics opened so far ----

  function Listed(disk: Disk, names: seq<Name>): Disk { map t | t in disk && t in names :: disk[t] }

  lemma NothingListed(cap: int, disk: Disk, names: seq<Name>)
    ensures OpenedAll(cap, Listed(disk, names[..0])) == map[]
    ensures IsMax(0, {0} + Indexes(View(map[])))
  {
  }

  lemma AllListed(disk: Disk, names: seq<Name>)
    requires forall t :: t in names <==> t in disk
    ensures Listed(disk, names[..|names|]) == disk
  {
    assert names[..|names|] == names;
  }

  lemma ListedOneMore(cap: int, disk: Disk, names: seq<Name>, i: nat)
    requires (forall t :: t in names <==> t in disk) && i < |names|
    requires forall j, k :: 0 <= j < k < |names| ==> names[j] != names[k]
    ensures names[i] in disk && names[i] !in OpenedAll(cap, Listed(disk, names[..i]))
    ensures OpenedAll(cap, Listed(disk, names[..i + 1]))
         == OpenedAll(cap, Listed(disk, names[..i]))[names[i] := OpenedParts(cap, disk[names[i]])]
  {
    hide OpenedParts;
    assert names[i] in names;
    assert names[..i + 1] == names[..i] + [names[i]];
  }

  // ---- Opening the data directory after a power loss is the machine's crash step ----

  function Left(topics: Topics, keep: Remains): Disk
    requires Possible(topics, keep)
  {
    map t | t in topics ::
      seq(|topics[t]|, p requires 0 <= p < |topics[t]| => PowerLossStep(topics[t][p].log, keep[t][p]))
  }

  lemma ReopenIsCrash(env: Env, x: World, keep: Remains)
    requires Possible(x.topics, keep) && (forall t :: t in x.topics ==> x.topics[t] != [])
    requires forall t, p :: t in x.topics && 0 <= p < |x.topics[t]| ==> LogSound(env.cfg, x.topics[t][p].log)
    ensures var disk := Left(x.topics, keep);
            && DiskOk(disk)
            && CrashStep(env, x, keep)
               == World(OpenedAll(env.cap, disk), MaxOf(Indexes(View(OpenedAll(env.cap, disk)))), 0, Ready)
  {
    hide LogSound, PowerLossStep, Survivable, Retained, View, Indexes, Dedupe.Rebuild;
    var disk := Left(x.topics, keep);
    forall t, p | t in disk && 0 <= p < |disk[t]| ensures Numbered(disk[t][p]) {
      CrashSound(env.cfg, x.topics[t][p].log, keep[t][p]);
      LogDense(env.cfg, disk[t][p]);
    }
    forall t | t in disk ensures OpenedAll(env.cap, disk)[t] == RecoverAll(env.cap, x.topics, keep)[t] {
    }
    assert OpenedAll(env.cap, disk) == RecoverAll(env.cap, x.topics, keep);
  }

  lemma {:induction false} SpecCounts(default: int, log: RaftLog, n: nat, t: Name)
    requires n <= |log| && t in Spec(default, log, n)
    ensures Spec(default, log, n)[t] != []
  {
    hide Writes;
    if n > 0 {
      var m, e := Spec(default, log, n - 1), log[n - 1];
      WritesRange(Ensure(default, m, e.topic, 0), e);
      if t in m {
        SpecCounts(default, log, n - 1, t);
      } else {
        CountIs(default, m, e, n);
      }
    }
  }

  /** The partitions as the power loss finds them, between steps or inside an append. */
  function Struck(env: Env, log: RaftLog, x: World, step: Replay.Step): Topics {
    if step.Dies? && Appends(log, x) then MidAppend(env, log, x, step.io) else x.topics
  }

  lemma TopicsHaveParts(default: int, log: RaftLog, n: nat, topics: Topics)
    requires n <= |log| && TopicsOk(default, log, n, View(topics))
    ensures forall t :: t in topics ==> topics[t] != []
  {
    hide Spec, View;
    forall t | t in topics ensures topics[t] != [] {
      assert t in View(topics);
      SpecCounts(default, log, |log|, t);
    }
  }

  /**
   * After any run, whatever failed in it: opening what a power loss left, wherever it struck, is the restart of
   * the replay machine.
   */
  lemma ReopenAfterAnyRun(env: Env, log: RaftLog, steps: seq<Replay.Step>, step: Replay.Step)
    requires env.cfg.mode != NoSync && Fails(env, log, Replay.Run(env, log, steps), step)
    ensures var x := Replay.Run(env, log, steps);
            var disk := Left(Struck(env, log, x, step), step.keep);
            && DiskOk(disk)
            && Replay.Next(env, log, x, step)
               == World(OpenedAll(env.cap, disk), MaxOf(Indexes(View(OpenedAll(env.cap, disk)))), 0, Ready)
  {
    hide Replay.Run, Possible, LogsOk, LogSound, TopicsOk, Indexes, CrashStep, OpenedAll, Left, DiskOk, View;
    hide MidAppend, Appends;
    var x := Replay.Run(env, log, steps);
    var n := AnyRunKeeps(env, log, steps);
    if step.Dies? { MidAppendWeak(env, log, x, n, step.io); }
    var topics := Struck(env, log, x, step);
    TopicsHaveParts(env.defaultPartitions, log, n, topics);
    ReopenIsCrash(env, x.(topics := topics), step.keep);
  }
}
