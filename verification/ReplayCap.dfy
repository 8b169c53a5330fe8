/**
 * Replay with a dedupe index that may be too small. A node whose index is full answers as one with room for every
 * key does, as long as each repeated key is among the last cap keys used; a restart forgets the uses that left no
 * record. So every result for the roomy node carries over exactly as far as that condition holds.
 */
module ReplayCap {
  import opened Codec
  import opened Wal
  import opened WalTheorems
  import WalShape
  import opened ReplaySpec
  import opened Shards
  import opened Replay
  import opened ReplayFailures
  import opened ReplayExact
  import opened ReplayKills
  import Dedupe

  // ---- Which keys a node remembers ----

  /** The records of one partition, none if it does not exist. */
  function Part(m: Logs, t: Name, p: int): seq<Record> { if t in m && 0 <= p < |m[t]| then m[t][p] else [] }

  /** Fewer than cap other keys of v were used after the last use of key. */
  ghost predicate Remembers(cap: int, v: seq<Dedupe.Key>, key: Dedupe.Key) {
    exists id: nat :: Dedupe.Latest(v, key, id) && |Dedupe.KeysAfter(v, id)| < cap
  }

  predicate Names(e: Command, t: Name, p: int) { e.Pub? && e.topic == t && e.partition == p && e.key != [] }

  /**
   * The uses of keys in one partition, oldest first, as a node at cursor c knows them that last restarted over the
   * records rs with mark h: the records, then every publish above the mark. One too large to log counts only if it
   * is answered as a duplicate.
   */
  ghost function Uses(cap: int, log: RaftLog, t: Name, p: int, rs: seq<Record>, h: nat, c: nat): seq<Dedupe.Key>
    requires c <= |log|
  {
    if c <= h then Keys(rs) else
    var v, e := Uses(cap, log, t, p, rs, h, c - 1), log[c - 1];
    if Names(e, t, p) && (Fits(e) || Remembers(cap, v, e.key)) then v + [e.key] else v
  }

  /** A node that restarted over m with mark hw takes command i for new although its key is in the log. */
  ghost predicate Forgets(env: Env, log: RaftLog, m: Logs, hw: nat, i: nat)
    requires i < |log|
  {
    && log[i].Pub? && Fits(log[i])
    && var t, p, key := log[i].topic, log[i].partition, log[i].key;
       && Known(Part(Fold(env.defaultPartitions, log, m, hw, i), t, p), key)
       && !Remembers(env.cap, Uses(env.cap, log, t, p, Part(m, t, p), hw, i), key)
  }

  ghost predicate Suffices(env: Env, log: RaftLog, m: Logs, hw: nat, b: nat)
    requires b <= |log|
  {
    forall i :: hw <= i < b ==> !Forgets(env, log, m, hw, i)
  }

  // ---- The list and the uses ----

  lemma RemembersIff(cap: int, v: seq<Dedupe.Key>, key: Dedupe.Key)
    requires key != []
    ensures Remembers(cap, v, key) <==> Dedupe.Has(Dedupe.Rebuild(cap, v, 0), key)
  {
    hide Dedupe.Rebuild, Dedupe.Pos, Dedupe.KeysAfter;
    var l := Dedupe.Rebuild(cap, v, 0);
    Dedupe.RebuildLatest(cap, v, 0);
    if Dedupe.Has(l, key) {
      var e := l[Dedupe.Pos(l, key)];
      assert e in l;
      Dedupe.RebuiltHoldsIff(cap, v, key, e.msgID);
    }
    if Remembers(cap, v, key) {
      var id: nat :| Dedupe.Latest(v, key, id) && |Dedupe.KeysAfter(v, id)| < cap;
      Dedupe.RebuiltHoldsIff(cap, v, key, id);
      var j :| 0 <= j < |l| && l[j] == Dedupe.Entry(key, id);
      Dedupe.HasAt(l, j);
    }
  }

  predicate SameKeys(a: seq<Dedupe.Entry>, b: seq<Dedupe.Entry>) {
    |a| == |b| && forall i :: 0 <= i < |a| ==> a[i].key == b[i].key
  }

  lemma SamePos(a: seq<Dedupe.Entry>, b: seq<Dedupe.Entry>, key: Dedupe.Key)
    requires SameKeys(a, b)
    ensures Dedupe.Pos(a, key) == Dedupe.Pos(b, key)
  {
    hide Dedupe.Pos;
  }

  lemma PutSame(a: seq<Dedupe.Entry>, b: seq<Dedupe.Entry>, cap: int, key: Dedupe.Key, i: nat, j: nat)
    requires SameKeys(a, b)
    ensures SameKeys(Dedupe.Put(a, cap, key, i), Dedupe.Put(b, cap, key, j))
  {
    hide Dedupe.Pos, Dedupe.RemoveAt;
    SamePos(a, b, key);
  }

  lemma BumpIsPut(a: seq<Dedupe.Entry>, cap: int, key: Dedupe.Key, i: nat)
    requires Dedupe.Has(a, key)
    ensures SameKeys(Dedupe.Bump(a, key), Dedupe.Put(a, cap, key, i))
  {
    hide Dedupe.Pos, Dedupe.Without;
  }

  /** The index holds the keys that rebuilding from the uses v would give it, in that order. */
  ghost predicate Holding(cap: int, l: seq<Dedupe.Entry>, v: seq<Dedupe.Key>) {
    SameKeys(l, Dedupe.Rebuild(cap, v, 0))
  }

  lemma HoldingHas(cap: int, l: seq<Dedupe.Entry>, v: seq<Dedupe.Key>, key: Dedupe.Key)
    requires Holding(cap, l, v) && key != []
    ensures Dedupe.Has(l, key) <==> Remembers(cap, v, key)
  {
    hide Dedupe.Rebuild, Dedupe.Pos, Remembers, SameKeys;
    RemembersIff(cap, v, key);
    SamePos(l, Dedupe.Rebuild(cap, v, 0), key);
    assert |l| == |Dedupe.Rebuild(cap, v, 0)| by { SameLength(l, Dedupe.Rebuild(cap, v, 0)); }
  }

  lemma SameLength(a: seq<Dedupe.Entry>, b: seq<Dedupe.Entry>)
    requires SameKeys(a, b)
    ensures |a| == |b|
  {
  }

  lemma HoldingPut(cap: int, l: seq<Dedupe.Entry>, v: seq<Dedupe.Key>, key: Dedupe.Key, id: nat)
    requires Holding(cap, l, v) && key != []
    ensures Holding(cap, Dedupe.Put(l, cap, key, id), v + [key])
  {
    hide Dedupe.Rebuild, Dedupe.Put, SameKeys;
    Dedupe.RebuildSnoc(cap, v, key);
    PutSame(l, Dedupe.Rebuild(cap, v, 0), cap, key, id, |v|);
  }

  lemma HoldingBump(cap: int, l: seq<Dedupe.Entry>, v: seq<Dedupe.Key>, key: Dedupe.Key)
    requires Holding(cap, l, v) && key != [] && Dedupe.Has(l, key)
    ensures Holding(cap, Dedupe.Bump(l, key), v + [key])
  {
    hide Dedupe.Rebuild, Dedupe.Put, Dedupe.Bump, Dedupe.Pos;
    HoldingPut(cap, l, v, key, 0);
    BumpIsPut(l, cap, key, 0);
  }

  // ---- Worlds with the same logs ----

  ghost predicate SameLogs(a: Topics, b: Topics) {
    && a.Keys == b.Keys && (forall t :: t in a ==> |a[t]| == |b[t]|)
    && (forall t, p :: t in a && 0 <= p < |a[t]| ==> a[t][p].log == b[t][p].log)
  }

  /** The worlds differ in their dedupe indexes only. */
  ghost predicate Same(x: World, y: World) {
    x.hw == y.hw && x.cursor == y.cursor && x.phase == y.phase && SameLogs(x.topics, y.topics)
  }

  lemma SameLogsView(a: Topics, b: Topics)
    requires SameLogs(a, b)
    ensures View(a) == View(b)
  {
    hide Retained;
    SameView(a, b);
  }

  lemma SameTarget(log: RaftLog, x: World, y: World)
    requires Same(x, y)
    ensures Routable(log, x) <==> Routable(log, y)
    ensures Routable(log, x) ==> Target(log, x).log == Target(log, y).log
  {
  }

  lemma SetSame(log: RaftLog, x: World, y: World, a: Shard, b: Shard)
    requires Same(x, y) && Routable(log, x) && Routable(log, y) && a.log == b.log
    ensures Same(SetTarget(log, x, a), SetTarget(log, y, b))
  {
  }

  lemma BeginSame(env: Env, cap: int, log: RaftLog, x: World, y: World)
    requires Same(x, y)
    ensures Same(BeginStep(env, log, x), BeginStep(env.(cap := cap), log, y))
  {
    hide CountFor;
  }

  lemma CommitterSame(env: Env, cap: int, x: World, y: World, t: Name, p: nat, step: Wal.Step)
    requires Same(x, y)
    ensures Same(CommitterStep(env, x, t, p, step), CommitterStep(env.(cap := cap), y, t, p, step))
  {
    hide Wal.Next;
  }

  lemma FinishSame(env: Env, cap: int, log: RaftLog, x: World, y: World)
    requires Same(x, y)
    ensures Same(FinishStep(env, log, x), FinishStep(env.(cap := cap), log, y))
  {
    hide Wal.Next, Dedupe.Put, SetTarget, Target;
    SameTarget(log, x, y);
    if x.phase.Waiting? && Routable(log, x) {
      var e' := env.(cap := cap);
      var s := Wal.Next(env.cfg, Target(log, x).log, Return(x.phase.rec, x.phase.end));
      var a, b := Target(log, x).(log := s), Target(log, y).(log := s);
      SetSame(log, x, y, Remember(env, a, x.phase.rec), Remember(e', b, x.phase.rec));
    }
  }

  predicate Hit(log: RaftLog, x: World)
    requires Routable(log, x)
  {
    log[x.cursor].key != [] && Dedupe.Has(Target(log, x).lru, log[x.cursor].key)
  }

  lemma PublishHit(env: Env, log: RaftLog, x: World, io: Io)
    requires x.phase.Routed? && Routable(log, x) && Hit(log, x)
    ensures var sh := Target(log, x);
            PublishStep(env, log, x, io)
            == Advance(SetTarget(log, x, sh.(lru := Dedupe.Bump(sh.lru, log[x.cursor].key))))
  {
    hide AppendStep, Dedupe.Pos, Dedupe.Bump, Dedupe.Put, Refused, AppendErrs;
  }

  /** What a publish that is not a duplicate leaves. */
  function Missed(env: Env, log: RaftLog, x: World, io: Io): World
    requires Routable(log, x)
  {
    var sh, rec := Target(log, x), Stamp(log[x.cursor], x.cursor + 1, 0);
    var sh' := sh.(log := AppendStep(env.cfg, sh.log, rec, io));
    if Refused(sh.log, rec) || AppendErrs(env.cfg, sh.log, rec, io) then Advance(SetTarget(log, x, sh')) else
    var r := rec.(msgID := sh.log.next);
    if env.cfg.mode == Batched then SetTarget(log, x, sh').(phase := Waiting(r, sh'.log.written))
    else Advance(SetTarget(log, x, Remember(env, sh', r)))
  }

  lemma PublishMiss(env: Env, log: RaftLog, x: World, io: Io)
    requires x.phase.Routed? && Routable(log, x) && !Hit(log, x)
    ensures PublishStep(env, log, x, io) == Missed(env, log, x, io)
  {
    hide AppendStep, Dedupe.Pos, Dedupe.Bump, Dedupe.Put, Encodable, MustRotate, SetTarget, Target;
  }

  lemma MissedSame(env: Env, cap: int, log: RaftLog, x: World, y: World, io: Io)
    requires Same(x, y) && Routable(log, x) && Routable(log, y)
    ensures Same(Missed(env, log, x, io), Missed(env.(cap := cap), log, y, io))
  {
    hide AppendStep, Dedupe.Put, Encodable, MustRotate, SetTarget, Target;
    SameTarget(log, x, y);
    var e', rec := env.(cap := cap), Stamp(log[x.cursor], x.cursor + 1, 0);
    var s := AppendStep(env.cfg, Target(log, x).log, rec, io);
    var a, b := Target(log, x).(log := s), Target(log, y).(log := s);
    var r := rec.(msgID := if Target(log, x).log.next < U64 then Target(log, x).log.next else 0);
    SetSame(log, x, y, a, b);
    SetSame(log, x, y, Remember(env, a, r), Remember(e', b, r));
  }

  /** A publish the log refuses leaves the same logs as a duplicate. */
  lemma MissedRefused(env: Env, log: RaftLog, x: World, io: Io)
    requires Routable(log, x) && Refused(Target(log, x).log, Stamp(log[x.cursor], x.cursor + 1, 0))
    ensures Missed(env, log, x, io) == Advance(x)
  {
    hide Encodable;
    var e, sh := log[x.cursor], Target(log, x);
    assert AppendStep(env.cfg, sh.log, Stamp(e, x.cursor + 1, 0), io) == sh.log;
    assert x.topics[e.topic][e.partition := sh] == x.topics[e.topic];
  }

  lemma SetSelf(log: RaftLog, x: World, y: World, b: Shard)
    requires Same(x, y) && Routable(log, y) && b.log == Target(log, y).log
    ensures Same(x, SetTarget(log, y, b))
  {
  }

  /** The two nodes take the publish alike, or the log refuses what one takes for a duplicate. */
  ghost predicate SameAnswer(log: RaftLog, x: World, y: World)
    requires Routable(log, x) && Routable(log, y)
  {
    || (Hit(log, x) <==> Hit(log, y))
    || (Hit(log, y) && Refused(Target(log, x).log, Stamp(log[x.cursor], x.cursor + 1, 0)))
  }

  lemma PublishSame(env: Env, cap: int, log: RaftLog, x: World, y: World, io: Io)
    requires Same(x, y) && (x.phase.Routed? && Routable(log, x) && Routable(log, y) ==> SameAnswer(log, x, y))
    ensures Same(PublishStep(env, log, x, io), PublishStep(env.(cap := cap), log, y, io))
  {
    SameTarget(log, x, y);
    if x.phase.Routed? && Routable(log, x) {
      hide PublishStep, Missed, Dedupe.Bump, Dedupe.Pos, SetTarget, Target, Refused, Hit;
      var a, b, key := Target(log, x), Target(log, y), log[x.cursor].key;
      var a', b' := a.(lru := Dedupe.Bump(a.lru, key)), b.(lru := Dedupe.Bump(b.lru, key));
      if !Hit(log, y) {
        PublishMiss(env, log, x, io);
        PublishMiss(env.(cap := cap), log, y, io);
        MissedSame(env, cap, log, x, y, io);
      } else {
        PublishHit(env.(cap := cap), log, y, io);
        if Hit(log, x) {
          PublishHit(env, log, x, io);
          SetSame(log, x, y, a', b');
        } else {
          PublishMiss(env, log, x, io);
          MissedRefused(env, log, x, io);
          SetSelf(log, x, y, b');
        }
      }
    }
  }

  // ---- Deaths of both ----

  lemma RecoverSame(cap: int, cap': int, a: Topics, b: Topics, keep: Remains)
    requires SameLogs(a, b)
    ensures Possible(a, keep) <==> Possible(b, keep)
    ensures Possible(a, keep) ==> SameLogs(RecoverAll(cap, a, keep), RecoverAll(cap', b, keep))
  {
    hide PowerLossStep, Survivable, Retained, Dedupe.Rebuild;
  }

  lemma KillSame(cap: int, cap': int, a: Topics, b: Topics)
    requires SameLogs(a, b)
    ensures SameLogs(KillAll(cap, a), KillAll(cap', b))
  {
    hide KillStep, Retained, Dedupe.Rebuild;
  }

  lemma RestartSame(a: Topics, b: Topics)
    requires SameLogs(a, b)
    ensures Same(Restart(a), Restart(b))
  {
    hide View, MaxOf, Indexes, SameLogs;
    SameLogsView(a, b);
  }

  lemma MidSame(env: Env, cap: int, log: RaftLog, x: World, y: World, io: Io)
    requires Same(x, y) && Appends(log, x) && Appends(log, y)
    ensures SameLogs(MidAppend(env, log, x, io), MidAppend(env.(cap := cap), log, y, io))
  {
    hide AppendStep, Dedupe.Pos;
  }

  lemma MidRefused(env: Env, log: RaftLog, x: World, io: Io)
    requires Appends(log, x) && Refused(Target(log, x).log, Stamp(log[x.cursor], x.cursor + 1, 0))
    ensures MidAppend(env, log, x, io) == x.topics
  {
    hide Encodable, Dedupe.Pos;
    var e, sh := log[x.cursor], Target(log, x);
    assert AppendStep(env.cfg, sh.log, Stamp(e, x.cursor + 1, 0), io) == sh.log;
    assert x.topics[e.topic][e.partition := sh] == x.topics[e.topic];
  }

  // ---- Uses and records ----

  lemma {:induction false} IndexAbove(log: RaftLog, n: nat, t: Name, p: nat, rs: seq<Record>, k: nat)
    requires PartitionOk(log, n, t, p, rs) && k < |rs|
    ensures k < rs[k].raftIndex <= n <= |log|
  {
    assert RecordOk(log, n, t, p, k, rs[k]);
    if k > 0 { IndexAbove(log, n, t, p, rs, k - 1); }
  }

  lemma NotFull(log: RaftLog, n: nat, t: Name, p: nat, rs: seq<Record>)
    requires PartitionOk(log, n, t, p, rs)
    ensures |rs| < U64
  {
    if rs != [] { IndexAbove(log, n, t, p, rs, |rs| - 1); }
  }

  lemma PartEnsure(default: int, m: Logs, u: Name, want: int, t: Name, p: int)
    ensures Part(Ensure(default, m, u, want), t, p) == Part(m, t, p)
  {
  }

  lemma PartGrows(m: Logs, m': Logs, t: Name, p: int)
    requires Grows(m, m')
    ensures Part(m, t, p) <= Part(m', t, p)
  {
  }

  lemma KnownGrows(a: seq<Record>, b: seq<Record>, key: Dedupe.Key)
    requires Known(a, key) && a <= b
    ensures Known(b, key)
  {
    var k :| 0 <= k < |a| && a[k].key == key;
    assert b[k].key == key;
  }

  lemma FoldGrows(default: int, log: RaftLog, m: Logs, hw: nat, c: nat)
    requires c < |log|
    ensures Grows(Fold(default, log, m, hw, c), Fold(default, log, m, hw, c + 1))
  {
    hide SpecApply;
    FoldStep(default, log, m, hw, c);
    ApplyGrows(default, Fold(default, log, m, hw, c), log[c], c + 1);
  }

  lemma ApplyTopics(default: int, log: RaftLog, n: nat, m: Logs, c: nat)
    requires c <= n <= |log| && c < |log| && TopicsOk(default, log, n, m)
    ensures TopicsOk(default, log, Max(n, c + 1), SpecApply(default, m, log[c], c + 1))
  {
    hide TopicsOk, Writes, Ensure;
    var e := log[c];
    OpenTopics(default, log, n, m, c);
    var m1 := Ensure(default, m, e.topic, if e.Create? then e.partitions else 0);
    WritesRange(m1, e);
    if Writes(m1, e) {
      var rs := m1[e.topic][e.partition];
      TopicsSet(default, log, Max(n, c + 1), m1, e.topic, e.partition, rs + [Stamp(e, c + 1, |rs|)]);
    }
  }

  lemma {:induction false} FoldTopics(default: int, log: RaftLog, m: Logs, hw: nat, c: nat)
    requires hw <= |log| && c <= |log| && TopicsOk(default, log, hw, m)
    ensures TopicsOk(default, log, Max(hw, c), Fold(default, log, m, hw, c))
  {
    hide TopicsOk, SpecApply;
    if c > 0 {
      FoldTopics(default, log, m, hw, c - 1);
      var v := Fold(default, log, m, hw, c - 1);
      ApplyTopics(default, log, Max(hw, c - 1), v, c - 1);
    }
  }

  /** A publish that fits leaves its key in the log of its partition. */
  lemma ApplyKnows(default: int, log: RaftLog, n: nat, m: Logs, c: nat, t: Name, p: nat)
    requires c < |log| && LogsOk(log, n, m) && Names(log[c], t, p) && Fits(log[c])
    requires var m1 := Ensure(default, m, t, 0); p < |m1[t]|
    ensures Known(Part(SpecApply(default, m, log[c], c + 1), t, p), log[c].key)
  {
    hide PartitionOk, Encodable;
    var e, m1: Logs, m': Logs := log[c], Ensure(default, m, t, 0), SpecApply(default, m, log[c], c + 1);
    var rs := m1[t][p];
    assert |rs| < U64 by { if t in m { assert PartitionOk(log, n, t, p, m[t][p]); NotFull(log, n, t, p, rs); } }
    if Writes(m1, e) {
      assert m'[t][p][|rs|].key == e.key;
    } else {
      assert m' == m1;
    }
  }

  /** Every use names a key in the log. */
  lemma {:induction false} UsesKnown(env: Env, log: RaftLog, m: Logs, hw: nat, t: Name, p: nat, c: nat, j: nat)
    requires hw <= |log| && c <= |log| && LogsOk(log, hw, m) && TopicsOk(env.defaultPartitions, log, hw, m)
    requires var full := Spec(env.defaultPartitions, log, |log|); t in full && p < |full[t]|
    requires var v := Uses(env.cap, log, t, p, Part(m, t, p), hw, c); j < |v| && v[j] != []
    ensures Known(Part(Fold(env.defaultPartitions, log, m, hw, c), t, p),
                  Uses(env.cap, log, t, p, Part(m, t, p), hw, c)[j])
    decreases c, j
  {
    hide LogsOk, TopicsOk, Spec, Fold, Remembers, Fits, Known, Part, SpecApply, Ensure;
    var d, key := env.defaultPartitions, Uses(env.cap, log, t, p, Part(m, t, p), hw, c)[j];
    if c <= hw {
      KnownAt(Part(m, t, p), j);
      FoldFrom(d, log, m, hw, c, t, p);
      KnownGrows(Part(m, t, p), Part(Fold(d, log, m, hw, c), t, p), key);
    } else {
      var v, e := Uses(env.cap, log, t, p, Part(m, t, p), hw, c - 1), log[c - 1];
      var f := Fold(d, log, m, hw, c - 1);
      FoldGrows(d, log, m, hw, c - 1);
      PartGrows(f, Fold(d, log, m, hw, c), t, p);
      if j < |v| || Remembers(env.cap, v, e.key) {
        var i := if j < |v| then j else Used(env.cap, v, e.key);
        UsesKnown(env, log, m, hw, t, p, c - 1, i);
        KnownGrows(Part(f, t, p), Part(Fold(d, log, m, hw, c), t, p), key);
      } else {
        FoldOk(d, log, m, hw, c - 1);
        FoldTopics(d, log, m, hw, c - 1);
        FoldStep(d, log, m, hw, c - 1);
        InRange(d, log, Max(hw, c - 1), f, c - 1, t, p);
        ApplyKnows(d, log, Max(hw, c - 1), f, c - 1, t, p);
      }
    }
  }

  ghost function Used(cap: int, v: seq<Dedupe.Key>, key: Dedupe.Key): (i: nat)
    requires Remembers(cap, v, key)
    ensures i < |v| && v[i] == key != []
  {
    var id: nat :| Dedupe.Latest(v, key, id) && |Dedupe.KeysAfter(v, id)| < cap;
    id
  }

  lemma InRange(default: int, log: RaftLog, n: nat, m: Logs, c: nat, t: Name, p: nat)
    requires c <= n <= |log| && c < |log| && TopicsOk(default, log, n, m) && log[c].Pub? && log[c].topic == t
    requires var full := Spec(default, log, |log|); t in full && p < |full[t]|
    ensures var m1 := Ensure(default, m, t, 0); p < |m1[t]|
  {
    hide Spec;
    OpenTopics(default, log, n, m, c);
  }

  lemma {:induction false} FoldFrom(default: int, log: RaftLog, m: Logs, hw: nat, c: nat, t: Name, p: int)
    requires c <= |log|
    ensures Part(m, t, p) <= Part(Fold(default, log, m, hw, c), t, p)
  {
    hide Part, Grows;
    if c > 0 {
      FoldFrom(default, log, m, hw, c - 1, t, p);
      FoldGrows(default, log, m, hw, c - 1);
      PartGrows(Fold(default, log, m, hw, c - 1), Fold(default, log, m, hw, c), t, p);
    }
  }

  // ---- The uninterrupted run as a base ----

  lemma SpecTopicsOk(default: int, log: RaftLog, h: nat)
    requires h <= |log|
    ensures TopicsOk(default, log, h, Spec(default, log, h))
  {
    hide Spec;
    SpecGrows(default, log, h, |log|);
    forall j | 0 <= j < h ensures log[j].topic in Spec(default, log, h) {
      AppliedOrInert(default, log, j, h);
    }
  }

  /** Replaying over the logs of the uninterrupted run goes on as that run does. */
  lemma {:induction false} FoldOfSpec(default: int, log: RaftLog, h: nat, c: nat)
    requires h <= |log| && c <= |log|
    ensures Fold(default, log, Spec(default, log, h), h, c) == Spec(default, log, Max(h, c))
  {
    hide Spec, SpecApply, Fold;
    if c <= h {
      SpecTopicsOk(default, log, h);
      FoldBelow(default, log, Spec(default, log, h), h, c);
    } else {
      FoldOfSpec(default, log, h, c - 1);
      FoldStep(default, log, Spec(default, log, h), h, c - 1);
      SpecStep(default, log, c - 1);
    }
  }

  /** Logs that reflect n commands, none logged above the mark, hold what the run had after any i from the mark on. */
  lemma PartAt(env: Env, log: RaftLog, m: Logs, n: nat, h: nat, i: nat, t: Name, p: int)
    requires h <= i <= n <= |log| && Reflects(env, log, m, n) && (i < n ==> NoneAbove(m, h))
    ensures Part(m, t, p) == Part(Spec(env.defaultPartitions, log, i), t, p)
  {
    hide Spec, Ensure, Indexes, NoneAbove, LogsOk;
    var d := env.defaultPartitions;
    var a: Logs, b: Logs := Spec(d, log, n), Spec(d, log, i);
    if n < |log| { PartEnsure(d, a, log[n].topic, 0, t, p); }
    if i < n {
      ReflectsOk(env, log, m, n);
      SameIndexesAt(d, log, m, h, i, n);
      SpecOk(d, log, i);
      SpecOk(d, log, n);
      LogsOkLater(log, i, n, b);
      SpecGrows(d, log, i, n);
      if t in b && 0 <= p < |b[t]| {
        GrowsCount(b, a, t);
        SameRecords(log, n, a, b, t, p);
      } else if t in a && 0 <= p < |a[t]| {
        if t in b { GrowsCount(b, a, t); }
        ExtraIsEmpty(log, n, a, b, t, p);
      }
    }
  }

  lemma SameIndexesAt(default: int, log: RaftLog, m: Logs, h: nat, i: nat, n: nat)
    requires h <= i <= n <= |log| && NoneAbove(m, h) && Indexes(m) == Indexes(Spec(default, log, n))
    ensures Indexes(Spec(default, log, n)) == Indexes(Spec(default, log, i))
  {
    hide Spec, Indexes;
    SpecKeepsLow(default, log, i, n);
    assert Low(Spec(default, log, n), i) == Indexes(Spec(default, log, n));
  }

  // ---- The roomy node ----

  function Roomy(env: Env, log: RaftLog): Env { env.(cap := |log|) }

  lemma {:induction false} FewKeys(log: seq<Command>, ks: set<Dedupe.Key>)
    requires forall k :: k in ks ==> exists i :: 0 <= i < |log| && log[i].Pub? && log[i].key == k
    ensures |ks| <= |log|
  {
    if log == [] {
      assert ks == {};
    } else {
      var init, e := log[..|log| - 1], log[|log| - 1];
      var rest := if e.Pub? then ks - {e.key} else ks;
      forall k | k in rest ensures exists i :: 0 <= i < |init| && init[i].Pub? && init[i].key == k {
        var i :| 0 <= i < |log| && log[i].Pub? && log[i].key == k;
        assert init[i] == log[i];
      }
      FewKeys(init, rest);
    }
  }

  lemma RoomForAll(env: Env, log: RaftLog)
    ensures WithinCap(Roomy(env, log), log)
  {
    forall t: Name, p: int ensures |KeysFor(log, t, p)| <= |log| {
      FewKeys(log, KeysFor(log, t, p));
    }
  }

  /** What the two nodes' answers depend on: the roomy one knows every key of its logs, and nothing has failed. */
  ghost predicate Orderly(log: RaftLog, y: World) {
    && y.cursor <= |log|
    && (forall t, p :: t in y.topics && 0 <= p < |y.topics[t]| ==> y.topics[t][p].log.next < U64)
    && (forall j :: 0 <= j < y.cursor ==> log[j].topic in y.topics)
    && match y.phase
       case Ready => true
       case Routed =>
         && y.hw <= y.cursor < |log| && log[y.cursor].Pub? && log[y.cursor].topic in y.topics
         && (Routable(log, y) ==> Knows(Target(log, y).lru, Retained(Target(log, y).log)))
       case Waiting(rec, _) =>
         && y.hw <= y.cursor && Routable(log, y) && !Target(log, y).log.commitErr
         && rec.key == log[y.cursor].key && Fits(log[y.cursor])
  }

  lemma OrderlyAsIf(log: RaftLog, y: World)
    requires Orderly(log, AsIfWorld(y))
    ensures Orderly(log, y)
  {
    hide WalShape.AsIf, Knows, Retained, Fits;
    var a: Topics := AsIfTopics(y.topics);
    forall t, p | t in y.topics && 0 <= p < |y.topics[t]| ensures y.topics[t][p].log.next < U64 {
      AsIfFields(y.topics[t][p].log);
      assert a[t][p].log.next < U64;
    }
    RoutableAsIf(log, y);
    if Routable(log, y) {
      AsIfFields(Target(log, y).log);
      WalShape.RetainedAsIf(Target(log, y).log, {});
    }
  }

  lemma NextIs(cfg: Config, log: RaftLog, n: nat, topics: Topics, t: Name, p: nat)
    requires LogsOk(log, n, View(topics)) && t in topics && p < |topics[t]| && LogSound(cfg, topics[t][p].log)
    ensures topics[t][p].log.next < U64
  {
    hide LogSound, PartitionOk, View, Retained;
    LogDense(cfg, topics[t][p].log);
    ViewAt(topics, t, p);
    NotFull(log, n, t, p, View(topics)[t][p]);
  }

  lemma NextsAre(cfg: Config, log: RaftLog, n: nat, topics: Topics)
    requires LogsOk(log, n, View(topics)) && Sound(cfg, topics)
    ensures forall t, p :: t in topics && 0 <= p < |topics[t]| ==> topics[t][p].log.next < U64
  {
    hide LogSound, LogsOk, View;
    forall t, p | t in topics && 0 <= p < |topics[t]| ensures topics[t][p].log.next < U64 {
      NextIs(cfg, log, n, topics, t, p);
    }
  }

  /** The record a blocked append waits for is the stamp of its command. */
  lemma BlockedKey(env: Env, log: RaftLog, x: World, v: Logs)
    requires Blocked(env, log, x, v)
    ensures Routable(log, x) && !Target(log, x).log.commitErr && x.phase.Waiting?
    ensures x.phase.rec.key == log[x.cursor].key && Fits(log[x.cursor])
  {
    hide View, Retained, LogSound, NearlySettled, Knows, Known, AllButOk, SpecApply, Ensure, Encodable;
    var e := log[x.cursor];
    BlockedTarget(env, log, x);
    ViewAt(x.topics, e.topic, e.partition);
    LastStamp(env.defaultPartitions, v, e, x.cursor + 1);
  }

  lemma InvIsOrderly(env: Env, log: RaftLog, y: World, n: nat)
    requires InvAt(env, log, y, n)
    ensures Orderly(log, y)
  {
    hide View, Spec, Ensure, Reflects, Writes, NoneAbove, LogSound, Settled, Knows, Retained, AllOk, AllBlockedOk;
    hide LogsOk;
    hide Sound, Fits;
    var d, k := env.defaultPartitions, if y.phase.Waiting? then n + 1 else n;
    if y.phase.Waiting? {
      SpecStep(d, log, n);
      BlockedKey(env, log, y, Spec(d, log, n));
      ReflectsNow(env, log, k);
    } else if y.phase.Routed? && Routable(log, y) {
      ShardIn(env.cfg, y.topics, log[y.cursor].topic, log[y.cursor].partition);
      ShardParts(env.cfg, Target(log, y));
    }
    ReflectsOk(env, log, View(y.topics), k);
    InvAtSound(env, log, y, n);
    NextsAre(env.cfg, log, k, y.topics);
    forall j | 0 <= j < y.cursor ensures log[j].topic in y.topics {
      TopicThere(env, log, View(y.topics), j, k);
    }
  }

  // ---- The index follows the uses ----

  /** The index of every partition holds what the uses since the last restart, over m, make of it. */
  ghost predicate Tracks(env: Env, log: RaftLog, m: Logs, x: World) {
    && x.cursor <= |log|
    && forall t, p :: t in x.topics && 0 <= p < |x.topics[t]| ==>
         Holding(env.cap, x.topics[t][p].lru, Uses(env.cap, log, t, p, Part(m, t, p), x.hw, x.cursor))
  }

  lemma {:induction false} NoUses(cap: int, log: RaftLog, t: Name, p: int, h: nat, c: nat)
    requires c <= |log| && forall j :: 0 <= j < c ==> log[j].topic != t
    ensures Uses(cap, log, t, p, [], h, c) == []
  {
    if c > h { NoUses(cap, log, t, p, h, c - 1); }
  }

  /** A command that names no key of the partition is no use of one there. */
  lemma NotUsed(cap: int, log: RaftLog, t: Name, p: int, rs: seq<Record>, h: nat, c: nat)
    requires c < |log| && (c + 1 <= h || !Names(log[c], t, p))
    ensures Uses(cap, log, t, p, rs, h, c + 1) == Uses(cap, log, t, p, rs, h, c)
  {
  }

  lemma EmptyHolds(cap: int)
    ensures Holding(cap, [], [])
  {
  }

  lemma TrackBegin(env: Env, log: RaftLog, m: Logs, x: World)
    requires Tracks(env, log, m, x)
    requires forall j :: 0 <= j < x.cursor ==> log[j].topic in x.topics
    requires x.phase.Ready? ==> forall t :: t in m ==> t in x.topics
    ensures Tracks(env, log, m, BeginStep(env, log, x))
  {
    hide Uses, Holding, CountFor;
    if x.phase.Ready? && x.cursor < |log| {
      var e, y := log[x.cursor], BeginStep(env, log, x);
      forall t, p | t in y.topics && 0 <= p < |y.topics[t]|
        ensures Holding(env.cap, y.topics[t][p].lru, Uses(env.cap, log, t, p, Part(m, t, p), y.hw, y.cursor))
      {
        var rs := Part(m, t, p);
        if t in x.topics {
          assert y.topics[t] == x.topics[t];
        } else {
          NoUses(env.cap, log, t, p, x.hw, x.cursor);
          EmptyHolds(env.cap);
        }
        if y.cursor > x.cursor { NotUsed(env.cap, log, t, p, rs, x.hw, x.cursor); }
      }
    }
  }

  lemma TrackCommitter(env: Env, log: RaftLog, m: Logs, x: World, t: Name, p: nat, step: Wal.Step)
    requires Tracks(env, log, m, x)
    ensures Tracks(env, log, m, CommitterStep(env, x, t, p, step))
  {
    hide Uses, Holding, Wal.Next;
  }

  /** The cursor moves past a publish whose partition now holds l. */
  lemma TrackTarget(env: Env, log: RaftLog, m: Logs, x: World, sh: Shard)
    requires Tracks(env, log, m, x) && Routable(log, x) && x.hw <= x.cursor
    requires var e := log[x.cursor];
             Holding(env.cap, sh.lru, Uses(env.cap, log, e.topic, e.partition,
                                           Part(m, e.topic, e.partition), x.hw, x.cursor + 1))
    ensures Tracks(env, log, m, Advance(SetTarget(log, x, sh)))
  {
    hide Uses, Holding;
    var e, y := log[x.cursor], Advance(SetTarget(log, x, sh));
    forall t, p | t in y.topics && 0 <= p < |y.topics[t]|
      ensures Holding(env.cap, y.topics[t][p].lru, Uses(env.cap, log, t, p, Part(m, t, p), y.hw, y.cursor))
    {
      if t != e.topic || p != e.partition { NotUsed(env.cap, log, t, p, Part(m, t, p), x.hw, x.cursor); }
    }
  }

  lemma TrackHit(env: Env, log: RaftLog, m: Logs, x: World)
    requires Tracks(env, log, m, x) && x.phase.Routed? && Routable(log, x) && x.hw <= x.cursor && Hit(log, x)
    ensures Tracks(env, log, m, PublishStep(env, log, x, OK))
  {
    hide Uses, Holding, Dedupe.Bump, Dedupe.Pos, PublishStep, Remembers;
    var e, sh := log[x.cursor], Target(log, x);
    var rs := Part(m, e.topic, e.partition);
    var v := Uses(env.cap, log, e.topic, e.partition, rs, x.hw, x.cursor);
    PublishHit(env, log, x, OK);
    HoldingHas(env.cap, sh.lru, v, e.key);
    HoldingBump(env.cap, sh.lru, v, e.key);
    IsUsed(env.cap, log, rs, x.hw, x.cursor);
    TrackTarget(env, log, m, x, sh.(lru := Dedupe.Bump(sh.lru, e.key)));
  }

  lemma IsUsed(cap: int, log: RaftLog, rs: seq<Record>, h: nat, c: nat)
    requires h <= c < |log| && log[c].Pub?
    ensures var e := log[c];
            var v := Uses(cap, log, e.topic, e.partition, rs, h, c);
            Uses(cap, log, e.topic, e.partition, rs, h, c + 1) ==
              if e.key != [] && (Fits(e) || Remembers(cap, v, e.key)) then v + [e.key] else v
  {
    hide Fits, Remembers;
  }

  lemma RememberTracks(env: Env, log: RaftLog, m: Logs, x: World, s: State, r: Record)
    requires Tracks(env, log, m, x) && Routable(log, x) && x.hw <= x.cursor
    requires r.key == log[x.cursor].key && Fits(log[x.cursor])
    ensures Tracks(env, log, m, Advance(SetTarget(log, x, Remember(env, Target(log, x).(log := s), r))))
  {
    hide Uses, Holding, Dedupe.Put, Fits, Remembers;
    var e, sh := log[x.cursor], Target(log, x);
    var rs := Part(m, e.topic, e.partition);
    var v := Uses(env.cap, log, e.topic, e.partition, rs, x.hw, x.cursor);
    IsUsed(env.cap, log, rs, x.hw, x.cursor);
    if e.key != [] { HoldingPut(env.cap, sh.lru, v, e.key, r.msgID); }
    TrackTarget(env, log, m, x, Remember(env, sh.(log := s), r));
  }

  lemma RefusedFits(log: RaftLog, x: World)
    requires Routable(log, x) && Target(log, x).log.next < U64
    ensures Refused(Target(log, x).log, Stamp(log[x.cursor], x.cursor + 1, 0)) <==> !Fits(log[x.cursor])
  {
    hide Encodable, Target;
    FitsAny(log[x.cursor], x.cursor + 1, Target(log, x).log.next);
    StampAgain(log[x.cursor], x.cursor + 1, Target(log, x).log);
  }

  lemma TrackMiss(env: Env, log: RaftLog, m: Logs, x: World)
    requires Tracks(env, log, m, x) && x.phase.Routed? && Routable(log, x) && x.hw <= x.cursor && !Hit(log, x)
    requires Target(log, x).log.next < U64
    ensures Tracks(env, log, m, PublishStep(env, log, x, OK))
  {
    hide Uses, Holding, Dedupe.Put, Dedupe.Pos, PublishStep, Remembers, Fits, Refused, AppendStep;
    var e, sh := log[x.cursor], Target(log, x);
    var rs, rec := Part(m, e.topic, e.partition), Stamp(e, x.cursor + 1, 0);
    var v := Uses(env.cap, log, e.topic, e.partition, rs, x.hw, x.cursor);
    PublishMiss(env, log, x, OK);
    RefusedFits(log, x);
    if Fits(e) {
      var s := AppendStep(env.cfg, sh.log, rec, OK);
      assert !AppendErrs(env.cfg, sh.log, rec, OK);
      RememberTracks(env, log, m, x, s, rec.(msgID := sh.log.next));
    } else {
      MissedRefused(env, log, x, OK);
      if e.key != [] { HoldingHas(env.cap, sh.lru, v, e.key); }
      IsUsed(env.cap, log, rs, x.hw, x.cursor);
      TrackTarget(env, log, m, x, sh);
      assert x.topics[e.topic][e.partition := sh] == x.topics[e.topic];
      assert SetTarget(log, x, sh) == x;
    }
  }

  lemma TrackPublish(env: Env, log: RaftLog, m: Logs, x: World, y: World)
    requires Tracks(env, log, m, x) && Same(x, y) && Orderly(log, y)
    ensures Tracks(env, log, m, PublishStep(env, log, x, OK))
  {
    SameTarget(log, x, y);
    if x.phase.Routed? {
      if !Routable(log, x) {
        hide Uses, Holding;
        forall t, p | t in x.topics && 0 <= p < |x.topics[t]|
          ensures Uses(env.cap, log, t, p, Part(m, t, p), x.hw, x.cursor + 1)
               == Uses(env.cap, log, t, p, Part(m, t, p), x.hw, x.cursor)
        {
          NotUsed(env.cap, log, t, p, Part(m, t, p), x.hw, x.cursor);
        }
      } else {
        hide Tracks, PublishStep, Hit;
        if Hit(log, x) { TrackHit(env, log, m, x); } else { TrackMiss(env, log, m, x); }
      }
    }
  }

  lemma TrackFinish(env: Env, log: RaftLog, m: Logs, x: World, y: World)
    requires Tracks(env, log, m, x) && Same(x, y) && Orderly(log, y)
    ensures Tracks(env, log, m, FinishStep(env, log, x))
  {
    hide Uses, Holding, Wal.Next, Dedupe.Put, Fits, Knows, Retained;
    SameTarget(log, x, y);
    if x.phase.Waiting? && x.phase.end <= Target(log, x).log.committed {
      var s := Wal.Next(env.cfg, Target(log, x).log, Return(x.phase.rec, x.phase.end));
      RememberTracks(env, log, m, x, s, x.phase.rec);
    }
  }

  /** A restart over m. */
  lemma TrackRestart(env: Env, log: RaftLog, m: Logs, topics: Topics)
    requires forall t, p :: t in topics && 0 <= p < |topics[t]| ==>
               && topics[t][p].lru == Dedupe.Rebuild(env.cap, Keys(Retained(topics[t][p].log)), 0)
               && Retained(topics[t][p].log) == Part(m, t, p)
    ensures Tracks(env, log, m, Restart(topics))
  {
    hide Retained, Dedupe.Rebuild, View, MaxOf, Indexes;
  }

  // ---- The answers of both ----

  /** The two answer a publish alike unless the small index has forgotten a key that the log holds. */
  lemma Answers(env: Env, log: RaftLog, m: Logs, x: World, y: World)
    requires Same(x, y) && Orderly(log, y) && Tracks(env, log, m, x)
    requires x.phase.Routed? && Routable(log, x) && Routable(log, y)
    requires x.hw <= |log| && LogsOk(log, x.hw, m) && TopicsOk(env.defaultPartitions, log, x.hw, m)
    requires var t, p, full := log[x.cursor].topic, log[x.cursor].partition, Spec(env.defaultPartitions, log, |log|);
             && Part(View(y.topics), t, p) == Part(Fold(env.defaultPartitions, log, m, x.hw, x.cursor), t, p)
             && t in full && p < |full[t]|
    ensures SameAnswer(log, x, y) || Forgets(env, log, m, x.hw, x.cursor)
    ensures Forgets(env, log, m, x.hw, x.cursor) ==> Hit(log, y) && !Hit(log, x)
  {
    hide Uses, Holding, Remembers, Knows, Known, Retained, View, Fold, Spec, LogsOk, TopicsOk, Dedupe.Pos, Refused;
    hide Fits;
    var e := log[x.cursor];
    var t, p := e.topic, e.partition;
    var v := Uses(env.cap, log, t, p, Part(m, t, p), x.hw, x.cursor);
    SameTarget(log, x, y);
    ViewAt(y.topics, t, p);
    var rs := Retained(Target(log, y).log);
    if e.key == [] {
      assert !Known(rs, e.key) by { NoKeyKnown(rs); }
    } else {
      HitIff(Target(log, y).lru, rs, e.key);
      assert Tracks(env, log, m, x);
      HoldingHas(env.cap, Target(log, x).lru, v, e.key);
      RefusedFits(log, x);
      if Remembers(env.cap, v, e.key) {
        UsesKnown(env, log, m, x.hw, t, p, x.cursor, Used(env.cap, v, e.key));
      }
    }
  }

  lemma NoKeyKnown(rs: seq<Record>)
    ensures !Known(rs, [])
  {
  }
}
