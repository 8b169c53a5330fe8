/**
 * Replaying the committed raft log over recovered WALs (internal/broker/broker.go:283-324 and 552-637,
 * partition.go:119-156, internal/replication/statemachine.go:70-110).
 */
module ReplaySpec {
  import opened Bytes
  import opened Codec
  import opened Wal

  type Name = string

  datatype Command =
    | Pub(topic: Name, partition: int, key: seq<byte>, payload: seq<byte>, tsNs: u64, visibleAtNs: u64)
    | Create(topic: Name, partitions: int)

  /** The command at position i has raft index i + 1. */
  type RaftLog = l: seq<Command> | |l| < U64 - 1

  /** The records of every partition of every topic. */
  type Logs = map<Name, seq<seq<Record>>>

  /** want > 0 forces an exact count; otherwise the server default, at least one. */
  function CountFor(default: int, want: int): nat {
    if want > 0 then want else if default < 1 then 1 else default
  }

  function Ensure(default: int, m: Logs, topic: Name, want: int): Logs {
    if topic in m then m else m[topic := seq(CountFor(default, want), _ => [])]
  }

  function Stamp(e: Command, index: u64, id: u64): Record
    requires e.Pub?
  {
    Record(id, e.tsNs, e.key, e.payload, e.visibleAtNs, index)
  }

  predicate Known(rs: seq<Record>, key: seq<byte>) { key != [] && exists k :: 0 <= k < |rs| && rs[k].key == key }

  /** The log accepts the record; this depends on its sizes only. */
  predicate Fits(e: Command)
    requires e.Pub?
  {
    Encodable(Stamp(e, 1, 0))
  }

  /** Applying e to m appends a record. */
  predicate Writes(m: Logs, e: Command) {
    && e.Pub? && e.topic in m && 0 <= e.partition < |m[e.topic]|
    && |m[e.topic][e.partition]| < U64
    && !Known(m[e.topic][e.partition], e.key)
    && Fits(e)
  }

  function SpecApply(default: int, m: Logs, e: Command, index: u64): Logs {
    match e
    case Create(topic, n) => Ensure(default, m, topic, n)
    case Pub(topic, p, _, _, _, _) =>
      var m1 := Ensure(default, m, topic, 0);
      if Writes(m1, e) then m1[topic := m1[topic][p := m1[topic][p] + [Stamp(e, index, |m1[topic][p]|)]]] else m1
  }

  /** The logs after the first n commands, applied once each and without interruption. */
  function Spec(default: int, log: RaftLog, n: nat): Logs
    requires n <= |log|
  {
    if n == 0 then map[] else SpecApply(default, Spec(default, log, n - 1), log[n - 1], n)
  }

  // ---- Every record is the stamp of its own command ----

  predicate RecordOk(log: RaftLog, n: nat, topic: Name, p: nat, k: nat, r: Record) {
    && 1 <= r.raftIndex <= n <= |log| && k < U64
    && log[r.raftIndex - 1].Pub? && log[r.raftIndex - 1].topic == topic && log[r.raftIndex - 1].partition == p
    && r == Stamp(log[r.raftIndex - 1], r.raftIndex, k)
  }

  ghost predicate PartitionOk(log: RaftLog, n: nat, topic: Name, p: nat, rs: seq<Record>) {
    && (forall k :: 0 <= k < |rs| ==> RecordOk(log, n, topic, p, k, rs[k]))
    && (forall j, k :: 0 <= j < k < |rs| ==> rs[j].raftIndex < rs[k].raftIndex)
  }

  ghost predicate LogsOk(log: RaftLog, n: nat, m: Logs) {
    forall topic, p :: topic in m && 0 <= p < |m[topic]| ==> PartitionOk(log, n, topic, p, m[topic][p])
  }

  lemma EnsureOk(default: int, log: RaftLog, n: nat, m: Logs, topic: Name, want: int)
    requires LogsOk(log, n, m) && n <= |log|
    ensures LogsOk(log, n, Ensure(default, m, topic, want))
  {
  }

  lemma PartitionOkLater(log: RaftLog, n: nat, topic: Name, p: nat, rs: seq<Record>)
    requires PartitionOk(log, n, topic, p, rs) && n < |log|
    ensures PartitionOk(log, n + 1, topic, p, rs)
  {
  }

  lemma PartitionOkSnoc(log: RaftLog, n: nat, topic: Name, p: nat, rs: seq<Record>)
    requires PartitionOk(log, n, topic, p, rs) && n < |log| && |rs| < U64
    requires log[n].Pub? && log[n].topic == topic && log[n].partition == p
    ensures PartitionOk(log, n + 1, topic, p, rs + [Stamp(log[n], n + 1, |rs|)])
  {
    assert forall k :: 0 <= k < |rs| ==> RecordOk(log, n, topic, p, k, rs[k]);
  }

  lemma ApplyOk(default: int, log: RaftLog, n: nat, m: Logs)
    requires n < |log| && LogsOk(log, n, m)
    ensures LogsOk(log, n + 1, SpecApply(default, m, log[n], n + 1))
  {
    hide PartitionOk, Writes;
    var e := log[n];
    var want := if e.Create? then e.partitions else 0;
    EnsureOk(default, log, n, m, e.topic, want);
    var m1, m' := Ensure(default, m, e.topic, want), SpecApply(default, m, e, n + 1);
    WritesRange(m1, e);
    forall topic, p | topic in m' && 0 <= p < |m'[topic]| ensures PartitionOk(log, n + 1, topic, p, m'[topic][p]) {
      PartitionOkLater(log, n, topic, p, m1[topic][p]);
      if m'[topic][p] != m1[topic][p] {
        PartitionOkSnoc(log, n, topic, p, m1[topic][p]);
      }
    }
  }

  lemma {:induction false} SpecOk(default: int, log: RaftLog, n: nat)
    requires n <= |log|
    ensures LogsOk(log, n, Spec(default, log, n))
  {
    hide LogsOk, SpecApply;
    if n == 0 {
      NoLogsOk(log);
    } else {
      SpecOk(default, log, n - 1);
      ApplyOk(default, log, n - 1, Spec(default, log, n - 1));
    }
  }

  lemma NoLogsOk(log: RaftLog)
    ensures LogsOk(log, 0, map[])
  {
  }

  lemma WritesRange(m: Logs, e: Command)
    ensures Writes(m, e)
            ==> e.Pub? && e.topic in m && 0 <= e.partition < |m[e.topic]| && |m[e.topic][e.partition]| < U64
  {
  }

  // ---- Logs only grow, and a command that wrote nothing never will ----

  ghost predicate Grows(m: Logs, m': Logs) {
    && (forall topic :: topic in m ==> topic in m' && |m[topic]| == |m'[topic]|)
    && (forall topic, p :: topic in m && 0 <= p < |m[topic]| ==> m[topic][p] <= m'[topic][p])
  }

  predicate Inert(m: Logs, e: Command) { e.topic in m && !Writes(m, e) }

  lemma InertGrows(m: Logs, m': Logs, e: Command)
    requires Inert(m, e) && Grows(m, m')
    ensures Inert(m', e)
  {
    if e.Pub? && 0 <= e.partition < |m[e.topic]| {
      var rs, rs' := m[e.topic][e.partition], m'[e.topic][e.partition];
      assert rs <= rs';
      if Known(rs, e.key) {
        var k :| 0 <= k < |rs| && rs[k].key == e.key;
        assert rs'[k].key == e.key;
      }
    }
  }

  lemma ApplyGrows(default: int, m: Logs, e: Command, index: u64)
    ensures Grows(m, SpecApply(default, m, e, index))
  {
  }

  lemma {:induction false} SpecGrows(default: int, log: RaftLog, i: nat, n: nat)
    requires i <= n <= |log|
    ensures Grows(Spec(default, log, i), Spec(default, log, n))
    decreases n
  {
    hide SpecApply;
    if i < n {
      SpecGrows(default, log, i, n - 1);
      ApplyGrows(default, Spec(default, log, n - 1), log[n - 1], n);
    }
  }

  ghost predicate HasIndex(m: Logs, index: nat) {
    exists topic, p, k :: topic in m && 0 <= p < |m[topic]|
      && 0 <= k < |m[topic][p]| && m[topic][p][k].raftIndex == index
  }

  lemma HasIndexGrows(m: Logs, m': Logs, index: nat)
    requires HasIndex(m, index) && Grows(m, m')
    ensures HasIndex(m', index)
  {
    var topic, p, k :| topic in m && 0 <= p < |m[topic]| && 0 <= k < |m[topic][p]| && m[topic][p][k].raftIndex == index;
    assert m[topic][p] <= m'[topic][p];
    assert m'[topic][p][k].raftIndex == index;
  }

  lemma AppliedHere(default: int, m: Logs, e: Command, index: u64)
    ensures var m' := SpecApply(default, m, e, index); e.topic in m' && (Inert(m', e) || HasIndex(m', index))
  {
    var m1: Logs := Ensure(default, m, e.topic, 0);
    var m': Logs := SpecApply(default, m, e, index);
    if Writes(m1, e) {
      var rs := m1[e.topic][e.partition];
      assert m'[e.topic][e.partition][|rs|].raftIndex == index;
    }
  }

  /** Once applied, a command either left its record or leaves everything alone when applied again. */
  lemma AppliedOrInert(default: int, log: RaftLog, j: nat, n: nat)
    requires j < n <= |log|
    ensures var m := Spec(default, log, n); log[j].topic in m && (Inert(m, log[j]) || HasIndex(m, j + 1))
  {
    hide SpecApply, Inert, HasIndex;
    AppliedHere(default, Spec(default, log, j), log[j], j + 1);
    var m, m' := Spec(default, log, j + 1), Spec(default, log, n);
    SpecGrows(default, log, j + 1, n);
    if Inert(m, log[j]) {
      InertGrows(m, m', log[j]);
    } else {
      HasIndexGrows(m, m', j + 1);
    }
  }

  /** No raft index is written twice, in one partition or across partitions. */
  lemma IndexOnce(log: RaftLog, n: nat, m: Logs, t1: Name, p1: nat, k1: nat, t2: Name, p2: nat, k2: nat)
    requires LogsOk(log, n, m)
    requires t1 in m && p1 < |m[t1]| && k1 < |m[t1][p1]| && t2 in m && p2 < |m[t2]| && k2 < |m[t2][p2]|
    requires m[t1][p1][k1].raftIndex == m[t2][p2][k2].raftIndex
    ensures t1 == t2 && p1 == p2 && k1 == k2
  {
    assert PartitionOk(log, n, t1, p1, m[t1][p1]) && PartitionOk(log, n, t2, p2, m[t2][p2]);
    assert RecordOk(log, n, t1, p1, k1, m[t1][p1][k1]) && RecordOk(log, n, t2, p2, k2, m[t2][p2][k2]);
  }
}
