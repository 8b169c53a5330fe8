/** Exactly when replaying the raft log over recovered logs gives those of an uninterrupted run. */
module ReplayExact {
  import opened Bytes
  import opened Codec
  import opened Wal
  import opened ReplaySpec
  import opened Replay
  import opened ReplayFailures

  // ---- The raft index decides the record ----

  lemma IndexIn(m: Logs, t: Name, p: nat, k: nat)
    requires t in m && p < |m[t]| && k < |m[t][p]|
    ensures m[t][p][k].raftIndex as nat in Indexes(m)
  {
  }

  /** A record is where its command says. */
  lemma IndexAt(log: RaftLog, n: nat, m: Logs, i: nat) returns (k: nat)
    requires LogsOk(log, n, m) && i in Indexes(m)
    ensures 1 <= i <= n <= |log| && log[i - 1].Pub? && log[i - 1].topic in m
    ensures 0 <= log[i - 1].partition < |m[log[i - 1].topic]|
    ensures k < |m[log[i - 1].topic][log[i - 1].partition]|
            && m[log[i - 1].topic][log[i - 1].partition][k].raftIndex == i
  {
    var t, p, j :| t in m && 0 <= p < |m[t]| && 0 <= j < |m[t][p]| && m[t][p][j].raftIndex as nat == i;
    assert PartitionOk(log, n, t, p, m[t][p]);
    assert RecordOk(log, n, t, p, j, m[t][p][j]);
    k := j;
  }

  predicate Holds(a: seq<Record>, i: nat) { exists k :: 0 <= k < |a| && a[k].raftIndex == i }

  ghost predicate Covers(a: seq<Record>, b: seq<Record>) { forall i: nat :: Holds(a, i) ==> Holds(b, i) }

  ghost predicate Ascending(a: seq<Record>) { forall j, k :: 0 <= j < k < |a| ==> a[j].raftIndex < a[k].raftIndex }

  /** Without its last record a list loses exactly the largest index. */
  lemma HoldsInit(a: seq<Record>, i: nat)
    requires a != [] && Ascending(a)
    ensures Holds(a[..|a| - 1], i) <==> Holds(a, i) && i != a[|a| - 1].raftIndex
  {
    var a' := a[..|a| - 1];
    if Holds(a, i) && i != a[|a| - 1].raftIndex {
      var k :| 0 <= k < |a| && a[k].raftIndex == i;
      assert a'[k].raftIndex == i;
    }
    if Holds(a', i) {
      var k :| 0 <= k < |a'| && a'[k].raftIndex == i;
      assert a[k].raftIndex == i;
    }
  }

  lemma LastCovered(a: seq<Record>, b: seq<Record>)
    requires a != [] && Ascending(b) && Covers(a, b)
    ensures b != [] && a[|a| - 1].raftIndex <= b[|b| - 1].raftIndex
  {
    assert Holds(a, a[|a| - 1].raftIndex);
    assert Holds(b, a[|a| - 1].raftIndex);
  }

  lemma {:induction false} SameIndexes(a: seq<Record>, b: seq<Record>)
    requires Ascending(a) && Ascending(b) && Covers(a, b) && Covers(b, a)
    ensures |a| == |b| && forall k :: 0 <= k < |a| ==> a[k].raftIndex == b[k].raftIndex
    decreases |a|
  {
    if a == [] {
      if b != [] { LastCovered(b, a); }
    } else {
      LastCovered(a, b);
      LastCovered(b, a);
      var a', b' := a[..|a| - 1], b[..|b| - 1];
      forall i: nat ensures Holds(a', i) <==> Holds(b', i) {
        HoldsInit(a, i);
        HoldsInit(b, i);
        assert Holds(a, i) <==> Holds(b, i);
      }
      hide Holds;
      SameIndexes(a', b');
      assert a == a' + [a[|a| - 1]] && b == b' + [b[|b| - 1]];
    }
  }

  /** Two sound views with the same set of raft indexes hold the same records in any partition they share. */
  lemma SameRecords(log: RaftLog, n: nat, a: Logs, b: Logs, t: Name, p: nat)
    requires LogsOk(log, n, a) && LogsOk(log, n, b) && Indexes(a) == Indexes(b)
    requires t in a && p < |a[t]| && t in b && p < |b[t]|
    ensures a[t][p] == b[t][p]
  {
    hide Indexes, LogsOk;
    var x, y := a[t][p], b[t][p];
    assert PartitionOk(log, n, t, p, x) && PartitionOk(log, n, t, p, y) by {
      PartitionIn(log, n, a, t, p);
      PartitionIn(log, n, b, t, p);
    }
    CoversBy(log, n, a, b, t, p);
    CoversBy(log, n, b, a, t, p);
    SameIndexes(x, y);
    forall k | 0 <= k < |x| ensures x[k] == y[k] {
      assert RecordOk(log, n, t, p, k, x[k]) && RecordOk(log, n, t, p, k, y[k]);
    }
  }

  lemma PartitionIn(log: RaftLog, n: nat, m: Logs, t: Name, p: nat)
    requires LogsOk(log, n, m) && t in m && p < |m[t]|
    ensures PartitionOk(log, n, t, p, m[t][p])
  {
  }

  lemma CoversBy(log: RaftLog, n: nat, a: Logs, b: Logs, t: Name, p: nat)
    requires LogsOk(log, n, a) && LogsOk(log, n, b) && Indexes(a) <= Indexes(b)
    requires t in a && p < |a[t]| && t in b && p < |b[t]|
    ensures Covers(a[t][p], b[t][p])
  {
    hide Indexes, LogsOk;
    forall i: nat | Holds(a[t][p], i) ensures Holds(b[t][p], i) {
      var j :| 0 <= j < |a[t][p]| && a[t][p][j].raftIndex == i;
      IndexIn(a, t, p, j);
      PartitionIn(log, n, a, t, p);
      assert RecordOk(log, n, t, p, j, a[t][p][j]);
      var k := IndexAt(log, n, b, i);
    }
  }

  /** A partition of a topic the other view lacks is empty. */
  lemma ExtraIsEmpty(log: RaftLog, n: nat, a: Logs, b: Logs, t: Name, p: nat)
    requires LogsOk(log, n, a) && LogsOk(log, n, b) && Indexes(a) <= Indexes(b) && t in a && p < |a[t]| && t !in b
    ensures a[t][p] == []
  {
    hide Indexes, LogsOk;
    if a[t][p] != [] {
      IndexIn(a, t, p, 0);
      PartitionIn(log, n, a, t, p);
      assert RecordOk(log, n, t, p, 0, a[t][p][0]);
      var k := IndexAt(log, n, b, a[t][p][0].raftIndex);
    }
  }

  // ---- Raft indexes under apply ----

  lemma GrowsIndexes(m: Logs, m': Logs)
    requires Grows(m, m')
    ensures Indexes(m) <= Indexes(m')
  {
    forall i | i in Indexes(m) ensures i in Indexes(m') {
      var t, p, k :| t in m && 0 <= p < |m[t]| && 0 <= k < |m[t][p]| && m[t][p][k].raftIndex as nat == i;
      assert m[t][p] <= m'[t][p];
      IndexIn(m', t, p, k);
    }
  }

  /** One more record in one partition. */
  lemma SnocIndexes(m: Logs, t: Name, p: nat, r: Record)
    requires t in m && p < |m[t]|
    ensures Indexes(m[t := m[t][p := m[t][p] + [r]]]) <= Indexes(m) + {r.raftIndex as nat}
  {
    var m': Logs := m[t := m[t][p := m[t][p] + [r]]];
    forall i | i in Indexes(m') ensures i in Indexes(m) + {r.raftIndex as nat} {
      var u, q, k :| u in m' && 0 <= q < |m'[u]| && 0 <= k < |m'[u][q]| && m'[u][q][k].raftIndex as nat == i;
      if k < |m[u][q]| {
        assert m'[u][q][k] == m[u][q][k];
        IndexIn(m, u, q, k);
      }
    }
  }

  lemma ApplyAdds(default: int, m: Logs, e: Command, index: u64)
    ensures Indexes(m) <= Indexes(SpecApply(default, m, e, index)) <= Indexes(m) + {index as nat}
  {
    hide Indexes, Grows, Ensure;
    var want := if e.Create? then e.partitions else 0;
    ApplyGrows(default, m, e, index);
    GrowsIndexes(m, SpecApply(default, m, e, index));
    EnsureTwice(default, m, e.topic, want);
    var m1 := Ensure(default, m, e.topic, want);
    if Writes(m1, e) {
      var rs := m1[e.topic][e.partition];
      SnocIndexes(m1, e.topic, e.partition, Stamp(e, index, |rs|));
    }
  }

  /** The raft indexes at or below hw. */
  function Low(m: Logs, hw: nat): set<nat> { set i | i in Indexes(m) && i <= hw }

  lemma {:induction false} FoldKeepsLow(default: int, log: RaftLog, m: Logs, hw: nat, c: nat)
    requires c <= |log| && NoneAbove(m, hw)
    ensures Low(Fold(default, log, m, hw, c), hw) == Indexes(m)
  {
    hide SpecApply, Indexes;
    if c > 0 {
      FoldKeepsLow(default, log, m, hw, c - 1);
      var v := Fold(default, log, m, hw, c - 1);
      if log[c - 1].Create? {
        CreateAddsNothing(default, v, log[c - 1], c);
      } else if c > hw {
        ApplyAdds(default, v, log[c - 1], c);
      }
    }
  }

  lemma CreateAddsNothing(default: int, m: Logs, e: Command, index: u64)
    requires e.Create?
    ensures Indexes(SpecApply(default, m, e, index)) == Indexes(m)
  {
    EnsureTwice(default, m, e.topic, e.partitions);
  }

  lemma {:induction false} SpecKeepsLow(default: int, log: RaftLog, hw: nat, n: nat)
    requires hw <= n <= |log|
    ensures Low(Spec(default, log, n), hw) == Indexes(Spec(default, log, hw))
    decreases n
  {
    hide SpecApply, Indexes;
    if n == hw {
      SpecOk(default, log, hw);
      IndexesBounded(log, hw, Spec(default, log, hw));
    } else {
      SpecKeepsLow(default, log, hw, n - 1);
      ApplyAdds(default, Spec(default, log, n - 1), log[n - 1], n);
    }
  }

  // ---- Logs that are right so far ----

  /** f has all of s, and beyond it only empty topics of the counts they will have in full. */
  ghost predicate Ahead(f: Logs, s: Logs, full: Logs) {
    && (forall t :: t in s ==> t in f && f[t] == s[t])
    && (forall t :: t in f ==> t in full && |f[t]| == |full[t]|)
    && (forall t, p :: t in f && t !in s && 0 <= p < |f[t]| ==> f[t][p] == [])
  }

  lemma EmptyTopic(a: seq<seq<Record>>, b: seq<seq<Record>>)
    requires |a| == |b| && (forall p :: 0 <= p < |a| ==> a[p] == []) && (forall p :: 0 <= p < |b| ==> b[p] == [])
    ensures a == b
  {
  }

  lemma AheadEnsure(default: int, f: Logs, s: Logs, full: Logs, t: Name, want: int)
    requires Ahead(f, s, full)
    requires var s1 := Ensure(default, s, t, want); t in full && |s1[t]| == |full[t]|
    ensures Ahead(Ensure(default, f, t, want), Ensure(default, s, t, want), full)
  {
    var f1, s1 := Ensure(default, f, t, want), Ensure(default, s, t, want);
    if t !in s && t in f {
      EmptyTopic(f[t], s1[t]);
    }
  }

  lemma AheadApply(default: int, f: Logs, s: Logs, full: Logs, e: Command, index: u64)
    requires Ahead(f, s, full) && Grows(SpecApply(default, s, e, index), full)
    ensures Ahead(SpecApply(default, f, e, index), SpecApply(default, s, e, index), full)
  {
    hide Grows;
    var want := if e.Create? then e.partitions else 0;
    var f1, s1 := Ensure(default, f, e.topic, want), Ensure(default, s, e.topic, want);
    var s' := SpecApply(default, s, e, index);
    assert e.topic in s' && |s'[e.topic]| == |s1[e.topic]|;
    GrowsCount(s', full, e.topic);
    AheadEnsure(default, f, s, full, e.topic, want);
    assert f1[e.topic] == s1[e.topic];
    assert Writes(f1, e) <==> Writes(s1, e);
  }

  lemma GrowsCount(m: Logs, m': Logs, t: Name)
    requires Grows(m, m') && t in m
    ensures t in m' && |m[t]| == |m'[t]|
  {
  }

  /** Below the mark nothing happens: publishes are skipped and topics exist. */
  lemma {:induction false} FoldBelow(default: int, log: RaftLog, m: Logs, hw: nat, c: nat)
    requires c <= hw <= |log| && forall j :: 0 <= j < hw ==> log[j].topic in m
    ensures Fold(default, log, m, hw, c) == m
  {
    if c > 0 {
      FoldBelow(default, log, m, hw, c - 1);
      assert log[c - 1].topic in m;
    }
  }

  lemma {:induction false} FoldAhead(default: int, log: RaftLog, m: Logs, hw: nat, c: nat)
    requires hw <= c <= |log| && (forall j :: 0 <= j < hw ==> log[j].topic in m)
    requires Ahead(m, Spec(default, log, hw), Spec(default, log, |log|))
    ensures Ahead(Fold(default, log, m, hw, c), Spec(default, log, c), Spec(default, log, |log|))
    decreases c
  {
    hide SpecApply, Ahead, Spec;
    if c == hw {
      FoldBelow(default, log, m, hw, c);
    } else {
      FoldAhead(default, log, m, hw, c - 1);
      FoldStep(default, log, m, hw, c - 1);
      SpecStep(default, log, c - 1);
      SpecGrows(default, log, c, |log|);
      AheadApply(default, Fold(default, log, m, hw, c - 1),
                 Spec(default, log, c - 1), Spec(default, log, |log|), log[c - 1], c);
    }
  }

  lemma AheadOfFull(f: Logs, full: Logs)
    requires Ahead(f, full, full)
    ensures f == full
  {
  }

  /** Logs with exactly the raft indexes an uninterrupted run has up to the mark are ahead of that run's. */
  lemma RestartedIsAhead(default: int, log: RaftLog, m: Logs, hw: nat)
    requires hw <= |log| && LogsOk(log, hw, m) && TopicsOk(default, log, hw, m)
    requires Indexes(m) == Indexes(Spec(default, log, hw))
    ensures Ahead(m, Spec(default, log, hw), Spec(default, log, |log|))
  {
    hide Indexes, LogsOk, Spec;
    var s, full := Spec(default, log, hw), Spec(default, log, |log|);
    SpecOk(default, log, hw);
    SpecGrows(default, log, hw, |log|);
    forall t | t in s ensures t in m && m[t] == s[t] {
      SpecTopics(default, log, hw, t);
      GrowsCount(s, full, t);
      forall p | 0 <= p < |s[t]| ensures m[t][p] == s[t][p] {
        SameRecords(log, hw, m, s, t, p);
      }
    }
    forall t, p | t in m && t !in s && 0 <= p < |m[t]| ensures m[t][p] == [] {
      ExtraIsEmpty(log, hw, m, s, t, p);
    }
  }

  lemma FoldIsSpecIff(default: int, log: RaftLog, m: Logs, hw: nat)
    requires hw <= |log| && LogsOk(log, hw, m) && TopicsOk(default, log, hw, m)
    ensures Fold(default, log, m, hw, |log|) == Spec(default, log, |log|)
       <==> Indexes(m) == Indexes(Spec(default, log, hw))
  {
    hide Indexes, LogsOk, Spec, Fold, Ahead, Low;
    IndexesBounded(log, hw, m);
    FoldKeepsLow(default, log, m, hw, |log|);
    SpecKeepsLow(default, log, hw, |log|);
    if Indexes(m) == Indexes(Spec(default, log, hw)) {
      RestartedIsAhead(default, log, m, hw);
      FoldAhead(default, log, m, hw, |log|);
      AheadOfFull(Fold(default, log, m, hw, |log|), Spec(default, log, |log|));
    }
  }
}
