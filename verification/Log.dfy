/**
 * The Log object (internal/wal/log.go:211-381, retention.go:61-101): the fields that Append, rotate,
 * the committer and retention update under the mutex. Each method is one critical section; module Wal
 * says what any interleaving of them amounts to.
 */
module Log {
  import opened Codec
  import opened Stream
  import opened Wal
  import opened WalSafety
  import opened WalTheorems

  datatype Outcome = Done(msgID: nat, end: nat) | Blocked(rec: Record, end: nat) | Failed

  class Log {
    const cfg: Config
    var segments: seq<Segment>
    var nextMsgID: nat
    var written: nat
    var committed: nat
    var commitErr: bool
    /** The committer's locals between its critical sections. Segments are counted from the first one ever. */
    var flush: Flush
    var removed: nat
    /** History: the segments retention removed, blocked appenders, and what succeeded or was dropped. */
    ghost var gone: seq<Segment>
    ghost var pending: set<(Record, nat)>
    ghost var acked: set<Record>
    ghost var dropped: set<Record>

    ghost predicate Valid()
      reads this
    {
      && segments != [] && removed == |gone|
      && forall i :: 0 <= i < |segments| - 1 ==> segments[i].index < segments[|segments| - 1].index
    }

    ghost function State(): State
      requires Valid()
      reads this
    {
      Raw(gone + segments, removed, nextMsgID, written, committed, commitErr, flush, pending, acked, dropped, false)
    }

    constructor (config: Config)
      ensures Valid() && cfg == config && State() == EMPTY
    {
      cfg := config;
      segments, nextMsgID, written, committed := [Segment(0, 0, 0, 0, 0, [], 0)], 0, 0, 0;
      commitErr, flush, removed := false, Idle, 0;
      gone, pending, acked, dropped := [], {}, {}, {};
    }

    function ActiveSegment(): Segment
      requires Valid()
      reads this
      ensures ActiveSegment() == Active(State())
    {
      assert (gone + segments)[|gone + segments| - 1] == segments[|segments| - 1];
      segments[|segments| - 1]
    }

    /** fsync of the active segment's file. */
    method SyncActive()
      requires Valid()
      modifies this`segments
      ensures Valid() && State() == FsyncActive(old(State()))
    {
      var n := |segments| - 1;
      ghost var s := State();
      assert s.files[|s.files| - 1] == segments[n];
      segments := segments[n := segments[n].(durable := Len(segments[n].recs))];
      assert State().files == FsyncActive(s).files;
    }

    method Rotate(io: Io) returns (ok: bool)
      requires Valid()
      modifies this`segments, this`committed
      ensures Valid() && (State(), ok) == Wal.Rotate(old(State()), io)
    {
      hide Len;
      ghost var s := State();
      var old_index := ActiveSegment().index;
      if written > committed {
        if !io.sealSync {
          return false;
        }
        SyncActive();
        committed := written;
      }
      if !io.open {
        return false;
      }
      ghost var s1 := State();
      assert ActiveSegment().index == old_index;
      segments := segments + [Segment(old_index + 1, nextMsgID, written, 0, 0, [], 0)];
      assert State().files == s1.files + [segments[|segments| - 1]];
      return true;
    }

    /** The record's bytes go to the active file. */
    method WriteRecord(rec: Record)
      requires Valid()
      modifies this`segments, this`nextMsgID, this`written
      ensures Valid() && State() == WriteActive(old(State()), rec)
    {
      ghost var s := State();
      var n := |segments| - 1;
      var g := ActiveSegment();
      segments := segments[n := g.(recs := g.recs + [rec], maxTs := Max(g.maxTs, rec.tsNs),
                                   maxVis := Max(g.maxVis, rec.visibleAtNs))];
      nextMsgID := nextMsgID + 1;
      written := written + Size(rec);
      assert State().files == WriteActive(s, rec).files;
    }

    /** Append up to the point where it returns, or blocks on the group commit. */
    method Append(rec: Record, io: Io) returns (r: Outcome)
      requires Valid() && nextMsgID < U64
      modifies this
      ensures Valid() && State() == AppendStep(cfg, old(State()), rec, io)
      ensures r.Done? ==>
                && r.msgID == old(nextMsgID) && r.end == written == committed
                && acked == old(acked) + {rec.(msgID := r.msgID)}
      ensures r.Blocked? ==>
                && r.rec == rec.(msgID := old(nextMsgID)) && r.end == written
                && pending == old(pending) + {(r.rec, r.end)}
      ensures !r.Done? ==> acked == old(acked)
      ensures !r.Blocked? ==> pending == old(pending)
      ensures cfg.mode != NoSync && Inv(cfg, old(State())) ==> Inv(cfg, State())
    {
      hide Inv, Wal.Rotate, WriteActive, Fence, Encodable, Extends;
      ghost var s := State();
      if cfg.mode != NoSync && Inv(cfg, s) {
        AppendKeeps(cfg, s, rec, io);
      }
      var stamped := rec.(msgID := nextMsgID);
      if !Encodable(stamped) {
        return Failed;
      }
      var localSize := written - ActiveSegment().baseOff;
      if cfg.segmentBytes > 0 && localSize > 0 && localSize + Size(stamped) > cfg.segmentBytes {
        var ok := Rotate(io);
        if !ok {
          return Failed;
        }
      }
      if !io.write {
        return Failed;
      }
      WriteRecord(stamped);
      r := FenceRecord(stamped, io.sync);
    }

    /** What each sync mode does once the record is in the file. */
    method FenceRecord(rec: Record, syncOk: bool) returns (r: Outcome)
      requires Valid()
      modifies this`segments, this`committed, this`pending, this`acked
      ensures Valid() && State() == Fence(cfg, old(State()), rec, syncOk)
      ensures r.Done? ==> r == Done(rec.msgID, written) && committed == written && acked == old(acked) + {rec}
      ensures r.Blocked? ==> r == Blocked(rec, written) && pending == old(pending) + {(rec, written)}
      ensures !r.Done? ==> acked == old(acked)
      ensures !r.Blocked? ==> pending == old(pending)
    {
      hide FsyncActive;
      var end := written;
      match cfg.mode
      case Batched =>
        pending := pending + {(rec, end)};
        return Blocked(rec, end);
      case NoSync =>
        committed, acked := end, acked + {rec};
        return Done(rec.msgID, end);
      case PerMessage =>
        if !syncOk {
          return Failed;
        }
        SyncActive();
        committed, acked := end, acked + {rec};
        return Done(rec.msgID, end);
    }

    /** A blocked appender rechecks its predicate after a broadcast. */
    method Recheck(rec: Record, end: nat) returns (r: Outcome)
      requires Valid() && (rec, end) in pending
      modifies this
      ensures Valid()
      ensures end <= committed ==> r == Done(rec.msgID, end) && State() == ReturnStep(old(State()), rec, end)
      ensures end > committed ==> State() == old(State()) && r == if commitErr then Failed else Blocked(rec, end)
    {
      if committed < end {
        if commitErr {
          return Failed;
        }
        return Blocked(rec, end);
      }
      pending, acked := pending - {(rec, end)}, acked + {rec};
      return Done(rec.msgID, end);
    }

    /** flush, first critical section: snapshot the write offset and the active segment's Sync. */
    method FlushSnapshot()
      requires Valid() && cfg.mode == Batched && flush == Idle
      modifies this`flush
      ensures Valid() && State() == FlushSnapStep(cfg, old(State()))
    {
      if written <= committed || commitErr {
        return;
      }
      flush := Snapped(written, removed + |segments| - 1);
    }

    /** flush, outside the lock: fsync the snapshotted segment, whose file may be closed by now. */
    method FlushFsync(ok: bool)
      requires Valid() && flush.Snapped? && flush.seg < removed + |segments|
      modifies this`flush, this`segments
      ensures Valid() && State() == FlushSyncStep(old(State()), ok)
    {
      ghost var s := State();
      var i := flush.seg;
      if i < removed || !ok {
        flush := Synced(flush.snap, i, false);
        return;
      }
      var g := segments[i - removed];
      segments := segments[i - removed := g.(durable := Len(g.recs))];
      flush := Synced(flush.snap, i, true);
      assert s.files[i] == g;
      assert State().files == FsyncAt(s, i).files;
    }

    /** flush, second critical section: publish. */
    method FlushPublish()
      requires Valid() && flush.Synced?
      modifies this`flush, this`commitErr, this`committed
      ensures Valid() && State() == FlushPublishStep(old(State()))
    {
      if !flush.ok {
        commitErr := true;
      } else if flush.snap > committed {
        committed := flush.snap;
      }
      flush := Idle;
    }

    /** Retention: remove the sealed segments below keepIndex, never the active one. */
    method DropSegmentsBefore(keepIndex: nat) returns (count: nat, floorMsgID: nat)
      requires Valid()
      modifies this
      ensures Valid() && State() == DropStep(old(State()), keepIndex)
      ensures count == removed - old(removed) && floorMsgID == Floor(State())
    {
      hide RecordsIn, DropTo;
      ghost var s := State();
      var cut := FindCut(keepIndex);
      assert s.files[s.first..] == segments;
      gone, dropped := gone + segments[..cut], dropped + RecordsIn(s.files, s.first, s.first + cut);
      removed := removed + cut;
      segments := segments[cut..];
      assert gone + segments == s.files;
      return cut, segments[0].baseMsgID;
    }

    /** How many segments lie below keepIndex, clamped to the active one. */
    method FindCut(keepIndex: nat) returns (cut: nat)
      requires Valid()
      ensures cut < |segments| && removed + cut == DropTo(State().files, removed, keepIndex)
    {
      ghost var s := State();
      var active := ActiveSegment().index;
      var keep := if keepIndex > active then active else keepIndex;
      cut := 0;
      while cut < |segments| && segments[cut].index < keep
        invariant cut < |segments|
        invariant DropTo(s.files, s.first + cut, keepIndex) == DropTo(s.files, s.first, keepIndex)
      {
        assert s.files[s.first + cut] == segments[cut];
        cut := cut + 1;
      }
      assert s.files[s.first + cut] == segments[cut];
    }
  }
}
