/**
 * The segmented write-ahead log with group commit (internal/wal/log.go, retention.go) as a state
 * machine. Every outcome the code does not control (a failed write, a failed fsync, how much of an
 * unsynced file survives a power loss) is an argument of the step. The file of a segment holds the
 * frames of `recs` one after the other; module Recovery ties this to bytes.
 */
module Wal {
  import opened Bytes
  import opened Codec
  import opened Stream

  datatype SyncMode = PerMessage | Batched | NoSync

  /** segmentBytes == 0 disables rotation. */
  datatype Config = Config(mode: SyncMode, segmentBytes: nat)

  /** durable: how many bytes of the file an fsync has covered. */
  datatype Segment = Segment(index: nat, baseMsgID: nat, baseOff: nat,
                             maxTs: nat, maxVis: nat, recs: seq<Record>, durable: nat)

  /** The group committer between its three phases; seg is the position of the segment whose Sync it snapshotted. */
  datatype Flush = Idle | Snapped(snap: nat, seg: nat) | Synced(snap: nat, seg: nat, ok: bool)

  /**
   * segments is files[first..]; the files below first are unlinked but still open in some reader.
   * pending holds the appenders blocked in batched mode with the end offset each one waits for.
   * acked and dropped are history: the records whose Append returned nil, and those retention removed.
   * down: the last reopen refused the directory.
   */
  datatype Raw = Raw(files: seq<Segment>, first: nat, next: nat, written: nat, committed: nat, commitErr: bool,
                     flush: Flush, pending: set<(Record, nat)>, acked: set<Record>, dropped: set<Record>, down: bool)

  const EMPTY := Raw([Segment(0, 0, 0, 0, 0, [], 0)], 0, 0, 0, 0, false, Idle, {}, {}, {}, false)

  type State = s: Raw | s.first < |s.files| witness EMPTY

  /** Outcomes of the system calls one Append makes, in order. */
  datatype Io = Io(sealSync: bool, open: bool, write: bool, sync: bool)

  datatype Step =
    | Append(rec: Record, io: Io)
    | Return(rec: Record, end: nat)
    | FlushSnap
    | FlushSync(ok: bool)
    | FlushPublish
    | Drop(keepIndex: nat)
    | PowerLoss(keep: seq<nat>)
    | Kill

  const U64 := 0x1_0000_0000_0000_0000

  function Max(a: nat, b: nat): nat { if a > b then a else b }

  function MaxTs(rs: seq<Record>): nat {
    if rs == [] then 0 else Max(MaxTs(rs[..|rs| - 1]), rs[|rs| - 1].tsNs)
  }

  function MaxVis(rs: seq<Record>): nat {
    if rs == [] then 0 else Max(MaxVis(rs[..|rs| - 1]), rs[|rs| - 1].visibleAtNs)
  }

  function Active(s: State): Segment { s.files[|s.files| - 1] }

  // ---- Append and rotate (log.go:211-321) ----

  function FsyncAt(s: State, i: nat): State
    requires i < |s.files|
  {
    s.(files := s.files[i := s.files[i].(durable := Len(s.files[i].recs))])
  }

  function FsyncActive(s: State): State { FsyncAt(s, |s.files| - 1) }

  predicate MustRotate(cfg: Config, s: State, rec: Record) {
    var localSize := s.written - Active(s).baseOff;
    cfg.segmentBytes > 0 && localSize > 0 && localSize + Size(rec) > cfg.segmentBytes
  }

  /** Seal the active segment; the second component is false when rotate returns an error. */
  function Rotate(s: State, io: Io): (State, bool) {
    var unsynced := s.written > s.committed;
    if unsynced && !io.sealSync then (s, false) else
    var s1: State := if unsynced then FsyncActive(s).(committed := s.written) else s;
    if !io.open then (s1, false) else
    (s1.(files := s1.files + [Segment(Active(s).index + 1, s.next, s.written, 0, 0, [], 0)]), true)
  }

  function WriteActive(s: State, rec: Record): State {
    var g := Active(s);
    var g' := g.(recs := g.recs + [rec], maxTs := Max(g.maxTs, rec.tsNs), maxVis := Max(g.maxVis, rec.visibleAtNs));
    s.(files := s.files[|s.files| - 1 := g'], next := s.next + 1, written := s.written + Size(rec))
  }

  /** The fence of each sync mode once the record is in the file. */
  function Fence(cfg: Config, s: State, rec: Record, syncOk: bool): State {
    match cfg.mode
    case PerMessage => if syncOk then FsyncActive(s).(committed := s.written, acked := s.acked + {rec}) else s
    case Batched => s.(pending := s.pending + {(rec, s.written)})
    case NoSync => s.(committed := s.written, acked := s.acked + {rec})
  }

  function AppendStep(cfg: Config, s: State, rec: Record, io: Io): State {
    if s.next >= U64 then s else
    var r := rec.(msgID := s.next);
    if !Encodable(r) then s else
    var (s1, ok) := if MustRotate(cfg, s, r) then Rotate(s, io) else (s, true);
    if !ok || !io.write then s1 else Fence(cfg, WriteActive(s1, r), r, io.sync)
  }

  // ---- Group commit (log.go:251-266, 356-381) ----

  function FlushSnapStep(cfg: Config, s: State): State {
    if cfg.mode != Batched || s.flush != Idle || s.written <= s.committed || s.commitErr then s
    else s.(flush := Snapped(s.written, |s.files| - 1))
  }

  /** The unlocked fsync; on a segment retention has dropped the fd is closed and the call fails. */
  function FlushSyncStep(s: State, ok: bool): State {
    match s.flush
    case Snapped(snap, i) =>
      if i < |s.files| && i >= s.first && ok then FsyncAt(s, i).(flush := Synced(snap, i, true))
      else s.(flush := Synced(snap, i, false))
    case _ => s
  }

  function FlushPublishStep(s: State): State {
    match s.flush
    case Synced(snap, _, ok) =>
      if !ok then s.(flush := Idle, commitErr := true)
      else s.(flush := Idle, committed := Max(s.committed, snap))
    case _ => s
  }

  /** A blocked appender rechecks its predicate and returns success. */
  function ReturnStep(s: State, rec: Record, end: nat): State {
    if (rec, end) in s.pending && end <= s.committed
    then s.(pending := s.pending - {(rec, end)}, acked := s.acked + {rec})
    else s
  }

  // ---- Retention (retention.go:74-101) ----

  /** Position of the first segment at or past i whose index is at least keep; the active one at the latest. */
  function DropTo(files: seq<Segment>, i: nat, keep: nat): (j: nat)
    requires i < |files|
    ensures i <= j < |files|
    decreases |files| - i
  {
    if i == |files| - 1 || files[i].index >= keep then i else DropTo(files, i + 1, keep)
  }

  function RecordsIn(files: seq<Segment>, lo: nat, hi: nat): set<Record>
    requires lo <= hi <= |files|
  {
    set i, k | lo <= i < hi && 0 <= k < |files[i].recs| :: files[i].recs[k]
  }

  function DropStep(s: State, keepIndex: nat): State {
    var j := DropTo(s.files, s.first, keepIndex);
    s.(first := j, dropped := s.dropped + RecordsIn(s.files, s.first, j))
  }

  // ---- Crash and reopen (recovery.go:24-57) ----

  /**
   * One file as reopening finds it: its whole frames, how much of it is on the platter, and whether
   * bytes trail the last frame.
   */
  datatype Image = Image(index: nat, recs: seq<Record>, durable: nat, torn: bool)

  function LenBefore(m: seq<Image>, i: nat): nat
    requires i <= |m|
  {
    if i == 0 then 0 else LenBefore(m, i - 1) + Len(m[i - 1].recs)
  }

  /** The MsgID after the last record of m[..i], if there is any. */
  function NextAfter(m: seq<Image>, i: nat): Option<nat>
    requires i <= |m|
  {
    if i == 0 then None
    else if m[i - 1].recs != [] then Some(m[i - 1].recs[|m[i - 1].recs| - 1].msgID + 1)
    else NextAfter(m, i - 1)
  }

  function OrZero(o: Option<nat>): nat { if o.Some? then o.value else 0 }

  function Rebuilt(m: seq<Image>, i: nat): Segment
    requires i < |m|
  {
    var rs := m[i].recs;
    Segment(m[i].index, if rs != [] then rs[0].msgID else OrZero(NextAfter(m, i)),
            LenBefore(m, i), MaxTs(rs), MaxVis(rs), rs, m[i].durable)
  }

  predicate TornSealed(m: seq<Image>) { exists i :: 0 <= i < |m| - 1 && m[i].torn }

  /** Only the last file may be torn; anything else is corruption and the log does not open. */
  function Reopen(m: seq<Image>, acked: set<Record>, dropped: set<Record>): State
    requires m != []
  {
    var n := |m|;
    Raw(seq(n, i requires 0 <= i < n => Rebuilt(m, i)), 0, OrZero(NextAfter(m, n)), LenBefore(m, n), LenBefore(m, n),
        false, Idle, {}, acked, dropped, TornSealed(m))
  }

  predicate Survivable(s: State, keep: seq<nat>) {
    && |keep| == |s.files| - s.first
    && forall i :: 0 <= i < |keep| ==> s.files[s.first + i].durable <= keep[i] <= Len(s.files[s.first + i].recs)
  }

  /** A power loss leaves the first k bytes of each file, and those are on the platter. */
  function Cut(g: Segment, k: nat): Image {
    var rs := g.recs[..Whole(g.recs, k)];
    Image(g.index, rs, Len(rs), Len(rs) < k)
  }

  function CutAll(s: State, keep: seq<nat>): (m: seq<Image>)
    requires Survivable(s, keep)
    ensures |m| == |keep| > 0
  {
    seq(|keep|, i requires 0 <= i < |keep| => Cut(s.files[s.first + i], keep[i]))
  }

  function PowerLossStep(s: State, keep: seq<nat>): State {
    if !Survivable(s, keep) then s else Reopen(CutAll(s, keep), s.acked, s.dropped)
  }

  /** A killed process leaves every written byte in the page cache, synced or not. */
  function CachedAll(s: State): (m: seq<Image>)
    ensures |m| == |s.files| - s.first
  {
    var n := |s.files| - s.first;
    seq(n, i requires 0 <= i < n => var g := s.files[s.first + i]; Image(g.index, g.recs, g.durable, false))
  }

  function KillStep(s: State): State { Reopen(CachedAll(s), s.acked, s.dropped) }

  // ---- Runs ----

  function Next(cfg: Config, s: State, step: Step): State {
    if s.down then s else
    match step
    case Append(rec, io) => AppendStep(cfg, s, rec, io)
    case Return(rec, end) => ReturnStep(s, rec, end)
    case FlushSnap => FlushSnapStep(cfg, s)
    case FlushSync(ok) => FlushSyncStep(s, ok)
    case FlushPublish => FlushPublishStep(s)
    case Drop(k) => DropStep(s, k)
    case PowerLoss(keep) => PowerLossStep(s, keep)
    case Kill => KillStep(s)
  }

  function Run(cfg: Config, s: State, steps: seq<Step>): State {
    if steps == [] then s else Next(cfg, Run(cfg, s, steps[..|steps| - 1]), steps[|steps| - 1])
  }
}
