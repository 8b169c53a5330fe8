/**
 * Tailing readers (internal/wal/reader.go, segment.go:121-158). A reader holds its own descriptor on
 * one file; every lock release inside NewReader and Next is a point where the log may move on.
 */
module Reader {
  import opened Bytes
  import opened Codec
  import opened Stream
  import opened Wal
  import opened WalSafety
  import opened WalTheorems
  import opened WalShape

  /**
   * Opening and Rolling: a segment was chosen under the lock, its file not yet opened.
   * ScanDecode and Decoding: the limit was checked under the lock, the frame not yet read.
   */
  datatype Reader =
    | OutOfRange
    | Opening(seg: nat, from: nat)
    | Scanning(seg: nat, pos: nat, from: nat)
    | ScanDecode(seg: nat, pos: nat, from: nat)
    | Ready(seg: nat, pos: nat)
    | Decoding(seg: nat, pos: nat)
    | Rolling(seg: nat)
    | Failed

  /** Position of the retained segment with the smallest index above idx. */
  function SegmentAfter(s: State, i: nat, idx: nat): Option<nat>
    requires i <= |s.files|
    decreases |s.files| - i
  {
    if i == |s.files| then None
    else if i >= s.first && s.files[i].index > idx then Some(i)
    else SegmentAfter(s, i + 1, idx)
  }

  /** How far a reader of files[j] may go, and whether it is the active tail. */
  function ReadableLen(s: State, j: nat): (int, bool)
    requires j < |s.files|
  {
    var g := s.files[j];
    if g.index == Active(s).index then (s.committed - g.baseOff, true) else
    match SegmentAfter(s, 0, g.index)
    case Some(k) => (if k < |s.files| then s.files[k].baseOff - g.baseOff else 0, false)
    case None => (s.committed - g.baseOff, false)
  }

  /** The first segment whose successor starts past from; the active one if there is none. */
  function PickStart(s: State, i: nat, from: nat): (j: nat)
    requires i < |s.files|
    ensures i <= j < |s.files|
    decreases |s.files| - i
  {
    if i == |s.files| - 1 || from < s.files[i + 1].baseMsgID then i else PickStart(s, i + 1, from)
  }

  function NewReader(s: State, from: nat): Reader {
    if from < Floor(s) then OutOfRange else Opening(PickStart(s, s.first, from), from)
  }

  function DecodeFrom(f: Framing, g: Segment, pos: nat): DecodeResult {
    var bytes := EncodeAll(f, g.recs);
    f.dec(if pos <= |bytes| then bytes[pos..] else [])
  }

  /** One uninterrupted stretch of the reader, and the record it returned, if any. */
  function ReadStep(f: Framing, s: State, rd: Reader): (Reader, Option<Record>) {
    match rd
    case OutOfRange => (rd, None)
    case Failed => (rd, None)
    case Opening(j, from) => (if s.first <= j < |s.files| then Scanning(j, 0, from) else Failed, None)
    case Scanning(j, pos, from) =>
      if j >= |s.files| then (Failed, None) else
      (if pos >= ReadableLen(s, j).0 then Ready(j, pos) else ScanDecode(j, pos, from), None)
    case ScanDecode(j, pos, from) =>
      if j >= |s.files| then (Failed, None) else
      (match DecodeFrom(f, s.files[j], pos)
       case Got(rec, n) => if rec.msgID >= from then Ready(j, pos) else Scanning(j, pos + n, from)
       case _ => Failed, None)
    case Ready(j, pos) =>
      if j >= |s.files| then (Failed, None) else
      var (limit, active) := ReadableLen(s, j);
      if pos < limit then (Decoding(j, pos), None)
      else if active then (rd, None)
      else (match SegmentAfter(s, 0, s.files[j].index) case Some(k) => Rolling(k) case None => rd, None)
    case Decoding(j, pos) =>
      if j >= |s.files| then (Failed, None) else
      (match DecodeFrom(f, s.files[j], pos)
       case Got(rec, n) => (Ready(j, pos + n), Some(rec))
       case _ => (Failed, None))
    case Rolling(k) => (if s.first <= k < |s.files| then Ready(k, 0) else Failed, None)
  }

  // ---- A log and one reader, interleaved ----

  datatype Event = LogMoves(step: Step) | ReaderMoves

  datatype Session = Session(log: State, rd: Reader, out: seq<Record>)

  function Move(f: Framing, cfg: Config, x: Session, e: Event): Session {
    match e
    case LogMoves(step) => x.(log := Next(cfg, x.log, step))
    case ReaderMoves =>
      var (rd, got) := ReadStep(f, x.log, x.rd);
      x.(rd := rd, out := if got.Some? then x.out + [got.value] else x.out)
  }

  function Moves(f: Framing, cfg: Config, x: Session, es: seq<Event>): Session {
    if es == [] then x else Move(f, cfg, Moves(f, cfg, x, es[..|es| - 1]), es[|es| - 1])
  }

  // ---- What the reader keeps ----

  /** The first MsgID that is not committed. */
  function FirstUncommitted(s: State): nat {
    Active(s).baseMsgID
    + if s.committed >= Active(s).baseOff then Whole(Active(s).recs, s.committed - Active(s).baseOff) else 0
  }

  /** r is in some file, dropped or not, and committed. */
  ghost predicate Published(s: State, r: Record) {
    exists i, k :: 0 <= i < |s.files| && 0 <= k < |s.files[i].recs| && s.files[i].recs[k] == r
                   && s.files[i].baseOff + Len(s.files[i].recs[..k + 1]) <= s.committed
  }

  /** pos is the end of the first k records of files[j], so the next MsgID there is id. */
  ghost predicate At(s: State, j: nat, pos: nat, id: nat) {
    && j < |s.files| && s.files[j].baseMsgID <= id <= s.files[j].baseMsgID + |s.files[j].recs|
    && pos == Len(s.files[j].recs[..id - s.files[j].baseMsgID])
  }

  /** from lies in files[j] or right after it, and below or at the end of the committed records. */
  ghost predicate Aims(s: State, j: nat, from: nat) {
    && j < |s.files| && s.files[j].baseMsgID <= from <= s.files[j].baseMsgID + |s.files[j].recs|
    && from <= FirstUncommitted(s)
  }

  /** The frame a decode is about to read is committed, unless the file ended and its successor is gone. */
  ghost predicate MayDecode(s: State, j: nat, id: nat) {
    && j < |s.files| && s.files[j].baseMsgID <= id
    && if id < s.files[j].baseMsgID + |s.files[j].recs|
       then Published(s, s.files[j].recs[id - s.files[j].baseMsgID])
       else j + 1 < s.first
  }

  ghost predicate ReaderOk(s: State, rd: Reader, from: nat, next: nat) {
    match rd
    case OutOfRange => false
    case Opening(j, fr) => fr == from == next && Aims(s, j, from)
    case Scanning(j, pos, fr) =>
      && fr == from == next && Aims(s, j, from)
      && exists id: nat :: id <= from && At(s, j, pos, id)
    case ScanDecode(j, pos, fr) =>
      && fr == from == next && Aims(s, j, from)
      && exists id: nat :: id <= from && At(s, j, pos, id) && MayDecode(s, j, id)
    case Ready(j, pos) => At(s, j, pos, next)
    case Decoding(j, pos) => At(s, j, pos, next) && MayDecode(s, j, next)
    case Rolling(k) => k < |s.files| && s.files[k].baseMsgID == next
    case Failed => next <= Floor(s)
  }

  ghost predicate SessionOk(cfg: Config, x: Session, from: nat) {
    && Inv(cfg, x.log)
    && (forall i :: 0 <= i < |x.out| ==> x.out[i].msgID == from + i && Published(x.log, x.out[i]))
    && ReaderOk(x.log, x.rd, from, from + |x.out|)
  }

  // ---- The log moves ----

  lemma SealedUnchanged(cfg: Config, s: State, t: State, i: nat)
    requires FilesOk(cfg, s.files) && FilesOk(cfg, t.files) && FilesGrow(s.files, t.files) && i + 1 < |s.files|
    ensures t.files[i].recs == s.files[i].recs
  {
    assert Sealed(s.files[i], s.files[i + 1]) && Sealed(t.files[i], t.files[i + 1]);
    assert Grown(s.files[i], t.files[i]) && Grown(s.files[i + 1], t.files[i + 1]);
  }

  lemma PublishedGrows(s: State, t: State, r: Record)
    requires FilesGrow(s.files, t.files) && s.committed <= t.committed && Published(s, r)
    ensures Published(t, r)
  {
    var i, k :| 0 <= i < |s.files| && 0 <= k < |s.files[i].recs| && s.files[i].recs[k] == r
                && s.files[i].baseOff + Len(s.files[i].recs[..k + 1]) <= s.committed;
    assert t.files[i].recs[..k + 1] == s.files[i].recs[..k + 1];
    assert t.files[i].recs[k] == r;
  }

  lemma AtGrows(s: State, t: State, j: nat, pos: nat, id: nat)
    requires FilesGrow(s.files, t.files) && At(s, j, pos, id)
    ensures At(t, j, pos, id)
  {
    var k := id - s.files[j].baseMsgID;
    assert Grown(s.files[j], t.files[j]);
    assert t.files[j].recs[..k] == s.files[j].recs[..k];
  }

  lemma UncommittedGrows(cfg: Config, s: State, t: State)
    requires Inv(cfg, s) && Inv(cfg, t) && Extends(s, t)
    ensures FirstUncommitted(s) <= FirstUncommitted(t)
  {
    hide FilesOk, HistoryOk, FlushOk, TailOk, Boundary, Whole, Len;
    var g, h := Active(s), t.files[|s.files| - 1];
    assert Grown(g, h);
    var k := Whole(g.recs, s.committed - g.baseOff);
    WholeIsMaximal(g.recs, s.committed - g.baseOff);
    assert h.recs[..k] == g.recs[..k];
    if |s.files| < |t.files| {
      BasesOrdered(cfg, t.files, |s.files| - 1, |t.files| - 1);
    } else {
      FitsWhole(h.recs, t.committed - h.baseOff, k);
    }
  }

  lemma FloorGrows(cfg: Config, s: State, t: State)
    requires Inv(cfg, s) && Inv(cfg, t) && Extends(s, t)
    ensures Floor(s) <= Floor(t)
  {
    assert Grown(s.files[s.first], t.files[s.first]);
    if s.first < t.first { BasesOrdered(cfg, t.files, s.first, t.first); }
  }

  lemma MayDecodeGrows(cfg: Config, s: State, t: State, j: nat, id: nat)
    requires Inv(cfg, s) && Inv(cfg, t) && Extends(s, t) && MayDecode(s, j, id)
    ensures MayDecode(t, j, id)
  {
    hide FilesOk, HistoryOk, FlushOk, TailOk, CommittedOk, Published, Len;
    assert Grown(s.files[j], t.files[j]);
    if id < s.files[j].baseMsgID + |s.files[j].recs| {
      PublishedGrows(s, t, s.files[j].recs[id - s.files[j].baseMsgID]);
    } else {
      SealedUnchanged(cfg, s, t, j);
    }
  }

  /** Appends, rotations, flushes and drops under the reader leave all it knows true. */
  lemma ReaderOkGrows(cfg: Config, s: State, t: State, rd: Reader, from: nat, next: nat)
    requires Inv(cfg, s) && Inv(cfg, t) && Extends(s, t) && ReaderOk(s, rd, from, next)
    ensures ReaderOk(t, rd, from, next)
  {
    hide Inv, At, MayDecode, FirstUncommitted;
    UncommittedGrows(cfg, s, t);
    FloorGrows(cfg, s, t);
    match rd
    case OutOfRange => {}
    case Opening(j, _) => assert Grown(s.files[j], t.files[j]);
    case Scanning(j, pos, _) =>
      var id: nat :| id <= from && At(s, j, pos, id);
      assert Grown(s.files[j], t.files[j]);
      AtGrows(s, t, j, pos, id);
    case ScanDecode(j, pos, _) =>
      var id: nat :| id <= from && At(s, j, pos, id) && MayDecode(s, j, id);
      assert Grown(s.files[j], t.files[j]);
      AtGrows(s, t, j, pos, id);
      MayDecodeGrows(cfg, s, t, j, id);
    case Ready(j, pos) => AtGrows(s, t, j, pos, next);
    case Decoding(j, pos) => AtGrows(s, t, j, pos, next); MayDecodeGrows(cfg, s, t, j, next);
    case Rolling(k) => assert Grown(s.files[k], t.files[k]);
    case Failed => {}
  }

  // ---- The reader moves ----

  lemma {:induction false} AfterSkips(cfg: Config, s: State, i: nat, j: nat)
    requires Inv(cfg, s) && j + 1 < |s.files| && i <= Max(s.first, j + 1)
    ensures SegmentAfter(s, i, s.files[j].index) == Some(Max(s.first, j + 1))
    decreases Max(s.first, j + 1) - i
  {
    var k := Max(s.first, j + 1);
    BasesOrdered(cfg, s.files, j, k);
    if i < k {
      if i < j { BasesOrdered(cfg, s.files, i, j); }
      AfterSkips(cfg, s, i + 1, j);
    }
  }

  /** A sealed file is readable to its end, and past it exactly when its successor has been dropped. */
  lemma ReadableLenIs(cfg: Config, s: State, j: nat)
    requires Inv(cfg, s) && j < |s.files|
    ensures j == |s.files| - 1 ==>
              && ReadableLen(s, j) == (s.committed - s.files[j].baseOff, true)
              && 0 <= ReadableLen(s, j).0 <= Len(s.files[j].recs)
    ensures j < |s.files| - 1 ==>
              var k := Max(s.first, j + 1);
              && ReadableLen(s, j) == (s.files[k].baseOff - s.files[j].baseOff, false)
              && SegmentAfter(s, 0, s.files[j].index) == Some(k)
              && (if k == j + 1 then ReadableLen(s, j).0 == Len(s.files[j].recs)
                  else ReadableLen(s, j).0 > Len(s.files[j].recs))
              && s.files[j + 1].baseMsgID == s.files[j].baseMsgID + |s.files[j].recs|
  {
    hide FilesOk, HistoryOk, FlushOk, TailOk, SegmentAfter, SegmentOk, Boundary;
    if j < |s.files| - 1 {
      var k := Max(s.first, j + 1);
      AfterSkips(cfg, s, 0, j);
      BasesOrdered(cfg, s.files, j, |s.files| - 1);
      SealedAt(cfg, s, j);
      if k != j + 1 {
        BasesOrdered(cfg, s.files, j + 1, k);
        SealedAt(cfg, s, j + 1);
        SegmentAt(cfg, s.files, j + 1);
      }
    } else {
      SegmentAt(cfg, s.files, j);
    }
  }

  lemma LenStrict(rs: seq<Record>, k: nat, c: nat)
    requires k <= |rs| && c <= |rs| && Len(rs[..k]) < Len(rs[..c])
    ensures k < c && Len(rs[..k + 1]) <= Len(rs[..c])
  {
    if k >= c { LenPrefix(rs, c, k); } else { LenPrefix(rs, k + 1, c); }
  }

  /** Below the readable limit the next frame is committed. */
  lemma BelowLimit(cfg: Config, s: State, j: nat, pos: nat, id: nat)
    requires Inv(cfg, s) && At(s, j, pos, id) && pos < ReadableLen(s, j).0
    ensures MayDecode(s, j, id)
  {
    hide FilesOk, HistoryOk, FlushOk, ReadableLen, SegmentAfter, Len;
    ReadableLenIs(cfg, s, j);
    var g := s.files[j];
    var k := id - g.baseMsgID;
    if k < |g.recs| {
      if j == |s.files| - 1 {
        var c :| 0 <= c <= |g.recs| && s.committed == g.baseOff + Len(g.recs[..c]);
        LenStrict(g.recs, k, c);
      } else {
        BasesOrdered(cfg, s.files, j, |s.files| - 1);
        LenPrefix(g.recs, k + 1, |g.recs|);
        assert g.recs[..|g.recs|] == g.recs;
      }
      assert s.files[j].recs[k] == g.recs[k];
    } else {
      assert g.recs[..k] == g.recs;
    }
  }

  /** A scan that stops short of the limit has reached the record it was asked for. */
  lemma ScanReaches(cfg: Config, s: State, j: nat, pos: nat, id: nat, from: nat)
    requires Inv(cfg, s) && At(s, j, pos, id) && id <= from && Aims(s, j, from) && pos >= ReadableLen(s, j).0
    ensures id == from
  {
    hide Inv, ReadableLen, SegmentAfter, Len, Whole;
    ReadableLenIs(cfg, s, j);
    var g := s.files[j];
    var k, c := id - g.baseMsgID, from - g.baseMsgID;
    assert g.recs[..|g.recs|] == g.recs;
    LenPrefix(g.recs, k, c);
    LenPrefix(g.recs, c, |g.recs|);
    if j == |s.files| - 1 { CommittedCovers(cfg, s, c); }
  }

  lemma CommittedCovers(cfg: Config, s: State, c: nat)
    requires Inv(cfg, s) && c <= |Active(s).recs| && Active(s).baseMsgID + c <= FirstUncommitted(s)
    ensures Len(Active(s).recs[..c]) <= s.committed - Active(s).baseOff
  {
    hide FilesOk, HistoryOk, FlushOk, TailOk, Boundary;
    var g := Active(s);
    WholeIsMaximal(g.recs, s.committed - g.baseOff);
    LenPrefix(g.recs, c, Whole(g.recs, s.committed - g.baseOff));
  }

  lemma DecodesNext(f: Framing, cfg: Config, s: State, j: nat, pos: nat, id: nat)
    requires Lawful(f) && Inv(cfg, s) && At(s, j, pos, id)
    ensures var g := s.files[j];
            var k := id - g.baseMsgID;
            if k == |g.recs| then DecodeFrom(f, g, pos) == Eof
            else
              && DecodeFrom(f, g, pos) == Got(g.recs[k], Size(g.recs[k]))
              && g.recs[k].msgID == id && At(s, j, pos + Size(g.recs[k]), id + 1)
  {
    hide Lawful, EncodeAll, FilesOk, HistoryOk, FlushOk, Encodable, Size;
    var g := s.files[j];
    var k := id - g.baseMsgID;
    SegmentAt(cfg, s.files, j);
    DecodeAt(f, g.recs, k);
    if k < |g.recs| { assert g.recs[..k + 1][..k] == g.recs[..k]; }
  }

  lemma LostBehindFloor(cfg: Config, s: State, j: nat)
    requires Inv(cfg, s) && j < s.first
    ensures s.files[j].baseMsgID + |s.files[j].recs| <= Floor(s)
  {
    BasesOrdered(cfg, s.files, j, s.first);
  }

  lemma ReadKeeps(f: Framing, cfg: Config, s: State, rd: Reader, from: nat, next: nat)
    requires Lawful(f) && Inv(cfg, s) && ReaderOk(s, rd, from, next)
    ensures var (rd', got) := ReadStep(f, s, rd);
            match got
            case None => ReaderOk(s, rd', from, next)
            case Some(r) => r.msgID == next && Published(s, r) && ReaderOk(s, rd', from, next + 1)
  {
    hide Lawful, Inv, DecodeFrom, ReadableLen, SegmentAfter, FirstUncommitted, Published, At, MayDecode;
    match rd
    case OutOfRange => {}
    case Failed => {}
    case Opening(j, _) =>
      if j < s.first { LostBehindFloor(cfg, s, j); }
      AtStart(s, j);
    case Scanning(j, pos, _) =>
      var id: nat :| id <= from && At(s, j, pos, id);
      if pos >= ReadableLen(s, j).0 { ScanReaches(cfg, s, j, pos, id, from); } else { BelowLimit(cfg, s, j, pos, id); }
    case ScanDecode(j, pos, _) => ScanDecodeKeeps(f, cfg, s, j, pos, from);
    case Ready(j, pos) =>
      AtWithin(s, j, pos, next);
      ReadableLenIs(cfg, s, j);
      if pos < ReadableLen(s, j).0 { BelowLimit(cfg, s, j, pos, next); }
      else if j < |s.files| - 1 { RollsToSuccessor(cfg, s, j, pos, next); }
    case Decoding(j, pos) => DecodingKeeps(f, cfg, s, j, pos, next);
    case Rolling(k) =>
      if k < s.first { LostBehindFloor(cfg, s, k); }
      AtStart(s, k);
  }

  lemma AtStart(s: State, j: nat)
    requires j < |s.files|
    ensures At(s, j, 0, s.files[j].baseMsgID)
  {
    assert s.files[j].recs[..0] == [];
  }

  lemma AtWithin(s: State, j: nat, pos: nat, id: nat)
    requires At(s, j, pos, id)
    ensures j < |s.files|
  {
  }

  lemma ScanDecodeKeeps(f: Framing, cfg: Config, s: State, j: nat, pos: nat, from: nat)
    requires Lawful(f) && Inv(cfg, s) && Aims(s, j, from)
             && exists id: nat :: id <= from && At(s, j, pos, id) && MayDecode(s, j, id)
    ensures ReadStep(f, s, ScanDecode(j, pos, from)).1 == None
            && ReaderOk(s, ReadStep(f, s, ScanDecode(j, pos, from)).0, from, from)
  {
    hide Lawful, Inv, DecodeFrom, Published, FirstUncommitted, Len;
    var id: nat :| id <= from && At(s, j, pos, id) && MayDecode(s, j, id);
    DecodesNext(f, cfg, s, j, pos, id);
    if j + 1 < s.first { LostBehindFloor(cfg, s, j); }
  }

  lemma DecodingKeeps(f: Framing, cfg: Config, s: State, j: nat, pos: nat, next: nat)
    requires Lawful(f) && Inv(cfg, s) && At(s, j, pos, next) && MayDecode(s, j, next)
    ensures var (rd, got) := ReadStep(f, s, Decoding(j, pos));
            if got.Some?
            then got.value.msgID == next && Published(s, got.value) && rd.Ready? && At(s, rd.seg, rd.pos, next + 1)
            else rd == Failed && next <= Floor(s)
  {
    hide Lawful, Inv, DecodeFrom, Published, Len;
    DecodesNext(f, cfg, s, j, pos, next);
    if j + 1 < s.first { LostBehindFloor(cfg, s, j); }
  }

  /** A sealed file read to its limit continues in the segment right after it, never past a dropped one. */
  lemma RollsToSuccessor(cfg: Config, s: State, j: nat, pos: nat, next: nat)
    requires Inv(cfg, s) && At(s, j, pos, next) && j < |s.files| - 1 && pos >= ReadableLen(s, j).0
    ensures SegmentAfter(s, 0, s.files[j].index) == Some(j + 1) && s.files[j + 1].baseMsgID == next
  {
    hide Inv, ReadableLen, SegmentAfter;
    ReadableLenIs(cfg, s, j);
    var g := s.files[j];
    var k := next - g.baseMsgID;
    assert g.recs[..|g.recs|] == g.recs;
    LenPrefix(g.recs, k, |g.recs|);
  }

  // ---- Every interleaving ----

  lemma {:induction false} PickStartAims(cfg: Config, s: State, i: nat, from: nat)
    requires Inv(cfg, s) && i < |s.files| && s.files[i].baseMsgID <= from <= FirstUncommitted(s)
    ensures Aims(s, PickStart(s, i, from), from)
    decreases |s.files| - i
  {
    if i < |s.files| - 1 {
      SealedAt(cfg, s, i);
      if from >= s.files[i + 1].baseMsgID { PickStartAims(cfg, s, i + 1, from); }
    }
  }

  ghost predicate NoCrash(es: seq<Event>) {
    forall i :: 0 <= i < |es| && es[i].LogMoves? ==> !Crash(es[i].step)
  }

  lemma ExtendsPublished(s: State, t: State, r: Record)
    requires Extends(s, t) && Published(s, r)
    ensures Published(t, r)
  {
    PublishedGrows(s, t, r);
  }

  lemma SessionGrows(cfg: Config, x: Session, t: State, from: nat)
    requires SessionOk(cfg, x, from) && Inv(cfg, t) && Extends(x.log, t)
    ensures SessionOk(cfg, x.(log := t), from)
  {
    hide Inv, ReaderOk, Published, Extends;
    ReaderOkGrows(cfg, x.log, t, x.rd, from, from + |x.out|);
    forall i | 0 <= i < |x.out| ensures Published(t, x.out[i]) { ExtendsPublished(x.log, t, x.out[i]); }
  }

  lemma SessionReads(f: Framing, cfg: Config, x: Session, from: nat)
    requires Lawful(f) && SessionOk(cfg, x, from)
    ensures SessionOk(cfg, Move(f, cfg, x, ReaderMoves), from)
  {
    hide Lawful, Inv, ReaderOk, Published, ReadStep;
    ReadKeeps(f, cfg, x.log, x.rd, from, from + |x.out|);
    var (rd, got) := ReadStep(f, x.log, x.rd);
    assert Move(f, cfg, x, ReaderMoves) == Session(x.log, rd, if got.Some? then x.out + [got.value] else x.out);
  }

  // ---- A reader does not see what was fsynced ----

  lemma {:induction false} SegmentAfterAsIf(s: State, i: nat, idx: nat)
    requires i <= |s.files|
    ensures SegmentAfter(AsIf(s, {}), i, idx) == SegmentAfter(s, i, idx)
    decreases |s.files| - i
  {
    if i < |s.files| { SegmentAfterAsIf(s, i + 1, idx); }
  }

  lemma ReadableAsIf(s: State, j: nat)
    requires j < |s.files|
    ensures ReadableLen(AsIf(s, {}), j) == ReadableLen(s, j)
  {
    hide SegmentAfter, Len;
    SegmentAfterAsIf(s, 0, s.files[j].index);
  }

  lemma ReadStepAsIf(f: Framing, s: State, rd: Reader)
    ensures ReadStep(f, AsIf(s, {}), rd) == ReadStep(f, s, rd)
  {
    hide ReadableLen, SegmentAfter, EncodeAll, Len;
    if !rd.OutOfRange? && !rd.Failed? && rd.seg < |s.files| {
      ReadableAsIf(s, rd.seg);
      SegmentAfterAsIf(s, 0, s.files[rd.seg].index);
    }
  }

  lemma {:induction false} PickStartAsIf(s: State, i: nat, from: nat)
    requires i < |s.files|
    ensures PickStart(AsIf(s, {}), i, from) == PickStart(s, i, from)
    decreases |s.files| - i
  {
    if i < |s.files| - 1 { PickStartAsIf(s, i + 1, from); }
  }

  lemma PublishedAsIf(s: State, r: Record)
    ensures Published(AsIf(s, {}), r) <==> Published(s, r)
  {
    hide Len;
    var t := AsIf(s, {});
    if Published(s, r) {
      var i, k :| 0 <= i < |s.files| && 0 <= k < |s.files[i].recs| && s.files[i].recs[k] == r
                  && s.files[i].baseOff + Len(s.files[i].recs[..k + 1]) <= s.committed;
      assert t.files[i].recs[k] == r;
    }
    if Published(t, r) {
      var i, k :| 0 <= i < |t.files| && 0 <= k < |t.files[i].recs| && t.files[i].recs[k] == r
                  && t.files[i].baseOff + Len(t.files[i].recs[..k + 1]) <= t.committed;
      assert s.files[i].recs[k] == r;
    }
  }

  lemma EndsAsIf(s: State)
    ensures FirstUncommitted(AsIf(s, {})) == FirstUncommitted(s) && Floor(AsIf(s, {})) == Floor(s)
  {
    hide Len, Whole;
  }

  lemma NewReaderAsIf(s: State, from: nat)
    ensures NewReader(AsIf(s, {}), from) == NewReader(s, from)
  {
    hide PickStart, Len;
    EndsAsIf(s);
    PickStartAsIf(s, s.first, from);
  }

  function AsIfSession(x: Session): Session { x.(log := AsIf(x.log, {})) }

  lemma ReaderMovesAsIf(f: Framing, cfg: Config, c: Config, x: Session)
    ensures Move(f, c, AsIfSession(x), ReaderMoves) == AsIfSession(Move(f, cfg, x, ReaderMoves))
  {
    hide ReadStep, AsIf;
    ReadStepAsIf(f, x.log, x.rd);
  }

  // ---- Every interleaving, in every sync mode ----

  ghost predicate SessionShape(cfg: Config, x: Session, from: nat) { SessionOk(Fsyncing(cfg), AsIfSession(x), from) }

  lemma MoveKeeps(f: Framing, cfg: Config, x: Session, e: Event, from: nat)
    requires Lawful(f) && SessionShape(cfg, x, from) && (e.LogMoves? ==> !Crash(e.step))
    ensures SessionShape(cfg, Move(f, cfg, x, e), from)
  {
    hide Lawful, Inv, ReaderOk, Published, ReadStep, Next, Extends, AsIf;
    var c, y := Fsyncing(cfg), Move(f, cfg, x, e);
    if e.LogMoves? {
      StepShapes(cfg, x.log, e.step);
      SessionGrows(c, AsIfSession(x), AsIf(y.log, {}), from);
    } else {
      SessionReads(f, c, AsIfSession(x), from);
      ReaderMovesAsIf(f, cfg, c, x);
    }
  }

  lemma {:induction false} MovesKeep(f: Framing, cfg: Config, x: Session, es: seq<Event>, from: nat)
    requires Lawful(f) && SessionShape(cfg, x, from) && NoCrash(es)
    ensures SessionShape(cfg, Moves(f, cfg, x, es), from)
  {
    hide SessionShape, Lawful, Move;
    if es != [] {
      MovesKeep(f, cfg, x, es[..|es| - 1], from);
      MoveKeeps(f, cfg, Moves(f, cfg, x, es[..|es| - 1]), es[|es| - 1], from);
    }
  }

  lemma SessionReturns(cfg: Config, x: Session, from: nat)
    requires SessionShape(cfg, x, from)
    ensures Returned(x, from) && x.rd != OutOfRange && (x.rd == Failed ==> from + |x.out| <= Floor(x.log))
  {
    hide Inv, Published, FirstUncommitted, At, MayDecode;
    EndsAsIf(x.log);
    forall i | 0 <= i < |x.out| ensures Published(x.log, x.out[i]) {
      assert Published(AsIf(x.log, {}), x.out[i]);
      PublishedAsIf(x.log, x.out[i]);
    }
  }

  /** What x has returned are the consecutive committed records from start on. */
  ghost predicate Returned(x: Session, start: nat) {
    forall i :: 0 <= i < |x.out| ==> x.out[i].msgID == start + i && Published(x.log, x.out[i])
  }

  lemma OpensInRange(cfg: Config, s: State, from: nat)
    requires Shape(cfg, s) && Floor(s) <= from <= FirstUncommitted(s)
    ensures SessionShape(cfg, Session(s, NewReader(s, from), []), from)
  {
    hide Inv, FirstUncommitted, PickStart, AsIf;
    var a := AsIf(s, {});
    EndsAsIf(s);
    NewReaderAsIf(s, from);
    assert Floor(a) == a.files[a.first].baseMsgID;
    PickStartAims(Fsyncing(cfg), a, a.first, from);
  }

  /**
   * In every sync mode, after kills with unsynced bytes too, a reader opened between the floor and the first
   * uncommitted MsgID returns exactly that record and its successors, committed ones only, however appends,
   * rotations, flushes and drops are interleaved with it; it fails only once the record it needs next is at
   * or behind the floor.
   */
  lemma ReaderNeverSkips(f: Framing, cfg: Config, steps: seq<Step>, from: nat, es: seq<Event>)
    requires Lawful(f) && SealsSurvive(cfg, steps) && NoCrash(es)
    requires var s := Run(cfg, EMPTY, steps); Floor(s) <= from <= FirstUncommitted(s)
    ensures var s := Run(cfg, EMPTY, steps);
            var x := Moves(f, cfg, Session(s, NewReader(s, from), []), es);
            && (forall i :: 0 <= i < |x.out| ==> x.out[i].msgID == from + i && Published(x.log, x.out[i]))
            && x.rd != OutOfRange
            && (x.rd == Failed ==> from + |x.out| <= Floor(x.log))
  {
    hide Lawful, Shape, Moves, Published, FirstUncommitted, SessionShape, Run, SealsSurvive;
    var s := Run(cfg, EMPTY, steps);
    RunShapes(cfg, steps);
    OpensInRange(cfg, s, from);
    MovesKeep(f, cfg, Session(s, NewReader(s, from), []), es, from);
    SessionReturns(cfg, Moves(f, cfg, Session(s, NewReader(s, from), []), es), from);
  }

  // ---- Opening a reader anywhere, while the log moves ----

  /** The reader is still looking for its start, in a file that reaches up to lo, and has passed no id above from. */
  ghost predicate Looking(s: State, rd: Reader, from: nat, lo: nat) {
    match rd
    case Opening(j, fr) => fr == from && Reaches(s, j, lo)
    case Scanning(j, pos, fr) => fr == from && Reaches(s, j, lo) && exists id: nat :: id <= from && At(s, j, pos, id)
    case ScanDecode(j, pos, fr) =>
      fr == from && Reaches(s, j, lo) && exists id: nat :: id <= from && At(s, j, pos, id) && MayDecode(s, j, id)
    case _ => false
  }

  ghost predicate Reaches(s: State, j: nat, lo: nat) {
    j < |s.files| && s.files[j].baseMsgID <= lo <= s.files[j].baseMsgID + |s.files[j].recs|
  }

  ghost predicate Found(cfg: Config, x: Session, from: nat, lo: nat) {
    exists start: nat :: lo <= start <= from && SessionOk(cfg, x, start)
  }

  ghost predicate OpeningOk(cfg: Config, x: Session, from: nat, lo: nat) {
    && Inv(cfg, x.log) && lo <= from && lo <= FirstUncommitted(x.log)
    && (Found(cfg, x, from, lo) || (x.out == [] && Looking(x.log, x.rd, from, lo)))
  }

  lemma FoundAt(cfg: Config, x: Session, from: nat, lo: nat, start: nat)
    requires lo <= start <= from && SessionOk(cfg, x, start)
    ensures Found(cfg, x, from, lo)
  {
  }

  lemma LookingGrows(cfg: Config, s: State, t: State, rd: Reader, from: nat, lo: nat)
    requires Inv(cfg, s) && Inv(cfg, t) && Extends(s, t) && Looking(s, rd, from, lo)
    ensures Looking(t, rd, from, lo)
  {
    hide Inv, At, MayDecode;
    assert FilesGrow(s.files, t.files);
    match rd
    case Opening(j, _) => assert Grown(s.files[j], t.files[j]);
    case Scanning(j, pos, _) =>
      assert Grown(s.files[j], t.files[j]);
      var id: nat :| id <= from && At(s, j, pos, id);
      AtGrows(s, t, j, pos, id);
    case ScanDecode(j, pos, _) =>
      assert Grown(s.files[j], t.files[j]);
      var id: nat :| id <= from && At(s, j, pos, id) && MayDecode(s, j, id);
      AtGrows(s, t, j, pos, id);
      MayDecodeGrows(cfg, s, t, j, id);
  }

  /** A scan that stops at the readable limit has passed every id committed when it began. */
  lemma ScanPasses(cfg: Config, s: State, j: nat, pos: nat, id: nat, lo: nat)
    requires Inv(cfg, s) && At(s, j, pos, id) && Reaches(s, j, lo)
             && lo <= FirstUncommitted(s) && pos >= ReadableLen(s, j).0
    ensures lo <= id
  {
    hide Inv, Len, FirstUncommitted, ReadableLen, SegmentAfter;
    var g := s.files[j];
    ReadableLenIs(cfg, s, j);
    if lo > id {
      LenPrefix(g.recs, id - g.baseMsgID, lo - g.baseMsgID);
      LenPrefix(g.recs, lo - g.baseMsgID, |g.recs|);
      assert g.recs[..|g.recs|] == g.recs;
      if j == |s.files| - 1 {
        CommittedCovers(cfg, s, lo - g.baseMsgID);
      }
    }
  }

  lemma LookOn(f: Framing, cfg: Config, x: Session, from: nat, lo: nat)
    requires Lawful(f) && OpeningOk(cfg, x, from, lo) && x.out == [] && Looking(x.log, x.rd, from, lo)
    ensures OpeningOk(cfg, Move(f, cfg, x, ReaderMoves), from, lo)
  {
    hide Lawful, Inv, DecodeFrom, ReadableLen, FirstUncommitted, MayDecode, SegmentAfter;
    var s, y := x.log, Move(f, cfg, x, ReaderMoves);
    match x.rd
    case Opening(j, _) =>
      if j < s.first {
        LostBehindFloor(cfg, s, j);
        FoundAt(cfg, y, from, lo, lo);
      } else {
        AtStart(s, j);
      }
    case Scanning(j, pos, _) =>
      var id: nat :| id <= from && At(s, j, pos, id);
      if pos >= ReadableLen(s, j).0 {
        ScanPasses(cfg, s, j, pos, id, lo);
        FoundAt(cfg, y, from, lo, id);
      } else {
        BelowLimit(cfg, s, j, pos, id);
      }
    case ScanDecode(j, pos, _) =>
      LookDecode(f, cfg, x, from, lo, j, pos);
  }

  lemma LookDecode(f: Framing, cfg: Config, x: Session, from: nat, lo: nat, j: nat, pos: nat)
    requires Lawful(f) && OpeningOk(cfg, x, from, lo) && x.out == []
             && x.rd == ScanDecode(j, pos, from) && Looking(x.log, x.rd, from, lo)
    ensures OpeningOk(cfg, Move(f, cfg, x, ReaderMoves), from, lo)
  {
    hide Lawful, Inv, DecodeFrom, ReadableLen, FirstUncommitted, SegmentAfter, Published, Len, Floor;
    var s, y := x.log, Move(f, cfg, x, ReaderMoves);
    var id: nat :| id <= from && At(s, j, pos, id) && MayDecode(s, j, id);
    DecodesNext(f, cfg, s, j, pos, id);
    var d := DecodeFrom(f, s.files[j], pos);
    if d.Got? {
      if id == from {
        FoundAt(cfg, y, from, lo, from);
      }
    } else {
      LostBehindFloor(cfg, s, j);
      FoundAt(cfg, y, from, lo, lo);
    }
  }

  ghost predicate OpeningShape(cfg: Config, x: Session, from: nat, lo: nat) {
    OpeningOk(Fsyncing(cfg), AsIfSession(x), from, lo)
  }

  lemma OpeningGrows(cfg: Config, x: Session, t: State, from: nat, lo: nat)
    requires OpeningOk(cfg, x, from, lo) && Inv(cfg, t) && Extends(x.log, t)
    ensures OpeningOk(cfg, x.(log := t), from, lo)
  {
    hide Inv, FirstUncommitted, Looking, SessionOk, Extends;
    UncommittedGrows(cfg, x.log, t);
    if Found(cfg, x, from, lo) {
      var start: nat :| lo <= start <= from && SessionOk(cfg, x, start);
      SessionGrows(cfg, x, t, start);
      FoundAt(cfg, x.(log := t), from, lo, start);
    } else {
      LookingGrows(cfg, x.log, t, x.rd, from, lo);
    }
  }

  lemma OpeningReads(f: Framing, cfg: Config, x: Session, from: nat, lo: nat)
    requires Lawful(f) && OpeningOk(cfg, x, from, lo)
    ensures OpeningOk(cfg, Move(f, cfg, x, ReaderMoves), from, lo)
  {
    hide Lawful, Inv, FirstUncommitted, Looking, SessionOk, ReadStep;
    if Found(cfg, x, from, lo) {
      var start: nat :| lo <= start <= from && SessionOk(cfg, x, start);
      SessionReads(f, cfg, x, start);
      FoundAt(cfg, Move(f, cfg, x, ReaderMoves), from, lo, start);
    } else {
      LookOn(f, cfg, x, from, lo);
    }
  }

  lemma OpeningMoves(f: Framing, cfg: Config, x: Session, e: Event, from: nat, lo: nat)
    requires Lawful(f) && OpeningShape(cfg, x, from, lo) && (e.LogMoves? ==> !Crash(e.step))
    ensures OpeningShape(cfg, Move(f, cfg, x, e), from, lo)
  {
    hide Lawful, Inv, FirstUncommitted, Looking, Found, Next, Extends, ReadStep, AsIf;
    var c, y := Fsyncing(cfg), Move(f, cfg, x, e);
    if e.LogMoves? {
      StepShapes(cfg, x.log, e.step);
      OpeningGrows(c, AsIfSession(x), AsIf(y.log, {}), from, lo);
    } else {
      OpeningReads(f, c, AsIfSession(x), from, lo);
      ReaderMovesAsIf(f, cfg, c, x);
    }
  }

  lemma {:induction false} OpeningKeeps(f: Framing, cfg: Config, x: Session, es: seq<Event>, from: nat, lo: nat)
    requires Lawful(f) && OpeningShape(cfg, x, from, lo) && NoCrash(es)
    ensures OpeningShape(cfg, Moves(f, cfg, x, es), from, lo)
  {
    hide OpeningShape, Lawful, Move;
    if es != [] {
      OpeningKeeps(f, cfg, x, es[..|es| - 1], from, lo);
      OpeningMoves(f, cfg, Moves(f, cfg, x, es[..|es| - 1]), es[|es| - 1], from, lo);
    }
  }

  lemma OpeningReturns(cfg: Config, x: Session, from: nat, lo: nat)
    requires OpeningShape(cfg, x, from, lo)
    ensures exists start: nat :: lo <= start <= from && Returned(x, start)
  {
    hide Inv, FirstUncommitted, Looking, SessionOk, AsIf;
    var c, y := Fsyncing(cfg), AsIfSession(x);
    if Found(c, y, from, lo) {
      var start: nat :| lo <= start <= from && SessionOk(c, y, start);
      SessionReturns(cfg, x, start);
    } else {
      assert Returned(x, lo);
    }
  }

  lemma OpensLooking(cfg: Config, s: State, from: nat)
    requires Shape(cfg, s) && Floor(s) <= from
    ensures OpeningShape(cfg, Session(s, NewReader(s, from), []), from, StartsAt(s, from))
  {
    hide Inv, FirstUncommitted, PickStart, AsIf;
    var a := AsIf(s, {});
    EndsAsIf(s);
    NewReaderAsIf(s, from);
    StartAimed(Fsyncing(cfg), a, from);
  }

  /**
   * In every sync mode, a reader opened at any id from the floor on, also past the committed end, returns
   * consecutive committed records, whatever the log does while it opens and reads. They begin at the id asked
   * for, or, if that was not committed yet, at some id between the committed end at the time of opening and
   * the one asked for.
   */
  lemma ReaderOpensAnywhere(f: Framing, cfg: Config, steps: seq<Step>, from: nat, es: seq<Event>)
    requires Lawful(f) && SealsSurvive(cfg, steps) && NoCrash(es)
    requires Floor(Run(cfg, EMPTY, steps)) <= from
    ensures var s := Run(cfg, EMPTY, steps);
            var x := Moves(f, cfg, Session(s, NewReader(s, from), []), es);
            exists start: nat :: StartsAt(s, from) <= start <= from && Returned(x, start)
  {
    hide Lawful, Moves, Shape, OpeningShape, Returned, StartsAt, NewReader, Run, SealsSurvive;
    var s := Run(cfg, EMPTY, steps);
    RunShapes(cfg, steps);
    OpensLooking(cfg, s, from);
    var x0 := Session(s, NewReader(s, from), []);
    OpeningKeeps(f, cfg, x0, es, from, StartsAt(s, from));
    OpeningReturns(cfg, Moves(f, cfg, x0, es), from, StartsAt(s, from));
  }

  // ---- Opening a reader while the log stands still ----

  /** Where delivery of a reader opened at from begins: not at from, if that lies past the committed end. */
  function StartsAt(s: State, from: nat): nat {
    if from <= FirstUncommitted(s) then from else FirstUncommitted(s)
  }

  lemma {:induction false} PickStartLast(cfg: Config, s: State, i: nat, from: nat)
    requires Inv(cfg, s) && i < |s.files| && from >= FirstUncommitted(s)
    ensures PickStart(s, i, from) == |s.files| - 1
    decreases |s.files| - i
  {
    if i < |s.files| - 1 {
      if i + 1 < |s.files| - 1 { BasesOrdered(cfg, s.files, i + 1, |s.files| - 1); }
      PickStartLast(cfg, s, i + 1, from);
    }
  }

  lemma StartAimed(cfg: Config, s: State, from: nat)
    requires Inv(cfg, s) && Floor(s) <= from
    ensures Aims(s, PickStart(s, s.first, from), StartsAt(s, from))
  {
    if from <= FirstUncommitted(s) {
      PickStartAims(cfg, s, s.first, from);
    } else {
      PickStartLast(cfg, s, s.first, from);
      CommittedCovers(cfg, s, 0);
      if s.first < |s.files| - 1 { BasesOrdered(cfg, s.files, s.first, |s.files| - 1); }
    }
  }

  lemma ScanNext(f: Framing, cfg: Config, s: State, j: nat, pos: nat, id: nat)
    requires Lawful(f) && Inv(cfg, s) && s.first <= j && At(s, j, pos, id) && pos < ReadableLen(s, j).0
    ensures var d := DecodeFrom(f, s.files[j], pos); d.Got? && d.rec.msgID == id && At(s, j, pos + d.n, id + 1)
    ensures id < FirstUncommitted(s)
  {
    hide Lawful, Inv, ReadableLen, DecodeFrom, Published, FirstUncommitted, Len;
    BelowLimit(cfg, s, j, pos, id);
    DecodesNext(f, cfg, s, j, pos, id);
    PublishedIsCommitted(cfg, s, s.files[j].recs[id - s.files[j].baseMsgID]);
  }

  lemma PublishedIsCommitted(cfg: Config, s: State, r: Record)
    requires Inv(cfg, s) && Published(s, r)
    ensures r.msgID < FirstUncommitted(s)
  {
    hide FilesOk, HistoryOk, FlushOk, TailOk, Whole, Boundary;
    var i, k :| 0 <= i < |s.files| && 0 <= k < |s.files[i].recs| && s.files[i].recs[k] == r
                && s.files[i].baseOff + Len(s.files[i].recs[..k + 1]) <= s.committed;
    SegmentAt(cfg, s.files, i);
    if i < |s.files| - 1 {
      BasesOrdered(cfg, s.files, i, |s.files| - 1);
    } else {
      FitsWhole(Active(s).recs, s.committed - Active(s).baseOff, k + 1);
    }
  }

  lemma AtAsIf(s: State, j: nat, pos: nat, id: nat)
    ensures At(AsIf(s, {}), j, pos, id) <==> At(s, j, pos, id)
  {
    hide Len;
  }

  lemma AtBound(s: State, j: nat, pos: nat, id: nat)
    requires At(s, j, pos, id)
    ensures j < |s.files| && id <= s.files[j].baseMsgID + |s.files[j].recs|
  {
  }

  lemma AimsAsIf(s: State, j: nat, from: nat)
    ensures Aims(AsIf(s, {}), j, from) <==> Aims(s, j, from)
  {
    hide FirstUncommitted, Len;
    EndsAsIf(s);
  }

  lemma StartAimedShape(cfg: Config, s: State, from: nat)
    requires Shape(cfg, s) && Floor(s) <= from
    ensures Aims(s, PickStart(s, s.first, from), StartsAt(s, from))
  {
    hide Inv, FirstUncommitted, PickStart, Aims;
    EndsAsIf(s);
    PickStartAsIf(s, s.first, from);
    StartAimed(Fsyncing(cfg), AsIf(s, {}), from);
    AimsAsIf(s, PickStart(s, s.first, from), StartsAt(s, from));
  }

  lemma ScanNextShape(f: Framing, cfg: Config, s: State, j: nat, pos: nat, id: nat)
    requires Lawful(f) && Shape(cfg, s) && s.first <= j && At(s, j, pos, id) && pos < ReadableLen(s, j).0
    ensures var d := DecodeFrom(f, s.files[j], pos); d.Got? && d.rec.msgID == id && At(s, j, pos + d.n, id + 1)
    ensures id < FirstUncommitted(s)
  {
    hide Lawful, Inv, FirstUncommitted, ReadableLen, EncodeAll, Len;
    var a := AsIf(s, {});
    EndsAsIf(s);
    ReadableAsIf(s, j);
    AtAsIf(s, j, pos, id);
    ScanNext(f, Fsyncing(cfg), a, j, pos, id);
    assert DecodeFrom(f, a.files[j], pos) == DecodeFrom(f, s.files[j], pos);
    AtAsIf(s, j, pos + DecodeFrom(f, s.files[j], pos).n, id + 1);
  }

  lemma ScanReachesShape(cfg: Config, s: State, j: nat, pos: nat, id: nat, from: nat)
    requires Shape(cfg, s) && At(s, j, pos, id) && id <= from && Aims(s, j, from) && pos >= ReadableLen(s, j).0
    ensures id == from
  {
    hide Inv, At, Aims, ReadableLen, AsIf;
    assert j < |s.files| by { AtWithin(s, j, pos, id); }
    ReadableAsIf(s, j);
    AtAsIf(s, j, pos, id);
    AimsAsIf(s, j, from);
    ScanReaches(Fsyncing(cfg), AsIf(s, {}), j, pos, id, from);
  }

  /** The segment search and the scan of NewReader. */
  method OpenReader(f: Framing, ghost cfg: Config, s: State, from: nat) returns (rd: Reader)
    requires Lawful(f) && Shape(cfg, s)
    ensures rd == OutOfRange <==> from < Floor(s)
    ensures rd != OutOfRange ==> rd.Ready? && At(s, rd.seg, rd.pos, StartsAt(s, from))
  {
    hide Lawful, Shape, ReadableLen, FirstUncommitted, At, DecodeFrom;
    if from < s.files[s.first].baseMsgID {
      return OutOfRange;
    }
    var j := s.first;
    while j + 1 < |s.files| && from >= s.files[j + 1].baseMsgID
      invariant s.first <= j < |s.files|
      invariant PickStart(s, s.first, from) == PickStart(s, j, from)
    {
      j := j + 1;
    }
    StartAimedShape(cfg, s, from);
    AtStart(s, j);
    var pos: nat := 0;
    ghost var id := s.files[j].baseMsgID;
    while pos < ReadableLen(s, j).0
      invariant At(s, j, pos, id) && id <= StartsAt(s, from)
      decreases s.files[j].baseMsgID + |s.files[j].recs| - id
    {
      ScanNextShape(f, cfg, s, j, pos, id);
      AtBound(s, j, pos, id);
      var d := DecodeFrom(f, s.files[j], pos);
      if d.rec.msgID >= from {
        break;
      }
      pos, id := pos + d.n, id + 1;
    }
    if pos >= ReadableLen(s, j).0 { ScanReachesShape(cfg, s, j, pos, id, StartsAt(s, from)); }
    rd := Ready(j, pos);
  }

  /** What such a reader goes on to return: the successors of StartsAt, whether or not that is what was asked for. */
  lemma OpenedReaderDelivers(f: Framing, cfg: Config, s: State, rd: Reader, from: nat, es: seq<Event>)
    requires Lawful(f) && Shape(cfg, s) && NoCrash(es)
    requires rd.Ready? && At(s, rd.seg, rd.pos, StartsAt(s, from))
    ensures var x := Moves(f, cfg, Session(s, rd, []), es);
            && (forall i :: 0 <= i < |x.out| ==> x.out[i].msgID == StartsAt(s, from) + i && Published(x.log, x.out[i]))
            && (x.out != [] ==> (x.out[0].msgID == from <==> from <= FirstUncommitted(s)))
  {
    hide Lawful, Inv, Moves, Published, FirstUncommitted, At;
    var x0 := Session(s, rd, []);
    AtAsIf(s, rd.seg, rd.pos, StartsAt(s, from));
    MovesKeep(f, cfg, x0, es, StartsAt(s, from));
    SessionReturns(cfg, Moves(f, cfg, x0, es), StartsAt(s, from));
  }

  // ---- A reader gets on ----

  /** A record the reader stands before, in its own file and committed, is below the readable limit. */
  lemma LimitAhead(cfg: Config, s: State, j: nat, pos: nat, next: nat)
    requires Inv(cfg, s) && At(s, j, pos, next) && s.first <= j && next < FirstUncommitted(s)
    requires next < s.files[j].baseMsgID + |s.files[j].recs|
    ensures pos < ReadableLen(s, j).0
  {
    hide HistoryOk, FlushOk, FilesOk, Whole, FirstUncommitted;
    var g := s.files[j];
    var k := next - g.baseMsgID;
    ReadableLenIs(cfg, s, j);
    LenPrefix(g.recs, k, k + 1);
    LenPrefix(g.recs, k + 1, |g.recs|);
    assert g.recs[..|g.recs|] == g.recs;
    if j == |s.files| - 1 {
      CommittedCovers(cfg, s, k + 1);
    }
  }

  /** Two stretches return the record. */
  lemma TwoMoves(f: Framing, cfg: Config, s: State, j: nat, pos: nat, next: nat)
    requires Lawful(f) && Inv(cfg, s) && At(s, j, pos, next) && s.first <= j && next < FirstUncommitted(s)
    requires next < s.files[j].baseMsgID + |s.files[j].recs|
    ensures ReadStep(f, s, Ready(j, pos)) == (Decoding(j, pos), None)
    ensures var r := s.files[j].recs[next - s.files[j].baseMsgID];
            ReadStep(f, s, Decoding(j, pos)) == (Ready(j, pos + Size(r)), Some(r))
  {
    hide Lawful, Inv, DecodeFrom, ReadableLen, FirstUncommitted;
    LimitAhead(cfg, s, j, pos, next);
    DecodesNext(f, cfg, s, j, pos, next);
    assert j < |s.files| by { AtWithin(s, j, pos, next); }
  }

  /** At the end of a sealed file two stretches lead to the start of the next one, which has the record. */
  lemma TwoMovesOn(f: Framing, cfg: Config, s: State, j: nat, pos: nat, next: nat)
    requires Lawful(f) && Inv(cfg, s) && At(s, j, pos, next) && s.first <= j && next < FirstUncommitted(s)
    requires next == s.files[j].baseMsgID + |s.files[j].recs|
    ensures j + 1 < |s.files| && ReadStep(f, s, Ready(j, pos)) == (Rolling(j + 1), None)
            && ReadStep(f, s, Rolling(j + 1)) == (Ready(j + 1, 0), None)
    ensures At(s, j + 1, 0, next) && next < s.files[j + 1].baseMsgID + |s.files[j + 1].recs|
  {
    hide Lawful, HistoryOk, FlushOk, CommittedOk, TailOk, FilesOk, Whole, DecodeFrom, SegmentAfter, ReadableLen;
    var g := s.files[j];
    assert g.recs[..|g.recs|] == g.recs;
    assert FirstUncommitted(s) <= Active(s).baseMsgID + |Active(s).recs| by {
      WholeIsMaximal(Active(s).recs, if s.committed >= Active(s).baseOff then s.committed - Active(s).baseOff else 0);
    }
    ReadableLenIs(cfg, s, j);
    if j + 1 == |s.files| - 1 {
      AtStart(s, j + 1);
    } else {
      SealedNotEmpty(cfg, s, j + 1);
      AtStart(s, j + 1);
    }
  }

  lemma SealedNotEmpty(cfg: Config, s: State, i: nat)
    requires Inv(cfg, s) && i < |s.files| - 1
    ensures s.files[i].recs != []
  {
    assert Sealed(s.files[i], s.files[i + 1]);
  }

  function ReadOn(f: Framing, cfg: Config, x: Session): Session { Move(f, cfg, x, ReaderMoves) }

  lemma ReadOnAppends(f: Framing, cfg: Config, x: Session)
    ensures x.out <= ReadOn(f, cfg, x).out && ReadOn(f, cfg, x).log == x.log
  {
    hide ReadStep;
  }

  lemma TwoSteps(f: Framing, cfg: Config, x: Session, next: nat)
    requires Lawful(f) && Inv(cfg, x.log) && x.rd.Ready?
             && At(x.log, x.rd.seg, x.rd.pos, next) && x.log.first <= x.rd.seg
    requires next < FirstUncommitted(x.log) && next < x.log.files[x.rd.seg].baseMsgID + |x.log.files[x.rd.seg].recs|
    ensures var g := x.log.files[x.rd.seg];
            ReadOn(f, cfg, ReadOn(f, cfg, x)).out == x.out + [g.recs[next - g.baseMsgID]]
  {
    hide Lawful, Inv, ReadStep, FirstUncommitted, At;
    assert x.rd == Ready(x.rd.seg, x.rd.pos);
    TwoMoves(f, cfg, x.log, x.rd.seg, x.rd.pos, next);
  }

  lemma DeliversWithin(f: Framing, cfg: Config, x: Session, next: nat)
    requires Lawful(f) && Inv(cfg, x.log) && x.rd.Ready? && At(x.log, x.rd.seg, x.rd.pos, next)
    requires x.log.first <= x.rd.seg && next < FirstUncommitted(x.log)
    ensures x.out < ReadOn(f, cfg, ReadOn(f, cfg, ReadOn(f, cfg, ReadOn(f, cfg, x)))).out
  {
    hide Lawful, Inv, FirstUncommitted, ReadStep, ReadOn;
    var s, j, pos := x.log, x.rd.seg, x.rd.pos;
    var x2 := ReadOn(f, cfg, ReadOn(f, cfg, x));
    ReadOnAppends(f, cfg, x);
    ReadOnAppends(f, cfg, ReadOn(f, cfg, x));
    ReadOnAppends(f, cfg, x2);
    ReadOnAppends(f, cfg, ReadOn(f, cfg, x2));
    if next < s.files[j].baseMsgID + |s.files[j].recs| {
      TwoSteps(f, cfg, x, next);
    } else {
      RollSteps(f, cfg, x, next);
      TwoMovesOn(f, cfg, s, j, pos, next);
      TwoSteps(f, cfg, x2, next);
    }
  }

  lemma RollSteps(f: Framing, cfg: Config, x: Session, next: nat)
    requires Lawful(f) && Inv(cfg, x.log) && x.rd.Ready?
             && At(x.log, x.rd.seg, x.rd.pos, next) && x.log.first <= x.rd.seg
    requires next < FirstUncommitted(x.log) && next == x.log.files[x.rd.seg].baseMsgID + |x.log.files[x.rd.seg].recs|
    ensures ReadOn(f, cfg, ReadOn(f, cfg, x)) == x.(rd := Ready(x.rd.seg + 1, 0))
  {
    hide Lawful, Inv, ReadStep, FirstUncommitted, At;
    assert x.rd == Ready(x.rd.seg, x.rd.pos);
    TwoMovesOn(f, cfg, x.log, x.rd.seg, x.rd.pos, next);
  }

  /** A reader standing before a committed record of a retained segment returns it within four stretches. */
  lemma ReaderDelivers(f: Framing, cfg: Config, x: Session, next: nat)
    requires Lawful(f) && Shape(cfg, x.log) && x.rd.Ready? && At(x.log, x.rd.seg, x.rd.pos, next)
    requires x.log.first <= x.rd.seg && next < FirstUncommitted(x.log)
    ensures x.out < ReadOn(f, cfg, ReadOn(f, cfg, ReadOn(f, cfg, ReadOn(f, cfg, x)))).out
  {
    hide Lawful, Inv, FirstUncommitted, At, ReadStep;
    var c, y := Fsyncing(cfg), AsIfSession(x);
    EndsAsIf(x.log);
    AtAsIf(x.log, x.rd.seg, x.rd.pos, next);
    DeliversWithin(f, c, y, next);
    var x1 := ReadOn(f, cfg, x);
    var x2 := ReadOn(f, cfg, x1);
    var x3 := ReadOn(f, cfg, x2);
    ReaderMovesAsIf(f, cfg, c, x);
    ReaderMovesAsIf(f, cfg, c, x1);
    ReaderMovesAsIf(f, cfg, c, x2);
    ReaderMovesAsIf(f, cfg, c, x3);
  }

  /** Without fsync every record written is committed, and so delivered, at once. */
  lemma NoSyncDelivers(cfg: Config, steps: seq<Step>)
    requires cfg.mode == NoSync && SealsSurvive(cfg, steps)
    ensures var s := Run(cfg, EMPTY, steps); FirstUncommitted(s) == s.next
  {
    hide Run, SealsSurvive, FilesOk, HistoryOk, FlushOk, Boundary, Whole, Len;
    var s := Run(cfg, EMPTY, steps);
    RunShapes(cfg, steps);
    NoSyncCommits(cfg, steps);
    EndsAsIf(s);
    assert TailOk(AsIf(s, {}));
    WholeAll(Active(s).recs);
  }
}
