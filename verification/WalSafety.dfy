/** What every run of the log keeps in the two durable modes. */
module WalSafety {
  import opened Bytes
  import opened Codec
  import opened Stream
  import opened Wal

  // ---- The invariant ----

  /** Dense MsgIDs from the base, the retention marks exact, and one record or at most segmentBytes. */
  ghost predicate SegmentOk(cfg: Config, g: Segment) {
    && AllEncodable(g.recs)
    && (forall i :: 0 <= i < |g.recs| ==> g.recs[i].msgID == g.baseMsgID + i)
    && g.maxTs == MaxTs(g.recs) && g.maxVis == MaxVis(g.recs)
    && g.durable <= Len(g.recs)
    && (cfg.segmentBytes == 0 || |g.recs| <= 1 || Len(g.recs) <= cfg.segmentBytes)
  }

  /** g is sealed: not empty, fully durable, and its successor starts where it ends. */
  ghost predicate Sealed(g: Segment, h: Segment) {
    && g.recs != [] && g.durable == Len(g.recs)
    && g.index < h.index
    && h.baseOff == g.baseOff + Len(g.recs)
    && h.baseMsgID == g.baseMsgID + |g.recs|
  }

  ghost predicate FilesOk(cfg: Config, files: seq<Segment>) {
    && files != [] && files[0].baseOff == 0
    && (forall i :: 0 <= i < |files| ==> SegmentOk(cfg, files[i]))
    && (forall i, j :: 0 <= i && j == i + 1 && j < |files| ==> Sealed(files[i], files[j]))
  }

  /** off is the end of some record of g, or its start. */
  ghost predicate Boundary(g: Segment, off: nat) {
    exists k :: 0 <= k <= |g.recs| && off == g.baseOff + Len(g.recs[..k])
  }

  /** rec is retained and ends at or below the committed offset. */
  ghost predicate Visible(s: State, rec: Record) {
    exists i, k :: s.first <= i < |s.files| && 0 <= k < |s.files[i].recs| && s.files[i].recs[k] == rec
                   && s.files[i].baseOff + Len(s.files[i].recs[..k + 1]) <= s.committed
  }

  /** rec sits in some file and ends at logical offset end. */
  ghost predicate Located(files: seq<Segment>, rec: Record, end: nat) {
    exists i, k ::
      && 0 <= i < |files| && 0 <= k < |files[i].recs|
      && files[i].recs[k] == rec && end == files[i].baseOff + Len(files[i].recs[..k + 1])
  }

  ghost predicate FlushOk(s: State) {
    match s.flush
    case Idle => true
    case Snapped(snap, i) => i < |s.files| && Boundary(s.files[i], snap)
    case Synced(snap, i, ok) =>
      && i < |s.files| && Boundary(s.files[i], snap)
      && (ok ==> snap <= s.files[i].baseOff + s.files[i].durable)
  }

  ghost predicate TailOk(s: State) {
    && s.next == Active(s).baseMsgID + |Active(s).recs| <= U64
    && s.written == Active(s).baseOff + Len(Active(s).recs)
  }

  /** committed is on a record boundary of the active segment and within its durable bytes. */
  ghost predicate CommittedOk(s: State) {
    && Active(s).baseOff <= s.committed <= Active(s).baseOff + Active(s).durable
    && Boundary(Active(s), s.committed)
  }

  ghost predicate HistoryOk(s: State) {
    && (forall r :: r in s.acked ==> r in s.dropped || Visible(s, r))
    && (forall p :: p in s.pending ==> Located(s.files, p.0, p.1))
    && (forall i, k :: 0 <= i < s.first && 0 <= k < |s.files[i].recs| ==> s.files[i].recs[k] in s.dropped)
  }

  ghost predicate Inv(cfg: Config, s: State) {
    && !s.down && FilesOk(cfg, s.files) && TailOk(s) && CommittedOk(s) && FlushOk(s) && HistoryOk(s)
  }

  // ---- Files only grow while the process lives ----

  ghost predicate Grown(g: Segment, h: Segment) {
    && h.index == g.index && h.baseMsgID == g.baseMsgID && h.baseOff == g.baseOff
    && g.recs <= h.recs && g.durable <= h.durable
  }

  ghost predicate FilesGrow(a: seq<Segment>, b: seq<Segment>) {
    |a| <= |b| && forall i :: 0 <= i < |a| ==> Grown(a[i], b[i])
  }

  lemma FitsWhole(rs: seq<Record>, m: nat, k: nat)
    requires k <= |rs| && Len(rs[..k]) <= m
    ensures k <= Whole(rs, m)
  {
    WholeIsMaximal(rs, m);
    var w := Whole(rs, m);
    if w < k { LenPrefix(rs, w + 1, k); }
  }

  lemma WholeAll(rs: seq<Record>)
    ensures Whole(rs, Len(rs)) == |rs|
  {
  }

  lemma BoundaryGrows(g: Segment, h: Segment, off: nat)
    requires Grown(g, h) && Boundary(g, off)
    ensures Boundary(h, off)
  {
    var k :| 0 <= k <= |g.recs| && off == g.baseOff + Len(g.recs[..k]);
    assert h.recs[..k] == g.recs[..k];
  }

  lemma VisibleGrows(s: State, t: State, r: Record)
    requires FilesGrow(s.files, t.files) && s.first == t.first && s.committed <= t.committed && Visible(s, r)
    ensures Visible(t, r)
  {
    var i, k :| s.first <= i < |s.files| && 0 <= k < |s.files[i].recs| && s.files[i].recs[k] == r
                && s.files[i].baseOff + Len(s.files[i].recs[..k + 1]) <= s.committed;
    assert t.files[i].recs[..k + 1] == s.files[i].recs[..k + 1];
    assert t.files[i].recs[k] == r;
  }

  lemma LocatedGrows(a: seq<Segment>, b: seq<Segment>, r: Record, end: nat)
    requires FilesGrow(a, b) && Located(a, r, end)
    ensures Located(b, r, end)
  {
    var i, k :| 0 <= i < |a| && 0 <= k < |a[i].recs|
      && a[i].recs[k] == r && end == a[i].baseOff + Len(a[i].recs[..k + 1]);
    assert b[i].recs[..k + 1] == a[i].recs[..k + 1];
    assert b[i].recs[k] == r;
  }

  /** Growth keeps everything the invariant says about history. */
  lemma HistoryGrows(s: State, t: State)
    requires FilesGrow(s.files, t.files) && s.first == t.first && s.committed <= t.committed
    requires t.acked == s.acked && t.dropped == s.dropped && t.pending == s.pending
    requires forall i :: 0 <= i < s.first ==> t.files[i].recs == s.files[i].recs
    requires HistoryOk(s)
    ensures HistoryOk(t)
  {
    forall r | r in t.acked && r !in t.dropped ensures Visible(t, r) { VisibleGrows(s, t, r); }
    forall p | p in t.pending ensures Located(t.files, p.0, p.1) { LocatedGrows(s.files, t.files, p.0, p.1); }
  }

  lemma FlushGrows(s: State, t: State)
    requires FilesGrow(s.files, t.files) && t.flush == s.flush && FlushOk(s)
    ensures FlushOk(t)
  {
    if s.flush.Snapped? || s.flush.Synced? {
      BoundaryGrows(s.files[s.flush.seg], t.files[s.flush.seg], s.flush.snap);
    }
  }

  lemma {:induction false} BasesOrdered(cfg: Config, files: seq<Segment>, i: nat, j: nat)
    requires FilesOk(cfg, files) && i < j < |files|
    ensures files[i].baseOff + Len(files[i].recs) <= files[j].baseOff
    ensures files[i].baseMsgID + |files[i].recs| <= files[j].baseMsgID
    ensures files[i].index < files[j].index
    ensures files[i].durable == Len(files[i].recs)
    decreases j - i
  {
    assert Sealed(files[i], files[i + 1]);
    if i + 1 < j { BasesOrdered(cfg, files, i + 1, j); }
  }

  // ---- Steps ----

  /** Nothing is taken back: files grow, the committed offset and the floor never fall. */
  ghost predicate Extends(s: State, t: State) {
    FilesGrow(s.files, t.files) && s.first <= t.first && s.committed <= t.committed
  }

  lemma ExtendsTransitive(s: State, t: State, u: State)
    requires Extends(s, t) && Extends(t, u)
    ensures Extends(s, u)
  {
    forall i | 0 <= i < |s.files| ensures Grown(s.files[i], u.files[i]) {
      assert Grown(s.files[i], t.files[i]) && Grown(t.files[i], u.files[i]);
    }
  }

  lemma ReplaceActive(cfg: Config, files: seq<Segment>, g: Segment)
    requires FilesOk(cfg, files) && SegmentOk(cfg, g) && Grown(files[|files| - 1], g)
    ensures FilesOk(cfg, files[|files| - 1 := g]) && FilesGrow(files, files[|files| - 1 := g])
  {
  }

  /** After an fsync of the active segment committed may move to the write offset. */
  lemma CommitAllKeeps(cfg: Config, s: State)
    requires Inv(cfg, s)
    ensures var t: State := FsyncActive(s).(committed := s.written);
            Inv(cfg, t) && Extends(s, t)
  {
    hide FilesOk, HistoryOk, FlushOk, Located, Len;
    var t: State := FsyncActive(s).(committed := s.written);
    var rs := Active(s).recs;
    SegmentAt(cfg, s.files, |s.files| - 1);
    ReplaceActive(cfg, s.files, Active(t));
    assert rs[..|rs|] == rs;
    HistoryGrows(s, t);
    FlushGrows(s, t);
  }

  lemma AllVisible(s: State, r: Record)
    requires s.committed == s.written == Active(s).baseOff + Len(Active(s).recs) && r in Active(s).recs
    ensures Visible(s, r)
  {
    var rs := Active(s).recs;
    var k :| 0 <= k < |rs| && rs[k] == r;
    LenPrefix(rs, k + 1, |rs|);
    assert rs[..|rs|] == rs;
    assert s.files[|s.files| - 1].recs[k] == r;
  }

  lemma CommittedWithinWritten(cfg: Config, s: State)
    requires Inv(cfg, s)
    ensures s.committed <= s.written
    ensures s.committed == s.written ==> Active(s).durable == Len(Active(s).recs)
  {
  }

  /** Appending an empty segment to a log whose active segment is fully committed. */
  lemma OpenKeeps(cfg: Config, s: State)
    requires Inv(cfg, s) && s.committed == s.written && Active(s).recs != []
    ensures var t: State := s.(files := s.files + [Segment(Active(s).index + 1, s.next, s.written, 0, 0, [], 0)]);
            Inv(cfg, t) && Extends(s, t)
  {
    var g := Segment(Active(s).index + 1, s.next, s.written, 0, 0, [], 0);
    var t: State := s.(files := s.files + [g]);
    assert Active(t) == g;
    assert Sealed(Active(s), g);
    assert g.recs[..0] == [];
    assert Boundary(g, t.committed);
    HistoryGrows(s, t);
    FlushGrows(s, t);
  }

  lemma RotateKeeps(cfg: Config, s: State, io: Io)
    requires Inv(cfg, s) && Active(s).recs != []
    ensures var (t, ok) := Rotate(s, io);
            && Inv(cfg, t) && Extends(s, t) && t.next == s.next && (ok ==> Active(t).recs == [])
  {
    hide Inv, Extends;
    CommittedWithinWritten(cfg, s);
    ExtendsReflexive(s);
    var s1: State := s;
    if s.written > s.committed {
      CommitAllKeeps(cfg, s);
      s1 := FsyncActive(s).(committed := s.written);
    }
    OpenKeeps(cfg, s1);
    ExtendsTransitive(s, s1,
      s1.(files := s1.files + [Segment(Active(s1).index + 1, s1.next, s1.written, 0, 0, [], 0)]));
  }

  lemma ExtendsReflexive(s: State)
    ensures Extends(s, s)
  {
  }

  lemma WriteKeeps(cfg: Config, s: State, r: Record)
    requires Inv(cfg, s) && Encodable(r) && r.msgID == s.next < U64
    requires !MustRotate(cfg, s, r) || Active(s).recs == []
    ensures var t := WriteActive(s, r); Inv(cfg, t) && Extends(s, t) && Located(t.files, r, t.written)
  {
    hide HistoryOk, FlushOk, Boundary, SegmentOk, FilesOk, Encodable, Located, Max;
    var t := WriteActive(s, r);
    var g := Active(s);
    SegmentAt(cfg, s.files, |s.files| - 1);
    SegmentGrows(cfg, g, r);
    ReplaceActive(cfg, s.files, Active(t));
    BoundaryGrows(g, Active(t), s.committed);
    HistoryGrows(s, t);
    FlushGrows(s, t);
    LocatedLast(t);
  }

  lemma SegmentAt(cfg: Config, files: seq<Segment>, i: nat)
    requires FilesOk(cfg, files) && i < |files|
    ensures SegmentOk(cfg, files[i]) && files[i].durable <= Len(files[i].recs)
            && (files[i].recs == [] <==> Len(files[i].recs) == 0)
  {
  }

  lemma LocatedLast(s: State)
    requires Active(s).recs != [] && s.written == Active(s).baseOff + Len(Active(s).recs)
    ensures Located(s.files, Active(s).recs[|Active(s).recs| - 1], s.written)
  {
    var last := |s.files| - 1;
    var k := |s.files[last].recs| - 1;
    assert s.files[last].recs[..k + 1] == s.files[last].recs;
    assert s.files[last].recs[k] == Active(s).recs[|Active(s).recs| - 1];
  }

  lemma SegmentGrows(cfg: Config, g: Segment, r: Record)
    requires SegmentOk(cfg, g) && Encodable(r) && r.msgID == g.baseMsgID + |g.recs|
    ensures var h := g.(recs := g.recs + [r], maxTs := Max(g.maxTs, r.tsNs), maxVis := Max(g.maxVis, r.visibleAtNs));
            && Len(h.recs) == Len(g.recs) + Size(r) && Grown(g, h)
            && (cfg.segmentBytes == 0 || g.recs == [] || Len(g.recs) + Size(r) <= cfg.segmentBytes ==>
                  SegmentOk(cfg, h))
  {
    var rs := g.recs + [r];
    assert rs[..|rs| - 1] == g.recs;
  }

  lemma HistoryChange(cfg: Config, s: State, t: State)
    requires Inv(cfg, s) && t == s.(acked := t.acked, pending := t.pending)
    requires forall r :: r in t.acked && r !in s.acked ==> r in s.dropped || Visible(s, r)
    requires forall p :: p in t.pending && p !in s.pending ==> Located(s.files, p.0, p.1)
    ensures Inv(cfg, t) && Extends(s, t)
  {
    assert forall r :: Visible(s, r) ==> Visible(t, r);
  }

  lemma InvTail(cfg: Config, s: State)
    requires Inv(cfg, s)
    ensures TailOk(s)
  {
  }

  lemma FenceKeeps(cfg: Config, s: State, r: Record, syncOk: bool)
    requires Inv(cfg, s) && cfg.mode != NoSync && Located(s.files, r, s.written) && r in Active(s).recs
    ensures var t := Fence(cfg, s, r, syncOk); Inv(cfg, t) && Extends(s, t)
  {
    hide Inv, Extends, Located, Visible, Len;
    ExtendsReflexive(s);
    var t := Fence(cfg, s, r, syncOk);
    if cfg.mode == Batched {
      HistoryChange(cfg, s, t);
    } else if syncOk {
      CommitAllKeeps(cfg, s);
      var u: State := FsyncActive(s).(committed := s.written);
      assert TailOk(u) by { assert TailOk(s) by { InvTail(cfg, s); } }
      AllVisible(u, r);
      HistoryChange(cfg, u, t);
      ExtendsTransitive(s, u, t);
    }
  }

  lemma AppendKeeps(cfg: Config, s: State, rec: Record, io: Io)
    requires Inv(cfg, s) && cfg.mode != NoSync
    ensures var t := AppendStep(cfg, s, rec, io); Inv(cfg, t) && Extends(s, t)
  {
    hide Inv, Extends, Located, Encodable, Rotate, Fence;
    ExtendsReflexive(s);
    if s.next < U64 {
      var r := rec.(msgID := s.next);
      if Encodable(r) {
        var s1 := s;
        if MustRotate(cfg, s, r) {
          EmptyIffZero(cfg, s);
          RotateKeeps(cfg, s, io);
          s1 := Rotate(s, io).0;
        }
        if io.write && (MustRotate(cfg, s, r) ==> Rotate(s, io).1) {
          WriteKeeps(cfg, s1, r);
          var s2 := WriteActive(s1, r);
          FenceKeeps(cfg, s2, r, io.sync);
          ExtendsTransitive(s, s1, s2);
          ExtendsTransitive(s, s2, AppendStep(cfg, s, rec, io));
        }
      }
    }
  }

  lemma EmptyIffZero(cfg: Config, s: State)
    requires Inv(cfg, s)
    ensures s.written - Active(s).baseOff > 0 <==> Active(s).recs != []
  {
  }

  // ---- Group commit, returns and drops ----

  lemma BoundaryWithin(g: Segment, off: nat)
    requires Boundary(g, off)
    ensures off <= g.baseOff + Len(g.recs)
  {
    var k :| 0 <= k <= |g.recs| && off == g.baseOff + Len(g.recs[..k]);
    LenPrefix(g.recs, k, |g.recs|);
    assert g.recs[..|g.recs|] == g.recs;
  }

  lemma FlushSnapKeeps(cfg: Config, s: State)
    requires Inv(cfg, s)
    ensures Inv(cfg, FlushSnapStep(cfg, s)) && Extends(s, FlushSnapStep(cfg, s))
  {
    var t := FlushSnapStep(cfg, s);
    var rs := Active(s).recs;
    assert rs[..|rs|] == rs;
    HistoryGrows(s, t);
  }

  lemma FlushSyncKeeps(cfg: Config, s: State, ok: bool)
    requires Inv(cfg, s)
    ensures Inv(cfg, FlushSyncStep(s, ok)) && Extends(s, FlushSyncStep(s, ok))
  {
    hide FilesOk, HistoryOk, Boundary, Len;
    var t := FlushSyncStep(s, ok);
    if s.flush.Snapped? {
      var i := s.flush.seg;
      SegmentAt(cfg, s.files, i);
      BoundaryWithin(s.files[i], s.flush.snap);
      if i < |s.files| - 1 {
        SealedAt(cfg, s, i);
        assert t.files == s.files;
      } else if t.flush.ok {
        ReplaceActive(cfg, s.files, Active(t));
        BoundaryGrows(Active(s), Active(t), s.committed);
        BoundaryGrows(Active(s), Active(t), s.flush.snap);
      }
      HistoryGrows(s, t);
    }
  }

  /** A rotation that overtook the flush has already committed past its snapshot. */
  lemma FlushPublishKeeps(cfg: Config, s: State)
    requires Inv(cfg, s)
    ensures Inv(cfg, FlushPublishStep(s)) && Extends(s, FlushPublishStep(s))
  {
    hide FilesOk, HistoryOk, Boundary, Len;
    var t := FlushPublishStep(s);
    if s.flush.Synced? {
      var i := s.flush.seg;
      BoundaryWithin(s.files[i], s.flush.snap);
      if i < |s.files| - 1 { BasesOrdered(cfg, s.files, i, |s.files| - 1); }
      HistoryGrows(s, t);
    }
  }

  lemma ReturnKeeps(cfg: Config, s: State, r: Record, end: nat)
    requires Inv(cfg, s)
    ensures Inv(cfg, ReturnStep(s, r, end)) && Extends(s, ReturnStep(s, r, end))
  {
    hide FilesOk, FlushOk, Boundary, Len;
    if (r, end) in s.pending && end <= s.committed {
      assert Located(s.files, (r, end).0, (r, end).1);
      var i, k :| 0 <= i < |s.files| && 0 <= k < |s.files[i].recs|
        && s.files[i].recs[k] == r && end == s.files[i].baseOff + Len(s.files[i].recs[..k + 1]);
      assert i >= s.first ==> Visible(s, r);
      HistoryChange(cfg, s, ReturnStep(s, r, end));
    }
  }

  lemma DropKeeps(cfg: Config, s: State, keepIndex: nat)
    requires Inv(cfg, s)
    ensures Inv(cfg, DropStep(s, keepIndex)) && Extends(s, DropStep(s, keepIndex))
  {
    var t := DropStep(s, keepIndex);
    forall r | r in t.acked && r !in t.dropped ensures Visible(t, r) {
      var i, k :| s.first <= i < |s.files| && 0 <= k < |s.files[i].recs| && s.files[i].recs[k] == r
                  && s.files[i].baseOff + Len(s.files[i].recs[..k + 1]) <= s.committed;
      assert i >= t.first;
      assert t.files[i].recs[k] == r;
    }
  }

  // ---- Reopening ----

  /** What reopening needs of the images: consecutive MsgIDs throughout, only the last one empty, torn or short. */
  ghost predicate ImageOk(cfg: Config, g: Image) {
    && AllEncodable(g.recs) && g.durable == Len(g.recs)
    && (forall k :: 0 <= k < |g.recs| ==> g.recs[k].msgID == g.recs[0].msgID + k)
    && (cfg.segmentBytes == 0 || |g.recs| <= 1 || Len(g.recs) <= cfg.segmentBytes)
  }

  ghost predicate ImageSealed(g: Image, h: Image) {
    && g.recs != [] && !g.torn && g.index < h.index
    && (h.recs != [] ==> h.recs[0].msgID == g.recs[0].msgID + |g.recs|)
  }

  ghost predicate ImagesOk(cfg: Config, m: seq<Image>) {
    && m != []
    && (forall i :: 0 <= i < |m| ==> ImageOk(cfg, m[i]))
    && (forall i, j :: 0 <= i && j == i + 1 && j < |m| ==> ImageSealed(m[i], m[j]))
  }

  lemma ReopenFiles(cfg: Config, m: seq<Image>, acked: set<Record>, dropped: set<Record>)
    requires ImagesOk(cfg, m)
    ensures FilesOk(cfg, Reopen(m, acked, dropped).files)
  {
    var files := Reopen(m, acked, dropped).files;
    var n := |m|;
    forall i | 0 <= i < n ensures SegmentOk(cfg, files[i]) {
      assert ImageOk(cfg, m[i]);
    }
    forall i, j | 0 <= i && j == i + 1 && j < n ensures Sealed(files[i], files[j]) {
      assert ImageOk(cfg, m[i]) && ImageSealed(m[i], m[j]);
      assert NextAfter(m, j) == Some(m[i].recs[|m[i].recs| - 1].msgID + 1);
    }
  }

  lemma NothingTorn(cfg: Config, m: seq<Image>)
    requires ImagesOk(cfg, m)
    ensures !TornSealed(m)
  {
    forall i | 0 <= i < |m| - 1 ensures !m[i].torn { assert ImageSealed(m[i], m[i + 1]); }
  }

  lemma ReopenKeeps(cfg: Config, m: seq<Image>, acked: set<Record>, dropped: set<Record>)
    requires ImagesOk(cfg, m)
    requires forall r :: r in acked && r !in dropped ==> exists i :: 0 <= i < |m| && r in m[i].recs
    ensures Inv(cfg, Reopen(m, acked, dropped))
  {
    var t := Reopen(m, acked, dropped);
    var last := m[|m| - 1];
    ReopenFiles(cfg, m, acked, dropped);
    assert ImageOk(cfg, last);
    assert last.recs[..|last.recs|] == last.recs;
    forall r | r in acked && r !in dropped ensures Visible(t, r) {
      var i :| 0 <= i < |m| && r in m[i].recs;
      ReopenVisible(m, acked, dropped, i, r);
    }
    NothingTorn(cfg, m);
  }

  lemma ReopenVisible(m: seq<Image>, acked: set<Record>, dropped: set<Record>, i: nat, r: Record)
    requires i < |m| && r in m[i].recs
    ensures Visible(Reopen(m, acked, dropped), r)
  {
    hide MaxTs, MaxVis, NextAfter, Len;
    var t := Reopen(m, acked, dropped);
    var rs := m[i].recs;
    var k :| 0 <= k < |rs| && rs[k] == r;
    assert t.files[i].recs[k] == r;
    LenPrefix(rs, k + 1, |rs|);
    assert rs[..|rs|] == rs;
    LenBeforeGrows(m, i + 1, |m|);
  }

  lemma {:induction false} LenBeforeGrows(m: seq<Image>, i: nat, j: nat)
    requires i <= j <= |m|
    ensures LenBefore(m, i) <= LenBefore(m, j)
  {
    if i < j { LenBeforeGrows(m, i, j - 1); }
  }

  /** Sealed files survive whole; the active one keeps at least its durable frames. */
  lemma CutImages(cfg: Config, s: State, keep: seq<nat>)
    requires Inv(cfg, s) && Survivable(s, keep)
    ensures var m := CutAll(s, keep);
            ImagesOk(cfg, m) && forall i :: 0 <= i < |m| - 1 ==> m[i].recs == s.files[s.first + i].recs
  {
    hide Inv, Cut, Len, ImageOk;
    var m := CutAll(s, keep);
    forall i | 0 <= i < |m| ensures ImageOk(cfg, m[i]) { CutImage(cfg, s, keep, i); }
    forall i | 0 <= i < |m| - 1 ensures m[i].recs == s.files[s.first + i].recs { CutImage(cfg, s, keep, i); }
    forall i, j | 0 <= i && j == i + 1 && j < |m| ensures ImageSealed(m[i], m[j]) {
      CutImage(cfg, s, keep, i);
      CutImage(cfg, s, keep, j);
      SealedAt(cfg, s, s.first + i);
    }
  }

  lemma SealedAt(cfg: Config, s: State, i: nat)
    requires Inv(cfg, s) && i + 1 < |s.files|
    ensures Sealed(s.files[i], s.files[i + 1]) && s.files[i].recs[0].msgID == s.files[i].baseMsgID
  {
    assert SegmentOk(cfg, s.files[i]);
  }

  lemma CutImage(cfg: Config, s: State, keep: seq<nat>, i: nat)
    requires Inv(cfg, s) && Survivable(s, keep) && i < |keep|
    ensures var g, m := s.files[s.first + i], Cut(s.files[s.first + i], keep[i]);
            && ImageOk(cfg, m) && m.recs <= g.recs && m.index == g.index
            && (m.recs != [] ==> m.recs[0].msgID == g.baseMsgID)
            && (i < |keep| - 1 ==> m.recs == g.recs && m.recs != [] && !m.torn)
  {
    hide FilesOk, HistoryOk, FlushOk, Encodable;
    var g := s.files[s.first + i];
    SegmentAt(cfg, s.files, s.first + i);
    var w := Whole(g.recs, keep[i]);
    LenPrefix(g.recs, w, |g.recs|);
    assert g.recs[..|g.recs|] == g.recs;
    if i < |keep| - 1 {
      SealedAt(cfg, s, s.first + i);
      WholeAll(g.recs);
    }
  }

  lemma CommittedSurvives(cfg: Config, s: State, keep: seq<nat>, i: nat, k: nat)
    requires Inv(cfg, s) && Survivable(s, keep) && s.first <= i < |s.files| && k < |s.files[i].recs|
    requires s.files[i].baseOff + Len(s.files[i].recs[..k + 1]) <= s.committed
    ensures s.files[i].recs[k] in Cut(s.files[i], keep[i - s.first]).recs
  {
    hide FilesOk, HistoryOk, FlushOk, TailOk, Boundary, Whole, Len;
    CutImage(cfg, s, keep, i - s.first);
    if i == |s.files| - 1 {
      FitsWhole(s.files[i].recs, keep[i - s.first], k + 1);
      assert Cut(s.files[i], keep[i - s.first]).recs[k] == s.files[i].recs[k];
    }
  }

  lemma VisibleSurvives(cfg: Config, s: State, keep: seq<nat>, r: Record)
    requires Inv(cfg, s) && Survivable(s, keep) && Visible(s, r)
    ensures var m := CutAll(s, keep); exists i :: 0 <= i < |m| && r in m[i].recs
  {
    hide Inv, Cut, Len;
    var m := CutAll(s, keep);
    var i, k :| s.first <= i < |s.files| && 0 <= k < |s.files[i].recs| && s.files[i].recs[k] == r
                && s.files[i].baseOff + Len(s.files[i].recs[..k + 1]) <= s.committed;
    CommittedSurvives(cfg, s, keep, i, k);
    assert r in m[i - s.first].recs;
  }

  lemma PowerLossKeeps(cfg: Config, s: State, keep: seq<nat>)
    requires Inv(cfg, s)
    ensures Inv(cfg, PowerLossStep(s, keep))
  {
    if Survivable(s, keep) {
      CutImages(cfg, s, keep);
      forall r | r in s.acked && r !in s.dropped
        ensures exists i :: 0 <= i < |CutAll(s, keep)| && r in CutAll(s, keep)[i].recs
      {
        VisibleSurvives(cfg, s, keep, r);
      }
      ReopenKeeps(cfg, CutAll(s, keep), s.acked, s.dropped);
    }
  }

  /** Every byte of the active segment has been fsynced. */
  predicate FullySynced(s: State) { Active(s).durable == Len(Active(s).recs) }

  function KeepAll(s: State): (keep: seq<nat>)
    ensures |keep| == |s.files| - s.first
  {
    seq<nat>(|s.files| - s.first, i requires 0 <= i < |s.files| - s.first => Len(s.files[s.first + i].recs))
  }

  lemma CutNothing(cfg: Config, s: State, i: nat)
    requires Inv(cfg, s) && i < |s.files| - s.first && FullySynced(s)
    ensures var g := s.files[s.first + i]; Cut(g, Len(g.recs)) == Image(g.index, g.recs, g.durable, false)
  {
    var g := s.files[s.first + i];
    WholeAll(g.recs);
    assert g.recs[..|g.recs|] == g.recs;
    if s.first + i < |s.files| - 1 { assert Sealed(g, s.files[s.first + i + 1]); }
  }

  lemma KillKeeps(cfg: Config, s: State)
    requires Inv(cfg, s) && FullySynced(s)
    ensures Inv(cfg, KillStep(s))
  {
    hide Cut, Len, Inv;
    var keep := KeepAll(s);
    assert Survivable(s, keep) by { SegmentsDurable(cfg, s); }
    forall i | 0 <= i < |keep| ensures CutAll(s, keep)[i] == CachedAll(s)[i] { CutNothing(cfg, s, i); }
    assert CutAll(s, keep) == CachedAll(s);
    PowerLossKeeps(cfg, s, keep);
  }

  lemma SegmentsDurable(cfg: Config, s: State)
    requires Inv(cfg, s)
    ensures forall i :: 0 <= i < |s.files| ==> s.files[i].durable <= Len(s.files[i].recs)
  {
    forall i | 0 <= i < |s.files| ensures s.files[i].durable <= Len(s.files[i].recs) {
      assert SegmentOk(cfg, s.files[i]);
    }
  }

  lemma KillExposes(cfg: Config, s: State)
    requires Inv(cfg, s) && Inv(cfg, KillStep(s))
    ensures FullySynced(s)
  {
    hide FilesOk, HistoryOk, FlushOk, TailOk, Boundary, MaxTs, MaxVis, NextAfter;
    var n := |CachedAll(s)|;
    var t := KillStep(s);
    assert Active(t) == Rebuilt(CachedAll(s), n - 1);
    assert t.committed == LenBefore(CachedAll(s), n - 1) + Len(Active(s).recs);
    SegmentsDurable(cfg, s);
  }

  /** A killed process loses nothing, but reopening is only sound if no byte was left unsynced. */
  lemma KillKeepsIff(cfg: Config, s: State)
    requires Inv(cfg, s)
    ensures Inv(cfg, KillStep(s)) <==> FullySynced(s)
  {
    hide Inv;
    if FullySynced(s) { KillKeeps(cfg, s); }
    if Inv(cfg, KillStep(s)) { KillExposes(cfg, s); }
  }

  // ---- Every run ----

  predicate Crash(step: Step) { step.PowerLoss? || step.Kill? }

  lemma StepKeeps(cfg: Config, s: State, step: Step)
    requires Inv(cfg, s) && cfg.mode != NoSync && (step.Kill? ==> FullySynced(s))
    ensures Inv(cfg, Next(cfg, s, step)) && (!Crash(step) ==> Extends(s, Next(cfg, s, step)))
  {
    hide Extends, AppendStep, FlushSnapStep, FlushSyncStep,
        FlushPublishStep, ReturnStep, DropStep, PowerLossStep, KillStep;
    hide FilesOk, TailOk, CommittedOk, FlushOk, HistoryOk, FullySynced;
    match step
    case Append(rec, io) => AppendKeeps(cfg, s, rec, io);
    case Return(rec, end) => ReturnKeeps(cfg, s, rec, end);
    case FlushSnap => FlushSnapKeeps(cfg, s);
    case FlushSync(ok) => FlushSyncKeeps(cfg, s, ok);
    case FlushPublish => FlushPublishKeeps(cfg, s);
    case Drop(k) => DropKeeps(cfg, s, k);
    case PowerLoss(keep) => PowerLossKeeps(cfg, s, keep);
    case Kill => KillKeeps(cfg, s);
  }

  /** No process is killed with written bytes it has not fsynced; power may fail at any time. */
  ghost predicate KillsClean(cfg: Config, steps: seq<Step>) {
    forall i :: 0 <= i < |steps| && steps[i].Kill? ==> FullySynced(Run(cfg, EMPTY, steps[..i]))
  }

  lemma FreshOk(cfg: Config, s: State, g: Segment)
    requires s == Raw([g], 0, 0, 0, 0, false, Idle, {}, {}, {}, false) && g == Segment(0, 0, 0, 0, 0, [], 0)
    ensures Inv(cfg, s)
  {
    assert g.recs[..0] == [];
  }

  lemma {:induction false} RunKeeps(cfg: Config, steps: seq<Step>)
    requires cfg.mode != NoSync && KillsClean(cfg, steps)
    ensures Inv(cfg, Run(cfg, EMPTY, steps))
  {
    hide Next, Inv, FullySynced;
    if steps == [] {
      FreshOk(cfg, EMPTY, EMPTY.files[0]);
    } else {
      var n := |steps| - 1;
      var init := steps[..n];
      forall i | 0 <= i < n && init[i].Kill? ensures FullySynced(Run(cfg, EMPTY, init[..i])) {
        assert init[..i] == steps[..i];
      }
      RunKeeps(cfg, init);
      StepKeeps(cfg, Run(cfg, EMPTY, init), steps[n]);
    }
  }
}
