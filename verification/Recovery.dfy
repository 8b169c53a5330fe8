/**
 * Opening a log directory (internal/wal/recovery.go): the scan over raw bytes, and its agreement
 * with the record-level Reopen for every directory a power loss can leave behind.
 */
module Recovery {
  import opened Bytes
  import opened Codec
  import opened Stream
  import opened Wal
  import opened WalSafety
  import opened WalTheorems

  datatype File = File(index: nat, data: seq<byte>)

  /** One segment as recover fills it in; the file is cut to good bytes. */
  datatype SegInfo = SegInfo(index: nat, baseMsgID: nat, baseOff: nat, maxTs: nat, maxVis: nat, good: nat)

  datatype Opened = Corrupt | Opened(segs: seq<SegInfo>, next: nat, committed: nat, visited: seq<Record>)

  // ---- Specification, on any bytes ----

  function Scans(f: Framing, files: seq<File>): (ss: seq<ScanResult>)
    ensures |ss| == |files|
  {
    seq(|files|, i requires 0 <= i < |files| => Scan(f, files[i].data))
  }

  function GoodBefore(ss: seq<ScanResult>, i: nat): nat
    requires i <= |ss|
  {
    if i == 0 then 0 else GoodBefore(ss, i - 1) + ss[i - 1].good
  }

  function Visited(ss: seq<ScanResult>, i: nat): seq<Record>
    requires i <= |ss|
  {
    if i == 0 then [] else Visited(ss, i - 1) + ss[i - 1].recs
  }

  /** One past the last MsgID seen, if any record was. */
  function After(seen: seq<Record>): Option<nat> {
    if seen == [] then None else Some(seen[|seen| - 1].msgID + 1)
  }

  function Info(files: seq<File>, ss: seq<ScanResult>, i: nat): SegInfo
    requires i < |ss| == |files|
  {
    var rs := ss[i].recs;
    var base := if rs != [] then rs[0].msgID else OrZero(After(Visited(ss, i)));
    SegInfo(files[i].index, base, GoodBefore(ss, i), MaxTs(rs), MaxVis(rs), ss[i].good)
  }

  predicate BadSealed(ss: seq<ScanResult>) {
    exists i :: 0 <= i < |ss| - 1 && ss[i].stop != Eof
  }

  function OpenSpec(f: Framing, files: seq<File>): Opened {
    var ss, n := Scans(f, files), |files|;
    if BadSealed(ss) then Corrupt
    else Opened(seq(n, i requires 0 <= i < n => Info(files, ss, i)),
                OrZero(After(Visited(ss, n))), GoodBefore(ss, n), Visited(ss, n))
  }

  // ---- The loops of recover and recoverSegment ----

  method RecoverSegment(f: Framing, data: seq<byte>)
      returns (good: nat, stop: DecodeResult, maxTs: nat, maxVis: nat, seen: seq<Record>)
    ensures ScanResult(seen, good, stop) == Scan(f, data)
    ensures maxTs == MaxTs(seen) && maxVis == MaxVis(seen)
  {
    hide Scan, MaxTs, MaxVis;
    MaxOfNone();
    good, maxTs, maxVis, seen := 0, 0, 0, [];
    assert data[0..] == data;
    var rest := data;
    while true
      invariant good <= |data| && rest == data[good..]
      invariant Scan(f, data) == Prepend(seen, good, Scan(f, rest))
      invariant maxTs == MaxTs(seen) && maxVis == MaxVis(seen)
      decreases |rest|
    {
      var d := f.dec(rest);
      ScanOnce(f, rest, seen, good);
      if !(d.Got? && 0 < d.n <= |rest|) {
        stop := d;
        return;
      }
      MaxOfOneMore(seen, d.rec);
      seen := seen + [d.rec];
      maxTs := Max(maxTs, d.rec.tsNs);
      maxVis := Max(maxVis, d.rec.visibleAtNs);
      good := good + d.n;
      rest := rest[d.n..];
    }
  }

  function Prepend(seen: seq<Record>, good: nat, t: ScanResult): ScanResult {
    ScanResult(seen + t.recs, good + t.good, t.stop)
  }

  lemma ScanOnce(f: Framing, rest: seq<byte>, seen: seq<Record>, good: nat)
    ensures var d := f.dec(rest);
            Prepend(seen, good, Scan(f, rest)) ==
            if d.Got? && 0 < d.n <= |rest| then Prepend(seen + [d.rec], good + d.n, Scan(f, rest[d.n..]))
            else ScanResult(seen, good, d)
  {
    var d := f.dec(rest);
    if d.Got? && 0 < d.n <= |rest| {
      var t := Scan(f, rest[d.n..]);
      assert seen + ([d.rec] + t.recs) == seen + [d.rec] + t.recs;
    } else {
      assert seen + [] == seen;
    }
  }

  lemma MaxOfNone()
    ensures MaxTs([]) == 0 && MaxVis([]) == 0
  {
  }

  lemma MaxOfOneMore(rs: seq<Record>, r: Record)
    ensures MaxTs(rs + [r]) == Max(MaxTs(rs), r.tsNs) && MaxVis(rs + [r]) == Max(MaxVis(rs), r.visibleAtNs)
  {
    assert (rs + [r])[..|rs|] == rs;
  }

  method Recover(f: Framing, files: seq<File>) returns (r: Opened)
    ensures r == OpenSpec(f, files)
  {
    hide Scan, MaxTs, MaxVis;
    ghost var ss := Scans(f, files);
    var segs: seq<SegInfo> := [];
    var globalPos: nat := 0;
    var visited: seq<Record> := [];
    var i := 0;
    while i < |files|
      invariant 0 <= i <= |files|
      invariant |segs| == i && (forall k :: 0 <= k < i ==> segs[k] == Info(files, ss, k))
      invariant globalPos == GoodBefore(ss, i) && visited == Visited(ss, i)
      invariant forall k :: 0 <= k < i && k < |files| - 1 ==> ss[k].stop == Eof
    {
      var good, stop, maxTs, maxVis, seen := RecoverSegment(f, files[i].data);
      assert ss[i] == ScanResult(seen, good, stop);
      if stop != Eof && i < |files| - 1 {
        return Corrupt;
      }
      var baseMsgID := if seen != [] then seen[0].msgID else OrZero(After(visited));
      segs := segs + [SegInfo(files[i].index, baseMsgID, globalPos, maxTs, maxVis, good)];
      globalPos := globalPos + good;
      visited := visited + seen;
      i := i + 1;
    }
    r := Opened(segs, OrZero(After(visited)), globalPos, visited);
    assert segs == seq(|files|, k requires 0 <= k < |files| => Info(files, ss, k));
  }

  // ---- After a power loss ----

  /** The bytes a power loss leaves in the directory. */
  function Directory(f: Framing, s: State, keep: seq<nat>): (files: seq<File>)
    requires Survivable(s, keep)
  {
    seq(|keep|, i requires 0 <= i < |keep| =>
      var bytes := EncodeAll(f, s.files[s.first + i].recs);
      File(s.files[s.first + i].index, if keep[i] <= |bytes| then bytes[..keep[i]] else bytes))
  }

  ghost predicate AllRecordsEncodable(s: State) {
    forall i :: 0 <= i < |s.files| ==> AllEncodable(s.files[i].recs)
  }

  /** Scanning one surviving file finds exactly what Cut describes. */
  lemma ScanCut(f: Framing, s: State, keep: seq<nat>, i: nat)
    requires Lawful(f) && Survivable(s, keep) && AllRecordsEncodable(s) && i < |keep|
    ensures var sc, c := Scan(f, Directory(f, s, keep)[i].data), CutAll(s, keep)[i];
            sc.recs == c.recs && sc.good == Len(c.recs) && (sc.stop != Eof <==> c.torn)
  {
    hide Lawful, Scan, EncodeAll, Whole, Len, AllEncodable;
    var g := s.files[s.first + i];
    assert AllEncodable(g.recs);
    ScanPrefix(f, g.recs, keep[i]);
    WholeIsMaximal(g.recs, keep[i]);
  }

  lemma {:induction false} VisitedIsConcat(ss: seq<ScanResult>, m: seq<Image>, files: seq<Segment>, i: nat)
    requires |ss| == |m| == |files| && i <= |m|
    requires forall k :: 0 <= k < |m| ==> ss[k].recs == m[k].recs == files[k].recs && ss[k].good == Len(m[k].recs)
    ensures Visited(ss, i) == Concat(files, 0, i)
            && GoodBefore(ss, i) == LenBefore(m, i) && After(Visited(ss, i)) == NextAfter(m, i)
  {
    if i > 0 {
      VisitedIsConcat(ss, m, files, i - 1);
      if m[i - 1].recs == [] { assert Visited(ss, i) == Visited(ss, i - 1); }
    }
  }

  /** What the byte-level scan returns is the reopened record-level state, visited in MsgID order. */
  ghost predicate Agrees(r: Opened, t: State) {
    if t.down then r == Corrupt else
    && r.Opened? && t.first == 0 && |r.segs| == |t.files|
    && (forall i :: 0 <= i < |t.files| ==>
          var g := t.files[i];
          r.segs[i] == SegInfo(g.index, g.baseMsgID, g.baseOff, g.maxTs, g.maxVis, Len(g.recs)))
    && r.next == t.next && r.committed == t.committed && r.visited == Retained(t)
  }

  lemma RecoverAgrees(f: Framing, s: State, keep: seq<nat>)
    requires Lawful(f) && Survivable(s, keep) && AllRecordsEncodable(s)
    ensures Agrees(OpenSpec(f, Directory(f, s, keep)), PowerLossStep(s, keep))
  {
    hide Scan, EncodeAll, MaxTs, MaxVis, Cut, Lawful, Visited, GoodBefore, After, LenBefore, NextAfter, Concat, Len;
    var files := Directory(f, s, keep);
    var ss, m, t, n := Scans(f, files), CutAll(s, keep), PowerLossStep(s, keep), |keep|;
    ScansCut(f, s, keep);
    VisitedIsConcat(ss, m, t.files, n);
    if !t.down {
      forall i | 0 <= i < n
        ensures var g := t.files[i];
                Info(files, ss, i) == SegInfo(g.index, g.baseMsgID, g.baseOff, g.maxTs, g.maxVis, Len(g.recs))
      {
        VisitedIsConcat(ss, m, t.files, i);
        IndexKept(f, s, keep, i);
      }
    }
  }

  /** Every file is scanned to what is cut of it, and a bad sealed file is a torn one. */
  lemma ScansCut(f: Framing, s: State, keep: seq<nat>)
    requires Lawful(f) && Survivable(s, keep) && AllRecordsEncodable(s)
    ensures var ss, m, t := Scans(f, Directory(f, s, keep)), CutAll(s, keep), PowerLossStep(s, keep);
            && |ss| == |m| == |t.files| == |keep| && (BadSealed(ss) <==> TornSealed(m)) && t.down == TornSealed(m)
            && forall i :: 0 <= i < |keep| ==>
                 ss[i].recs == m[i].recs == t.files[i].recs && ss[i].good == Len(m[i].recs)
  {
    hide Scan, EncodeAll, MaxTs, MaxVis, Cut, Lawful, LenBefore, NextAfter, Len;
    var ss, m, t := Scans(f, Directory(f, s, keep)), CutAll(s, keep), PowerLossStep(s, keep);
    forall i | 0 <= i < |keep|
      ensures ss[i].recs == m[i].recs == t.files[i].recs
              && ss[i].good == Len(m[i].recs) && (ss[i].stop != Eof <==> m[i].torn)
    {
      ScanCut(f, s, keep, i);
    }
  }

  lemma IndexKept(f: Framing, s: State, keep: seq<nat>, i: nat)
    requires Survivable(s, keep) && i < |keep|
    ensures Directory(f, s, keep)[i].index == CutAll(s, keep)[i].index
  {
  }

  /**
   * Bytes to bytes: whatever run produced the files and wherever the power cut them, opening the
   * directory rebuilds a log that Recovered describes, visiting its records in MsgID order.
   */
  lemma CrashRecovery(f: Framing, cfg: Config, steps: seq<Step>, keep: seq<nat>)
    requires Lawful(f) && cfg.mode != NoSync && KillsClean(cfg, steps) && Survivable(Run(cfg, EMPTY, steps), keep)
    ensures var s := Run(cfg, EMPTY, steps);
            var t := Run(cfg, EMPTY, steps + [PowerLoss(keep)]);
            Recovered(s, t) && Agrees(OpenSpec(f, Directory(f, s, keep)), t)
  {
    hide Inv, Recovered, Agrees, PowerLossStep, Directory, OpenSpec, Survivable, Lawful;
    var s := Run(cfg, EMPTY, steps);
    Durability(cfg, steps, keep);
    RunKeeps(cfg, steps);
    InvEncodable(cfg, s);
    RecoverAgrees(f, s, keep);
    var all := steps + [PowerLoss(keep)];
    assert all[..|all| - 1] == steps;
  }

  lemma InvEncodable(cfg: Config, s: State)
    requires Inv(cfg, s)
    ensures AllRecordsEncodable(s) && !s.down
  {
    forall i | 0 <= i < |s.files| ensures AllEncodable(s.files[i].recs) { assert SegmentOk(cfg, s.files[i]); }
  }
}
