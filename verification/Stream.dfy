/** Streams of frames: what scanning any byte prefix of a log file finds. */
module Stream {
  import opened Bytes
  import opened Codec

  predicate AllEncodable(rs: seq<Record>) {
    forall i :: 0 <= i < |rs| ==> Encodable(rs[i])
  }

  function EncodeAll(f: Framing, rs: seq<Record>): seq<byte> {
    if rs == [] then [] else f.enc(rs[0]) + EncodeAll(f, rs[1..])
  }

  /** Bytes taken by rs. */
  function Len(rs: seq<Record>): (n: nat) {
    if rs == [] then 0 else Len(rs[..|rs| - 1]) + Size(rs[|rs| - 1])
  }

  /** How many whole frames of rs fit in the first m bytes. */
  function Whole(rs: seq<Record>, m: nat): (k: nat)
    ensures k <= |rs|
  {
    if Len(rs) <= m then |rs| else Whole(rs[..|rs| - 1], m)
  }

  /** Decode frame after frame until something other than a record turns up. */
  datatype ScanResult = ScanResult(recs: seq<Record>, good: nat, stop: DecodeResult)

  function Scan(f: Framing, s: seq<byte>): (r: ScanResult)
    ensures r.good <= |s|
    decreases |s|
  {
    var d := f.dec(s);
    if d.Got? && 0 < d.n <= |s| then
      var t := Scan(f, s[d.n..]);
      ScanResult([d.rec] + t.recs, d.n + t.good, t.stop)
    else ScanResult([], 0, d)
  }

  // ---- Lengths ----

  lemma {:induction false} LenAppend(a: seq<Record>, b: seq<Record>)
    ensures Len(a + b) == Len(a) + Len(b)
  {
    if b == [] {
      assert a + b == a;
    } else {
      LenAppend(a, b[..|b| - 1]);
      assert (a + b)[..|a + b| - 1] == a + b[..|b| - 1];
    }
  }

  lemma {:induction false} LenPrefix(rs: seq<Record>, i: nat, j: nat)
    requires i <= j <= |rs|
    ensures Len(rs[..i]) <= Len(rs[..j])
    ensures i < j ==> Len(rs[..i]) + 38 <= Len(rs[..j])
    decreases j
  {
    if i < j {
      LenPrefix(rs, i, j - 1);
      assert rs[..j][..j - 1] == rs[..j - 1];
    }
  }

  lemma {:induction false} EncodeAllLen(f: Framing, rs: seq<Record>)
    requires Lawful(f) && AllEncodable(rs)
    ensures |EncodeAll(f, rs)| == Len(rs)
  {
    if rs != [] {
      EncodeAllLen(f, rs[1..]);
      LenAppend([rs[0]], rs[1..]);
      assert rs == [rs[0]] + rs[1..];
      assert Len([rs[0]]) == Size(rs[0]);
    }
  }

  lemma {:induction false} EncodeAllAppend(f: Framing, a: seq<Record>, b: seq<Record>)
    ensures EncodeAll(f, a + b) == EncodeAll(f, a) + EncodeAll(f, b)
  {
    if a == [] {
      assert a + b == b;
    } else {
      EncodeAllAppend(f, a[1..], b);
      assert (a + b)[1..] == a[1..] + b;
    }
  }

  /** Whole is the largest count that fits. */
  lemma {:induction false} WholeIsMaximal(rs: seq<Record>, m: nat)
    ensures var k := Whole(rs, m); Len(rs[..k]) <= m && (k < |rs| ==> m < Len(rs[..k + 1]))
  {
    var k := Whole(rs, m);
    if Len(rs) <= m {
      assert rs[..k] == rs;
    } else {
      var init := rs[..|rs| - 1];
      WholeIsMaximal(init, m);
      assert init[..k] == rs[..k];
      if k < |init| { assert init[..k + 1] == rs[..k + 1]; } else { assert rs[..k + 1] == rs; }
    }
  }

  lemma WholeUnique(rs: seq<Record>, m: nat, k: nat)
    requires k <= |rs| && Len(rs[..k]) <= m && (k < |rs| ==> m < Len(rs[..k + 1]))
    ensures Whole(rs, m) == k
  {
    WholeIsMaximal(rs, m);
    var w := Whole(rs, m);
    if w < k { LenPrefix(rs, w + 1, k); }
    if k < w { LenPrefix(rs, k + 1, w); }
  }

  lemma {:induction false} WholeMonotone(rs: seq<Record>, m: nat, n: nat)
    requires m <= n
    ensures Whole(rs, m) <= Whole(rs, n)
  {
    WholeIsMaximal(rs, m);
    WholeIsMaximal(rs, n);
    var j, k := Whole(rs, m), Whole(rs, n);
    if k < j { LenPrefix(rs, k + 1, j); }
  }

  // ---- Scanning ----

  /** At the k-th frame boundary the next decode yields the k-th record, or a clean end after the last. */
  lemma DecodeAt(f: Framing, rs: seq<Record>, k: nat)
    requires Lawful(f) && AllEncodable(rs) && k <= |rs|
    ensures |EncodeAll(f, rs)| == Len(rs) && Len(rs[..k]) <= Len(rs)
    ensures f.dec(EncodeAll(f, rs)[Len(rs[..k])..]) == if k == |rs| then Eof else Got(rs[k], Size(rs[k]))
  {
    hide Len, Encodable, Size;
    EncodeAllLen(f, rs);
    EncodeAllLen(f, rs[..k]);
    LenPrefix(rs, k, |rs|);
    assert rs[..|rs|] == rs;
    EncodeAllAppend(f, rs[..k], rs[k..]);
    assert rs == rs[..k] + rs[k..];
    assert EncodeAll(f, rs)[Len(rs[..k])..] == EncodeAll(f, rs[k..]);
    if k < |rs| {
      assert EncodeAll(f, rs[k..]) == f.enc(rs[k]) + EncodeAll(f, rs[k..][1..]);
    }
  }

  /**
   * Scanning any byte prefix of encoded records yields exactly the whole frames it contains,
   * then a clean end on a boundary and a short read anywhere else.
   */
  lemma {:induction false} ScanPrefix(f: Framing, rs: seq<Record>, m: nat)
    requires Lawful(f) && AllEncodable(rs) && m <= Len(rs)
    ensures |EncodeAll(f, rs)| == Len(rs)
    ensures var k := Whole(rs, m);
            Scan(f, EncodeAll(f, rs)[..m])
            == ScanResult(rs[..k], Len(rs[..k]), if m == Len(rs[..k]) then Eof else ShortRead)
  {
    hide Lawful, EncodeAll, Whole, Len, Encodable, Size;
    EncodeAllLen(f, rs);
    if rs == [] || m < Size(rs[0]) {
      assert rs[..0] == [] && Len(rs[..0]) == 0 by { LenNothing(); }
      ScanTorn(f, rs, m);
    } else {
      var n := Size(rs[0]);
      ScanFirst(f, rs, m);
      ScanPrefix(f, rs[1..], m - n);
      WholeRest(rs, m);
    }
  }

  lemma LenNothing()
    ensures Len([]) == 0
  {
  }

  lemma ScanTorn(f: Framing, rs: seq<Record>, m: nat)
    requires Lawful(f) && AllEncodable(rs) && m <= Len(rs) && (rs == [] || m < Size(rs[0]))
    ensures |EncodeAll(f, rs)| == Len(rs) && Whole(rs, m) == 0
    ensures Scan(f, EncodeAll(f, rs)[..m]) == ScanResult([], 0, if m == 0 then Eof else ShortRead)
  {
    EncodeAllLen(f, rs);
    var s := EncodeAll(f, rs)[..m];
    if rs != [] {
      assert rs[..1] == [rs[0]];
      WholeUnique(rs, m, 0);
      assert s == f.enc(rs[0])[..m];
    }
  }

  lemma ScanFirst(f: Framing, rs: seq<Record>, m: nat)
    requires Lawful(f) && AllEncodable(rs) && rs != [] && Size(rs[0]) <= m <= Len(rs)
    ensures |EncodeAll(f, rs)| == Len(rs) == Size(rs[0]) + Len(rs[1..])
    ensures var s, n := EncodeAll(f, rs)[..m], Size(rs[0]);
            && f.dec(s) == Got(rs[0], n) && |EncodeAll(f, rs[1..])| == Len(rs[1..])
            && s[n..] == EncodeAll(f, rs[1..])[..m - n]
  {
    hide Len, Encodable, Size;
    var r, rest, n := rs[0], EncodeAll(f, rs[1..]), Size(rs[0]);
    EncodeAllLen(f, rs);
    EncodeAllLen(f, rs[1..]);
    assert EncodeAll(f, rs) == f.enc(r) + rest && |f.enc(r)| == n;
    assert EncodeAll(f, rs)[..m] == f.enc(r) + rest[..m - n];
  }

  lemma WholeRest(rs: seq<Record>, m: nat)
    requires rs != [] && Size(rs[0]) <= m
    ensures var k := Whole(rs[1..], m - Size(rs[0]));
            && Whole(rs, m) == k + 1 && rs[..k + 1] == [rs[0]] + rs[1..][..k]
            && Len(rs[..k + 1]) == Size(rs[0]) + Len(rs[1..][..k])
  {
    hide Whole, Size;
    var t, n := rs[1..], m - Size(rs[0]);
    WholeIsMaximal(t, n);
    var k := Whole(t, n);
    assert rs[..k + 1] == [rs[0]] + t[..k];
    LenAppend([rs[0]], t[..k]);
    if k < |t| {
      assert rs[..k + 2] == [rs[0]] + t[..k + 1];
      LenAppend([rs[0]], t[..k + 1]);
    }
    WholeUnique(rs, m, k + 1);
  }
}
