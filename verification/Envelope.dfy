/** The byte layout of replicated commands (internal/replication/envelope.go). */
module Envelope {
  import opened Bytes

  // ---- Fields one after the other ----

  /** A fixed-width integer, or bytes behind a 4-byte length. */
  datatype Shape = Fixed(w: nat) | Var

  datatype Item = Num(v: nat, w: nat) | Blob(s: seq<byte>)

  predicate Fits(shape: Shape, i: Item) {
    match shape
    case Fixed(w) => i.Num? && i.w == w && i.v < Pow256(w)
    case Var => i.Blob? && |i.s| < Pow256(4)
  }

  predicate AllFit(shapes: seq<Shape>, items: seq<Item>) {
    |shapes| == |items| && forall i :: 0 <= i < |items| ==> Fits(shapes[i], items[i])
  }

  function Put(i: Item): (b: seq<byte>) {
    match i
    case Num(v, w) => PutLE(v, w)
    case Blob(s) => PutLE(|s|, 4) + s
  }

  function PutAll(items: seq<Item>): (b: seq<byte>) {
    if items == [] then [] else Put(items[0]) + PutAll(items[1..])
  }

  function Take(shape: Shape, d: seq<byte>): Option<(Item, seq<byte>)> {
    match shape
    case Fixed(w) => if |d| < w then None else Some((Num(GetLE(d[..w]), w), d[w..]))
    case Var =>
      if |d| < 4 then None else
      var n := GetLE(d[..4]);
      if |d| < 4 + n then None else Some((Blob(d[4..4 + n]), d[4 + n..]))
  }

  function TakeAll(shapes: seq<Shape>, d: seq<byte>): Option<(seq<Item>, seq<byte>)> {
    if shapes == [] then Some(([], d)) else
    match Take(shapes[0], d)
    case None => None
    case Some((i, rest)) =>
      match TakeAll(shapes[1..], rest)
      case None => None
      case Some((items, rest')) => Some(([i] + items, rest'))
  }

  lemma TakePut(shape: Shape, i: Item, rest: seq<byte>)
    requires Fits(shape, i)
    ensures Take(shape, Put(i) + rest) == Some((i, rest))
  {
    var d := Put(i) + rest;
    match i
    case Num(v, w) =>
      GetPut(v, w);
      assert d[..w] == PutLE(v, w) && d[w..] == rest;
    case Blob(s) =>
      GetPut(|s|, 4);
      var h := PutLE(|s|, 4);
      assert d == h + (s + rest);
      assert d[..4] == h && d[4..] == s + rest;
      assert d[4..4 + |s|] == d[4..][..|s|] == s && d[4 + |s|..] == d[4..][|s|..] == rest;
  }

  lemma PutTake(shape: Shape, d: seq<byte>)
    requires Take(shape, d).Some?
    ensures var (i, rest) := Take(shape, d).value; Fits(shape, i) && Put(i) + rest == d
  {
    match shape
    case Fixed(w) =>
      PutGet(d[..w]);
      assert d[..w] + d[w..] == d;
    case Var =>
      var n := GetLE(d[..4]);
      PutGet(d[..4]);
      assert d == d[..4] + d[4..4 + n] + d[4 + n..];
  }

  lemma {:induction false} TakeAllPut(shapes: seq<Shape>, items: seq<Item>, rest: seq<byte>)
    requires AllFit(shapes, items)
    ensures TakeAll(shapes, PutAll(items) + rest) == Some((items, rest))
  {
    hide Put, Take, Fits;
    if items == [] {
      assert PutAll(items) + rest == rest;
    } else {
      var tail := PutAll(items[1..]) + rest;
      assert PutAll(items) + rest == Put(items[0]) + tail;
      TakePut(shapes[0], items[0], tail);
      TakeAllPut(shapes[1..], items[1..], rest);
      assert [items[0]] + items[1..] == items;
    }
  }

  lemma {:induction false} PutTakeAll(shapes: seq<Shape>, d: seq<byte>)
    requires TakeAll(shapes, d).Some?
    ensures var (items, rest) := TakeAll(shapes, d).value; AllFit(shapes, items) && PutAll(items) + rest == d
  {
    hide Put, Take, Fits;
    if shapes == [] {
      assert PutAll([]) + d == d;
    } else {
      PutTake(shapes[0], d);
      var (i, rest) := Take(shapes[0], d).value;
      PutTakeAll(shapes[1..], rest);
      var (items, rest') := TakeAll(shapes[1..], rest).value;
      assert ([i] + items)[1..] == items;
      assert Put(i) + PutAll(items) + rest' == Put(i) + (PutAll(items) + rest');
    }
  }

  // ---- Envelopes ----

  type i32 = n: int | -0x8000_0000 <= n < 0x8000_0000

  /** kind is any byte on the encoding side; Decode knows four. */
  datatype Envelope = Envelope(kind: byte, topic: seq<byte>, partition: i32, dedupeKey: seq<byte>,
                               tsNs: u64, visibleAtNs: u64,
                               consumerID: seq<byte>, msgID: u64, payload: seq<byte>, partitions: i32)

  datatype Result = Ok(env: Envelope) | ShortRead | BadVersion | BadKind | TooLarge | TrailingGarbage

  const VERSION: byte := 1
  const MAX_KIND: byte := 3
  const MAX_SIZE := 0x40_0000
  const MIN_SIZE := 50

  /** Go's conversions between int32 and uint32. */
  function ToU32(n: i32): u32 { if n < 0 then n + 0x1_0000_0000 else n }

  function ToI32(n: u32): i32 { if n < 0x8000_0000 then n else n - 0x1_0000_0000 }

  const SHAPES := [Var, Fixed(4), Var, Fixed(8), Fixed(8), Var, Fixed(8), Var, Fixed(4)]

  function Items(e: Envelope): seq<Item> {
    [Blob(e.topic), Num(ToU32(e.partition), 4), Blob(e.dedupeKey), Num(e.tsNs, 8), Num(e.visibleAtNs, 8),
     Blob(e.consumerID), Num(e.msgID, 8), Blob(e.payload), Num(ToU32(e.partitions), 4)]
  }

  ghost predicate FieldsFit(items: seq<Item>) { AllFit(SHAPES, items) }

  lemma FieldTypes(items: seq<Item>)
    requires FieldsFit(items)
    ensures |items| == 9
    ensures items[0].Blob? && items[2].Blob? && items[5].Blob? && items[7].Blob?
    ensures items[1].Num? && items[1].w == 4 && items[1].v < 0x1_0000_0000
    ensures items[8].Num? && items[8].w == 4 && items[8].v < 0x1_0000_0000
    ensures forall i :: i in {3, 4, 6} ==> items[i].Num? && items[i].w == 8 && items[i].v < 0x1_0000_0000_0000_0000
  {
    Widths();
    assert Fits(SHAPES[0], items[0]) && Fits(SHAPES[1], items[1])
        && Fits(SHAPES[2], items[2]) && Fits(SHAPES[3], items[3]);
    assert Fits(SHAPES[4], items[4]) && Fits(SHAPES[5], items[5])
        && Fits(SHAPES[6], items[6]) && Fits(SHAPES[7], items[7]);
    assert Fits(SHAPES[8], items[8]);
  }

  function FromItems(kind: byte, items: seq<Item>): Envelope
    requires FieldsFit(items)
  {
    FieldTypes(items);
    Envelope(kind, items[0].s, ToI32(items[1].v), items[2].s, items[3].v,
      items[4].v, items[5].s, items[6].v, items[7].s, ToI32(items[8].v))
  }

  lemma ItemsBack(e: Envelope)
    requires |e.topic| < 0x1_0000_0000 && |e.dedupeKey| < 0x1_0000_0000
             && |e.consumerID| < 0x1_0000_0000 && |e.payload| < 0x1_0000_0000
    ensures FieldsFit(Items(e)) && FromItems(e.kind, Items(e)) == e
  {
    Widths();
  }

  lemma ItemsThere(kind: byte, items: seq<Item>)
    requires FieldsFit(items)
    ensures Items(FromItems(kind, items)) == items
  {
    FieldTypes(items);
  }

  /** The bytes of one envelope: version, kind, then the fields. */
  function Layout(e: Envelope): (b: seq<byte>) { [VERSION, e.kind] + PutAll(Items(e)) }

  function Parse(d: seq<byte>): Result {
    if |d| > MAX_SIZE then TooLarge
    else if |d| < MIN_SIZE then ShortRead
    else if d[0] != VERSION then BadVersion
    else if d[1] > MAX_KIND then BadKind
    else
      match TakeAll(SHAPES, d[2..])
      case None => ShortRead
      case Some((items, rest)) =>
        PutTakeAll(SHAPES, d[2..]);
        if rest == [] then Ok(FromItems(d[1], items)) else TrailingGarbage
  }

  lemma NineSizes(s: seq<Item>)
    requires |s| == 9
    ensures |PutAll(s)| == |Put(s[0])| + |Put(s[1])| + |Put(s[2])|
            + |Put(s[3])| + |Put(s[4])| + |Put(s[5])| + |Put(s[6])|
                           + |Put(s[7])| + |Put(s[8])|
  {
    hide PutAll, Put;
    NoItems();
    ThreeSizes(s, 0);
    ThreeSizes(s, 3);
    ThreeSizes(s, 6);
    assert s[0..] == s && s[9..] == [];
  }

  lemma ThreeSizes(s: seq<Item>, i: nat)
    requires i + 3 <= |s|
    ensures |PutAll(s[i..])| == |Put(s[i])| + |Put(s[i + 1])| + |Put(s[i + 2])| + |PutAll(s[i + 3..])|
  {
    hide PutAll, Put;
    PutAllSize(s, i);
    PutAllSize(s, i + 1);
    PutAllSize(s, i + 2);
  }

  lemma Size(e: Envelope)
    ensures |Layout(e)| == MIN_SIZE + |e.topic| + |e.dedupeKey| + |e.consumerID| + |e.payload|
  {
    hide PutAll, PutLE;
    NineSizes(Items(e));
  }

  lemma NoItems()
    ensures PutAll([]) == []
  {
  }

  lemma PutAllSize(items: seq<Item>, i: nat)
    requires i < |items|
    ensures |PutAll(items[i..])| == |Put(items[i])| + |PutAll(items[i + 1..])|
  {
    assert items[i..][1..] == items[i + 1..];
  }

  /** Decoding undoes encoding exactly for the four known kinds and at most 4 MiB. */
  lemma DecodeUndoesEncodeIff(e: Envelope)
    ensures Parse(Layout(e)) == Ok(e) <==> e.kind <= MAX_KIND && |Layout(e)| <= MAX_SIZE
    ensures |Layout(e)| > MAX_SIZE ==> Parse(Layout(e)) == TooLarge
    ensures |Layout(e)| <= MAX_SIZE && e.kind > MAX_KIND ==> Parse(Layout(e)) == BadKind
  {
    hide TakeAll, PutAll, Items;
    Size(e);
    var d := Layout(e);
    assert d[0] == VERSION && d[1] == e.kind && d[2..] == PutAll(Items(e)) + [];
    if |d| <= MAX_SIZE {
      ItemsBack(e);
      TakeAllPut(SHAPES, Items(e), []);
    }
  }

  /** Re-encoding an accepted byte string gives the same bytes. */
  lemma EncodeUndoesDecode(d: seq<byte>)
    requires Parse(d).Ok?
    ensures Layout(Parse(d).env) == d
  {
    hide TakeAll, PutAll, Items;
    var (items, rest) := TakeAll(SHAPES, d[2..]).value;
    PutTakeAll(SHAPES, d[2..]);
    ItemsThere(d[1], items);
    assert PutAll(items) + [] == PutAll(items);
    assert d == [d[0], d[1]] + d[2..];
  }

  /** Bytes after a valid encoding are never accepted. */
  lemma ExtensionRejected(d: seq<byte>, more: seq<byte>)
    requires Parse(d).Ok? && more != []
    ensures Parse(d + more) == if |d + more| > MAX_SIZE then TooLarge else TrailingGarbage
  {
    hide TakeAll, PutAll, Items, FromItems;
    var (items, rest) := TakeAll(SHAPES, d[2..]).value;
    PutTakeAll(SHAPES, d[2..]);
    TakeAllPut(SHAPES, items, more);
    assert PutAll(items) + [] == PutAll(items);
    assert (d + more)[2..] == PutAll(items) + more;
  }

  /** Parsing is decided by the bytes it reads: more bytes only lengthen what is left over. */
  lemma TakeAllExtends(shapes: seq<Shape>, d: seq<byte>, more: seq<byte>)
    requires TakeAll(shapes, d).Some?
    ensures var (items, rest) := TakeAll(shapes, d).value; TakeAll(shapes, d + more) == Some((items, rest + more))
  {
    hide TakeAll, PutAll, Fits;
    var (items, rest) := TakeAll(shapes, d).value;
    PutTakeAll(shapes, d);
    TakeAllPut(shapes, items, rest + more);
    assert d + more == PutAll(items) + (rest + more);
  }

  /** A valid encoding that stops early is a short read. */
  lemma PrefixRejected(d: seq<byte>, k: nat)
    requires Parse(d).Ok? && k < |d|
    ensures Parse(d[..k]) == ShortRead
  {
    hide TakeAll, PutAll, Items, FromItems;
    if k >= MIN_SIZE {
      var p := d[..k];
      assert d[2..] == p[2..] + d[k..] && |d[k..]| > 0;
      if TakeAll(SHAPES, p[2..]).Some? {
        TakeAllExtends(SHAPES, p[2..], d[k..]);
      }
    }
  }

  // ---- The code, field by field ----

  method PutU64(b: seq<byte>, v: u64) returns (b': seq<byte>)
    ensures b' == b + Put(Num(v, 8))
  {
    b' := b + PutLE(v, 8);
  }

  /** v is converted to uint32, so only its low four bytes count. */
  method PutU32(b: seq<byte>, v: nat) returns (b': seq<byte>)
    ensures b' == b + Put(Num(v, 4))
  {
    b' := b + PutLE(v, 4);
  }

  method PutStr(b: seq<byte>, s: seq<byte>) returns (b': seq<byte>)
    ensures b' == b + Put(Blob(s))
  {
    hide PutLE;
    b' := PutU32(b, |s|);
    b' := b' + s;
  }

  lemma {:induction false} PutAllSnoc(items: seq<Item>, i: Item)
    ensures PutAll(items + [i]) == PutAll(items) + Put(i)
  {
    hide Put;
    if items == [] {
      assert [i][1..] == [] && Put(i) + [] == Put(i) == [] + Put(i);
      assert items + [i] == [i];
    } else {
      PutAllSnoc(items[1..], i);
      assert (items + [i])[1..] == items[1..] + [i];
      assert Put(items[0]) + (PutAll(items[1..]) + Put(i)) == Put(items[0]) + PutAll(items[1..]) + Put(i);
    }
  }

  /** One more field behind those already written. */
  lemma Wrote(h: seq<byte>, items: seq<Item>, k: nat)
    requires k < |items|
    ensures h + PutAll(items[..k]) + Put(items[k]) == h + PutAll(items[..k + 1])
  {
    hide Put, PutAll;
    PutAllSnoc(items[..k], items[k]);
    assert items[..k + 1] == items[..k] + [items[k]];
  }

  method Encode(e: Envelope) returns (b: seq<byte>)
    ensures b == Layout(e)
  {
    hide PutAll, Put;
    ghost var items, h := Items(e), [VERSION, e.kind];
    NoItems();
    b := [VERSION, e.kind];
    assert b == h + PutAll(items[..0]);
    b := PutStr(b, e.topic);
    Wrote(h, items, 0);
    b := PutU32(b, ToU32(e.partition));
    Wrote(h, items, 1);
    b := PutStr(b, e.dedupeKey);
    Wrote(h, items, 2);
    b := PutU64(b, e.tsNs);
    Wrote(h, items, 3);
    b := PutU64(b, e.visibleAtNs);
    Wrote(h, items, 4);
    b := PutStr(b, e.consumerID);
    Wrote(h, items, 5);
    b := PutU64(b, e.msgID);
    Wrote(h, items, 6);
    b := PutStr(b, e.payload);
    Wrote(h, items, 7);
    b := PutU32(b, ToU32(e.partitions));
    Wrote(h, items, 8);
    assert items[..9] == items;
  }

  method U64(data: seq<byte>, off: nat) returns (v: u64, off': nat, ok: bool)
    requires off <= |data|
    ensures off' <= |data|
    ensures Take(Fixed(8), data[off..]) == if ok then Some((Num(v, 8), data[off'..])) else None
  {
    if off + 8 > |data| {
      return 0, off, false;
    }
    Widths();
    assert data[off..][..8] == data[off..off + 8];
    return GetLE(data[off..off + 8]), off + 8, true;
  }

  method U32(data: seq<byte>, off: nat) returns (v: u32, off': nat, ok: bool)
    requires off <= |data|
    ensures off' <= |data| && (ok ==> off' == off + 4 && v == GetLE(data[off..off + 4])) && (!ok ==> |data[off..]| < 4)
    ensures Take(Fixed(4), data[off..]) == if ok then Some((Num(v, 4), data[off'..])) else None
  {
    if off + 4 > |data| {
      return 0, off, false;
    }
    Widths();
    assert data[off..][..4] == data[off..off + 4];
    return GetLE(data[off..off + 4]), off + 4, true;
  }

  method Str(data: seq<byte>, off: nat) returns (s: seq<byte>, off': nat, ok: bool)
    requires off <= |data|
    ensures off' <= |data|
    ensures Take(Var, data[off..]) == if ok then Some((Blob(s), data[off'..])) else None
  {
    var n, at, got := U32(data, off);
    assert got ==> data[off..][..4] == data[off..off + 4];
    if !got || at + n > |data| {
      return [], off, false;
    }
    assert data[off..][4..4 + n] == data[at..at + n];
    return data[at..at + n], at + n, true;
  }

  /** One more field read: what is left to parse is the rest of the shapes on the rest of the bytes. */
  lemma Read(items: seq<Item>, shapes: seq<Shape>, d: seq<byte>)
    requires shapes != []
    ensures match Take(shapes[0], d)
            case None => Prepend(items, TakeAll(shapes, d)) == None
            case Some((i, rest)) =>
              Prepend(items, TakeAll(shapes, d)) == Prepend(items + [i], TakeAll(shapes[1..], rest))
  {
    match Take(shapes[0], d)
    case None =>
    case Some((i, rest)) =>
      if TakeAll(shapes[1..], rest).Some? {
        var (more, _) := TakeAll(shapes[1..], rest).value;
        assert items + ([i] + more) == items + [i] + more;
      }
  }

  /** The same with the shapes counted from the front of SHAPES. */
  lemma ReadField(items: seq<Item>, d: seq<byte>)
    requires |items| < |SHAPES|
    ensures match Take(SHAPES[|items|], d)
            case None => Prepend(items, TakeAll(SHAPES[|items|..], d)) == None
            case Some((i, rest)) =>
              Prepend(items, TakeAll(SHAPES[|items|..], d))
                == Prepend(items + [i], TakeAll(SHAPES[|items| + 1..], rest))
  {
    hide Take, TakeAll, Prepend;
    Read(items, SHAPES[|items|..], d);
    assert SHAPES[|items|..][1..] == SHAPES[|items| + 1..];
  }

  method Decode(data: seq<byte>) returns (r: Result)
    ensures r == Parse(data)
  {
    if |data| > MAX_SIZE {
      return TooLarge;
    }
    if |data| < MIN_SIZE {
      return ShortRead;
    }
    if data[0] != VERSION {
      return BadVersion;
    }
    var kind := data[1];
    if kind > MAX_KIND {
      return BadKind;
    }
    r := DecodeFields(data, kind);
  }

  /** The fields, with the shared offset. */
  method DecodeFields(data: seq<byte>, kind: byte) returns (r: Result)
    requires MIN_SIZE <= |data| <= MAX_SIZE && data[0] == VERSION && data[1] == kind <= MAX_KIND
    ensures r == Parse(data)
  {
    hide Take, TakeAll, Put, PutAll, Prepend, Fits, FromItems;
    var topic, p, dedupeKey, tsNs, visibleAtNs, off, ok := DecodeRouting(data);
    ghost var got := [Blob(topic), Num(p, 4), Blob(dedupeKey), Num(tsNs, 8), Num(visibleAtNs, 8)];
    if !ok {
      return ShortRead;
    }
    ReadField(got, data[off..]);
    var consumerID;
    consumerID, off, ok := Str(data, off);
    if !ok {
      return ShortRead;
    }
    got := got + [Blob(consumerID)];
    ReadField(got, data[off..]);
    var msgID;
    msgID, off, ok := U64(data, off);
    if !ok {
      return ShortRead;
    }
    got := got + [Num(msgID, 8)];
    ReadField(got, data[off..]);
    var payload;
    payload, off, ok := Str(data, off);
    if !ok {
      return ShortRead;
    }
    got := got + [Blob(payload)];
    ReadField(got, data[off..]);
    var p2;
    p2, off, ok := U32(data, off);
    if !ok {
      return ShortRead;
    }
    got := got + [Num(p2, 4)];
    NothingLeft(got, data[off..]);
    if off != |data| {
      return TrailingGarbage;
    }
    r := Ok(Envelope(kind, topic, ToI32(p), dedupeKey, tsNs, visibleAtNs, consumerID, msgID, payload, ToI32(p2)));
    assert data[off..] == [];
    Assembled(data, got, r.env);
  }

  method DecodeRouting(data: seq<byte>)
    returns (topic: seq<byte>, p: u32, dedupeKey: seq<byte>, tsNs: u64, visibleAtNs: u64, off: nat, ok: bool)
    requires 2 <= |data|
    ensures off <= |data|
    ensures TakeAll(SHAPES, data[2..])
         == if ok
            then Prepend([Blob(topic), Num(p, 4), Blob(dedupeKey), Num(tsNs, 8), Num(visibleAtNs, 8)],
                         TakeAll(SHAPES[5..], data[off..]))
            else None
  {
    hide Take, TakeAll, Prepend;
    ghost var got := [];
    assert SHAPES[0..] == SHAPES;
    PrependNothing(TakeAll(SHAPES, data[2..]));
    off, ok, p, dedupeKey, tsNs, visibleAtNs := 2, true, 0, [], 0, 0;
    ReadField(got, data[off..]);
    topic, off, ok := Str(data, off);
    if !ok {
      return;
    }
    got := got + [Blob(topic)];
    ReadField(got, data[off..]);
    p, off, ok := U32(data, off);
    if !ok {
      return;
    }
    got := got + [Num(p, 4)];
    ReadField(got, data[off..]);
    dedupeKey, off, ok := Str(data, off);
    if !ok {
      return;
    }
    got := got + [Blob(dedupeKey)];
    ReadField(got, data[off..]);
    tsNs, off, ok := U64(data, off);
    if !ok {
      return;
    }
    got := got + [Num(tsNs, 8)];
    ReadField(got, data[off..]);
    visibleAtNs, off, ok := U64(data, off);
    if !ok {
      return;
    }
    assert got + [Num(visibleAtNs, 8)] == [Blob(topic), Num(p, 4), Blob(dedupeKey), Num(tsNs, 8), Num(visibleAtNs, 8)];
  }

  lemma NothingLeft(items: seq<Item>, d: seq<byte>)
    requires |items| == |SHAPES|
    ensures Prepend(items, TakeAll(SHAPES[|items|..], d)) == Some((items, d))
  {
    assert SHAPES[|items|..] == [] && items + [] == items;
  }

  lemma Assembled(data: seq<byte>, items: seq<Item>, e: Envelope)
    requires MIN_SIZE <= |data| <= MAX_SIZE && data[0] == VERSION && data[1] <= MAX_KIND
    requires TakeAll(SHAPES, data[2..]) == Some((items, []))
    requires |items| == 9 && items[0] == Blob(e.topic) && items[1].Num? && items[2] == Blob(e.dedupeKey)
    requires items[3] == Num(e.tsNs, 8) && items[4] == Num(e.visibleAtNs, 8) && items[5] == Blob(e.consumerID)
    requires items[6] == Num(e.msgID, 8) && items[7] == Blob(e.payload) && items[8].Num?
    requires items[1].v < 0x1_0000_0000 && items[8].v < 0x1_0000_0000
    requires e.kind == data[1] && e.partition == ToI32(items[1].v) && e.partitions == ToI32(items[8].v)
    ensures Parse(data) == Ok(e)
  {
    hide TakeAll, Put, PutAll, Fits;
    PutTakeAll(SHAPES, data[2..]);
  }
}
