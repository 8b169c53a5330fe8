/** Framed WAL records (internal/wal/record.go) and the scan that recovery and readers run over them. */
module Codec {
  import opened Bytes

  /** MaxRecordSize: 4 MiB for everything after the length prefix. */
  const MAX_RECORD := 0x40_0000

  datatype Record = Record(msgID: u64, tsNs: u64, key: seq<byte>, payload: seq<byte>, visibleAtNs: u64, raftIndex: u64)

  datatype DecodeResult = Got(rec: Record, n: nat) | Eof | ShortRead | BadCRC | TooLarge

  /** CRC-32 of section 8 of RFC 1952; no result here depends on which function it is. */
  type Checksum = seq<byte> -> u32

  // ---- Encoding ----

  /** Bytes one record takes on disk: length prefix, fixed fields, key, payload, trailers, checksum. */
  function Size(rec: Record): (n: nat) {
    38 + |rec.key| + |rec.payload| + if rec.raftIndex != 0 then 8 else 0
  }

  /** Everything but the append-only trailing fields. */
  function Core(rec: Record): (s: seq<byte>)
  {
    PutLE(rec.msgID, 8) + PutLE(rec.tsNs, 8) + PutLE(|rec.key|, 2) + rec.key + PutLE(|rec.payload|, 4) + rec.payload
  }

  function Trailer(rec: Record): (s: seq<byte>) {
    PutLE(rec.visibleAtNs, 8) + if rec.raftIndex != 0 then PutLE(rec.raftIndex, 8) else []
  }

  function Seal(crc: Checksum, inner: seq<byte>): (s: seq<byte>)
  {
    PutLE(|inner| + 4, 4) + inner + PutLE(crc(inner), 4)
  }

  function Frame(crc: Checksum, rec: Record): (s: seq<byte>)
    ensures |s| == Size(rec)
  {
    Seal(crc, Core(rec) + Trailer(rec))
  }

  /** What Encode accepts; everything else is ErrTooLarge. Depends on sizes only, never on the MsgID. */
  predicate Encodable(rec: Record) {
    |rec.key| <= 65535 && Size(rec) - 4 <= MAX_RECORD
  }

  // ---- Decoding ----

  /** The append-only fields: none (before they existed), VisibleAtNs, or VisibleAtNs and RaftIndex. */
  function ParseTrailer(t: seq<byte>): Option<(u64, u64)> {
    Widths();
    if |t| == 0 then Some((0, 0))
    else if |t| == 8 then Some((GetLE(t), 0))
    else if |t| == 16 then Some((GetLE(t[..8]), GetLE(t[8..])))
    else None
  }

  function ParseInner(inner: seq<byte>): Option<Record> {
    Widths();
    if |inner| < 22 then None else
    var keyEnd := 18 + GetLE(inner[16..18]);
    if keyEnd + 4 > |inner| then None else
    var end := keyEnd + 4 + GetLE(inner[keyEnd..keyEnd + 4]);
    if end > |inner| then None else
    match ParseTrailer(inner[end..])
    case None => None
    case Some((vis, raft)) =>
      Some(Record(GetLE(inner[..8]), GetLE(inner[8..16]), inner[18..keyEnd], inner[keyEnd + 4..end], vis, raft))
  }

  function Decode(crc: Checksum, s: seq<byte>): (r: DecodeResult)
    ensures r.Got? ==> 4 < r.n <= |s|
  {
    if s == [] then Eof else
    if |s| < 4 then ShortRead else
    var length := GetLE(s[..4]);
    if length > MAX_RECORD then TooLarge else
    if length < 4 || 4 + length > |s| then ShortRead else
    var inner := s[4..length];
    if GetLE(s[length..4 + length]) != crc(inner) then BadCRC else
    match ParseInner(inner)
    case None => ShortRead
    case Some(rec) => Got(rec, 4 + length)
  }

  // ---- One frame ----

  lemma CoreSlices(rec: Record, t: seq<byte>)
    ensures var inner := Core(rec) + t; var keyEnd := 18 + |rec.key|; var end := keyEnd + 4 + |rec.payload|;
            && |Core(rec)| == end
            && inner[..8] == PutLE(rec.msgID, 8) && inner[8..16] == PutLE(rec.tsNs, 8)
            && inner[16..18] == PutLE(|rec.key|, 2) && inner[18..keyEnd] == rec.key
            && inner[keyEnd..keyEnd + 4] == PutLE(|rec.payload|, 4) && inner[keyEnd + 4..end] == rec.payload
            && inner[end..] == t
  {
    hide PutLE;
  }

  /** Fields come back whatever trailer follows them. */
  lemma ParseCore(rec: Record, t: seq<byte>)
    requires |rec.key| <= 65535 && |rec.payload| <= MAX_RECORD
    ensures ParseInner(Core(rec) + t) ==
            match ParseTrailer(t)
            case None => None
            case Some((vis, raft)) => Some(rec.(visibleAtNs := vis, raftIndex := raft))
  {
    hide PutLE, GetLE, Core, ParseTrailer;
    Widths();
    CoreSlices(rec, t);
    GetPut(rec.msgID, 8);
    GetPut(rec.tsNs, 8);
    GetPut(|rec.key|, 2);
    GetPut(|rec.payload|, 4);
  }

  /** A sealed body comes out of Decode with its CRC accepted, and nothing after it is touched. */
  lemma DecodeSealed(crc: Checksum, inner: seq<byte>, rest: seq<byte>)
    requires |inner| + 4 <= MAX_RECORD
    ensures Decode(crc, Seal(crc, inner) + rest) ==
            match ParseInner(inner)
            case None => ShortRead
            case Some(rec) => Got(rec, |inner| + 8)
  {
    Widths();
    var s := Seal(crc, inner) + rest;
    var length := |inner| + 4;
    assert s[..4] == PutLE(length, 4);
    GetPut(length, 4);
    assert s[4..length] == inner;
    assert s[length..4 + length] == PutLE(crc(inner), 4);
    GetPut(crc(inner), 4);
  }

  /** Decoding undoes encoding, field for field, with or without the RaftIndex trailer. */
  lemma DecodeFrame(crc: Checksum, rec: Record, rest: seq<byte>)
    requires Encodable(rec)
    ensures Decode(crc, Frame(crc, rec) + rest) == Got(rec, Size(rec))
  {
    Widths();
    var t := Trailer(rec);
    ParseCore(rec, t);
    DecodeSealed(crc, Core(rec) + t, rest);
    GetPut(rec.visibleAtNs, 8);
    GetPut(rec.raftIndex, 8);
    if rec.raftIndex != 0 {
      assert t[..8] == PutLE(rec.visibleAtNs, 8) && t[8..] == PutLE(rec.raftIndex, 8);
    } else {
      assert t == PutLE(rec.visibleAtNs, 8);
    }
  }

  /** Frames written before the trailing fields existed decode with both of them zero. */
  lemma DecodeLegacy(crc: Checksum, rec: Record, rest: seq<byte>)
    requires |rec.key| <= 65535 && |Core(rec)| + 4 <= MAX_RECORD
    ensures Decode(crc, Seal(crc, Core(rec)) + rest) == Got(rec.(visibleAtNs := 0, raftIndex := 0), |Core(rec)| + 8)
  {
    ParseCore(rec, []);
    assert Core(rec) + [] == Core(rec);
    DecodeSealed(crc, Core(rec), rest);
  }

  /** A frame cut anywhere inside is a short read; cut before its first byte, a clean end. */
  lemma DecodeTorn(crc: Checksum, rec: Record, m: nat)
    requires Encodable(rec) && m < Size(rec)
    ensures Decode(crc, Frame(crc, rec)[..m]) == if m == 0 then Eof else ShortRead
  {
    if m >= 4 {
      Widths();
      var length := Size(rec) - 4;
      assert Frame(crc, rec)[..m][..4] == PutLE(length, 4);
      GetPut(length, 4);
    }
  }

  /** The frame format as the rest of the log uses it. */
  datatype Framing = Framing(enc: Record -> seq<byte>, dec: seq<byte> -> DecodeResult)

  function WalFraming(crc: Checksum): Framing {
    Framing(r => Frame(crc, r), s => Decode(crc, s))
  }

  /** What recovery and the readers need of it: self-delimiting frames, and torn ones told apart from clean ends. */
  ghost predicate Lawful(f: Framing) {
    && (forall r | Encodable(r) :: |f.enc(r)| == Size(r))
    && (forall r, rest | Encodable(r) :: f.dec(f.enc(r) + rest) == Got(r, Size(r)))
    && (forall r, m | Encodable(r) && 0 < m < Size(r) && |f.enc(r)| == Size(r) :: f.dec(f.enc(r)[..m]) == ShortRead)
    && f.dec([]) == Eof
    && (forall s :: f.dec(s).Got? ==> 0 < f.dec(s).n <= |s|)
  }

  lemma WalFramingIsLawful(crc: Checksum)
    ensures Lawful(WalFraming(crc))
  {
    hide Frame, Decode;
    var f := WalFraming(crc);
    forall r: Record, rest: seq<byte> | Encodable(r)
      ensures f.dec(f.enc(r) + rest) == Got(r, Size(r))
    {
      DecodeFrame(crc, r, rest);
    }
    forall r: Record, m | Encodable(r) && 0 < m < Size(r)
      ensures f.dec(f.enc(r)[..m]) == ShortRead
    {
      DecodeTorn(crc, r, m);
    }
    DecodeNothing(crc);
  }

  lemma DecodeNothing(crc: Checksum)
    ensures Decode(crc, []) == Eof
  {
  }

  // ---- The code: a buffer filled step by step, and an offset that moves ----

  method EncodeRecord(crc: Checksum, rec: Record, dst: seq<byte>) returns (dst': seq<byte>, ok: bool)
    ensures ok <==> Encodable(rec)
    ensures dst' == if ok then dst + Frame(crc, rec) else dst
  {
    hide PutLE;
    if |rec.key| > 65535 {
      return dst, false;
    }
    var inner := PutLE(rec.msgID, 8);
    inner := inner + PutLE(rec.tsNs, 8);
    inner := inner + PutLE(|rec.key|, 2);
    inner := inner + rec.key;
    inner := inner + PutLE(|rec.payload|, 4);
    inner := inner + rec.payload;
    assert inner == Core(rec);
    inner := inner + PutLE(rec.visibleAtNs, 8);
    if rec.raftIndex != 0 {
      inner := inner + PutLE(rec.raftIndex, 8);
    }
    assert inner == Core(rec) + Trailer(rec);
    if |inner| + 4 > MAX_RECORD {
      return dst, false;
    }
    dst' := dst + PutLE(|inner| + 4, 4);
    dst' := dst' + inner;
    dst' := dst' + PutLE(crc(inner), 4);
    return dst', true;
  }

  method DecodeRecord(crc: Checksum, s: seq<byte>) returns (r: DecodeResult)
    ensures r == Decode(crc, s)
  {
    hide GetLE;
    if s == [] {
      return Eof;
    }
    if |s| < 4 {
      return ShortRead;
    }
    var length := GetLE(s[..4]);
    if length > MAX_RECORD {
      return TooLarge;
    }
    if length < 4 || |s| - 4 < length {
      return ShortRead;
    }
    var body := s[4..4 + length];
    var inner := body[..|body| - 4];
    assert inner == s[4..length] && body[|body| - 4..] == s[length..4 + length];
    if GetLE(body[|body| - 4..]) != crc(inner) {
      return BadCRC;
    }
    var rec := DecodeInner(inner);
    if rec == None {
      return ShortRead;
    }
    return Got(rec.value, 4 + length);
  }

  method DecodeInner(inner: seq<byte>) returns (r: Option<Record>)
    ensures r == ParseInner(inner)
  {
    hide GetLE;
    Widths();
    if |inner| < 22 {
      return None;
    }
    var off := 0;
    var msgID := GetLE(inner[off..off + 8]);
    off := off + 8;
    var tsNs := GetLE(inner[off..off + 8]);
    off := off + 8;
    var keyLen := GetLE(inner[off..off + 2]);
    off := off + 2;
    if off + keyLen > |inner| {
      return None;
    }
    var key := inner[off..off + keyLen];
    off := off + keyLen;
    if off + 4 > |inner| {
      return None;
    }
    var payloadLen := GetLE(inner[off..off + 4]);
    off := off + 4;
    if off + payloadLen > |inner| {
      return None;
    }
    var payload := inner[off..off + payloadLen];
    off := off + payloadLen;
    var visibleAtNs, raftIndex: nat := 0, 0;
    ghost var t := inner[off..];
    if |inner| - off == 8 {
      visibleAtNs := GetLE(inner[off..off + 8]);
      assert t == inner[off..off + 8];
    } else if |inner| - off == 16 {
      visibleAtNs := GetLE(inner[off..off + 8]);
      raftIndex := GetLE(inner[off + 8..off + 16]);
      assert t[..8] == inner[off..off + 8] && t[8..] == inner[off + 8..off + 16];
    } else if |inner| - off != 0 {
      return None;
    }
    return Some(Record(msgID, tsNs, key, payload, visibleAtNs, raftIndex));
  }
}
