/** Bytes and the little-endian integers of encoding/binary. */
module Bytes {

  type byte = b: int | 0 <= b < 256
  type u32 = n: int | 0 <= n < 0x1_0000_0000
  type u64 = n: int | 0 <= n < 0x1_0000_0000_0000_0000

  datatype Option<+T> = None | Some(value: T)

  function Pow256(w: nat): (p: nat)
    ensures p > 0
  {
    if w == 0 then 1 else 256 * Pow256(w - 1)
  }

  /** The w low-order bytes of v, least significant first; larger values are truncated as Go's casts do. */
  function PutLE(v: nat, w: nat): (s: seq<byte>)
    ensures |s| == w
    decreases w, v
  {
    if w == 0 then [] else [v % 256] + PutLE(v / 256, w - 1)
  }

  function GetLE(s: seq<byte>): (v: nat)
    ensures v < Pow256(|s|)
  {
    if s == [] then 0 else s[0] + 256 * GetLE(s[1..])
  }

  lemma {:induction false} GetPut(v: nat, w: nat)
    requires v < Pow256(w)
    ensures GetLE(PutLE(v, w)) == v
  {
    if w > 0 {
      GetPut(v / 256, w - 1);
      assert PutLE(v, w)[1..] == PutLE(v / 256, w - 1);
    }
  }

  lemma {:induction false} PutGet(s: seq<byte>)
    ensures PutLE(GetLE(s), |s|) == s
  {
    if s != [] {
      PutGet(s[1..]);
      assert GetLE(s) / 256 == GetLE(s[1..]);
    }
  }

  lemma Widths()
    ensures Pow256(2) == 0x1_0000
    ensures Pow256(4) == 0x1_0000_0000
    ensures Pow256(8) == 0x1_0000_0000_0000_0000
  {
  }

  // ---- Reading one thing after the other ----

  /** What was read before, in front of what the rest of the input yields. */
  function Prepend<A, B>(xs: seq<A>, o: Option<(seq<A>, B)>): Option<(seq<A>, B)> {
    match o
    case None => None
    case Some((more, rest)) => Some((xs + more, rest))
  }

  lemma PrependNothing<A, B>(o: Option<(seq<A>, B)>)
    ensures Prepend([], o) == o
  {
    if o.Some? {
      assert [] + o.value.0 == o.value.0;
    }
  }

  lemma PrependOne<A, B>(xs: seq<A>, x: A, o: Option<(seq<A>, B)>)
    ensures Prepend(xs, Prepend([x], o)) == Prepend(xs + [x], o)
  {
    if o.Some? {
      assert xs + ([x] + o.value.0) == xs + [x] + o.value.0;
    }
  }
}
