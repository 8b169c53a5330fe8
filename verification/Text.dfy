/** Lines, white-space fields and decimals as Go's bufio, strings and strconv read them. */
module Text {
  import opened Bytes

  const SP: byte := 32
  const NL: byte := 10
  const CR: byte := 13

  type text = seq<byte>

  // ---- Lines ----

  /** Position of the first b, or |s|. */
  function IndexOf(s: text, b: byte): (i: nat)
    ensures i <= |s|
    ensures i < |s| ==> s[i] == b
    ensures forall j :: 0 <= j < i ==> s[j] != b
  {
    if s == [] then 0 else if s[0] == b then 0 else 1 + IndexOf(s[1..], b)
  }

  predicate Without(s: text, b: byte) { forall i :: 0 <= i < |s| ==> s[i] != b }

  /** ReadString: everything up to and with the first newline, and what follows it; None at the end of input. */
  function ReadLine(s: text): Option<(text, text)> {
    var i := IndexOf(s, NL);
    if i < |s| then Some((s[..i + 1], s[i + 1..])) else None
  }

  /** TrimRight with the cutset "\r\n". */
  function Trim(s: text): (r: text)
    ensures r <= s
  {
    if s != [] && (s[|s| - 1] == CR || s[|s| - 1] == NL) then Trim(s[..|s| - 1]) else s
  }

  lemma IndexOfAt(s: text, b: byte, i: nat)
    requires i < |s| && s[i] == b && forall j :: 0 <= j < i ==> s[j] != b
    ensures IndexOf(s, b) == i
  {
  }

  /** A line without a newline inside comes back with what follows it. */
  lemma ReadPrintedLine(line: text, rest: text)
    requires Without(line, NL)
    ensures ReadLine(line + [NL] + rest) == Some((line + [NL], rest))
  {
    var s := line + [NL] + rest;
    IndexOfAt(s, NL, |line|);
    assert s[..|line| + 1] == line + [NL];
    assert s[|line| + 1..] == rest;
  }

  lemma TrimLine(line: text)
    ensures Trim(line + [NL]) == Trim(line)
  {
    assert (line + [NL])[..|line|] == line;
  }

  lemma TrimClean(line: text)
    ensures Trim(line) == line <==> line == [] || (line[|line| - 1] != CR && line[|line| - 1] != NL)
  {
  }

  lemma {:induction false} TrimSuffix(a: text, b: text)
    requires a != [] && a[|a| - 1] != CR && a[|a| - 1] != NL
    ensures Trim(a + b) == a + Trim(b)
  {
    if b == [] {
      assert a + b == a;
    } else if b[|b| - 1] == CR || b[|b| - 1] == NL {
      TrimSuffix(a, b[..|b| - 1]);
      assert (a + b)[..|a + b| - 1] == a + b[..|b| - 1];
    }
  }

  // ---- Fields ----

  predicate AsciiSpace(b: byte) { 9 <= b <= 13 || b == SP }

  /**
   * Bytes of the white-space character at the front of s, 0 if there is none: the ASCII ones and the
   * UTF-8 forms of U+0085, U+00A0, U+1680, U+2000 to U+200A, U+2028, U+2029, U+202F, U+205F and U+3000.
   * Each form starts with a byte that continues no other character, so looking at bytes is enough.
   */
  function SpaceLen(s: text): (n: nat)
    ensures n <= 3 && n <= |s|
  {
    if s == [] then 0
    else if AsciiSpace(s[0]) then 1
    else if |s| < 2 then 0
    else if s[0] == 0xC2 then if s[1] == 0x85 || s[1] == 0xA0 then 2 else 0
    else if |s| < 3 then 0
    else if s[0] == 0xE1 then if s[1] == 0x9A && s[2] == 0x80 then 3 else 0
    else if s[0] == 0xE2 && s[1] == 0x80
    then if 0x80 <= s[2] <= 0x8A || s[2] == 0xA8 || s[2] == 0xA9 || s[2] == 0xAF then 3 else 0
    else if s[0] == 0xE2 && s[1] == 0x81 then if s[2] == 0x9F then 3 else 0
    else if s[0] == 0xE3 && s[1] == 0x80 && s[2] == 0x80 then 3
    else 0
  }

  /** Bytes before the first white space. */
  function TokenLen(s: text): (n: nat)
    ensures n <= |s|
    ensures s != [] && SpaceLen(s) == 0 ==> n > 0
  {
    if s == [] || SpaceLen(s) > 0 then 0 else 1 + TokenLen(s[1..])
  }

  function Fields(s: text): seq<text> {
    if s == [] then []
    else if SpaceLen(s) > 0 then Fields(s[SpaceLen(s)..])
    else [s[..TokenLen(s)]] + Fields(s[TokenLen(s)..])
  }

  predicate Token(t: text) { t != [] && forall i :: 0 <= i < |t| ==> SpaceLen(t[i..]) == 0 }

  function Join(ts: seq<text>): text {
    if ts == [] then [] else if |ts| == 1 then ts[0] else ts[0] + [SP] + Join(ts[1..])
  }

  /** What follows a token on the wire starts with a plain ASCII byte, so it completes no space begun in the token. */
  lemma SpaceLenStops(t: text, rest: text)
    requires t != [] && SpaceLen(t) == 0 && (rest == [] || rest[0] < 0x80)
    ensures SpaceLen(t + rest) == 0
  {
    var s := t + rest;
    assert s[0] == t[0];
    assert |t| >= 2 ==> s[1] == t[1];
    assert |t| >= 3 ==> s[2] == t[2];
    assert |t| == 1 && rest != [] ==> s[1] == rest[0];
    assert |t| == 2 && rest != [] ==> s[2] == rest[0];
  }

  lemma {:induction false} TokenLenStops(t: text, rest: text)
    requires (forall i :: 0 <= i < |t| ==> SpaceLen(t[i..]) == 0) && (rest == [] || rest[0] == SP)
    ensures TokenLen(t + rest) == |t|
  {
    hide SpaceLen;
    if t == [] {
      assert t + rest == rest;
      SpaceIsSpace(rest);
    } else {
      assert t[0..] == t;
      SpaceLenStops(t, rest);
      assert (t + rest)[1..] == t[1..] + rest;
      forall i | 0 <= i < |t[1..]| ensures SpaceLen(t[1..][i..]) == 0 {
        assert t[1..][i..] == t[i + 1..];
      }
      TokenLenStops(t[1..], rest);
    }
  }

  lemma SpaceIsSpace(s: text)
    ensures s != [] && s[0] == SP ==> SpaceLen(s) == 1
  {
  }

  /** Splitting undoes joining. */
  lemma {:induction false} FieldsOfJoin(ts: seq<text>)
    requires forall i :: 0 <= i < |ts| ==> Token(ts[i])
    ensures Fields(Join(ts)) == ts
  {
    hide SpaceLen, TokenLen;
    if ts != [] {
      var t := ts[0];
      assert Token(t);
      var rest := if |ts| == 1 then [] else [SP] + Join(ts[1..]);
      var s := t + rest;
      assert Join(ts) == s;
      TokenLenStops(t, rest);
      assert t[0..] == t;
      SpaceLenStops(t, rest);
      assert s[..|t|] == t && s[|t|..] == rest;
      FieldsOfJoin(ts[1..]);
      if |ts| > 1 {
        SpaceIsSpace(rest);
        assert rest[1..] == Join(ts[1..]);
      }
      assert [t] + ts[1..] == ts;
    }
  }

  // ---- Decimals ----

  predicate Digit(b: byte) { 48 <= b <= 57 }

  function Digits(n: nat): (s: text)
    ensures s != [] && forall i :: 0 <= i < |s| ==> Digit(s[i])
  {
    if n < 10 then [48 + n] else Digits(n / 10) + [48 + n % 10]
  }

  function Value(s: text): nat
    requires forall i :: 0 <= i < |s| ==> Digit(s[i])
  {
    if s == [] then 0 else
    assert Digit(s[|s| - 1]);
    var last: int := s[|s| - 1];
    10 * Value(s[..|s| - 1]) + last - 48
  }

  predicate AllDigits(s: text) { s != [] && forall i :: 0 <= i < |s| ==> Digit(s[i]) }

  /** strconv.ParseUint in base 10, 64 bits. */
  function ParseUint(s: text): Option<u64> {
    if AllDigits(s) && Value(s) < 0x1_0000_0000_0000_0000 then Some(Value(s)) else None
  }

  /** strconv.Atoi on a 64-bit int. */
  function Atoi(s: text): Option<int> {
    var signed := s != [] && (s[0] == 43 || s[0] == 45);
    var d := if signed then s[1..] else s;
    if !AllDigits(d) then None else
    var v: int := Value(d);
    if signed && s[0] == 45 then if v <= 0x8000_0000_0000_0000 then Some(-v) else None
    else if v < 0x8000_0000_0000_0000 then Some(v) else None
  }

  lemma {:induction false} ValueOfDigits(n: nat)
    ensures Value(Digits(n)) == n
  {
    if n >= 10 {
      ValueOfDigits(n / 10);
      assert Digits(n)[..|Digits(n)| - 1] == Digits(n / 10);
    } else {
      assert Digits(n)[..0] == [];
    }
  }

  lemma ParseUintDigits(n: nat)
    ensures ParseUint(Digits(n)) == if n < 0x1_0000_0000_0000_0000 then Some(n) else None
  {
    ValueOfDigits(n);
  }

  lemma AtoiDigits(n: nat)
    ensures Atoi(Digits(n)) == if n < 0x8000_0000_0000_0000 then Some(n) else None
  {
    hide Value, Digits;
    ValueOfDigits(n);
    assert Digit(Digits(n)[0]);
  }

  lemma AsciiToken(t: text)
    requires t != [] && forall i :: 0 <= i < |t| ==> 32 < t[i] < 0x80
    ensures Token(t)
  {
    forall i | 0 <= i < |t| ensures SpaceLen(t[i..]) == 0 {
      assert t[i..][0] == t[i];
    }
  }

  lemma DigitsToken(n: nat)
    ensures Token(Digits(n))
  {
    hide Digits;
    assert forall i :: 0 <= i < |Digits(n)| ==> Digit(Digits(n)[i]);
    AsciiToken(Digits(n));
  }
}
