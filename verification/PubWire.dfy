/**
 * The PUB frame: the header a client prints (pkg/client/pub.go:44-97) and the server parses
 * (internal/proto/parser.go:72-94, 135-245).
 */
module PubWire {
  import opened Bytes
  import opened Text
  import opened Wire

  const PUB: text := [80, 85, 66]
  const DELAY: text := [68, 69, 76, 65, 89]
  const WAIT: text := [87, 65, 73, 84]
  const DASH: text := [45]
  const STAR: text := [42]
  const HASH: byte := 35

  /** explicit says the topic carried an explicit #partition. */
  datatype Pub = Pub(topic: text, explicit: bool, partition: nat, key: text, routingKey: text, payload: text,
                     delayMs: u64, waitReplicas: int, waitTimeoutMs: u64)

  datatype Read = Command(pub: Pub, rest: text) | NotPub | Eof | BadFraming | Invalid | PayloadTooLarge | ShortBody

  // ---- Printing ----

  function TopicToken(c: Pub): text { if c.explicit then c.topic + [HASH] + Digits(c.partition) else c.topic }

  function KeyToken(key: text): text { if key == [] then DASH else key }

  function DelayTokens(delayMs: nat): seq<text> { if delayMs > 0 then [DELAY, Digits(delayMs)] else [] }

  function WaitTokens(n: int, t: nat): seq<text> { if n > 0 then [WAIT, Digits(n), Digits(t)] else [] }

  function Header(c: Pub): seq<text> {
    [PUB, TopicToken(c), KeyToken(c.key), KeyToken(c.routingKey), Digits(|c.payload|)]
    + DelayTokens(c.delayMs) + WaitTokens(c.waitReplicas, c.waitTimeoutMs)
  }

  function PrintPub(c: Pub): text { Join(Header(c)) + [NL] + c.payload + [NL] }

  // ---- Parsing ----

  datatype Target = Target(topic: text, star: bool, explicit: bool, partition: nat)

  function ParseTarget(tok: text): Option<Target> {
    var i := IndexOf(tok, HASH);
    if i == |tok| then if tok == [] then None else Some(Target(tok, false, false, 0))
    else if i == 0 then None
    else
      var suffix := tok[i + 1..];
      if !Without(suffix, HASH) then None
      else if suffix == STAR then Some(Target(tok[..i], true, false, 0))
      else
        match Atoi(suffix)
        case None => None
        case Some(n) => if n < 0 then None else Some(Target(tok[..i], false, true, n))
  }

  /** The optional tokens, in any order; a later one overrides an earlier one. */
  datatype Options = Options(delayMs: u64, waitReplicas: nat, waitTimeoutMs: u64)

  function ParseOptions(fs: seq<text>, o: Options): Option<Options> {
    if fs == [] then Some(o)
    else if fs[0] == DELAY then
      if |fs| < 2 then None else
      match ParseUint(fs[1])
      case None => None
      case Some(d) => ParseOptions(fs[2..], o.(delayMs := d))
    else if fs[0] == WAIT then
      if |fs| < 3 then None else
      var n, t := Atoi(fs[1]), ParseUint(fs[2]);
      if n == None || n.value < 0 || t == None then None
      else ParseOptions(fs[3..], o.(waitReplicas := n.value, waitTimeoutMs := t.value))
    else None
  }

  function KeyOf(token: text): text { if token == DASH then [] else token }

  function ParsePub(fs: seq<text>, s: text, maxPayload: nat): Read {
    if |fs| < 5 then Invalid else
    var o, t := ParseOptions(fs[5..], Options(0, 0, 0)), ParseTarget(fs[1]);
    if o == None || t == None || t.value.star then Invalid else
    match ParseUint(fs[4])
    case None => Invalid
    case Some(n) =>
      if n > maxPayload then PayloadTooLarge
      else if |s| < n then ShortBody
      else if |s| == n || s[n] != NL then BadFraming
      else Command(Pub(t.value.topic, t.value.explicit, t.value.partition, KeyOf(fs[2]), KeyOf(fs[3]), s[..n],
                       o.value.delayMs, o.value.waitReplicas, o.value.waitTimeoutMs), s[n + 1..])
  }

  function ReadPub(s: text, maxPayload: nat): Read {
    if s == [] then Eof else
    match ReadLine(s)
    case None => BadFraming
    case Some((line, rest)) =>
      if |line| > MAX_LINE then BadFraming else
      var fs := Fields(Trim(line));
      if fs == [] then Invalid else if fs[0] != PUB then NotPub else ParsePub(fs, rest, maxPayload)
  }

  // ---- Round trip ----

  predicate KeyPrintable(key: text) { key == [] || Token(key) }

  /** What the client may be asked to print: fields without white space, and sizes the server accepts. */
  predicate Printable(c: Pub, maxPayload: nat) {
    && Token(c.topic) && Without(c.topic, HASH) && (if c.explicit then c.partition < INT_LIMIT else c.partition == 0)
    && KeyPrintable(c.key) && KeyPrintable(c.routingKey)
    && |c.payload| <= maxPayload && |c.payload| < 0x1_0000_0000_0000_0000
    && c.waitReplicas < INT_LIMIT
    && |Join(Header(c))| + 1 <= MAX_LINE
  }

  /** What the server sees: "-" means no key, and without a positive replica count there is no WAIT. */
  function Arrives(c: Pub): Pub {
    var wait := c.waitReplicas > 0;
    c.(key := KeyOf(c.key), routingKey := KeyOf(c.routingKey),
       waitReplicas := if wait then c.waitReplicas else 0, waitTimeoutMs := if wait then c.waitTimeoutMs else 0)
  }

  lemma KeyBack(key: text)
    ensures KeyOf(KeyToken(key)) == KeyOf(key)
  {
  }

  lemma TargetBack(c: Pub)
    requires Token(c.topic) && Without(c.topic, HASH)
             && (if c.explicit then c.partition < INT_LIMIT else c.partition == 0)
    ensures ParseTarget(TopicToken(c)) == Some(Target(c.topic, false, c.explicit, c.partition))
  {
    hide Digits, Atoi;
    if c.explicit {
      var tok, d := TopicToken(c), Digits(c.partition);
      assert forall i :: 0 <= i < |d| ==> Digit(d[i]);
      IndexOfAt(tok, HASH, |c.topic|);
      assert tok[..|c.topic|] == c.topic && tok[|c.topic| + 1..] == d;
      AtoiDigits(c.partition);
      assert d[0] != STAR[0];
    } else {
      var i := IndexOf(c.topic, HASH);
    }
  }

  lemma OptionsBack(c: Pub)
    requires c.waitReplicas < INT_LIMIT
    ensures ParseOptions(DelayTokens(c.delayMs) + WaitTokens(c.waitReplicas, c.waitTimeoutMs), Options(0, 0, 0))
         == Some(Options(c.delayMs, Arrives(c).waitReplicas, Arrives(c).waitTimeoutMs))
  {
    hide Digits, Atoi, ParseUint;
    var w := WaitTokens(c.waitReplicas, c.waitTimeoutMs);
    WaitBack(c, Options(c.delayMs, 0, 0));
    if c.delayMs > 0 {
      var fs := DelayTokens(c.delayMs) + w;
      assert fs[0] == DELAY && fs[1] == Digits(c.delayMs) && fs[2..] == w;
      ParseUintDigits(c.delayMs);
    } else {
      assert [] + w == w;
    }
  }

  lemma WaitBack(c: Pub, o: Options)
    requires c.waitReplicas < INT_LIMIT && o == Options(c.delayMs, 0, 0)
    ensures ParseOptions(WaitTokens(c.waitReplicas, c.waitTimeoutMs), o)
         == Some(Options(c.delayMs, Arrives(c).waitReplicas, Arrives(c).waitTimeoutMs))
  {
    hide Digits, Atoi, ParseUint;
    if c.waitReplicas > 0 {
      var w := WaitTokens(c.waitReplicas, c.waitTimeoutMs);
      AtoiDigits(c.waitReplicas);
      ParseUintDigits(c.waitTimeoutMs);
      assert w[3..] == [];
      assert DELAY != WAIT;
    }
  }

  lemma {:induction false} TokensAppend(a: seq<text>, b: seq<text>)
    requires (forall i :: 0 <= i < |a| ==> Token(a[i])) && (forall i :: 0 <= i < |b| ==> Token(b[i]))
    ensures forall i :: 0 <= i < |a + b| ==> Token((a + b)[i])
  {
    hide Token;
  }

  lemma TopicIsToken(c: Pub)
    requires Token(c.topic)
    ensures Token(TopicToken(c))
  {
    hide Digits, SpaceLen;
    if c.explicit {
      var d := Digits(c.partition);
      assert forall i :: 0 <= i < |d| ==> Digit(d[i]);
      TokenThen(c.topic, [HASH] + d);
      assert TopicToken(c) == c.topic + ([HASH] + d);
    }
  }

  /** A token followed by visible ASCII is a token. */
  lemma TokenThen(t: text, a: text)
    requires Token(t) && a != [] && forall i :: 0 <= i < |a| ==> 32 < a[i] < 0x80
    ensures Token(t + a)
  {
    hide SpaceLen;
    AsciiToken(a);
    forall i | 0 <= i < |t + a| ensures SpaceLen((t + a)[i..]) == 0 {
      if i < |t| {
        assert (t + a)[i..] == t[i..] + a;
        SpaceLenStops(t[i..], a);
      } else {
        assert (t + a)[i..] == a[i - |t|..];
      }
    }
  }

  lemma HeaderTokens(c: Pub)
    requires Token(c.topic) && KeyPrintable(c.key) && KeyPrintable(c.routingKey)
    ensures forall i :: 0 <= i < |Header(c)| ==> Token(Header(c)[i])
  {
    hide Token, Digits, TopicToken;
    AsciiToken(PUB);
    AsciiToken(DASH);
    AsciiToken(DELAY);
    AsciiToken(WAIT);
    TopicIsToken(c);
    DigitsToken(|c.payload|);
    DigitsToken(c.delayMs);
    DigitsToken(c.waitTimeoutMs);
    if c.waitReplicas > 0 {
      DigitsToken(c.waitReplicas);
    }
    var a := [PUB, TopicToken(c), KeyToken(c.key), KeyToken(c.routingKey), Digits(|c.payload|)];
    TokensAppend(a, DelayTokens(c.delayMs));
    TokensAppend(a + DelayTokens(c.delayMs), WaitTokens(c.waitReplicas, c.waitTimeoutMs));
  }

  lemma ParsePubBack(c: Pub, rest: text, maxPayload: nat)
    requires Printable(c, maxPayload)
    ensures ParsePub(Header(c), c.payload + [NL] + rest, maxPayload) == Command(Arrives(c), rest)
  {
    hide Digits, Token, Atoi, ParseUint, ParseOptions, ParseTarget, Join, TopicToken, KeyToken, KeyOf;
    var fs, s, n := Header(c), c.payload + [NL] + rest, |c.payload|;
    assert fs[5..] == DelayTokens(c.delayMs) + WaitTokens(c.waitReplicas, c.waitTimeoutMs);
    OptionsBack(c);
    TargetBack(c);
    ParseUintDigits(n);
    KeyBack(c.key);
    KeyBack(c.routingKey);
    assert s[..n] == c.payload && s[n + 1..] == rest && s[n] == NL;
  }

  /** The server reads a printed PUB back, payload byte for byte, and leaves what follows. */
  lemma ReadPrintedPub(c: Pub, rest: text, maxPayload: nat)
    requires Printable(c, maxPayload)
    ensures ReadPub(PrintPub(c) + rest, maxPayload) == Command(Arrives(c), rest)
  {
    hide Token, Fields, Join, ReadLine, Trim, ParsePub, Header;
    var line, body := Join(Header(c)), c.payload + [NL] + rest;
    HeaderTokens(c);
    HeaderStarts(c);
    JoinClean(Header(c));
    FieldsOfJoin(Header(c));
    assert PrintPub(c) + rest == line + [NL] + body;
    ReadHeader(line, body);
    ParsePubBack(c, rest, maxPayload);
  }

  lemma HeaderStarts(c: Pub)
    ensures |Header(c)| >= 5 && Header(c)[0] == PUB
  {
  }

  /**
   * The server reads a PUB as sent exactly when no key is a literal "-", the replica count is not negative, and
   * no timeout goes without a replica count.
   */
  lemma PubArrivesIff(c: Pub, rest: text, maxPayload: nat)
    requires Printable(c, maxPayload)
    ensures ReadPub(PrintPub(c) + rest, maxPayload) == Command(c, rest) <==>
      c.key != DASH && c.routingKey != DASH && c.waitReplicas >= 0 && (c.waitReplicas == 0 ==> c.waitTimeoutMs == 0)
  {
    hide ReadPub, PrintPub, Printable;
    ReadPrintedPub(c, rest, maxPayload);
  }

  function PrintPubs(cs: seq<Pub>): text {
    if cs == [] then [] else PrintPub(cs[0]) + PrintPubs(cs[1..])
  }

  function ReadPubs(s: text, maxPayload: nat, n: nat): Option<(seq<Pub>, text)>
    decreases n
  {
    if n == 0 then Some(([], s)) else
    match ReadPub(s, maxPayload)
    case Command(c, rest) =>
      (match ReadPubs(rest, maxPayload, n - 1)
       case None => None
       case Some((cs, rest')) => Some(([c] + cs, rest')))
    case _ => None
  }

  function ArriveAll(cs: seq<Pub>): (r: seq<Pub>)
    ensures |r| == |cs| && forall i :: 0 <= i < |cs| ==> r[i] == Arrives(cs[i])
  {
    seq(|cs|, i requires 0 <= i < |cs| => Arrives(cs[i]))
  }

  /** A pipeline of printed PUBs is read in order, whatever bytes their payloads hold. */
  lemma {:induction false} ReadAllPubs(cs: seq<Pub>, rest: text, maxPayload: nat)
    requires forall i :: 0 <= i < |cs| ==> Printable(cs[i], maxPayload)
    ensures ReadPubs(PrintPubs(cs) + rest, maxPayload, |cs|) == Some((ArriveAll(cs), rest))
  {
    hide PrintPub, ReadPub, Printable, Arrives;
    if cs == [] {
      assert PrintPubs(cs) + rest == rest;
    } else {
      var more := PrintPubs(cs[1..]) + rest;
      assert PrintPubs(cs) + rest == PrintPub(cs[0]) + more;
      ReadPrintedPub(cs[0], more, maxPayload);
      ReadAllPubs(cs[1..], rest, maxPayload);
      assert [Arrives(cs[0])] + ArriveAll(cs[1..]) == ArriveAll(cs);
    }
  }

  // ---- The code ----

  /** pubFull: the header by string updates, then the payload and its newline. */
  method WritePub(w: text, c: Pub) returns (w': text)
    ensures w' == w + PrintPub(c)
  {
    hide Digits, Join, TopicToken, KeyToken;
    var key := if c.key == [] then DASH else c.key;
    var rkey := if c.routingKey == [] then DASH else c.routingKey;
    ghost var base := [PUB, TopicToken(c), key, rkey, Digits(|c.payload|)];
    var header := Join([PUB, TopicToken(c), key, rkey, Digits(|c.payload|)]);
    if c.delayMs > 0 {
      header := header + [SP] + DELAY + [SP] + Digits(c.delayMs);
      JoinMore(base, [DELAY, Digits(c.delayMs)]);
      JoinTwo(DELAY, Digits(c.delayMs));
    }
    ghost var sofar := base + DelayTokens(c.delayMs);
    assert base + [] == base;
    assert header == Join(sofar);
    if c.waitReplicas > 0 {
      header := header + [SP] + WAIT + [SP] + Digits(c.waitReplicas) + [SP] + Digits(c.waitTimeoutMs);
      JoinMore(sofar, [WAIT, Digits(c.waitReplicas), Digits(c.waitTimeoutMs)]);
      JoinThree(WAIT, Digits(c.waitReplicas), Digits(c.waitTimeoutMs));
    }
    assert sofar + [] == sofar;
    assert KeyToken(c.key) == key && KeyToken(c.routingKey) == rkey by { KeyTokens(c); }
    assert Header(c) == sofar + WaitTokens(c.waitReplicas, c.waitTimeoutMs);
    header := header + [NL];
    w' := w + header;
    w' := w' + c.payload;
    w' := w' + [NL];
  }

  lemma KeyTokens(c: Pub)
    ensures KeyToken(c.key) == (if c.key == [] then DASH else c.key)
    ensures KeyToken(c.routingKey) == (if c.routingKey == [] then DASH else c.routingKey)
  {
  }

  lemma JoinTwo(a: text, b: text)
    ensures Join([a, b]) == a + [SP] + b
  {
    assert [a, b][1..] == [b];
  }

  lemma JoinThree(a: text, b: text, c: text)
    ensures Join([a, b, c]) == a + [SP] + b + [SP] + c
  {
    assert [a, b, c][1..] == [b, c];
    JoinTwo(b, c);
  }

  lemma {:induction false} JoinMore(a: seq<text>, b: seq<text>)
    requires a != [] && b != []
    ensures Join(a + b) == Join(a) + [SP] + Join(b)
  {
    if |a| == 1 {
      assert (a + b)[1..] == b;
    } else {
      JoinMore(a[1..], b);
      assert (a + b)[1..] == a[1..] + b;
      assert a[0] + [SP] + (Join(a[1..]) + [SP] + Join(b)) == a[0] + [SP] + Join(a[1..]) + [SP] + Join(b);
    }
  }

  /** parsePub's loop over the trailing tokens. */
  method ScanOptions(fields: seq<text>) returns (o: Options, ok: bool)
    requires |fields| >= 5
    ensures ParseOptions(fields[5..], Options(0, 0, 0)) == if ok then Some(o) else None
  {
    hide ParseUint, Atoi;
    o, ok := Options(0, 0, 0), true;
    var i := 5;
    while i < |fields|
      invariant 5 <= i <= |fields|
      invariant ParseOptions(fields[5..], Options(0, 0, 0)) == ParseOptions(fields[i..], o)
    {
      if fields[i] == DELAY {
        if i + 1 >= |fields| {
          return o, false;
        }
        var d := ParseUint(fields[i + 1]);
        if d == None {
          return o, false;
        }
        assert fields[i..][2..] == fields[i + 2..];
        o := o.(delayMs := d.value);
        i := i + 2;
      } else if fields[i] == WAIT {
        if i + 2 >= |fields| {
          return o, false;
        }
        var n := Atoi(fields[i + 1]);
        if n == None || n.value < 0 {
          return o, false;
        }
        var t := ParseUint(fields[i + 2]);
        if t == None {
          return o, false;
        }
        assert fields[i..][3..] == fields[i + 3..];
        o := o.(waitReplicas := n.value, waitTimeoutMs := t.value);
        i := i + 3;
      } else {
        return o, false;
      }
    }
  }
}
