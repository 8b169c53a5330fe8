/**
 * The frames between client and server: what internal/proto/response.go and pkg/client/pub.go print and
 * what pkg/client/frame.go and internal/proto/parser.go read.
 */
module Wire {
  import opened Bytes
  import opened Text

  const INT_LIMIT := 0x8000_0000_0000_0000
  const MAX_LINE := 0x1_0000

  // ---- Server to client ----

  datatype Frame =
    | OK(id: u64)
    | Dup(id: u64)
    | Err(code: text, reason: text)
    | Msg(topic: text, partition: nat, id: u64, payload: text)
    | Info(lines: seq<text>)

  const OK_: text := [79, 75, 32]
  const DUP_: text := [68, 85, 80, 32]
  const ERR_: text := [69, 82, 82, 32]
  const MSG: text := [77, 83, 71]
  const MSG_: text := [77, 83, 71, 32]
  const INFO_: text := [73, 78, 70, 79, 32]

  function Lines(ls: seq<text>): text {
    if ls == [] then [] else ls[0] + [NL] + Lines(ls[1..])
  }

  function Print(f: Frame): (s: text) {
    match f
    case OK(id) => OK_ + Digits(id) + [NL]
    case Dup(id) => DUP_ + Digits(id) + [NL]
    case Err(code, reason) => ERR_ + code + [SP] + reason + [NL]
    case Msg(topic, p, id, payload) =>
      Join([MSG, topic, Digits(p), Digits(id), Digits(|payload|)]) + [NL] + payload + [NL]
    case Info(lines) => INFO_ + Digits(|lines|) + [NL] + Lines(lines)
  }

  function PrintAll(fs: seq<Frame>): text {
    if fs == [] then [] else Print(fs[0]) + PrintAll(fs[1..])
  }

  /** n more lines, each trimmed. */
  function ReadLines(s: text, n: nat): Option<(seq<text>, text)>
    decreases n
  {
    if n == 0 then Some(([], s)) else
    match ReadLine(s)
    case None => None
    case Some((line, rest)) =>
      match ReadLines(rest, n - 1)
      case None => None
      case Some((ls, rest')) => Some(([Trim(line)] + ls, rest'))
  }

  /** n payload bytes and the newline behind them. */
  function ReadBody(s: text, n: nat): Option<(text, text)> {
    if |s| < n + 1 || s[n] != NL then None else Some((s[..n], s[n + 1..]))
  }

  predicate HasPrefix(s: text, p: text) { |p| <= |s| && s[..|p|] == p }

  function ErrFrame(r: text, rest: text): Option<(Frame, text)> {
    var i := IndexOf(r, SP);
    if i == |r| then None else Some((Err(r[..i], r[i + 1..]), rest))
  }

  function MsgFrame(fs: seq<text>, rest: text): Option<(Frame, text)> {
    if |fs| != 5 then None else
    var p, id, n := Atoi(fs[2]), ParseUint(fs[3]), Atoi(fs[4]);
    if p == None || id == None || n == None || p.value < 0 || n.value < 0 then None else
    match ReadBody(rest, n.value)
    case None => None
    case Some((payload, rest')) => Some((Msg(fs[1], p.value, id.value, payload), rest'))
  }

  function InfoFrame(count: text, rest: text): Option<(Frame, text)> {
    var n := Atoi(count);
    if n == None || n.value < 0 then None else
    match ReadLines(rest, n.value)
    case None => None
    case Some((ls, rest')) => Some((Info(ls), rest'))
  }

  /** The frame a trimmed first line announces, read on from rest. */
  function Announced(line: text, rest: text): Option<(Frame, text)> {
    if HasPrefix(line, OK_) then match ParseUint(line[|OK_|..]) case None => None case Some(id) => Some((OK(id), rest))
    else if HasPrefix(line, DUP_) then
      match ParseUint(line[|DUP_|..])
      case None => None case Some(id) => Some((Dup(id), rest))
    else if HasPrefix(line, ERR_) then ErrFrame(line[|ERR_|..], rest)
    else if HasPrefix(line, MSG_) then MsgFrame(Fields(line), rest)
    else if HasPrefix(line, INFO_) then InfoFrame(line[|INFO_|..], rest)
    else None
  }

  /** One frame off the front of the stream; None for end of input and for every malformed frame. */
  function ReadFrame(s: text): Option<(Frame, text)> {
    match ReadLine(s)
    case None => None
    case Some((line, rest)) => Announced(Trim(line), rest)
  }

  function ReadFrames(s: text, n: nat): Option<(seq<Frame>, text)>
    decreases n
  {
    if n == 0 then Some(([], s)) else
    match ReadFrame(s)
    case None => None
    case Some((f, rest)) =>
      match ReadFrames(rest, n - 1)
      case None => None
      case Some((fs, rest')) => Some(([f] + fs, rest'))
  }

  /** What the writers' callers pass: one-line reasons and lines, a code without spaces, a topic that is one field. */
  predicate Printable(f: Frame) {
    match f
    case OK(_) => true
    case Dup(_) => true
    case Err(code, reason) => Without(code, NL) && Without(code, SP) && Without(reason, NL)
    case Msg(topic, p, _, payload) => Token(topic) && p < INT_LIMIT && |payload| < INT_LIMIT
    case Info(lines) => |lines| < INT_LIMIT && forall i :: 0 <= i < |lines| ==> Without(lines[i], NL)
  }

  /** What arrives: carriage returns at the end of a reason or an INFO line are lost. */
  function Arrives(f: Frame): Frame {
    match f
    case Err(code, reason) => Err(code, Trim(reason))
    case Info(lines) => Info(TrimAll(lines))
    case _ => f
  }

  function ArriveAll(fs: seq<Frame>): (r: seq<Frame>)
    ensures |r| == |fs| && forall i :: 0 <= i < |fs| ==> r[i] == Arrives(fs[i])
  {
    seq(|fs|, i requires 0 <= i < |fs| => Arrives(fs[i]))
  }

  function TrimAll(ls: seq<text>): (r: seq<text>)
    ensures |r| == |ls| && forall i :: 0 <= i < |ls| ==> r[i] == Trim(ls[i])
  {
    seq(|ls|, i requires 0 <= i < |ls| => Trim(ls[i]))
  }

  // ---- One frame at a time ----

  /** A printed header line, whatever follows it. */
  lemma ReadHeader(line: text, rest: text)
    requires Without(line, NL) && line != [] && line[|line| - 1] != CR
    ensures ReadLine(line + [NL] + rest) == Some((line + [NL], rest)) && Trim(line + [NL]) == line
  {
    ReadPrintedLine(line, rest);
    TrimLine(line);
  }

  lemma DigitsClean(n: nat)
    ensures Without(Digits(n), NL) && Digits(n)[|Digits(n)| - 1] != CR
  {
    hide Digits;
    assert forall i :: 0 <= i < |Digits(n)| ==> Digit(Digits(n)[i]);
  }

  lemma ReadCounted(p: text, n: nat, rest: text)
    requires p == OK_ || p == DUP_ || p == INFO_
    ensures ReadFrame(p + Digits(n) + [NL] + rest) == Announced(p + Digits(n), rest)
    ensures HasPrefix(p + Digits(n), p) && (p + Digits(n))[|p|..] == Digits(n)
  {
    hide Digits, Announced;
    DigitsClean(n);
    ReadHeader(p + Digits(n), rest);
  }

  lemma ReadOK(id: u64, rest: text)
    ensures ReadFrame(Print(OK(id)) + rest) == Some((OK(id), rest))
  {
    hide Digits, ParseUint, ReadFrame;
    ReadCounted(OK_, id, rest);
    ParseUintDigits(id);
  }

  lemma ReadDup(id: u64, rest: text)
    ensures ReadFrame(Print(Dup(id)) + rest) == Some((Dup(id), rest))
  {
    hide Digits, ParseUint, ReadFrame;
    ReadCounted(DUP_, id, rest);
    Dispatch(DUP_ + Digits(id), rest);
    ParseUintDigits(id);
  }

  /** The five first bytes differ, so at most one case applies. */
  lemma Dispatch(line: text, rest: text)
    requires line != []
    ensures HasPrefix(line, DUP_) ==> !HasPrefix(line, OK_)
    ensures HasPrefix(line, ERR_) ==> Announced(line, rest) == ErrFrame(line[|ERR_|..], rest)
    ensures HasPrefix(line, MSG_) ==> Announced(line, rest) == MsgFrame(Fields(line), rest)
    ensures HasPrefix(line, INFO_) ==> Announced(line, rest) == InfoFrame(line[|INFO_|..], rest)
  {
    hide ErrFrame, MsgFrame, InfoFrame, Fields, ParseUint;
    FirstByte(line, OK_);
    FirstByte(line, DUP_);
    FirstByte(line, ERR_);
    FirstByte(line, MSG_);
    FirstByte(line, INFO_);
  }

  lemma FirstByte(line: text, p: text)
    requires p != []
    ensures HasPrefix(line, p) ==> line != [] && line[0] == p[0]
  {
  }

  lemma ReadErr(code: text, reason: text, rest: text)
    requires Printable(Err(code, reason))
    ensures ReadFrame(Print(Err(code, reason)) + rest) == Some((Err(code, Trim(reason)), rest))
  {
    hide Trim, Announced, ErrFrame, ReadLine, Without;
    var h := ERR_ + code + [SP];
    ErrLine(code, reason);
    ReadPrintedLine(h + reason, rest);
    TrimLine(h + reason);
    TrimSuffix(h, reason);
    ErrLineParts(code, Trim(reason));
    Dispatch(h + Trim(reason), rest);
    assert Without(code, SP);
    SplitErr(code, Trim(reason), rest);
  }

  lemma ErrLine(code: text, reason: text)
    requires Without(code, NL) && Without(reason, NL)
    ensures Without(ERR_ + code + [SP] + reason, NL)
  {
  }

  lemma ErrLineParts(code: text, reason: text)
    ensures var line := ERR_ + code + [SP] + reason; HasPrefix(line, ERR_) && line[|ERR_|..] == code + [SP] + reason
  {
  }

  lemma SplitErr(code: text, reason: text, rest: text)
    requires Without(code, SP)
    ensures ErrFrame(code + [SP] + reason, rest) == Some((Err(code, reason), rest))
  {
    var r := code + [SP] + reason;
    IndexOfAt(r, SP, |code|);
    assert r[..|code|] == code && r[|code| + 1..] == reason;
  }

  lemma {:induction false} ReadPrintedLines(ls: seq<text>, rest: text)
    requires forall i :: 0 <= i < |ls| ==> Without(ls[i], NL)
    ensures ReadLines(Lines(ls) + rest, |ls|) == Some((TrimAll(ls), rest))
  {
    hide Trim, ReadLine;
    if ls == [] {
      assert Lines(ls) + rest == rest;
    } else {
      var more := Lines(ls[1..]) + rest;
      assert Lines(ls) + rest == ls[0] + [NL] + more;
      ReadPrintedLine(ls[0], more);
      TrimLine(ls[0]);
      ReadPrintedLines(ls[1..], rest);
      assert [Trim(ls[0])] + TrimAll(ls[1..]) == TrimAll(ls);
    }
  }

  lemma ReadInfo(lines: seq<text>, rest: text)
    requires Printable(Info(lines))
    ensures ReadFrame(Print(Info(lines)) + rest) == Some((Info(TrimAll(lines)), rest))
  {
    hide Digits, Atoi, ReadFrame, Announced, ReadLines, Trim, Lines;
    var more := Lines(lines) + rest;
    assert Print(Info(lines)) + rest == INFO_ + Digits(|lines|) + [NL] + more;
    ReadCounted(INFO_, |lines|, more);
    Dispatch(INFO_ + Digits(|lines|), more);
    AtoiDigits(|lines|);
    ReadPrintedLines(lines, rest);
  }

  lemma {:induction false} JoinClean(ts: seq<text>)
    requires ts != [] && forall i :: 0 <= i < |ts| ==> Token(ts[i])
    ensures Join(ts) != [] && Without(Join(ts), NL) && Join(ts)[|Join(ts)| - 1] != CR
    ensures Join(ts)[..|ts[0]|] == ts[0] && (|ts| > 1 ==> HasPrefix(Join(ts), ts[0] + [SP]))
  {
    var t := ts[0];
    assert Token(t);
    TokenClean(t);
    if |ts| > 1 {
      JoinClean(ts[1..]);
      assert Join(ts) == t + [SP] + Join(ts[1..]);
    }
  }

  lemma TokenClean(t: text)
    requires Token(t)
    ensures Without(t, NL) && Without(t, CR) && Without(t, SP)
  {
    forall i | 0 <= i < |t| ensures t[i] != NL && t[i] != CR && t[i] != SP {
      assert SpaceLen(t[i..]) == 0;
      assert t[i..][0] == t[i];
    }
  }

  lemma ReadBodyBack(payload: text, rest: text)
    ensures ReadBody(payload + [NL] + rest, |payload|) == Some((payload, rest))
  {
    var s := payload + [NL] + rest;
    assert s[..|payload|] == payload && s[|payload| + 1..] == rest;
  }

  lemma ReadMsg(topic: text, p: nat, id: u64, payload: text, rest: text)
    requires Printable(Msg(topic, p, id, payload))
    ensures ReadFrame(Print(Msg(topic, p, id, payload)) + rest) == Some((Msg(topic, p, id, payload), rest))
  {
    hide Digits, Atoi, ParseUint, ReadLine, Announced, ReadBody, Token, Trim, Join, Fields;
    var ts := [MSG, topic, Digits(p), Digits(id), Digits(|payload|)];
    AsciiToken(MSG);
    DigitsToken(p);
    DigitsToken(id);
    DigitsToken(|payload|);
    JoinClean(ts);
    FieldsOfJoin(ts);
    var body := payload + [NL] + rest;
    assert Print(Msg(topic, p, id, payload)) + rest == Join(ts) + [NL] + body;
    ReadHeader(Join(ts), body);
    assert MSG + [SP] == MSG_;
    Dispatch(Join(ts), body);
    AtoiDigits(p);
    AtoiDigits(|payload|);
    ParseUintDigits(id);
    ReadBodyBack(payload, rest);
  }

  /** Reading a printed frame gives back what arrives of it, and the rest of the stream untouched. */
  lemma ReadPrinted(f: Frame, rest: text)
    requires Printable(f)
    ensures ReadFrame(Print(f) + rest) == Some((Arrives(f), rest))
  {
    hide Print, ReadFrame, Trim;
    match f
    case OK(id) => ReadOK(id, rest);
    case Dup(id) => ReadDup(id, rest);
    case Err(code, reason) => ReadErr(code, reason, rest);
    case Msg(topic, p, id, payload) => ReadMsg(topic, p, id, payload, rest);
    case Info(lines) => ReadInfo(lines, rest);
  }

  predicate NoTrailingCR(s: text) { s == [] || s[|s| - 1] != CR }

  /** The client reads a frame as it was printed exactly when no reason and no INFO line ends in a carriage return. */
  lemma ArrivesIff(f: Frame, rest: text)
    requires Printable(f)
    ensures ReadFrame(Print(f) + rest) == Some((f, rest)) <==>
      ((f.Err? ==> NoTrailingCR(f.reason)) && (f.Info? ==> forall i :: 0 <= i < |f.lines| ==> NoTrailingCR(f.lines[i])))
  {
    hide Trim, Print, ReadFrame;
    ReadPrinted(f, rest);
    if f.Err? {
      TrimClean(f.reason);
    } else if f.Info? {
      forall i | 0 <= i < |f.lines| ensures Trim(f.lines[i]) == f.lines[i] <==> NoTrailingCR(f.lines[i]) {
        TrimClean(f.lines[i]);
      }
      if TrimAll(f.lines) == f.lines {
        assert forall i :: 0 <= i < |f.lines| ==> Trim(f.lines[i]) == f.lines[i];
      }
    }
  }

  /** A whole concatenation of printed frames comes back in order and leaves the remainder untouched. */
  lemma {:induction false} ReadAllPrinted(fs: seq<Frame>, rest: text)
    requires forall i :: 0 <= i < |fs| ==> Printable(fs[i])
    ensures ReadFrames(PrintAll(fs) + rest, |fs|) == Some((ArriveAll(fs), rest))
  {
    hide Print, ReadFrame, Printable, Arrives;
    if fs == [] {
      assert PrintAll(fs) + rest == rest;
    } else {
      var more := PrintAll(fs[1..]) + rest;
      assert PrintAll(fs) + rest == Print(fs[0]) + more;
      ReadPrinted(fs[0], more);
      ReadAllPrinted(fs[1..], rest);
      assert [Arrives(fs[0])] + ArriveAll(fs[1..]) == ArriveAll(fs);
    }
  }

  // ---- The code: the INFO loops ----

  method WriteInfo(w: text, lines: seq<text>) returns (w': text)
    ensures w' == w + Print(Info(lines))
  {
    hide Digits, Lines;
    w' := w + INFO_;
    w' := w' + Digits(|lines|);
    w' := w' + [NL];
    ghost var head := w';
    assert Lines(lines[..0]) == [] by { NoLines(); }
    for i := 0 to |lines|
      invariant w' == head + Lines(lines[..i])
    {
      LinesSnoc(lines[..i], lines[i]);
      assert lines[..i + 1] == lines[..i] + [lines[i]];
      w' := w' + lines[i];
      w' := w' + [NL];
      assert w' == head + (Lines(lines[..i]) + lines[i] + [NL]);
    }
    assert lines[..|lines|] == lines;
    assert w' == w + (INFO_ + Digits(|lines|) + [NL] + Lines(lines));
  }

  lemma NoLines()
    ensures Lines([]) == []
  {
  }

  lemma {:induction false} LinesSnoc(ls: seq<text>, l: text)
    ensures Lines(ls + [l]) == Lines(ls) + l + [NL]
  {
    if ls == [] {
      assert [l][1..] == [] && ls + [l] == [l];
      assert Lines([l]) == l + [NL] + [];
    } else {
      LinesSnoc(ls[1..], l);
      assert (ls + [l])[1..] == ls[1..] + [l];
      assert ls[0] + [NL] + (Lines(ls[1..]) + l + [NL]) == ls[0] + [NL] + Lines(ls[1..]) + l + [NL];
    }
  }

  /** readFrame's INFO case: exactly n lines off the reader. */
  method ReadInfoLines(r: text, n: nat) returns (lines: seq<text>, rest: text, ok: bool)
    ensures ReadLines(r, n) == if ok then Some((lines, rest)) else None
  {
    hide ReadLine, Trim;
    lines, rest, ok := [], r, true;
    var i := 0;
    assert Prepend([], ReadLines(r, n)) == ReadLines(r, n) by { PrependNothing(ReadLines(r, n)); }
    while i < n
      invariant 0 <= i <= n
      invariant ReadLines(r, n) == Prepend(lines, ReadLines(rest, n - i))
    {
      var l := ReadLine(rest);
      if l == None {
        return lines, rest, false;
      }
      PrependOne(lines, Trim(l.value.0), ReadLines(l.value.1, n - i - 1));
      lines := lines + [Trim(l.value.0)];
      rest := l.value.1;
      i := i + 1;
    }
    assert lines + [] == lines;
  }

  /** readFrame: one frame off the reader. */
  method Receive(r: text) returns (f: Option<Frame>, rest: text)
    ensures match ReadFrame(r)
            case None => f == None
            case Some((g, after)) => f == Some(g) && rest == after
  {
    hide ReadLine, Trim, Fields, ReadLines, ReadBody, ParseUint, Atoi;
    var l := ReadLine(r);
    if l == None {
      return None, r;
    }
    var line := Trim(l.value.0);
    rest := l.value.1;
    if HasPrefix(line, OK_) {
      var id := ParseUint(line[|OK_|..]);
      return if id == None then None else Some(OK(id.value)), rest;
    }
    if HasPrefix(line, DUP_) {
      var id := ParseUint(line[|DUP_|..]);
      return if id == None then None else Some(Dup(id.value)), rest;
    }
    if HasPrefix(line, ERR_) {
      var reply := line[|ERR_|..];
      var i := IndexOf(reply, SP);
      return if i == |reply| then None else Some(Err(reply[..i], reply[i + 1..])), rest;
    }
    if HasPrefix(line, MSG_) {
      f, rest := ReceiveMsg(Fields(line), rest);
      return;
    }
    if HasPrefix(line, INFO_) {
      var n := Atoi(line[|INFO_|..]);
      if n == None || n.value < 0 {
        return None, rest;
      }
      var lines, after, ok := ReadInfoLines(rest, n.value);
      return if ok then Some(Info(lines)) else None, after;
    }
    return None, rest;
  }

  method ReceiveMsg(fields: seq<text>, r: text) returns (f: Option<Frame>, rest: text)
    ensures match MsgFrame(fields, r)
            case None => f == None
            case Some((g, after)) => f == Some(g) && rest == after
  {
    hide ParseUint, Atoi;
    if |fields| != 5 {
      return None, r;
    }
    var partition := Atoi(fields[2]);
    if partition == None || partition.value < 0 {
      return None, r;
    }
    var id := ParseUint(fields[3]);
    if id == None {
      return None, r;
    }
    var plen := Atoi(fields[4]);
    if plen == None || plen.value < 0 {
      return None, r;
    }
    if |r| < plen.value || |r| == plen.value || r[plen.value] != NL {
      return None, r;
    }
    return Some(Msg(fields[1], partition.value, id.value, r[..plen.value])), r[plen.value + 1..];
  }
}
