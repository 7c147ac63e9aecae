/** Messages on the wire to and from a language server: headers, a blank line, and a
    body of the declared length (Language Server Protocol Specification 3.17,
    section "Base Protocol"). */
module Framing {
  import opened Wrappers

  type Byte = b: int | 0 <= b < 256

  const MAX_FRAME_SIZE: nat := 64 * 1024 * 1024
  const MAX_USIZE: nat := 0xffff_ffff_ffff_ffff

  const CR: Byte := 13
  const LF: Byte := 10
  const SPACE: Byte := 32
  const PLUS: Byte := 43
  const ZERO: Byte := 48

  const CRLF: seq<Byte> := [CR, LF]

  /** The bytes of `Content-Length:`. */
  const CONTENT_LENGTH: seq<Byte> := [67, 111, 110, 116, 101, 110, 116, 45, 76, 101, 110, 103, 116, 104, 58]

  datatype FrameError = MissingContentLength | FrameTooLarge(length: nat) | UnexpectedEof

  // ----- decimal numbers -----

  function Print(n: nat): seq<Byte> {
    if n < 10 then [ZERO + n] else Print(n / 10) + [ZERO + n % 10]
  }

  predicate IsDigit(b: Byte) {
    ZERO <= b <= ZERO + 9
  }

  /** Digits only, and no larger than a `usize`. */
  function Digits(s: seq<Byte>): Option<nat>
    requires s != []
  {
    var last := s[|s| - 1];
    if !IsDigit(last) then None
    else
      var high := if |s| == 1 then Some(0) else Digits(s[..|s| - 1]);
      if high.None? || high.value * 10 + (last - ZERO) > MAX_USIZE then None
      else Some(high.value * 10 + (last - ZERO))
  }

  /** `str::parse::<usize>`: an optional plus sign, then digits. */
  function ParseUsize(s: seq<Byte>): Option<nat> {
    if s == [] then None
    else if s[0] == PLUS then (if |s| == 1 then None else Digits(s[1..]))
    else Digits(s)
  }

  lemma {:induction false} PrintShape(n: nat)
    ensures Print(n) != []
    ensures forall i :: 0 <= i < |Print(n)| ==> IsDigit(Print(n)[i])
  {
    if n >= 10 {
      PrintShape(n / 10);
    }
  }

  lemma {:induction false} DigitsOfPrint(n: nat)
    ensures Print(n) != [] && Digits(Print(n)) == if n <= MAX_USIZE then Some(n) else None
  {
    if n >= 10 {
      DigitsOfPrint(n / 10);
      var s := Print(n);
      assert s[..|s| - 1] == Print(n / 10);
    }
  }

  /** Printed numbers are parsed back, up to the largest `usize` of 64 bits and no further. */
  lemma DecimalRoundTrip(n: nat)
    ensures ParseUsize(Print(n)) == if n <= 18446744073709551615 then Some(n) else None
  {
    PrintShape(n);
    DigitsOfPrint(n);
    assert IsDigit(Print(n)[0]);
  }

  // ----- header lines -----

  predicate IsSpace(b: Byte) {
    9 <= b <= 13 || b == SPACE
  }

  function TrimStart(s: seq<Byte>): seq<Byte> {
    if s != [] && IsSpace(s[0]) then TrimStart(s[1..]) else s
  }

  function TrimEnd(s: seq<Byte>): seq<Byte> {
    if s != [] && IsSpace(s[|s| - 1]) then TrimEnd(s[..|s| - 1]) else s
  }

  function Trim(s: seq<Byte>): seq<Byte> {
    TrimEnd(TrimStart(s))
  }

  predicate HasPrefix(s: seq<Byte>, prefix: seq<Byte>) {
    |prefix| <= |s| && s[..|prefix|] == prefix
  }

  function StripCrlf(line: seq<Byte>): seq<Byte> {
    if |line| >= 2 && line[|line| - 2..] == CRLF then line[..|line| - 2] else line
  }

  /** The length of the first line, its newline included if there is one. */
  function LineLength(s: seq<Byte>): (n: nat)
    ensures n <= |s| && (s != [] ==> n > 0)
  {
    if s == [] then 0 else if s[0] == LF then 1 else 1 + LineLength(s[1..])
  }

  /** What one header line leaves known about the length. */
  function Learn(seen: Option<nat>, header: seq<Byte>): Option<nat> {
    if !HasPrefix(header, CONTENT_LENGTH) then seen
    else
      var parsed := ParseUsize(Trim(header[|CONTENT_LENGTH|..]));
      if parsed.Some? then parsed else seen
  }

  datatype HeaderEnd = EndOfStream | Body(length: Option<nat>, rest: seq<Byte>)

  /** Headers up to the blank line. */
  function Headers(s: seq<Byte>, seen: Option<nat>): HeaderEnd
    decreases |s|
  {
    if s == [] then EndOfStream
    else
      var n := LineLength(s);
      var header := StripCrlf(s[..n]);
      if header == [] then Body(seen, s[n..]) else Headers(s[n..], Learn(seen, header))
  }

  type Read = Result<Option<seq<Byte>>, FrameError>

  /** One read: what it yields, and what it leaves. */
  function ReadOne(s: seq<Byte>): (Read, seq<Byte>) {
    match Headers(s, None)
    case EndOfStream => (Success(None), [])
    case Body(None, rest) => (Failure(MissingContentLength), rest)
    case Body(Some(n), rest) =>
      if n > MAX_FRAME_SIZE then (Failure(FrameTooLarge(n)), rest)
      else if |rest| < n then (Failure(UnexpectedEof), [])
      else (Success(Some(rest[..n])), rest[n..])
  }

  lemma {:induction false} HeadersShrink(s: seq<Byte>, seen: Option<nat>)
    ensures Headers(s, seen).Body? ==> |Headers(s, seen).rest| < |s|
    decreases |s|
  {
    if s != [] {
      var n := LineLength(s);
      HeadersShrink(s[n..], Learn(seen, StripCrlf(s[..n])));
    }
  }

  lemma ReadShrinks(s: seq<Byte>)
    ensures ReadOne(s).0.Success? && ReadOne(s).0.value.Some? ==> |ReadOne(s).1| < |s|
  {
    HeadersShrink(s, None);
  }

  datatype Inbound = Message(body: seq<Byte>) | Eof | Failed(error: FrameError)

  /** Everything the reader task forwards: the messages, then how the stream ended. */
  function Forwarded(s: seq<Byte>): seq<Inbound>
    decreases |s|
  {
    var (r, rest) := ReadOne(s);
    match r
    case Success(Some(body)) => ReadShrinks(s); [Message(body)] + Forwarded(rest)
    case Success(None) => [Eof]
    case Failure(e) => [Failed(e)]
  }

  lemma ForwardedStep(s: seq<Byte>)
    ensures match ReadOne(s).0
            case Success(Some(body)) => Forwarded(s) == [Message(body)] + Forwarded(ReadOne(s).1)
            case Success(None) => Forwarded(s) == [Eof]
            case Failure(e) => Forwarded(s) == [Failed(e)]
  {
  }

  lemma OneMoreForwarded(all: seq<Inbound>, inbound: seq<Inbound>, s: seq<Byte>)
    requires all == inbound + Forwarded(s)
    ensures match ReadOne(s).0
            case Success(Some(body)) => && all == inbound + [Message(body)] + Forwarded(ReadOne(s).1)
                                        && |ReadOne(s).1| < |s|
            case Success(None) => all == inbound + [Eof]
            case Failure(e) => all == inbound + [Failed(e)]
  {
    ReadShrinks(s);
    ForwardedStep(s);
  }

  // ----- the code -----

  class ByteStream {
    var rest: seq<Byte>

    constructor (bytes: seq<Byte>)
      ensures rest == bytes
    {
      rest := bytes;
    }

    method ReadLine() returns (line: seq<Byte>)
      modifies this
      ensures line == old(rest)[..LineLength(old(rest))] && rest == old(rest)[LineLength(old(rest))..]
    {
      var n := LineLength(rest);
      line, rest := rest[..n], rest[n..];
    }

    method ReadExact(n: nat) returns (r: Result<seq<Byte>, FrameError>)
      modifies this
      ensures if n <= |old(rest)| then r == Success(old(rest)[..n]) && rest == old(rest)[n..]
              else r == Failure(UnexpectedEof) && rest == []
    {
      if n <= |rest| {
        r, rest := Success(rest[..n]), rest[n..];
      } else {
        r, rest := Failure(UnexpectedEof), [];
      }
    }

    method Write(bytes: seq<Byte>)
      modifies this
      ensures rest == old(rest) + bytes
    {
      rest := rest + bytes;
    }
  }

  function Frame(body: seq<Byte>): seq<Byte> {
    CONTENT_LENGTH + [SPACE] + Print(|body|) + CRLF + CRLF + body
  }

  method WriteMessage(w: ByteStream, body: seq<Byte>)
    modifies w
    ensures w.rest == old(w.rest) + Frame(body)
  {
    w.Write(CONTENT_LENGTH + [SPACE] + Print(|body|) + CRLF + CRLF);
    w.Write(body);
    assert w.rest == old(w.rest) + Frame(body);
  }

  method ReadMessage(r: ByteStream) returns (m: Read)
    modifies r
    ensures (m, r.rest) == ReadOne(old(r.rest))
  {
    var contentLength: Option<nat> := None;
    ghost var all := r.rest;
    while true
      invariant Headers(all, None) == Headers(r.rest, contentLength)
      decreases |r.rest|
    {
      ghost var before := r.rest;
      var line := r.ReadLine();
      if |line| == 0 {
        return Success(None);
      }
      var header := StripCrlf(line);
      if header == [] {
        break;
      }
      if HasPrefix(header, CONTENT_LENGTH) {
        var parsed := ParseUsize(Trim(header[|CONTENT_LENGTH|..]));
        if parsed.Some? {
          contentLength := parsed;
        }
      }
    }
    if contentLength.None? {
      return Failure(MissingContentLength);
    }
    if contentLength.value > MAX_FRAME_SIZE {
      return Failure(FrameTooLarge(contentLength.value));
    }
    var body :- r.ReadExact(contentLength.value);
    return Success(Some(body));
  }

  /** The reader task: forward messages until the stream ends or breaks. */
  method ReaderLoop(r: ByteStream) returns (inbound: seq<Inbound>)
    modifies r
    ensures inbound == Forwarded(old(r.rest))
  {
    inbound := [];
    ghost var all := Forwarded(r.rest);
    assert all == [] + Forwarded(r.rest);
    while true
      invariant all == inbound + Forwarded(r.rest)
      decreases |r.rest|
    {
      OneMoreForwarded(all, inbound, r.rest);
      var m := ReadMessage(r);
      match m {
        case Success(Some(body)) => inbound := inbound + [Message(body)];
        case Success(None) => return inbound + [Eof];
        case Failure(e) => return inbound + [Failed(e)];
      }
    }
  }

  // ----- round trips -----

  /** A message as any conforming peer may send it: other headers around the length. */
  datatype Sent = Sent(before: seq<seq<Byte>>, after: seq<seq<Byte>>, body: seq<Byte>)

  predicate NoNewline(s: seq<Byte>) {
    LF !in s
  }

  predicate OtherHeader(h: seq<Byte>) {
    h != [] && NoNewline(h) && !(CONTENT_LENGTH <= h)
  }

  ghost predicate WellFormed(m: Sent) {
    && (forall i :: 0 <= i < |m.before| ==> OtherHeader(m.before[i]))
    && (forall i :: 0 <= i < |m.after| ==> OtherHeader(m.after[i]))
    && |m.body| <= 67108864
  }

  function Lines(headers: seq<seq<Byte>>): seq<Byte> {
    if headers == [] then [] else headers[0] + CRLF + Lines(headers[1..])
  }

  function LengthHeader(n: nat): seq<Byte> {
    CONTENT_LENGTH + [SPACE] + Print(n)
  }

  function Encode(m: Sent): seq<Byte> {
    Lines(m.before) + (LengthHeader(|m.body|) + CRLF) + Lines(m.after) + CRLF + m.body
  }

  function EncodeAll(ms: seq<Sent>): seq<Byte> {
    if ms == [] then [] else Encode(ms[0]) + EncodeAll(ms[1..])
  }

  function Messages(ms: seq<Sent>): seq<Inbound> {
    seq(|ms|, i requires 0 <= i < |ms| => Message(ms[i].body))
  }

  lemma WriterEncodes(body: seq<Byte>)
    ensures Frame(body) == Encode(Sent([], [], body))
  {
  }

  lemma {:induction false} LineEndsAtNewline(h: seq<Byte>, t: seq<Byte>)
    requires NoNewline(h)
    ensures LineLength(h + CRLF + t) == |h| + 2
    ensures (h + CRLF + t)[..|h| + 2] == h + CRLF && (h + CRLF + t)[|h| + 2..] == t
    ensures StripCrlf(h + CRLF) == h
  {
    var s := h + CRLF + t;
    if h != [] {
      LineEndsAtNewline(h[1..], t);
      assert s[1..] == h[1..] + CRLF + t;
    } else {
      assert s[1..][0] == LF;
    }
  }

  lemma HeaderLineRead(h: seq<Byte>, t: seq<Byte>, seen: Option<nat>)
    requires NoNewline(h)
    ensures Headers(h + CRLF + t, seen) == if h == [] then Body(seen, t) else Headers(t, Learn(seen, h))
  {
    LineEndsAtNewline(h, t);
  }

  lemma OtherHeaderIgnored(h: seq<Byte>, t: seq<Byte>, seen: Option<nat>)
    requires OtherHeader(h)
    ensures Headers(h + CRLF + t, seen) == Headers(t, seen)
  {
    HeaderLineRead(h, t, seen);
  }

  lemma FirstLine(headers: seq<seq<Byte>>, t: seq<Byte>)
    requires headers != []
    ensures Lines(headers) + t == headers[0] + CRLF + (Lines(headers[1..]) + t)
  {
  }

  lemma {:induction false} OtherHeadersIgnored(headers: seq<seq<Byte>>, t: seq<Byte>, seen: Option<nat>)
    requires forall i :: 0 <= i < |headers| ==> OtherHeader(headers[i])
    ensures Headers(Lines(headers) + t, seen) == Headers(t, seen)
  {
    if headers == [] {
      assert Lines(headers) + t == t;
    } else {
      FirstLine(headers, t);
      OtherHeaderIgnored(headers[0], Lines(headers[1..]) + t, seen);
      OtherHeadersIgnored(headers[1..], t, seen);
    }
  }

  lemma LengthUnderstood(n: nat, seen: Option<nat>)
    requires n <= MAX_USIZE
    ensures Learn(seen, LengthHeader(n)) == Some(n) && NoNewline(LengthHeader(n))
  {
    PrintShape(n);
    DecimalRoundTrip(n);
    var h, digits := LengthHeader(n), Print(n);
    assert h[|CONTENT_LENGTH|..] == [SPACE] + digits;
    PaddingTrimmed(digits);
    assert h[..|CONTENT_LENGTH|] == CONTENT_LENGTH;
  }

  lemma PaddingTrimmed(s: seq<Byte>)
    requires s != [] && !IsSpace(s[0]) && !IsSpace(s[|s| - 1])
    ensures Trim([SPACE] + s) == s
  {
    assert ([SPACE] + s)[1..] == s;
    assert TrimStart([SPACE] + s) == TrimStart(s) == s;
  }

  lemma BlankLineRead(t: seq<Byte>, seen: Option<nat>)
    ensures Headers(CRLF + t, seen) == Body(seen, t)
  {
    HeaderLineRead([], t, seen);
    assert [] + CRLF + t == CRLF + t;
  }

  lemma LengthThenOthers(header: seq<Byte>, n: nat, after: seq<seq<Byte>>, t: seq<Byte>)
    requires header != [] && NoNewline(header) && Learn(None, header) == Some(n)
    requires forall i :: 0 <= i < |after| ==> OtherHeader(after[i])
    ensures Headers(header + CRLF + (Lines(after) + (CRLF + t)), None) == Body(Some(n), t)
  {
    HeaderLineRead(header, Lines(after) + (CRLF + t), None);
    OtherHeadersIgnored(after, CRLF + t, Some(n));
    BlankLineRead(t, Some(n));
  }

  lemma Regroup(a: seq<Byte>, b: seq<Byte>, c: seq<Byte>, d: seq<Byte>, e: seq<Byte>, f: seq<Byte>)
    ensures a + b + c + d + e + f == a + (b + (c + (d + (e + f))))
  {
  }

  /** Headers as sent, then whatever follows the blank line. */
  lemma HeadersRead(m: Sent, t: seq<Byte>)
    requires WellFormed(m)
    ensures Headers(Lines(m.before) + (LengthHeader(|m.body|) + CRLF + (Lines(m.after) + (CRLF + t))), None) ==
              Body(Some(|m.body|), t)
  {
    var n := |m.body|;
    LengthUnderstood(n, None);
    LengthThenOthers(LengthHeader(n), n, m.after, t);
    OtherHeadersIgnored(m.before, LengthHeader(n) + CRLF + (Lines(m.after) + (CRLF + t)), None);
  }

  /** Reading gives back the body and leaves exactly what came after the message. */
  lemma ReadsBack(m: Sent, tail: seq<Byte>)
    requires WellFormed(m)
    ensures ReadOne(Encode(m) + tail) == (Success(Some(m.body)), tail)
  {
    HeadersRead(m, m.body + tail);
    Regroup(Lines(m.before), LengthHeader(|m.body|) + CRLF, Lines(m.after), CRLF, m.body, tail);
  }

  lemma FirstMessageForwarded(m: Sent, more: seq<Byte>)
    requires WellFormed(m)
    ensures Forwarded(Encode(m) + more) == [Message(m.body)] + Forwarded(more)
  {
    ReadsBack(m, more);
  }

  ghost predicate TakesOneMessage(f: seq<Byte> -> seq<Inbound>) {
    forall m, more :: WellFormed(m) ==> f(Encode(m) + more) == [Message(m.body)] + f(more)
  }

  lemma {:induction false} OneByOne(f: seq<Byte> -> seq<Inbound>, ms: seq<Sent>, tail: seq<Byte>)
    requires TakesOneMessage(f) && forall i :: 0 <= i < |ms| ==> WellFormed(ms[i])
    ensures f(EncodeAll(ms) + tail) == Messages(ms) + f(tail)
  {
    if ms == [] {
      assert EncodeAll(ms) + tail == tail;
    } else {
      OneByOne(f, ms[1..], tail);
      assert EncodeAll(ms) + tail == Encode(ms[0]) + (EncodeAll(ms[1..]) + tail);
      assert Messages(ms) == [Message(ms[0].body)] + Messages(ms[1..]);
    }
  }

  /** A stream of messages comes out as those messages in order, and then whatever the rest of it is. */
  lemma MessagesComeOutInOrder(ms: seq<Sent>, tail: seq<Byte>)
    requires forall i :: 0 <= i < |ms| ==> WellFormed(ms[i])
    ensures Forwarded(EncodeAll(ms) + tail) == Messages(ms) + Forwarded(tail)
  {
    forall m, more | WellFormed(m)
      ensures Forwarded(Encode(m) + more) == [Message(m.body)] + Forwarded(more)
    {
      FirstMessageForwarded(m, more);
    }
    OneByOne(Forwarded, ms, tail);
  }

  lemma StreamRoundTrip(ms: seq<Sent>)
    requires forall i :: 0 <= i < |ms| ==> WellFormed(ms[i])
    ensures Forwarded(EncodeAll(ms)) == Messages(ms) + [Eof]
  {
    MessagesComeOutInOrder(ms, []);
    assert EncodeAll(ms) + [] == EncodeAll(ms);
  }

  /** A body of more than 64 MiB is refused. */
  lemma TooLargeIsRefused(body: seq<Byte>)
    requires 67108864 < |body| <= 18446744073709551615
    ensures ReadOne(Frame(body)).0 == Failure(FrameTooLarge(|body|))
  {
    FrameHeadersRead(|body|, body);
    assert Frame(body) == LengthHeader(|body|) + CRLF + (CRLF + body);
  }

  lemma FrameHeadersRead(n: nat, t: seq<Byte>)
    requires n <= MAX_USIZE
    ensures Headers(LengthHeader(n) + CRLF + (CRLF + t), None) == Body(Some(n), t)
  {
    LengthUnderstood(n, None);
    HeaderLineRead(LengthHeader(n), CRLF + t, None);
    BlankLineRead(t, Some(n));
  }

  // ----- the bytes themselves -----

  function Ascii(text: string): seq<Byte> {
    seq(|text|, i requires 0 <= i < |text| => text[i] as int % 256)
  }

  function Numeral(n: nat): string {
    if n < 10 then ["0123456789"[n]] else Numeral(n / 10) + ["0123456789"[n % 10]]
  }

  lemma {:induction false} PrintIsNumeral(n: nat)
    ensures Print(n) == Ascii(Numeral(n))
  {
    if n >= 10 {
      PrintIsNumeral(n / 10);
    }
  }

  lemma HeaderName()
    ensures Ascii("Content-Length:") == CONTENT_LENGTH && Ascii("Content-Length: ") == CONTENT_LENGTH + [SPACE]
    ensures Ascii("\r\n\r\n") == CRLF + CRLF && Ascii("+") == [PLUS]
  {
  }

  /** What is written for a body. */
  lemma WrittenBytes(body: seq<Byte>)
    ensures Frame(body) == Ascii("Content-Length: ") + Ascii(Numeral(|body|)) + Ascii("\r\n\r\n") + body
  {
    PrintIsNumeral(|body|);
    HeaderName();
    FrameInPieces(body, CONTENT_LENGTH, [SPACE], Print(|body|), CRLF);
  }

  lemma FrameInPieces(body: seq<Byte>, name: seq<Byte>, space: seq<Byte>, number: seq<Byte>, end: seq<Byte>)
    ensures name + space + number + end + end + body == ((name + space) + number) + (end + end) + body
  {
  }

  /** The blanks that may stand in a header line. */
  predicate Blank(s: seq<Byte>) {
    forall i :: 0 <= i < |s| ==> s[i] in Ascii(" \t\r") || s[i] == 11 || s[i] == 12
  }

  lemma {:induction false} BlanksTrimmedBefore(pad: seq<Byte>, s: seq<Byte>)
    requires Blank(pad) && s != [] && !IsSpace(s[0])
    ensures TrimStart(pad + s) == s
  {
    if pad == [] {
      assert pad + s == s;
    } else {
      assert (pad + s)[1..] == pad[1..] + s;
      BlanksTrimmedBefore(pad[1..], s);
    }
  }

  lemma {:induction false} BlanksTrimmedAfter(s: seq<Byte>, pad: seq<Byte>)
    requires Blank(pad) && s != [] && !IsSpace(s[|s| - 1])
    ensures TrimEnd(s + pad) == s
  {
    if pad == [] {
      assert s + pad == s;
    } else {
      assert (s + pad)[..|s + pad| - 1] == s + pad[..|pad| - 1];
      BlanksTrimmedAfter(s, pad[..|pad| - 1]);
    }
  }

  lemma BlanksTrimmed(before: seq<Byte>, s: seq<Byte>, after: seq<Byte>)
    requires Blank(before) && Blank(after) && Unpadded(s)
    ensures Trim(before + s + after) == s
  {
    assert before + s + after == before + (s + after);
    BlanksTrimmedBefore(before, s + after);
    BlanksTrimmedAfter(s, after);
  }

  predicate Unpadded(s: seq<Byte>) {
    s != [] && !IsSpace(s[0]) && !IsSpace(s[|s| - 1])
  }

  lemma PlusParsed(digits: seq<Byte>)
    requires Unpadded(digits)
    ensures ParseUsize([PLUS] + digits) == Digits(digits) && Unpadded([PLUS] + digits)
  {
    assert ([PLUS] + digits)[1..] == digits;
  }

  lemma PrintedNumber(n: nat)
    requires n <= 18446744073709551615
    ensures Unpadded(Print(n)) && Digits(Print(n)) == ParseUsize(Print(n)) == Some(n)
  {
    PrintShape(n);
    DigitsOfPrint(n);
    assert IsDigit(Print(n)[0]) && IsDigit(Print(n)[|Print(n)| - 1]);
  }

  lemma SignedNumber(sign: seq<Byte>, n: nat)
    requires (sign == [] || sign == [PLUS]) && n <= 18446744073709551615
    ensures ParseUsize(sign + Print(n)) == Some(n) && Unpadded(sign + Print(n))
  {
    PrintedNumber(n);
    if sign == [] {
      assert sign + Print(n) == Print(n);
    } else {
      PlusParsed(Print(n));
    }
  }

  lemma LengthLearned(number: seq<Byte>, padded: seq<Byte>, seen: Option<nat>)
    requires Trim(padded) == number && ParseUsize(number).Some?
    ensures Learn(seen, CONTENT_LENGTH + padded) == ParseUsize(number)
  {
    var header := CONTENT_LENGTH + padded;
    assert header[..|CONTENT_LENGTH|] == CONTENT_LENGTH && header[|CONTENT_LENGTH|..] == padded;
  }

  /** A peer may put blanks around the number, and a plus sign before it. */
  lemma PaddedLengthRead(before: seq<Byte>, sign: seq<Byte>, n: nat, after: seq<Byte>, seen: Option<nat>)
    requires Blank(before) && Blank(after) && (sign == [] || sign == Ascii("+")) && n <= 18446744073709551615
    ensures Learn(seen, Ascii("Content-Length:") + (before + (sign + Ascii(Numeral(n))) + after)) == Some(n)
  {
    HeaderName();
    PrintIsNumeral(n);
    var number := sign + Print(n);
    SignedNumber(sign, n);
    BlanksTrimmed(before, number, after);
    LengthLearned(number, before + number + after, seen);
  }

  // ----- a stream cut short -----

  lemma {:induction false} NoLineEnd(s: seq<Byte>)
    requires NoNewline(s)
    ensures LineLength(s) == |s|
  {
    if s != [] {
      NoLineEnd(s[1..]);
    }
  }

  lemma UnfinishedLine(s: seq<Byte>, seen: Option<nat>)
    requires NoNewline(s)
    ensures Headers(s, seen) == EndOfStream
  {
    NoLineEnd(s);
    assert s[..|s|] == s && s[|s|..] == [];
  }

  /** A written frame cut off inside its headers looks like the clean end of the stream; cut off inside
      its body it is an error. */
  lemma TruncatedFrame(body: seq<Byte>, k: nat)
    requires |body| <= 67108864 && k < |Frame(body)|
    ensures ReadOne(Frame(body)[..k]).0 ==
            if k < |Frame(body)| - |body| then Success(None) else Failure(UnexpectedEof)
  {
    var n, h := |body|, LengthHeader(|body|);
    LengthUnderstood(n, None);
    assert Frame(body) == h + CRLF + (CRLF + body);
    CutHeaders(h, CRLF + body, k, None);
    if |h| + 2 <= k {
      CutHeaders([], body, k - |h| - 2, Some(n));
      assert [] + CRLF + body == CRLF + body;
    }
  }

  /** Cutting a stream inside its first line leaves nothing to read; cutting it later leaves the rest of it. */
  lemma CutHeaders(h: seq<Byte>, t: seq<Byte>, k: nat, seen: Option<nat>)
    requires NoNewline(h) && k <= |h + CRLF + t|
    ensures Headers((h + CRLF + t)[..k], seen) ==
            if k < |h| + 2 then EndOfStream
            else if h == [] then Body(seen, t[..k - |h| - 2])
            else Headers(t[..k - |h| - 2], Learn(seen, h))
  {
    var cut := (h + CRLF + t)[..k];
    if k < |h| + 2 {
      assert cut == (h + CRLF)[..k];
      assert NoNewline(cut);
      UnfinishedLine(cut, seen);
    } else {
      assert cut == h + CRLF + t[..k - |h| - 2];
      HeaderLineRead(h, t[..k - |h| - 2], seen);
    }
  }
}
