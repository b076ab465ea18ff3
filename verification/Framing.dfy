/**
 Content-Length framing: the resumable reader of internal/lsp/framing.go and the line-based
 reader of internal/lsp/daemon_broker.go. A byte is the character with the same code.
 */
module Framing {
  import opened Wrappers

  type Byte = c: char | c as int < 256 witness 'a'
  type Bytes = seq<Byte>

  const MAX_BUFFER_SIZE: nat := 10 * 1024 * 1024
  const READ_SIZE: nat := 4096
  /** The largest slice Go's runtime makes on 64-bit Linux; make panics on any other length. */
  const MAX_MAKE: nat := 0x1_0000_0000_0000
  const TERMINATOR: Bytes := "\r\n\r\n"

  // ---- Encoding ----

  function LengthDigits(n: nat): (r: Bytes)
    ensures r == Digits(n)
  {
    var digits := Digits(n);
    assert forall i | 0 <= i < |digits| :: digits[i] in digits;
    digits
  }

  function Header(length: nat): Bytes {
    "Content-Length: " + LengthDigits(length)
  }

  /** EncodeMessage, and the bytes writeFramedMessage writes. */
  function Encode(body: Bytes): Bytes {
    Header(|body|) + TERMINATOR + body
  }

  function EncodeAll(bodies: seq<Bytes>): Bytes {
    if bodies == [] then [] else Encode(bodies[0]) + EncodeAll(bodies[1..])
  }

  // ---- Finding and parsing one frame ----

  predicate TerminatorAt(buf: Bytes, i: int) {
    0 <= i <= |buf| - 4 && buf[i..i + 4] == TERMINATOR
  }

  function FirstTerminator(buf: Bytes, from: nat): (r: int)
    requires from <= |buf|
    ensures r == -1 || (from <= r && TerminatorAt(buf, r))
    ensures forall i | from <= i < (if r == -1 then |buf| else r) :: !TerminatorAt(buf, i)
    decreases |buf| - from
  {
    if from + 4 > |buf| then -1
    else if TerminatorAt(buf, from) then from
    else FirstTerminator(buf, from + 1)
  }

  function FindHeaderEnd(buf: Bytes, from: int): int {
    FirstTerminator(buf, if from < 0 || from > |buf| then 0 else from)
  }

  /** strings.Split(s, "\r\n"). */
  function SplitLines(s: Bytes, from: nat): (lines: seq<Bytes>)
    requires from <= |s|
    decreases |s| - from
  {
    if from + 2 > |s| then [s]
    else if s[from..from + 2] == "\r\n" then [s[..from]] + SplitLines(s[from + 2..], 0)
    else SplitLines(s, from + 1)
  }

  function ToLower(c: Byte): Byte {
    if 'A' <= c <= 'Z' then c + 32 as char else c
  }

  /** strings.HasPrefix(strings.ToLower(line), "content-length:"): no character outside ASCII
      lowers to a letter of that prefix, so the ASCII letters decide. */
  predicate IsLengthLine(line: Bytes) {
    |line| >= 15 && forall i | 0 <= i < 15 :: ToLower(line[i]) == "content-length:"[i]
  }

  /** The UTF-8 encoding of one Unicode white space character. */
  predicate IsSpaceRune(s: Bytes) {
    || (|s| == 1 && (s[0] == ' ' || '\t' <= s[0] <= '\r'))
    || (|s| == 2 && s[0] == '\U{c2}' && (s[1] == '\U{85}' || s[1] == '\U{a0}'))
    || (|s| == 3 && s[0] == '\U{e1}' && s[1] == '\U{9a}' && s[2] == '\U{80}')
    || (|s| == 3 && s[0] == '\U{e2}' && s[1] == '\U{80}'
        && ('\U{80}' <= s[2] <= '\U{8a}' || s[2] in ['\U{a8}', '\U{a9}', '\U{af}']))
    || (|s| == 3 && s[0] == '\U{e2}' && s[1] == '\U{81}' && s[2] == '\U{9f}')
    || (|s| == 3 && s[0] == '\U{e3}' && s[1] == '\U{80}' && s[2] == '\U{80}')
  }

  function TrimLeft(s: Bytes): Bytes {
    if |s| >= 1 && IsSpaceRune(s[..1]) then TrimLeft(s[1..])
    else if |s| >= 2 && IsSpaceRune(s[..2]) then TrimLeft(s[2..])
    else if |s| >= 3 && IsSpaceRune(s[..3]) then TrimLeft(s[3..])
    else s
  }

  function TrimRight(s: Bytes): Bytes {
    if |s| >= 1 && IsSpaceRune(s[|s| - 1..]) then TrimRight(s[..|s| - 1])
    else if |s| >= 2 && IsSpaceRune(s[|s| - 2..]) then TrimRight(s[..|s| - 2])
    else if |s| >= 3 && IsSpaceRune(s[|s| - 3..]) then TrimRight(s[..|s| - 3])
    else s
  }

  /** The first content-length line decides, even when its value does not parse. */
  function ContentLength(lines: seq<Bytes>): int {
    if lines == [] then -1
    else if IsLengthLine(lines[0]) then
      match Atoi(TrimRight(TrimLeft(lines[0][15..])))
      case Some(v) => v
      case None => -1
    else ContentLength(lines[1..])
  }

  /** Crash: bodyStart + contentLength wraps around, the length check passes and make panics. */
  datatype Parsed = Complete(body: Bytes, rest: Bytes) | Incomplete | Crash

  function ParseFrame(buf: Bytes, idx: nat): Parsed
    requires TerminatorAt(buf, idx)
  {
    var bodyStart := idx + 4;
    var n := ContentLength(SplitLines(buf[..idx], 0));
    if n < 0 then Incomplete
    else if bodyStart + n > MAX_INT64 then Crash
    else if |buf| < bodyStart + n then Incomplete
    else Complete(buf[bodyStart..bodyStart + n], buf[bodyStart + n..])
  }

  function TryParse(buf: Bytes): Parsed {
    var idx := FindHeaderEnd(buf, 0);
    if idx < 0 then Incomplete else ParseFrame(buf, idx)
  }

  // ---- The resumable reader ----

  /** What one call of the underlying reader's Read delivers into a 4096-byte slice. */
  datatype ReadResult = ReadResult(data: Bytes, failed: bool)

  type Chunk = r: ReadResult | |r.data| <= READ_SIZE witness ReadResult([], false)

  datatype Outcome = Message(body: Bytes) | ReadError | Crashed

  datatype ReaderState = ReaderState(buf: Bytes, chunks: seq<Chunk>)

  function Feed(buf: Bytes, data: Bytes): Bytes {
    if |buf + data| > MAX_BUFFER_SIZE then [] else buf + data
  }

  /** The simple form: search the whole buffer from its start before every read. When the
      recorded reads are used up, the stream is at its end. */
  function NaiveRead(s: ReaderState): (Outcome, ReaderState)
    decreases |s.chunks|
  {
    match TryParse(s.buf)
    case Complete(body, rest) => (Message(body), ReaderState(rest, s.chunks))
    case Crash => (Crashed, s)
    case Incomplete =>
      if s.chunks == [] then (ReadError, s)
      else
        var next := ReaderState(Feed(s.buf, s.chunks[0].data), s.chunks[1..]);
        if s.chunks[0].failed then (ReadError, next) else NaiveRead(next)
  }

  lemma AppendKeepsTerminators(buf: Bytes, more: Bytes, i: int)
    requires i < |buf| - 3
    ensures TerminatorAt(buf + more, i) == TerminatorAt(buf, i)
  {
    if 0 <= i {
      assert (buf + more)[i..i + 4] == buf[i..i + 4];
    }
  }

  /** A search resumed behind a stretch without a terminator finds what a full search finds. */
  lemma ResumedSearchIsFull(buf: Bytes, from: nat)
    requires from <= |buf|
    requires forall i | 0 <= i < from :: !TerminatorAt(buf, i)
    ensures FindHeaderEnd(buf, from) == FindHeaderEnd(buf, 0)
  {
    var a, b := FindHeaderEnd(buf, from), FindHeaderEnd(buf, 0);
    assert a == -1 || TerminatorAt(buf, a);
    assert b == -1 || TerminatorAt(buf, b);
  }

  class FrameReader {
    var buf: Bytes
    var scanFrom: nat
    var chunks: seq<Chunk>  // what the underlying reader will still deliver

    predicate Valid()
      reads this
    {
      scanFrom <= |buf| && forall i | 0 <= i < scanFrom :: !TerminatorAt(buf, i)
    }

    function State(): ReaderState
      reads this
    {
      ReaderState(buf, chunks)
    }

    constructor (stream: seq<Chunk>)
      ensures Valid() && State() == ReaderState([], stream)
    {
      buf, scanFrom, chunks := [], 0, stream;
    }

    /** The fast form refines the simple one: same message, same remaining buffer, same chunks left. */
    method ReadMessage() returns (out: Outcome)
      requires Valid()
      modifies this
      ensures Valid()
      ensures (out, State()) == NaiveRead(old(State()))
    {
      hide FirstTerminator, SplitLines, ContentLength;
      while true
        invariant Valid()
        invariant NaiveRead(State()) == NaiveRead(old(State()))
        decreases |chunks|
      {
        ResumedSearchIsFull(buf, scanFrom);
        var idx := FindHeaderEnd(buf, scanFrom);
        if idx >= 0 {
          match ParseFrame(buf, idx) {
            case Complete(body, rest) =>
              buf, scanFrom := rest, 0;
              return Message(body);
            case Crash =>
              return Crashed;
            case Incomplete =>
              scanFrom := idx;
          }
        } else {
          scanFrom := if |buf| >= 3 then |buf| - 3 else 0;
        }
        if chunks == [] {
          return ReadError;
        }
        var chunk := chunks[0];
        chunks := chunks[1..];
        forall i | 0 <= i < scanFrom ensures !TerminatorAt(buf + chunk.data, i) {
          AppendKeepsTerminators(buf, chunk.data, i);
        }
        buf := buf + chunk.data;
        if |buf| > MAX_BUFFER_SIZE {
          buf, scanFrom := [], 0;
        }
        if chunk.failed {
          return ReadError;
        }
      }
    }
  }

  // ---- One frame: round trip, and nothing before the last byte ----

  predicate IsDigit(c: Byte) {
    '0' <= c <= '9'
  }

  lemma DigitIsNotSpace(s: Bytes, i: nat)
    requires i < |s| && IsDigit(s[i])
    ensures !IsSpaceRune(s)
  {}

  lemma TrimLeftStops(d: Bytes)
    requires |d| > 0 && IsDigit(d[0])
    ensures TrimLeft(d) == d
  {
    DigitIsNotSpace(d[..1], 0);
    if |d| >= 2 { DigitIsNotSpace(d[..2], 0); }
    if |d| >= 3 { DigitIsNotSpace(d[..3], 0); }
  }

  lemma TrimRightStops(d: Bytes)
    requires |d| > 0 && IsDigit(d[|d| - 1])
    ensures TrimRight(d) == d
  {
    DigitIsNotSpace(d[|d| - 1..], 0);
    if |d| >= 2 { DigitIsNotSpace(d[|d| - 2..], 1); }
    if |d| >= 3 { DigitIsNotSpace(d[|d| - 3..], 2); }
  }

  lemma TrimmedNumber(d: Bytes)
    requires |d| > 0 && IsDigit(d[0]) && IsDigit(d[|d| - 1])
    ensures TrimRight(TrimLeft(" " + d)) == d
  {
    TrimLeftStops(d);
    TrimRightStops(d);
    var s := " " + d;
    assert s[..1] == " " && s[1..] == d;
  }

  lemma LengthPrefix(line: Bytes)
    requires |line| >= 15 && line[..15] == "Content-Length:"
    ensures IsLengthLine(line)
  {
    forall i | 0 <= i < 15 ensures ToLower(line[i]) == "content-length:"[i] {
      assert line[i] == "Content-Length:"[i];
    }
  }

  lemma {:induction false} NoLineBreak(s: Bytes, from: nat)
    requires from <= |s|
    requires forall c | c in s :: c != '\r'
    ensures SplitLines(s, from) == [s]
    decreases |s| - from
  {
    if from + 2 <= |s| {
      assert s[from] in s;
      assert s[from..from + 2][0] == s[from];
      NoLineBreak(s, from + 1);
    }
  }

  lemma HeaderText(length: nat)
    ensures forall c | c in Header(length) :: c != '\r' && c != '\n'
    ensures |Header(length)| > 16 && Header(length)[..16] == "Content-Length: "
    ensures Header(length)[16..] == LengthDigits(length)
  {
    var h, d := Header(length), LengthDigits(length);
    forall c | c in h ensures c != '\r' && c != '\n' {
      var i :| 0 <= i < |h| && h[i] == c;
      assert c == if i < 16 then "Content-Length: "[i] else d[i - 16];
      assert i >= 16 ==> c in d;
    }
  }

  lemma HeaderLength(length: nat)
    requires length <= MAX_INT64
    ensures ContentLength(SplitLines(Header(length), 0)) == length
  {
    var h, d := Header(length), LengthDigits(length);
    HeaderText(length);
    NoLineBreak(h, 0);
    assert h[..15] == h[..16][..15];
    LengthPrefix(h);
    assert h[15..] == h[..16][15..] + h[16..];
    assert d[0] in d && d[|d| - 1] in d;
    TrimmedNumber(d);
    AtoiOfDigits(length);
  }

  // ---- The length a header announces ----

  function LengthOn(line: Bytes): Option<int> {
    if IsLengthLine(line) then Atoi(TrimRight(TrimLeft(line[15..]))) else None
  }

  /** The first content-length line of a header announces this length. */
  predicate Announces(lines: seq<Bytes>, length: int) {
    exists i | 0 <= i < |lines| :: FirstLengthLine(lines, i) && LengthOn(lines[i]) == Some(length)
  }

  predicate FirstLengthLine(lines: seq<Bytes>, i: nat) {
    i < |lines| && IsLengthLine(lines[i]) && forall j | 0 <= j < i :: !IsLengthLine(lines[j])
  }

  lemma LengthOfFirst(lines: seq<Bytes>)
    ensures lines == [] ==> ContentLength(lines) == -1
    ensures lines != [] && !IsLengthLine(lines[0]) ==> ContentLength(lines) == ContentLength(lines[1..])
    ensures lines != [] && IsLengthLine(lines[0]) ==>
            ContentLength(lines) == if LengthOn(lines[0]).Some? then LengthOn(lines[0]).value else -1
  {}

  lemma {:induction false} AnnouncedLength(lines: seq<Bytes>, length: nat)
    ensures ContentLength(lines) == length <==> Announces(lines, length)
  {
    LengthOfFirst(lines);
    hide IsLengthLine, LengthOn, ContentLength;
    if lines != [] && !IsLengthLine(lines[0]) {
      AnnouncedLength(lines[1..], length);
      if i :| 0 <= i < |lines| && FirstLengthLine(lines, i) && LengthOn(lines[i]) == Some(length) {
        assert FirstLengthLine(lines[1..], i - 1) && lines[1..][i - 1] == lines[i];
      }
      if i :| 0 <= i < |lines[1..]| && FirstLengthLine(lines[1..], i) && LengthOn(lines[1..][i]) == Some(length) {
        assert FirstLengthLine(lines, i + 1) && lines[i + 1] == lines[1..][i];
      }
    } else if lines != [] {
      assert FirstLengthLine(lines, 0);
    }
  }

  /** In any buffer cut from h + TERMINATOR + after, the header ends where it was written. */
  lemma HeaderEndOfPrefix(h: Bytes, after: Bytes, n: nat)
    requires forall c | c in h :: c != '\r'
    requires n <= |h| + 4 + |after|
    ensures FindHeaderEnd((h + TERMINATOR + after)[..n], 0) == if n < |h| + 4 then -1 else |h|
  {
    var buf := (h + TERMINATOR + after)[..n];
    forall i | 0 <= i < |h| ensures !TerminatorAt(buf, i) {
      assert h[i] in h;
      if i + 4 <= n {
        assert buf[i..i + 4][0] == h[i];
      }
    }
    if n >= |h| + 4 {
      assert buf[|h|..|h| + 4] == TERMINATOR;
      assert TerminatorAt(buf, |h|);
    }
  }

  lemma FrameParts(h: Bytes, body: Bytes, more: Bytes, n: nat)
    requires |h| + 4 + |body| <= n <= |h| + 4 + |body| + |more|
    ensures var buf := (h + TERMINATOR + body + more)[..n];
            && buf[|h| + 4..|h| + 4 + |body|] == body
            && buf[|h| + 4 + |body|..] == more[..n - (|h| + 4 + |body|)]
  {}

  // ---- Frames with any headers ----

  /** A frame as some server writes it: its header lines and its body. */
  datatype Frame = Frame(lines: seq<Bytes>, body: Bytes)

  predicate IsHeaderLine(line: Bytes) {
    line != "" && '\r' !in line && '\n' !in line
  }

  function JoinLines(lines: seq<Bytes>): Bytes {
    if lines == [] then [] else if |lines| == 1 then lines[0] else lines[0] + "\r\n" + JoinLines(lines[1..])
  }

  /** Any header lines, in any order, the first content-length line of which holds the body's length. */
  predicate IsFrame(f: Frame) {
    f.lines != [] && (forall line | line in f.lines :: IsHeaderLine(line)) && Announces(f.lines, |f.body|)
  }

  function Text(f: Frame): Bytes {
    JoinLines(f.lines) + TERMINATOR + f.body
  }

  lemma {:induction false} SplitFirst(line: Bytes, rest: Bytes, from: nat)
    requires '\r' !in line && from <= |line|
    ensures SplitLines(line + "\r\n" + rest, from) == [line] + SplitLines(rest, 0)
    decreases |line| - from
  {
    var s := line + "\r\n" + rest;
    if from == |line| {
      assert s[from..from + 2] == "\r\n" && s[..from] == line && s[from + 2..] == rest;
    } else {
      assert s[from] == line[from] && line[from] in line;
      assert s[from..from + 2][0] == s[from];
      SplitFirst(line, rest, from + 1);
    }
  }

  /** The lines of a header are the lines it was joined from. */
  lemma {:induction false} SplitJoined(lines: seq<Bytes>)
    requires lines != [] && forall line | line in lines :: IsHeaderLine(line)
    ensures SplitLines(JoinLines(lines), 0) == lines
  {
    assert lines[0] in lines;
    if |lines| == 1 {
      assert forall c | c in lines[0] :: c != '\r';
      NoLineBreak(lines[0], 0);
    } else {
      assert forall line | line in lines[1..] :: line in lines;
      SplitJoined(lines[1..]);
      SplitFirst(lines[0], JoinLines(lines[1..]), 0);
    }
  }

  lemma NoTerminatorInLine(line: Bytes, after: Bytes, i: nat)
    requires '\r' !in line && i < |line|
    ensures !TerminatorAt(line + after, i)
  {
    assert (line + after)[i] == line[i] && line[i] in line;
    if i + 4 <= |line + after| {
      assert (line + after)[i..i + 4][0] == (line + after)[i];
    }
  }

  lemma TerminatorBehind(front: Bytes, rest: Bytes, i: nat)
    requires i >= |front|
    ensures TerminatorAt(front + rest, i) <==> TerminatorAt(rest, i - |front|)
  {
    if i + 4 <= |front + rest| {
      assert (front + rest)[i..i + 4] == rest[i - |front|..i - |front| + 4];
    }
  }

  /** The header of a frame holds no terminator. */
  lemma {:induction false} NoTerminatorInside(lines: seq<Bytes>, after: Bytes, i: nat)
    requires lines != [] && (forall line | line in lines :: IsHeaderLine(line)) && i < |JoinLines(lines)|
    ensures !TerminatorAt(JoinLines(lines) + after, i)
  {
    hide TerminatorAt;
    assert lines[0] in lines;
    var line := lines[0];
    if |lines| == 1 {
      NoTerminatorInLine(line, after, i);
    } else {
      assert forall l | l in lines[1..] :: l in lines;
      var rest := JoinLines(lines[1..]) + after;
      JoinedStarts(lines[1..]);
      var s := JoinLines(lines) + after;
      assert s == line + ("\r\n" + rest);
      if i < |line| {
        NoTerminatorInLine(line, "\r\n" + rest, i);
      } else if i < |line| + 2 {
        BreakIsNoTerminator(line, rest, i);
      } else {
        NoTerminatorInside(lines[1..], after, i - |line| - 2);
        TerminatorBehind(line + "\r\n", rest, i);
        assert s == line + "\r\n" + rest;
      }
    }
  }

  lemma BreakIsNoTerminator(line: Bytes, rest: Bytes, i: nat)
    requires |line| <= i < |line| + 2 && rest != "" && rest[0] != '\r'
    ensures !TerminatorAt(line + ("\r\n" + rest), i)
  {
    var s := line + ("\r\n" + rest);
    assert s[|line| + 1] == '\n' && s[|line| + 2] == rest[0];
    if i + 4 <= |s| {
      assert s[i..i + 4][0] == s[i] && s[i..i + 4][2] == s[i + 2];
    }
  }

  lemma JoinedStarts(lines: seq<Bytes>)
    requires lines != [] && forall line | line in lines :: IsHeaderLine(line)
    ensures JoinLines(lines) != "" && JoinLines(lines)[0] != '\r'
  {
    assert lines[0] in lines && lines[0][0] in lines[0];
    assert JoinLines(lines)[0] == lines[0][0];
  }

  lemma TerminatorOfPrefix(s: Bytes, n: nat, i: nat)
    requires n <= |s| && TerminatorAt(s[..n], i)
    ensures TerminatorAt(s, i)
  {
    assert s[..n][i..i + 4] == s[i..i + 4];
  }

  /** In any buffer cut from a stream that starts with a header, the header ends where it was written. */
  lemma HeaderEndOfFrame(lines: seq<Bytes>, after: Bytes, n: nat)
    requires lines != [] && forall line | line in lines :: IsHeaderLine(line)
    requires n <= |JoinLines(lines)| + 4 + |after|
    ensures FindHeaderEnd((JoinLines(lines) + TERMINATOR + after)[..n], 0)
         == if n < |JoinLines(lines)| + 4 then -1 else |JoinLines(lines)|
  {
    var h := JoinLines(lines);
    var s := h + TERMINATOR + after;
    var buf := s[..n];
    hide JoinLines;
    assert s == h + (TERMINATOR + after);
    forall i: nat | i < |h| ensures !TerminatorAt(buf, i) {
      NoTerminatorInside(lines, TERMINATOR + after, i);
      if TerminatorAt(buf, i) {
        TerminatorOfPrefix(s, n, i);
      }
    }
    if n >= |h| + 4 {
      assert buf[|h|..|h| + 4] == TERMINATOR;
      assert TerminatorAt(buf, |h|);
    }
  }

  /** Whatever headers a frame has, parsing any part of a stream that starts with it yields exactly its
      body once its last byte is there, and nothing before. */
  lemma FrameParses(f: Frame, more: Bytes, n: nat)
    requires IsFrame(f) && |Text(f)| <= MAX_BUFFER_SIZE && n <= |Text(f) + more|
    ensures TryParse((Text(f) + more)[..n])
         == if n < |Text(f)| then Incomplete else Complete(f.body, more[..n - |Text(f)|])
  {
    hide ContentLength, SplitLines, FindHeaderEnd, JoinLines, Announces;
    var h, e := JoinLines(f.lines), Text(f);
    var buf := (e + more)[..n];
    assert e + more == h + TERMINATOR + (f.body + more);
    HeaderEndOfFrame(f.lines, f.body + more, n);
    if n >= |h| + 4 {
      assert buf[..|h|] == h;
      SplitJoined(f.lines);
      AnnouncedLength(f.lines, |f.body|);
      if n >= |e| {
        FrameParts(h, f.body, more, n);
      }
    }
  }

  predicate IsPadding(s: Bytes) {
    forall c | c in s :: c == ' ' || c == '\t'
  }

  lemma {:induction false} TrimLeftPadding(pad: Bytes, d: Bytes)
    requires IsPadding(pad)
    ensures TrimLeft(pad + d) == TrimLeft(d)
  {
    if pad == [] {
      assert pad + d == d;
    } else {
      assert pad[0] in pad && (pad + d)[..1] == [pad[0]] && (pad + d)[1..] == pad[1..] + d;
      assert forall c | c in pad[1..] :: c in pad;
      TrimLeftPadding(pad[1..], d);
    }
  }

  lemma {:induction false} TrimRightPadding(d: Bytes, pad: Bytes)
    requires IsPadding(pad)
    ensures TrimRight(d + pad) == TrimRight(d)
  {
    if pad == [] {
      assert d + pad == d;
    } else {
      var front := pad[..|pad| - 1];
      assert pad[|pad| - 1] in pad && (d + pad)[|d + pad| - 1..] == [pad[|pad| - 1]];
      assert (d + pad)[..|d + pad| - 1] == d + front;
      assert forall c | c in front :: c in pad;
      TrimRightPadding(d, front);
    }
  }

  lemma LowerOfUpper(i: nat)
    requires i < 15
    ensures ToLower("CONTENT-LENGTH:"[i]) == "content-length:"[i] && ToLower("content-length:"[i]) == "content-length:"[i]
  {
    var upper, lower := "CONTENT-LENGTH:", "content-length:";
    assert upper[0] == 'C' && upper[1] == 'O' && upper[2] == 'N' && upper[3] == 'T' && upper[4] == 'E';
    assert upper[5] == 'N' && upper[6] == 'T' && upper[7] == '-' && upper[8] == 'L' && upper[9] == 'E';
    assert upper[10] == 'N' && upper[11] == 'G' && upper[12] == 'T' && upper[13] == 'H' && upper[14] == ':';
    assert lower[0] == 'c' && lower[1] == 'o' && lower[2] == 'n' && lower[3] == 't' && lower[4] == 'e';
    assert lower[5] == 'n' && lower[6] == 't' && lower[7] == '-' && lower[8] == 'l' && lower[9] == 'e';
    assert lower[10] == 'n' && lower[11] == 'g' && lower[12] == 't' && lower[13] == 'h' && lower[14] == ':';
  }

  /** A content-length line may be written in any case and padded on either side of its number. */
  lemma LengthLineForms(name: Bytes, before: Bytes, length: nat, behind: Bytes)
    requires |name| == 15 && forall i | 0 <= i < 15 :: name[i] == "content-length:"[i] || name[i] == "CONTENT-LENGTH:"[i]
    requires IsPadding(before) && IsPadding(behind) && length <= MAX_INT64
    ensures LengthOn(name + before + LengthDigits(length) + behind) == Some(length)
  {
    forall i | 0 <= i < 15 ensures ToLower(name[i]) == "content-length:"[i] {
      LowerOfUpper(i);
    }
    hide TrimLeft, TrimRight, Atoi, LengthDigits;
    var d := LengthDigits(length);
    var line := name + before + d + behind;
    assert line == name + (before + (d + behind)) && line[15..] == before + (d + behind);
    assert d[0] in d && d[|d| - 1] in d && (d + behind)[0] == d[0];
    TrimLeftPadding(before, d + behind);
    TrimLeftStops(d + behind);
    TrimRightPadding(d, behind);
    TrimRightStops(d);
    AtoiOfDigits(length);
  }

  lemma EncodedIsFrame(body: Bytes)
    requires |body| <= MAX_INT64
    ensures var f := Frame([Header(|body|)], body);
            IsFrame(f) && Text(f) == Encode(body)
  {
    hide Header, ContentLength, SplitLines;
    HeaderText(|body|);
    HeaderLength(|body|);
    NoLineBreak(Header(|body|), 0);
    AnnouncedLength([Header(|body|)], |body|);
  }

  /** Parsing any part of a stream that starts with a frame yields exactly that frame once its
      last byte is there, and nothing before. */
  lemma FrameRoundTrip(body: Bytes, more: Bytes, n: nat)
    requires |Encode(body)| <= MAX_BUFFER_SIZE
    requires n <= |Encode(body) + more|
    ensures var buf := (Encode(body) + more)[..n];
            TryParse(buf) == if n < |Encode(body)| then Incomplete
                             else Complete(body, more[..n - |Encode(body)|])
  {
    hide Header, TryParse, Text, IsFrame;
    EncodedIsFrame(body);
    FrameParses(Frame([Header(|body|)], body), more, n);
  }

  // ---- Lengths the reader cannot hold ----

  /** A body of the announced length, behind a header that ends at idx, ends beyond the largest 64-bit
      integer. */
  ghost predicate LengthWraps(lines: seq<Bytes>, idx: nat) {
    exists length: nat :: Announces(lines, length) && length > MAX_INT64 - (idx + 4)
  }

  /** The reader crashes exactly on a complete header that announces such a length. */
  lemma CrashIffLengthWraps(buf: Bytes)
    ensures var idx := FindHeaderEnd(buf, 0);
            TryParse(buf) == Crash <==> idx >= 0 && LengthWraps(SplitLines(buf[..idx], 0), idx)
  {
    hide ContentLength, SplitLines, Announces;
    var idx := FindHeaderEnd(buf, 0);
    if idx >= 0 {
      var lines := SplitLines(buf[..idx], 0);
      forall length: nat ensures ContentLength(lines) == length <==> Announces(lines, length) {
        AnnouncedLength(lines, length);
      }
      if ContentLength(lines) >= 0 {
        var length: nat := ContentLength(lines);
        assert Announces(lines, length);
      }
    }
  }

  /** The largest length that can be written crashes the reader as soon as the header is complete. */
  lemma LargestLengthCrashes(more: Bytes)
    ensures TryParse(Header(MAX_INT64) + TERMINATOR + more) == Crash
  {
    hide Header, ContentLength, SplitLines, FindHeaderEnd;
    var h := Header(MAX_INT64);
    var buf := h + TERMINATOR + more;
    HeaderText(MAX_INT64);
    HeaderLength(MAX_INT64);
    HeaderEndOfPrefix(h, more, |buf|);
    assert buf[..|buf|] == buf && buf[..|h|] == h;
  }

  // ---- A stream of frames, however it is cut into reads ----

  function Delivered(chunks: seq<Chunk>): Bytes {
    if chunks == [] then [] else chunks[0].data + Delivered(chunks[1..])
  }

  predicate AllSucceed(chunks: seq<Chunk>) {
    forall r | r in chunks :: !r.failed
  }

  predicate FitsBuffer(body: Bytes) {
    |Encode(body)| <= 10_485_760 - 4095
  }

  lemma FrameInFront(buf: Bytes, coming: Bytes, e: Bytes, more: Bytes)
    requires buf + coming == e + more
    ensures buf == (e + more)[..|buf|]
    ensures |buf| >= |e| ==> more[..|buf| - |e|] + coming == more
  {
    assert (buf + coming)[..|buf|] == buf;
    if |buf| >= |e| {
      assert (e + more)[|e|..] == more && (buf + coming)[|e|..] == buf[|e|..] + coming;
      assert buf[|e|..] == (e + more)[..|buf|][|e|..] == more[..|buf| - |e|];
    }
  }

  lemma FeedKeepsStream(buf: Bytes, chunks: seq<Chunk>)
    requires chunks != [] && |buf| + READ_SIZE <= MAX_BUFFER_SIZE
    ensures Feed(buf, chunks[0].data) + Delivered(chunks[1..]) == buf + Delivered(chunks)
  {}

  predicate FrameFits(f: Frame) {
    IsFrame(f) && |Text(f)| <= 10_485_760 - 4095
  }

  function TextAll(frames: seq<Frame>): Bytes {
    if frames == [] then [] else Text(frames[0]) + TextAll(frames[1..])
  }

  /** Whatever part of it is already buffered, and whatever headers its frames have, the next message
      of the stream is the next one read. */
  lemma {:induction false} NextMessage(s: ReaderState, frames: seq<Frame>)
    requires frames != [] && FrameFits(frames[0])
    requires AllSucceed(s.chunks)
    requires s.buf + Delivered(s.chunks) == TextAll(frames)
    ensures var (out, s') := NaiveRead(s);
            && out == Message(frames[0].body)
            && AllSucceed(s'.chunks)
            && s'.buf + Delivered(s'.chunks) == TextAll(frames[1..])
    decreases |s.chunks|
  {
    hide Text, IsFrame, TryParse;
    var e, more := Text(frames[0]), TextAll(frames[1..]);
    FrameInFront(s.buf, Delivered(s.chunks), e, more);
    FrameParses(frames[0], more, |s.buf|);
    if |s.buf| < |e| {
      assert |s.buf + Delivered(s.chunks)| == |e| + |more|;
      FeedKeepsStream(s.buf, s.chunks);
      assert s.chunks[0] in s.chunks;
      NextMessage(ReaderState(Feed(s.buf, s.chunks[0].data), s.chunks[1..]), frames);
    }
  }

  function ReadMany(s: ReaderState, n: nat): (seq<Outcome>, ReaderState)
    decreases n
  {
    if n == 0 then ([], s)
    else
      var (out, s') := NaiveRead(s);
      var (rest, s'') := ReadMany(s', n - 1);
      ([out] + rest, s'')
  }

  function Messages(bodies: seq<Bytes>): seq<Outcome> {
    if bodies == [] then [] else [Message(bodies[0])] + Messages(bodies[1..])
  }

  function Bodies(frames: seq<Frame>): seq<Bytes> {
    if frames == [] then [] else [frames[0].body] + Bodies(frames[1..])
  }

  /** Framing does not depend on how the stream is cut into reads, or on the other headers: the bodies
      come back in order and nothing is left over or discarded. */
  lemma {:induction false} FramesComeBack(s: ReaderState, frames: seq<Frame>)
    requires (forall f | f in frames :: FrameFits(f)) && AllSucceed(s.chunks)
    requires s.buf + Delivered(s.chunks) == TextAll(frames)
    ensures var (outs, s') := ReadMany(s, |frames|);
            && outs == Messages(Bodies(frames))
            && s'.buf + Delivered(s'.chunks) == []
    decreases |frames|
  {
    hide IsFrame, Text, NaiveRead;
    if frames != [] {
      assert frames[0] in frames && forall f | f in frames[1..] :: f in frames;
      NextMessage(s, frames);
      var (out, s') := NaiveRead(s);
      FramesComeBack(s', frames[1..]);
      var outs := ReadMany(s, |frames|).0;
      assert outs == [out] + ReadMany(s', |frames| - 1).0;
    }
  }

  function EncodedFrames(bodies: seq<Bytes>): seq<Frame> {
    if bodies == [] then [] else [Frame([Header(|bodies[0]|)], bodies[0])] + EncodedFrames(bodies[1..])
  }

  lemma {:induction false} EncodedFramesFit(bodies: seq<Bytes>)
    requires forall b | b in bodies :: FitsBuffer(b)
    ensures var frames := EncodedFrames(bodies);
            && (forall f | f in frames :: FrameFits(f)) && TextAll(frames) == EncodeAll(bodies)
            && Bodies(frames) == bodies && |frames| == |bodies|
  {
    hide Header, Encode, Text, IsFrame;
    if bodies != [] {
      assert bodies[0] in bodies && forall b | b in bodies[1..] :: b in bodies;
      EncodedFramesFit(bodies[1..]);
      EncodeIsLonger(bodies[0]);
      EncodedIsFrame(bodies[0]);
      var frames := EncodedFrames(bodies);
      assert frames[1..] == EncodedFrames(bodies[1..]);
    }
  }

  lemma EncodeIsLonger(body: Bytes)
    ensures |Encode(body)| >= |body|
  {}

  /** So the messages this client's own encoder writes come back, however they are cut. */
  lemma ChunkingIsInvisible(s: ReaderState, bodies: seq<Bytes>)
    requires forall b | b in bodies :: FitsBuffer(b)
    requires AllSucceed(s.chunks)
    requires s.buf + Delivered(s.chunks) == EncodeAll(bodies)
    ensures var (outs, s') := ReadMany(s, |bodies|);
            && outs == Messages(bodies)
            && s'.buf + Delivered(s'.chunks) == []
  {
    hide FitsBuffer, FrameFits;
    EncodedFramesFit(bodies);
    FramesComeBack(s, EncodedFrames(bodies));
  }

  /** A read that fails still keeps what it delivered for the next call. */
  lemma FailedReadKeepsData(buf: Bytes, data: Bytes, more: seq<Chunk>)
    requires TryParse(buf) == Incomplete && |data| <= READ_SIZE && |buf| + |data| <= MAX_BUFFER_SIZE
    ensures NaiveRead(ReaderState(buf, [ReadResult(data, true)] + more)) == (ReadError, ReaderState(buf + data, more))
  {
    hide TryParse;
    var chunks: seq<Chunk> := [ReadResult(data, true)] + more;
    assert chunks[1..] == more;
  }

  /** The bound is exact: when the last byte of a frame arrives in a full read, the frame is
      discarded if and only if it is longer than the bound. */
  lemma FrameBoundIsExact(body: Bytes, more: Bytes)
    requires |more| >= READ_SIZE - 1
    requires |Encode(body)| <= MAX_BUFFER_SIZE
    ensures var e := Encode(body);
            var last := ReadResult(e[|e| - 1..] + more[..READ_SIZE - 1], false);
            NaiveRead(ReaderState(e[..|e| - 1], [last])).0
            == if FitsBuffer(body) then Message(body) else ReadError
  {
    hide Header, TryParse;
    var e := Encode(body);
    var front, data := e[..|e| - 1], e[|e| - 1..] + more[..READ_SIZE - 1];
    FrameRoundTrip(body, more, |e| - 1);
    assert (e + more)[..|e| - 1] == front;
    var last := ReadResult(data, false);
    assert [last][1..] == [];
    if FitsBuffer(body) {
      var n := |e| + READ_SIZE - 1;
      FrameRoundTrip(body, more, n);
      assert front + data == (e + more)[..n];
    } else {
      FrameRoundTrip(body, more, 0);
      assert (e + more)[..0] == [];
      assert Feed(front, data) == [];
    }
  }

  // ---- The broker's reader ----

  datatype FramedResult =
    | Framed(body: Bytes)
    | StreamEnded
    | NoContentLength
    | InvalidContentLength
    | LengthPanic

  function LineEnd(s: Bytes): (r: int)
    ensures r == -1 || (0 <= r < |s| && s[r] == '\n' && '\n' !in s[..r])
    ensures r == -1 ==> '\n' !in s
  {
    if s == [] then -1
    else if s[0] == '\n' then 0
    else
      var r := LineEnd(s[1..]);
      if r == -1 then -1 else assert s[..r + 1] == [s[0]] + s[1..][..r]; r + 1
  }

  function TrimCR(line: Bytes): Bytes {
    if |line| > 0 && line[|line| - 1] == '\r' then line[..|line| - 1] else line
  }

  predicate Unmakeable(length: int) {
    length < 0 || length > MAX_MAKE
  }

  /** readFramedMessage as a function of the bytes still to come: header lines up to an empty
      one, the last Content-Length wins, then the body. */
  function FramedSpec(s: Bytes, contentLength: int): (FramedResult, Bytes)
    decreases |s|
  {
    var end := LineEnd(s);
    if end == -1 then (StreamEnded, [])
    else
      var line, rest := TrimCR(s[..end]), s[end + 1..];
      if line == "" then
        if contentLength == 0 then (NoContentLength, rest)
        else if Unmakeable(contentLength) then (LengthPanic, rest)
        else if |rest| < contentLength then (StreamEnded, [])
        else (Framed(rest[..contentLength]), rest[contentLength..])
      else if |line| > 16 && line[..16] == "Content-Length: " then
        match Atoi(line[16..])
        case None => (InvalidContentLength, rest)
        case Some(v) => FramedSpec(rest, v)
      else FramedSpec(rest, contentLength)
  }

  lemma {:induction false} LineEndUnique(s: Bytes, line: Bytes, rest: Bytes)
    requires s == line + rest && |line| > 0
    requires line[|line| - 1] == '\n' && '\n' !in line[..|line| - 1]
    ensures LineEnd(s) == |line| - 1
  {
    if |line| > 1 {
      assert line[0] in line[..|line| - 1];
      assert line[1..][..|line| - 2] == line[..|line| - 1][1..];
      LineEndUnique(s[1..], line[1..], rest);
    }
  }

  /** The broker reads back a frame exactly when its body is not empty; an empty body is
      reported as a missing header. */
  lemma BrokerRoundTrip(body: Bytes, more: Bytes)
    requires |body| <= MAX_MAKE
    ensures FramedSpec(Encode(body) + more, 0)
            == if body == [] then (NoContentLength, more) else (Framed(body), more)
  {
    hide Header, FramedSpec, Atoi, LengthDigits;
    var h := Header(|body|);
    HeaderText(|body|);
    AtoiOfDigits(|body|);
    assert Encode(body) + more == h + "\r\n" + ("\r\n" + (body + more));
    LengthLineRead(h, "\r\n" + (body + more), 0);
    BodyRead(body + more, |body|);
    assert (body + more)[..|body|] == body && (body + more)[|body|..] == more;
  }

  lemma LengthLineRead(line: Bytes, rest: Bytes, contentLength: int)
    requires '\n' !in line && '\r' !in line
    requires |line| > 16 && line[..16] == "Content-Length: " && Atoi(line[16..]).Some?
    ensures FramedSpec(line + "\r\n" + rest, contentLength) == FramedSpec(rest, Atoi(line[16..]).value)
  {
    hide Atoi, LineEnd;
    LineRead(line, rest);
  }

  lemma BodyRead(rest: Bytes, contentLength: nat)
    requires contentLength <= |rest| && contentLength <= MAX_MAKE
    ensures FramedSpec("\r\n" + rest, contentLength)
         == if contentLength == 0 then (NoContentLength, rest)
            else (Framed(rest[..contentLength]), rest[contentLength..])
  {
    hide Atoi, LineEnd;
    assert "" + "\r\n" + rest == "\r\n" + rest;
    LineRead("", rest);
  }

  /** A stream that starts with a complete line is cut behind it, without its terminator. */
  lemma LineRead(line: Bytes, rest: Bytes)
    requires '\n' !in line && '\r' !in line
    ensures var s := line + "\r\n" + rest;
            LineEnd(s) == |line| + 1 && TrimCR(s[..|line| + 1]) == line && s[|line| + 2..] == rest
  {
    hide LineEnd;
    var s := line + "\r\n" + rest;
    assert (line + "\r\n")[..|line| + 1] == line + "\r";
    assert '\n' !in line + "\r";
    LineEndUnique(s, line + "\r\n", rest);
    assert s[..|line| + 1] == line + "\r";
    assert (line + "\r")[..|line|] == line;
  }

  /** Headers of any kind in front of and between the length lines do not matter: if every length line
      holds a number and the last one the length of the body, the body is read back. */
  lemma BrokerReadsFrame(f: Frame, i: nat, more: Bytes)
    requires f.lines != [] && (forall line | line in f.lines :: IsHeaderLine(line)) && NumbersOnly(f.lines)
    requires LastLengthLine(f.lines, i) && BrokerLengthOn(f.lines[i]) == Some(|f.body|)
    requires f.body != [] && |f.body| <= MAX_MAKE
    ensures FramedSpec(Text(f) + more, 0) == (Framed(f.body), more)
  {
    hide FramedSpec, JoinLines, BrokerLengthOn;
    assert Text(f) + more == JoinLines(f.lines) + "\r\n" + ("\r\n" + (f.body + more));
    LinesRead(f.lines, "\r\n" + (f.body + more), 0);
    LastLengthIs(f.lines, i, 0);
    BodyRead(f.body + more, |f.body|);
    assert (f.body + more)[..|f.body|] == f.body && (f.body + more)[|f.body|..] == more;
  }

  /** The length in force behind the lines when `length` was in force before them. */
  function LengthAfter(lines: seq<Bytes>, length: int): int
    requires NumbersOnly(lines)
  {
    if lines == [] then length
    else LengthAfter(lines[1..], if IsBrokerLengthLine(lines[0]) then BrokerLengthOn(lines[0]).value else length)
  }

  lemma {:induction false} LastLengthIs(lines: seq<Bytes>, i: nat, length: int)
    requires NumbersOnly(lines) && LastLengthLine(lines, i)
    ensures LengthAfter(lines, length) == BrokerLengthOn(lines[i]).value
  {
    hide BrokerLengthOn, IsBrokerLengthLine;
    var length' := if IsBrokerLengthLine(lines[0]) then BrokerLengthOn(lines[0]).value else length;
    if i == 0 {
      assert forall j | 0 <= j < |lines| - 1 :: lines[1..][j] == lines[j + 1];
      NoLengthLines(lines[1..], length');
    } else {
      assert lines[1..][i - 1] == lines[i];
      LastLengthIs(lines[1..], i - 1, length');
    }
  }

  lemma {:induction false} NoLengthLines(lines: seq<Bytes>, length: int)
    requires NumbersOnly(lines) && forall i | 0 <= i < |lines| :: !IsBrokerLengthLine(lines[i])
    ensures LengthAfter(lines, length) == length
  {
    hide BrokerLengthOn, IsBrokerLengthLine;
    if lines != [] {
      NoLengthLines(lines[1..], length);
    }
  }

  lemma OtherLineRead(line: Bytes, rest: Bytes, length: int)
    requires IsHeaderLine(line) && (IsBrokerLengthLine(line) ==> BrokerLengthOn(line).Some?)
    ensures FramedSpec(line + "\r\n" + rest, length)
         == FramedSpec(rest, if IsBrokerLengthLine(line) then BrokerLengthOn(line).value else length)
  {
    hide Atoi, LineEnd;
    LineRead(line, rest);
  }

  lemma {:induction false} LinesRead(lines: seq<Bytes>, rest: Bytes, length: int)
    requires lines != [] && (forall line | line in lines :: IsHeaderLine(line)) && NumbersOnly(lines)
    ensures FramedSpec(JoinLines(lines) + "\r\n" + rest, length) == FramedSpec(rest, LengthAfter(lines, length))
    decreases |lines|
  {
    hide FramedSpec, BrokerLengthOn, IsBrokerLengthLine, IsHeaderLine;
    var line := lines[0];
    assert line in lines && forall l | l in lines[1..] :: l in lines;
    var length' := if IsBrokerLengthLine(line) then BrokerLengthOn(line).value else length;
    if |lines| == 1 {
      assert lines[1..] == [];
      OtherLineRead(line, rest, length);
    } else {
      var behind := JoinLines(lines[1..]) + "\r\n" + rest;
      assert JoinLines(lines) + "\r\n" + rest == line + "\r\n" + behind;
      OtherLineRead(line, behind, length);
      LinesRead(lines[1..], rest, length');
    }
  }

  // ---- Lengths the broker's reader cannot make room for ----

  predicate IsBrokerLengthLine(line: Bytes) {
    |line| > 16 && line[..16] == "Content-Length: "
  }

  /** The lines in front of the first empty one; None when the stream ends before that. */
  function HeaderLines(s: Bytes): Option<seq<Bytes>>
    decreases |s|
  {
    var end := LineEnd(s);
    if end == -1 then None
    else if TrimCR(s[..end]) == "" then Some([])
    else
      var behind := HeaderLines(s[end + 1..]);
      if behind.None? then None else Some([TrimCR(s[..end])] + behind.value)
  }

  function BrokerLengthOn(line: Bytes): Option<int> {
    if IsBrokerLengthLine(line) then Atoi(line[16..]) else None
  }

  predicate NumbersOnly(lines: seq<Bytes>) {
    forall i | 0 <= i < |lines| :: IsBrokerLengthLine(lines[i]) ==> BrokerLengthOn(lines[i]).Some?
  }

  predicate LastLengthLine(lines: seq<Bytes>, i: nat) {
    i < |lines| && IsBrokerLengthLine(lines[i]) && forall j | i < j < |lines| :: !IsBrokerLengthLine(lines[j])
  }

  predicate IsUnmakeable(line: Bytes) {
    BrokerLengthOn(line).Some? && Unmakeable(BrokerLengthOn(line).value)
  }

  /** The last length the header announces cannot be made; `length` is what earlier lines announced. */
  ghost predicate EndsUnmakeable(lines: seq<Bytes>, length: int) {
    || (exists i | 0 <= i < |lines| :: LastLengthLine(lines, i) && IsUnmakeable(lines[i]))
    || (Unmakeable(length) && forall i | 0 <= i < |lines| :: !IsBrokerLengthLine(lines[i]))
  }

  lemma EndsUnmakeableBehind(lines: seq<Bytes>, length: int)
    requires lines != [] && NumbersOnly(lines)
    ensures NumbersOnly(lines[1..])
    ensures EndsUnmakeable(lines, length) <==>
            EndsUnmakeable(lines[1..], if IsBrokerLengthLine(lines[0]) then BrokerLengthOn(lines[0]).value else length)
  {
    hide BrokerLengthOn, IsBrokerLengthLine;
    var rest := lines[1..];
    var length' := if IsBrokerLengthLine(lines[0]) then BrokerLengthOn(lines[0]).value else length;
    if i :| 0 <= i < |rest| && LastLengthLine(rest, i) && IsUnmakeable(rest[i]) {
      assert LastLengthLine(lines, i + 1) && IsUnmakeable(lines[i + 1]);
    }
    if i :| 0 <= i < |lines| && LastLengthLine(lines, i) && IsUnmakeable(lines[i]) {
      if i > 0 {
        assert LastLengthLine(rest, i - 1) && IsUnmakeable(rest[i - 1]);
      }
    }
    if Unmakeable(length') && IsBrokerLengthLine(lines[0]) && forall i | 0 <= i < |rest| :: !IsBrokerLengthLine(rest[i]) {
      assert LastLengthLine(lines, 0) && IsUnmakeable(lines[0]);
    }
  }

  lemma {:induction false} PanicsFrom(s: Bytes, length: int)
    ensures FramedSpec(s, length).0 == LengthPanic <==>
            HeaderLines(s).Some? && NumbersOnly(HeaderLines(s).value) && EndsUnmakeable(HeaderLines(s).value, length)
    decreases |s|
  {
    hide Atoi, LineEnd, TrimCR, EndsUnmakeable;
    var end := LineEnd(s);
    if end != -1 {
      var line, rest := TrimCR(s[..end]), s[end + 1..];
      if line == "" {
        NothingAnnounced(length);
      } else if IsBrokerLengthLine(line) && Atoi(line[16..]).None? {
        if HeaderLines(s).Some? {
          assert HeaderLines(s).value[0] == line;
        }
      } else {
        PanicsFrom(rest, if IsBrokerLengthLine(line) then Atoi(line[16..]).value else length);
        if HeaderLines(s).Some? {
          assert HeaderLines(s).value[1..] == HeaderLines(rest).value;
          FirstIsNumber(HeaderLines(s).value);
          if NumbersOnly(HeaderLines(s).value) {
            EndsUnmakeableBehind(HeaderLines(s).value, length);
          }
        }
      }
    }
  }

  lemma NothingAnnounced(length: int)
    ensures EndsUnmakeable([], length) <==> Unmakeable(length)
  {}

  lemma FirstIsNumber(lines: seq<Bytes>)
    requires lines != [] && (IsBrokerLengthLine(lines[0]) ==> BrokerLengthOn(lines[0]).Some?)
    ensures NumbersOnly(lines) <==> NumbersOnly(lines[1..])
  {
    hide BrokerLengthOn, IsBrokerLengthLine;
    assert forall i | 0 <= i < |lines| - 1 :: lines[1..][i] == lines[i + 1];
    assert forall i | 0 < i < |lines| :: lines[i] == lines[1..][i - 1];
  }

  /** The broker's reader makes room for the body before it reads any of it. It panics exactly on a
      complete header all of whose lengths are numbers and the last of whose lengths is negative or
      larger than make accepts. */
  lemma PanicIffUnmakeable(s: Bytes)
    ensures FramedSpec(s, 0).0 == LengthPanic <==>
            HeaderLines(s).Some? && NumbersOnly(HeaderLines(s).value) &&
            exists i | 0 <= i < |HeaderLines(s).value| ::
              LastLengthLine(HeaderLines(s).value, i) && IsUnmakeable(HeaderLines(s).value[i])
  {
    PanicsFrom(s, 0);
  }

  lemma TwoBreaks(line: Bytes, more: Bytes)
    ensures line + "\r\n\r\n" + more == line + "\r\n" + ("\r\n" + more)
  {
    assert "\r\n\r\n" == "\r\n" + "\r\n";
  }

  lemma MinusOnePanics(more: Bytes)
    ensures FramedSpec("Content-Length: -1\r\n\r\n" + more, 0) == (LengthPanic, more)
  {
    hide FramedSpec, LineEnd;
    var line: Bytes := "Content-Length: -1";
    assert line[16..] == "-1" && Atoi("-1") == Some(-1) by {
      assert "-1"[1..] == "1" && "1"[..0] == "";
      assert DigitsValue("1") == Some(1);
    }
    assert "Content-Length: -1\r\n\r\n" == line + "\r\n\r\n";
    TwoBreaks(line, more);
    LengthLineRead(line, "\r\n" + more, 0);
    EmptyLineRead(more, -1);
  }

  /** A length that is too large panics as well, even when all bytes of the body could never come. */
  lemma LargestLengthPanics(more: Bytes)
    ensures FramedSpec(Header(MAX_INT64) + "\r\n\r\n" + more, 0) == (LengthPanic, more)
  {
    hide Header, FramedSpec, Atoi, LengthDigits;
    var h := Header(MAX_INT64);
    HeaderText(MAX_INT64);
    AtoiOfDigits(MAX_INT64);
    TwoBreaks(h, more);
    LengthLineRead(h, "\r\n" + more, 0);
    EmptyLineRead(more, MAX_INT64);
  }

  lemma EmptyLineRead(rest: Bytes, contentLength: int)
    requires Unmakeable(contentLength)
    ensures FramedSpec("\r\n" + rest, contentLength) == (LengthPanic, rest)
  {
    hide Atoi, LineEnd;
    assert "" + "\r\n" + rest == "\r\n" + rest;
    LineRead("", rest);
  }

  class BufferedReader {
    var data: Bytes  // the bytes of the connection not yet consumed

    constructor (stream: Bytes)
      ensures data == stream
    {
      data := stream;
    }

    /** ReadString('\n'): a line with its terminator, or failure at the end of the stream. */
    method ReadString() returns (line: Bytes, ok: bool)
      modifies this
      ensures ok == ('\n' in old(data))
      ensures ok ==> old(data) == line + data && |line| > 0 && '\n' !in line[..|line| - 1] && line[|line| - 1] == '\n'
      ensures !ok ==> data == []
    {
      var end := LineEnd(data);
      if end == -1 {
        line, ok, data := data, false, [];
      } else {
        line, ok, data := data[..end + 1], true, data[end + 1..];
        assert line[..|line| - 1] == old(data)[..end];
      }
    }
  }

  method ReadFramedMessage(reader: BufferedReader) returns (out: FramedResult)
    modifies reader
    ensures (out, reader.data) == FramedSpec(old(reader.data), 0)
  {
    hide Atoi, LineEnd;
    var contentLength := 0;
    while true
      invariant FramedSpec(reader.data, contentLength) == FramedSpec(old(reader.data), 0)
      decreases |reader.data|
    {
      ghost var before := reader.data;
      var line, ok := reader.ReadString();
      if !ok {
        return StreamEnded;
      }
      LineEndUnique(before, line, reader.data);
      line := line[..|line| - 1];
      assert line == before[..|line|];
      if |line| > 0 && line[|line| - 1] == '\r' {
        line := line[..|line| - 1];
      }
      if line == "" {
        break;
      }
      if |line| > 16 && line[..16] == "Content-Length: " {
        var parsed := Atoi(line[16..]);
        if parsed.None? {
          return InvalidContentLength;
        }
        contentLength := parsed.value;
      }
    }
    if contentLength == 0 {
      return NoContentLength;
    }
    if Unmakeable(contentLength) {
      return LengthPanic;
    }
    if |reader.data| < contentLength {
      reader.data := [];
      return StreamEnded;
    }
    out := Framed(reader.data[..contentLength]);
    reader.data := reader.data[contentLength..];
  }
}
