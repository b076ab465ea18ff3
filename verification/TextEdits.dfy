/**
 Text edits: the range edit of internal/uri/uri.go and the back-to-front application of an edit
 list in internal/lsp/client.go. A text is a sequence of Unicode scalar values; a position
 counts UTF-16 code units, as LSP does.
 */
module TextEdits {
  import opened Wrappers

  datatype Position = Position(line: nat, character: nat)
  datatype Range = Range(start: Position, end: Position)
  datatype Edit = Edit(range: Range, text: string)

  // ---- Lines and UTF-16 units ----

  function Width(c: char): nat {
    if c > '\U{ffff}' then 2 else 1
  }

  function Units(s: string): nat {
    if s == [] then 0 else Width(s[0]) + Units(s[1..])
  }

  /** The index of the first newline, or the length. */
  function Newline(s: string): (n: nat)
    ensures n <= |s| && '\n' !in s[..n]
    ensures n < |s| ==> s[n] == '\n'
  {
    if s == [] || s[0] == '\n' then 0
    else
      var n := Newline(s[1..]);
      assert s[..n + 1] == [s[0]] + s[1..][..n];
      n + 1
  }

  function Split(s: string): (lines: seq<string>)
    ensures |lines| > 0
  {
    var n := Newline(s);
    if n == |s| then [s] else [s[..n]] + Split(s[n + 1..])
  }

  function Join(lines: seq<string>): string
    requires |lines| > 0
  {
    if |lines| == 1 then lines[0] else lines[0] + "\n" + Join(lines[1..])
  }

  /** How far into a line a count of UTF-16 units reaches: never into the middle of a character,
      never past the end. */
  function OffsetInLine(s: string, units: int): (off: nat)
    ensures off <= |s|
  {
    if s == [] || units < Width(s[0]) then 0 else 1 + OffsetInLine(s[1..], units - Width(s[0]))
  }

  method Utf16ToOffset(s: string, units: int) returns (off: nat)
    ensures off == OffsetInLine(s, units)
  {
    if units <= 0 {
      return 0;
    }
    var acc := 0;
    off := 0;
    while off < |s|
      invariant 0 <= off <= |s| && acc < units
      invariant OffsetInLine(s, units) == off + OffsetInLine(s[off..], units - acc)
    {
      var w := Width(s[off]);
      if acc + w > units {
        return off;
      }
      acc := acc + w;
      off := off + 1;
      if acc == units {
        return off;
      }
    }
  }

  function Clamp(line: nat, count: nat): (k: nat)
    requires count > 0
    ensures k < count
  {
    if line >= count then count - 1 else line
  }

  function Prefixed(lines: seq<string>, before: string): (r: seq<string>)
    requires |lines| > 0
    ensures |r| == |lines|
  {
    [before + lines[0]] + lines[1..]
  }

  function Suffixed(lines: seq<string>, after: string): (r: seq<string>)
    requires |lines| > 0
    ensures |r| == |lines|
  {
    lines[..|lines| - 1] + [lines[|lines| - 1] + after]
  }

  /** ApplyRangeEdit: work on the list of lines, then join it again. */
  function ApplyRangeEdit(content: string, range: Range, newText: string): string {
    var lines := Split(content);
    var startLine, endLine := Clamp(range.start.line, |lines|), Clamp(range.end.line, |lines|);
    var before := lines[startLine][..OffsetInLine(lines[startLine], range.start.character)];
    var after := lines[endLine][OffsetInLine(lines[endLine], range.end.character)..];
    Join(lines[..startLine] + Suffixed(Prefixed(Split(newText), before), after) + lines[endLine + 1..])
  }

  // ---- What a position counts ----

  /** The UTF-16 code units of a character. */
  function Utf16(c: char): (units: seq<int>) {
    var n := c as int;
    if n < 0x10000 then [n] else [0xd800 + (n - 0x10000) / 0x400, 0xdc00 + (n - 0x10000) % 0x400]
  }

  function Utf16Text(s: string): seq<int> {
    if s == [] then [] else Utf16(s[0]) + Utf16Text(s[1..])
  }

  lemma WidthIsUtf16(c: char)
    ensures Width(c) == |Utf16(c)| && forall u | u in Utf16(c) :: 0 <= u < 0x10000
  {}

  /** Units are the length of the text's UTF-16 encoding, every unit of which fits 16 bits. */
  lemma {:induction false} UnitsAreUtf16(s: string)
    ensures Units(s) == |Utf16Text(s)| && forall u | u in Utf16Text(s) :: 0 <= u < 0x10000
  {
    hide Utf16, Width;
    if s != [] {
      WidthIsUtf16(s[0]);
      UnitsAreUtf16(s[1..]);
    }
  }

  /** The offset in a line is the largest number of its characters whose units do not exceed the count. */
  lemma {:induction false} OffsetIsLargest(line: string, units: nat)
    ensures var off := OffsetInLine(line, units);
            Units(line[..off]) <= units && (off < |line| ==> Units(line[..off + 1]) > units)
  {
    if line != [] && Width(line[0]) <= units {
      OffsetIsLargest(line[1..], units - Width(line[0]));
      var off := OffsetInLine(line[1..], units - Width(line[0]));
      assert line[..off + 1][1..] == line[1..][..off];
      if off < |line[1..]| {
        assert line[..off + 2][1..] == line[1..][..off + 1];
      }
    } else if line != [] {
      assert line[..1][1..] == [] && line[..1][0] == line[0];
    }
  }

  // ---- A range edit is a splice ----

  /** The index a position denotes in a text, clamped to its lines and line ends. */
  function Offset(s: string, p: Position): (off: nat)
    ensures off <= |s|
    decreases |s|
  {
    var n := Newline(s);
    if p.line == 0 || n == |s| then OffsetInLine(s[..n], p.character)
    else n + 1 + Offset(s[n + 1..], Position(p.line - 1, p.character))
  }

  function Splice(s: string, from: nat, to: nat, text: string): string
    requires from <= |s| && to <= |s|
  {
    s[..from] + text + s[to..]
  }

  function Terminated(lines: seq<string>): string {
    if lines == [] then "" else lines[0] + "\n" + Terminated(lines[1..])
  }

  function Preceded(lines: seq<string>): string {
    if lines == [] then "" else "\n" + lines[0] + Preceded(lines[1..])
  }

  lemma Assoc(a: string, b: string, c: string)
    ensures a + b + c == a + (b + c)
  {}

  lemma JoinCons(x: string, ys: seq<string>)
    requires |ys| > 0
    ensures Join([x] + ys) == x + "\n" + Join(ys)
  {
    assert ([x] + ys)[1..] == ys;
  }

  lemma PrecededCons(x: string, ys: seq<string>)
    ensures Preceded([x] + ys) == "\n" + x + Preceded(ys)
  {
    assert ([x] + ys)[1..] == ys;
  }

  lemma {:induction false} JoinTerminated(xs: seq<string>, ys: seq<string>)
    requires |ys| > 0
    ensures Join(xs + ys) == Terminated(xs) + Join(ys)
  {
    if xs == [] {
      assert xs + ys == ys;
    } else {
      assert xs + ys == [xs[0]] + (xs[1..] + ys);
      JoinCons(xs[0], xs[1..] + ys);
      JoinTerminated(xs[1..], ys);
      Assoc(xs[0] + "\n", Terminated(xs[1..]), Join(ys));
    }
  }

  lemma {:induction false} JoinPreceded(ys: seq<string>, zs: seq<string>)
    requires |ys| > 0
    ensures Join(ys + zs) == Join(ys) + Preceded(zs)
    decreases |ys|
  {
    if |ys| > 1 {
      assert ys + zs == [ys[0]] + (ys[1..] + zs);
      JoinCons(ys[0], ys[1..] + zs);
      JoinPreceded(ys[1..], zs);
      Assoc(ys[0] + "\n", Join(ys[1..]), Preceded(zs));
    } else {
      assert ys + zs == [ys[0]] + zs;
      JoinFirst(ys[0], zs);
    }
  }

  lemma {:induction false} JoinFirst(y: string, zs: seq<string>)
    ensures Join([y] + zs) == y + Preceded(zs)
    decreases |zs|
  {
    if zs == [] {
      assert [y] + zs == [y];
    } else {
      JoinCons(y, zs);
      assert zs == [zs[0]] + zs[1..];
      JoinFirst(zs[0], zs[1..]);
      Assoc(y, "\n", zs[0] + Preceded(zs[1..]));
      Assoc("\n", zs[0], Preceded(zs[1..]));
    }
  }

  lemma CutLine(s: string, n: nat)
    requires n < |s| && s[n] == '\n'
    ensures s == s[..n] + "\n" + s[n + 1..]
  {}

  lemma {:induction false} JoinSplit(s: string)
    ensures Join(Split(s)) == s
    decreases |s|
  {
    var n := Newline(s);
    if n < |s| {
      JoinSplit(s[n + 1..]);
      JoinCons(s[..n], Split(s[n + 1..]));
      CutLine(s, n);
    }
  }

  lemma {:induction false} PrecededSplit(s: string)
    ensures Preceded(Split(s)) == "\n" + s
    decreases |s|
  {
    var n := Newline(s);
    if n < |s| {
      PrecededSplit(s[n + 1..]);
      PrecededCons(s[..n], Split(s[n + 1..]));
      CutLine(s, n);
      Assoc("\n", s[..n], "\n" + s[n + 1..]);
      Assoc(s[..n], "\n", s[n + 1..]);
    } else {
      assert Split(s) == [s] + [];
      PrecededCons(s, []);
    }
  }

  lemma JoinPrefixed(lines: seq<string>, before: string)
    requires |lines| > 0
    ensures Join(Prefixed(lines, before)) == before + Join(lines)
  {
    if |lines| > 1 {
      JoinCons(before + lines[0], lines[1..]);
      Assoc(before + lines[0], "\n", Join(lines[1..]));
      Assoc(before, lines[0], "\n" + Join(lines[1..]));
      Assoc(lines[0], "\n", Join(lines[1..]));
    } else {
      assert Prefixed(lines, before) == [before + lines[0]];
    }
  }

  lemma {:induction false} JoinSuffixed(lines: seq<string>, after: string)
    requires |lines| > 0
    ensures Join(Suffixed(lines, after)) == Join(lines) + after
  {
    if |lines| > 1 {
      JoinSuffixed(lines[1..], after);
      assert Suffixed(lines, after) == [lines[0]] + Suffixed(lines[1..], after);
      JoinCons(lines[0], Suffixed(lines[1..], after));
      Assoc(lines[0] + "\n", Join(lines[1..]), after);
    } else {
      assert Suffixed(lines, after) == [lines[0] + after];
    }
  }

  lemma BeforeLaterLine(first: string, rest: string, lines: seq<string>, k: nat, o: nat, off: nat)
    requires k < |lines| && o <= |lines[k]| && off <= |rest|
    requires rest[..off] == Terminated(lines[..k]) + lines[k][..o]
    ensures var all := [first] + lines;
            (first + "\n" + rest)[..|first| + 1 + off] == Terminated(all[..k + 1]) + all[k + 1][..o]
  {
    assert ([first] + lines)[..k + 1][1..] == lines[..k];
    assert (first + "\n" + rest)[..|first| + 1 + off] == first + "\n" + rest[..off];
    Assoc(first + "\n", Terminated(lines[..k]), lines[k][..o]);
  }

  lemma LaterLine(s: string, p: Position)
    requires Newline(s) < |s| && p.line > 0
    ensures var n := Newline(s);
            var rest, q := s[n + 1..], Position(p.line - 1, p.character);
            && s == s[..n] + "\n" + rest
            && Split(s) == [s[..n]] + Split(rest)
            && Offset(s, p) == n + 1 + Offset(rest, q)
            && Clamp(p.line, |Split(s)|) == 1 + Clamp(q.line, |Split(rest)|)
  {
    hide OffsetInLine, Units, Newline;
    var n := Newline(s);
    assert s == s[..n] + "\n" + s[n + 1..];
  }

  lemma TextBeforeFirstLine(s: string, off: nat)
    requires off <= Newline(s)
    ensures s[..off] == Terminated(Split(s)[..0]) + Split(s)[0][..off]
  {
    assert Terminated(Split(s)[..0]) == "";
    assert Split(s)[0] == s[..Newline(s)];
  }

  /** What a line-wise edit keeps in front of its start is the text before that offset. */
  lemma {:induction false} TextBefore(s: string, p: Position)
    ensures var lines := Split(s);
            var k := Clamp(p.line, |lines|);
            s[..Offset(s, p)] == Terminated(lines[..k]) + lines[k][..OffsetInLine(lines[k], p.character)]
    decreases |s|
  {
    hide OffsetInLine, Join, Terminated;
    var n := Newline(s);
    if n < |s| && p.line > 0 {
      var first, rest, q := s[..n], s[n + 1..], Position(p.line - 1, p.character);
      LaterLine(s, p);
      hide Split, Newline, Offset;
      TextBefore(rest, q);
      var lines := Split(rest);
      var k := Clamp(q.line, |lines|);
      BeforeLaterLine(first, rest, lines, k, OffsetInLine(lines[k], p.character), Offset(rest, q));
    } else {
      TextBeforeFirstLine(s, OffsetInLine(s[..n], p.character));
      assert Split(s)[0] == s[..n] && Clamp(p.line, |Split(s)|) == 0;
    }
  }

  lemma AfterLaterLine(first: string, rest: string, lines: seq<string>, k: nat, o: nat, off: nat)
    requires k < |lines| && o <= |lines[k]| && off <= |rest|
    requires rest[off..] == lines[k][o..] + Preceded(lines[k + 1..])
    ensures var all := [first] + lines;
            (first + "\n" + rest)[|first| + 1 + off..] == all[k + 1][o..] + Preceded(all[k + 2..])
  {
    hide Split, Newline;
    assert ([first] + lines)[k + 2..] == lines[k + 1..];
    assert (first + "\n" + rest)[|first| + 1 + off..] == rest[off..];
  }

  /** What a line-wise edit keeps behind its end is the text after that offset. */
  lemma {:induction false} TextAfter(s: string, p: Position)
    ensures var lines := Split(s);
            var k := Clamp(p.line, |lines|);
            s[Offset(s, p)..] == lines[k][OffsetInLine(lines[k], p.character)..] + Preceded(lines[k + 1..])
    decreases |s|
  {
    hide OffsetInLine, Join, Preceded;
    var n := Newline(s);
    if n < |s| && p.line > 0 {
      var first, rest, q := s[..n], s[n + 1..], Position(p.line - 1, p.character);
      LaterLine(s, p);
      hide Split, Newline, Offset;
      TextAfter(rest, q);
      var lines := Split(rest);
      var k := Clamp(q.line, |lines|);
      AfterLaterLine(first, rest, lines, k, OffsetInLine(lines[k], p.character), Offset(rest, q));
    } else {
      TextAfterFirstLine(s, OffsetInLine(s[..n], p.character));
      assert Split(s)[0] == s[..n] && Clamp(p.line, |Split(s)|) == 0;
    }
  }

  lemma TailSplit(s: string, n: nat, off: nat)
    requires off <= n < |s| && s[n] == '\n'
    ensures s[off..] == s[..n][off..] + ("\n" + s[n + 1..])
  {}

  lemma TextAfterFirstLine(s: string, off: nat)
    requires off <= Newline(s)
    ensures s[off..] == Split(s)[0][off..] + Preceded(Split(s)[1..])
  {
    var n := Newline(s);
    if n < |s| {
      PrecededSplit(s[n + 1..]);
      assert Split(s)[1..] == Split(s[n + 1..]);
      TailSplit(s, n, off);
    } else {
      assert s[..n] == s && Split(s)[1..] == [];
    }
  }

  lemma Assoc5(a: string, b: string, t: string, c: string, d: string)
    ensures a + ((b + t) + c) + d == (a + b) + t + (c + d)
  {}

  /** Splitting, patching lines and joining replaces exactly the text between the two positions. */
  lemma RangeEditIsSplice(content: string, range: Range, newText: string)
    ensures ApplyRangeEdit(content, range, newText)
         == Splice(content, Offset(content, range.start), Offset(content, range.end), newText)
  {
    hide OffsetInLine, Join, Split, Offset, Terminated, Preceded, Prefixed, Suffixed;
    var lines := Split(content);
    var startLine, endLine := Clamp(range.start.line, |lines|), Clamp(range.end.line, |lines|);
    var before := lines[startLine][..OffsetInLine(lines[startLine], range.start.character)];
    var after := lines[endLine][OffsetInLine(lines[endLine], range.end.character)..];
    EditedLines(lines[..startLine], before, newText, after, lines[endLine + 1..]);
    TextBefore(content, range.start);
    TextAfter(content, range.end);
  }

  /** The joined result of an edited line list, regrouped as text before, new text, text after. */
  lemma EditedLines(xs: seq<string>, before: string, newText: string, after: string, zs: seq<string>)
    ensures Join(xs + Suffixed(Prefixed(Split(newText), before), after) + zs)
         == (Terminated(xs) + before) + newText + (after + Preceded(zs))
  {
    var prefixed := Prefixed(Split(newText), before);
    JoinSplit(newText);
    JoinPrefixed(Split(newText), before);
    JoinSuffixed(prefixed, after);
    JoinTerminated(xs, Suffixed(prefixed, after));
    JoinPreceded(xs + Suffixed(prefixed, after), zs);
    Assoc5(Terminated(xs), before, newText, after, Preceded(zs));
  }

  lemma OnlyLine(s: string, p: Position)
    requires Newline(s) == |s|
    ensures |Split(s)| == 1 && Offset(s, p) == OffsetInLine(s, p.character)
  {
    hide OffsetInLine;
    assert s[..|s|] == s;
  }

  lemma LaterLineCount(s: string, p: Position)
    requires Newline(s) < |s| && p.line > 0
    ensures var rest := s[Newline(s) + 1..];
            && |Split(s)| == 1 + |Split(rest)|
            && Offset(s, p) == Newline(s) + 1 + Offset(rest, Position(p.line - 1, p.character))
  {
    hide OffsetInLine;
    LaterLine(s, p);
  }

  /** A line that does not exist stands for the last one. */
  lemma {:induction false} MissingLineIsLast(s: string, p: Position)
    requires p.line >= |Split(s)|
    ensures Offset(s, p) == Offset(s, Position(|Split(s)| - 1, p.character))
    decreases |s|
  {
    hide OffsetInLine, Split, Offset, Newline;
    if Newline(s) < |s| {
      var rest := s[Newline(s) + 1..];
      LaterLineCount(s, p);
      LaterLineCount(s, Position(|Split(rest)|, p.character));
      MissingLineIsLast(rest, Position(p.line - 1, p.character));
    } else {
      OnlyLine(s, p);
      OnlyLine(s, Position(0, p.character));
    }
  }

  // ---- Positions that exist in a text ----

  function Advance(p: Position, c: char): Position {
    if c == '\n' then Position(p.line + 1, 0) else Position(p.line, p.character + Width(c))
  }

  /** The position of index i, the inverse of Offset on existing positions. */
  function PositionAt(s: string, i: nat): Position
    requires i <= |s|
  {
    if i == 0 then Position(0, 0) else Advance(PositionAt(s, i - 1), s[i - 1])
  }

  /** p lies on a character boundary of s or at a line end: a client can compute it from s. */
  predicate OnText(s: string, p: Position) {
    exists i: nat | i <= |s| :: PositionAt(s, i) == p
  }

  lemma {:induction false} PositionDependsOnPrefix(s: string, s': string, i: nat)
    requires i <= |s| && i <= |s'| && s[..i] == s'[..i]
    ensures PositionAt(s, i) == PositionAt(s', i)
  {
    if i > 0 {
      assert s[..i - 1] == s[..i][..i - 1] == s'[..i][..i - 1] == s'[..i - 1];
      assert s[i - 1] == s[..i][i - 1] == s'[..i][i - 1];
      PositionDependsOnPrefix(s, s', i - 1);
    }
  }

  lemma {:induction false} UnitsAppend(s: string, i: nat)
    requires i < |s|
    ensures Units(s[..i + 1]) == Units(s[..i]) + Width(s[i])
  {
    if i > 0 {
      assert s[..i + 1][1..] == s[1..][..i];
      assert s[..i][1..] == s[1..][..i - 1];
      UnitsAppend(s[1..], i - 1);
    }
  }

  lemma {:induction false} PositionOnFirstLine(s: string, i: nat)
    requires i <= Newline(s)
    ensures PositionAt(s, i) == Position(0, Units(s[..i]))
  {
    if i > 0 {
      PositionOnFirstLine(s, i - 1);
      UnitsAppend(s, i - 1);
      assert s[i - 1] in s[..Newline(s)];
    }
  }

  lemma {:induction false} PositionAfterFirstLine(s: string, i: nat)
    requires Newline(s) < i <= |s|
    ensures var n := Newline(s);
            var q := PositionAt(s[n + 1..], i - n - 1);
            PositionAt(s, i) == Position(q.line + 1, q.character)
  {
    var n := Newline(s);
    if i == n + 1 {
      PositionOnFirstLine(s, n);
    } else {
      PositionAfterFirstLine(s, i - 1);
    }
  }

  /** A unit count that covers a prefix continues behind it. */
  lemma {:induction false} OffsetPastPrefix(a: string, b: string, units: int)
    requires Units(a) <= units
    ensures OffsetInLine(a + b, units) == |a| + OffsetInLine(b, units - Units(a))
  {
    if a == [] {
      assert a + b == b;
    } else {
      assert (a + b)[1..] == a[1..] + b;
      OffsetPastPrefix(a[1..], b, units - Width(a[0]));
    }
  }

  lemma {:induction false} NewlineOf(line: string, rest: string)
    requires '\n' !in line && (rest == "" || rest[0] == '\n')
    ensures Newline(line + rest) == |line|
  {
    if line == "" {
      assert line + rest == rest;
    } else {
      assert line[0] in line;
      assert (line + rest)[1..] == line[1..] + rest;
      NewlineOf(line[1..], rest);
    }
  }

  lemma OffsetOnFirstLine(line: string, after: string, p: Position)
    requires '\n' !in line && (after == "" || after[0] == '\n') && p.line == 0
    ensures Offset(line + after, p) == OffsetInLine(line, p.character)
  {
    NewlineOf(line, after);
    assert (line + after)[..|line|] == line;
  }

  lemma OffsetBelow(first: string, rest: string, p: Position)
    requires '\n' !in first && p.line > 0
    ensures Offset(first + ("\n" + rest), p) == |first| + 1 + Offset(rest, Position(p.line - 1, p.character))
    ensures |Split(first + ("\n" + rest))| == 1 + |Split(rest)|
  {
    NewlineOf(first, "\n" + rest);
    assert (first + ("\n" + rest))[|first| + 1..] == rest;
  }

  lemma PositionBelow(first: string, rest: string, i: nat)
    requires '\n' !in first && i <= |rest|
    ensures var q := PositionAt(rest, i);
            PositionAt(first + ("\n" + rest), |first| + 1 + i) == Position(q.line + 1, q.character)
  {
    hide Units, Width, Advance;
    var s := first + ("\n" + rest);
    NewlineOf(first, "\n" + rest);
    assert s[|first| + 1..] == rest;
    PositionAfterFirstLine(s, |first| + 1 + i);
  }

  lemma OffsetOfFirstLineUnits(s: string, i: nat)
    requires i <= Newline(s)
    ensures Offset(s, Position(0, Units(s[..i]))) == i
  {
    var line := s[..Newline(s)];
    assert s[..i] == line[..i] && line[..i] + line[i..] == line;
    OffsetPastPrefix(line[..i], line[i..], Units(line[..i]));
  }

  /** The offset of an existing position is the index it came from. */
  lemma {:induction false} OffsetOfPosition(s: string, i: nat)
    requires i <= |s|
    ensures Offset(s, PositionAt(s, i)) == i
    decreases |s|
  {
    hide Offset, PositionAt, Units;
    var n := Newline(s);
    if i <= n {
      PositionOnFirstLine(s, i);
      OffsetOfFirstLineUnits(s, i);
    } else {
      var first, rest, k := s[..n], s[n + 1..], i - n - 1;
      assert s == first + ("\n" + rest) && i == |first| + 1 + k;
      OffsetOfPosition(rest, k);
      OffsetOfPositionBelow(first, rest, k);
    }
  }

  lemma OffsetOfPositionBelow(first: string, rest: string, i: nat)
    requires '\n' !in first && i <= |rest|
    requires Offset(rest, PositionAt(rest, i)) == i
    ensures var s := first + ("\n" + rest);
            Offset(s, PositionAt(s, |first| + 1 + i)) == |first| + 1 + i
  {
    PositionBelow(first, rest, i);
    OffsetBelow(first, rest, PositionAt(first + ("\n" + rest), |first| + 1 + i));
  }

  /** Text behind an existing position does not move it. */
  lemma OffsetIsStable(s: string, s': string, p: Position, bound: nat)
    requires OnText(s, p) && Offset(s, p) <= bound
    requires bound <= |s| && bound <= |s'| && s[..bound] == s'[..bound]
    ensures Offset(s', p) == Offset(s, p)
  {
    var i: nat :| i <= |s| && PositionAt(s, i) == p;
    OffsetOfPosition(s, i);
    assert s[..i] == s[..bound][..i] == s'[..bound][..i] == s'[..i];
    PositionDependsOnPrefix(s, s', i);
    OffsetOfPosition(s', i);
  }

  // ---- Edit lists ----

  /** The edits folded from last to first. */
  function ApplyBackward(s: string, edits: seq<Edit>): string {
    if edits == [] then s else ApplyRangeEdit(ApplyBackward(s, edits[1..]), edits[0].range, edits[0].text)
  }

  /** applyEditsToFileExpecting up to the write: the new file content, or nothing when the file
      no longer holds what the edits were computed against. */
  method ApplyEdits(data: string, edits: seq<Edit>, expected: string, check: bool) returns (written: Option<string>)
    ensures written == if check && data != expected then None else Some(ApplyBackward(data, edits))
  {
    if check && data != expected {
      return None;
    }
    var content := data;
    var i := |edits| - 1;
    while i >= 0
      invariant -1 <= i < |edits|
      invariant content == ApplyBackward(data, edits[i + 1..])
    {
      content := ApplyRangeEdit(content, edits[i].range, edits[i].text);
      assert edits[i..][1..] == edits[i + 1..];
      i := i - 1;
    }
    return Some(content);
  }

  /** Ranges in ascending order without overlap, all measured in the original text. */
  predicate Ascending(s: string, edits: seq<Edit>, from: nat) {
    edits == [] ||
    (var a, b := Offset(s, edits[0].range.start), Offset(s, edits[0].range.end);
     from <= a <= b && Ascending(s, edits[1..], b))
  }

  /** The original from an index on, with every range replaced at once. */
  function Simultaneous(s: string, edits: seq<Edit>, from: nat): string
    requires from <= |s| && Ascending(s, edits, from)
  {
    if edits == [] then s[from..]
    else
      var a, b := Offset(s, edits[0].range.start), Offset(s, edits[0].range.end);
      s[from..a] + edits[0].text + Simultaneous(s, edits[1..], b)
  }

  /** A position keeps its offset whatever is written from index `next` on: it exists in the text, or
      its line does and the character it is clamped to comes before `next`. */
  predicate Held(s: string, p: Position, next: nat) {
    OnText(s, p) || (p.line < |Split(s)| && Offset(s, p) < next)
  }

  /** Each edit's positions are held up to the start of the edit behind it. The last edit is applied
      to the original itself. */
  predicate AllHeld(s: string, edits: seq<Edit>) {
    |edits| < 2 ||
    (var next := Offset(s, edits[1].range.start);
     Held(s, edits[0].range.start, next) && Held(s, edits[0].range.end, next) && AllHeld(s, edits[1..]))
  }

  lemma {:induction false} SameUnitsReached(line: string, line': string, units: int, m: nat)
    requires m <= |line| && m <= |line'| && line[..m] == line'[..m] && OffsetInLine(line, units) < m
    ensures OffsetInLine(line', units) == OffsetInLine(line, units)
  {
    assert line[0] == line[..m][0] == line'[..m][0] == line'[0];
    if units >= Width(line[0]) {
      assert line[1..][..m - 1] == line[..m][1..] == line'[..m][1..] == line'[1..][..m - 1];
      SameUnitsReached(line[1..], line'[1..], units - Width(line[0]), m - 1);
    }
  }

  lemma {:induction false} NewlineIsStable(s: string, s': string, m: nat)
    requires m <= |s| && m <= |s'| && s[..m] == s'[..m]
    ensures if Newline(s) < m then Newline(s') == Newline(s) else Newline(s') >= m
  {
    if m > 0 {
      assert s[0] == s[..m][0] == s'[..m][0] == s'[0];
      if s[0] != '\n' {
        assert s[1..][..m - 1] == s[..m][1..] == s'[..m][1..] == s'[1..][..m - 1];
        NewlineIsStable(s[1..], s'[1..], m - 1);
      }
    }
  }

  lemma ClampedOnFirstLineIsStable(s: string, s': string, units: nat, next: nat)
    requires OffsetInLine(s[..Newline(s)], units) < next
    requires next <= |s| && next <= |s'| && s[..next] == s'[..next]
    ensures OffsetInLine(s'[..Newline(s')], units) == OffsetInLine(s[..Newline(s)], units)
  {
    hide OffsetInLine;
    var n, n' := Newline(s), Newline(s');
    NewlineIsStable(s, s', next);
    if n < next {
      assert s[..n] == s[..next][..n] == s'[..next][..n] == s'[..n'];
    } else {
      assert s[..n][..next] == s[..next] == s'[..n'][..next];
      SameUnitsReached(s[..n], s'[..n'], units, next);
    }
  }

  lemma {:induction false} ClampedIsStable(s: string, s': string, p: Position, next: nat)
    requires p.line < |Split(s)| && Offset(s, p) < next
    requires next <= |s| && next <= |s'| && s[..next] == s'[..next]
    ensures Offset(s', p) == Offset(s, p)
    decreases |s|
  {
    hide OffsetInLine;
    var n := Newline(s);
    if p.line == 0 {
      ClampedOnFirstLineIsStable(s, s', p.character, next);
    } else {
      NewlineIsStable(s, s', next);
      LaterLine(s, p);
      LaterLine(s', p);
      var m := next - n - 1;
      assert s[n + 1..][..m] == s[..next][n + 1..] == s'[..next][n + 1..] == s'[n + 1..][..m];
      ClampedIsStable(s[n + 1..], s'[n + 1..], Position(p.line - 1, p.character), m);
    }
  }

  lemma HeldIsStable(s: string, s': string, p: Position, next: nat)
    requires Held(s, p, next) && Offset(s, p) <= next
    requires next <= |s| && next <= |s'| && s[..next] == s'[..next]
    ensures Offset(s', p) == Offset(s, p)
  {
    hide Offset, Split;
    if OnText(s, p) {
      OffsetIsStable(s, s', p, next);
    } else {
      ClampedIsStable(s, s', p, next);
    }
  }

  lemma SpliceBehindPrefix(s: string, tail: string, a: nat, b: nat, from: nat, text: string)
    requires from <= a <= b <= |s|
    ensures Splice(s[..b] + tail, a, b, text) == s[..from] + (s[from..a] + text + tail)
  {
    assert (s[..b] + tail)[..a] == s[..from] + s[from..a];
    assert (s[..b] + tail)[b..] == tail;
  }

  /** Folding single splices from last to first replaces every range at once. */
  lemma {:induction false} BackwardIsSimultaneous(s: string, edits: seq<Edit>, from: nat)
    requires from <= |s| && Ascending(s, edits, from)
    requires AllHeld(s, edits)
    ensures ApplyBackward(s, edits) == s[..from] + Simultaneous(s, edits, from)
    decreases |edits|
  {
    hide Offset, Split, ApplyRangeEdit, Held;
    if edits != [] {
      var e := edits[0];
      var a, b := Offset(s, e.range.start), Offset(s, e.range.end);
      var tail := Simultaneous(s, edits[1..], b);
      BackwardIsSimultaneous(s, edits[1..], b);
      var s' := s[..b] + tail;
      RangeEditIsSplice(s', e.range, e.text);
      if |edits| == 1 {
        assert s' == s;
      } else {
        var next := Offset(s, edits[1].range.start);
        assert s[..b] + s[b..next] == s[..next] == s'[..next];
        HeldIsStable(s, s', e.range.start, next);
        HeldIsStable(s, s', e.range.end, next);
      }
      SpliceBehindPrefix(s, tail, a, b, from, e.text);
    }
  }

  // ---- Which positions are safe to share ----

  function Insert(p: Position, text: string): Edit {
    Edit(Range(p, p), text)
  }

  /** Two inserts at p always come out in list order. */
  ghost predicate KeepsInsertOrder(s: string, p: Position) {
    forall first: string, second: string ::
      ApplyBackward(s, [Insert(p, first), Insert(p, second)])
      == Splice(s, Offset(s, p), Offset(s, p), first + second)
  }

  /** A text whose insertion at a position that does not exist moves that position. */
  function Displacing(s: string, p: Position): string {
    if p.line >= |Split(s)| then "\n" else "x"
  }

  lemma {:induction false} UnitsReached(s: string, units: nat)
    ensures Units(s[..OffsetInLine(s, units)]) <= units
  {
    if s != [] && Width(s[0]) <= units {
      UnitsReached(s[1..], units - Width(s[0]));
      var o := OffsetInLine(s[1..], units - Width(s[0]));
      assert s[..o + 1][1..] == s[1..][..o];
    }
  }

  /** The position is behind the displacing text once that text has been inserted at it. */
  predicate Moves(s: string, p: Position) {
    var off := Offset(s, p);
    Offset(Splice(s, off, off, Displacing(s, p)), p) > off
  }

  lemma MovesFrom(s: string, p: Position, off: nat, text: string, s': string)
    requires off == Offset(s, p) && text == Displacing(s, p)
    requires s' == Splice(s, off, off, text) && Offset(s', p) > off
    ensures Moves(s, p)
  {}

  lemma ClampedUnitsMove(line: string, units: nat)
    requires Units(line[..OffsetInLine(line, units)]) != units
    ensures var off := OffsetInLine(line, units);
            OffsetInLine(line[..off] + ("x" + line[off..]), units) > off
  {
    var off := OffsetInLine(line, units);
    UnitsReached(line, units);
    OffsetPastPrefix(line[..off], "x" + line[off..], units);
  }

  lemma ClampedUnitsDiffer(line: string, after: string, p: Position)
    requires '\n' !in line && (after == "" || after[0] == '\n')
    requires p.line == 0 && !OnText(line + after, p)
    ensures Units(line[..OffsetInLine(line, p.character)]) != p.character
  {
    var s, off := line + after, OffsetInLine(line, p.character);
    NewlineOf(line, after);
    PositionOnFirstLine(s, off);
    assert s[..off] == line[..off];
    assert PositionAt(s, off) != p;
  }

  lemma ClampedOnFirstLineMoves(line: string, after: string, p: Position)
    requires '\n' !in line && (after == "" || after[0] == '\n')
    requires p.line == 0 && !OnText(line + after, p)
    ensures Moves(line + after, p)
  {
    var off := OffsetInLine(line, p.character);
    OffsetOnFirstLine(line, after, p);
    ClampedUnitsDiffer(line, after, p);
    ClampedUnitsMove(line, p.character);
    var line' := line[..off] + ("x" + line[off..]);
    SpliceOnFirstLine(line, after, off, "x");
    OffsetOnFirstLine(line', after, p);
    MovesFrom(line + after, p, off, "x", line' + after);
  }

  lemma SpliceOnFirstLine(line: string, after: string, off: nat, text: string)
    requires off <= |line|
    ensures Splice(line + after, off, off, text) == line[..off] + (text + line[off..]) + after
  {}

  lemma SpliceIn(s: string, at: nat, text: string)
    requires at <= |s|
    ensures Splice(s, at, at, text) == s[..at] + (text + s[at..])
  {}

  lemma SingleLine(s: string)
    requires '\n' !in s
    ensures |Split(s)| == 1
  {
    NewlineOf(s, "");
    assert s + "" == s;
  }

  /** A newline written anywhere into a single line moves a position on a later line behind it. */
  lemma NewLineMoves(s: string, p: Position, next: nat)
    requires '\n' !in s && p.line > 0 && next <= |s|
    ensures |Split(s)| == 1 && Offset(Splice(s, next, next, "\n"), p) > next
  {
    hide Newline, Split, Offset, Splice, OffsetInLine;
    SingleLine(s);
    assert '\n' !in s[..next];
    OffsetBelow(s[..next], s[next..], p);
    SpliceIn(s, next, "\n");
  }

  lemma OnTextBelow(first: string, rest: string, p: Position)
    requires '\n' !in first && p.line > 0
    requires OnText(rest, Position(p.line - 1, p.character))
    ensures OnText(first + ("\n" + rest), p)
  {
    var i: nat :| i <= |rest| && PositionAt(rest, i) == Position(p.line - 1, p.character);
    PositionBelow(first, rest, i);
  }

  lemma {:induction false} ClampedPositionMoves(s: string, p: Position)
    requires !OnText(s, p)
    ensures Moves(s, p)
    decreases |s|
  {
    var n := Newline(s);
    if p.line == 0 {
      assert s == s[..n] + s[n..];
      ClampedOnFirstLineMoves(s[..n], s[n..], p);
    } else if n == |s| {
      assert s[..n] == s;
      NewLineMoves(s, p, Offset(s, p));
    } else {
      var first, rest, q := s[..n], s[n + 1..], Position(p.line - 1, p.character);
      assert s == first + ("\n" + rest);
      if OnText(rest, q) {
        OnTextBelow(first, rest, p);
        assert false;
      }
      ClampedPositionMoves(rest, q);
      MovesBelow(first, rest, p);
    }
  }

  lemma MovesBelow(first: string, rest: string, p: Position)
    requires '\n' !in first && p.line > 0
    requires Moves(rest, Position(p.line - 1, p.character))
    ensures Moves(first + ("\n" + rest), p)
  {
    hide Offset, Split, Splice;
    var q := Position(p.line - 1, p.character);
    var off, text := Offset(rest, q), Displacing(rest, q);
    OffsetBelow(first, rest, p);
    SpliceBelow(first, rest, off, text);
    OffsetBelow(first, Splice(rest, off, off, text), p);
    MovesFrom(first + ("\n" + rest), p, |first| + 1 + off, text, first + ("\n" + Splice(rest, off, off, text)));
  }

  lemma SpliceBelow(first: string, rest: string, off: nat, text: string)
    requires off <= |rest|
    ensures Splice(first + ("\n" + rest), |first| + 1 + off, |first| + 1 + off, text)
         == first + ("\n" + Splice(rest, off, off, text))
  {}

  lemma NewLineBelow(first: string, rest: string, p: Position, next: nat)
    requires '\n' !in first && p.line > 0 && next <= |rest|
    requires Offset(Splice(rest, next, next, "\n"), Position(p.line - 1, p.character)) > next
    ensures var at := |first| + 1 + next;
            Offset(Splice(first + ("\n" + rest), at, at, "\n"), p) > at
  {
    hide Offset, Splice, Split;
    SpliceBelow(first, rest, next, "\n");
    OffsetBelow(first, Splice(rest, next, next, "\n"), p);
  }

  lemma MissingBelow(s: string, p: Position, next: nat)
    requires p.line >= |Split(s)| && Offset(s, p) <= next <= |s| && Newline(s) < |s|
    ensures var n := Newline(s);
            var first, rest, q := s[..n], s[n + 1..], Position(p.line - 1, p.character);
            && n < next && s == first + ("\n" + rest)
            && q.line >= |Split(rest)| && Offset(rest, q) <= next - n - 1
  {
    hide OffsetInLine;
    LaterLine(s, p);
    hide Newline, Split, Offset;
    var n := Newline(s);
    assert s == s[..n] + ("\n" + s[n + 1..]);
  }

  /** On a line that does not exist, a newline written anywhere behind the clamped position moves it. */
  lemma {:induction false} MissingLineMoves(s: string, p: Position, next: nat)
    requires p.line >= |Split(s)| && Offset(s, p) <= next <= |s|
    ensures Offset(Splice(s, next, next, "\n"), p) > next
    decreases |s|
  {
    hide Newline, Split, Offset, Splice;
    var n := Newline(s);
    if n == |s| {
      assert s[..n] == s;
      NewLineMoves(s, p, next);
    } else {
      var first, rest, m := s[..n], s[n + 1..], next - n - 1;
      MissingBelow(s, p, next);
      MissingLineMoves(rest, Position(p.line - 1, p.character), m);
      NewLineBelow(first, rest, p, m);
    }
  }

  /** A position that is not held moves when its displacing text is inserted at `next`. */
  lemma UnheldMoves(s: string, p: Position, next: nat)
    requires !Held(s, p, next) && Offset(s, p) <= next <= |s|
    ensures Offset(Splice(s, next, next, Displacing(s, p)), p) > Offset(s, p)
  {
    hide Offset, Split, OnText, Splice;
    if p.line < |Split(s)| {
      ClampedPositionMoves(s, p);
    } else {
      MissingLineMoves(s, p, next);
    }
  }

  // ---- Exactly when a list of edits is safe ----

  /** The same ranges with other texts. */
  function Retext(edits: seq<Edit>, texts: seq<string>): (r: seq<Edit>)
    requires |texts| == |edits|
    ensures |r| == |edits|
  {
    if edits == [] then [] else [Edit(edits[0].range, texts[0])] + Retext(edits[1..], texts[1..])
  }

  lemma RetextCons(edits: seq<Edit>, text: string, texts: seq<string>)
    requires edits != [] && |texts| == |edits| - 1
    ensures Retext(edits, [text] + texts) == [Edit(edits[0].range, text)] + Retext(edits[1..], texts)
    ensures Retext(edits, [text] + texts)[1..] == Retext(edits[1..], texts)
  {
    assert ([text] + texts)[1..] == texts;
  }

  lemma {:induction false} RetextKeeps(s: string, edits: seq<Edit>, texts: seq<string>, from: nat)
    requires |texts| == |edits| && Ascending(s, edits, from)
    ensures Ascending(s, Retext(edits, texts), from)
    ensures AllHeld(s, edits) ==> AllHeld(s, Retext(edits, texts))
    decreases |edits|
  {
    hide Offset, Held;
    if edits != [] {
      RetextKeeps(s, edits[1..], texts[1..], Offset(s, edits[0].range.end));
      assert Retext(edits, texts)[1..] == Retext(edits[1..], texts[1..]);
    }
  }

  /** The fold replaces the ranges at once. */
  predicate IsSimultaneous(s: string, edits: seq<Edit>, from: nat)
    requires from <= |s|
  {
    Ascending(s, edits, from) && ApplyBackward(s, edits) == s[..from] + Simultaneous(s, edits, from)
  }

  /** It does so whatever texts are written into the ranges. */
  ghost predicate AlwaysSimultaneous(s: string, edits: seq<Edit>, from: nat)
    requires from <= |s|
  {
    forall texts: seq<string> | |texts| == |edits| :: IsSimultaneous(s, Retext(edits, texts), from)
  }

  /** The texts that are in the ranges already. */
  function Present(s: string, edits: seq<Edit>, from: nat): (texts: seq<string>)
    requires Ascending(s, edits, from)
    ensures |texts| == |edits|
  {
    if edits == [] then []
    else
      var a, b := Offset(s, edits[0].range.start), Offset(s, edits[0].range.end);
      [s[a..b]] + Present(s, edits[1..], b)
  }

  lemma {:induction false} PresentChangesNothing(s: string, edits: seq<Edit>, from: nat)
    requires from <= |s| && Ascending(s, edits, from)
    ensures var es := Retext(edits, Present(s, edits, from));
            ApplyBackward(s, es) == s && Ascending(s, es, from) && Simultaneous(s, es, from) == s[from..]
    decreases |edits|
  {
    hide Offset, ApplyRangeEdit;
    if edits != [] {
      var e := edits[0];
      var a, b := Offset(s, e.range.start), Offset(s, e.range.end);
      PresentChangesNothing(s, edits[1..], b);
      RetextCons(edits, s[a..b], Present(s, edits[1..], b));
      RangeEditIsSplice(s, e.range, s[a..b]);
      assert s[..a] + s[a..b] + s[b..] == s;
      assert s[from..a] + s[a..b] + s[b..] == s[from..];
    }
  }

  /** One more text in front of the second range, and nothing else: the first edit finds the text
      changed from its neighbour's start on. */
  lemma DisplacedNeighbour(s: string, edits: seq<Edit>, from: nat, text: string) returns (texts: seq<string>)
    requires edits != [] && from <= |s| && Ascending(s, edits, from)
    ensures |texts| == |edits|
    ensures var es, next := Retext(edits, texts), Offset(s, edits[0].range.start);
            && ApplyBackward(s, es) == Splice(s, next, next, text)
            && Ascending(s, es, from) && s[..from] + Simultaneous(s, es, from) == Splice(s, next, next, text)
  {
    hide Offset, ApplyRangeEdit;
    var e := edits[0];
    var a, b := Offset(s, e.range.start), Offset(s, e.range.end);
    var others := Present(s, edits[1..], b);
    texts := [text + s[a..b]] + others;
    PresentChangesNothing(s, edits[1..], b);
    RetextCons(edits, text + s[a..b], others);
    RangeEditIsSplice(s, e.range, text + s[a..b]);
    assert s[a..b] + s[b..] == s[a..];
    Assoc(s[..a] + text, s[a..b], s[b..]);
    Assoc(s[..a], text, s[a..b]);
    assert s[..from] + s[from..a] == s[..a];
  }

  /** An edit whose position has moved writes its text to the wrong place. */
  lemma WrongSplice(s': string, a: nat, b: nat, a': nat, b': nat) returns (text: string)
    requires a <= b <= |s'| && a <= a' <= |s'| && b' <= |s'|
    requires a' > a || b' > b
    ensures Splice(s', a', b', text) != Splice(s', a, b, text)
    ensures a <= |Splice(s', a', b', text)| && Splice(s', a', b', text)[..a] == s'[..a]
  {
    if a' > a {
      text := if s'[a] == 'y' then "z" else "y";
      assert Splice(s', a', b', text)[a] == s'[a];
      assert Splice(s', a, b, text)[a] == text[0];
    } else {
      text := "";
      assert |Splice(s', a', b', text)| < |Splice(s', a, b, text)|;
    }
  }

  /** What one edit makes of the text the edits behind it have left, and what it should make. */
  lemma FirstEdit(s: string, edits: seq<Edit>, from: nat, text: string, others: seq<string>)
    requires edits != [] && |others| == |edits| - 1 && from <= |s| && Ascending(s, edits, from)
    ensures var a, b := Offset(s, edits[0].range.start), Offset(s, edits[0].range.end);
            var es, behind := Retext(edits, [text] + others), Retext(edits[1..], others);
            var w := ApplyBackward(s, behind);
            && Ascending(s, behind, b) && Ascending(s, es, from)
            && ApplyBackward(s, es)
               == Splice(w, Offset(w, edits[0].range.start), Offset(w, edits[0].range.end), text)
            && s[..from] + Simultaneous(s, es, from) == s[..a] + text + Simultaneous(s, behind, b)
  {
    hide Offset, ApplyRangeEdit;
    var a, b := Offset(s, edits[0].range.start), Offset(s, edits[0].range.end);
    var w, tail := ApplyBackward(s, Retext(edits[1..], others)), [text] + others;
    RetextKeeps(s, edits[1..], others, b);
    RetextKeeps(s, edits, tail, from);
    RetextCons(edits, text, others);
    RangeEditIsSplice(w, edits[0].range, text);
    assert s[..from] + s[from..a] == s[..a];
    var rest := Simultaneous(s, Retext(edits[1..], others), b);
    Assoc(s[..from], s[from..a] + text, rest);
    Assoc(s[..from], s[from..a], text);
  }

  lemma SpliceParts(w: string, a: nat, b: nat)
    requires a <= b <= |w|
    ensures Splice(w, a, b, "") == w[..a] + "" + w[b..]
    ensures Splice(w, a, b, "")[a..] == w[b..] && Splice(w, a, b, "")[..a] == w[..a]
  {}

  lemma HeldKeepsWrong(s: string, edits: seq<Edit>, from: nat, others: seq<string>)
    requires |edits| > 1 && |others| == |edits| - 1 && from <= |s| && Ascending(s, edits, from)
    requires var e, next := edits[0], Offset(s, edits[1].range.start);
             var behind := Retext(edits[1..], others);
             && Held(s, e.range.start, next) && Held(s, e.range.end, next)
             && !IsSimultaneous(s, behind, Offset(s, e.range.end))
             && next <= |ApplyBackward(s, behind)| && ApplyBackward(s, behind)[..next] == s[..next]
    ensures var es, a := Retext(edits, [""] + others), Offset(s, edits[0].range.start);
            && !IsSimultaneous(s, es, from)
            && a <= |ApplyBackward(s, es)| && ApplyBackward(s, es)[..a] == s[..a]
  {
    hide Offset, Held, Split;
    var e, next := edits[0], Offset(s, edits[1].range.start);
    var a, b := Offset(s, e.range.start), Offset(s, e.range.end);
    FirstEdit(s, edits, from, "", others);
    var w := ApplyBackward(s, Retext(edits[1..], others));
    HeldIsStable(s, w, e.range.start, next);
    HeldIsStable(s, w, e.range.end, next);
    var rest := Simultaneous(s, Retext(edits[1..], others), b);
    hide ApplyBackward, Simultaneous, Ascending, Retext, Splice;
    SpliceParts(w, a, b);
    assert w[..b] == w[..next][..b] == s[..b] && w[..a] == w[..next][..a] == s[..a];
    assert w == w[..b] + w[b..];
    assert (s[..a] + "" + w[b..])[a..] == w[b..];
    assert (s[..a] + "" + rest)[a..] == rest;
  }

  lemma BreakFirst(s: string, edits: seq<Edit>, from: nat) returns (texts: seq<string>)
    requires |edits| > 1 && from <= |s| && Ascending(s, edits, from)
    requires var e, next := edits[0], Offset(s, edits[1].range.start);
             !(Held(s, e.range.start, next) && Held(s, e.range.end, next))
    ensures |texts| == |edits|
    ensures var es, a := Retext(edits, texts), Offset(s, edits[0].range.start);
            && !IsSimultaneous(s, es, from)
            && a <= |ApplyBackward(s, es)| && ApplyBackward(s, es)[..a] == s[..a]
  {
    hide Offset, Held, Split, Displacing, ApplyBackward;
    var e, next := edits[0], Offset(s, edits[1].range.start);
    var a, b := Offset(s, e.range.start), Offset(s, e.range.end);
    var moving := if Held(s, e.range.start, next) then e.range.end else e.range.start;
    var others := DisplacedNeighbour(s, edits[1..], b, Displacing(s, moving));
    var w := Splice(s, next, next, Displacing(s, moving));
    assert w[..next] == s[..next] && w[..a] == s[..a];
    UnheldMoves(s, moving, next);
    if Held(s, e.range.start, next) {
      HeldIsStable(s, w, e.range.start, next);
    }
    var text := WrongSplice(w, a, b, Offset(w, e.range.start), Offset(w, e.range.end));
    texts := [text] + others;
    FirstEdit(s, edits, from, text, others);
    var rest := Simultaneous(s, Retext(edits[1..], others), b);
    hide Simultaneous;
    assert w[b..] == (s[..b] + rest)[b..] == rest;
  }

  /** Texts for which a list with a position that is not held goes wrong, behind the first start. */
  lemma {:induction false} BreakingTexts(s: string, edits: seq<Edit>, from: nat) returns (texts: seq<string>)
    requires from <= |s| && Ascending(s, edits, from) && !AllHeld(s, edits)
    ensures |texts| == |edits|
    ensures var es, a := Retext(edits, texts), Offset(s, edits[0].range.start);
            && !IsSimultaneous(s, es, from)
            && a <= |ApplyBackward(s, es)| && ApplyBackward(s, es)[..a] == s[..a]
    decreases |edits|
  {
    hide Offset, ApplyRangeEdit, Held, Split;
    var e, rest := edits[0], edits[1..];
    var a, b := Offset(s, e.range.start), Offset(s, e.range.end);
    var next := Offset(s, rest[0].range.start);
    if Held(s, e.range.start, next) && Held(s, e.range.end, next) {
      var others := BreakingTexts(s, rest, b);
      texts := [""] + others;
      HeldKeepsWrong(s, edits, from, others);
    } else {
      texts := BreakFirst(s, edits, from);
    }
  }

  /** A list of ascending ranges is replaced at once, whatever texts are written into them, exactly
      when the positions of each edit are held up to the start of the edit behind it. */
  lemma SimultaneousIffHeld(s: string, edits: seq<Edit>, from: nat)
    requires from <= |s| && Ascending(s, edits, from)
    ensures AlwaysSimultaneous(s, edits, from) <==> AllHeld(s, edits)
  {
    hide Offset, Held, ApplyBackward, Simultaneous, Ascending;
    if AllHeld(s, edits) {
      forall texts: seq<string> | |texts| == |edits| ensures IsSimultaneous(s, Retext(edits, texts), from) {
        RetextKeeps(s, edits, texts, from);
        BackwardIsSimultaneous(s, Retext(edits, texts), from);
      }
    } else {
      var texts := BreakingTexts(s, edits, from);
    }
  }

  lemma ApplyTwo(s: string, a: Edit, b: Edit)
    ensures ApplyBackward(s, [a, b]) == ApplyRangeEdit(ApplyRangeEdit(s, b.range, b.text), a.range, a.text)
  {
    assert [a, b][1..] == [b] && [b][1..] == [];
    assert ApplyBackward(s, [b]) == ApplyRangeEdit(s, b.range, b.text);
  }

  lemma ExistingPositionKeepsOrder(s: string, p: Position, first: string, second: string)
    requires OnText(s, p)
    ensures ApplyBackward(s, [Insert(p, first), Insert(p, second)]) == Splice(s, Offset(s, p), Offset(s, p), first + second)
  {
    hide ApplyBackward, ApplyRangeEdit, Offset, Split;
    var off := Offset(s, p);
    var s' := Splice(s, off, off, second);
    ApplyTwo(s, Insert(p, first), Insert(p, second));
    RangeEditIsSplice(s, Range(p, p), second);
    assert s'[..off] == s[..off];
    OffsetIsStable(s, s', p, off);
    RangeEditIsSplice(s', Range(p, p), first);
    SpliceTwice(s, off, first, second);
  }

  lemma SpliceTwice(s: string, off: nat, first: string, second: string)
    requires off <= |s|
    ensures Splice(Splice(s, off, off, second), off, off, first) == Splice(s, off, off, first + second)
  {
    var s' := Splice(s, off, off, second);
    assert s'[..off] == s[..off] && s'[off..] == second + s[off..];
    Assoc(s[..off] + first, second, s[off..]);
    Assoc(s[..off], first, second);
  }

  lemma MissingPositionBreaksOrder(s: string, p: Position)
    requires !OnText(s, p)
    ensures var off, second := Offset(s, p), Displacing(s, p);
            ApplyBackward(s, [Insert(p, "y"), Insert(p, second)]) != Splice(s, off, off, "y" + second)
  {
    hide ApplyBackward, ApplyRangeEdit, Offset, Split;
    var off, second := Offset(s, p), Displacing(s, p);
    var s' := Splice(s, off, off, second);
    ApplyTwo(s, Insert(p, "y"), Insert(p, second));
    RangeEditIsSplice(s, Range(p, p), second);
    ClampedPositionMoves(s, p);
    RangeEditIsSplice(s', Range(p, p), "y");
    var off' := Offset(s', p);
    assert Splice(s', off', off', "y")[off] == s'[off] == second[0];
    assert Splice(s, off, off, "y" + second)[off] == ("y" + second)[0];
  }

  /** LSP lets a character past the line end stand for the line end; the fold keeps two inserts
      at such a position in order only when the position really exists in the text. */
  lemma InsertOrderIffOnText(s: string, p: Position)
    ensures KeepsInsertOrder(s, p) <==> OnText(s, p)
  {
    if OnText(s, p) {
      forall first: string, second: string
        ensures ApplyBackward(s, [Insert(p, first), Insert(p, second)])
             == Splice(s, Offset(s, p), Offset(s, p), first + second)
      {
        ExistingPositionKeepsOrder(s, p, first, second);
      }
    } else {
      MissingPositionBreaksOrder(s, p);
    }
  }
}
