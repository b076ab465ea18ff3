/** The Codex configuration edit of cmd/agent-lsp/codex.go: TOML edited as text. */
module Codex {
  import opened Wrappers

  // ---- TOML basic strings ----

  function HexDigit(d: nat): char
    requires d < 16
  {
    if d < 10 then '0' + d as char else 'A' + (d - 10) as char
  }

  predicate IsControl(c: char) {
    c < ' ' || c == '\U{7f}'
  }

  function Escape(c: char): string {
    if c == '"' then "\\\""
    else if c == '\\' then "\\\\"
    else if c == '\n' then "\\n"
    else if c == '\r' then "\\r"
    else if c == '\t' then "\\t"
    else if c == '\U{8}' then "\\b"
    else if c == '\U{c}' then "\\f"
    else if IsControl(c) then "\\u00" + [HexDigit(c as int / 16), HexDigit(c as int % 16)]
    else [c]
  }

  function EscapeAll(s: string): string {
    if s == [] then [] else Escape(s[0]) + EscapeAll(s[1..])
  }

  function TomlString(s: string): string {
    "\"" + EscapeAll(s) + "\""
  }

  lemma {:induction false} EscapeAllAppend(s: string, c: char)
    ensures EscapeAll(s + [c]) == EscapeAll(s) + Escape(c)
  {
    hide Escape;
    if s == [] {
      assert [c][1..] == [] && EscapeAll([]) == [];
      assert EscapeAll([c]) == Escape(c) + EscapeAll([]);
      assert s + [c] == [c];
    } else {
      assert (s + [c])[1..] == s[1..] + [c];
      EscapeAllAppend(s[1..], c);
      Assoc(Escape(s[0]), EscapeAll(s[1..]), Escape(c));
    }
  }

  lemma Assoc(a: string, b: string, c: string)
    ensures a + b + c == a + (b + c)
  {}

  method TomlStringLoop(s: string) returns (r: string)
    ensures r == TomlString(s)
  {
    hide Escape;
    r := "\"";
    for i := 0 to |s|
      invariant r == "\"" + EscapeAll(s[..i])
    {
      EscapeAllAppend(s[..i], s[i]);
      assert s[..i + 1] == s[..i] + [s[i]];
      Assoc("\"", EscapeAll(s[..i]), Escape(s[i]));
      r := r + Escape(s[i]);
    }
    assert s[..|s|] == s;
    r := r + "\"";
  }

  lemma {:induction false} EscapedHasNoControl(s: string)
    ensures forall c | c in EscapeAll(s) :: !IsControl(c)
  {
    if s != [] {
      EscapedHasNoControl(s[1..]);
    }
  }

  /** The encoding never contains a raw newline or another control character. */
  lemma TomlHasNoControl(s: string)
    ensures forall c | c in TomlString(s) :: !IsControl(c)
  {
    EscapedHasNoControl(s);
  }

  // ---- Reading it back, as TOML v1.0.0 "String" prescribes ----

  function HexValue(c: char): Option<nat> {
    if '0' <= c <= '9' then Some(c as int - '0' as int)
    else if 'A' <= c <= 'F' then Some(c as int - 'A' as int + 10)
    else if 'a' <= c <= 'f' then Some(c as int - 'a' as int + 10)
    else None
  }

  function HexNumber(s: string): Option<nat> {
    if s == [] then Some(0)
    else
      var front, last := HexNumber(s[..|s| - 1]), HexValue(s[|s| - 1]);
      if front.None? || last.None? then None else Some(16 * front.value + last.value)
  }

  function ScalarValue(n: Option<nat>): Option<char> {
    if n.Some? && (n.value < 0xd800 || 0xe000 <= n.value < 0x110000) then Some(n.value as char) else None
  }

  function ShortEscape(c: char): Option<char> {
    match c
    case 'b' => Some('\U{8}')
    case 't' => Some('\t')
    case 'n' => Some('\n')
    case 'f' => Some('\U{c}')
    case 'r' => Some('\r')
    case '"' => Some('"')
    case '\\' => Some('\\')
    case _ => None
  }

  /** One character of a basic string, escaped or not, and how much text it took. */
  function ReadChar(t: string): Option<(char, nat)> {
    if t == [] || t[0] == '"' || (IsControl(t[0]) && t[0] != '\t') then None
    else if t[0] != '\\' then Some((t[0], 1))
    else if |t| < 2 then None
    else if t[1] == 'u' || t[1] == 'U' then
      var n := if t[1] == 'u' then 6 else 10;
      if |t| < n then None
      else
        var c := ScalarValue(HexNumber(t[2..n]));
        if c.None? then None else Some((c.value, n))
    else
      var c := ShortEscape(t[1]);
      if c.None? then None else Some((c.value, 2))
  }

  /** The rest of a basic string up to its closing quote, and the text behind it. */
  function ReadBody(t: string): (r: Option<(string, string)>)
    ensures r.Some? ==> |r.value.1| < |t|
  {
    if t == [] then None
    else if t[0] == '"' then Some(("", t[1..]))
    else
      var c := ReadChar(t);
      if c.None? || c.value.1 == 0 || c.value.1 > |t| then None
      else
        var rest := ReadBody(t[c.value.1..]);
        if rest.None? then None else Some(([c.value.0] + rest.value.0, rest.value.1))
  }

  function ReadString(t: string): (r: Option<(string, string)>)
    ensures r.Some? ==> |r.value.1| < |t|
  {
    if t == [] || t[0] != '"' then None else ReadBody(t[1..])
  }

  lemma HexRoundTrip(n: nat)
    requires n < 256
    ensures HexNumber("00" + [HexDigit(n / 16), HexDigit(n % 16)]) == Some(n)
  {
    var a, b := HexDigit(n / 16), HexDigit(n % 16);
    assert HexValue(a) == Some(n / 16) && HexValue(b) == Some(n % 16) && HexValue('0') == Some(0);
    var s1, s2, s3, s4 := "0", "00", "00" + [a], "00" + [a, b];
    assert s1[..0] == [] && s2[..1] == s1 && s3[..2] == s2 && s4[..3] == s3;
    assert HexNumber(s1) == Some(0) && HexNumber(s2) == Some(0);
    assert HexNumber(s3) == Some(n / 16);
  }

  lemma EscapeReadsBack(c: char, more: string)
    ensures ReadChar(Escape(c) + more) == Some((c, |Escape(c)|))
  {
    var t := Escape(c) + more;
    if IsControl(c) && |Escape(c)| == 6 {
      HexRoundTrip(c as int);
      assert t[2..6] == "00" + [HexDigit(c as int / 16), HexDigit(c as int % 16)];
    }
  }

  lemma {:induction false} BodyReadsBack(s: string, more: string)
    ensures ReadBody(EscapeAll(s) + "\"" + more) == Some((s, more))
  {
    hide ReadChar, Escape;
    var t := EscapeAll(s) + "\"" + more;
    if s == [] {
      assert t == "\"" + more;
    } else {
      var e, rest := Escape(s[0]), EscapeAll(s[1..]) + "\"" + more;
      assert t == e + rest;
      EscapeReadsBack(s[0], rest);
      EscapeStarts(s[0]);
      BodyReadsBack(s[1..], more);
      assert t[0] == e[0] && |e| <= |t| && t[|e|..] == rest;
      assert [s[0]] + s[1..] == s;
    }
  }

  lemma EscapeStarts(c: char)
    ensures |Escape(c)| > 0 && Escape(c)[0] != '"'
  {}

  /** Every string reads back from its encoding, whatever follows it. */
  lemma StringReadsBack(s: string, more: string)
    ensures ReadString(TomlString(s) + more) == Some((s, more))
  {
    hide EscapeAll, ReadBody;
    BodyReadsBack(s, more);
    assert (TomlString(s) + more)[1..] == EscapeAll(s) + "\"" + more;
  }

  // ---- The table ----

  function JoinQuoted(args: seq<string>): string {
    if args == [] then ""
    else if |args| == 1 then TomlString(args[0])
    else TomlString(args[0]) + ", " + JoinQuoted(args[1..])
  }

  const HEADER: string := "[mcp_servers.agent-lsp]\n"

  function CommandLine(): string {
    "command = " + TomlString("agent-lsp") + "\n"
  }

  function ArgsLine(args: seq<string>): string {
    "args = [" + JoinQuoted(args) + "]\n"
  }

  function ServerTable(args: seq<string>): string {
    HEADER + (CommandLine() + ArgsLine(args))
  }

  /** The elements of an array of basic strings, up to its closing bracket. */
  function ReadElements(t: string): Option<(seq<string>, string)>
    decreases |t|
  {
    if t == [] then None
    else if t[0] == ']' then Some(([], t[1..]))
    else
      var first := ReadString(t);
      if first.None? then None
      else
        var rest := first.value.1;
        var next := if |rest| >= 2 && rest[..2] == ", " then rest[2..] else rest;
        var others := ReadElements(next);
        if others.None? then None else Some(([first.value.0] + others.value.0, others.value.1))
  }

  /** The args array reads back as the list it was written from. */
  lemma {:induction false} ArgsReadBack(args: seq<string>, more: string)
    ensures ReadElements(JoinQuoted(args) + "]" + more) == Some((args, more))
    decreases |args|
  {
    hide ReadString, TomlString;
    var t := JoinQuoted(args) + "]" + more;
    if args == [] {
      assert t == "]" + more;
    } else {
      TomlStarts(args[0]);
      if |args| == 1 {
        var rest := "]" + more;
        assert t == TomlString(args[0]) + rest;
        StringReadsBack(args[0], rest);
        assert |rest| >= 2 ==> rest[..2][0] == ']';
        assert rest[1..] == more && ReadElements(rest) == Some(([], more));
        assert [args[0]] + [] == args;
      } else {
        var rest := JoinQuoted(args[1..]) + "]" + more;
        assert t == TomlString(args[0]) + (", " + rest);
        StringReadsBack(args[0], ", " + rest);
        assert (", " + rest)[..2] == ", " && (", " + rest)[2..] == rest;
        ArgsReadBack(args[1..], more);
        assert args == [args[0]] + args[1..];
      }
    }
  }

  lemma TomlStarts(s: string)
    ensures |TomlString(s)| > 0 && TomlString(s)[0] == '"'
  {}

  // ---- Lines and headers ----

  predicate IsSpace(c: char) {
    || '\t' <= c <= '\r' || c == ' ' || c == '\U{85}' || c == '\U{a0}' || c == '\U{1680}'
    || '\U{2000}' <= c <= '\U{200a}' || c == '\U{2028}' || c == '\U{2029}' || c == '\U{202f}'
    || c == '\U{205f}' || c == '\U{3000}'
  }

  function TrimLeft(s: string): string {
    if s != [] && IsSpace(s[0]) then TrimLeft(s[1..]) else s
  }

  function TrimRight(s: string): string {
    if s != [] && IsSpace(s[|s| - 1]) then TrimRight(s[..|s| - 1]) else s
  }

  function TrimSpace(s: string): string {
    TrimLeft(TrimRight(s))
  }

  /** The text before the first '#', or all of it. */
  function BeforeComment(s: string): string {
    if s == [] || s[0] == '#' then [] else [s[0]] + BeforeComment(s[1..])
  }

  predicate IsHeader(line: string) {
    "[" <= TrimSpace(line)
  }

  predicate NamesServer(name: string, form: string) {
    name == form || form + "." <= name
  }

  predicate IsServerHeader(line: string) {
    var trimmed := TrimSpace(line);
    var t := if '#' in trimmed then TrimSpace(BeforeComment(trimmed)) else trimmed;
    if !("[" <= t) || "[[" <= t || t[|t| - 1] != ']' then false
    else
      var name := TrimSpace(t[1..|t| - 1]);
      NamesServer(name, "mcp_servers.agent-lsp") || NamesServer(name, "mcp_servers.\"agent-lsp\"")
  }

  /** strings.SplitAfter(s, "\n"). */
  function Lines(s: string): (lines: seq<string>)
    ensures |lines| > 0
  {
    var n := LineEnd(s);
    if n == |s| then [s] else [s[..n + 1]] + Lines(s[n + 1..])
  }

  function LineEnd(s: string): (n: nat)
    ensures n <= |s| && '\n' !in s[..n] && (n < |s| ==> s[n] == '\n')
  {
    if s == [] || s[0] == '\n' then 0
    else
      var n := LineEnd(s[1..]);
      assert s[..n + 1] == [s[0]] + s[1..][..n];
      n + 1
  }

  function Concat(lines: seq<string>): string {
    if lines == [] then [] else lines[0] + Concat(lines[1..])
  }

  // ---- Removing tables ----

  /** The nearest header line at or before line i, or -1. */
  function Section(lines: seq<string>, i: int): (h: int)
    requires i < |lines|
    ensures h == -1 || (0 <= h <= i && IsHeader(lines[h]))
    decreases i + 1
  {
    if i < 0 then -1 else if IsHeader(lines[i]) then i else Section(lines, i - 1)
  }

  /** A line belongs to the server's tables when the nearest header above it names the server. */
  predicate InServerTable(lines: seq<string>, i: int)
    requires i < |lines|
  {
    var h := Section(lines, i);
    h >= 0 && IsServerHeader(lines[h])
  }

  /** The first n lines without those of the server's tables. */
  function OtherLines(lines: seq<string>, n: nat): seq<string>
    requires n <= |lines|
  {
    if n == 0 then []
    else OtherLines(lines, n - 1) + (if InServerTable(lines, n - 1) then [] else [lines[n - 1]])
  }

  function Remove(content: string): string {
    Concat(OtherLines(Lines(content), |Lines(content)|))
  }

  method RemoveCodexServerTables(content: string) returns (text: string, removed: bool)
    ensures text == Remove(content)
    ensures removed <==> exists i | 0 <= i < |Lines(content)| ::
                          IsHeader(Lines(content)[i]) && IsServerHeader(Lines(content)[i])
  {
    hide IsHeader, IsServerHeader;
    var lines := Lines(content);
    var out: seq<string> := [];
    removed := false;
    var inTable := false;
    for i := 0 to |lines|
      invariant out == OtherLines(lines, i)
      invariant inTable == InServerTable(lines, i - 1)
      invariant removed <==> exists k | 0 <= k < i :: IsHeader(lines[k]) && IsServerHeader(lines[k])
    {
      if IsHeader(lines[i]) {
        inTable := IsServerHeader(lines[i]);
        if inTable {
          removed := true;
          continue;
        }
      }
      if !inTable {
        out := out + [lines[i]];
      }
    }
    text := Concat(out);
    assert lines == Lines(content);
  }

  // ---- Writing ----

  function TrimNewlines(s: string): string {
    if s != [] && s[|s| - 1] == '\n' then TrimNewlines(s[..|s| - 1]) else s
  }

  /** What writeCodexConfig puts before the table. */
  function Preamble(content: string): string {
    var kept := TrimNewlines(Remove(content));
    if kept == "" then "" else kept + "\n\n"
  }

  function Write(content: string, args: seq<string>): string {
    Preamble(content) + ServerTable(args)
  }

  // ---- Text without server tables ----

  predicate Clean(s: string) {
    forall l | l in Lines(s) :: !IsServerHeader(l)
  }

  predicate IsLine(l: string) {
    l != [] && l[|l| - 1] == '\n' && '\n' !in l[..|l| - 1]
  }

  lemma {:induction false} LineEndOf(l: string, rest: string)
    requires IsLine(l)
    ensures LineEnd(l + rest) == |l| - 1
  {
    if |l| > 1 {
      assert l[0] in l[..|l| - 1];
      assert l[1..][..|l| - 2] == l[..|l| - 1][1..];
      assert (l + rest)[1..] == l[1..] + rest;
      LineEndOf(l[1..], rest);
    }
  }

  lemma LinesCons(l: string, rest: string)
    requires IsLine(l)
    ensures Lines(l + rest) == [l] + Lines(rest)
  {
    LineEndOf(l, rest);
    assert (l + rest)[..|l|] == l && (l + rest)[|l|..] == rest;
  }

  lemma CutAt(s: string, n: nat)
    requires n <= |s|
    ensures s == s[..n] + s[n..]
  {}

  lemma FirstLineIsLine(s: string)
    requires LineEnd(s) < |s|
    ensures IsLine(s[..LineEnd(s) + 1])
  {
    hide LineEnd;
    var n := LineEnd(s);
    assert s[..n + 1][..n] == s[..n];
  }

  /** A text with a newline is its first line followed by the rest. */
  lemma FirstLine(s: string)
    requires LineEnd(s) < |s|
    ensures var n := LineEnd(s);
            IsLine(s[..n + 1]) && s == s[..n + 1] + s[n + 1..] && Lines(s) == [s[..n + 1]] + Lines(s[n + 1..])
  {
    hide LineEnd, IsLine, Lines;
    FirstLineIsLine(s);
    CutAt(s, LineEnd(s) + 1);
    LinesCons(s[..LineEnd(s) + 1], s[LineEnd(s) + 1..]);
  }

  lemma ConcatCons(l: string, lines: seq<string>)
    ensures Concat([l] + lines) == l + Concat(lines)
  {
    assert ([l] + lines)[1..] == lines;
  }

  lemma {:induction false} LinesShape(s: string)
    ensures forall i | 0 <= i < |Lines(s)| - 1 :: IsLine(Lines(s)[i])
    ensures '\n' !in Lines(s)[|Lines(s)| - 1]
    ensures Concat(Lines(s)) == s
    decreases |s|
  {
    hide IsLine, Concat;
    var n := LineEnd(s);
    if n < |s| {
      FirstLine(s);
      LinesShape(s[n + 1..]);
      ConcatCons(s[..n + 1], Lines(s[n + 1..]));
    } else {
      assert Lines(s) == [s] + [] && s[..n] == s;
      ConcatCons(s, []);
      assert Concat([]) == [] by { ConcatEmpty(); }
    }
  }

  lemma ConcatEmpty()
    ensures Concat([]) == []
  {}

  lemma {:induction false} ConcatIsClean(lines: seq<string>)
    requires forall i | 0 <= i < |lines| :: !IsServerHeader(lines[i])
    requires forall i | 0 <= i < |lines| - 1 :: IsLine(lines[i])
    requires lines != [] ==> IsLine(lines[|lines| - 1]) || '\n' !in lines[|lines| - 1]
    ensures Clean(Concat(lines))
  {
    hide IsServerHeader;
    EmptyIsClean();
    if lines == [] {
    } else if IsLine(lines[0]) {
      ConcatIsClean(lines[1..]);
      LinesCons(lines[0], Concat(lines[1..]));
    } else {
      assert lines[1..] == [];
      NoNewlineIsOneLine(lines[0]);
      assert Concat(lines) == lines[0];
    }
  }

  lemma EmptyIsClean()
    ensures Clean("") && !IsServerHeader("")
  {
    assert TrimSpace("") == "";
    assert Lines("") == [""];
  }

  lemma {:induction false} NoNewlineIsOneLine(s: string)
    requires '\n' !in s
    ensures LineEnd(s) == |s| && Lines(s) == [s]
  {
    if s != [] {
      assert s[0] in s;
      NoNewlineIsOneLine(s[1..]);
    }
  }

  lemma {:induction false} OtherLinesAreOther(lines: seq<string>, n: nat)
    requires n <= |lines|
    requires forall i | 0 <= i < |lines| - 1 :: IsLine(lines[i])
    requires forall i | 0 <= i < |lines| :: IsServerHeader(lines[i]) ==> IsHeader(lines[i])
    ensures var out := OtherLines(lines, n);
            && (forall i | 0 <= i < |out| :: !IsServerHeader(out[i]))
            && (forall i | 0 <= i < |out| - 1 :: IsLine(out[i]))
            && (n < |lines| && out != [] ==> IsLine(out[|out| - 1]))
            && (out != [] ==> IsLine(out[|out| - 1]) || out[|out| - 1] == lines[|lines| - 1])
  {
    hide IsHeader, IsServerHeader, IsLine;
    if n > 0 {
      OtherLinesAreOther(lines, n - 1);
    }
  }

  lemma {:induction false} TrimLeftKeeps(s: string)
    ensures TrimLeft(s) == s || (s != [] && IsSpace(s[0]))
    ensures TrimLeft(s) != [] ==> !IsSpace(TrimLeft(s)[0])
  {
    hide IsSpace;
    if s != [] && IsSpace(s[0]) {
      TrimLeftKeeps(s[1..]);
    }
  }

  lemma {:induction false} TrimRightPrefix(s: string)
    ensures TrimRight(s) <= s
  {
    hide IsSpace;
    if s != [] && IsSpace(s[|s| - 1]) {
      TrimRightPrefix(s[..|s| - 1]);
    }
  }

  lemma ServerHeaderIsHeader(line: string)
    requires IsServerHeader(line)
    ensures IsHeader(line)
  {
    hide IsSpace, NamesServer;
    var trimmed := TrimSpace(line);
    TrimLeftKeeps(TrimRight(line));
    if '#' in trimmed {
      var cut := BeforeComment(trimmed);
      BeforeCommentPrefix(trimmed);
      TrimRightPrefix(cut);
      if cut != [] {
        assert cut[0] == trimmed[0] && !IsSpace(cut[0]);
        TrimLeftKeeps(TrimRight(cut));
      }
    }
  }

  lemma {:induction false} BeforeCommentPrefix(s: string)
    ensures BeforeComment(s) <= s
  {
    if s != [] && s[0] != '#' {
      BeforeCommentPrefix(s[1..]);
    }
  }

  // ---- Which headers name the server ----

  predicate IsBlank(s: string) {
    forall c | c in s :: IsSpace(c)
  }

  lemma {:induction false} TrimLeftBlank(blank: string, s: string)
    requires IsBlank(blank)
    ensures TrimLeft(blank + s) == TrimLeft(s)
  {
    hide IsSpace;
    if blank == "" {
      assert blank + s == s;
    } else {
      assert blank[0] in blank && (blank + s)[1..] == blank[1..] + s;
      assert forall c | c in blank[1..] :: c in blank;
      TrimLeftBlank(blank[1..], s);
    }
  }

  lemma {:induction false} TrimRightBlank(s: string, blank: string)
    requires IsBlank(blank)
    ensures TrimRight(s + blank) == TrimRight(s)
  {
    hide IsSpace;
    if blank == "" {
      assert s + blank == s;
    } else {
      var front := blank[..|blank| - 1];
      assert blank[|blank| - 1] in blank && (s + blank)[..|s + blank| - 1] == s + front;
      assert forall c | c in front :: c in blank;
      TrimRightBlank(s, front);
    }
  }

  /** Trimming takes the blanks off a text that neither starts nor ends with one. */
  lemma TrimBlanks(before: string, s: string, behind: string)
    requires IsBlank(before) && IsBlank(behind) && s != "" && !IsSpace(s[0]) && !IsSpace(s[|s| - 1])
    ensures TrimSpace(before + s + behind) == s
  {
    hide IsSpace;
    TrimRightBlank(before + s, behind);
    assert (before + s)[|before + s| - 1] == s[|s| - 1];
    assert TrimRight(before + s) == before + s;
    TrimLeftBlank(before, s);
  }

  lemma {:induction false} CommentCut(s: string, comment: string)
    requires '#' !in s && comment != "" && comment[0] == '#'
    ensures BeforeComment(s + comment) == s
  {
    if s == "" {
      assert s + comment == comment;
    } else {
      assert s[0] in s && (s + comment)[1..] == s[1..] + comment;
      CommentCut(s[1..], comment);
    }
  }

  predicate IsPlainName(name: string) {
    name != "" && '#' !in name && name[0] != '[' && !IsSpace(name[0]) && !IsSpace(name[|name| - 1])
  }

  /** The bracketed name of a header, with blanks inside and around it and a comment behind it. */
  function HeaderLine(name: string, left: string, right: string): string {
    "[" + (left + name + right) + "]"
  }

  lemma HeaderLineText(name: string, left: string, right: string)
    requires IsPlainName(name) && IsBlank(left) && IsBlank(right)
    ensures var t := HeaderLine(name, left, right);
            && "[" <= t && !("[[" <= t) && t[|t| - 1] == ']' && TrimSpace(t[1..|t| - 1]) == name
            && '#' !in t && t[0] == '[' && !IsSpace(t[0]) && !IsSpace(t[|t| - 1])
  {
    hide TrimSpace;
    var inner := left + name + right;
    var t := HeaderLine(name, left, right);
    TrimBlanks(left, name, right);
    assert t[1..|t| - 1] == inner;
    assert t[1] == inner[0] && inner[0] == (if left == "" then name[0] else left[0]);
    if left != "" {
      assert left[0] in left;
    }
    BlankHasNoHash(left);
    BlankHasNoHash(right);
  }

  lemma BlankHasNoHash(blank: string)
    requires IsBlank(blank)
    ensures '#' !in blank
  {}

  /** A table header is taken for the server's exactly when its name is the server's, bare or quoted,
      or that of one of its sub-tables; names that only start alike, like agent-lsp-dev, are not. */
  lemma ServerHeaderIff(name: string, left: string, right: string, before: string, behind: string, comment: string)
    requires IsPlainName(name) && IsBlank(left) && IsBlank(right) && IsBlank(before) && IsBlank(behind)
    requires comment == "" || comment[0] == '#'
    ensures IsServerHeader(before + HeaderLine(name, left, right) + (behind + comment)) <==>
            || name == "mcp_servers.agent-lsp" || "mcp_servers.agent-lsp." <= name
            || name == "mcp_servers.\"agent-lsp\"" || "mcp_servers.\"agent-lsp\"." <= name
  {
    hide IsSpace, TrimSpace, HeaderLine, BeforeComment, IsServerHeader;
    var t := HeaderLine(name, left, right);
    var line := before + t + (behind + comment);
    HeaderLineText(name, left, right);
    if comment == "" {
      assert line == before + t + behind;
      TrimBlanks(before, t, behind);
    } else {
      HeaderWithComment(before, t, behind, comment);
    }
    NameDecides(line, t, name);
    BareAndQuoted(name);
  }

  /** A line whose text without blanks and comment is a bracketed name. */
  lemma NameDecides(line: string, t: string, name: string)
    requires var trimmed := TrimSpace(line);
             t == if '#' in trimmed then TrimSpace(BeforeComment(trimmed)) else trimmed
    requires "[" <= t && !("[[" <= t) && t[|t| - 1] == ']' && TrimSpace(t[1..|t| - 1]) == name
    ensures IsServerHeader(line) <==>
            NamesServer(name, "mcp_servers.agent-lsp") || NamesServer(name, "mcp_servers.\"agent-lsp\"")
  {
    hide TrimSpace, BeforeComment, NamesServer;
  }

  lemma BareAndQuoted(name: string)
    ensures NamesServer(name, "mcp_servers.agent-lsp") <==>
            name == "mcp_servers.agent-lsp" || "mcp_servers.agent-lsp." <= name
    ensures NamesServer(name, "mcp_servers.\"agent-lsp\"") <==>
            name == "mcp_servers.\"agent-lsp\"" || "mcp_servers.\"agent-lsp\"." <= name
  {
    assert "mcp_servers.agent-lsp" + "." == "mcp_servers.agent-lsp.";
    assert "mcp_servers.\"agent-lsp\"" + "." == "mcp_servers.\"agent-lsp\".";
  }

  lemma HeaderWithComment(before: string, t: string, behind: string, comment: string)
    requires IsBlank(before) && IsBlank(behind) && t != "" && !IsSpace(t[0]) && !IsSpace(t[|t| - 1]) && '#' !in t
    requires comment != "" && comment[0] == '#'
    ensures var trimmed := TrimSpace(before + t + (behind + comment));
            '#' in trimmed && TrimSpace(BeforeComment(trimmed)) == t
  {
    hide IsSpace, BeforeComment;
    HashIsNoSpace();
    TrimRightComment(before + t + behind, comment);
    var rest := TrimRight(comment);
    assert before + t + (behind + comment) == before + t + behind + comment;
    TrimRightStops(comment);
    TrimLeftBlank(before, t + behind + rest);
    assert before + t + behind + rest == before + (t + behind + rest);
    assert (t + behind + rest)[0] == t[0];
    assert (t + behind + rest)[|t + behind|] == '#';
    BlankHasNoHash(behind);
    CommentCut(t + behind, rest);
    TrimBlanks("", t, behind);
    assert "" + t + behind == t + behind;
  }

  lemma HashIsNoSpace()
    ensures !IsSpace('#')
  {}

  lemma {:induction false} TrimRightComment(s: string, comment: string)
    requires comment != "" && !IsSpace(comment[0])
    ensures TrimRight(s + comment) == s + TrimRight(comment)
  {
    hide IsSpace;
    var last := comment[|comment| - 1];
    assert (s + comment)[|s + comment| - 1] == last;
    if IsSpace(last) {
      assert (s + comment)[..|s + comment| - 1] == s + comment[..|comment| - 1];
      TrimRightComment(s, comment[..|comment| - 1]);
    }
  }

  // ---- What the written text looks like ----

  /** The table as a text. */
  lemma TableText(args: seq<string>)
    ensures ServerTable(args)
         == "[mcp_servers.agent-lsp]\n" + ("command = \"agent-lsp\"\n" + ("args = [" + JoinQuoted(args) + "]\n"))
  {
    hide JoinQuoted, TomlString;
    PlainString();
    CommandText("\"agent-lsp\"");
  }

  lemma CommandText(quoted: string)
    ensures quoted == "\"agent-lsp\"" ==> "command = " + quoted + "\n" == "command = \"agent-lsp\"\n"
  {}

  lemma PlainString()
    ensures TomlString("agent-lsp") == "\"agent-lsp\""
  {
    hide Escape, EscapeAll;
    forall c | c in "agent-lsp" ensures Escape(c) == [c] {
      PlainCharacter(c);
    }
    PlainEscape("agent-lsp");
  }

  lemma PlainCharacter(c: char)
    requires 'a' <= c <= 'z' || c == '-'
    ensures Escape(c) == [c]
  {}

  lemma {:induction false} PlainEscape(s: string)
    requires forall c | c in s :: Escape(c) == [c]
    ensures EscapeAll(s) == s
  {
    hide Escape;
    if s != "" {
      assert s[0] in s && forall c | c in s[1..] :: c in s;
      PlainEscape(s[1..]);
    }
  }

  /** What is kept of the old text, without newlines at its end, one blank line, and the table. */
  lemma WrittenText(content: string, args: seq<string>)
    ensures var kept := TrimNewlines(Remove(content));
            Write(content, args) == (if kept == "" then ServerTable(args) else kept + "\n\n" + ServerTable(args))
  {
    hide ServerTable, Remove;
  }

  /** What is left after removal has no server header in it. */
  lemma RemoveIsClean(content: string)
    ensures Clean(Remove(content))
  {
    hide IsServerHeader, IsHeader, IsLine;
    var lines := Lines(content);
    LinesShape(content);
    forall i | 0 <= i < |lines| ensures IsServerHeader(lines[i]) ==> IsHeader(lines[i]) {
      if IsServerHeader(lines[i]) { ServerHeaderIsHeader(lines[i]); }
    }
    OtherLinesAreOther(lines, |lines|);
    ConcatIsClean(OtherLines(lines, |lines|));
  }

  lemma {:induction false} CleanKeepsAll(lines: seq<string>, n: nat)
    requires n <= |lines|
    requires forall i | 0 <= i < n :: !IsServerHeader(lines[i])
    ensures OtherLines(lines, n) == lines[..n] && (n > 0 ==> !InServerTable(lines, n - 1))
  {
    hide IsServerHeader, IsHeader;
    if n > 0 {
      CleanKeepsAll(lines, n - 1);
    }
  }

  lemma NewlineTrimmed(l: string)
    ensures IsServerHeader(l + "\n") == IsServerHeader(l)
  {
    assert (l + "\n")[..|l|] == l;
  }

  lemma CleanCons(l: string, rest: string)
    requires IsLine(l)
    ensures Clean(l + rest) <==> !IsServerHeader(l) && Clean(rest)
  {
    hide IsServerHeader, Lines, IsLine;
    LinesCons(l, rest);
  }

  /** A text without a newline is clean when it is no server header, with or without one behind it. */
  lemma OneLineIsClean(s: string)
    requires LineEnd(s) == |s|
    ensures Clean(s) <==> !IsServerHeader(s)
    ensures Clean(s + "\n") <==> !IsServerHeader(s + "\n")
  {
    hide IsServerHeader, Clean;
    EmptyIsClean();
    assert (s + "\n")[..|s|] == s;
    CleanCons(s + "\n", "");
    assert s + "\n" + "" == s + "\n";
    if s == "" {
      EmptyIsNoHeader();
    } else {
      CleanSingle(s);
    }
  }

  lemma EmptyIsNoHeader()
    ensures !IsServerHeader("")
  {}

  lemma CleanSingle(s: string)
    requires s != "" && LineEnd(s) == |s|
    ensures Clean(s) <==> !IsServerHeader(s)
  {
    hide IsServerHeader;
    NoNewlineIsOneLine(s);
  }

  lemma {:induction false} CleanNewline(s: string)
    ensures Clean(s + "\n") == Clean(s)
    decreases |s|
  {
    hide IsServerHeader, Clean, Lines, IsLine;
    var n := LineEnd(s);
    if n == |s| {
      OneLineIsClean(s);
      NewlineTrimmed(s);
    } else {
      var l, rest := s[..n + 1], s[n + 1..];
      FirstLine(s);
      assert s + "\n" == l + (rest + "\n");
      CleanCons(l, rest);
      CleanCons(l, rest + "\n");
      CleanNewline(rest);
    }
  }

  lemma {:induction false} CleanTrimmed(s: string)
    ensures Clean(TrimNewlines(s)) == Clean(s)
  {
    hide Clean;
    if s != [] && s[|s| - 1] == '\n' {
      CleanTrimmed(s[..|s| - 1]);
      CleanNewline(s[..|s| - 1]);
      assert s == s[..|s| - 1] + "\n";
    }
  }

  predicate Terminated(s: string) {
    s == [] || s[|s| - 1] == '\n'
  }

  lemma PreambleIsClean(content: string)
    ensures Clean(Preamble(content)) && Terminated(Preamble(content))
  {
    hide Clean, Remove, TrimNewlines;
    RemoveIsClean(content);
    CleanTrimmed(Remove(content));
    var kept := TrimNewlines(Remove(content));
    CleanNewline(kept);
    CleanNewline(kept + "\n");
    assert kept + "\n" + "\n" == kept + "\n\n";
    EmptyIsClean();
  }

  // ---- A clean text followed by the table ----

  lemma {:induction false} LinesAppend(a: string, b: string)
    requires Terminated(a)
    ensures var n := |Lines(a)| - 1;
            Lines(a)[n] == "" && Lines(a + b) == Lines(a)[..n] + Lines(b)
    decreases |a|
  {
    hide IsLine, LineEnd;
    if a == [] {
      NoNewlineIsOneLine("");
      assert a + b == b;
    } else {
      TerminatedHasLine(a);
      FirstLine(a);
      var l, rest := a[..LineEnd(a) + 1], a[LineEnd(a) + 1..];
      LastOf(l, rest);
      LinesAppend(rest, b);
      LinesAppendLine(l, rest, b);
    }
  }

  lemma LastOf(l: string, rest: string)
    requires Terminated(l + rest)
    ensures Terminated(rest)
  {
    assert rest != [] ==> rest[|rest| - 1] == (l + rest)[|l + rest| - 1];
  }

  lemma LinesAppendLine(l: string, rest: string, b: string)
    requires IsLine(l)
    requires var k := |Lines(rest)| - 1; Lines(rest)[k] == "" && Lines(rest + b) == Lines(rest)[..k] + Lines(b)
    ensures var n := |Lines(l + rest)| - 1;
            Lines(l + rest)[n] == "" && Lines(l + rest + b) == Lines(l + rest)[..n] + Lines(b)
  {
    hide Lines, IsLine;
    Assoc(l, rest, b);
    LinesCons(l, rest);
    LinesCons(l, rest + b);
    var k := |Lines(rest)| - 1;
    assert Lines(l + rest)[..k + 1] == [l] + Lines(rest)[..k];
  }

  lemma {:induction false} TerminatedHasLine(a: string)
    requires a != [] && Terminated(a)
    ensures LineEnd(a) < |a|
  {
    if a[0] != '\n' {
      TerminatedHasLine(a[1..]);
    }
  }

  lemma {:induction false} JoinHasNoNewline(args: seq<string>)
    ensures '\n' !in JoinQuoted(args)
  {
    hide TomlString;
    if args != [] {
      TomlHasNoControl(args[0]);
      if |args| > 1 {
        JoinHasNoNewline(args[1..]);
      }
    }
  }

  lemma MakeLine(x: string)
    requires '\n' !in x
    ensures IsLine(x + "\n")
  {
    assert (x + "\n")[..|x|] == x;
  }

  lemma TableLines(args: seq<string>)
    ensures Lines(ServerTable(args)) == [HEADER, CommandLine(), ArgsLine(args), ""]
  {
    hide TomlString, JoinQuoted, Lines, LineEnd, IsLine;
    TomlHasNoControl("agent-lsp");
    JoinHasNoNewline(args);
    var cmd, arg := CommandLine(), ArgsLine(args);
    MakeLine("[mcp_servers.agent-lsp]");
    MakeLine("command = " + TomlString("agent-lsp"));
    MakeLine("args = [" + JoinQuoted(args) + "]");
    assert arg == "args = [" + JoinQuoted(args) + "]" + "\n";
    NoNewlineIsOneLine("");
    assert arg + "" == arg;
    LinesCons(arg, "");
    LinesCons(cmd, arg);
    LinesCons(HEADER, cmd + arg);
  }

  lemma StartsWithLetter(line: string)
    requires line != [] && 'a' <= line[0] <= 'z'
    ensures !IsHeader(line)
  {
    TrimRightStops(line);
  }

  lemma {:induction false} TrimRightStops(s: string)
    requires s != [] && !IsSpace(s[0])
    ensures TrimRight(s) != [] && TrimRight(s)[0] == s[0]
  {
    hide IsSpace;
    if IsSpace(s[|s| - 1]) {
      TrimRightStops(s[..|s| - 1]);
    }
  }

  const HEADER_TEXT: string := "[mcp_servers.agent-lsp]"

  lemma HeaderTrimmed()
    ensures TrimSpace(HEADER) == HEADER_TEXT && '#' !in HEADER_TEXT
  {
    assert HEADER[..|HEADER| - 1] == HEADER_TEXT;
    assert TrimRight(HEADER_TEXT) == HEADER_TEXT;
    assert TrimRight(HEADER) == HEADER_TEXT;
  }

  lemma HeaderNamesServer()
    ensures IsHeader(HEADER) && IsServerHeader(HEADER)
  {
    HeaderTrimmed();
    var name := "mcp_servers.agent-lsp";
    assert HEADER_TEXT[1..|HEADER_TEXT| - 1] == name;
    assert TrimSpace(name) == name;
    hide TrimSpace;
    assert HEADER_TEXT[0] == '[' && HEADER_TEXT[1] == 'm' && HEADER_TEXT[|HEADER_TEXT| - 1] == ']';
  }

  lemma {:induction false} SectionWithin(a: seq<string>, b: seq<string>, i: nat)
    requires i < |b| && b != [] && IsHeader(b[0])
    ensures Section(a + b, |a| + i) == |a| + Section(b, i) && Section(b, i) >= 0
  {
    hide IsHeader;
    assert (a + b)[|a| + i] == b[i];
    if i > 0 {
      SectionWithin(a, b, i - 1);
    }
  }

  lemma {:induction false} OtherLinesPrefix(a: seq<string>, b: seq<string>, n: nat)
    requires n <= |a|
    ensures OtherLines(a + b, n) == OtherLines(a, n)
  {
    hide IsHeader, IsServerHeader;
    if n > 0 {
      OtherLinesPrefix(a, b, n - 1);
      SectionPrefix(a, b, n - 1);
    }
  }

  lemma {:induction false} SectionPrefix(a: seq<string>, b: seq<string>, i: int)
    requires i < |a|
    ensures Section(a + b, i) == Section(a, i)
    decreases i + 1
  {
    hide IsHeader;
    if i >= 0 {
      SectionPrefix(a, b, i - 1);
    }
  }

  /** The table's own lines are the only ones removed from a clean text followed by the table. */
  lemma TableIsRemoved(pre: string, args: seq<string>)
    requires Clean(pre) && Terminated(pre)
    ensures Remove(pre + ServerTable(args)) == pre
  {
    hide IsHeader, IsServerHeader, ServerTable, CommandLine, ArgsLine, Lines, OtherLines;
    var n := |Lines(pre)| - 1;
    var a, b := Lines(pre)[..n], [HEADER, CommandLine(), ArgsLine(args), ""];
    TableLines(args);
    LinesAppend(pre, ServerTable(args));
    CleanKeepsAll(a, n);
    assert a[..n] == a;
    OtherLinesPrefix(a, b, n);
    TableHeaders(args);
    TableIsOneSection(a, b);
    LinesShape(pre);
    assert Lines(pre) == a + [""];
    ConcatEmptyTail(a);
  }

  lemma {:induction false} ConcatEmptyTail(a: seq<string>)
    ensures Concat(a + [""]) == Concat(a)
  {
    if a != [] {
      assert (a + [""])[1..] == a[1..] + [""];
      ConcatEmptyTail(a[1..]);
    } else {
      assert [""][1..] == [];
    }
  }

  lemma TableHeaders(args: seq<string>)
    ensures IsHeader(HEADER) && IsServerHeader(HEADER)
    ensures !IsHeader(CommandLine()) && !IsHeader(ArgsLine(args)) && !IsHeader("")
  {
    HeaderNamesServer();
    assert CommandLine()[0] == 'c' && ArgsLine(args)[0] == 'a';
    StartsWithLetter(CommandLine());
    StartsWithLetter(ArgsLine(args));
  }

  lemma TableIsOneSection(a: seq<string>, b: seq<string>)
    requires |b| == 4 && IsHeader(b[0]) && IsServerHeader(b[0])
    requires !IsHeader(b[1]) && !IsHeader(b[2]) && !IsHeader(b[3])
    ensures OtherLines(a + b, |a| + 4) == OtherLines(a + b, |a|)
  {
    hide IsHeader, IsServerHeader;
    assert Section(b, 0) == 0 && Section(b, 1) == 0;
    assert Section(b, 2) == 0 && Section(b, 3) == 0;
    SectionWithin(a, b, 0);
    SectionWithin(a, b, 1);
    SectionWithin(a, b, 2);
    SectionWithin(a, b, 3);
    assert (a + b)[|a|] == b[0];
    assert OtherLines(a + b, |a| + 4) == OtherLines(a + b, |a| + 3);
    assert OtherLines(a + b, |a| + 3) == OtherLines(a + b, |a| + 2);
    assert OtherLines(a + b, |a| + 2) == OtherLines(a + b, |a| + 1);
    assert OtherLines(a + b, |a| + 1) == OtherLines(a + b, |a|);
  }

  lemma {:induction false} TrimmedDoesNotEndInNewline(s: string)
    ensures TrimNewlines(s) == "" || TrimNewlines(s)[|TrimNewlines(s)| - 1] != '\n'
  {
    if s != [] && s[|s| - 1] == '\n' {
      TrimmedDoesNotEndInNewline(s[..|s| - 1]);
    }
  }

  lemma TrimPreamble(content: string)
    ensures TrimNewlines(Preamble(content)) == TrimNewlines(Remove(content))
  {
    hide Remove;
    var kept := TrimNewlines(Remove(content));
    TrimmedDoesNotEndInNewline(Remove(content));
    var one, two := kept + "\n", kept + "\n\n";
    assert one[..|one| - 1] == kept && two[..|two| - 1] == one;
    assert TrimNewlines(kept) == kept;
    assert TrimNewlines(one) == kept && TrimNewlines(two) == TrimNewlines(one);
  }

  /** Last write wins: writing the table twice is writing it once with the second arguments. */
  lemma LastWriteWins(content: string, first: seq<string>, second: seq<string>)
    ensures Write(Write(content, first), second) == Write(content, second)
  {
    hide Remove, ServerTable, Clean, Terminated, TrimNewlines;
    PreambleIsClean(content);
    TableIsRemoved(Preamble(content), first);
    TrimPreamble(content);
  }

  /** Undo: removing the written table leaves exactly the lines that were not in the server's
      tables, in order, up to trailing newlines. */
  lemma RemoveUndoesWrite(content: string, args: seq<string>)
    ensures var other := Concat(OtherLines(Lines(content), |Lines(content)|));
            TrimNewlines(Remove(Write(content, args))) == TrimNewlines(other)
  {
    hide ServerTable, Clean, Terminated, TrimNewlines;
    PreambleIsClean(content);
    TableIsRemoved(Preamble(content), args);
    TrimPreamble(content);
  }

  /** The text part of writeCodexConfig: `content` is what the file held, or empty. */
  method WriteCodexConfig(content: string, args: seq<string>) returns (text: string)
    ensures text == Write(content, args)
  {
    hide Remove;
    var kept, _ := RemoveCodexServerTables(content);
    kept := TrimNewlines(kept);
    if kept != "" {
      kept := kept + "\n\n";
    }
    text := kept + ServerTable(args);
  }
}
