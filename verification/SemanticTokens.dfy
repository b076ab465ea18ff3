/** Semantic tokens: the delta decoder of internal/lsp/client.go against the integer encoding of
    LSP 3.17, "Integer Encoding for Tokens". */
module SemanticTokens {

  datatype Token = Token(line: int, character: int, length: int, tokenType: string, modifiers: seq<string>)

  /** A token before encoding: absolute 0-based position, type index, one flag per legend modifier. */
  datatype Source = Source(line: nat, character: nat, length: nat, typeIndex: nat, flags: seq<bool>)

  // ---- Modifier bits ----

  /** Whether bit `bit` of the two's complement representation of mask is set. */
  predicate BitSet(mask: int, bit: nat)
    decreases bit
  {
    if bit == 0 then mask % 2 == 1 else BitSet(mask / 2, bit - 1)
  }

  /** mask & (1<<bit) != 0 on 64-bit integers, where 1<<bit is 0 for larger shifts. */
  predicate HasModifier(mask: int, bit: nat) {
    bit < 64 && BitSet(mask, bit)
  }

  /** The legend entries whose bit is set, in legend order. */
  function ModifierNames(mask: int, legend: seq<string>, upTo: nat): (names: seq<string>)
    requires upTo <= |legend|
  {
    if upTo == 0 then []
    else ModifierNames(mask, legend, upTo - 1) + (if HasModifier(mask, upTo - 1) then [legend[upTo - 1]] else [])
  }

  function FlaggedNames(flags: seq<bool>, legend: seq<string>, upTo: nat): seq<string>
    requires upTo <= |legend| == |flags|
  {
    if upTo == 0 then []
    else FlaggedNames(flags, legend, upTo - 1) + (if flags[upTo - 1] then [legend[upTo - 1]] else [])
  }

  function MaskOf(flags: seq<bool>): nat {
    if flags == [] then 0 else (if flags[0] then 1 else 0) + 2 * MaskOf(flags[1..])
  }

  lemma {:induction false} MaskBits(flags: seq<bool>, bit: nat)
    requires bit < |flags|
    ensures BitSet(MaskOf(flags), bit) == flags[bit]
  {
    if bit > 0 {
      assert MaskOf(flags) / 2 == MaskOf(flags[1..]);
      MaskBits(flags[1..], bit - 1);
    }
  }

  function Pow2(n: nat): nat {
    if n == 0 then 1 else 2 * Pow2(n - 1)
  }

  lemma {:induction false} HighBitsClear(mask: nat, bit: nat, width: nat)
    requires mask < Pow2(width) && width <= bit
    ensures !BitSet(mask, bit)
    decreases bit
  {
    if bit > 0 {
      HighBitsClear(mask / 2, bit - 1, if width == 0 then 0 else width - 1);
    }
  }

  lemma {:induction false} MaskSelectsFlags(flags: seq<bool>, legend: seq<string>, upTo: nat)
    requires upTo <= |legend| == |flags|
    requires MaskOf(flags) < Pow2(63)
    ensures ModifierNames(MaskOf(flags), legend, upTo) == FlaggedNames(flags, legend, upTo)
  {
    if upTo > 0 {
      MaskSelectsFlags(flags, legend, upTo - 1);
      MaskBits(flags, upTo - 1);
      if upTo > 63 {
        HighBitsClear(MaskOf(flags), upTo - 1, 63);
      }
    }
  }

  // ---- Decoding ----

  function TypeName(types: seq<string>, index: int): string {
    if 0 <= index < |types| then types[index] else ""
  }

  /** The tokens from index i on, given the position of the token before. */
  function DecodeFrom(data: seq<int>, i: nat, line: int, col: int, types: seq<string>, legend: seq<string>): (tokens: seq<Token>)
    decreases |data| - i
  {
    if i + 4 >= |data| then []
    else
      var line' := if data[i] > 0 then line + data[i] else line;
      var col' := if data[i] > 0 then data[i + 1] else col + data[i + 1];
      [Token(line' + 1, col' + 1, data[i + 2], TypeName(types, data[i + 3]),
             ModifierNames(data[i + 4], legend, |legend|))]
      + DecodeFrom(data, i + 5, line', col', types, legend)
  }

  method DecodeModifiers(mask: int, legend: seq<string>) returns (modifiers: seq<string>)
    ensures modifiers == ModifierNames(mask, legend, |legend|)
  {
    modifiers := [];
    var bit := 0;
    while bit < |legend|
      invariant 0 <= bit <= |legend|
      invariant modifiers == ModifierNames(mask, legend, bit)
    {
      if HasModifier(mask, bit) {
        modifiers := modifiers + [legend[bit]];
      }
      bit := bit + 1;
    }
  }

  lemma AppendOne(tokens: seq<Token>, token: Token, rest: seq<Token>)
    ensures tokens + ([token] + rest) == (tokens + [token]) + rest
  {}

  method Decode(data: seq<int>, types: seq<string>, legend: seq<string>) returns (tokens: seq<Token>)
    ensures tokens == DecodeFrom(data, 0, 0, 0, types, legend)
  {
    tokens := [];
    var prevLine, prevCol, i := 0, 0, 0;
    while i + 4 < |data|
      invariant 0 <= i
      invariant DecodeFrom(data, 0, 0, 0, types, legend)
             == tokens + DecodeFrom(data, i, prevLine, prevCol, types, legend)
    {
      if data[i] > 0 {
        prevLine := prevLine + data[i];
        prevCol := data[i + 1];
      } else {
        prevCol := prevCol + data[i + 1];
      }
      var modifiers := DecodeModifiers(data[i + 4], legend);
      var token := Token(prevLine + 1, prevCol + 1, data[i + 2], TypeName(types, data[i + 3]), modifiers);
      AppendOne(tokens, token, DecodeFrom(data, i + 5, prevLine, prevCol, types, legend));
      tokens := tokens + [token];
      i := i + 5;
    }
  }

  // ---- Round trip ----

  predicate NotBefore(line: int, col: int, line': int, col': int) {
    line < line' || (line == line' && col <= col')
  }

  /** Tokens in document order, none before the given position. */
  predicate InDocumentOrder(tokens: seq<Source>, line: nat, col: nat) {
    tokens == [] ||
    (NotBefore(line, col, tokens[0].line, tokens[0].character)
     && InDocumentOrder(tokens[1..], tokens[0].line, tokens[0].character))
  }

  /** The encoding the standard prescribes, relative to the position of the token before. */
  function EncodeFrom(tokens: seq<Source>, line: nat, col: nat): seq<int> {
    if tokens == [] then []
    else
      var t := tokens[0];
      var deltaChar := if t.line == line then t.character - col else t.character;
      [t.line - line, deltaChar, t.length, t.typeIndex, MaskOf(t.flags)] + EncodeFrom(tokens[1..], t.line, t.character)
  }

  /** One flag per legend entry, and a bit mask that fits a Go int. */
  predicate Encodable(tokens: seq<Source>, legend: seq<string>) {
    tokens == [] ||
    (|tokens[0].flags| == |legend| && MaskOf(tokens[0].flags) < Pow2(63) && Encodable(tokens[1..], legend))
  }

  function Recovered(tokens: seq<Source>, types: seq<string>, legend: seq<string>): seq<Token>
    requires Encodable(tokens, legend)
  {
    if tokens == [] then []
    else
      var t := tokens[0];
      var name := if 0 <= t.typeIndex < |types| then types[t.typeIndex] else "";
      [Token(t.line + 1, t.character + 1, t.length, name, FlaggedNames(t.flags, legend, |legend|))]
      + Recovered(tokens[1..], types, legend)
  }

  lemma {:induction false} DecodeShift(head: seq<int>, data: seq<int>, i: nat, line: int, col: int, types: seq<string>, legend: seq<string>)
    requires |head| == 5
    ensures DecodeFrom(head + data, i + 5, line, col, types, legend) == DecodeFrom(data, i, line, col, types, legend)
    decreases |data| - i
  {
    if i + 4 < |data| {
      var line' := if data[i] > 0 then line + data[i] else line;
      var col' := if data[i] > 0 then data[i + 1] else col + data[i + 1];
      DecodeShift(head, data, i + 5, line', col', types, legend);
    }
  }

  lemma DecodeStep(head: seq<int>, data: seq<int>, line: int, col: int, types: seq<string>, legend: seq<string>)
    requires |head| == 5
    ensures var line' := if head[0] > 0 then line + head[0] else line;
            var col' := if head[0] > 0 then head[1] else col + head[1];
            DecodeFrom(head + data, 0, line, col, types, legend)
            == [Token(line' + 1, col' + 1, head[2], TypeName(types, head[3]), ModifierNames(head[4], legend, |legend|))]
               + DecodeFrom(data, 0, line', col', types, legend)
  {
    var line' := if head[0] > 0 then line + head[0] else line;
    var col' := if head[0] > 0 then head[1] else col + head[1];
    DecodeShift(head, data, 0, line', col', types, legend);
  }

  lemma TypeNameIs(types: seq<string>, index: int)
    ensures TypeName(types, index) == if 0 <= index < |types| then types[index] else ""
  {}

  /** The five numbers of one token, decoded where the token before left off. */
  lemma OneToken(t: Source, line: nat, col: nat, data: seq<int>, types: seq<string>, legend: seq<string>)
    requires NotBefore(line, col, t.line, t.character)
    requires |t.flags| == |legend| && MaskOf(t.flags) < Pow2(63)
    ensures var deltaCol := if t.line == line then t.character - col else t.character;
            var name := if 0 <= t.typeIndex < |types| then types[t.typeIndex] else "";
            DecodeFrom([t.line - line, deltaCol, t.length, t.typeIndex, MaskOf(t.flags)] + data, 0, line, col, types, legend)
            == [Token(t.line + 1, t.character + 1, t.length, name, FlaggedNames(t.flags, legend, |legend|))]
               + DecodeFrom(data, 0, t.line, t.character, types, legend)
  {
    hide ModifierNames, FlaggedNames, MaskOf, Pow2, TypeName, DecodeFrom;
    var deltaCol := if t.line == line then t.character - col else t.character;
    var head := [t.line - line, deltaCol, t.length, t.typeIndex, MaskOf(t.flags)];
    TypeNameIs(types, t.typeIndex);
    DecodeStep(head, data, line, col, types, legend);
    MaskSelectsFlags(t.flags, legend, |legend|);
  }

  /** Decoding the standard's encoding recovers every position (plus one), length, type name and
      exactly the flagged modifiers. */
  lemma {:induction false} RoundTrip(tokens: seq<Source>, line: nat, col: nat, types: seq<string>, legend: seq<string>)
    requires InDocumentOrder(tokens, line, col)
    requires Encodable(tokens, legend)
    ensures DecodeFrom(EncodeFrom(tokens, line, col), 0, line, col, types, legend) == Recovered(tokens, types, legend)
    decreases |tokens|
  {
    hide ModifierNames, FlaggedNames, MaskOf, Pow2, DecodeFrom;
    if tokens != [] {
      var t := tokens[0];
      OneToken(t, line, col, EncodeFrom(tokens[1..], t.line, t.character), types, legend);
      RoundTrip(tokens[1..], t.line, t.character, types, legend);
    } else {
      NoTokens(line, col, types, legend);
    }
  }

  lemma NoTokens(line: int, col: int, types: seq<string>, legend: seq<string>)
    ensures DecodeFrom([], 0, line, col, types, legend) == []
  {}

  // ---- Arbitrary input ----

  predicate Sorted(tokens: seq<Token>, line: int, col: int) {
    tokens == [] ||
    (NotBefore(line, col, tokens[0].line, tokens[0].character)
     && Sorted(tokens[1..], tokens[0].line, tokens[0].character))
  }

  /** Any input yields one token per five numbers, and non-negative input yields them in
      nondecreasing position order. */
  lemma {:induction false} DecodedShape(data: seq<int>, i: nat, line: int, col: int, types: seq<string>, legend: seq<string>)
    requires i <= |data|
    ensures var tokens := DecodeFrom(data, i, line, col, types, legend);
            && |tokens| == (|data| - i) / 5
            && ((forall k | 0 <= k < |data| :: data[k] >= 0) ==> Sorted(tokens, line + 1, col + 1))
    decreases |data| - i
  {
    if i + 4 < |data| {
      var line' := if data[i] > 0 then line + data[i] else line;
      var col' := if data[i] > 0 then data[i + 1] else col + data[i + 1];
      DecodedShape(data, i + 5, line', col', types, legend);
    }
  }
}
