/** Printing and lexing string literals. */
module StringLiterals {
  import opened Basics
  import opened Utf8

  const QUOTE: Byte := 0x22
  const BACKSLASH: Byte := 0x5C
  const NEWLINE: Byte := 0x0A
  const OPEN_BRACE: Byte := 0x7B
  const CLOSE_BRACE: Byte := 0x7D

  // ---------- printing ----------

  function EscapeChar(c: char): string {
    if c == '"' then "\\\""
    else if c == '\\' then "\\\\"
    else if c == '\n' then "\\n"
    else if c == '\r' then "\\r"
    else if c == '\t' then "\\t"
    else [c]
  }

  function Escaped(s: string): string {
    if s == "" then "" else Escaped(s[..|s| - 1]) + EscapeChar(s[|s| - 1])
  }

  method EscapeString(s: string) returns (out: string)
    ensures out == Escaped(s)
  {
    out := "";
    for i := 0 to |s|
      invariant out == Escaped(s[..i])
    {
      assert s[..i + 1][..i] == s[..i];
      match s[i]
      case '"' => out := out + "\\\"";
      case '\\' => out := out + "\\\\";
      case '\n' => out := out + "\\n";
      case '\r' => out := out + "\\r";
      case '\t' => out := out + "\\t";
      case c => out := out + [c];
    }
    assert s[..|s|] == s;
  }

  lemma {:induction false} EscapedStarts(c: char, s: string)
    ensures Escaped([c] + s) == EscapeChar(c) + Escaped(s)
  {
    hide EscapeChar;
    if s == "" {
      assert [c] + s == [c] && [c][..0] == "";
      assert Escaped([c]) == Escaped("") + EscapeChar(c);
    } else {
      assert ([c] + s)[..|s|] == [c] + s[..|s| - 1];
      EscapedStarts(c, s[..|s| - 1]);
    }
  }

  lemma NothingPrinted()
    ensures Escaped("") == "" && Encode("") == []
  {
  }

  predicate IsSpecial(c: char) {
    c == '"' || c == '\\' || c == '\n' || c == '\r' || c == '\t'
  }

  lemma SpecialIsEscaped(c: char)
    ensures |EscapeChar(c)| == if IsSpecial(c) then 2 else 1
    ensures !IsSpecial(c) ==> EscapeChar(c) == [c]
    ensures forall d :: d in EscapeChar(c) && IsSpecial(d) ==> d == '"' || d == '\\'
  {
  }

  /** A printed literal holds no line breaks or tabs, and only special characters are printed as escapes. */
  lemma {:induction false} PrintedIsPlain(s: string)
    ensures forall d :: d in Escaped(s) && IsSpecial(d) ==> d == '"' || d == '\\'
    ensures |Escaped(s)| >= |s| && (Escaped(s) == s <==> forall c :: c in s ==> !IsSpecial(c))
  {
    hide EscapeChar, IsSpecial;
    if s != "" {
      var front, last := s[..|s| - 1], s[|s| - 1];
      PrintedIsPlain(front);
      SpecialIsEscaped(last);
      assert s == front + [last];
      if Escaped(s) == s {
        assert Escaped(front) == front;
      }
    }
  }

  // ---------- lexing ----------

  datatype LexError =
    | TrailingBackslash
    | Unterminated
    | UnknownEscape(c: char)
    | BraceExpected
    | UnterminatedEscape
    | NotAScalar(digits: seq<Byte>)
    | NotHexadecimal(digits: seq<Byte>)

  /** `MultiString` hands over to the lexing of `"""` literals. */
  datatype Token = StringLiteral(value: string) | Error(error: LexError) | MultiString

  datatype Cursor = Cursor(current: nat, line: nat, column: nat)

  function Skip(at: Cursor, bytes: nat, columns: nat): Cursor {
    Cursor(at.current + bytes, at.line, at.column + columns)
  }

  function Peek(source: seq<Byte>, i: nat): Byte {
    if i < |source| then source[i] else 0
  }

  /** The next character and the index behind it; bytes that are no character stand for U+FFFD. */
  function Codepoint(source: seq<Byte>, i: nat): (r: (char, nat))
    requires i < |source|
    ensures i < r.1 <= |source|
  {
    var lead := source[i];
    if lead < 0x80 then (lead as char, i + 1)
    else
      var n := match ByteLength(lead) case Some(n) => n case None => 1;
      var end := if i + n < |source| then i + n else |source|;
      match DecodeOne(source[i..end])
      case Some(c) => (c, end)
      case None => ('\U{FFFD}', end)
  }

  /** The next closing brace, or the end. */
  function FindBrace(source: seq<Byte>, i: nat): (j: nat)
    requires i <= |source|
    ensures i <= j <= |source| && (j < |source| ==> source[j] == CLOSE_BRACE)
    ensures forall k :: i <= k < j ==> source[k] != CLOSE_BRACE
    decreases |source| - i
  {
    if i < |source| && source[i] != CLOSE_BRACE then FindBrace(source, i + 1) else i
  }

  function HexDigit(b: Byte): Option<nat> {
    if 0x30 <= b <= 0x39 then Some(b as nat - 0x30)
    else if 0x41 <= b <= 0x46 then Some(b as nat - 0x41 + 10)
    else if 0x61 <= b <= 0x66 then Some(b as nat - 0x61 + 10)
    else None
  }

  function HexValue(digits: seq<Byte>): Option<nat> {
    if digits == [] then Some(0)
    else
      match (HexValue(digits[..|digits| - 1]), HexDigit(digits[|digits| - 1]))
      case (Some(high), Some(low)) => if high * 16 + low < 0x1_0000_0000 then Some(high * 16 + low) else None
      case _ => None
  }

  /** `u32::from_str_radix` with radix 16: an optional plus sign and at least one digit. */
  function ParseHex(text: seq<Byte>): Option<nat> {
    var digits := if text != [] && text[0] == 0x2B then text[1..] else text;
    if digits == [] then None else HexValue(digits)
  }

  datatype Escape = Char(c: char) | Failed(error: LexError)

  /** `{XXXX}` after `\u`: its meaning and the index behind it. */
  function UnicodeEscape(source: seq<Byte>, i: nat): (r: (Escape, nat))
    requires i <= |source|
    ensures i <= r.1 <= |source|
  {
    if Peek(source, i) != OPEN_BRACE then (Failed(BraceExpected), i)
    else
      var end := FindBrace(source, i + 1);
      if end == |source| then (Failed(UnterminatedEscape), end)
      else
        var text := source[i + 1..end];
        match ParseHex(text)
        case Some(v) => if IsScalar(v) then (Char(v as char), end + 1) else (Failed(NotAScalar(text)), end + 1)
        case None => (Failed(NotHexadecimal(text)), end + 1)
  }

  /** The meaning of the byte behind a backslash, for the escapes of one byte. */
  function SimpleEscape(b: Byte): Option<char> {
    if b == 0x6E then Some('\n')
    else if b == 0x74 then Some('\t')
    else if b == 0x72 then Some('\r')
    else if b == BACKSLASH then Some('\\')
    else if b == QUOTE then Some('"')
    else if b == 0x30 then Some('\0')
    else None
  }

  /** At a backslash: what the escape means, and the cursor behind it. */
  function EscapeAt(source: seq<Byte>, at: Cursor): (r: (Escape, Cursor))
    requires at.current < |source|
    ensures at.current < r.1.current <= |source|
  {
    var i := at.current;
    if i + 1 == |source| then (Failed(TrailingBackslash), Skip(at, 1, 1))
    else
      match SimpleEscape(source[i + 1])
      case Some(c) => (Char(c), Skip(at, 2, 2))
      case None =>
        if source[i + 1] == 0x75 then
          var (meaning, end) := UnicodeEscape(source, i + 2);
          (meaning, Skip(at, end - i, end - i))
        else
          var (c, end) := Codepoint(source, i + 1);
          (Failed(UnknownEscape(c)), Skip(at, end - i, 2))
  }

  /** From inside a string literal, with `value` read so far: the token, and the cursor behind it. */
  function Scan(source: seq<Byte>, at: Cursor, value: string): (r: (Token, Cursor))
    requires at.current <= |source|
    ensures at.current <= r.1.current <= |source|
    decreases |source| - at.current
  {
    var i := at.current;
    if i == |source| then (Error(Unterminated), at)
    else if source[i] == QUOTE then (StringLiteral(value), Skip(at, 1, 1))
    else if source[i] == BACKSLASH then
      var (meaning, behind) := EscapeAt(source, at);
      match meaning
      case Char(c) => Scan(source, behind, value + [c])
      case Failed(error) => (Error(error), behind)
    else
      var (c, end) := Codepoint(source, i);
      var line := if source[i] == NEWLINE then Cursor(i, at.line + 1, 0) else at;
      Scan(source, Skip(line, end - i, 1), value + [c])
  }

  /** At an opening quote. */
  function ScanQuote(source: seq<Byte>, at: Cursor): (r: (Token, Cursor))
    requires at.current < |source| && source[at.current] == QUOTE
    ensures at.current < r.1.current <= |source|
  {
    if Peek(source, at.current + 1) == QUOTE && Peek(source, at.current + 2) == QUOTE then (MultiString, Skip(at, 3, 3))
    else Scan(source, Skip(at, 1, 1), "")
  }

  // ---------- reading back what was printed ----------

  /** The bytes stand in the source from index `i` on. */
  predicate Stands(source: seq<Byte>, i: nat, bytes: seq<Byte>) {
    i + |bytes| <= |source| && source[i..i + |bytes|] == bytes
  }

  lemma StandsSplit(source: seq<Byte>, i: nat, a: seq<Byte>, b: seq<Byte>)
    requires Stands(source, i, a + b)
    ensures Stands(source, i, a) && Stands(source, i + |a|, b)
  {
    assert source[i..i + |a|] == (a + b)[..|a|];
    assert source[i + |a|..i + |a| + |b|] == (a + b)[|a|..];
  }

  lemma StandsByte(source: seq<Byte>, i: nat, bytes: seq<Byte>, k: nat)
    requires Stands(source, i, bytes) && k < |bytes|
    ensures source[i + k] == bytes[k]
  {
    assert source[i..i + |bytes|][k] == bytes[k];
  }

  /** Peeking at the first of some bytes, or past the end. */
  lemma PeekStands(source: seq<Byte>, i: nat, bytes: seq<Byte>)
    requires Stands(source, i, bytes)
    ensures bytes != [] ==> Peek(source, i) == bytes[0]
    ensures bytes == [] && i == |source| ==> Peek(source, i) == 0
  {
    if bytes != [] {
      StandsByte(source, i, bytes, 0);
    }
  }

  lemma CodepointReads(source: seq<Byte>, i: nat, c: char)
    requires Stands(source, i, EncodeChar(c))
    ensures Codepoint(source, i) == (c, i + |EncodeChar(c)|)
  {
    LeadTellsLength(c);
    DecodeIsInverse(c, EncodeChar(c));
    StandsByte(source, i, EncodeChar(c), 0);
  }

  /** A character printed as an escape. */
  lemma ScanReadsEscape(source: seq<Byte>, at: Cursor, value: string, c: char)
    requires |EscapeChar(c)| == 2 && Stands(source, at.current, Encode(EscapeChar(c)))
    ensures |Encode(EscapeChar(c))| == 2 && Scan(source, at, value) == Scan(source, Skip(at, 2, 2), value + [c])
  {
    hide EncodeChar;
    var printed, bytes := EscapeChar(c), Encode(EscapeChar(c));
    LeadTellsLength(printed[0]);
    LeadTellsLength(printed[1]);
    assert bytes == EncodeChar(printed[0]) + Encode(printed[1..]);
    assert Encode(printed[1..]) == EncodeChar(printed[1]) + Encode(printed[1..][1..]);
    assert bytes == [BACKSLASH, printed[1] as int as Byte];
    StandsByte(source, at.current, bytes, 0);
    StandsByte(source, at.current, bytes, 1);
    assert SimpleEscape(source[at.current + 1]) == Some(c);
  }

  /** A character printed as itself. */
  lemma ScanReadsPlain(source: seq<Byte>, at: Cursor, value: string, c: char)
    requires EscapeChar(c) == [c] && Stands(source, at.current, Encode([c]))
    ensures Scan(source, at, value) == Scan(source, Skip(at, |Encode([c])|, 1), value + [c])
  {
    hide EncodeChar, Codepoint;
    assert [c][1..] == "";
    assert Encode([c]) == EncodeChar(c) + Encode([c][1..]);
    LeadTellsLength(c);
    StandsByte(source, at.current, Encode([c]), 0);
    CodepointReads(source, at.current, c);
  }

  /** One printed character is read back, wherever it stands inside a literal. */
  lemma ScanReadsChar(source: seq<Byte>, at: Cursor, value: string, c: char)
    requires Stands(source, at.current, Encode(EscapeChar(c)))
    ensures
      var behind := Skip(at, |Encode(EscapeChar(c))|, |EscapeChar(c)|);
      Scan(source, at, value) == Scan(source, behind, value + [c])
  {
    hide Scan, Encode;
    if |EscapeChar(c)| == 2 {
      ScanReadsEscape(source, at, value, c);
    } else {
      assert EscapeChar(c) == [c];
      ScanReadsPlain(source, at, value, c);
    }
  }

  lemma {:induction false} ScanReadsPrinted(source: seq<Byte>, at: Cursor, value: string, s: string)
    requires Stands(source, at.current, Encode(Escaped(s)) + [QUOTE])
    ensures Scan(source, at, value)
         == (StringLiteral(value + s), Skip(at, |Encode(Escaped(s))| + 1, |Escaped(s)| + 1))
    decreases s
  {
    hide Scan, EscapeChar, Escaped, Encode;
    if s == "" {
      NothingPrinted();
      assert Encode(Escaped(s)) + [QUOTE] == [QUOTE];
      StandsByte(source, at.current, [QUOTE], 0);
      ScanCloses(source, at, value);
      assert value + s == value;
    } else {
      var c, t := s[0], s[1..];
      assert s == [c] + t;
      EscapedStarts(c, t);
      EncodeAppends(EscapeChar(c), Escaped(t));
      var first, rest := Encode(EscapeChar(c)), Encode(Escaped(t));
      assert Encode(Escaped(s)) + [QUOTE] == first + (rest + [QUOTE]);
      StandsSplit(source, at.current, first, rest + [QUOTE]);
      ScanReadsChar(source, at, value, c);
      ScanReadsPrinted(source, Skip(at, |first|, |EscapeChar(c)|), value + [c], t);
      assert value + [c] + t == value + s;
    }
  }

  lemma ScanCloses(source: seq<Byte>, at: Cursor, value: string)
    requires at.current < |source| && source[at.current] == QUOTE
    ensures Scan(source, at, value) == (StringLiteral(value), Skip(at, 1, 1))
  {
  }

  /** A printed literal does not start with a second quote unless it is empty. */
  lemma PrintedStarts(s: string)
    requires s != ""
    ensures Encode(Escaped(s)) != [] && Encode(Escaped(s))[0] != QUOTE
  {
    hide Escaped, EncodeChar;
    var c, t := s[0], s[1..];
    assert s == [c] + t;
    EscapedStarts(c, t);
    EncodeAppends(EscapeChar(c), Escaped(t));
    var printed := EscapeChar(c);
    assert Encode(printed) == EncodeChar(printed[0]) + Encode(printed[1..]);
    LeadTellsLength(printed[0]);
  }

  function Literal(s: string): seq<Byte> {
    [QUOTE] + Encode(Escaped(s)) + [QUOTE]
  }

  /** Where the bytes of a literal, and those behind it, stand. */
  lemma LiteralStands(before: seq<Byte>, s: string, after: seq<Byte>)
    ensures var (source, i) := (before + Literal(s) + after, |before|);
      && i < |source| && source[i] == QUOTE && Stands(source, i + 1, Encode(Escaped(s)) + [QUOTE])
      && Stands(source, i + |Literal(s)|, after) && |source| == i + |Literal(s)| + |after|
  {
    hide Escaped, Encode;
    var printed := Encode(Escaped(s));
    StandsBetween(before + [QUOTE], printed + [QUOTE], after);
    assert before + Literal(s) + after == (before + [QUOTE]) + (printed + [QUOTE]) + after;
    StandsBetween(before + Literal(s), after, []);
    assert before + Literal(s) + after == (before + Literal(s)) + after + [];
  }

  /**
    Lexing a printed literal yields the string it was printed from and consumes exactly its bytes, on the same line and
    one column per character, unless it is the empty literal directly followed by a third quote; and only then it does
    not.
   */
  lemma RoundTrip(before: seq<Byte>, s: string, after: seq<Byte>, line: nat, column: nat)
    ensures
      var (source, at) := (before + Literal(s) + after, Cursor(|before|, line, column));
      && source[at.current] == QUOTE
      && (ScanQuote(source, at) == (StringLiteral(s), Skip(at, |Literal(s)|, |Escaped(s)| + 2))
          <==> !(s == "" && after != [] && after[0] == QUOTE))
  {
    hide Scan, Escaped, Encode, Stands, Peek;
    var source, at := before + Literal(s) + after, Cursor(|before|, line, column);
    var printed, i := Encode(Escaped(s)), |before| + 1;
    LiteralStands(before, s, after);
    StandsByte(source, i, printed + [QUOTE], 0);
    ScanReadsPrinted(source, Skip(at, 1, 1), "", s);
    assert "" + s == s;
    PeekStands(source, i, printed + [QUOTE]);
    PeekStands(source, i + |printed| + 1, after);
    if s == "" {
      NothingPrinted();
    } else {
      PrintedStarts(s);
    }
  }

  lemma StandsBetween(before: seq<Byte>, bytes: seq<Byte>, after: seq<Byte>)
    ensures Stands(before + bytes + after, |before|, bytes)
  {
  }
}

/** The lexer's cursor moving over a string literal. */
module StringLexer {
  import opened Utf8
  import opened StringLiterals

  datatype Span = Span(line: nat, column: nat, offset: nat, length: nat)

  datatype SpannedToken = SpannedToken(token: Token, span: Span)

  class Lexer {
    const source: seq<Byte>
    var start: nat
    var current: nat
    var line: nat
    var column: nat
    var startColumn: nat

    constructor (source: seq<Byte>)
      ensures this.source == source && Here() == Cursor(0, 1, 1) && Valid()
    {
      this.source := source;
      start, current, line, column, startColumn := 0, 0, 1, 1, 1;
    }

    function Here(): Cursor
      reads this
    {
      Cursor(current, line, column)
    }

    ghost predicate Valid()
      reads this
    {
      start <= current <= |source|
    }

    predicate IsAtEnd()
      reads this
    {
      current >= |source|
    }

    function PeekByte(): Byte
      reads this
    {
      Peek(source, current)
    }

    function PeekNext(): Byte
      reads this
    {
      Peek(source, current + 1)
    }

    function MakeSpanned(token: Token): SpannedToken
      requires Valid()
      reads this
    {
      SpannedToken(token, Span(line, startColumn, start, current - start))
    }

    method Advance() returns (b: Byte)
      requires Valid() && !IsAtEnd()
      modifies `current, `column
      ensures Valid() && b == old(PeekByte()) && Here() == Skip(old(Here()), 1, 1)
    {
      b := source[current];
      current := current + 1;
      column := column + 1;
    }

    method MatchChar(expected: Byte) returns (found: bool)
      requires Valid()
      modifies `current, `column
      ensures Valid() && found == old(!IsAtEnd() && PeekByte() == expected)
      ensures Here() == if found then Skip(old(Here()), 1, 1) else old(Here())
    {
      if IsAtEnd() || source[current] != expected {
        return false;
      }
      current := current + 1;
      column := column + 1;
      return true;
    }

    method ConsumeCodepoint() returns (c: char)
      requires Valid() && !IsAtEnd()
      modifies `current, `column
      ensures Valid()
      ensures old(Codepoint(source, current)) == (c, current) && Here() == Cursor(current, old(line), old(column) + 1)
    {
      var lead := PeekByte();
      if lead < 0x80 {
        var b := Advance();
        return b as char;
      }
      var n := match ByteLength(lead) case Some(n) => n case None => 1;
      var end := if current + n < |source| then current + n else |source|;
      c := match DecodeOne(source[current..end]) case Some(c) => c case None => '\U{FFFD}';
      current := end;
      column := column + 1;
    }

    /** After `\u`. */
    method ParseUnicodeEscape() returns (r: Escape)
      requires Valid()
      modifies `current, `column
      ensures Valid() && old(UnicodeEscape(source, current)) == (r, current)
      ensures Here() == Skip(old(Here()), current - old(current), current - old(current))
    {
      var found := MatchChar(OPEN_BRACE);
      if !found {
        return Failed(BraceExpected);
      }
      var hexStart := current;
      while PeekByte() != CLOSE_BRACE && !IsAtEnd()
        invariant Valid() && hexStart <= current
        invariant FindBrace(source, hexStart) == FindBrace(source, current)
        invariant Here() == Skip(old(Here()), current - old(current), current - old(current))
        decreases |source| - current
      {
        var b := Advance();
      }
      if IsAtEnd() {
        return Failed(UnterminatedEscape);
      }
      var text := source[hexStart..current];
      var brace := Advance();
      match ParseHex(text)
      case Some(v) => r := if IsScalar(v) then Char(v as char) else Failed(NotAScalar(text));
      case None => r := Failed(NotHexadecimal(text));
    }

    /** At a backslash. */
    method EscapeSequence() returns (r: Escape)
      requires Valid() && !IsAtEnd()
      modifies `current, `column
      ensures Valid() && old(EscapeAt(source, Here())) == (r, Here())
    {
      hide Codepoint, UnicodeEscape;
      var backslash := Advance();
      if IsAtEnd() {
        return Failed(TrailingBackslash);
      }
      match SimpleEscape(PeekByte())
      case Some(meaning) =>
        var letter := Advance();
        r := Char(meaning);
      case None =>
        if PeekByte() == 0x75 {
          var letter := Advance();
          r := ParseUnicodeEscape();
        } else {
          var c := ConsumeCodepoint();
          r := Failed(UnknownEscape(c));
        }
    }

    /** After the opening quote. */
    method StringBody() returns (t: SpannedToken)
      requires Valid()
      modifies this
      ensures Valid() && start == old(start) && startColumn == old(startColumn)
      ensures old(Scan(source, Here(), "")) == (t.token, Here())
      ensures t.span == Span(line, startColumn, start, current - start)
    {
      hide Codepoint, EscapeAt;
      var value := "";
      while PeekByte() != QUOTE && !IsAtEnd()
        invariant Valid() && start == old(start) && startColumn == old(startColumn)
        invariant Scan(source, Here(), value) == old(Scan(source, Here(), ""))
        decreases |source| - current
      {
        var c;
        if PeekByte() == BACKSLASH {
          var escape := EscapeSequence();
          match escape
          case Char(meaning) => c := meaning;
          case Failed(error) => return MakeSpanned(Error(error));
        } else {
          if PeekByte() == NEWLINE {
            line := line + 1;
            column := 0;
          }
          c := ConsumeCodepoint();
        }
        value := value + [c];
      }
      if IsAtEnd() {
        return MakeSpanned(Error(Unterminated));
      }
      var quote := Advance();
      return MakeSpanned(StringLiteral(value));
    }

    /** The part of the token dispatch for an opening quote. */
    method QuoteToken() returns (t: SpannedToken)
      requires Valid() && !IsAtEnd() && PeekByte() == QUOTE
      modifies this
      ensures Valid() && old(ScanQuote(source, Here())) == (t.token, Here())
      ensures t.span == Span(line, old(column), old(current), current - old(current))
    {
      start := current;
      startColumn := column;
      var c := Advance();
      if PeekByte() == QUOTE && PeekNext() == QUOTE {
        var second := Advance();
        var third := Advance();
        t := MakeSpanned(MultiString);
      } else {
        t := StringBody();
      }
    }
  }
}
