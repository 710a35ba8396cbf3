/**
  What a string literal is, apart from the code that lexes it.

  A literal is a sequence of pieces, each a plain character or an escape, and what ends it: the closing quote, the end
  of the source, or an escape that is none. Every source text has such a form, and the lexer gives its meaning.
 */
module StringForms {
  import opened Basics
  import opened Utf8
  import opened StringLiterals

  // ---------- hexadecimal numerals ----------

  const LOWER := "0123456789abcdef"
  const UPPER := "0123456789ABCDEF"

  /** The digits of a number, by repeated division. */
  function Digits(v: nat): (ds: seq<nat>)
    ensures ds != [] && forall i :: 0 <= i < |ds| ==> ds[i] < 16
  {
    if v < 16 then [v] else Digits(v / 16) + [v % 16]
  }

  /** The byte is a digit of that value, in either case. */
  predicate IsDigit(b: Byte, d: nat) {
    d < 16 && (b as int == LOWER[d] as int || b as int == UPPER[d] as int)
  }

  /** The text is the numeral of `v` behind `zeros` zeros. */
  predicate WritesBehind(zeros: nat, text: seq<Byte>, v: nat) {
    && |text| == zeros + |Digits(v)|
    && forall i :: 0 <= i < |text| ==> IsDigit(text[i], if i < zeros then 0 else Digits(v)[i - zeros])
  }

  ghost predicate Writes(text: seq<Byte>, v: nat) {
    exists zeros: nat :: WritesBehind(zeros, text, v)
  }

  /** A numeral of 32 bits, after an optional plus sign. */
  ghost predicate IsNumeral(text: seq<Byte>, v: nat) {
    v < 0x1_0000_0000 && (Writes(text, v) || (text != [] && text[0] == 0x2B && Writes(text[1..], v)))
  }

  lemma DigitsOfBytes(b: Byte, d: nat)
    ensures HexDigit(b) == Some(d) <==> IsDigit(b, d)
  {
    assert LOWER[0] == '0' && LOWER[1] == '1' && LOWER[2] == '2' && LOWER[3] == '3' && LOWER[4] == '4';
    assert LOWER[5] == '5' && LOWER[6] == '6' && LOWER[7] == '7' && LOWER[8] == '8' && LOWER[9] == '9';
    assert LOWER[10] == 'a' && LOWER[11] == 'b' && LOWER[12] == 'c' && LOWER[13] == 'd' && LOWER[14] == 'e';
    assert UPPER[0] == '0' && UPPER[1] == '1' && UPPER[2] == '2' && UPPER[3] == '3' && UPPER[4] == '4';
    assert UPPER[5] == '5' && UPPER[6] == '6' && UPPER[7] == '7' && UPPER[8] == '8' && UPPER[9] == '9';
    assert UPPER[10] == 'A' && UPPER[11] == 'B' && UPPER[12] == 'C' && UPPER[13] == 'D' && UPPER[14] == 'E';
    assert LOWER[15] == 'f' && UPPER[15] == 'F';
  }

  /** The value of a text of digits: it is a numeral of that value, and of 32 bits. */
  lemma {:induction false} HexValueExactly(digits: seq<Byte>, v: nat)
    ensures HexValue(digits) == Some(v) <==>
      v < 0x1_0000_0000 && if digits == [] then v == 0 else Writes(digits, v)
  {
    hide HexDigit, IsDigit, Writes, HexValue;
    if digits == [] {
      NoDigits();
    } else {
      var front, last := digits[..|digits| - 1], digits[|digits| - 1];
      assert digits == front + [last];
      HexValueExactly(front, v / 16);
      if HexValue(digits) == Some(v) {
        HexValueIsWritten(front, last, v);
      } else if v < 0x1_0000_0000 && Writes(digits, v) {
        WrittenFront(front, last, v);
      }
    }
  }

  lemma NoDigits()
    ensures HexValue([]) == Some(0)
  {
  }

  /** The value of one more digit. */
  lemma HexValueGrows(front: seq<Byte>, last: Byte, v: nat)
    requires HexValue(front + [last]) == Some(v)
    ensures v < 0x1_0000_0000 && HexValue(front) == Some(v / 16) && HexDigit(last) == Some(v % 16)
  {
    var digits := front + [last];
    assert digits[..|digits| - 1] == front;
    assert HexValue(front).Some? && HexDigit(last).Some?;
    DigitIsSmall(last);
    var high, low := HexValue(front).value, HexDigit(last).value;
    assert v == high * 16 + low;
  }

  lemma HexValueIsWritten(front: seq<Byte>, last: Byte, v: nat)
    requires HexValue(front + [last]) == Some(v)
    requires HexValue(front) == Some(v / 16) ==> if front == [] then v / 16 == 0 else Writes(front, v / 16)
    ensures v < 0x1_0000_0000 && Writes(front + [last], v)
  {
    hide HexDigit, IsDigit, HexValue;
    var digits := front + [last];
    HexValueGrows(front, last, v);
    DigitsOfBytes(last, v % 16);
    if front == [] {
      assert WritesBehind(0, digits, v);
    } else {
      var zeros: nat :| WritesBehind(zeros, front, v / 16);
      if v < 16 {
        assert WritesBehind(zeros + 1, digits, v);
      } else {
        assert WritesBehind(zeros, digits, v);
      }
    }
  }

  lemma DigitIsSmall(b: Byte)
    ensures HexDigit(b).Some? ==> HexDigit(b).value < 16
  {
  }

  /** A numeral without its last digit. */
  lemma WritesFront(front: seq<Byte>, last: Byte, v: nat)
    requires Writes(front + [last], v)
    ensures IsDigit(last, v % 16) && if front == [] then v / 16 == 0 else Writes(front, v / 16)
  {
    hide IsDigit;
    var digits := front + [last];
    var zeros: nat :| WritesBehind(zeros, digits, v);
    assert digits[|front|] == last && forall i :: 0 <= i < |front| ==> front[i] == digits[i];
    assert IsDigit(digits[|front|], v % 16);
    if front != [] {
      if v < 16 {
        assert WritesBehind(zeros - 1, front, 0);
      } else {
        assert WritesBehind(zeros, front, v / 16);
      }
    }
  }

  lemma WrittenFront(front: seq<Byte>, last: Byte, v: nat)
    requires v < 0x1_0000_0000 && Writes(front + [last], v)
    requires (if front == [] then v / 16 == 0 else Writes(front, v / 16)) ==> HexValue(front) == Some(v / 16)
    ensures HexValue(front + [last]) == Some(v)
  {
    hide HexDigit, IsDigit, Writes;
    var digits := front + [last];
    assert digits[..|digits| - 1] == front;
    WritesFront(front, last, v);
    DigitsOfBytes(last, v % 16);
  }

  /** A text is accepted between the braces of an escape exactly if it is a numeral. */
  lemma ParseHexExactly(text: seq<Byte>, v: nat)
    ensures ParseHex(text) == Some(v) <==> IsNumeral(text, v)
  {
    hide HexValue, Writes;
    if text != [] && text[0] == 0x2B {
      HexValueExactly(text[1..], v);
      PlusIsNoDigit(text, v);
      NothingWrites(v);
    } else {
      HexValueExactly(text, v);
      NothingWrites(v);
    }
  }

  lemma PlusIsNoDigit(text: seq<Byte>, v: nat)
    requires text != [] && text[0] == 0x2B
    ensures !Writes(text, v)
  {
    hide IsDigit;
    if zeros: nat :| WritesBehind(zeros, text, v) {
      var d := if 0 < zeros then 0 else Digits(v)[0 - zeros];
      assert IsDigit(text[0], d);
      DigitsOfBytes(text[0], d);
    }
  }

  lemma NothingWrites(v: nat)
    ensures !Writes([], v)
  {
  }

  /** Numerals hold no closing brace. */
  lemma NumeralHasNoBrace(text: seq<Byte>, v: nat)
    requires IsNumeral(text, v)
    ensures CLOSE_BRACE !in text
  {
    hide IsDigit;
    if i :| 0 <= i < |text| && text[i] == CLOSE_BRACE {
      if zeros: nat :| WritesBehind(zeros, text, v) {
        var d := if i < zeros then 0 else Digits(v)[i - zeros];
        assert IsDigit(text[i], d);
        DigitsOfBytes(text[i], d);
      } else {
        var zeros: nat :| WritesBehind(zeros, text[1..], v);
        var d := if i - 1 < zeros then 0 else Digits(v)[i - 1 - zeros];
        assert IsDigit(text[1..][i - 1], d);
        DigitsOfBytes(text[i], d);
      }
    }
  }

  // ---------- pieces ----------

  const U: Byte := 0x75

  /** The escapes of one letter. */
  const NAMED: map<char, char> := map['n' := '\n', 't' := '\t', 'r' := '\r', '\\' := '\\', '"' := '"', '0' := '\0']

  datatype Piece = Plain(c: char) | Named(letter: char) | Coded(numeral: seq<Byte>, c: char)

  ghost predicate PieceOk(p: Piece) {
    match p
    case Plain(c) => c != '"' && c != '\\'
    case Named(letter) => letter in NAMED
    case Coded(numeral, c) => IsNumeral(numeral, c as nat)
  }

  function Spelled(p: Piece): seq<Byte> {
    match p
    case Plain(c) => EncodeChar(c)
    case Named(letter) => [BACKSLASH] + EncodeChar(letter)
    case Coded(numeral, _) => [BACKSLASH, U, OPEN_BRACE] + numeral + [CLOSE_BRACE]
  }

  function Meaning(p: Piece): char {
    match p
    case Plain(c) => c
    case Named(letter) => if letter in NAMED then NAMED[letter] else letter
    case Coded(_, c) => c
  }

  /** A plain character takes one column, or starts a line; an escape takes one column for each of its bytes. */
  function Behind(p: Piece, at: Cursor): Cursor {
    var current := at.current + |Spelled(p)|;
    if p == Plain('\n') then Cursor(current, at.line + 1, 1)
    else if p.Plain? then Cursor(current, at.line, at.column + 1)
    else Cursor(current, at.line, at.column + |Spelled(p)|)
  }

  ghost predicate PiecesOk(ps: seq<Piece>) {
    forall i :: 0 <= i < |ps| ==> PieceOk(ps[i])
  }

  function SpelledAll(ps: seq<Piece>): seq<Byte> {
    if ps == [] then [] else Spelled(ps[0]) + SpelledAll(ps[1..])
  }

  function Meanings(ps: seq<Piece>): (s: string)
    ensures |s| == |ps| && forall i :: 0 <= i < |ps| ==> s[i] == Meaning(ps[i])
  {
    seq(|ps|, i requires 0 <= i < |ps| => Meaning(ps[i]))
  }

  function BehindAll(ps: seq<Piece>, at: Cursor): Cursor {
    if ps == [] then at else BehindAll(ps[1..], Behind(ps[0], at))
  }

  // ---------- reading a piece ----------

  lemma ReadsPlain(source: seq<Byte>, at: Cursor, value: string, c: char)
    requires PieceOk(Plain(c)) && Stands(source, at.current, EncodeChar(c))
    ensures Scan(source, at, value) == Scan(source, Behind(Plain(c), at), value + [c])
  {
    hide EncodeChar, Codepoint;
    FirstByte(c);
    StandsByte(source, at.current, EncodeChar(c), 0);
    CodepointReads(source, at.current, c);
  }

  lemma FirstByte(c: char)
    ensures EncodeChar(c)[0] == QUOTE <==> c == '"'
    ensures EncodeChar(c)[0] == BACKSLASH <==> c == '\\'
    ensures EncodeChar(c)[0] == NEWLINE <==> c == '\n'
  {
    hide EncodeChar;
    LeadTellsLength(c);
  }

  /** The escapes of one letter are those of the table. */
  lemma NamedExactly(letter: char)
    ensures (letter as int < 0x80 && SimpleEscape(letter as int as Byte) == Some(Meaning(Named(letter)))) <==>
      letter in NAMED
    ensures letter as int < 0x80 && letter !in NAMED ==> SimpleEscape(letter as int as Byte).None?
    ensures letter in NAMED ==> letter as int < 0x80 && letter != 'u'
  {
  }

  lemma ReadsNamed(source: seq<Byte>, at: Cursor, value: string, letter: char)
    requires PieceOk(Named(letter)) && Stands(source, at.current, Spelled(Named(letter)))
    ensures Scan(source, at, value) == Scan(source, Behind(Named(letter), at), value + [Meaning(Named(letter))])
  {
    hide EncodeChar, Codepoint, SimpleEscape;
    NamedExactly(letter);
    LeadTellsLength(letter);
    StandsByte(source, at.current, Spelled(Named(letter)), 0);
    StandsByte(source, at.current, Spelled(Named(letter)), 1);
  }

  /** The first closing brace behind a text without one. */
  lemma BraceFound(source: seq<Byte>, i: nat, text: seq<Byte>)
    requires CLOSE_BRACE !in text && Stands(source, i, text + [CLOSE_BRACE])
    ensures FindBrace(source, i) == i + |text| && source[i..i + |text|] == text
  {
    var j := FindBrace(source, i);
    forall k | 0 <= k < |text| ensures source[i + k] == text[k] {
      StandsByte(source, i, text + [CLOSE_BRACE], k);
    }
    StandsByte(source, i, text + [CLOSE_BRACE], |text|);
  }

  /** What the braces of an escape hold, once they are found. */
  lemma UnicodeReads(source: seq<Byte>, at: Cursor, text: seq<Byte>)
    requires CLOSE_BRACE !in text
    requires Stands(source, at.current, [BACKSLASH, U, OPEN_BRACE] + text + [CLOSE_BRACE])
    ensures
      var meaning := match ParseHex(text)
        case Some(v) => if IsScalar(v) then Char(v as char) else Failed(NotAScalar(text))
        case None => Failed(NotHexadecimal(text));
      EscapeAt(source, at) == (meaning, Skip(at, |text| + 4, |text| + 4))
  {
    hide ParseHex;
    var i, whole := at.current, [BACKSLASH, U, OPEN_BRACE] + text + [CLOSE_BRACE];
    StandsByte(source, i, whole, 1);
    StandsByte(source, i, whole, 2);
    assert whole == [BACKSLASH, U, OPEN_BRACE] + (text + [CLOSE_BRACE]);
    StandsSplit(source, i, [BACKSLASH, U, OPEN_BRACE], text + [CLOSE_BRACE]);
    BraceFound(source, i + 3, text);
  }

  lemma ReadsCoded(source: seq<Byte>, at: Cursor, value: string, numeral: seq<Byte>, c: char)
    requires PieceOk(Coded(numeral, c)) && Stands(source, at.current, Spelled(Coded(numeral, c)))
    ensures Scan(source, at, value) == Scan(source, Behind(Coded(numeral, c), at), value + [c])
  {
    hide EscapeAt, IsNumeral, ParseHex, Codepoint;
    NumeralHasNoBrace(numeral, c as nat);
    UnicodeReads(source, at, numeral);
    ParseHexExactly(numeral, c as nat);
    StandsByte(source, at.current, Spelled(Coded(numeral, c)), 0);
  }

  lemma ReadsPiece(source: seq<Byte>, at: Cursor, value: string, p: Piece)
    requires PieceOk(p) && Stands(source, at.current, Spelled(p))
    ensures Scan(source, at, value) == Scan(source, Behind(p, at), value + [Meaning(p)])
  {
    hide Scan;
    match p
    case Plain(c) => ReadsPlain(source, at, value, c);
    case Named(letter) => ReadsNamed(source, at, value, letter);
    case Coded(numeral, c) => ReadsCoded(source, at, value, numeral, c);
  }

  // ---------- endings ----------

  /** What comes behind the last piece. */
  datatype Ending =
    | Quote
    | Nothing
    | LoneBackslash
    | Unknown(c: char)
    | NoBrace
    | NoClosing
    | NoNumeral(text: seq<Byte>)
    | NoScalar(text: seq<Byte>, v: nat)

  ghost predicate EndsSo(source: seq<Byte>, i: nat, e: Ending) {
    match e
    case Quote => Stands(source, i, [QUOTE])
    case Nothing => i == |source|
    case LoneBackslash => Stands(source, i, [BACKSLASH]) && i + 1 == |source|
    case Unknown(c) => Stands(source, i, [BACKSLASH] + EncodeChar(c)) && c !in NAMED && c != 'u'
    case NoBrace => Stands(source, i, [BACKSLASH, U]) && !Stands(source, i + 2, [OPEN_BRACE])
    case NoClosing => Stands(source, i, [BACKSLASH, U, OPEN_BRACE]) && CLOSE_BRACE !in source[i + 3..]
    case NoNumeral(text) =>
      && Stands(source, i, [BACKSLASH, U, OPEN_BRACE] + text + [CLOSE_BRACE]) && CLOSE_BRACE !in text
      && forall v: nat :: !IsNumeral(text, v)
    case NoScalar(text, v) =>
      && Stands(source, i, [BACKSLASH, U, OPEN_BRACE] + text + [CLOSE_BRACE]) && CLOSE_BRACE !in text
      && IsNumeral(text, v) && !IsScalar(v)
  }

  function TokenOf(e: Ending, value: string): Token {
    match e
    case Quote => StringLiteral(value)
    case Nothing => Error(Unterminated)
    case LoneBackslash => Error(TrailingBackslash)
    case Unknown(c) => Error(UnknownEscape(c))
    case NoBrace => Error(BraceExpected)
    case NoClosing => Error(UnterminatedEscape)
    case NoNumeral(text) => Error(NotHexadecimal(text))
    case NoScalar(text, _) => Error(NotAScalar(text))
  }

  /** The bytes and the columns the ending takes. */
  function Width(source: seq<Byte>, i: nat, e: Ending): (nat, nat) {
    match e
    case Quote => (1, 1)
    case Nothing => (0, 0)
    case LoneBackslash => (1, 1)
    case Unknown(c) => (1 + |EncodeChar(c)|, 2)
    case NoBrace => (2, 2)
    case NoClosing => if i <= |source| then (|source| - i, |source| - i) else (0, 0)
    case NoNumeral(text) => (|text| + 4, |text| + 4)
    case NoScalar(text, _) => (|text| + 4, |text| + 4)
  }

  lemma ReadsEnding(source: seq<Byte>, at: Cursor, value: string, e: Ending)
    requires at.current <= |source| && EndsSo(source, at.current, e)
    ensures var (bytes, columns) := Width(source, at.current, e);
      Scan(source, at, value) == (TokenOf(e, value), Skip(at, bytes, columns))
  {
    hide EncodeChar, Scan, EscapeAt;
    match e
    case Quote =>
      StandsByte(source, at.current, [QUOTE], 0);
      ScanCloses(source, at, value);
    case Nothing =>
      ScanOpens(source, at, value);
    case LoneBackslash =>
      StandsByte(source, at.current, [BACKSLASH], 0);
      LoneReads(source, at);
      ScanFails(source, at, value);
    case Unknown(c) =>
      UnknownReads(source, at, c);
      ScanFails(source, at, value);
    case _ =>
      ReadsUnicodeEnding(source, at, e);
      ScanFails(source, at, value);
  }

  lemma ScanOpens(source: seq<Byte>, at: Cursor, value: string)
    requires at.current == |source|
    ensures Scan(source, at, value) == (Error(Unterminated), at)
  {
  }

  /** An escape that means nothing ends the literal. */
  lemma ScanFails(source: seq<Byte>, at: Cursor, value: string)
    requires at.current < |source| && source[at.current] == BACKSLASH && EscapeAt(source, at).0.Failed?
    ensures Scan(source, at, value) == (Error(EscapeAt(source, at).0.error), EscapeAt(source, at).1)
  {
    hide EscapeAt, Codepoint;
  }

  lemma LoneReads(source: seq<Byte>, at: Cursor)
    requires at.current + 1 == |source|
    ensures EscapeAt(source, at) == (Failed(TrailingBackslash), Skip(at, 1, 1))
  {
  }

  lemma ReadsUnicodeEnding(source: seq<Byte>, at: Cursor, e: Ending)
    requires (e.NoBrace? || e.NoClosing? || e.NoNumeral? || e.NoScalar?) && EndsSo(source, at.current, e)
    ensures at.current < |source| && source[at.current] == BACKSLASH
    ensures var (bytes, columns) := Width(source, at.current, e);
      EscapeAt(source, at) == (Failed(TokenOf(e, "").error), Skip(at, bytes, columns))
  {
    hide EscapeAt, ParseHex, IsNumeral;
    var i := at.current;
    match e
    case NoBrace =>
      UReads(source, at);
      PeeksNoBrace(source, i + 2);
    case NoClosing =>
      StandsByte(source, i, [BACKSLASH, U, OPEN_BRACE], 2);
      UReads(source, at);
      assert forall k :: i + 3 <= k < |source| ==> source[i + 3..][k - i - 3] == source[k];
    case NoNumeral(text) =>
      BracedStarts(source, i, text);
      UnicodeReads(source, at, text);
      if ParseHex(text).Some? {
        ParseHexExactly(text, ParseHex(text).value);
      }
    case NoScalar(text, v) =>
      BracedStarts(source, i, text);
      UnicodeReads(source, at, text);
      ParseHexExactly(text, v);
  }

  lemma BracedStarts(source: seq<Byte>, i: nat, text: seq<Byte>)
    requires Stands(source, i, [BACKSLASH, U, OPEN_BRACE] + text + [CLOSE_BRACE])
    ensures i < |source| && source[i] == BACKSLASH
  {
    StandsByte(source, i, [BACKSLASH, U, OPEN_BRACE] + text + [CLOSE_BRACE], 0);
  }

  lemma PeeksNoBrace(source: seq<Byte>, i: nat)
    requires !Stands(source, i, [OPEN_BRACE])
    ensures Peek(source, i) != OPEN_BRACE
  {
    if i < |source| {
      assert source[i..i + 1] == [source[i]];
    }
  }

  /** `\u`, before its braces. */
  lemma UReads(source: seq<Byte>, at: Cursor)
    requires at.current + 2 <= |source|
    requires Stands(source, at.current, [BACKSLASH, U]) || Stands(source, at.current, [BACKSLASH, U, OPEN_BRACE])
    ensures source[at.current] == BACKSLASH
    ensures var (meaning, end) := UnicodeEscape(source, at.current + 2);
      EscapeAt(source, at) == (meaning, Skip(at, end - at.current, end - at.current))
  {
    hide UnicodeEscape;
    var i := at.current;
    if Stands(source, i, [BACKSLASH, U]) {
      StandsByte(source, i, [BACKSLASH, U], 0);
      StandsByte(source, i, [BACKSLASH, U], 1);
    } else {
      StandsByte(source, i, [BACKSLASH, U, OPEN_BRACE], 0);
      StandsByte(source, i, [BACKSLASH, U, OPEN_BRACE], 1);
    }
  }

  lemma UnknownReads(source: seq<Byte>, at: Cursor, c: char)
    requires EndsSo(source, at.current, Unknown(c))
    ensures at.current < |source| && source[at.current] == BACKSLASH
    ensures EscapeAt(source, at) == (Failed(UnknownEscape(c)), Skip(at, 1 + |EncodeChar(c)|, 2))
  {
    hide EncodeChar, Codepoint, SimpleEscape;
    var i := at.current;
    LeadTellsLength(c);
    NamedExactly(c);
    StandsByte(source, i, [BACKSLASH] + EncodeChar(c), 0);
    StandsByte(source, i, [BACKSLASH] + EncodeChar(c), 1);
    StandsSplit(source, i, [BACKSLASH], EncodeChar(c));
    CodepointReads(source, i + 1, c);
    if c as int >= 0x80 {
      NoEscapeAbove(source[i + 1]);
    }
  }

  lemma NoEscapeAbove(b: Byte)
    requires b >= 0x80
    ensures SimpleEscape(b).None? && b != U
  {
  }

  // ---------- every literal ----------

  /** From index `i` on the source holds the pieces and then the ending. */
  ghost predicate HasForm(source: seq<Byte>, i: nat, ps: seq<Piece>, e: Ending) {
    PiecesOk(ps) && Stands(source, i, SpelledAll(ps)) && EndsSo(source, i + |SpelledAll(ps)|, e)
  }

  /** The lexer gives the token of the form: the meanings of the pieces up to the closing quote, or the error. */
  lemma {:induction false} ScanReadsForm(source: seq<Byte>, at: Cursor, value: string, ps: seq<Piece>, e: Ending)
    requires HasForm(source, at.current, ps, e)
    ensures
      var behind := BehindAll(ps, at);
      && var (bytes, columns) := Width(source, behind.current, e);
      && at.current <= |source|
      && Scan(source, at, value) == (TokenOf(e, value + Meanings(ps)), Skip(behind, bytes, columns))
    decreases |ps|
  {
    hide Scan, EndsSo, PieceOk, Spelled, Width, TokenOf;
    if ps == [] {
      assert value + Meanings(ps) == value;
      ReadsEnding(source, at, value, e);
    } else {
      StandsSplit(source, at.current, Spelled(ps[0]), SpelledAll(ps[1..]));
      ReadsPiece(source, at, value, ps[0]);
      ScanReadsForm(source, Behind(ps[0], at), value + [Meaning(ps[0])], ps[1..], e);
      assert value + [Meaning(ps[0])] + Meanings(ps[1..]) == value + Meanings(ps);
    }
  }

  /** Text, from index `i` to the end of the source. */
  ghost predicate Remains(source: seq<Byte>, i: nat, text: string) {
    i <= |source| && source[i..] == Encode(text)
  }

  lemma SuffixSplit(source: seq<Byte>, i: nat, a: seq<Byte>, b: seq<Byte>)
    requires i <= |source| && source[i..] == a + b
    ensures i + |a| <= |source| && source[i..i + |a|] == a && source[i + |a|..] == b
  {
    assert |source| == i + |a| + |b|;
    assert source[i..i + |a|] == source[i..][..|a|] == a;
    assert source[i + |a|..] == source[i..][|a|..] == b;
  }

  lemma RemainsSplit(source: seq<Byte>, i: nat, a: string, b: string)
    requires Remains(source, i, a + b)
    ensures Stands(source, i, Encode(a)) && Remains(source, i + |Encode(a)|, b)
  {
    hide EncodeChar, Encode;
    EncodeAppends(a, b);
    SuffixSplit(source, i, Encode(a), Encode(b));
  }

  lemma EncodeOne(c: char)
    ensures Encode([c]) == EncodeChar(c)
  {
    assert [c][1..] == "";
  }

  /** The bytes of ASCII characters. */
  lemma EncodeStart(s: string)
    requires s != ""
    ensures Encode(s) == EncodeChar(s[0]) + Encode(s[1..])
  {
  }

  /** One more piece in front of a form. */
  lemma FormGrows(source: seq<Byte>, i: nat, p: Piece, ps: seq<Piece>, e: Ending)
    requires PieceOk(p) && Stands(source, i, Spelled(p)) && HasForm(source, i + |Spelled(p)|, ps, e)
    ensures HasForm(source, i, [p] + ps, e)
  {
    hide EndsSo, PieceOk, Spelled;
    assert ([p] + ps)[1..] == ps;
    var a, b := Spelled(p), SpelledAll(ps);
    assert source[i..i + |a| + |b|] == source[i..i + |a|] + source[i + |a|..i + |a| + |b|];
  }

  lemma TextSplit(source: seq<Byte>, i: nat, text: string, n: nat)
    requires Remains(source, i, text) && n <= |text|
    ensures Stands(source, i, Encode(text[..n])) && Remains(source, i + |Encode(text[..n])|, text[n..])
  {
    hide EncodeChar, Encode;
    assert text == text[..n] + text[n..];
    RemainsSplit(source, i, text[..n], text[n..]);
  }

  /** An ASCII character is in a text if its byte is in the encoding. */
  lemma {:induction false} AsciiInText(s: string, c: char)
    requires c as int < 0x80
    ensures (c as int as Byte) in Encode(s) <==> c in s
  {
    hide EncodeChar;
    if s != "" {
      AsciiInText(s[1..], c);
      AsciiInChar(s[0], c);
      assert s == [s[0]] + s[1..];
    }
  }

  lemma AsciiInChar(d: char, c: char)
    requires c as int < 0x80
    ensures (c as int as Byte) in EncodeChar(d) <==> c == d
  {
    LeadTellsLength(d);
    if d as int >= 0x80 {
      assert forall i :: 0 <= i < |EncodeChar(d)| ==> EncodeChar(d)[i] >= 0x80;
    }
  }

  lemma EmptyEnds(source: seq<Byte>, i: nat)
    requires Remains(source, i, "")
    ensures HasForm(source, i, [], Nothing)
  {
  }

  /** The encodings of one and two characters. */
  lemma EncodeTwo(a: char, b: char)
    ensures Encode([a, b]) == EncodeChar(a) + EncodeChar(b)
  {
    hide EncodeChar;
    EncodeStart([a, b]);
    assert [a, b][1..] == [b];
    EncodeOne(b);
  }

  lemma QuoteEnds(source: seq<Byte>, i: nat, text: string)
    requires Remains(source, i, text) && text != "" && text[0] == '"'
    ensures HasForm(source, i, [], Quote)
  {
    hide EncodeChar, Encode;
    TextSplit(source, i, text, 1);
    assert text[..1] == ['"'];
    EncodeOne('"');
    LeadTellsLength('"');
  }

  lemma PlainStands(source: seq<Byte>, i: nat, text: string)
    requires Remains(source, i, text) && text != "" && text[0] != '"' && text[0] != '\\'
    ensures PieceOk(Plain(text[0])) && Stands(source, i, Spelled(Plain(text[0])))
    ensures Remains(source, i + |Spelled(Plain(text[0]))|, text[1..])
  {
    hide EncodeChar, Encode;
    TextSplit(source, i, text, 1);
    assert text[..1] == [text[0]];
    EncodeOne(text[0]);
  }

  lemma NamedStands(source: seq<Byte>, i: nat, text: string)
    requires Remains(source, i, text) && |text| >= 2 && text[0] == '\\' && text[1] in NAMED
    ensures PieceOk(Named(text[1])) && Stands(source, i, Spelled(Named(text[1])))
    ensures Remains(source, i + |Spelled(Named(text[1]))|, text[2..])
  {
    hide EncodeChar, Encode;
    TextSplit(source, i, text, 2);
    assert text[..2] == [text[0], text[1]];
    EncodeTwo(text[0], text[1]);
    LeadTellsLength('\\');
  }

  /** The bytes of `\u{`. */
  lemma EncodeOpening()
    ensures Encode("\\u{") == [BACKSLASH, U, OPEN_BRACE] && Encode("\\u") == [BACKSLASH, U]
  {
    hide EncodeChar, Encode;
    EncodeTwo('\\', 'u');
    LeadTellsLength('\\');
    LeadTellsLength('u');
    LeadTellsLength('{');
    EncodeOne('{');
    EncodeAppends("\\u", "{");
    assert "\\u" == ['\\', 'u'] && "\\u" + "{" == "\\u{";
  }

  /** A braced escape up to the first closing brace. */
  lemma BracedStands(source: seq<Byte>, i: nat, text: string, k: nat)
    requires Remains(source, i, text) && "\\u{" <= text && k < |text| && text[k] == '}' && '}' !in text[..k]
    ensures k >= 3 && CLOSE_BRACE !in Encode(text[3..k])
    ensures Stands(source, i, [BACKSLASH, U, OPEN_BRACE] + Encode(text[3..k]) + [CLOSE_BRACE])
    ensures Remains(source, i + |Encode(text[3..k])| + 4, text[k + 1..])
  {
    hide EncodeChar, Encode;
    assert text[0] == '\\' && text[1] == 'u' && text[2] == '{';
    var inside := text[3..k];
    AsciiInText(inside, '}');
    assert forall j :: 0 <= j < |inside| ==> inside[j] == text[..k][j + 3];
    TextSplit(source, i, text, k + 1);
    assert text[..k + 1] == "\\u{" + inside + ['}'];
    EncodeAppends("\\u{", inside);
    EncodeAppends("\\u{" + inside, ['}']);
    EncodeOpening();
    EncodeOne('}');
    LeadTellsLength('}');
  }

  lemma CodedStands(source: seq<Byte>, i: nat, p: Piece)
    requires p.Coded? && IsNumeral(p.numeral, p.c as nat)
    requires Stands(source, i, [BACKSLASH, U, OPEN_BRACE] + p.numeral + [CLOSE_BRACE])
    ensures PieceOk(p) && Stands(source, i, Spelled(p)) && |Spelled(p)| == |p.numeral| + 4
  {
    hide IsNumeral;
  }

  lemma BracedEnds(source: seq<Byte>, i: nat, inside: seq<Byte>, e: Ending)
    requires Stands(source, i, [BACKSLASH, U, OPEN_BRACE] + inside + [CLOSE_BRACE]) && CLOSE_BRACE !in inside
    requires
      || (e == NoNumeral(inside) && forall v: nat :: !IsNumeral(inside, v))
      || (e.NoScalar? && e.text == inside && IsNumeral(inside, e.v) && !IsScalar(e.v))
    ensures HasForm(source, i, [], e)
  {
    hide IsNumeral;
  }

  /** A backslash that starts no escape. */
  lemma EscapeEnds(source: seq<Byte>, i: nat, text: string) returns (e: Ending)
    requires Remains(source, i, text) && text != "" && text[0] == '\\'
    requires |text| >= 2 ==> text[1] !in NAMED
    requires !("\\u{" <= text && '}' in text)
    ensures HasForm(source, i, [], e)
  {
    hide EncodeChar, Encode;
    LeadTellsLength('\\');
    if |text| == 1 {
      assert text == ['\\'];
      EncodeOne('\\');
      e := LoneBackslash;
    } else if text[1] != 'u' {
      TextSplit(source, i, text, 2);
      assert text[..2] == [text[0], text[1]];
      EncodeTwo(text[0], text[1]);
      e := Unknown(text[1]);
    } else {
      e := BraceMissing(source, i, text);
    }
  }

  lemma BraceMissing(source: seq<Byte>, i: nat, text: string) returns (e: Ending)
    requires Remains(source, i, text) && |text| >= 2 && text[0] == '\\' && text[1] == 'u'
    requires !("\\u{" <= text && '}' in text)
    ensures HasForm(source, i, [], e)
  {
    hide EncodeChar, Encode;
    EncodeOpening();
    if |text| > 2 && text[2] == '{' {
      TextSplit(source, i, text, 3);
      assert text[..3] == "\\u{";
      AsciiInText(text[3..], '}');
      e := NoClosing;
    } else {
      TextSplit(source, i, text, 2);
      assert text[..2] == "\\u";
      if text[2..] != "" {
        StartIsNoBrace(source, i + 2, text[2..]);
      } else {
        NothingEncoded();
      }
      e := NoBrace;
    }
  }

  lemma NothingEncoded()
    ensures Encode("") == []
  {
  }

  lemma StartIsNoBrace(source: seq<Byte>, i: nat, text: string)
    requires Remains(source, i, text) && text != "" && text[0] != '{'
    ensures !Stands(source, i, [OPEN_BRACE])
  {
    hide EncodeChar, Encode;
    EncodeStart(text);
    AsciiInChar(text[0], '{');
    assert source[i] == source[i..][0] == EncodeChar(text[0])[0];
    if Stands(source, i, [OPEN_BRACE]) {
      StandsByte(source, i, [OPEN_BRACE], 0);
    }
  }

  /** Every text behind an opening quote is of some form. */
  lemma {:induction false} EveryTextHasForm(source: seq<Byte>, i: nat, text: string)
    returns (ps: seq<Piece>, e: Ending)
    requires Remains(source, i, text)
    ensures HasForm(source, i, ps, e)
    decreases |text|, 2
  {
    hide HasForm, PieceOk, Spelled, Encode, Remains, Stands;
    if text == "" {
      EmptyEnds(source, i);
      ps, e := [], Nothing;
    } else if text[0] == '"' {
      QuoteEnds(source, i, text);
      ps, e := [], Quote;
    } else if text[0] != '\\' {
      PlainStands(source, i, text);
      ps, e := PieceAndMore(source, i, Plain(text[0]), text[1..]);
    } else if |text| >= 2 && text[1] in NAMED {
      NamedStands(source, i, text);
      ps, e := PieceAndMore(source, i, Named(text[1]), text[2..]);
    } else if "\\u{" <= text && '}' in text {
      ps, e := BracedHasForm(source, i, text);
    } else {
      e := EscapeEnds(source, i, text);
      ps := [];
    }
  }

  lemma {:induction false} PieceAndMore(source: seq<Byte>, i: nat, p: Piece, text: string)
    returns (ps: seq<Piece>, e: Ending)
    requires PieceOk(p) && Stands(source, i, Spelled(p)) && Remains(source, i + |Spelled(p)|, text)
    ensures HasForm(source, i, ps, e)
    decreases |text|, 3
  {
    hide HasForm, PieceOk, Spelled, Encode, Remains, Stands;
    ps, e := EveryTextHasForm(source, i + |Spelled(p)|, text);
    FormGrows(source, i, p, ps, e);
    ps := [p] + ps;
  }

  lemma FirstBrace(text: string) returns (k: nat)
    requires '}' in text
    ensures k < |text| && text[k] == '}' && '}' !in text[..k]
  {
    k := 0;
    while text[k] != '}'
      invariant k < |text| && '}' !in text[..k]
      decreases |text| - k
    {
      k := k + 1;
    }
  }

  lemma {:induction false} BracedHasForm(source: seq<Byte>, i: nat, text: string)
    returns (ps: seq<Piece>, e: Ending)
    requires Remains(source, i, text) && "\\u{" <= text && '}' in text
    ensures HasForm(source, i, ps, e)
    decreases |text|, 1
  {
    hide HasForm, PieceOk, Spelled, EncodeChar, Encode, IsNumeral, Remains, Stands;
    var k := FirstBrace(text);
    var inside := Encode(text[3..k]);
    BracedStands(source, i, text, k);
    if v: nat :| IsNumeral(inside, v) {
      if IsScalar(v) {
        var p := Coded(inside, v as char);
        CodedStands(source, i, p);
        ps, e := PieceAndMore(source, i, p, text[k + 1..]);
      } else {
        ps, e := [], NoScalar(inside, v);
        BracedEnds(source, i, inside, e);
      }
    } else {
      ps, e := [], NoNumeral(inside);
      BracedEnds(source, i, inside, e);
    }
  }

  /** From the opening quote: three quotes hand over to multi-line literals; else the form behind the quote decides. */
  lemma LiteralsAreRead(source: seq<Byte>, at: Cursor, text: string) returns (ps: seq<Piece>, e: Ending)
    requires Stands(source, at.current, [QUOTE]) && Remains(source, at.current + 1, text)
    ensures HasForm(source, at.current + 1, ps, e) && source[at.current] == QUOTE
    ensures
      var behind := BehindAll(ps, Skip(at, 1, 1));
      var (bytes, columns) := Width(source, behind.current, e);
      ScanQuote(source, at) ==
        if "\"\"" <= text then (MultiString, Skip(at, 3, 3))
        else (TokenOf(e, Meanings(ps)), Skip(behind, bytes, columns))
  {
    hide HasForm, Scan, EncodeChar, Encode, Width, TokenOf;
    StandsByte(source, at.current, [QUOTE], 0);
    ps, e := EveryTextHasForm(source, at.current + 1, text);
    ScanReadsForm(source, Skip(at, 1, 1), "", ps, e);
    assert "" + Meanings(ps) == Meanings(ps);
    PeeksQuote(source, at.current + 1, text);
  }

  lemma PeeksQuote(source: seq<Byte>, i: nat, text: string)
    requires Remains(source, i, text)
    ensures Peek(source, i) == QUOTE && Peek(source, i + 1) == QUOTE <==> "\"\"" <= text
  {
    hide EncodeChar, Encode;
    if text == "" {
      NothingEncoded();
    } else {
      PeeksFirst(source, i, text);
      if text[0] == '"' {
        LeadTellsLength('"');
        TextSplit(source, i, text, 1);
        assert text[..1] == ['"'];
        EncodeOne('"');
        if text[1..] == "" {
          NothingEncoded();
        } else {
          PeeksFirst(source, i + 1, text[1..]);
        }
      }
    }
  }

  lemma PeeksFirst(source: seq<Byte>, i: nat, text: string)
    requires Remains(source, i, text) && text != ""
    ensures Peek(source, i) == QUOTE <==> text[0] == '"'
  {
    hide EncodeChar, Encode;
    EncodeStart(text);
    LeadTellsLength(text[0]);
    assert source[i] == source[i..][0] == EncodeChar(text[0])[0];
  }
}
