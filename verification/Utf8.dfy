/** UTF-8 as section 3 of RFC 3629 defines it; a `char` is a Unicode scalar value. */
module Utf8 {
  import opened Basics

  newtype Byte = b: int | 0 <= b < 256

  function EncodeChar(c: char): (bytes: seq<Byte>)
    ensures 1 <= |bytes| <= 4
  {
    var v := c as int;
    if v < 0x80 then [v as Byte]
    else if v < 0x800 then [(0xC0 + v / 0x40) as Byte, (0x80 + v % 0x40) as Byte]
    else if v < 0x1_0000 then [(0xE0 + v / 0x1000) as Byte, (0x80 + v / 0x40 % 0x40) as Byte, (0x80 + v % 0x40) as Byte]
    else
      [(0xF0 + v / 0x4_0000) as Byte, (0x80 + v / 0x1000 % 0x40) as Byte,
       (0x80 + v / 0x40 % 0x40) as Byte, (0x80 + v % 0x40) as Byte]
  }

  function Encode(s: string): (bytes: seq<Byte>) {
    if s == "" then [] else EncodeChar(s[0]) + Encode(s[1..])
  }

  /** The length a lead byte announces. */
  function ByteLength(lead: Byte): (n: Option<nat>)
    ensures n.Some? ==> 1 <= n.value <= 4
  {
    if lead < 0x80 then Some(1)
    else if 0xC0 <= lead < 0xE0 then Some(2)
    else if 0xE0 <= lead < 0xF0 then Some(3)
    else if 0xF0 <= lead < 0xF8 then Some(4)
    else None
  }

  predicate IsScalar(v: int) {
    0 <= v < 0xD800 || 0xE000 <= v < 0x11_0000
  }

  predicate IsTail(b: Byte) {
    0x80 <= b < 0xC0
  }

  /** The character the bytes encode, if they encode exactly one. Overlong forms and surrogates encode none. */
  function DecodeOne(b: seq<Byte>): (c: Option<char>) {
    if |b| == 1 && b[0] < 0x80 then Some(b[0] as char)
    else if |b| == 2 && 0xC0 <= b[0] < 0xE0 && IsTail(b[1]) then
      var v := (b[0] as int - 0xC0) * 0x40 + (b[1] as int - 0x80);
      if 0x80 <= v then Some(v as char) else None
    else if |b| == 3 && 0xE0 <= b[0] < 0xF0 && IsTail(b[1]) && IsTail(b[2]) then
      var v := (b[0] as int - 0xE0) * 0x1000 + (b[1] as int - 0x80) * 0x40 + (b[2] as int - 0x80);
      if 0x800 <= v && IsScalar(v) then Some(v as char) else None
    else if |b| == 4 && 0xF0 <= b[0] < 0xF8 && IsTail(b[1]) && IsTail(b[2]) && IsTail(b[3]) then
      var v := (b[0] as int - 0xF0) * 0x4_0000 + (b[1] as int - 0x80) * 0x1000
        + (b[2] as int - 0x80) * 0x40 + (b[3] as int - 0x80);
      if 0x1_0000 <= v && IsScalar(v) then Some(v as char) else None
    else None
  }

  lemma SplitsInSixties(high: nat, low: nat)
    requires low < 0x40
    ensures (high * 0x40 + low) / 0x40 == high && (high * 0x40 + low) % 0x40 == low
  {
  }

  lemma DecodeEncoded(c: char)
    ensures DecodeOne(EncodeChar(c)) == Some(c)
  {
    var v, b := c as int, EncodeChar(c);
    assert v == v / 0x40 * 0x40 + v % 0x40;
    assert v / 0x40 == v / 0x40 / 0x40 * 0x40 + v / 0x40 % 0x40;
    assert v / 0x1000 == v / 0x40 / 0x40 && v / 0x4_0000 == v / 0x1000 / 0x40;
    assert v / 0x1000 == v / 0x1000 / 0x40 * 0x40 + v / 0x1000 % 0x40;
  }

  /** Three continuation digits of six bits, taken apart. */
  lemma SplitsTwice(high: nat, mid: nat, low: nat)
    requires mid < 0x40 && low < 0x40
    ensures var v := (high * 0x40 + mid) * 0x40 + low;
      v / 0x1000 == high && v / 0x40 % 0x40 == mid && v % 0x40 == low
  {
    SplitsInSixties(high, mid);
    SplitsInSixties(high * 0x40 + mid, low);
    assert ((high * 0x40 + mid) * 0x40 + low) / 0x1000 == (high * 0x40 + mid) / 0x40;
  }

  lemma EncodeDecoded(b: seq<Byte>, c: char)
    requires DecodeOne(b) == Some(c)
    ensures b == EncodeChar(c)
  {
    if |b| == 2 {
      SplitsInSixties(b[0] as nat - 0xC0, b[1] as nat - 0x80);
    } else if |b| == 3 {
      SplitsTwice(b[0] as nat - 0xE0, b[1] as nat - 0x80, b[2] as nat - 0x80);
    } else if |b| == 4 {
      EncodeDecodedLong(b, c);
    }
  }

  lemma EncodeDecodedLong(b: seq<Byte>, c: char)
    requires |b| == 4 && DecodeOne(b) == Some(c)
    ensures b == EncodeChar(c)
  {
    var top := (b[0] as nat - 0xF0) * 0x40 + (b[1] as nat - 0x80);
    SplitsInSixties(b[0] as nat - 0xF0, b[1] as nat - 0x80);
    SplitsTwice(top, b[2] as nat - 0x80, b[3] as nat - 0x80);
    assert c as int == (top * 0x40 + (b[2] as nat - 0x80)) * 0x40 + (b[3] as nat - 0x80);
    assert c as int / 0x4_0000 == top / 0x40;
  }

  /** Decoding undoes encoding, and succeeds on nothing else. */
  lemma DecodeIsInverse(c: char, b: seq<Byte>)
    ensures DecodeOne(b) == Some(c) <==> b == EncodeChar(c)
  {
    hide DecodeOne, EncodeChar;
    DecodeEncoded(c);
    if DecodeOne(b) == Some(c) {
      EncodeDecoded(b, c);
    }
  }

  /** The lead byte announces the encoding's length; only ASCII characters have lead bytes below 0x80. */
  lemma LeadTellsLength(c: char)
    ensures ByteLength(EncodeChar(c)[0]) == Some(|EncodeChar(c)|)
    ensures EncodeChar(c)[0] < 0x80 <==> c as int < 0x80
    ensures c as int < 0x80 ==> EncodeChar(c) == [c as int as Byte]
  {
  }

  lemma {:induction false} EncodeAppends(s: string, t: string)
    ensures Encode(s + t) == Encode(s) + Encode(t)
  {
    if s == "" {
      assert s + t == t;
    } else {
      assert (s + t)[0] == s[0] && (s + t)[1..] == s[1..] + t;
      EncodeAppends(s[1..], t);
    }
  }

  /** The bytes first differ at `k`, where those of `a` are smaller. */
  predicate ComesBefore(a: seq<Byte>, b: seq<Byte>, k: nat) {
    k < |a| && k < |b| && a[..k] == b[..k] && a[k] < b[k]
  }

  /** Of two numbers the smaller one has the smaller quotient, or the same and the smaller remainder. */
  lemma SmallerInSixties(v: nat, w: nat)
    requires v < w
    ensures v / 0x40 < w / 0x40 || (v / 0x40 == w / 0x40 && v % 0x40 < w % 0x40)
  {
    assert v == v / 0x40 * 0x40 + v % 0x40 && w == w / 0x40 * 0x40 + w % 0x40;
  }

  /** The length of an encoding, and its continuation bytes in sixties. */
  lemma EncodingInSixties(c: char)
    ensures var (v, b) := (c as int, EncodeChar(c));
      && (|b| == 1 <==> v < 0x80) && (|b| <= 2 <==> v < 0x800) && (|b| <= 3 <==> v < 0x1_0000)
      && (|b| == 1 ==> b[0] as int == v)
      && (|b| == 2 ==> b[0] as int == 0xC0 + v / 0x40 && b[1] as int == 0x80 + v % 0x40)
      && (|b| == 3 ==>
            && b[0] as int == 0xE0 + v / 0x40 / 0x40 && b[1] as int == 0x80 + v / 0x40 % 0x40
            && b[2] as int == 0x80 + v % 0x40)
      && (|b| == 4 ==>
            && b[0] as int == 0xF0 + v / 0x40 / 0x40 / 0x40 && b[1] as int == 0x80 + v / 0x40 / 0x40 % 0x40
            && b[2] as int == 0x80 + v / 0x40 % 0x40 && b[3] as int == 0x80 + v % 0x40)
  {
    var v := c as int;
    assert v / 0x1000 == v / 0x40 / 0x40 && v / 0x4_0000 == v / 0x40 / 0x40 / 0x40;
  }

  /** The order of code points is the order of their bytes, compared from left to right. */
  lemma EncodingKeepsOrder(c: char, d: char) returns (k: nat)
    requires c < d
    ensures ComesBefore(EncodeChar(c), EncodeChar(d), k)
  {
    hide EncodeChar;
    var v, w, a, b := c as nat, d as nat, EncodeChar(c), EncodeChar(d);
    EncodingInSixties(c);
    EncodingInSixties(d);
    k := 0;
    if |a| == |b| > 1 {
      SmallerInSixties(v, w);
      k := 1;
      if v / 0x40 < w / 0x40 {
        k := SmallerHigher(c, d);
      } else if |a| > 2 {
        k := |a| - 1;
      }
    } else {
      LeadsGrow(c, d);
    }
  }

  /** The difference lies before the last byte. */
  lemma SmallerHigher(c: char, d: char) returns (k: nat)
    requires |EncodeChar(c)| == |EncodeChar(d)| > 1 && c as nat / 0x40 < d as nat / 0x40
    ensures ComesBefore(EncodeChar(c), EncodeChar(d), k)
  {
    hide EncodeChar;
    var v, w, n := c as nat / 0x40, d as nat / 0x40, |EncodeChar(c)|;
    EncodingInSixties(c);
    EncodingInSixties(d);
    k := 0;
    if n > 2 {
      SmallerInSixties(v, w);
      if v / 0x40 == w / 0x40 {
        k := n - 2;
      } else if n == 4 {
        k := SmallerTop(c, d);
      }
    }
  }

  lemma SmallerTop(c: char, d: char) returns (k: nat)
    requires |EncodeChar(c)| == |EncodeChar(d)| == 4 && c as nat / 0x40 / 0x40 < d as nat / 0x40 / 0x40
    ensures ComesBefore(EncodeChar(c), EncodeChar(d), k)
  {
    hide EncodeChar;
    var v, w := c as nat / 0x40 / 0x40, d as nat / 0x40 / 0x40;
    EncodingInSixties(c);
    EncodingInSixties(d);
    SmallerInSixties(v, w);
    k := if v / 0x40 == w / 0x40 then 1 else 0;
  }

  /** A longer encoding has the greater lead byte. */
  lemma LeadsGrow(c: char, d: char)
    requires c < d && (|EncodeChar(c)| != |EncodeChar(d)| || |EncodeChar(c)| == 1)
    ensures EncodeChar(c)[0] < EncodeChar(d)[0]
  {
    hide EncodeChar;
    EncodingInSixties(c);
    EncodingInSixties(d);
    var v, w := c as nat, d as nat;
    assert |EncodeChar(c)| <= |EncodeChar(d)|;
    assert |EncodeChar(c)| == 2 ==> v / 0x40 < 0x20;
    assert |EncodeChar(c)| == 3 ==> v / 0x40 / 0x40 < 0x10;
  }

  /** The examples of section 7 of RFC 3629. */
  lemma EncodingExamples()
    ensures EncodeChar('A') == [0x41] && EncodeChar('\U{0391}') == [0xCE, 0x91]
    ensures EncodeChar('\U{2262}') == [0xE2, 0x89, 0xA2] && EncodeChar('\U{D55C}') == [0xED, 0x95, 0x9C]
    ensures EncodeChar('\U{233B4}') == [0xF0, 0xA3, 0x8E, 0xB4]
  {
  }
}
