/** The query-string builder: a list of fields, each passed through
    `encodeURI` when added, joined by "&".  `encodeURI` follows section
    18.2.6.4 of ECMA-262, 2015 edition, and `DecodeURI` (section 18.2.6.2)
    is written beside it as its inverse. */
module QueryString {
  import opened Prelude
  import opened Strings

  predicate IsAsciiAlphanumeric(c: char)
  {
    'a' <= c <= 'z' || 'A' <= c <= 'Z' || '0' <= c <= '9'
  }

  /** uriReserved plus "#": what `decodeURI` leaves escaped. */
  predicate IsReservedOrHash(c: char)
  {
    c in ";/?:@&=+$,#"
  }

  /** What `encodeURI` leaves as it is: uriUnescaped, uriReserved and "#". */
  predicate Unescaped(c: char)
  {
    IsAsciiAlphanumeric(c) || c in "-_.!~*'()" || IsReservedOrHash(c)
  }

  function HexChar(d: nat): (c: char)
    requires d < 16
  {
    if d < 10 then ('0' as int + d) as char else ('A' as int + d - 10) as char
  }

  /** The value of a hexadecimal digit of either case, or -1. */
  function HexValue(c: char): int
  {
    if '0' <= c <= '9' then c as int - '0' as int
    else if 'A' <= c <= 'F' then c as int - 'A' as int + 10
    else if 'a' <= c <= 'f' then c as int - 'a' as int + 10
    else -1
  }

  /** "%XX" with upper-case hexadecimal digits. */
  function Percent(b: nat): string
    requires b < 256
  {
    ['%', HexChar(b / 16), HexChar(b % 16)]
  }

  /** The UTF-8 encoding of a Unicode scalar value. */
  function Utf8(c: char): (bytes: seq<nat>)
    ensures 1 <= |bytes| <= 4
    ensures forall i :: 0 <= i < |bytes| ==> bytes[i] < 256
  {
    var cp := c as int;
    var q1, r1 := cp / 64, cp % 64;
    var q2, r2 := q1 / 64, q1 % 64;
    var q3, r3 := q2 / 64, q2 % 64;
    if cp < 0x80 then [cp]
    else if cp < 0x800 then [0xC0 + q1, 0x80 + r1]
    else if cp < 0x10000 then [0xE0 + q2, 0x80 + r2, 0x80 + r1]
    else [0xF0 + q3, 0x80 + r3, 0x80 + r2, 0x80 + r1]
  }

  function PercentAll(bytes: seq<nat>): string
    requires forall i :: 0 <= i < |bytes| ==> bytes[i] < 256
  {
    if |bytes| == 0 then "" else Percent(bytes[0]) + PercentAll(bytes[1..])
  }

  function EncodeChar(c: char): string
  {
    if Unescaped(c) then [c] else PercentAll(Utf8(c))
  }

  /** `encodeURI(s)`. */
  function EncodeURI(s: string): string
  {
    if |s| == 0 then "" else EncodeChar(s[0]) + EncodeURI(s[1..])
  }

  /** The byte written as "%XX" at position `i`, if there is one. */
  function ByteAt(s: string, i: nat): Option<nat>
  {
    if i + 3 <= |s| && s[i] == '%' && HexValue(s[i + 1]) >= 0 && HexValue(s[i + 2]) >= 0
    then Some(HexValue(s[i + 1]) * 16 + HexValue(s[i + 2]))
    else None
  }

  predicate IsContinuation(b: Option<nat>)
  {
    b.Some? && 0x80 <= b.value < 0xC0
  }

  /** One escape sequence at the front of `s` (which starts with "%"): the
      text it decodes to and how many characters it spans; `None` is the
      `URIError` of a malformed escape or an invalid UTF-8 sequence. */
  function DecodeEscape(s: string): (r: Option<(string, nat)>)
    ensures r.Some? ==> 3 <= r.value.1 <= |s|
  {
    var b0 := ByteAt(s, 0);
    if b0.None? then None
    else if b0.value < 0x80 then
      var c := b0.value as char;
      if IsReservedOrHash(c) then Some((s[..3], 3)) else Some(([c], 3))
    else if 0xC0 <= b0.value < 0xE0 then
      var b1 := ByteAt(s, 3);
      if !IsContinuation(b1) then None
      else
        var cp := (b0.value - 0xC0) * 64 + (b1.value - 0x80);
        if cp < 0x80 then None else Some(([cp as char], 6))
    else if 0xE0 <= b0.value < 0xF0 then
      var b1, b2 := ByteAt(s, 3), ByteAt(s, 6);
      if !IsContinuation(b1) || !IsContinuation(b2) then None
      else
        var cp := ((b0.value - 0xE0) * 64 + (b1.value - 0x80)) * 64 + (b2.value - 0x80);
        if cp < 0x800 || (0xD800 <= cp < 0xE000) then None else Some(([cp as char], 9))
    else if 0xF0 <= b0.value < 0xF8 then
      var b1, b2, b3 := ByteAt(s, 3), ByteAt(s, 6), ByteAt(s, 9);
      if !IsContinuation(b1) || !IsContinuation(b2) || !IsContinuation(b3) then None
      else
        var cp := (((b0.value - 0xF0) * 64 + (b1.value - 0x80)) * 64 + (b2.value - 0x80)) * 64 + (b3.value - 0x80);
        if cp < 0x10000 || cp >= 0x110000 then None else Some(([cp as char], 12))
    else None
  }

  /** `decodeURI(s)`, with `None` for `URIError`. */
  function DecodeURI(s: string): Option<string>
    decreases |s|
  {
    if |s| == 0 then Some("")
    else
      var step := if s[0] == '%' then DecodeEscape(s) else Some(([s[0]], 1));
      if step.None? then None
      else
        var rest := DecodeURI(s[step.value.1..]);
        if rest.None? then None else Some(step.value.0 + rest.value)
  }

  class Query {
    var fields: seq<string>

    constructor()
      ensures fields == [] && String() == ""
    {
      fields := [];
    }

    /** `addField`: the text is encoded and appended after the earlier
        fields, which stay as they were. */
    method AddField(text: string)
      modifies this`fields
      ensures fields == old(fields) + [EncodeURI(text)]
    {
      fields := fields + [EncodeURI(text)];
    }

    /** The `string` getter. */
    function String(): string
      reads this
    {
      Join(fields, "&")
    }
  }

  /** The fields a series of `addField` calls leaves, in call order. */
  function EncodeAll(texts: seq<string>): (fields: seq<string>)
    ensures |fields| == |texts|
    ensures forall i :: 0 <= i < |texts| ==> fields[i] == EncodeURI(texts[i])
  {
    if |texts| == 0 then [] else [EncodeURI(texts[0])] + EncodeAll(texts[1..])
  }

  // ---------------------------------------------------------------------
  // Properties

  lemma HexRoundTrip(d: nat)
    requires d < 16
    ensures HexValue(HexChar(d)) == d
  {
  }

  lemma {:induction false} EncodeURIAppend(a: string, b: string)
    ensures EncodeURI(a + b) == EncodeURI(a) + EncodeURI(b)
    decreases |a|
  {
    if |a| == 0 {
      assert a + b == b;
    } else {
      assert (a + b)[0] == a[0];
      assert (a + b)[1..] == a[1..] + b;
      EncodeURIAppend(a[1..], b);
    }
  }

  /** The characters `encodeURI` keeps pass through unchanged. */
  lemma {:induction false} EncodeURIKeeps(s: string)
    requires forall i :: 0 <= i < |s| ==> Unescaped(s[i])
    ensures EncodeURI(s) == s
    decreases |s|
  {
    if |s| > 0 {
      EncodeURIKeeps(s[1..]);
      assert s == [s[0]] + s[1..];
    }
  }

  /** Space and square brackets are escaped. */
  lemma EscapedExamples()
    ensures EncodeURI(" ") == "%20"
    ensures EncodeURI("[") == "%5B" && EncodeURI("]") == "%5D"
  {
    EscapedAscii(' ');
    EscapedAscii('[');
    EscapedAscii(']');
  }

  /** An escaped ASCII character becomes `%` and its two hexadecimal digits. */
  lemma EscapedAscii(c: char)
    requires c as int < 0x80 && !Unescaped(c)
    ensures EncodeURI([c]) == Percent(c as int)
  {
    assert [c][1..] == "";
    assert Utf8(c) == [c as int];
    assert PercentAll([c as int]) == Percent(c as int) + PercentAll([]);
  }

  /** An escape sequence holds only "%" and hexadecimal digits. */
  lemma {:induction false} PercentAllHasNo(bytes: seq<nat>, c: char)
    requires forall i :: 0 <= i < |bytes| ==> bytes[i] < 256
    requires c != '%' && HexValue(c) < 0
    ensures c !in PercentAll(bytes)
    decreases |bytes|
  {
    if |bytes| > 0 {
      PercentAllHasNo(bytes[1..], c);
      HexRoundTrip(bytes[0] / 16);
      HexRoundTrip(bytes[0] % 16);
    }
  }

  /** A character that is kept and is neither "%" nor a hexadecimal digit
      (such as "&") occurs in the encoding exactly where it occurred in the
      text. */
  lemma {:induction false} EncodeURIKeepsOccurrence(s: string, c: char)
    requires Unescaped(c) && HexValue(c) < 0
    ensures c in EncodeURI(s) <==> c in s
    decreases |s|
  {
    if |s| > 0 {
      EncodeURIKeepsOccurrence(s[1..], c);
      if !Unescaped(s[0]) {
        PercentAllHasNo(Utf8(s[0]), c);
      }
      assert s == [s[0]] + s[1..];
    }
  }

  /** Splitting the query string on "&" gives back the fields exactly when
      there is at least one field and no added text contained "&". */
  lemma QuerySplitsBack(texts: seq<string>)
    ensures Split(Join(EncodeAll(texts), "&"), "&") == EncodeAll(texts) <==>
      |texts| >= 1 && forall i :: 0 <= i < |texts| ==> '&' !in texts[i]
  {
    var fields := EncodeAll(texts);
    assert "&" == ['&'];
    SplitJoinExactly(fields, '&');
    EncodeAllKeepsAmpersand(texts);
  }

  lemma EncodeAllKeepsAmpersand(texts: seq<string>)
    ensures (forall i :: 0 <= i < |texts| ==> '&' !in EncodeAll(texts)[i]) <==>
      (forall i :: 0 <= i < |texts| ==> '&' !in texts[i])
  {
    var fields := EncodeAll(texts);
    assert Unescaped('&') && HexValue('&') < 0;
    forall i | 0 <= i < |texts| ensures '&' in fields[i] <==> '&' in texts[i] {
      EncodeURIKeepsOccurrence(texts[i], '&');
    }
  }

  /** Decoding one escape sequence of a code point below 0x80. */
  lemma DecodeOneByte(c: char, rest: string)
    requires !Unescaped(c) && c as int < 0x80
    ensures DecodeEscape(EncodeChar(c) + rest) == Some(([c], 3))
  {
    var cp := c as int;
    var e := EncodeChar(c);
    assert Utf8(c) == [cp];
    assert e == Percent(cp) + PercentAll([cp][1..]);
    HexRoundTrip(cp / 16);
    HexRoundTrip(cp % 16);
    var s := e + rest;
    assert s[0] == '%' && s[1] == HexChar(cp / 16) && s[2] == HexChar(cp % 16);
    assert ByteAt(s, 0) == Some(cp);
  }

  /** The byte at position 3 * k of an encoded sequence. */
  lemma ByteOfPercentAll(bytes: seq<nat>, rest: string, k: nat)
    requires forall i :: 0 <= i < |bytes| ==> bytes[i] < 256
    requires k < |bytes|
    ensures |PercentAll(bytes)| == 3 * |bytes|
    ensures ByteAt(PercentAll(bytes) + rest, 3 * k) == Some(bytes[k])
    decreases k
  {
    PercentAllLength(bytes);
    var b := bytes[0];
    HexRoundTrip(b / 16);
    HexRoundTrip(b % 16);
    if k > 0 {
      ByteOfPercentAll(bytes[1..], rest, k - 1);
      var s := PercentAll(bytes) + rest;
      assert s == Percent(b) + (PercentAll(bytes[1..]) + rest);
      assert s[3 * k..3 * k + 3] == (PercentAll(bytes[1..]) + rest)[3 * (k - 1)..3 * (k - 1) + 3];
    }
  }

  lemma {:induction false} PercentAllLength(bytes: seq<nat>)
    requires forall i :: 0 <= i < |bytes| ==> bytes[i] < 256
    ensures |PercentAll(bytes)| == 3 * |bytes|
    decreases |bytes|
  {
    if |bytes| > 0 {
      PercentAllLength(bytes[1..]);
    }
  }

  /** Decoding the escape sequences of a code point of 0x80 or more. */
  lemma DecodeMultiByte(c: char, rest: string)
    requires c as int >= 0x80
    ensures DecodeEscape(EncodeChar(c) + rest) == Some(([c], |EncodeChar(c)|))
  {
    if c as int < 0x800 {
      DecodeTwoBytes(c, rest);
    } else if c as int < 0x10000 {
      DecodeThreeBytes(c, rest);
    } else {
      DecodeFourBytes(c, rest);
    }
  }

  lemma DecodeTwoBytes(c: char, rest: string)
    requires 0x80 <= c as int < 0x800
    ensures DecodeEscape(EncodeChar(c) + rest) == Some(([c], 6)) && |EncodeChar(c)| == 6
  {
    var bytes := Utf8(c);
    assert EncodeChar(c) == PercentAll(bytes);
    ByteOfPercentAll(bytes, rest, 0);
    ByteOfPercentAll(bytes, rest, 1);
    var cp := c as int;
    assert cp == (cp / 64) * 64 + cp % 64;
  }

  lemma DecodeThreeBytes(c: char, rest: string)
    requires 0x800 <= c as int < 0x10000
    ensures DecodeEscape(EncodeChar(c) + rest) == Some(([c], 9)) && |EncodeChar(c)| == 9
  {
    var bytes := Utf8(c);
    assert EncodeChar(c) == PercentAll(bytes);
    ThreeByteValue(c);
    ByteOfPercentAll(bytes, rest, 0);
    ByteOfPercentAll(bytes, rest, 1);
    ByteOfPercentAll(bytes, rest, 2);
    DecodeThreeOf(EncodeChar(c) + rest, bytes[0], bytes[1], bytes[2]);
  }

  /** The three bytes of a code point from 0x800 to 0xFFFF give it back. */
  lemma ThreeByteValue(c: char)
    requires 0x800 <= c as int < 0x10000
    ensures var b := Utf8(c);
      |b| == 3 && 0xE0 <= b[0] < 0xF0 && 0x80 <= b[1] < 0xC0 && 0x80 <= b[2] < 0xC0 &&
      ((b[0] - 0xE0) * 64 + (b[1] - 0x80)) * 64 + (b[2] - 0x80) == c as int
  {
    var cp := c as int;
    assert cp == (cp / 64) * 64 + cp % 64;
    assert cp / 64 == (cp / 64 / 64) * 64 + (cp / 64) % 64;
  }

  lemma DecodeThreeOf(s: string, b0: nat, b1: nat, b2: nat)
    requires ByteAt(s, 0) == Some(b0) && ByteAt(s, 3) == Some(b1) && ByteAt(s, 6) == Some(b2)
    requires 0xE0 <= b0 < 0xF0 && 0x80 <= b1 < 0xC0 && 0x80 <= b2 < 0xC0
    requires var cp := ((b0 - 0xE0) * 64 + (b1 - 0x80)) * 64 + (b2 - 0x80);
      0x800 <= cp < 0x10000 && !(0xD800 <= cp < 0xE000)
    ensures DecodeEscape(s) == Some(([(((b0 - 0xE0) * 64 + (b1 - 0x80)) * 64 + (b2 - 0x80)) as char], 9))
  {
  }

  lemma DecodeFourBytes(c: char, rest: string)
    requires c as int >= 0x10000
    ensures DecodeEscape(EncodeChar(c) + rest) == Some(([c], 12)) && |EncodeChar(c)| == 12
  {
    var bytes := Utf8(c);
    assert EncodeChar(c) == PercentAll(bytes);
    FourByteValue(c);
    ByteOfPercentAll(bytes, rest, 0);
    ByteOfPercentAll(bytes, rest, 1);
    ByteOfPercentAll(bytes, rest, 2);
    ByteOfPercentAll(bytes, rest, 3);
    DecodeFourOf(EncodeChar(c) + rest, bytes[0], bytes[1], bytes[2], bytes[3]);
  }

  /** The four bytes of a code point from 0x10000 up give it back. */
  lemma FourByteValue(c: char)
    requires c as int >= 0x10000
    ensures var b := Utf8(c);
      |b| == 4 && 0xF0 <= b[0] < 0xF8 && 0x80 <= b[1] < 0xC0 && 0x80 <= b[2] < 0xC0 &&
      0x80 <= b[3] < 0xC0 &&
      (((b[0] - 0xF0) * 64 + (b[1] - 0x80)) * 64 + (b[2] - 0x80)) * 64 + (b[3] - 0x80) == c as int
  {
    var cp := c as int;
    assert cp == (cp / 64) * 64 + cp % 64;
    assert cp / 64 == (cp / 64 / 64) * 64 + (cp / 64) % 64;
    assert cp / 64 / 64 == (cp / 64 / 64 / 64) * 64 + (cp / 64 / 64) % 64;
  }

  lemma DecodeFourOf(s: string, b0: nat, b1: nat, b2: nat, b3: nat)
    requires ByteAt(s, 0) == Some(b0) && ByteAt(s, 3) == Some(b1)
    requires ByteAt(s, 6) == Some(b2) && ByteAt(s, 9) == Some(b3)
    requires 0xF0 <= b0 < 0xF8 && 0x80 <= b1 < 0xC0 && 0x80 <= b2 < 0xC0 && 0x80 <= b3 < 0xC0
    requires var cp := (((b0 - 0xF0) * 64 + (b1 - 0x80)) * 64 + (b2 - 0x80)) * 64 + (b3 - 0x80);
      0x10000 <= cp < 0x110000
    ensures DecodeEscape(s) ==
      Some(([((((b0 - 0xF0) * 64 + (b1 - 0x80)) * 64 + (b2 - 0x80)) * 64 + (b3 - 0x80)) as char], 12))
  {
  }

  /** Decoding the encoding of one character, followed by anything. */
  lemma DecodeEncodedChar(c: char, rest: string)
    ensures var e := EncodeChar(c);
      |e| > 0 && DecodeURI(e + rest) ==
        (if DecodeURI(rest).None? then None else Some([c] + DecodeURI(rest).value))
  {
    var e := EncodeChar(c);
    var s := e + rest;
    if Unescaped(c) {
      assert s[0] == c && s[1..] == rest;
    } else {
      if c as int < 0x80 {
        DecodeOneByte(c, rest);
      } else {
        DecodeMultiByte(c, rest);
      }
      PercentAllLength(Utf8(c));
      assert s[0] == '%';
      assert s[|e|..] == rest;
    }
  }

  /** `decodeURI` undoes `encodeURI`. */
  lemma {:induction false} DecodeEncode(s: string)
    ensures DecodeURI(EncodeURI(s)) == Some(s)
    decreases |s|
  {
    if |s| > 0 {
      DecodeEncode(s[1..]);
      DecodeEncodedChar(s[0], EncodeURI(s[1..]));
      assert s == [s[0]] + s[1..];
    }
  }

  /** Hence `encodeURI` loses nothing: different texts give different fields. */
  lemma EncodeURIInjective(a: string, b: string)
    requires EncodeURI(a) == EncodeURI(b)
    ensures a == b
  {
    DecodeEncode(a);
    DecodeEncode(b);
  }
}
