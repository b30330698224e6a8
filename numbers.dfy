/** JavaScript numbers as the client uses them: the results of `parseInt`,
    which are integers or NaN, and their rendering as text. */
module Numbers {
  import opened Strings

  /** A number produced by `parseInt`: an integer value, or NaN. */
  datatype Num = Int(v: int) | NaN

  predicate IsDecimalDigit(c: char)
  {
    '0' <= c <= '9'
  }

  predicate IsHexDigit(c: char)
  {
    IsDecimalDigit(c) || 'a' <= c <= 'f' || 'A' <= c <= 'F'
  }

  /** A digit of radix 16 when `hex` holds, of radix 10 otherwise. */
  predicate IsRadixDigit(c: char, hex: bool)
  {
    if hex then IsHexDigit(c) else IsDecimalDigit(c)
  }

  function DigitValue(c: char, hex: bool): (d: nat)
    requires IsRadixDigit(c, hex)
    ensures d < (if hex then 16 else 10)
  {
    if IsDecimalDigit(c) then c as int - '0' as int
    else if 'a' <= c <= 'f' then c as int - 'a' as int + 10
    else c as int - 'A' as int + 10
  }

  /** The regular expression `/^\d+$/`: one or more decimal digits and
      nothing else. */
  predicate IsDigits(s: string)
  {
    |s| > 0 && forall i :: 0 <= i < |s| ==> IsDecimalDigit(s[i])
  }

  predicate AllRadixDigits(s: string, hex: bool)
  {
    forall i :: 0 <= i < |s| ==> IsRadixDigit(s[i], hex)
  }

  /** The value of a string of digits, most significant first. */
  function ValueOf(s: string, hex: bool): nat
    requires AllRadixDigits(s, hex)
  {
    if |s| == 0 then 0
    else ValueOf(s[..|s| - 1], hex) * (if hex then 16 else 10) + DigitValue(s[|s| - 1], hex)
  }

  /** The length of the longest run of digits at the front of `s`. */
  function DigitRun(s: string, hex: bool): (k: nat)
    ensures k <= |s|
    ensures forall i :: 0 <= i < k ==> IsRadixDigit(s[i], hex)
    ensures k < |s| ==> !IsRadixDigit(s[k], hex)
  {
    if |s| > 0 && IsRadixDigit(s[0], hex) then 1 + DigitRun(s[1..], hex) else 0
  }

  /** `parseInt(s)` when `prefixAllowed` holds and `parseInt(s, 10)`
      otherwise, following section 18.2.5 of ECMA-262, 2015 edition: skip
      leading white space, take an optional sign, without an explicit radix
      take "0x" or "0X" as the mark of a hexadecimal number, then read the
      longest run of digits; no digit at all gives NaN. */
  function ParseIntWith(s: string, prefixAllowed: bool): Num
  {
    var t := TrimStart(s);
    if |t| > 0 && t[0] == '-' then Negate(ParseMagnitude(t[1..], prefixAllowed))
    else if |t| > 0 && t[0] == '+' then ParseMagnitude(t[1..], prefixAllowed)
    else ParseMagnitude(t, prefixAllowed)
  }

  /** What follows the sign: a hexadecimal prefix when allowed, then digits. */
  function ParseMagnitude(u: string, prefixAllowed: bool): Num
  {
    if prefixAllowed && |u| >= 2 && u[0] == '0' && (u[1] == 'x' || u[1] == 'X')
    then ReadDigits(u[2..], true)
    else ReadDigits(u, false)
  }

  /** The value of the leading digit run, NaN when there is none. */
  function ReadDigits(body: string, hex: bool): Num
  {
    var k := DigitRun(body, hex);
    if k == 0 then NaN else Int(ValueOf(body[..k], hex))
  }

  function Negate(x: Num): Num
  {
    match x
    case Int(v) => Int(-v)
    case NaN => NaN
  }

  /** `parseInt(s)`. */
  function ParseInt(s: string): Num
  {
    ParseIntWith(s, true)
  }

  /** `parseInt(s, 10)`. */
  function ParseIntDecimal(s: string): Num
  {
    ParseIntWith(s, false)
  }

  function DigitChar(d: nat): (c: char)
    requires d < 10
    ensures IsDecimalDigit(c) && DigitValue(c, false) == d
  {
    ('0' as int + d) as char
  }

  /** The decimal text of a natural number, without leading zeros. */
  function NatToString(n: nat): (s: string)
    ensures IsDigits(s)
    ensures |s| > 1 ==> s[0] != '0'
  {
    if n < 10 then [DigitChar(n)] else NatToString(n / 10) + [DigitChar(n % 10)]
  }

  /** `String(n)` for an integer. */
  function IntToString(n: int): string
  {
    if n < 0 then "-" + NatToString(-n) else NatToString(n)
  }

  /** `String(x)` for a number produced by `parseInt`. */
  function NumToString(x: Num): string
  {
    match x
    case Int(v) => IntToString(v)
    case NaN => "NaN"
  }

  /** `Number.isInteger(x)` for a number produced by `parseInt`. */
  predicate IsInteger(x: Num)
  {
    x.Int?
  }

  // ---------------------------------------------------------------------
  // Properties

  lemma {:induction false} ValueOfNatToString(n: nat)
    ensures AllRadixDigits(NatToString(n), false)
    ensures ValueOf(NatToString(n), false) == n
    decreases n
  {
    var s := NatToString(n);
    if n >= 10 {
      ValueOfNatToString(n / 10);
      assert s[..|s| - 1] == NatToString(n / 10);
    }
  }

  /** A longest digit run is determined by where the digits stop. */
  lemma {:induction false} DigitRunOf(d: string, rest: string, hex: bool)
    requires AllRadixDigits(d, hex)
    requires |rest| == 0 || !IsRadixDigit(rest[0], hex)
    ensures DigitRun(d + rest, hex) == |d|
    ensures (d + rest)[..|d|] == d
    decreases |d|
  {
    if |d| == 0 {
      assert d + rest == rest;
    } else {
      assert (d + rest)[0] == d[0];
      assert (d + rest)[1..] == d[1..] + rest;
      DigitRunOf(d[1..], rest, hex);
    }
  }

  /** A non-empty run of digits followed by a non-digit reads as its value. */
  lemma ReadDigitsOf(d: string, rest: string, hex: bool)
    requires |d| > 0 && AllRadixDigits(d, hex)
    requires |rest| == 0 || !IsRadixDigit(rest[0], hex)
    ensures ReadDigits(d + rest, hex) == Int(ValueOf(d, hex))
  {
    DigitRunOf(d, rest, hex);
  }

  /** A decimal rendering followed by anything that is not a digit reads
      back as the number, with or without an explicit radix (the one
      exception: "0" followed by "x" reads as a hexadecimal prefix). */
  lemma ParseIntOfRendering(n: int, rest: string, prefixAllowed: bool)
    requires |rest| == 0 || !IsDecimalDigit(rest[0])
    requires prefixAllowed && n == 0 ==> |rest| == 0 || (rest[0] != 'x' && rest[0] != 'X')
    ensures ParseIntWith(IntToString(n) + rest, prefixAllowed) == Int(n)
  {
    var m: nat := if n < 0 then -n else n;
    var d := NatToString(m);
    ValueOfNatToString(m);
    assert m == 0 ==> d == "0";
    if n < 0 {
      MagnitudeOfDigits(d, rest, prefixAllowed);
      ParseIntNegative(d + rest, prefixAllowed);
      var sign := "-";
      assert IntToString(n) == sign + d;
      ConcatAssoc(sign, d, rest);
    } else {
      ParseIntIgnoresTail(d, rest, prefixAllowed);
    }
  }

  /** A minus sign negates what follows it. */
  lemma ParseIntNegative(u: string, prefixAllowed: bool)
    ensures ParseIntWith("-" + u, prefixAllowed) == Negate(ParseMagnitude(u, prefixAllowed))
  {
    var s := "-" + u;
    assert s[1..] == u;
    assert TrimStart(s) == s;
  }

  /** Digits with nothing digit-like after them read as their value. */
  lemma MagnitudeOfDigits(d: string, rest: string, prefixAllowed: bool)
    requires IsDigits(d)
    requires |rest| == 0 || !IsDecimalDigit(rest[0])
    requires prefixAllowed && d == "0" ==> |rest| == 0 || (rest[0] != 'x' && rest[0] != 'X')
    ensures ParseMagnitude(d + rest, prefixAllowed) == Int(ValueOf(d, false))
  {
    var s := d + rest;
    assert s[0] == d[0];
    ReadDigitsOf(d, rest, false);
    if |d| >= 2 {
      assert s[1] == d[1];
    } else {
      assert d == [d[0]];
    }
  }

  /** What `/^\d+$/` accepts, `parseInt` reads in full and as an integer. */
  lemma ParseIntOfDigits(s: string, prefixAllowed: bool)
    requires IsDigits(s)
    ensures ParseIntWith(s, prefixAllowed) == Int(ValueOf(s, false))
  {
    ParseIntIgnoresTail(s, "", prefixAllowed);
    assert s + "" == s;
  }

  /** A string without a single decimal digit parses as NaN. */
  lemma ParseIntNoDigits(s: string, prefixAllowed: bool)
    requires forall i :: 0 <= i < |s| ==> !IsDecimalDigit(s[i])
    ensures ParseIntWith(s, prefixAllowed) == NaN
  {
    var t := TrimStart(s);
    assert forall i :: 0 <= i < |t| ==> t[i] == s[|s| - |t| + i];
    var u := if |t| > 0 && (t[0] == '-' || t[0] == '+') then t[1..] else t;
    assert forall i :: 0 <= i < |u| ==> !IsDecimalDigit(u[i]);
    assert DigitRun(u, false) == 0;
  }

  /** Leading white space is skipped. */
  lemma ParseIntSkipsSpace(w: string, s: string, prefixAllowed: bool)
    requires forall i :: 0 <= i < |w| ==> IsJsSpace(w[i])
    ensures ParseIntWith(w + s, prefixAllowed) == ParseIntWith(s, prefixAllowed)
  {
    TrimStartSkips(w, s);
  }

  /** The leading digits decide the result: anything after them that does not
      start with a digit is ignored ("123abc" reads as 123). */
  lemma ParseIntIgnoresTail(d: string, rest: string, prefixAllowed: bool)
    requires IsDigits(d)
    requires |rest| == 0 || !IsDecimalDigit(rest[0])
    requires prefixAllowed && d == "0" ==> |rest| == 0 || (rest[0] != 'x' && rest[0] != 'X')
    ensures ParseIntWith(d + rest, prefixAllowed) == Int(ValueOf(d, false))
  {
    var s := d + rest;
    assert s[0] == d[0];
    assert TrimStart(s) == s;
    MagnitudeOfDigits(d, rest, prefixAllowed);
  }
}
