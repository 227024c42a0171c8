/** The JavaScript number and bigint semantics the rate helpers and the form
    rely on: decimal digit strings, bigint division (which truncates toward
    zero, unlike Dafny's Euclidean `/`) and `parseInt`. */
module Numerics {

  /** A JavaScript number as far as the form uses one: an integer or `NaN`. */
  datatype JsNumber = Num(value: int) | NaN

  predicate IsDigit(c: char) {
    '0' <= c <= '9'
  }

  predicate AllDigits(s: string) {
    forall i :: 0 <= i < |s| ==> IsDigit(s[i])
  }

  function DigitValue(c: char): (d: nat)
    requires IsDigit(c)
    ensures d < 10
  {
    c as int - '0' as int
  }

  function DigitChar(d: nat): (c: char)
    requires d < 10
    ensures IsDigit(c) && DigitValue(c) == d
  {
    ('0' as int + d) as char
  }

  /** `x * 10^n`: `x` followed by `n` decimal zeros. Defined by repeated
      multiplication by ten so that proofs about it stay linear. */
  function Shift(x: nat, n: nat): (shifted: nat) {
    if n == 0 then x else 10 * Shift(x, n - 1)
  }

  lemma {:induction false} ShiftZero(n: nat)
    ensures Shift(0, n) == 0
  {
    if n > 0 {
      ShiftZero(n - 1);
    }
  }

  lemma {:induction false} ShiftShift(x: nat, a: nat, b: nat)
    ensures Shift(Shift(x, a), b) == Shift(x, a + b)
  {
    if b > 0 {
      ShiftShift(x, a, b - 1);
    }
  }

  /** The number a string of decimal digits denotes (most significant first). */
  function DigitsValue(s: string): (v: nat)
    requires AllDigits(s)
  {
    if s == [] then 0 else DigitsValue(s[..|s| - 1]) * 10 + DigitValue(s[|s| - 1])
  }

  /** `n.toString()` for a non-negative integer: no leading zeros, "0" for zero. */
  function NatText(n: nat): (s: string)
    ensures |s| >= 1 && AllDigits(s)
    ensures DigitsValue(s) == n
    ensures |s| > 1 ==> s[0] != '0'
  {
    if n < 10 then [DigitChar(n)]
    else
      var prefix := NatText(n / 10);
      var s := prefix + [DigitChar(n % 10)];
      assert s[..|s| - 1] == prefix;
      s
  }

  lemma {:induction false} DigitsValueAppend(a: string, b: string)
    requires AllDigits(a) && AllDigits(b)
    ensures AllDigits(a + b)
    ensures DigitsValue(a + b) == Shift(DigitsValue(a), |b|) + DigitsValue(b)
  {
    if b == [] {
      assert a + b == a;
    } else {
      var b' := b[..|b| - 1];
      assert (a + b)[..|a + b| - 1] == a + b';
      DigitsValueAppend(a, b');
    }
  }

  /** The value of digits cut in two: the first piece shifted past the second. */
  lemma DigitsValueSplit(s: string, cut: nat)
    requires AllDigits(s) && cut <= |s|
    ensures AllDigits(s[..cut]) && AllDigits(s[cut..])
    ensures DigitsValue(s) == Shift(DigitsValue(s[..cut]), |s| - cut) + DigitsValue(s[cut..])
  {
    assert s == s[..cut] + s[cut..];
    DigitsValueAppend(s[..cut], s[cut..]);
  }

  /** A string of zeros of length n. */
  function Zeros(n: nat): (z: string)
    ensures |z| == n && AllDigits(z)
  {
    seq(n, _ => '0')
  }

  lemma {:induction false} ZerosValue(n: nat)
    ensures DigitsValue(Zeros(n)) == 0
  {
    if n > 0 {
      assert Zeros(n)[..n - 1] == Zeros(n - 1);
      ZerosValue(n - 1);
    }
  }

  /** `s.padStart(n, '0')`. */
  function PadStart(s: string, n: nat): (r: string)
    ensures |r| == if |s| >= n then |s| else n
  {
    if |s| >= n then s else Zeros(n - |s|) + s
  }

  lemma PadStartValue(s: string, n: nat)
    requires AllDigits(s)
    ensures AllDigits(PadStart(s, n)) && DigitsValue(PadStart(s, n)) == DigitsValue(s)
  {
    if |s| < n {
      DigitsValueAppend(Zeros(n - |s|), s);
      ZerosValue(n - |s|);
      ShiftZero(|s|);
    }
  }

  lemma DivBounds(a: nat, b: int)
    requires b > 0
    ensures 0 <= a / b && (a / b) * b <= a < (a / b) * b + b
  {
    assert a == b * (a / b) + a % b;
  }

  /** Bigint division `a / b`: the quotient truncated toward zero. */
  function TruncDiv(a: int, b: int): (q: int)
    requires b > 0
    ensures a >= 0 ==> 0 <= q && q * b <= a < q * b + b
    ensures a < 0 ==> q <= 0 && q * b - b < a <= q * b
  {
    if a >= 0 then DivBounds(a, b); a / b
    else
      DivBounds(-a, b);
      -((-a) / b)
  }

  /** The characters `parseInt` skips at the start: JavaScript's white space
      (tab, vertical tab, form feed, space, no-break space, the byte order mark
      and the other space separators) and line terminators. */
  predicate IsJsWhitespace(c: char) {
    c == '\t' || c == '\n' || c == '\U{0B}' || c == '\U{0C}' || c == '\r' || c == ' '
    || c == '\U{A0}' || c == '\U{1680}' || ('\U{2000}' <= c <= '\U{200A}')
    || c == '\U{2028}' || c == '\U{2029}' || c == '\U{202F}' || c == '\U{205F}'
    || c == '\U{3000}' || c == '\U{FEFF}'
  }

  function TrimStart(s: string): (r: string)
    ensures r == [] || !IsJsWhitespace(r[0])
  {
    if s != [] && IsJsWhitespace(s[0]) then TrimStart(s[1..]) else s
  }

  /** The longest prefix of `s` made of decimal digits. */
  function LeadingDigits(s: string): (r: string)
    ensures AllDigits(r) && |r| <= |s| && r == s[..|r|]
    ensures |r| < |s| ==> !IsDigit(s[|r|])
  {
    if s != [] && IsDigit(s[0]) then [s[0]] + LeadingDigits(s[1..]) else []
  }

  predicate IsHexDigit(c: char) {
    IsDigit(c) || ('a' <= c <= 'f') || ('A' <= c <= 'F')
  }

  predicate AllHexDigits(s: string) {
    forall i :: 0 <= i < |s| ==> IsHexDigit(s[i])
  }

  function HexDigitValue(c: char): (d: nat)
    requires IsHexDigit(c)
    ensures d < 16
  {
    if IsDigit(c) then DigitValue(c)
    else if 'a' <= c <= 'f' then c as int - 'a' as int + 10
    else c as int - 'A' as int + 10
  }

  /** The number a string of hexadecimal digits denotes. */
  function HexValue(s: string): (v: nat)
    requires AllHexDigits(s)
  {
    if s == [] then 0 else HexValue(s[..|s| - 1]) * 16 + HexDigitValue(s[|s| - 1])
  }

  /** The longest prefix of `s` made of hexadecimal digits. */
  function LeadingHexDigits(s: string): (r: string)
    ensures AllHexDigits(r) && |r| <= |s| && r == s[..|r|]
    ensures |r| < |s| ==> !IsHexDigit(s[|r|])
  {
    if s != [] && IsHexDigit(s[0]) then [s[0]] + LeadingHexDigits(s[1..]) else []
  }

  /** Text after the sign that `parseInt` without a radix reads as hexadecimal. */
  predicate HasHexPrefix(body: string) {
    |body| >= 2 && body[0] == '0' && (body[1] == 'x' || body[1] == 'X')
  }

  /** `parseInt(s)` with no radix: skip leading white space, take an optional
      sign, then a "0x"/"0X" prefix selects hexadecimal; read as many digits
      of the radix as follow; no digit at all is `NaN`. */
  function ParseInt(s: string): (r: JsNumber)
  {
    var t := TrimStart(s);
    var negative := t != [] && t[0] == '-';
    var body := if t != [] && (t[0] == '-' || t[0] == '+') then t[1..] else t;
    if HasHexPrefix(body) then
      var digits := LeadingHexDigits(body[2..]);
      if digits == [] then NaN
      else Num(if negative then -(HexValue(digits) as int) else HexValue(digits))
    else
      var digits := LeadingDigits(body);
      if digits == [] then NaN
      else Num(if negative then -(DigitsValue(digits) as int) else DigitsValue(digits))
  }

  /** `parseInt` reads the leading decimal digits of a text and ignores the rest:
      digits followed by anything that is not a digit (a fraction, an
      exponent), unless the text starts with the hexadecimal prefix "0x". */
  lemma ParseIntOfDecimal(whole: string, rest: string)
    requires whole != [] && AllDigits(whole)
    requires rest == [] || !IsDigit(rest[0])
    requires !(whole == "0" && rest != [] && (rest[0] == 'x' || rest[0] == 'X'))
    ensures ParseInt(whole + rest) == Num(DigitsValue(whole))
  {
    var s := whole + rest;
    assert TrimStart(s) == s;
    assert !HasHexPrefix(s) by {
      if |whole| >= 2 {
        assert s[1] == whole[1];
      } else if |s| >= 2 {
        assert s[1] == rest[0];
      }
    }
    LeadingDigitsOfPrefix(whole, rest);
  }

  lemma {:induction false} LeadingDigitsOfPrefix(whole: string, rest: string)
    requires AllDigits(whole)
    requires rest == [] || !IsDigit(rest[0])
    ensures LeadingDigits(whole + rest) == whole
  {
    if whole != [] {
      assert (whole + rest)[1..] == whole[1..] + rest;
      LeadingDigitsOfPrefix(whole[1..], rest);
    }
  }

  /** After the prefix "0x", `parseInt` reads hexadecimal digits up to the
      first character that is not one. */
  lemma ParseIntOfHex(digits: string, rest: string)
    requires digits != [] && AllHexDigits(digits)
    requires rest == [] || !IsHexDigit(rest[0])
    ensures ParseInt("0x" + digits + rest) == Num(HexValue(digits))
  {
    var s := "0x" + digits + rest;
    assert TrimStart(s) == s;
    assert HasHexPrefix(s);
    assert s[2..] == digits + rest;
    LeadingHexDigitsOfPrefix(digits, rest);
  }

  lemma {:induction false} LeadingHexDigitsOfPrefix(digits: string, rest: string)
    requires AllHexDigits(digits)
    requires rest == [] || !IsHexDigit(rest[0])
    ensures LeadingHexDigits(digits + rest) == digits
  {
    if digits != [] {
      assert (digits + rest)[1..] == digits[1..] + rest;
      LeadingHexDigitsOfPrefix(digits[1..], rest);
    }
  }

  /** A text with no digit before its first non-digit (".5", "abc") is `NaN`. */
  lemma ParseIntNoDigits(s: string)
    requires s != [] && !IsDigit(s[0]) && !IsJsWhitespace(s[0])
    requires s[0] != '-' && s[0] != '+'
    ensures ParseInt(s) == NaN
  {
  }

  /** Leading white space of any kind, the no-break space included, is
      skipped. */
  lemma ParseIntSkipsWhitespace(c: char, s: string)
    requires IsJsWhitespace(c)
    ensures ParseInt([c] + s) == ParseInt(s)
  {
    assert ([c] + s)[1..] == s;
  }
}
