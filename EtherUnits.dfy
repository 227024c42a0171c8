/** The two conversions between a decimal text in ether and an integer number
    of wei (18 fractional digits) that the rate helpers take from viem:
    `parseEther` and `formatEther`. */
module EtherUnits {
  import opened Numerics

  /** The outcome of `parseEther`: a number of wei, or the error the library
      throws for text that is not a decimal number. */
  datatype ParseResult = Parsed(wei: int) | InvalidDecimal

  /** Fractional digits of one ether: 1 ether is 10^18 wei. */
  const Decimals: nat := 18

  /** The position of the first '.' in `s`, or `|s|` when there is none. */
  function DotIndex(s: string): (k: nat)
    ensures k <= |s|
    ensures k < |s| ==> s[k] == '.'
    ensures forall i :: 0 <= i < k ==> s[i] != '.'
  {
    if s == [] || s[0] == '.' then 0 else 1 + DotIndex(s[1..])
  }

  /** `s` without its leading minus sign, if it has one. */
  function Unsigned(s: string): string {
    if s != [] && s[0] == '-' then s[1..] else s
  }

  /** The piece before the first '.' (`value.split('.')[0]`). */
  function IntegerPart(body: string): string {
    body[..DotIndex(body)]
  }

  /** The piece after the first '.', empty when there is no '.'. */
  function FractionPart(body: string): string {
    var k := DotIndex(body);
    if k < |body| then body[k + 1..] else []
  }

  /** The syntax `parseEther` accepts, `-?[0-9]*\.?[0-9]*`: an optional minus,
      digits, at most one '.', digits. Anything else makes it throw. */
  predicate IsDecimalText(s: string) {
    var body := Unsigned(s);
    AllDigits(IntegerPart(body)) && AllDigits(FractionPart(body))
  }

  /** `s.replace(/(0+)$/, '')`. */
  function TrimTrailingZeros(s: string): (r: string)
    ensures |r| <= |s| && r == s[..|r|]
    ensures r == [] || r[|r| - 1] != '0'
    ensures forall i :: |r| <= i < |s| ==> s[i] == '0'
  {
    if s != [] && s[|s| - 1] == '0' then TrimTrailingZeros(s[..|s| - 1]) else s
  }

  /** Dropping trailing zeros divides the value by a power of ten and keeps
      only digits. */
  lemma TrimTrailingZerosValue(s: string)
    requires AllDigits(s)
    ensures AllDigits(TrimTrailingZeros(s))
    ensures Shift(DigitsValue(TrimTrailingZeros(s)), |s| - |TrimTrailingZeros(s)|) == DigitsValue(s)
  {
    var t := TrimTrailingZeros(s);
    var z := Zeros(|s| - |t|);
    assert s == t + z;
    DigitsValueAppend(t, z);
    ZerosValue(|s| - |t|);
  }

  /** The unit added when a fraction longer than 18 digits is rounded half up
      on its 19th digit. */
  function RoundingCarry(f: string): nat {
    if |f| > Decimals && f[Decimals] >= '5' then 1 else 0
  }

  /** The wei the fraction digits stand for: the fraction padded with zeros
      to 18 digits, or its first 18 digits rounded when it is longer. */
  function FractionValue(f: string): nat
    requires AllDigits(f)
  {
    if |f| <= Decimals then Shift(DigitsValue(f), Decimals - |f|)
    else DigitsValue(f[..Decimals]) + RoundingCarry(f)
  }

  /** `parseEther(s)`: the wei denoted by an ether amount written in decimal,
      the integer digits followed by 18 fraction digits (their value is the
      integer part times 10^18 plus the padded fraction); `InvalidDecimal`
      where the library throws on malformed text. */
  function ParseEther(s: string): (r: ParseResult)
    ensures r.Parsed? <==> IsDecimalText(s)
  {
    if !IsDecimalText(s) then InvalidDecimal
    else
      var body := Unsigned(s);
      var frac := TrimTrailingZeros(FractionPart(body));
      var magnitude := Shift(DigitsValue(IntegerPart(body)), Decimals) + FractionValue(frac);
      Parsed(if s != [] && s[0] == '-' then -(magnitude as int) else magnitude)
  }

  /** `formatEther(w)`: the decimal ether text of `w` wei, with no trailing
      zeros in the fraction and no '.' when the fraction is zero. The digits of
      the magnitude are padded to at least 18; the last 18 become the fraction. */
  function FormatEther(w: int): string {
    var negative := w < 0;
    var display := PadStart(NatText(if negative then -w else w), Decimals);
    PrintPieces(negative, IntegerDigits(display), LowDigits(display))
  }

  /** The digits before the last 18, or "0" when there are none. */
  function IntegerDigits(display: string): string
    requires |display| >= Decimals
  {
    var integer := display[..|display| - Decimals];
    if integer == [] then "0" else integer
  }

  /** The last 18 digits. */
  function LowDigits(display: string): string
    requires |display| >= Decimals
  {
    display[|display| - Decimals..]
  }

  /** The sign, the integer digits, then a '.' and the low digits without
      their trailing zeros unless none are left. */
  function PrintPieces(negative: bool, shown: string, low: string): string {
    var fraction := TrimTrailingZeros(low);
    (if negative then "-" else "") + shown + (if fraction == [] then "" else "." + fraction)
  }

  lemma {:induction false} DotIndexAfterDigits(a: string, tail: string)
    requires AllDigits(a)
    requires tail == [] || tail[0] == '.'
    ensures DotIndex(a + tail) == |a|
  {
    if a != [] {
      assert (a + tail)[1..] == a[1..] + tail;
      DotIndexAfterDigits(a[1..], tail);
    }
  }

  /** Splitting `whole ++ "." ++ frac` (or just `whole`) at the dot gives back
      the two pieces. */
  lemma SplitDecimal(whole: string, frac: string, dotted: bool)
    requires AllDigits(whole) && AllDigits(frac)
    requires !dotted ==> frac == []
    ensures var body := whole + (if dotted then "." + frac else "");
            IntegerPart(body) == whole && FractionPart(body) == frac
  {
    var tail := if dotted then "." + frac else "";
    var body := whole + tail;
    DotIndexAfterDigits(whole, tail);
    assert body[..|whole|] == whole;
    if dotted {
      assert body[|whole| + 1..] == frac;
    }
  }

  /** `parseEther` unfolded on a text whose sign, integer part and fraction
      are known. */
  lemma ParseEtherOfParts(text: string, body: string, negative: bool, whole: string, frac: string)
    requires AllDigits(whole) && AllDigits(frac)
    requires Unsigned(text) == body && IntegerPart(body) == whole && FractionPart(body) == frac
    requires (text != [] && text[0] == '-') == negative
    ensures AllDigits(TrimTrailingZeros(frac))
    ensures var m: int := Shift(DigitsValue(whole), Decimals) + FractionValue(TrimTrailingZeros(frac));
            ParseEther(text) == Parsed(if negative then -m else m)
  {
    assert IsDecimalText(text);
    assert AllDigits(TrimTrailingZeros(frac));
  }

  /** `parseEther` on the text `[-]whole[.frac]` reads the pieces back. */
  lemma ParseEtherPieces(negative: bool, whole: string, frac: string, dotted: bool)
    requires AllDigits(whole) && AllDigits(frac)
    requires !dotted ==> frac == []
    ensures AllDigits(TrimTrailingZeros(frac))
    ensures var text := (if negative then "-" else "") + whole + (if dotted then "." + frac else "");
            var m: int := Shift(DigitsValue(whole), Decimals) + FractionValue(TrimTrailingZeros(frac));
            ParseEther(text) == Parsed(if negative then -m else m)
  {
    var body := whole + (if dotted then "." + frac else "");
    var text := (if negative then "-" else "") + body;
    assert text == (if negative then "-" else "") + whole + (if dotted then "." + frac else "");
    SplitDecimal(whole, frac, dotted);
    assert Unsigned(text) == body by {
      if negative {
        assert text[1..] == body;
      } else if body != [] {
        assert whole != [] ==> IsDigit(body[0]);
        assert whole == [] ==> body[0] == '.';
      }
    }
    assert (text != [] && text[0] == '-') == negative;
    ParseEtherOfParts(text, body, negative, whole, frac);
  }

  /** A fraction of at most 18 digits is worth the same in wei with or
      without its trailing zeros. */
  lemma TrimmedFractionValue(frac: string)
    requires AllDigits(frac) && |frac| <= Decimals
    ensures AllDigits(TrimTrailingZeros(frac))
    ensures FractionValue(TrimTrailingZeros(frac)) == Shift(DigitsValue(frac), Decimals - |frac|)
  {
    TrimmedShift(frac, Decimals);
  }

  /** Padding a digit string to `n` digits gives the same value with or
      without its trailing zeros. */
  lemma TrimmedShift(s: string, n: nat)
    requires AllDigits(s) && |s| <= n
    ensures AllDigits(TrimTrailingZeros(s))
    ensures Shift(DigitsValue(TrimTrailingZeros(s)), n - |TrimTrailingZeros(s)|) == Shift(DigitsValue(s), n - |s|)
  {
    var t := TrimTrailingZeros(s);
    var dropped, padding := |s| - |t|, n - |s|;
    assert AllDigits(t) && Shift(DigitsValue(t), dropped) == DigitsValue(s) by {
      TrimTrailingZerosValue(s);
    }
    ShiftShift(DigitsValue(t), dropped, padding);
    assert dropped + padding == n - |t|;
  }

  /** `parseEther` on `[-]whole[.frac]` with at most 18 fraction digits is
      exact: whole ether plus the fraction scaled to wei, with the sign. */
  lemma ParseEtherExact(negative: bool, whole: string, frac: string, dotted: bool)
    requires AllDigits(whole) && AllDigits(frac)
    requires !dotted ==> frac == []
    requires |frac| <= Decimals
    ensures var text := (if negative then "-" else "") + whole + (if dotted then "." + frac else "");
            var m: int := Shift(DigitsValue(whole), Decimals) + Shift(DigitsValue(frac), Decimals - |frac|);
            ParseEther(text) == Parsed(if negative then -m else m)
  {
    ParseEtherPieces(negative, whole, frac, dotted);
    TrimmedFractionValue(frac);
  }

  /** `parseEther` on `[-]whole.frac` with more than 18 fraction digits, the
      last of them not a zero, keeps the first 18 and rounds half up on the
      19th. */
  lemma ParseEtherRounded(negative: bool, whole: string, frac: string)
    requires AllDigits(whole) && AllDigits(frac)
    requires |frac| > Decimals && frac[|frac| - 1] != '0'
    ensures var text := (if negative then "-" else "") + whole + ("." + frac);
            var m: int := Shift(DigitsValue(whole), Decimals) + DigitsValue(frac[..Decimals]) + RoundingCarry(frac);
            ParseEther(text) == Parsed(if negative then -m else m)
  {
    var text := (if negative then "-" else "") + whole + ("." + frac);
    var m: int := Shift(DigitsValue(whole), Decimals) + DigitsValue(frac[..Decimals]) + RoundingCarry(frac);
    assert TrimTrailingZeros(frac) == frac;
    assert FractionValue(frac) == DigitsValue(frac[..Decimals]) + RoundingCarry(frac);
    assert text == (if negative then "-" else "") + whole + (if true then "." + frac else "");
    ParseEtherPieces(negative, whole, frac, true);
  }

  /** A character other than a digit, '.' or '-' anywhere in the text (an
      exponent's 'e', say) makes `parseEther` throw. */
  lemma ForeignCharRejected(s: string, i: nat)
    requires i < |s| && !IsDigit(s[i]) && s[i] != '.' && s[i] != '-'
    ensures !IsDecimalText(s)
  {
    var body := Unsigned(s);
    var j: nat := if s[0] == '-' then i - 1 else i;
    assert body[j] == s[i];
    var k := DotIndex(body);
    if j < k {
      assert IntegerPart(body)[j] == body[j];
    } else {
      assert j != k;
      assert FractionPart(body)[j - k - 1] == body[j];
    }
  }

  /** Parsing the printed integer digits and the 18 low digits (trailing zeros
      dropped) gives back the integer shifted by 18 digits plus the low digits. */
  lemma ParsePrintedPieces(negative: bool, shown: string, low: string)
    requires AllDigits(shown) && AllDigits(low) && |low| == Decimals
    ensures var m: int := Shift(DigitsValue(shown), Decimals) + DigitsValue(low);
            ParseEther(PrintPieces(negative, shown, low)) == Parsed(if negative then -m else m)
  {
    var fraction := TrimTrailingZeros(low);
    assert TrimTrailingZeros(fraction) == fraction;
    TrimmedFractionValue(low);
    ParseEtherPieces(negative, shown, fraction, fraction != []);
  }

  /** Cutting padded digits into the printed integer digits and the 18 low
      digits keeps their value. */
  lemma DisplayValue(display: string)
    requires AllDigits(display) && |display| >= Decimals
    ensures AllDigits(IntegerDigits(display)) && AllDigits(LowDigits(display))
    ensures |LowDigits(display)| == Decimals
    ensures Shift(DigitsValue(IntegerDigits(display)), Decimals) + DigitsValue(LowDigits(display))
            == DigitsValue(display)
  {
    var cut := |display| - Decimals;
    DigitsValueSplit(display, cut);
    assert |display| - cut == Decimals;
    assert DigitsValue(IntegerDigits(display)) == DigitsValue(display[..cut]);
  }

  /** Formatting then parsing gives back the same number of wei. */
  lemma FormatParseRoundTrip(w: int)
    ensures ParseEther(FormatEther(w)) == Parsed(w)
  {
    var negative := w < 0;
    var m: nat := if negative then -w else w;
    var display := PadStart(NatText(m), Decimals);
    var integer, low := IntegerDigits(display), LowDigits(display);
    assert AllDigits(integer) && AllDigits(low) && |low| == Decimals
           && Shift(DigitsValue(integer), Decimals) + DigitsValue(low) == m by {
      PadStartValue(NatText(m), Decimals);
      DisplayValue(display);
    }
    assert FormatEther(w) == PrintPieces(negative, integer, low);
    ParsePrintedPieces(negative, integer, low);
  }
}
