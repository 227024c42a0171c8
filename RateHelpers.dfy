/** The rate helpers: USD per hour to wei per second and back, and ether
    text to wei. The price conversion is modelled in exact arithmetic; the
    floating-point rounding of the source and the text a float prints as are
    not, so where a helper goes from a float to text the model starts from
    that text. */
module RateHelpers {
  import opened Numerics
  import opened EtherUnits

  const SecondsPerHour: int := 3600

  /** The fixed price both directions assume: 2000 USD per ether. */
  const UsdPerEther: real := 2000.0

  /** `usdPerHour / 2000`, in exact arithmetic. */
  function UsdToEther(usd: real): (ether: real)
    ensures ether * UsdPerEther == usd
  {
    usd / UsdPerEther
  }

  /** `ethPerHour * 2000`, in exact arithmetic. */
  function EtherToUsd(ether: real): (usd: real)
    ensures UsdToEther(usd) == ether
  {
    ether * UsdPerEther
  }

  /** Both directions use the same price, so in exact arithmetic converting
      USD to ether and back is the identity, and so is the reverse. */
  lemma SamePriceBothWays(usd: real, ether: real)
    ensures EtherToUsd(UsdToEther(usd)) == usd
    ensures UsdToEther(EtherToUsd(ether)) == ether
  {
  }

  /** `weiPerHour / 3600n`: bigint division, which truncates toward zero. For
      a non-negative rate it is floor division and the discarded residue is
      under 3600 wei. */
  function WeiPerHourToWeiPerSecond(weiPerHour: int): (weiPerSecond: int)
    ensures weiPerHour >= 0 ==> 0 <= weiPerSecond
    ensures weiPerHour >= 0 ==>
              weiPerSecond * SecondsPerHour <= weiPerHour < weiPerSecond * SecondsPerHour + SecondsPerHour
    ensures weiPerHour < 0 ==> weiPerSecond <= 0
    ensures weiPerHour < 0 ==>
              weiPerSecond * SecondsPerHour - SecondsPerHour < weiPerHour <= weiPerSecond * SecondsPerHour
  {
    TruncDiv(weiPerHour, SecondsPerHour)
  }

  /** `weiPerSecond * 3600n`: exactly undone by the division above. */
  function WeiPerSecondToWeiPerHour(weiPerSecond: int): (weiPerHour: int)
    ensures WeiPerHourToWeiPerSecond(weiPerHour) == weiPerSecond
    ensures weiPerSecond >= 0 ==> weiPerHour >= 0
  {
    weiPerSecond * SecondsPerHour
  }

  /** `usdHourToWeiSecond` from the text of the ether-per-hour rate onward:
      `parseEther` of that text, then the division by 3600. `InvalidDecimal`
      is the exception `parseEther` throws, which the helper does not catch. */
  function UsdHourToWeiSecond(etherPerHourText: string): (r: ParseResult)
    ensures r.Parsed? <==> IsDecimalText(etherPerHourText)
  {
    match ParseEther(etherPerHourText)
    case InvalidDecimal => InvalidDecimal
    case Parsed(weiPerHour) => Parsed(WeiPerHourToWeiPerSecond(weiPerHour))
  }

  /** The text `weiSecondToUsdHour` reads back as a number:
      `formatEther(weiPerSecond * 3600n)`, which denotes exactly that many wei. */
  function WeiSecondToEtherPerHourText(weiPerSecond: int): (text: string)
    ensures ParseEther(text) == Parsed(weiPerSecond * SecondsPerHour)
  {
    FormatParseRoundTrip(WeiPerSecondToWeiPerHour(weiPerSecond));
    FormatEther(WeiPerSecondToWeiPerHour(weiPerSecond))
  }

  /** `parseToWei(amount)` is `parseEther(amount)`: it succeeds exactly on
      decimal text. */
  function ParseToWei(amount: string): (r: ParseResult)
    ensures r.Parsed? <==> IsDecimalText(amount)
    ensures r == ParseEther(amount)
  {
    ParseEther(amount)
  }

  /** On `whole[.frac]` with at most 18 fraction digits, `parseToWei` is exact. */
  lemma ParseToWeiOfDecimal(whole: string, frac: string, dotted: bool)
    requires AllDigits(whole) && AllDigits(frac)
    requires !dotted ==> frac == []
    requires |frac| <= Decimals
    ensures ParseToWei(whole + (if dotted then "." + frac else ""))
            == Parsed(Shift(DigitsValue(whole), Decimals) + Shift(DigitsValue(frac), Decimals - |frac|))
  {
    assert "" + whole + (if dotted then "." + frac else "") == whole + (if dotted then "." + frac else "");
    ParseEtherExact(false, whole, frac, dotted);
  }

  /** Per-second rate for an ether-per-hour text `whole[.frac]`: the largest
      rate whose hourly total does not exceed the text's value in wei. */
  lemma UsdHourToWeiSecondOfDecimal(whole: string, frac: string, dotted: bool)
    requires AllDigits(whole) && AllDigits(frac)
    requires !dotted ==> frac == []
    requires |frac| <= Decimals
    ensures var perHour := Shift(DigitsValue(whole), Decimals) + Shift(DigitsValue(frac), Decimals - |frac|);
            var r := UsdHourToWeiSecond(whole + (if dotted then "." + frac else ""));
            r.Parsed? && 0 <= r.wei
            && r.wei * SecondsPerHour <= perHour < r.wei * SecondsPerHour + SecondsPerHour
  {
    ParseToWeiOfDecimal(whole, frac, dotted);
  }

  /** Per-second rate for any non-negative ether-per-hour text, whatever its
      number of fraction digits: the largest rate whose hourly total does not
      exceed the wei `parseEther` reads from the text. */
  lemma UsdHourToWeiSecondBounds(etherPerHourText: string)
    requires IsDecimalText(etherPerHourText)
    requires ParseEther(etherPerHourText).wei >= 0
    ensures var perHour := ParseEther(etherPerHourText).wei;
            var r := UsdHourToWeiSecond(etherPerHourText);
            r.Parsed? && 0 <= r.wei
            && r.wei * SecondsPerHour <= perHour < r.wei * SecondsPerHour + SecondsPerHour
  {
  }

  /** A rate so small that its decimal text is written with an exponent (as
      JavaScript prints numbers below 1e-6) is rejected by `parseEther`, so
      `usdHourToWeiSecond` throws. */
  lemma ExponentTextThrows(text: string, i: nat)
    requires i < |text| && text[i] == 'e'
    ensures UsdHourToWeiSecond(text) == InvalidDecimal
  {
    ForeignCharRejected(text, i);
  }

  /** Round trip in wei: per hour to per second and back loses less than
      3600 wei, and never gains for a non-negative rate. */
  lemma WeiRoundTrip(weiPerHour: int)
    ensures var back := WeiPerSecondToWeiPerHour(WeiPerHourToWeiPerSecond(weiPerHour));
            (weiPerHour >= 0 ==> 0 <= back <= weiPerHour < back + SecondsPerHour)
            && (weiPerHour < 0 ==> weiPerHour <= back < weiPerHour + SecondsPerHour)
  {
  }

  /** Round trip through the two helpers' texts: the ether-per-hour text read
      back from the per-second rate denotes at most the original wei per hour,
      and less than 3600 wei below it. */
  lemma TextRoundTrip(etherPerHourText: string)
    requires IsDecimalText(etherPerHourText)
    requires ParseEther(etherPerHourText).wei >= 0
    ensures var perSecond := UsdHourToWeiSecond(etherPerHourText).wei;
            var back := ParseEther(WeiSecondToEtherPerHourText(perSecond)).wei;
            var original := ParseEther(etherPerHourText).wei;
            0 <= back <= original < back + SecondsPerHour
  {
    WeiRoundTrip(ParseEther(etherPerHourText).wei);
  }
}
