/** CurrencyConversionService: conversion through a fixed table of rates to the base
    currency IDR, with the service's fallbacks for null codes, equal codes, unknown codes
    and a zero divisor. */
module Currency {
  import opened Common
  import opened Ascii
  import opened Decimal

  /** The base currency; its rate is 1. */
  const Base: string := "IDR"

  /** Value of one unit of each currency in IDR. */
  const Rates: map<string, real> := map[
    "IDR" := 1.0,
    "USD" := 16000.0,
    "EUR" := 17300.0,
    "GBP" := 20200.0,
    "SGD" := 11800.0,
    "MYR" := 3400.0,
    "AUD" := 10500.0,
    "JPY" := 105.0,
    "CNY" := 2200.0,
    "HKD" := 2050.0,
    "KRW" := 12.0,
    "THB" := 450.0
  ]

  /** `getOrDefault(code, ONE)` on a rate table. */
  function RateIn(rates: map<string, real>, code: string): real {
    if code in rates then rates[code] else 1.0
  }

  /** Through the base currency: multiply by the source rate, divide by the target rate and
      round HALF_UP to cents, unless the target rate is zero. */
  function Rescale(amount: real, fromRate: real, toRate: real): real {
    if toRate == 0.0 then amount else RoundHalfUp2(amount * fromRate / toRate)
  }

  /** The conversion over any rate table; the service always passes `Rates`.
      Codes are looked up upper-cased, but compared for equality as written. */
  function ConvertWith(rates: map<string, real>, amount: real, from: Option<string>, to: Option<string>): real {
    if from.None? || to.None? then amount
    else if from.value == to.value then amount
    else Rescale(amount, RateIn(rates, Upper(from.value)), RateIn(rates, Upper(to.value)))
  }

  /** `convert(amount, fromCurrency, toCurrency)`; a null code is `None`. */
  function Convert(amount: real, from: Option<string>, to: Option<string>): real
  {
    ConvertWith(Rates, amount, from, to)
  }

  function RateOf(code: string): real {
    RateIn(Rates, code)
  }

  /** `toIDR(amount, fromCurrency)`. */
  function ToIdr(amount: real, from: Option<string>): real {
    Convert(amount, from, Some(Base))
  }

  /** `fromIDR(amount, toCurrency)`. */
  function FromIdr(amount: real, to: Option<string>): real {
    Convert(amount, Some(Base), to)
  }

  /** `getSupportedCurrencies()`: the table's codes (the array order is the hash map's, so a set). */
  function SupportedCurrencies(): set<string> {
    Rates.Keys
  }

  /** `isCurrencySupported(currency)`. */
  predicate IsCurrencySupported(currency: string) {
    Upper(currency) in Rates
  }

  /** Region code to default currency, keys case-sensitive. */
  const RegionCurrency: map<string, string> := map[
    "US" := "USD",
    "ID" := "IDR",
    "GB" := "GBP",
    "AU" := "AUD",
    "SG" := "SGD",
    "MY" := "MYR",
    "JP" := "JPY",
    "CN" := "CNY",
    "HK" := "HKD",
    "KR" := "KRW",
    "TH" := "THB",
    "EU" := "EUR"
  ]

  /** `detectUserCurrency(userRegion)`: the listed regions map to their currency, every
      other region (and null) to IDR; the answer is always a code of the rate table. */
  function DetectUserCurrency(region: Option<string>): (c: string)
    ensures c in SupportedCurrencies()
    ensures region.Some? && region.value in RegionCurrency ==> c == RegionCurrency[region.value]
    ensures region.None? || region.value !in RegionCurrency ==> c == Base
  {
    if region.Some? && region.value in RegionCurrency then RegionCurrency[region.value] else Base
  }

  // ---------------------------------------------------------------------------
  // Properties of the conversion

  /** A null code on either side returns the amount unchanged. */
  lemma ConvertNullCode(amount: real, from: Option<string>, to: Option<string>)
    requires from.None? || to.None?
    ensures Convert(amount, from, to) == amount
  {
  }

  /** Exactly equal codes return the amount unchanged, without rounding. */
  lemma ConvertSameCode(amount: real, code: string)
    ensures Convert(amount, Some(code), Some(code)) == amount
  {
  }

  /** Every rate of the table is strictly positive. */
  lemma RatesPositive()
    ensures forall c :: c in Rates ==> Rates[c] > 0.0
  {
  }

  /** With a positive target rate the guard does not fire: the result is the exact quotient
      `amount * fromRate / toRate` rounded HALF_UP to cents. */
  lemma RescaleFormula(amount: real, fromRate: real, toRate: real)
    requires toRate > 0.0
    ensures Rescale(amount, fromRate, toRate) == RoundHalfUp2(amount * fromRate / toRate)
  {
  }

  /** Equal positive rates cancel, leaving only the rounding. */
  lemma RescaleSameRate(amount: real, rate: real)
    requires rate > 0.0
    ensures Rescale(amount, rate, rate) == RoundHalfUp2(amount)
  {
    assert amount * rate / rate == amount;
  }

  /** Over a table of positive rates, two different codes are rescaled by their (upper-cased)
      rates, both positive, so the zero-divisor guard never fires. */
  lemma ConvertWithFormula(rates: map<string, real>, amount: real, from: string, to: string)
    requires forall c :: c in rates ==> rates[c] > 0.0
    requires from != to
    ensures RateIn(rates, Upper(from)) > 0.0 && RateIn(rates, Upper(to)) > 0.0
    ensures ConvertWith(rates, amount, Some(from), Some(to))
            == Rescale(amount, RateIn(rates, Upper(from)), RateIn(rates, Upper(to)))
  {
  }

  /** Every code, listed or not, has a positive rate in the service's table. */
  lemma RateOfPositive(code: string)
    ensures RateOf(code) > 0.0
  {
    RatesPositive();
  }

  /** With the service's table the zero-divisor guard never fires: two different codes
      convert by the rate formula, rounded HALF_UP to cents (see `RescaleFormula`). */
  lemma ConvertFormula(amount: real, from: string, to: string)
    requires from != to
    ensures RateOf(Upper(from)) > 0.0 && RateOf(Upper(to)) > 0.0
    ensures Convert(amount, Some(from), Some(to)) == Rescale(amount, RateOf(Upper(from)), RateOf(Upper(to)))
  {
    RatesPositive();
    ConvertWithFormula(Rates, amount, from, to);
  }

  /** The guard itself: over a table with a zero target rate the amount comes back unchanged. */
  lemma ZeroRateReturnsAmount(rates: map<string, real>, amount: real, from: string, to: string)
    requires from != to && RateIn(rates, Upper(to)) == 0.0
    ensures ConvertWith(rates, amount, Some(from), Some(to)) == amount
  {
  }

  /** Case variants are different codes: they go through the arithmetic and come out rounded. */
  lemma CaseVariantsAreRounded(amount: real, code: string)
    requires code != Upper(code)
    ensures Convert(amount, Some(code), Some(Upper(code))) == RoundHalfUp2(amount)
  {
    UpperIdempotent(code);
    ConvertFormula(amount, code, Upper(code));
    RescaleSameRate(amount, RateOf(Upper(code)));
  }

  /** A code missing from the table (after upper-casing) has rate 1, exactly like IDR. */
  lemma UnknownCodeIsBase(code: string)
    requires !IsCurrencySupported(code)
    ensures RateOf(Upper(code)) == RateOf(Base) == 1.0
  {
  }

  /** So converting an unknown code to IDR only rounds: the amount is not returned unchanged
      unless it already has at most two decimals. */
  lemma UnknownCodeToIdr(amount: real, code: string)
    requires !IsCurrencySupported(code)
    ensures ToIdr(amount, Some(code)) == RoundHalfUp2(amount)
  {
    UpperOfUpperCase(Base);
    assert code != Base;
    ConvertFormula(amount, code, Base);
    RescaleSameRate(amount, 1.0);
  }

  /** The two helpers are `convert` with IDR on one side; 100 USD is 1,600,000.00 IDR. */
  lemma ToIdrExample()
    ensures ToIdr(100.0, Some("USD")) == 1600000.0
    ensures FromIdr(1600000.0, Some("USD")) == 100.0
  {
    UpperOfUpperCase("USD");
    UpperOfUpperCase(Base);
    ConvertFormula(100.0, "USD", Base);
    RescaleFormula(100.0, 16000.0, 1.0);
    RoundHalfUp2Exact(1600000.0);
    ConvertFormula(1600000.0, Base, "USD");
    RescaleFormula(1600000.0, 1.0, 16000.0);
    RoundHalfUp2Exact(100.0);
  }

  /** The error arithmetic behind the round trip: two roundings, the first one scaled
      by the ratio of the rates on the way back. */
  lemma TwoRoundingsBound(x: real, y: real, z: real, ra: real, rb: real)
    requires ra > 0.0 && rb > 0.0
    requires -0.005 <= y - x * ra / rb <= 0.005
    requires -0.005 <= z - y * rb / ra <= 0.005
    ensures -0.005 * (1.0 + rb / ra) <= z - x <= 0.005 * (1.0 + rb / ra)
  {
    var ratio := rb / ra;
    var e1 := y - x * ra / rb;
    var e2 := z - y * rb / ra;
    assert x * ra / rb * ratio == x;
    assert y * rb / ra == y * ratio;
    assert z - x == e2 + e1 * ratio;
    assert -0.005 * ratio <= e1 * ratio <= 0.005 * ratio;
  }

  /** Rescaling by positive rates is off the exact quotient by at most half a cent. */
  lemma RescaleError(x: real, fromRate: real, toRate: real)
    requires fromRate > 0.0 && toRate > 0.0
    ensures -0.005 <= Rescale(x, fromRate, toRate) - x * fromRate / toRate <= 0.005
  {
    RoundHalfUp2Error(x * fromRate / toRate);
  }

  /** Rescaling there and back stays within half a cent of each rounding, the first one
      scaled by the ratio of the rates. */
  lemma RescaleRoundTripBound(x: real, ra: real, rb: real)
    requires ra > 0.0 && rb > 0.0
    ensures var back := Rescale(Rescale(x, ra, rb), rb, ra);
            -0.005 * (1.0 + rb / ra) <= back - x <= 0.005 * (1.0 + rb / ra)
  {
    var y := Rescale(x, ra, rb);
    RescaleError(x, ra, rb);
    RescaleError(y, rb, ra);
    TwoRoundingsBound(x, y, Rescale(y, rb, ra), ra, rb);
  }

  /** Converting there and back between two different codes stays within half a cent of
      each rounding, the first one scaled by the ratio of the rates. */
  lemma ConvertRoundTripBound(x: real, a: string, b: string)
    requires a != b
    ensures var back := Convert(Convert(x, Some(a), Some(b)), Some(b), Some(a));
            var ratio := RateOf(Upper(b)) / RateOf(Upper(a));
            -0.005 * (1.0 + ratio) <= back - x <= 0.005 * (1.0 + ratio)
  {
    ConvertFormula(x, a, b);
    RescaleRoundTripBound(x, RateOf(Upper(a)), RateOf(Upper(b)));
  }

  // ---------------------------------------------------------------------------
  // Properties of the table helpers

  /** The table has exactly these twelve codes. */
  lemma SupportedCurrenciesAreTwelve()
    ensures SupportedCurrencies() == {"IDR", "USD", "EUR", "GBP", "SGD", "MYR", "AUD", "JPY", "CNY", "HKD", "KRW", "THB"}
  {
  }

  /** Every listed code is supported, whatever case it is written in. */
  lemma LowerCaseCodeSupported()
    ensures IsCurrencySupported("usd") && IsCurrencySupported("Idr")
    ensures !IsCurrencySupported("XYZ")
  {
    assert Upper("usd") == "USD";
    assert Upper("Idr") == "IDR";
    UpperOfUpperCase("XYZ");
  }

  /** The region table has exactly the twelve listed regions. */
  lemma RegionsAreTwelve()
    ensures RegionCurrency.Keys == {"US", "ID", "GB", "AU", "SG", "MY", "JP", "CN", "HK", "KR", "TH", "EU"}
  {
  }

  /** Each listed region gets its own currency: the ISO 4217 code that begins with the
      region code. */
  lemma RegionCurrencyIsIsoPrefix()
    ensures forall r | r in RegionCurrency :: |RegionCurrency[r]| == 3 && RegionCurrency[r][..2] == r
  {
  }

  /** Every supported currency is the currency of some listed region. */
  lemma RegionCurrenciesCoverTable()
    ensures RegionCurrency.Values == SupportedCurrencies()
  {
    SupportedCurrenciesAreTwelve();
    assert RegionCurrency["US"] in RegionCurrency.Values;
    assert RegionCurrency["ID"] in RegionCurrency.Values;
    assert RegionCurrency["GB"] in RegionCurrency.Values;
    assert RegionCurrency["AU"] in RegionCurrency.Values;
    assert RegionCurrency["SG"] in RegionCurrency.Values;
    assert RegionCurrency["MY"] in RegionCurrency.Values;
    assert RegionCurrency["JP"] in RegionCurrency.Values;
    assert RegionCurrency["CN"] in RegionCurrency.Values;
    assert RegionCurrency["HK"] in RegionCurrency.Values;
    assert RegionCurrency["KR"] in RegionCurrency.Values;
    assert RegionCurrency["TH"] in RegionCurrency.Values;
    assert RegionCurrency["EU"] in RegionCurrency.Values;
  }

  /** Region lookup is exact and case-sensitive. */
  lemma DetectUserCurrencyExamples()
    ensures DetectUserCurrency(Some("US")) == "USD"
    ensures DetectUserCurrency(Some("EU")) == "EUR"
    ensures DetectUserCurrency(Some("us")) == "IDR"
    ensures DetectUserCurrency(Some("FR")) == "IDR"
  {
  }

  /** The detected currency is always one `isCurrencySupported` accepts. */
  lemma DetectedCurrencySupported(region: Option<string>)
    ensures IsCurrencySupported(DetectUserCurrency(region))
  {
    var c := DetectUserCurrency(region);
    UpperOfUpperCase(c);
  }
}
