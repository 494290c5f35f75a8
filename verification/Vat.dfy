/** The tax-exclusive base of a tax-inclusive sticker: `derive_base`. */
module Vat {
  import opened Options
  import Currency
  import Text

  /** STANDARD_VAT_RATES, in thousandths. */
  const STANDARD_VAT_RATES: map<string, int> := map[
    "AT" := 200, "BE" := 210, "BG" := 200, "HR" := 250, "CY" := 190, "CZ" := 210, "DK" := 250,
    "EE" := 220, "FI" := 255, "FR" := 200, "DE" := 190, "GR" := 240, "HU" := 270, "IE" := 230,
    "IT" := 220, "LV" := 210, "LT" := 210, "LU" := 170, "MT" := 180, "NL" := 210, "PL" := 230,
    "PT" := 230, "RO" := 190, "SK" := 230, "SI" := 220, "ES" := 210, "SE" := 250, "GB" := 200,
    "US" := 0, "CN" := 0]

  function Upper(s: string): string {
    if s == "" then "" else [Text.ToUpper(s[0])] + Upper(s[1..])
  }

  /** `standard_vat_rate`: zero for an untracked country. */
  function StandardVatRate(country: string): real {
    var key := Upper(country);
    if key in STANDARD_VAT_RATES then STANDARD_VAT_RATES[key] as real / 1000.0 else 0.0
  }

  /** `derive_base`; `None` stands for the ValueError. */
  function DeriveBase(sticker: int, rate: real): Option<int> {
    if sticker < 0 || rate < 0.0 then None
    else if rate == 0.0 then Some(sticker)
    else Some(Currency.HalfUp(sticker as real / (1.0 + rate)))
  }

  /** Adding the tax back, rounded half up. */
  function AddTax(base: int, rate: real): int { Currency.HalfUp(base as real * (1.0 + rate)) }

  /** `base` is the multiple count of `q` nearest to `sticker`, halves going up. */
  ghost predicate Rounds(sticker: int, q: real, base: int) {
    (base as real - 0.5) * q <= sticker as real < (base as real + 0.5) * q
  }

  lemma Scale(a: real, b: real, q: real)
    requires a <= b && q >= 0.0
    ensures a * q <= b * q
  {
  }

  lemma ScaleStrict(a: real, b: real, q: real)
    requires a < b && q > 0.0
    ensures a * q < b * q
  {
  }

  lemma Distribute(a: real, q: real)
    ensures (a - 0.5) * q == a * q - 0.5 * q
    ensures (a + 0.5) * q == a * q + 0.5 * q
    ensures (a + 1.0) * q == a * q + q
  {
  }

  lemma Cancel(a: real, b: real, q: real)
    requires a * q < b * q && q > 0.0
    ensures a < b
  {
    if b <= a { Scale(b, a, q); }
  }

  lemma RoundsMonotone(sticker: int, sticker': int, q: real, base: int, base': int)
    requires q > 0.0 && sticker <= sticker'
    requires Rounds(sticker, q, base) && Rounds(sticker', q, base')
    ensures base <= base'
  {
    var a, b := base as real, base' as real;
    Distribute(a, q);
    Distribute(b, q);
    var aq, bq, half := a * q, b * q, 0.5 * q;
    assert aq - half <= sticker as real;
    assert sticker' as real < bq + half;
    assert aq < bq + q;
    Cancel(a, b + 1.0, q);
  }

  lemma QuotientBounds(s: real, q: real, base: real)
    requires q > 0.0 && base - 0.5 <= s / q < base + 0.5
    ensures (base - 0.5) * q <= s < (base + 0.5) * q
  {
    var x := s / q;
    assert x * q == s;
    Scale(base - 0.5, x, q);
    ScaleStrict(x, base + 0.5, q);
  }

  /** Half-up rounding of the quotient, stated without division. */
  lemma BaseRounds(sticker: int, rate: real)
    requires sticker >= 0 && rate >= 0.0
    ensures DeriveBase(sticker, rate).Some? && Rounds(sticker, 1.0 + rate, DeriveBase(sticker, rate).value)
  {
    var q := 1.0 + rate;
    var base := DeriveBase(sticker, rate).value;
    if rate > 0.0 {
      assert sticker as real / q >= 0.0;
      QuotientBounds(sticker as real, q, base as real);
    } else {
      assert q == 1.0;
    }
  }

  /** Conversely the bounds pin the base down. */
  lemma BaseIff(sticker: int, rate: real, base: int)
    requires sticker >= 0 && rate >= 0.0
    ensures DeriveBase(sticker, rate) == Some(base) <==> Rounds(sticker, 1.0 + rate, base)
  {
    BaseRounds(sticker, rate);
    var derived := DeriveBase(sticker, rate).value;
    if Rounds(sticker, 1.0 + rate, base) {
      RoundsMonotone(sticker, sticker, 1.0 + rate, base, derived);
      RoundsMonotone(sticker, sticker, 1.0 + rate, derived, base);
    }
  }

  lemma NegativeBand(base: int, q: real)
    requires base < 0 && q > 0.0
    ensures (base as real + 0.5) * q < 0.0
  {
    var a := base as real;
    Distribute(a, q);
    Scale(a, -1.0, q);
    assert -1.0 * q == -q;
  }

  lemma HighBand(sticker: int, base: int, q: real)
    requires base > sticker >= 0 && q >= 1.0
    ensures sticker as real < (base as real - 0.5) * q
  {
    var a, t := base as real, sticker as real;
    Distribute(a, q);
    Distribute(t, q);
    Scale(t + 1.0, a, q);
    Scale(1.0, q, t);
    assert q * t == t * q && 1.0 * t == t;
  }

  /** The base lies between zero and the sticker. */
  lemma BaseInRange(sticker: int, rate: real)
    requires sticker >= 0 && rate >= 0.0
    ensures 0 <= DeriveBase(sticker, rate).value <= sticker
  {
    BaseRounds(sticker, rate);
    var base, q := DeriveBase(sticker, rate).value, 1.0 + rate;
    if base < 0 { NegativeBand(base, q); }
    if base > sticker { HighBand(sticker, base, q); }
  }

  lemma BaseMonotone(sticker: int, sticker': int, rate: real)
    requires 0 <= sticker <= sticker' && rate >= 0.0
    ensures DeriveBase(sticker, rate).value <= DeriveBase(sticker', rate).value
  {
    BaseRounds(sticker, rate);
    BaseRounds(sticker', rate);
    RoundsMonotone(sticker, sticker', 1.0 + rate,
                   DeriveBase(sticker, rate).value, DeriveBase(sticker', rate).value);
  }

  /** For every rate below 200 %, and so for every rate in the table, adding the tax back lands within one
      minor unit of the sticker. */
  lemma TaxedWithinOneUnit(sticker: int, rate: real)
    requires sticker >= 0 && 0.0 <= rate < 2.0
    ensures -1 <= AddTax(DeriveBase(sticker, rate).value, rate) - sticker <= 1
  {
    BaseRounds(sticker, rate);
    BaseInRange(sticker, rate);
    var base, q := DeriveBase(sticker, rate).value as real, 1.0 + rate;
    assert (base - 0.5) * q == base * q - 0.5 * q;
    assert (base + 0.5) * q == base * q + 0.5 * q;
    Scale(0.0, base, q);
  }

  /** Deriving the base of a re-taxed base gives that base back, for every rate. */
  lemma RetaxedBaseReturns(base: int, rate: real)
    requires base >= 0 && rate >= 0.0
    ensures DeriveBase(AddTax(base, rate), rate) == Some(base)
  {
    var q := 1.0 + rate;
    var gross := base as real * q;
    assert gross >= 0.0;
    var t := AddTax(base, rate);
    assert gross - 0.5 < t as real <= gross + 0.5;
    assert (base as real - 0.5) * q == gross - 0.5 * q;
    assert (base as real + 0.5) * q == gross + 0.5 * q;
    if rate > 0.0 {
      BaseIff(t, rate, base);
    } else {
      assert gross == base as real;
      Currency.HalfUpOfInt(base);
    }
  }

  /** The rates of the table, country by country, in thousandths. */
  lemma RatesByKey(key: string)
    ensures (if key in STANDARD_VAT_RATES then STANDARD_VAT_RATES[key] else 0) ==
              if key == "LU" then 170
              else if key == "MT" then 180
              else if key in {"CY", "DE", "RO"} then 190
              else if key in {"AT", "BG", "FR", "GB"} then 200
              else if key in {"BE", "CZ", "ES", "LT", "LV", "NL"} then 210
              else if key in {"EE", "IT", "SI"} then 220
              else if key in {"IE", "PL", "PT", "SK"} then 230
              else if key == "GR" then 240
              else if key in {"DK", "HR", "SE"} then 250
              else if key == "FI" then 255
              else if key == "HU" then 270
              else 0
  {
  }

  /** What is charged is the rate of the table, whatever the case of the code, and nothing elsewhere. */
  lemma RatesByCountry(country: string)
    ensures var key, rate := Upper(country), StandardVatRate(country);
            && (key in STANDARD_VAT_RATES ==> rate * 1000.0 == STANDARD_VAT_RATES[key] as real)
            && (key !in STANDARD_VAT_RATES ==> rate == 0.0)
            && (rate == 0.27 <==> key == "HU") && (rate == 0.17 <==> key == "LU")
  {
    RatesByKey(Upper(country));
    hide Upper;
  }

  /** A country code counts in either case. */
  lemma {:induction false} CaseOfCountry(country: string)
    ensures StandardVatRate(Upper(country)) == StandardVatRate(country)
  {
    UpperTwice(country);
    hide Upper;
  }

  lemma {:induction false} UpperTwice(s: string)
    ensures Upper(Upper(s)) == Upper(s)
  {
    if s != "" {
      UpperTwice(s[1..]);
      assert Upper(s)[1..] == Upper(s[1..]);
    }
  }

  /** Every rate of the table is at least zero and below one. */
  lemma TableRates(country: string)
    ensures 0.0 <= StandardVatRate(country) < 1.0
  {
    var key := Upper(country);
    if key in STANDARD_VAT_RATES {
      assert STANDARD_VAT_RATES[key] in STANDARD_VAT_RATES.Values;
      assert STANDARD_VAT_RATES.Values <= {0, 170, 180, 190, 200, 210, 220, 230, 240, 250, 255, 270};
    }
  }
}
