/** The daily price sync: every localized price and every uncurated country price follows the exchange rates. */
module PriceSync {
  import opened Options
  import Currency
  import Vat

  // ------------------------------------------------------------------ tables

  /** A localized or country price belongs to a plan price or to a product price, never to both. */
  datatype Owner = PlanPrice(id: nat) | ProductPrice(id: nat)

  datatype Localized = Localized(owner: Owner, currency: string, amount: int, stripePriceId: Option<string>,
                                 syncedAt: int)

  datatype Country = Country(owner: Owner, country: string, currency: string, sticker: int, base: int,
                             isCurated: bool, stripePriceId: Option<string>, updatedAt: int)

  /** Prices in US cents; the exchange rates by lower-case currency. */
  type Prices = map<Owner, int>
  type Rates = map<string, real>

  /** What the exchange-rate service answered. */
  datatype Feed = Unavailable | Available(rates: Rates)

  predicate SamePair(a: Localized, b: Localized) { a.owner == b.owner && a.currency == b.currency }

  /** `uniq_localized_plan_price_currency` and its twin for products. */
  predicate Unique(rows: map<nat, Localized>) {
    forall i, j | i in rows && j in rows && i != j :: !SamePair(rows[i], rows[j])
  }

  predicate Below<T>(rows: map<nat, T>, next: nat) { forall i | i in rows :: i < next }

  predicate OwnersKnown(countries: map<nat, Country>, prices: Prices) {
    forall i | i in countries :: countries[i].owner in prices
  }

  // ------------------------------------------------------------------ amounts

  predicate ZeroDecimal(currency: string) { currency in Currency.ZERO_DECIMAL }

  /** The currencies that get a localized row. */
  predicate Converts(rates: Rates, currency: string) {
    currency in Currency.SUPPORTED && currency != "usd" && currency in rates
  }

  /** A dollar price at an exchange rate, before rounding. */
  function Display(amount: int, rate: real): real { Currency.FormatAmount(amount, false) * rate }

  /** The friendly-rounded conversion in minor units. */
  function Converted(amount: int, rate: real, currency: string): int {
    var zd := ZeroDecimal(currency);
    Currency.ToMinorUnits(Currency.RoundFriendly(Display(amount, rate), zd), zd)
  }

  /** The amount the feed asks for, if the feed has a say. */
  function Wanted(prices: Prices, rates: Rates, owner: Owner, currency: string): Option<int> {
    if owner in prices && Converts(rates, currency) then Some(Converted(prices[owner], rates[currency], currency))
    else None
  }

  /** `_suggested_sticker`. */
  function Suggested(amount: int, rates: Rates, currency: string): Option<int> {
    if currency == "usd" then Some(amount)
    else if currency in rates then Some(Converted(amount, rates[currency], currency))
    else None
  }

  /** In cents times rate, with no conversion in between: a two-decimal price is stored within 25 minor units of the
      exact one. */
  lemma TwoDecimalConversion(amount: int, rate: real, currency: string)
    requires !ZeroDecimal(currency) && amount as real * rate > 0.0
    ensures -25.0 <= Converted(amount, rate, currency) as real - amount as real * rate <= 25.0
    ensures Converted(amount, rate, currency) % 50 == 49
  {
    var exact, d := amount as real * rate, Display(amount, rate);
    assert d * 100.0 == exact by { CentsToDollars(amount, rate); }
    var m := Currency.TwoDecimalIsNearest(d);
    Currency.CharmEnding(d);
    hide Currency.RoundFriendly, Display;
    var minor := Converted(amount, rate, currency);
    assert minor as real / 100.0 == Currency.Anchor(m);
  }

  lemma CentsToDollars(amount: int, rate: real)
    ensures Display(amount, rate) * 100.0 == amount as real * rate
  {
    var a := amount as real;
    assert Display(amount, rate) == a / 100.0 * rate;
    assert a / 100.0 * 100.0 == a;
  }

  /** A zero-decimal price is stored within half a step of the exact one: 5 units below 1000 units, 50 from there on. */
  lemma ZeroDecimalConversion(amount: int, rate: real, currency: string)
    requires ZeroDecimal(currency) && amount as real * rate > 0.0
    ensures var exact, stored := amount as real * rate, Converted(amount, rate, currency);
            && (exact < 100000.0 ==> -500.0 <= (100 * stored) as real - exact <= 500.0 && stored % 10 == 0)
            && (exact >= 100000.0 ==> -5000.0 <= (100 * stored) as real - exact <= 5000.0 && stored % 100 == 0)
  {
    var exact, d, stored := amount as real * rate, Display(amount, rate), Converted(amount, rate, currency);
    CentsToDollars(amount, rate);
    Currency.ZeroDecimalMinor(d);
    assert stored as real == Currency.RoundFriendly(d, true);
    Currency.ZeroDecimalNearest(d);
    hide Converted, Currency.RoundFriendly, Currency.ToMinorUnits, Display, ZeroDecimal, Currency.NearestMultiple;
    if exact < 100000.0 { StoredMultiple(d, 10, stored); } else { StoredMultiple(d, 100, stored); }
  }

  lemma StoredMultiple(d: real, step: int, stored: int)
    requires step == 10 || step == 100
    requires Currency.NearestMultiple(d, step, stored as real)
    ensures -50.0 * step as real <= (100 * stored) as real - d * 100.0 <= 50.0 * step as real && stored % step == 0
  {
    var n: int :| stored as real == (n * step) as real
                  && -(step as real) <= 2.0 * (stored as real - d) <= step as real;
    hide Currency.NearestMultiple;
    var w := step as real;
    assert stored == n * step && (stored == n * 10 || stored == n * 100);
    InHundredths(stored as real, d, w);
    assert (100 * stored) as real == 100.0 * stored as real;
  }

  lemma InHundredths(x: real, d: real, w: real)
    requires -w <= 2.0 * (x - d) <= w
    ensures -50.0 * w <= 100.0 * x - d * 100.0 <= 50.0 * w
  {
  }

  /** A price that costs nothing, or less, is stored as zero. */
  lemma NothingConverted(amount: int, rate: real, currency: string)
    requires amount as real * rate <= 0.0
    ensures Converted(amount, rate, currency) == 0
  {
    CentsToDollars(amount, rate);
  }

  /** What may be stored for cents times rate: half a rounding step off at most, and nothing for nothing. */
  predicate WithinHalfStep(stored: int, amount: int, rate: real, currency: string) {
    var exact := amount as real * rate;
    if exact <= 0.0 then stored == 0
    else if currency !in Currency.ZERO_DECIMAL then -25.0 <= stored as real - exact <= 25.0
    else if exact < 100000.0 then -500.0 <= (100 * stored) as real - exact <= 500.0
    else -5000.0 <= (100 * stored) as real - exact <= 5000.0
  }

  lemma ConversionClose(stored: int, amount: int, rate: real, currency: string)
    requires stored == Converted(amount, rate, currency)
    ensures WithinHalfStep(stored, amount, rate, currency)
  {
    hide Converted;
    if amount as real * rate <= 0.0 {
      NothingConverted(amount, rate, currency);
    } else if ZeroDecimal(currency) {
      ZeroDecimalConversion(amount, rate, currency);
    } else {
      TwoDecimalConversion(amount, rate, currency);
    }
  }

  /** At par, a price that already ends in 49 or 99 is stored as it is. */
  lemma CharmPricesReturn(amount: int, currency: string)
    requires !ZeroDecimal(currency) && amount > 0 && amount % 50 == 49
    ensures Converted(amount, 1.0, currency) == amount
  {
    hide Converted, ZeroDecimal;
    assert amount as real * 1.0 == amount as real;
    TwoDecimalConversion(amount, 1.0, currency);
    SameCharm(amount, Converted(amount, 1.0, currency));
  }

  lemma SameCharm(a: int, b: int)
    requires a % 50 == 49 && b % 50 == 49 && -25.0 <= b as real - a as real <= 25.0
    ensures a == b
  {
    assert -25 <= b - a <= 25;
    assert a == 50 * (a / 50) + 49 && b == 50 * (b / 50) + 49;
  }

  /** A country's sticker: in dollars the price itself, else the conversion, and nothing without a rate. */
  lemma SuggestionMeans(prices: Prices, rates: Rates, row: Country)
    requires row.owner in prices
    ensures Suggestion(prices, rates, row) ==
              if row.isCurated || (row.currency != "usd" && row.currency !in rates) then None
              else if row.currency == "usd" then Some(prices[row.owner])
              else Some(Converted(prices[row.owner], rates[row.currency], row.currency))
  {
  }

  /** A stored amount can only come out negative below the rounding floor. */
  lemma ConvertedNegativeIff(amount: int, rate: real, currency: string)
    ensures Converted(amount, rate, currency) < 0 <==> !ZeroDecimal(currency) && 0.0 < Display(amount, rate) <= 0.24
  {
    var d := Display(amount, rate);
    if ZeroDecimal(currency) {
      Currency.ZeroDecimalMinor(d);
    } else if d > 0.0 {
      Currency.CharmEnding(d);
    }
  }

  lemma HalfUpMonotone(x: real, y: real)
    requires x <= y
    ensures Currency.HalfUp(x) <= Currency.HalfUp(y)
  {
  }

  lemma DisplayKeepsOrder(a: int, b: int, rate: real)
    requires a <= b && rate > 0.0
    ensures Display(a, rate) <= Display(b, rate)
    ensures Display(a, rate) <= 0.0 <==> a <= 0
  {
    var x, y := Currency.FormatAmount(a, false), Currency.FormatAmount(b, false);
    Vat.Scale(x, y, rate);
    if x > 0.0 { Vat.ScaleStrict(0.0, x, rate); } else { Vat.Scale(x, 0.0, rate); }
  }

  lemma MinorKeepsOrder(x: real, y: real, zeroDecimal: bool)
    requires x <= y
    ensures Currency.ToMinorUnits(x, zeroDecimal) <= Currency.ToMinorUnits(y, zeroDecimal)
  {
    HalfUpMonotone(if zeroDecimal then x else x * 100.0, if zeroDecimal then y else y * 100.0);
  }

  lemma FreeConvertsToZero(amount: int, rate: real, currency: string)
    requires amount <= 0 && rate > 0.0
    ensures Converted(amount, rate, currency) == 0
  {
    DisplayKeepsOrder(amount, 0, rate);
    assert Display(0, rate) == 0.0;
  }

  /** A dearer plan never converts to a lower price, except that a price below the rounding floor comes out
      under a free one. */
  lemma ConversionKeepsOrderIff(a: int, b: int, rate: real, currency: string)
    requires a <= b && rate > 0.0
    ensures Converted(a, rate, currency) <= Converted(b, rate, currency)
            <==> ZeroDecimal(currency) || !(a <= 0 && 0.0 < Display(b, rate) <= 0.24)
  {
    hide ZeroDecimal, Display, Currency.RoundFriendly, Currency.ToMinorUnits;
    var x, y, zd := Display(a, rate), Display(b, rate), ZeroDecimal(currency);
    DisplayKeepsOrder(a, b, rate);
    if !zd && a <= 0 && 0.0 < y <= 0.24 {
      FreeConvertsToZero(a, rate, currency);
      ConvertedNegativeIff(b, rate, currency);
    } else {
      if zd { Currency.ZeroDecimalMonotone(x, y); } else { Currency.TwoDecimalMonotoneIff(x, y); }
      MinorKeepsOrder(Currency.RoundFriendly(x, zd), Currency.RoundFriendly(y, zd), zd);
    }
  }

  // ------------------------------------------------------------------ what a run is to achieve

  /** A row the feed covers takes the wanted amount and a fresh heartbeat; its Stripe price id stays. */
  function Refreshed(prices: Prices, rates: Rates, row: Localized, now: int): Localized {
    var wanted := Wanted(prices, rates, row.owner, row.currency);
    if wanted.Some? then row.(amount := wanted.value, syncedAt := now) else row
  }

  predicate Moves(prices: Prices, rates: Rates, row: Localized) {
    Wanted(prices, rates, row.owner, row.currency).Some?
    && Wanted(prices, rates, row.owner, row.currency) != Some(row.amount)
  }

  /** The pairs (price, currency) that a run covers. */
  predicate Covered(prices: Prices, rates: Rates, owner: Owner, currency: string) {
    Wanted(prices, rates, owner, currency).Some?
  }

  ghost predicate HasRow(rows: map<nat, Localized>, owner: Owner, currency: string) {
    exists i :: i in rows && rows[i].owner == owner && rows[i].currency == currency
  }

  predicate IsNew(prices: Prices, rates: Rates, row: Localized, now: int) {
    Covered(prices, rates, row.owner, row.currency)
    && row == Localized(row.owner, row.currency, Wanted(prices, rates, row.owner, row.currency).value, None, now)
  }

  /** The localized rows after a run. */
  ghost predicate LocalizedSynced(prices: Prices, rates: Rates, was: map<nat, Localized>, rows: map<nat, Localized>,
                                  now: int) {
    && was.Keys <= rows.Keys
    && (forall i | i in was :: rows[i] == Refreshed(prices, rates, was[i], now))
    && (forall i | i in rows && i !in was :: IsNew(prices, rates, rows[i], now))
    && (forall o, c | Covered(prices, rates, o, c) :: HasRow(rows, o, c))
    && Unique(rows)
  }

  function MovedRows(prices: Prices, rates: Rates, was: map<nat, Localized>): set<nat> {
    set i | i in was && Moves(prices, rates, was[i])
  }

  /** The base that belongs to a sticker in a country. */
  function BaseFor(sticker: int, country: string): Option<int> { Vat.DeriveBase(sticker, Vat.StandardVatRate(country)) }

  /** The sticker the feed suggests for an uncurated row. */
  function Suggestion(prices: Prices, rates: Rates, row: Country): Option<int> {
    if row.isCurated || row.owner !in prices then None else Suggested(prices[row.owner], rates, row.currency)
  }

  /** The suggestion cannot be stored: no base belongs to a negative sticker. */
  predicate Breaks(prices: Prices, rates: Rates, row: Country) {
    Suggestion(prices, rates, row).Some? && Suggestion(prices, rates, row).value < 0
  }

  predicate CountryMoves(prices: Prices, rates: Rates, row: Country) {
    var s := Suggestion(prices, rates, row);
    s.Some? && (row.sticker != s.value || Some(row.base) != BaseFor(s.value, row.country))
  }

  function RefreshedCountry(prices: Prices, rates: Rates, row: Country, now: int): Country {
    var s := Suggestion(prices, rates, row);
    if CountryMoves(prices, rates, row) && BaseFor(s.value, row.country).Some?
    then row.(sticker := s.value, base := BaseFor(s.value, row.country).value, updatedAt := now) else row
  }

  function RefreshedCountries(prices: Prices, rates: Rates, rows: map<nat, Country>, now: int): map<nat, Country> {
    map i | i in rows :: RefreshedCountry(prices, rates, rows[i], now)
  }

  function MovedCountries(prices: Prices, rates: Rates, rows: map<nat, Country>): set<nat> {
    set i | i in rows && CountryMoves(prices, rates, rows[i])
  }

  lemma BaseExistsIff(sticker: int, country: string)
    ensures BaseFor(sticker, country).Some? <==> sticker >= 0
    ensures sticker >= 0 ==> 0 <= BaseFor(sticker, country).value <= sticker
  {
    Vat.TableRates(country);
    if sticker >= 0 { Vat.BaseInRange(sticker, Vat.StandardVatRate(country)); }
  }

  // ------------------------------------------------------------------ what follows from it

  /** After a run every localized row the feed covers carries the rounded conversion of its price, and
      every price has exactly one row per covered currency. */
  lemma CoveredRowsConverted(prices: Prices, rates: Rates, was: map<nat, Localized>, rows: map<nat, Localized>,
                             now: int, owner: Owner, currency: string)
    requires LocalizedSynced(prices, rates, was, rows, now)
    requires owner in prices && Converts(rates, currency)
    ensures exists i :: i in rows && rows[i].owner == owner && rows[i].currency == currency
    ensures forall i | i in rows && rows[i].owner == owner && rows[i].currency == currency ::
              rows[i].amount == Converted(prices[owner], rates[currency], currency) && rows[i].syncedAt == now
              && forall j | j in rows && rows[j].owner == owner && rows[j].currency == currency :: i == j
  {
    hide Converted;
    assert Covered(prices, rates, owner, currency);
    assert HasRow(rows, owner, currency);
    forall i | i in rows && rows[i].owner == owner && rows[i].currency == currency
      ensures rows[i].amount == Converted(prices[owner], rates[currency], currency) && rows[i].syncedAt == now
      ensures forall j | j in rows && rows[j].owner == owner && rows[j].currency == currency :: i == j
    {
      assert i in was ==> rows[i] == Refreshed(prices, rates, was[i], now);
      assert i !in was ==> IsNew(prices, rates, rows[i], now);
      forall j | j in rows && rows[j].owner == owner && rows[j].currency == currency ensures i == j {
        assert SamePair(rows[i], rows[j]);
      }
    }
  }

  /** So every row of a supported currency with a rate lies within half a rounding step of cents times rate. */
  lemma CoveredRowsClose(prices: Prices, rates: Rates, was: map<nat, Localized>, rows: map<nat, Localized>, now: int,
                         i: nat)
    requires LocalizedSynced(prices, rates, was, rows, now) && i in rows && rows[i].owner in prices
    requires rows[i].currency in Currency.SUPPORTED && rows[i].currency != "usd" && rows[i].currency in rates
    ensures WithinHalfStep(rows[i].amount, prices[rows[i].owner], rates[rows[i].currency], rows[i].currency)
  {
    hide LocalizedSynced, Converted, WithinHalfStep;
    var row := rows[i];
    CoveredRowsConverted(prices, rates, was, rows, now, row.owner, row.currency);
    ConversionClose(row.amount, prices[row.owner], rates[row.currency], row.currency);
  }

  /** Rows the feed does not cover stay as they are, and no run touches a Stripe price id. */
  lemma RestUntouched(prices: Prices, rates: Rates, was: map<nat, Localized>, rows: map<nat, Localized>, now: int)
    requires LocalizedSynced(prices, rates, was, rows, now)
    ensures forall i | i in was :: i in rows && rows[i].stripePriceId == was[i].stripePriceId
                                     && SamePair(rows[i], was[i])
    ensures forall i | i in was && !Covered(prices, rates, was[i].owner, was[i].currency) :: rows[i] == was[i]
    ensures forall i | i in rows && i !in was :: rows[i].stripePriceId == None
  {
    hide Wanted;
  }

  lemma SettledRow(prices: Prices, rates: Rates, was: map<nat, Localized>, rows: map<nat, Localized>, now: int, i: nat)
    requires LocalizedSynced(prices, rates, was, rows, now) && i in rows
    ensures !Moves(prices, rates, rows[i])
  {
    hide Wanted, HasRow, Unique;
    assert i in was ==> rows[i] == Refreshed(prices, rates, was[i], now);
    assert i !in was ==> IsNew(prices, rates, rows[i], now);
  }

  lemma NothingCreatedTwice(prices: Prices, rates: Rates, was: map<nat, Localized>, rows: map<nat, Localized>,
                            again: map<nat, Localized>, now: int, later: int, i: nat)
    requires LocalizedSynced(prices, rates, was, rows, now) && LocalizedSynced(prices, rates, rows, again, later)
    requires i in again
    ensures i in rows
  {
    hide Wanted;
    var owner, currency := again[i].owner, again[i].currency;
    if Covered(prices, rates, owner, currency) {
      assert HasRow(rows, owner, currency);
      var j :| j in rows && rows[j].owner == owner && rows[j].currency == currency;
      assert again[j] == Refreshed(prices, rates, rows[j], later);
      assert SamePair(again[i], again[j]);
    } else if i !in rows {
      assert false;
    }
  }

  lemma SettledStays(prices: Prices, rates: Rates, rows: map<nat, Localized>, again: map<nat, Localized>, later: int,
                     i: nat)
    requires LocalizedSynced(prices, rates, rows, again, later) && i in rows && !Moves(prices, rates, rows[i])
    ensures i in again && again[i].amount == rows[i].amount
  {
    hide Wanted, HasRow, Unique;
    assert again[i] == Refreshed(prices, rates, rows[i], later);
  }

  /** A second run with the same rates creates nothing and moves no amount. */
  lemma SecondRunMovesNothing(prices: Prices, rates: Rates, was: map<nat, Localized>, rows: map<nat, Localized>,
                              again: map<nat, Localized>, now: int, later: int)
    requires LocalizedSynced(prices, rates, was, rows, now) && LocalizedSynced(prices, rates, rows, again, later)
    ensures again.Keys == rows.Keys && MovedRows(prices, rates, rows) == {}
    ensures forall i | i in rows :: again[i].amount == rows[i].amount
  {
    assert rows.Keys <= again.Keys;
    hide LocalizedSynced, Moves;
    forall i | i in again ensures i in rows { NothingCreatedTwice(prices, rates, was, rows, again, now, later, i); }
    forall i | i in rows ensures again[i].amount == rows[i].amount && !Moves(prices, rates, rows[i]) {
      SettledRow(prices, rates, was, rows, now, i);
      SettledStays(prices, rates, rows, again, later, i);
    }
  }

  /** ... nor any country price. */
  lemma SecondRunMovesNoCountry(prices: Prices, rates: Rates, rows: map<nat, Country>, now: int, later: int)
    requires forall i | i in rows :: !Breaks(prices, rates, rows[i])
    ensures var once := RefreshedCountries(prices, rates, rows, now);
            MovedCountries(prices, rates, once) == {} && RefreshedCountries(prices, rates, once, later) == once
  {
    hide Suggested, BaseFor;
    var once := RefreshedCountries(prices, rates, rows, now);
    forall i | i in rows ensures !CountryMoves(prices, rates, once[i]) {
      SettlesAtOnce(prices, rates, rows[i], now);
    }
  }

  /** What the second run reports: nothing created, nothing moved. */
  lemma SecondRunReportsZero(prices: Prices, rates: Rates, was: map<nat, Localized>, rows: map<nat, Localized>,
                             again: map<nat, Localized>, countries: map<nat, Country>, now: int, later: int)
    requires LocalizedSynced(prices, rates, was, rows, now) && LocalizedSynced(prices, rates, rows, again, later)
    requires forall i | i in countries :: !Breaks(prices, rates, countries[i])
    ensures |again.Keys - rows.Keys| + |MovedRows(prices, rates, rows)|
            + |MovedCountries(prices, rates, RefreshedCountries(prices, rates, countries, now))| == 0
  {
    hide LocalizedSynced, MovedRows, MovedCountries, RefreshedCountries, Breaks;
    SecondRunMovesNothing(prices, rates, was, rows, again, now, later);
    SecondRunMovesNoCountry(prices, rates, countries, now, later);
    assert again.Keys - rows.Keys == {};
  }

  lemma SettlesAtOnce(prices: Prices, rates: Rates, row: Country, now: int)
    requires !Breaks(prices, rates, row)
    ensures !CountryMoves(prices, rates, RefreshedCountry(prices, rates, row, now))
  {
    hide Suggested, BaseFor;
    var s := Suggestion(prices, rates, row);
    if s.Some? { BaseExistsIff(s.value, row.country); }
  }

  /** A curated row is never moved; an uncurated one the feed has a rate for shows the suggestion and the
      base derived from it, between zero and the sticker. */
  lemma CountryRowSettled(prices: Prices, rates: Rates, row: Country, now: int)
    requires !Breaks(prices, rates, row)
    ensures var after := RefreshedCountry(prices, rates, row, now);
            && after.stripePriceId == row.stripePriceId && after.owner == row.owner && after.country == row.country
            && after.currency == row.currency && after.isCurated == row.isCurated
            && (row.isCurated ==> after == row)
            && (Suggestion(prices, rates, row).Some? ==>
                  && after.sticker == Suggestion(prices, rates, row).value
                  && BaseFor(after.sticker, row.country) == Some(after.base)
                  && 0 <= after.base <= after.sticker)
  {
    hide Suggested, BaseFor;
    var s := Suggestion(prices, rates, row);
    if s.Some? { BaseExistsIff(s.value, row.country); }
  }

  /** And that base is the one whose price with the country's tax, in whole minor units, is nearest to the sticker. */
  lemma CountryBaseMeans(prices: Prices, rates: Rates, row: Country, now: int)
    requires !Breaks(prices, rates, row) && Suggestion(prices, rates, row).Some?
    ensures var after := RefreshedCountry(prices, rates, row, now);
            Vat.Rounds(after.sticker, 1.0 + Vat.StandardVatRate(row.country), after.base)
  {
    var after := RefreshedCountry(prices, rates, row, now);
    CountryRowSettled(prices, rates, row, now);
    hide RefreshedCountry, Suggestion, Breaks, BaseFor, Vat.Rounds, Vat.StandardVatRate;
    StoredBaseMeans(after.sticker, after.base, row.country);
  }

  lemma StoredBaseMeans(sticker: int, base: int, country: string)
    requires sticker >= 0 && BaseFor(sticker, country) == Some(base)
    ensures Vat.Rounds(sticker, 1.0 + Vat.StandardVatRate(country), base)
  {
    Vat.TableRates(country);
    hide Vat.Rounds, Vat.StandardVatRate, Vat.DeriveBase;
    Vat.BaseIff(sticker, Vat.StandardVatRate(country), base);
  }

  /** Exactly when a row makes the whole run fail: an uncurated dollar row of a negative price, or an
      uncurated two-decimal row whose conversion is positive but at most 0.24. */
  lemma BreaksIff(prices: Prices, rates: Rates, row: Country)
    requires row.owner in prices
    ensures Breaks(prices, rates, row) <==>
              !row.isCurated
              && if row.currency == "usd" then prices[row.owner] < 0
                 else row.currency in rates && !ZeroDecimal(row.currency)
                      && 0.0 < Display(prices[row.owner], rates[row.currency]) <= 0.24
  {
    hide Converted, ZeroDecimal, Display;
    if row.currency in rates { ConvertedNegativeIff(prices[row.owner], rates[row.currency], row.currency); }
  }

  // ------------------------------------------------------------------ halfway through a run

  /** Old rows are refreshed once their pair is done. */
  predicate OldRows(prices: Prices, rates: Rates, was: map<nat, Localized>, done: set<(Owner, string)>,
                    rows: map<nat, Localized>, now: int) {
    && was.Keys <= rows.Keys
    && forall i | i in was ::
         rows[i] == if (was[i].owner, was[i].currency) in done then Refreshed(prices, rates, was[i], now) else was[i]
  }

  predicate NewRows(prices: Prices, rates: Rates, was: map<nat, Localized>, done: set<(Owner, string)>,
                    rows: map<nat, Localized>, now: int) {
    forall i | i in rows && i !in was :: IsNew(prices, rates, rows[i], now) && (rows[i].owner, rows[i].currency) in done
  }

  ghost predicate AllHaveRow(done: set<(Owner, string)>, rows: map<nat, Localized>) {
    forall p | p in done :: HasRow(rows, p.0, p.1)
  }

  /** The rows when the pairs in `done` have been upserted. */
  ghost predicate Progress(prices: Prices, rates: Rates, was: map<nat, Localized>, done: set<(Owner, string)>,
                           rows: map<nat, Localized>, next: nat, now: int) {
    && OldRows(prices, rates, was, done, rows, now)
    && NewRows(prices, rates, was, done, rows, now)
    && AllHaveRow(done, rows)
    && Unique(rows) && Below(rows, next)
  }

  function MovedAmong(prices: Prices, rates: Rates, was: map<nat, Localized>, done: set<(Owner, string)>): set<nat> {
    set i | i in was && (was[i].owner, was[i].currency) in done && Moves(prices, rates, was[i])
  }

  /** Rows created so far and rows moved so far. */
  function Changed(prices: Prices, rates: Rates, was: map<nat, Localized>, done: set<(Owner, string)>,
                   rows: map<nat, Localized>): nat {
    |rows.Keys - was.Keys| + |MovedAmong(prices, rates, was, done)|
  }

  lemma RowsKeepPairs(done: set<(Owner, string)>, rows: map<nat, Localized>, i: nat, row: Localized)
    requires AllHaveRow(done, rows) && (i in rows ==> SamePair(row, rows[i]))
    ensures AllHaveRow(done + {(row.owner, row.currency)}, rows[i := row])
  {
    var after := rows[i := row];
    forall p | p in done + {(row.owner, row.currency)} ensures HasRow(after, p.0, p.1) {
      if p in done && p != (row.owner, row.currency) {
        assert HasRow(rows, p.0, p.1);
        var j :| j in rows && rows[j].owner == p.0 && rows[j].currency == p.1;
        assert j in after && after[j].owner == p.0 && after[j].currency == p.1;
      } else {
        assert i in after && after[i].owner == p.0 && after[i].currency == p.1;
      }
    }
  }

  lemma UpdateOldRows(prices: Prices, rates: Rates, was: map<nat, Localized>, done: set<(Owner, string)>,
                      rows: map<nat, Localized>, now: int, i: nat)
    requires OldRows(prices, rates, was, done, rows, now) && Unique(was)
    requires i in was && (was[i].owner, was[i].currency) !in done
    ensures OldRows(prices, rates, was, done + {(was[i].owner, was[i].currency)},
                    rows[i := Refreshed(prices, rates, was[i], now)], now)
  {
    hide Refreshed;
    forall j | j in was && j != i ensures (was[j].owner, was[j].currency) != (was[i].owner, was[i].currency) {
      assert !SamePair(was[i], was[j]);
    }
  }

  lemma UpdateProgress(prices: Prices, rates: Rates, was: map<nat, Localized>, done: set<(Owner, string)>,
                       rows: map<nat, Localized>, next: nat, now: int, i: nat)
    requires Progress(prices, rates, was, done, rows, next, now) && Unique(was)
    requires i in was && (was[i].owner, was[i].currency) !in done
    ensures var more := done + {(was[i].owner, was[i].currency)};
            Progress(prices, rates, was, more, rows[i := Refreshed(prices, rates, was[i], now)], next, now)
  {
    var row := Refreshed(prices, rates, was[i], now);
    assert SamePair(row, rows[i]) && (row.owner, row.currency) == (was[i].owner, was[i].currency);
    UpdateOldRows(prices, rates, was, done, rows, now, i);
    hide Wanted, Refreshed, OldRows, IsNew, HasRow, AllHaveRow, Unique;
    RowsKeepPairs(done, rows, i, row);
    UniqueAfterUpdate(rows, i, row);
    InOld(prices, rates, was, done, rows, now, i);
  }

  lemma InOld(prices: Prices, rates: Rates, was: map<nat, Localized>, done: set<(Owner, string)>,
              rows: map<nat, Localized>, now: int, i: nat)
    requires OldRows(prices, rates, was, done, rows, now) && i in was
    ensures i in rows && SamePair(rows[i], was[i])
  {
  }

  lemma UniqueAfterUpdate(rows: map<nat, Localized>, i: nat, row: Localized)
    requires Unique(rows) && i in rows && SamePair(row, rows[i])
    ensures Unique(rows[i := row])
  {
    var after := rows[i := row];
    forall j, k | j in after && k in after && j != k ensures !SamePair(after[j], after[k]) {
      assert !SamePair(rows[j], rows[k]);
    }
  }

  lemma MovedGrows(prices: Prices, rates: Rates, was: map<nat, Localized>, done: set<(Owner, string)>, i: nat)
    requires Unique(was) && i in was && (was[i].owner, was[i].currency) !in done
    ensures var before, p := MovedAmong(prices, rates, was, done), (was[i].owner, was[i].currency);
            i !in before
            && MovedAmong(prices, rates, was, done + {p}) == before + if Moves(prices, rates, was[i]) then {i} else {}
  {
    hide Moves;
    forall j | j in was && (was[j].owner, was[j].currency) == (was[i].owner, was[i].currency) ensures j == i {
      assert SamePair(was[i], was[j]);
    }
  }

  lemma UpdateCount(prices: Prices, rates: Rates, was: map<nat, Localized>, done: set<(Owner, string)>, i: nat,
                    rows: map<nat, Localized>, row: Localized)
    requires Unique(was) && i in was && i in rows && (was[i].owner, was[i].currency) !in done
    ensures Changed(prices, rates, was, done + {(was[i].owner, was[i].currency)}, rows[i := row])
         == Changed(prices, rates, was, done, rows) + if Moves(prices, rates, was[i]) then 1 else 0
  {
    MovedGrows(prices, rates, was, done, i);
    hide Moves, MovedAmong, Unique;
    assert rows[i := row].Keys == rows.Keys;
  }

  lemma CreateOldRows(prices: Prices, rates: Rates, was: map<nat, Localized>, done: set<(Owner, string)>,
                      rows: map<nat, Localized>, now: int, next: nat, row: Localized)
    requires OldRows(prices, rates, was, done, rows, now) && next !in was
    requires !HasRow(was, row.owner, row.currency)
    ensures OldRows(prices, rates, was, done + {(row.owner, row.currency)}, rows[next := row], now)
  {
    hide Refreshed;
    forall j | j in was ensures (was[j].owner, was[j].currency) != (row.owner, row.currency) {
    }
  }

  /** A row for a pair that no old row has and that is not done clashes with no row. */
  lemma CreateUnique(prices: Prices, rates: Rates, was: map<nat, Localized>, done: set<(Owner, string)>,
                     rows: map<nat, Localized>, now: int, next: nat, row: Localized)
    requires OldRows(prices, rates, was, done, rows, now) && NewRows(prices, rates, was, done, rows, now)
             && Unique(rows)
    requires (row.owner, row.currency) !in done && !HasRow(was, row.owner, row.currency) && next !in rows
    ensures Unique(rows[next := row])
  {
    hide Wanted, IsNew;
    forall j | j in rows ensures !SamePair(rows[j], row) && !SamePair(row, rows[j]) {
      if j in was { InOld(prices, rates, was, done, rows, now, j); }
    }
    var after := rows[next := row];
    forall j, k | j in after && k in after && j != k ensures !SamePair(after[j], after[k]) {
      if j != next && k != next { assert !SamePair(rows[j], rows[k]); }
    }
  }

  lemma CreateProgress(prices: Prices, rates: Rates, was: map<nat, Localized>, done: set<(Owner, string)>,
                       rows: map<nat, Localized>, next: nat, now: int, row: Localized)
    requires Progress(prices, rates, was, done, rows, next, now)
    requires IsNew(prices, rates, row, now) && (row.owner, row.currency) !in done
             && !HasRow(was, row.owner, row.currency)
    ensures Progress(prices, rates, was, done + {(row.owner, row.currency)}, rows[next := row], next + 1, now)
    ensures next !in rows && was.Keys <= rows.Keys
  {
    assert next !in rows && next !in was;
    hide IsNew, HasRow, AllHaveRow, Unique, Refreshed;
    CreateOldRows(prices, rates, was, done, rows, now, next, row);
    CreateUnique(prices, rates, was, done, rows, now, next, row);
    RowsKeepPairs(done, rows, next, row);
  }

  lemma CreateMoved(prices: Prices, rates: Rates, was: map<nat, Localized>, done: set<(Owner, string)>, owner: Owner,
                    currency: string)
    requires !HasRow(was, owner, currency)
    ensures MovedAmong(prices, rates, was, done + {(owner, currency)}) == MovedAmong(prices, rates, was, done)
  {
    hide Moves;
    forall i | i in was ensures (was[i].owner, was[i].currency) != (owner, currency) {
    }
  }

  lemma CreateCount(prices: Prices, rates: Rates, was: map<nat, Localized>, done: set<(Owner, string)>,
                    rows: map<nat, Localized>, next: nat, row: Localized)
    requires was.Keys <= rows.Keys && next !in rows && !HasRow(was, row.owner, row.currency)
    ensures Changed(prices, rates, was, done + {(row.owner, row.currency)}, rows[next := row])
         == Changed(prices, rates, was, done, rows) + 1
  {
    hide MovedAmong, HasRow;
    assert rows[next := row].Keys - was.Keys == (rows.Keys - was.Keys) + {next};
    CreateMoved(prices, rates, was, done, row.owner, row.currency);
  }

  /** With every covered pair done, every old row is refreshed, for a row of another pair asks for nothing. */
  lemma OldRowsEnd(prices: Prices, rates: Rates, was: map<nat, Localized>, done: set<(Owner, string)>,
                   rows: map<nat, Localized>, now: int)
    requires OldRows(prices, rates, was, done, rows, now)
    requires forall o, c :: (o, c) in done <==> Covered(prices, rates, o, c)
    ensures was.Keys <= rows.Keys && forall i | i in was :: rows[i] == Refreshed(prices, rates, was[i], now)
  {
    hide Wanted;
  }

  lemma MovedEnd(prices: Prices, rates: Rates, was: map<nat, Localized>, done: set<(Owner, string)>)
    requires forall o, c :: (o, c) in done <==> Covered(prices, rates, o, c)
    ensures MovedAmong(prices, rates, was, done) == MovedRows(prices, rates, was)
  {
    hide Wanted;
  }

  lemma ProgressEnds(prices: Prices, rates: Rates, was: map<nat, Localized>, done: set<(Owner, string)>,
                     rows: map<nat, Localized>, next: nat, now: int)
    requires Progress(prices, rates, was, done, rows, next, now)
    requires forall o, c :: (o, c) in done <==> Covered(prices, rates, o, c)
    ensures LocalizedSynced(prices, rates, was, rows, now) && Unique(rows) && Below(rows, next)
    ensures Changed(prices, rates, was, done, rows) == |rows.Keys - was.Keys| + |MovedRows(prices, rates, was)|
  {
    OldRowsEnd(prices, rates, was, done, rows, now);
    MovedEnd(prices, rates, was, done);
    hide Covered, Refreshed, IsNew, HasRow, Unique, Below, OldRows, MovedAmong, MovedRows;
    forall o, c | Covered(prices, rates, o, c) ensures HasRow(rows, o, c) {
      assert (o, c) in done;
    }
  }

  // ------------------------------------------------------------------ the task

  /** The pairs that `owners` account for. */
  function Pairs(owners: set<Owner>, rates: Rates): set<(Owner, string)> {
    set o, c | o in owners && c in Currency.SUPPORTED && Converts(rates, c) :: (o, c)
  }

  lemma InPairs(owners: set<Owner>, rates: Rates)
    ensures forall o, c :: (o, c) in Pairs(owners, rates) <==> o in owners && Converts(rates, c)
  {
  }

  /** `existing` finds the rows of `owner` by currency. */
  ghost predicate Finds(rows: map<nat, Localized>, owner: Owner, existing: map<string, nat>) {
    && (forall c | c in existing ::
          existing[c] in rows && rows[existing[c]].owner == owner && rows[existing[c]].currency == c)
    && (forall i | i in rows && rows[i].owner == owner :: rows[i].currency in existing)
  }

  /** The buckets sort the rows of one kind of owner, as far as seen. */
  ghost predicate Sorts(rows: map<nat, Localized>, plans: bool, seen: set<nat>, buckets: map<Owner, map<string, nat>>) {
    && (forall o, c | o in buckets && c in buckets[o] ::
          buckets[o][c] in rows && rows[buckets[o][c]].owner == o && rows[buckets[o][c]].currency == c)
    && (forall i | i in seen && i in rows && rows[i].owner.PlanPrice? == plans ::
          rows[i].owner in buckets && rows[i].currency in buckets[rows[i].owner])
  }

  /** `_compute_new_amounts`. */
  method ComputeNewAmounts(amount: int, rates: Rates) returns (amounts: map<string, int>)
    ensures forall c :: c in amounts <==> Converts(rates, c)
    ensures forall c | c in amounts :: Converts(rates, c) && amounts[c] == Converted(amount, rates[c], c)
  {
    hide Currency.RoundFriendly, Currency.ToMinorUnits, ZeroDecimal;
    amounts := map[];
    var left := Currency.SUPPORTED;
    while left != {}
      invariant left <= Currency.SUPPORTED
      invariant forall c :: c in amounts <==> Converts(rates, c) && c !in left
      invariant forall c | c in amounts :: amounts[c] == Converted(amount, rates[c], c)
      decreases left
    {
      var currency :| currency in left;
      left := left - {currency};
      if currency != "usd" && currency in rates {
        var display := Currency.RoundFriendly(Display(amount, rates[currency]), ZeroDecimal(currency));
        amounts := amounts[currency := Currency.ToMinorUnits(display, ZeroDecimal(currency))];
      }
    }
  }

  /** `_upsert_for_price`: rows are found in the bucket of the price; a missing one is created, a moved one
      updated, an unmoved one gets its heartbeat. */
  method UpsertForPrice(prices: Prices, rates: Rates, now: int, owner: Owner, existing: map<string, nat>,
                        rows0: map<nat, Localized>, next0: nat, ghost was: map<nat, Localized>,
                        ghost owners: set<Owner>)
    returns (rows: map<nat, Localized>, next: nat, changed: nat)
    requires owner in prices && owner !in owners
    requires Unique(was) && Finds(was, owner, existing)
    requires Progress(prices, rates, was, Pairs(owners, rates), rows0, next0, now)
    ensures Progress(prices, rates, was, Pairs(owners + {owner}, rates), rows, next, now)
    ensures changed + Changed(prices, rates, was, Pairs(owners, rates), rows0)
         == Changed(prices, rates, was, Pairs(owners + {owner}, rates), rows)
  {
    hide Converted, Converts, Progress, Changed, Unique, Pairs;
    InPairs(owners, rates);
    InPairs(owners + {owner}, rates);
    var amounts := ComputeNewAmounts(prices[owner], rates);
    ghost var done0 := Pairs(owners, rates);
    ghost var done := done0;
    rows, next, changed := rows0, next0, 0;
    var left := amounts.Keys;
    while left != {}
      invariant left <= amounts.Keys
      invariant Progress(prices, rates, was, done, rows, next, now)
      invariant forall o, c :: (o, c) in done <==> (o, c) in done0 || (o == owner && c in amounts && c !in left)
      invariant changed + Changed(prices, rates, was, done0, rows0) == Changed(prices, rates, was, done, rows)
      decreases left
    {
      var currency :| currency in left;
      left := left - {currency};
      var amount := amounts[currency];
      assert Wanted(prices, rates, owner, currency) == Some(amount);
      if currency in existing {
        var id := existing[currency];
        OldRowNow(prices, rates, was, done, rows, next, now, id);
        UpdateProgress(prices, rates, was, done, rows, next, now, id);
        UpdateCount(prices, rates, was, done, id, rows, Refreshed(prices, rates, was[id], now));
        if rows[id].amount != amount {
          rows := rows[id := rows[id].(amount := amount, syncedAt := now)];
          changed := changed + 1;
        } else {
          rows := rows[id := rows[id].(syncedAt := now)];
        }
      } else {
        var row := Localized(owner, currency, amount, None, now);
        assert !HasRow(was, owner, currency);
        CreateProgress(prices, rates, was, done, rows, next, now, row);
        CreateCount(prices, rates, was, done, rows, next, row);
        rows, next, changed := rows[next := row], next + 1, changed + 1;
      }
      done := done + {(owner, currency)};
    }
    forall p ensures p in done <==> p in Pairs(owners + {owner}, rates) {
      assert p == (p.0, p.1);
    }
    assert done == Pairs(owners + {owner}, rates);
  }

  lemma OldRowNow(prices: Prices, rates: Rates, was: map<nat, Localized>, done: set<(Owner, string)>,
                  rows: map<nat, Localized>, next: nat, now: int, i: nat)
    requires Progress(prices, rates, was, done, rows, next, now)
    requires i in was && (was[i].owner, was[i].currency) !in done
    ensures i in rows && rows[i] == was[i]
  {
    hide Wanted;
  }

  /** The country rows outside `left` have been refreshed, and none of them broke the run. */
  predicate Halfway(prices: Prices, rates: Rates, was: map<nat, Country>, left: set<nat>, rows: map<nat, Country>,
                    now: int) {
    && rows.Keys == was.Keys
    && (forall i | i in was :: rows[i] == if i in left then was[i] else RefreshedCountry(prices, rates, was[i], now))
    && (forall i | i in was && i !in left :: !Breaks(prices, rates, was[i]))
  }

  function MovedOutside(prices: Prices, rates: Rates, was: map<nat, Country>, left: set<nat>): set<nat> {
    set i | i in was && i !in left && CountryMoves(prices, rates, was[i])
  }

  lemma HalfwayStep(prices: Prices, rates: Rates, was: map<nat, Country>, left: set<nat>, rows: map<nat, Country>,
                    now: int, id: nat)
    requires Halfway(prices, rates, was, left, rows, now) && id in left && id in was && !Breaks(prices, rates, was[id])
    ensures Halfway(prices, rates, was, left - {id}, rows[id := RefreshedCountry(prices, rates, was[id], now)], now)
  {
    hide Breaks, CountryMoves, RefreshedCountry;
  }

  lemma HalfwayCount(prices: Prices, rates: Rates, was: map<nat, Country>, left: set<nat>, id: nat)
    requires id in left && id in was
    ensures |MovedOutside(prices, rates, was, left - {id})|
         == |MovedOutside(prices, rates, was, left)| + if CountryMoves(prices, rates, was[id]) then 1 else 0
  {
    hide CountryMoves;
    var before, after := MovedOutside(prices, rates, was, left), MovedOutside(prices, rates, was, left - {id});
    if CountryMoves(prices, rates, was[id]) { assert after == before + {id}; } else { assert after == before; }
  }

  lemma HalfwayStarts(prices: Prices, rates: Rates, was: map<nat, Country>, left: set<nat>, now: int)
    requires left == set i | i in was && !was[i].isCurated
    ensures Halfway(prices, rates, was, left, was, now) && MovedOutside(prices, rates, was, left) == {}
  {
    hide Breaks, CountryMoves, RefreshedCountry;
    forall i | i in was && i !in left { CuratedStays(prices, rates, was[i], now); }
  }

  lemma HalfwayEnds(prices: Prices, rates: Rates, was: map<nat, Country>, rows: map<nat, Country>, now: int)
    requires Halfway(prices, rates, was, {}, rows, now)
    ensures rows == RefreshedCountries(prices, rates, was, now) && forall i | i in was :: !Breaks(prices, rates, was[i])
    ensures MovedOutside(prices, rates, was, {}) == MovedCountries(prices, rates, was)
  {
    hide Breaks, CountryMoves, RefreshedCountry;
  }

  function OfKind(prices: Prices, plans: bool): set<Owner> { set o | o in prices && o.PlanPrice? == plans }

  class PriceTables {
    var prices: Prices
    var localized: map<nat, Localized>
    var countries: map<nat, Country>
    var next: nat

    predicate Valid()
      reads this
    {
      Unique(localized) && Below(localized, next) && OwnersKnown(countries, prices)
    }

    /** The buckets of the rows owned by plan prices, or by product prices. */
    method BucketRows(plans: bool) returns (buckets: map<Owner, map<string, nat>>)
      ensures Sorts(localized, plans, localized.Keys, buckets)
    {
      buckets := map[];
      var left := localized.Keys;
      while left != {}
        invariant left <= localized.Keys
        invariant Sorts(localized, plans, localized.Keys - left, buckets)
        decreases left
      {
        var id :| id in left;
        left := left - {id};
        var row := localized[id];
        if row.owner.PlanPrice? == plans {
          var bucket := if row.owner in buckets then buckets[row.owner] else map[];
          buckets := buckets[row.owner := bucket[row.currency := id]];
        }
      }
    }

    /** The prices of one kind, each with its bucket. */
    method UpsertSource(plans: bool, buckets: map<Owner, map<string, nat>>, rates: Rates, now: int,
                        rows0: map<nat, Localized>, next0: nat, ghost owners0: set<Owner>)
      returns (rows: map<nat, Localized>, newNext: nat, changed: nat)
      requires Unique(localized) && Sorts(localized, plans, localized.Keys, buckets)
      requires forall o | o in owners0 :: o.PlanPrice? != plans
      requires Progress(prices, rates, localized, Pairs(owners0, rates), rows0, next0, now)
      ensures Progress(prices, rates, localized, Pairs(owners0 + OfKind(prices, plans), rates), rows, newNext, now)
      ensures changed + Changed(prices, rates, localized, Pairs(owners0, rates), rows0)
           == Changed(prices, rates, localized, Pairs(owners0 + OfKind(prices, plans), rates), rows)
    {
      hide Progress, Changed, Unique, Pairs;
      rows, newNext, changed := rows0, next0, 0;
      ghost var owners := owners0;
      var all := OfKind(prices, plans);
      var left := all;
      while left != {}
        invariant left <= all && owners == owners0 + (all - left)
        invariant Progress(prices, rates, localized, Pairs(owners, rates), rows, newNext, now)
        invariant changed + Changed(prices, rates, localized, Pairs(owners0, rates), rows0)
               == Changed(prices, rates, localized, Pairs(owners, rates), rows)
        decreases left
      {
        var owner :| owner in left;
        left := left - {owner};
        var existing := if owner in buckets then buckets[owner] else map[];
        var n;
        rows, newNext, n := UpsertForPrice(prices, rates, now, owner, existing, rows, newNext, localized, owners);
        owners := owners + {owner};
        changed := changed + n;
      }
      assert owners == owners0 + all;
    }

    /** One uncurated row of the country loop; None when the suggestion has no base. */
    method RefreshCountry(row: Country, rates: Rates, now: int) returns (refreshed: Option<Country>, moved: bool)
      requires row.owner in prices && !row.isCurated
      ensures refreshed == None <==> Breaks(prices, rates, row)
      ensures refreshed.Some? ==> refreshed.value == RefreshedCountry(prices, rates, row, now)
                                  && moved == CountryMoves(prices, rates, row)
    {
      hide Suggested, BaseFor;
      var suggested := Suggested(prices[row.owner], rates, row.currency);
      if suggested == None {
        return Some(row), false;
      }
      BaseExistsIff(suggested.value, row.country);
      var base := BaseFor(suggested.value, row.country);
      if base == None {
        return None, false;
      }
      moved := row.sticker != suggested.value || row.base != base.value;
      refreshed := Some(if moved then row.(sticker := suggested.value, base := base.value, updatedAt := now) else row);
    }

    /** The country loop. Nothing is stored when a suggestion has no base. */
    method RefreshCountries(rates: Rates, now: int) returns (updated: Option<map<nat, Country>>, changed: nat)
      requires OwnersKnown(countries, prices)
      ensures updated == None <==> exists i :: i in countries && Breaks(prices, rates, countries[i])
      ensures updated.Some? ==> updated.value == RefreshedCountries(prices, rates, countries, now)
                                && changed == |MovedCountries(prices, rates, countries)|
    {
      hide Breaks, CountryMoves, RefreshedCountry, MovedOutside, MovedCountries, RefreshedCountries;
      var rows := countries;
      changed := 0;
      var left := set i | i in countries && !countries[i].isCurated;
      HalfwayStarts(prices, rates, countries, left, now);
      while left != {}
        invariant forall i | i in left :: i in countries && !countries[i].isCurated
        invariant Halfway(prices, rates, countries, left, rows, now)
        invariant changed == |MovedOutside(prices, rates, countries, left)|
        decreases left
      {
        var id :| id in left;
        var refreshed, moves := RefreshCountry(rows[id], rates, now);
        if refreshed == None {
          return None, 0;
        }
        HalfwayStep(prices, rates, countries, left, rows, now, id);
        HalfwayCount(prices, rates, countries, left, id);
        rows := rows[id := refreshed.value];
        changed := changed + if moves then 1 else 0;
        left := left - {id};
      }
      HalfwayEnds(prices, rates, countries, rows, now);
      updated := Some(rows);
    }

    /** `sync_localized_prices`. Without rates it reports 0; a suggestion without a base fails the run, and
        the transaction leaves every table as it was; otherwise all rows are in step with the rates and the
        result counts the rows created or moved. */
    method SyncLocalizedPrices(feed: Feed, now: int) returns (result: Option<nat>)
      requires Valid()
      modifies this`localized, this`countries, this`next
      ensures Valid()
      ensures result == None <==>
                feed.Available? && exists i :: i in old(countries) && Breaks(prices, feed.rates, old(countries)[i])
      ensures feed.Unavailable? ==> result == Some(0)
      ensures feed.Unavailable? || result == None ==> localized == old(localized) && countries == old(countries)
      ensures feed.Available? && result.Some? ==>
                && LocalizedSynced(prices, feed.rates, old(localized), localized, now)
                && countries == RefreshedCountries(prices, feed.rates, old(countries), now)
                && result.value == |localized.Keys - old(localized).Keys|
                                   + |MovedRows(prices, feed.rates, old(localized))|
                                   + |MovedCountries(prices, feed.rates, old(countries))|
    {
      hide Unique, Progress, Sorts, LocalizedSynced, Covered, Pairs, MovedRows, MovedCountries, RefreshedCountries,
           Changed, Below, OwnersKnown;
      if feed.Unavailable? {
        return Some(0);
      }
      var rates := feed.rates;
      ProgressStarts(prices, rates, localized, next, now);
      var plans := BucketRows(true);
      var products := BucketRows(false);
      var rows, newNext, changed, n;
      rows, newNext, changed := UpsertSource(true, plans, rates, now, localized, next, {});
      ghost var planPrices := OfKind(prices, true);
      assert {} + planPrices == planPrices;
      rows, newNext, n := UpsertSource(false, products, rates, now, rows, newNext, planPrices);
      changed := changed + n;
      ghost var done := Pairs(planPrices + OfKind(prices, false), rates);
      AllDone(prices, rates);
      ProgressEnds(prices, rates, localized, done, rows, newNext, now);
      ChangedAtFirst(prices, rates, localized);
      OwnersStayKnown(prices, rates, countries, now);
      var updated, m := RefreshCountries(rates, now);
      if updated == None {
        return None;
      }
      localized, next, countries := rows, newNext, updated.value;
      result := Some(changed + m);
    }
  }

  lemma CuratedStays(prices: Prices, rates: Rates, row: Country, now: int)
    requires row.isCurated
    ensures RefreshedCountry(prices, rates, row, now) == row && !Breaks(prices, rates, row)
            && !CountryMoves(prices, rates, row)
  {
  }

  lemma OwnersStayKnown(prices: Prices, rates: Rates, countries: map<nat, Country>, now: int)
    requires OwnersKnown(countries, prices)
    ensures OwnersKnown(RefreshedCountries(prices, rates, countries, now), prices)
  {
    hide Suggestion, CountryMoves, BaseFor;
  }

  lemma ProgressStarts(prices: Prices, rates: Rates, was: map<nat, Localized>, next: nat, now: int)
    requires Unique(was) && Below(was, next)
    ensures Progress(prices, rates, was, Pairs({}, rates), was, next, now)
  {
    hide Wanted;
    InPairs({}, rates);
  }

  lemma AllDone(prices: Prices, rates: Rates)
    ensures var done := Pairs(OfKind(prices, true) + OfKind(prices, false), rates);
            forall o, c :: (o, c) in done <==> Covered(prices, rates, o, c)
  {
    hide Converted;
    InPairs(OfKind(prices, true) + OfKind(prices, false), rates);
  }

  lemma ChangedAtFirst(prices: Prices, rates: Rates, was: map<nat, Localized>)
    ensures Changed(prices, rates, was, Pairs({}, rates), was) == 0
  {
    InPairs({}, rates);
    assert was.Keys - was.Keys == {} && MovedAmong(prices, rates, was, Pairs({}, rates)) == {};
  }
}
