/** Friendly price rounding over exact reals: `round_friendly`, `format_amount` and `_to_minor_units`. */
module Currency {

  /** ZERO_DECIMAL_CURRENCIES. */
  const ZERO_DECIMAL: set<string> := {"jpy", "krw", "idr", "twd"}

  /** SUPPORTED_CURRENCIES. */
  const SUPPORTED: set<string> := {
    "usd", "eur", "gbp", "jpy", "brl", "krw", "sek", "nok", "dkk", "pln",
    "try", "idr", "rub", "cny", "twd", "sar", "aed", "chf", "cad", "aud"}

  function Abs(x: real): real { if x < 0.0 then -x else x }

  /** `Decimal.quantize(..., ROUND_HALF_UP)`: halves go away from zero. */
  function HalfUp(x: real): int {
    if x >= 0.0 then (x + 0.5).Floor else -((-x + 0.5).Floor)
  }

  /** Python's `round`: halves go to the even neighbour. */
  function HalfEven(x: real): int {
    var down := x.Floor;
    var rest := x - down as real;
    if rest < 0.5 || (rest == 0.5 && down % 2 == 0) then down else down + 1
  }

  /** `min(options, key=...)`: the first option at the least distance. */
  function Nearest(options: seq<real>, amount: real): (best: real)
    requires options != []
    ensures best in options && forall o | o in options :: Abs(best - amount) <= Abs(o - amount)
  {
    if |options| == 1 then options[0]
    else
      var best := Nearest(options[..|options| - 1], amount);
      var last := options[|options| - 1];
      assert forall o | o in options :: o in options[..|options| - 1] || o == last;
      if Abs(last - amount) < Abs(best - amount) then last else best
  }

  function RoundTwoDecimal(amount: real): real
    requires amount > 0.0
  {
    var whole := amount.Floor as real;
    Nearest([whole - 0.01, whole + 0.49, whole + 0.99, whole + 1.49], amount)
  }

  function Step(amount: real): int { if amount >= 1000.0 then 100 else 10 }

  function RoundZeroDecimal(amount: real): real
    requires amount > 0.0
  {
    (HalfEven(amount / Step(amount) as real) * Step(amount)) as real
  }

  /** `round_friendly`. */
  function RoundFriendly(amount: real, zeroDecimal: bool): real {
    if amount <= 0.0 then 0.0
    else if zeroDecimal then RoundZeroDecimal(amount)
    else RoundTwoDecimal(amount)
  }

  /** `format_amount`. */
  function FormatAmount(amount: int, zeroDecimal: bool): real {
    if zeroDecimal then amount as real else amount as real / 100.0
  }

  /** `_to_minor_units`. */
  function ToMinorUnits(display: real, zeroDecimal: bool): int {
    HalfUp(if zeroDecimal then display else display * 100.0)
  }

  // ------------------------------------------------------------------ two-decimal currencies

  /** The charm prices: ..., -0.01, 0.49, 0.99, 1.49, ... */
  function Anchor(m: int): real { m as real / 2.0 - 0.01 }

  /** The result is an anchor no other anchor beats, within a quarter of a unit; a tie goes down. */
  ghost predicate IsNearestAnchor(amount: real, m: int) {
    && amount - 0.25 <= Anchor(m) < amount + 0.25
    && forall n: int :: Abs(Anchor(m) - amount) <= Abs(Anchor(n) - amount)
  }

  lemma NearestOfFour(a: real, b: real, c: real, d: real, amount: real)
    ensures var best := Nearest([a, b, c, d], amount);
            best == (if Abs(b - amount) < Abs(a - amount)
                     then if Abs(c - amount) < Abs(b - amount)
                          then if Abs(d - amount) < Abs(c - amount) then d else c
                          else if Abs(d - amount) < Abs(b - amount) then d else b
                     else if Abs(c - amount) < Abs(a - amount)
                          then if Abs(d - amount) < Abs(c - amount) then d else c
                          else if Abs(d - amount) < Abs(a - amount) then d else a)
  {
    hide Nearest, Abs;
    NearestStep([a], b, amount);
    NearestStep([a, b], c, amount);
    NearestStep([a, b, c], d, amount);
    assert [a] + [b] == [a, b] && [a, b] + [c] == [a, b, c] && [a, b, c] + [d] == [a, b, c, d];
    NearestOfOne(a, amount);
  }

  lemma NearestOfOne(a: real, amount: real)
    ensures Nearest([a], amount) == a
  {
  }

  /** One option more: it wins only when it is strictly closer. */
  lemma NearestStep(options: seq<real>, last: real, amount: real)
    requires options != []
    ensures Nearest(options + [last], amount)
         == if Abs(last - amount) < Abs(Nearest(options, amount) - amount) then last else Nearest(options, amount)
  {
    assert (options + [last])[..|options|] == options && (options + [last])[|options|] == last;
  }

  lemma TwoDecimalIsNearest(amount: real) returns (m: int)
    requires amount > 0.0
    ensures m >= 0 && RoundFriendly(amount, false) == Anchor(m) && IsNearestAnchor(amount, m)
  {
    var whole := amount.Floor;
    var w := whole as real;
    NearestOfFour(w - 0.01, w + 0.49, w + 0.99, w + 1.49, amount);
    m := if amount <= w + 0.24 then 2 * whole else if amount <= w + 0.74 then 2 * whole + 1 else 2 * whole + 2;
    forall n: int ensures Abs(Anchor(m) - amount) <= Abs(Anchor(n) - amount) {
      if n < m {
        assert n as real <= m as real - 1.0;
      } else if n > m {
        assert n as real >= m as real + 1.0;
      }
    }
  }

  /** An anchor and its tie rule determine the index. */
  lemma AnchorUnique(amount: real, m: int, n: int)
    requires amount - 0.25 <= Anchor(m) < amount + 0.25
    requires amount - 0.25 <= Anchor(n) < amount + 0.25
    ensures m == n
  {
  }

  /** Rounding keeps the order of positive amounts, and breaks it only between a non-positive amount,
      which becomes 0.00, and an amount up to 0.24, which becomes -0.01. */
  lemma TwoDecimalMonotoneIff(x: real, y: real)
    requires x <= y
    ensures RoundFriendly(x, false) <= RoundFriendly(y, false) <==> !(x <= 0.0 < y <= 0.24)
  {
    if y > 0.0 {
      var n := TwoDecimalIsNearest(y);
      if x > 0.0 {
        var m := TwoDecimalIsNearest(x);
      }
      SmallAmounts(y);
    }
  }

  /** The floor of the charm prices: up to 0.24 the result is -0.01, above it at least 0.49. */
  lemma SmallAmounts(amount: real)
    requires amount > 0.0
    ensures amount <= 0.24 ==> RoundFriendly(amount, false) == -0.01
    ensures amount > 0.24 ==> RoundFriendly(amount, false) >= 0.49
  {
    var m := TwoDecimalIsNearest(amount);
    if amount <= 0.24 {
      AnchorUnique(amount, m, 0);
    }
  }

  /** Rounding a rounded price changes nothing, except for positive amounts below the floor. */
  lemma TwoDecimalIdempotentIff(amount: real)
    ensures RoundFriendly(RoundFriendly(amount, false), false) == RoundFriendly(amount, false)
            <==> !(0.0 < amount <= 0.24)
  {
    if amount > 0.0 { SmallAmounts(amount); }
    if amount > 0.24 {
      var m := TwoDecimalIsNearest(amount);
      var again := TwoDecimalIsNearest(Anchor(m));
      AnchorUnique(Anchor(m), m, again);
    }
  }

  /** In minor units every rounded price ends in 49 or 99. */
  lemma CharmEnding(amount: real)
    requires amount > 0.0
    ensures ToMinorUnits(RoundFriendly(amount, false), false) % 50 == 49
    ensures FormatAmount(ToMinorUnits(RoundFriendly(amount, false), false), false) == RoundFriendly(amount, false)
    ensures ToMinorUnits(RoundFriendly(amount, false), false) < 0 <==> amount <= 0.24
  {
    var m := TwoDecimalIsNearest(amount);
    var minor := 50 * m - 1;
    assert Anchor(m) * 100.0 == minor as real;
    assert ToMinorUnits(Anchor(m), false) == minor;
    SmallAmounts(amount);
  }

  // ------------------------------------------------------------------ zero-decimal currencies

  lemma HalfEvenClose(x: real)
    ensures -0.5 <= HalfEven(x) as real - x <= 0.5
  {
  }

  lemma HalfEvenMonotone(x: real, y: real)
    requires x <= y
    ensures HalfEven(x) <= HalfEven(y)
  {
  }

  lemma HalfEvenOfInt(n: int)
    ensures HalfEven(n as real) == n
  {
  }

  /** The result is a multiple of the step, at most half a step away. */
  lemma ZeroDecimalClose(amount: real)
    requires amount > 0.0
    ensures var r := RoundFriendly(amount, true);
            var step := Step(amount) as real;
            -step / 2.0 <= r - amount <= step / 2.0
            && r == HalfEven(amount / step) as real * step
  {
    var step := Step(amount) as real;
    var x := amount / step;
    HalfEvenClose(x);
    assert x * step == amount;
  }

  /** Half-even rounding, stated without it: the nearest integer, and of two equally near the even one. */
  lemma HalfEvenIff(x: real, n: int)
    ensures HalfEven(x) == n <==>
              -0.5 <= n as real - x <= 0.5 && (n as real - x == 0.5 || n as real - x == -0.5 ==> n % 2 == 0)
  {
    var h := HalfEven(x);
    if h != n && -0.5 <= n as real - x <= 0.5 { assert h == n + 1 || h == n - 1; }
  }

  /** Half-up rounding, stated without it: the nearest integer, and of two equally near the one away from zero. */
  lemma HalfUpIff(x: real, n: int)
    ensures HalfUp(x) == n <==> if x >= 0.0 then n as real - 0.5 <= x < n as real + 0.5
                                else n as real - 0.5 < x <= n as real + 0.5
  {
  }

  /** From 1000 on the nearest multiple of 100, below the nearest multiple of 10; of two equally near the one whose
      count is even. */
  lemma ZeroDecimalNearest(amount: real)
    requires amount > 0.0
    ensures var r := RoundFriendly(amount, true);
            && (amount >= 1000.0 ==> NearestMultiple(amount, 100, r))
            && (amount < 1000.0 ==> NearestMultiple(amount, 10, r))
  {
    var step := Step(amount);
    var n := HalfEven(amount / step as real);
    HalfEvenIff(amount / step as real, n);
    assert RoundFriendly(amount, true) == (n * step) as real;
    hide HalfEven, RoundFriendly;
    if amount >= 1000.0 { IsMultiple(amount, 100, n); } else { IsMultiple(amount, 10, n); }
  }

  ghost predicate NearestMultiple(amount: real, step: int, r: real) {
    exists n: int {:trigger n * step} ::
      r == (n * step) as real && -(step as real) <= 2.0 * (r - amount) <= step as real
      && (2.0 * (r - amount) == step as real || 2.0 * (amount - r) == step as real ==> n % 2 == 0)
  }

  lemma IsMultiple(amount: real, step: int, n: int)
    requires step == 10 || step == 100
    requires var x := amount / step as real;
             -0.5 <= n as real - x <= 0.5 && (n as real - x == 0.5 || n as real - x == -0.5 ==> n % 2 == 0)
    ensures NearestMultiple(amount, step, (n * step) as real)
  {
    var x := amount / step as real;
    assert x * step as real == amount;
    assert (n * step) as real == n as real * step as real;
  }

  /** Below 1000 the result is at most 1000, from there on at least: the step changes at a price both
      steps can express. */
  lemma ZeroDecimalAtStepChange(amount: real)
    requires amount > 0.0
    ensures amount < 1000.0 ==> 0.0 <= RoundFriendly(amount, true) <= 1000.0
    ensures amount >= 1000.0 ==> RoundFriendly(amount, true) >= 1000.0
  {
    var step := Step(amount);
    var n := HalfEven(amount / step as real);
    assert RoundFriendly(amount, true) == (n * step) as real;
    hide HalfEven, RoundFriendly;
    if amount < 1000.0 {
      HalfEvenMonotone(0.0, amount / 10.0);
      HalfEvenMonotone(amount / 10.0, 100.0);
      HalfEvenOfInt(0);
      HalfEvenOfInt(100);
      assert step == 10 && 0 <= n <= 100;
    } else {
      HalfEvenMonotone(10.0, amount / 100.0);
      HalfEvenOfInt(10);
      assert step == 100 && n >= 10;
    }
  }

  lemma ZeroDecimalMonotone(x: real, y: real)
    requires x <= y
    ensures RoundFriendly(x, true) <= RoundFriendly(y, true)
  {
    if y > 0.0 {
      ZeroDecimalAtStepChange(y);
      if x > 0.0 {
        ZeroDecimalAtStepChange(x);
        if Step(x) == Step(y) {
          HalfEvenMonotone(x / Step(x) as real, y / Step(y) as real);
        }
      }
    }
  }

  lemma ZeroDecimalIdempotent(amount: real)
    ensures RoundFriendly(RoundFriendly(amount, true), true) == RoundFriendly(amount, true)
  {
    if amount > 0.0 {
      ZeroDecimalAtStepChange(amount);
      var r := RoundFriendly(amount, true);
      var n := HalfEven(amount / Step(amount) as real);
      assert r == (n * Step(amount)) as real;
      if r > 0.0 {
        if r == 1000.0 {
          HalfEvenOfInt(10);
        } else {
          assert Step(r) == Step(amount);
          assert r / Step(r) as real == n as real;
          HalfEvenOfInt(n);
        }
      }
    }
  }

  lemma HalfUpOfInt(n: int)
    ensures HalfUp(n as real) == n
  {
  }

  /** A rounded price is a whole number of minor units, so storing it loses nothing. */
  lemma ZeroDecimalMinor(amount: real)
    ensures ToMinorUnits(RoundFriendly(amount, true), true) as real == RoundFriendly(amount, true)
    ensures ToMinorUnits(RoundFriendly(amount, true), true) >= 0
  {
    if amount > 0.0 {
      ZeroDecimalAtStepChange(amount);
      HalfUpOfInt(HalfEven(amount / Step(amount) as real) * Step(amount));
    } else {
      HalfUpOfInt(0);
    }
  }
}
