/**
 Rounding of broker-bound volumes and prices, over exact reals in place of decimals.
 */
module Money {
  import opened Wrappers
  import opened Numbers

  datatype NumericError = OutOfRange | BelowMinimum | NotPositive

  datatype LotRules = LotRules(minimum: real, maximum: real, step: real)

  /** Rounding towards zero. */
  function RoundDown(x: real): int {
    if x >= 0.0 then x.Floor else -((-x).Floor)
  }

  /** Nearest integer, ties away from zero. */
  function RoundHalfUp(x: real): int {
    if x >= 0.0 then (x + 0.5).Floor else -((0.5 - x).Floor)
  }

  function NormalizeVolume(volume: real, rules: LotRules): Result<real, NumericError> {
    if volume < rules.minimum || volume > rules.maximum then Err(OutOfRange)
    else if rules.step <= 0.0 then Ok(volume)
    else
      var normalized := Times(RoundDown(volume / rules.step), rules.step);
      if normalized < rules.minimum then Err(BelowMinimum) else Ok(normalized)
  }

  /** The older volume check, whose grid starts at the minimum. */
  predicate ValidVolume(volume: real, rules: LotRules) {
    if volume < rules.minimum || volume > rules.maximum then false
    else if rules.step > 0.0 then
      var steps := RoundHalfEven((volume - rules.minimum) / rules.step);
      var expected := rules.minimum + Times(steps, rules.step);
      Abs(volume - expected) <= rules.step * 0.01
    else true
  }

  /** The n-th multiple of `step`. */
  function Times(n: int, step: real): real {
    n as real * step
  }

  /** `r` is a multiple of `step`. */
  ghost predicate OnGrid(r: real, step: real) {
    exists n: int :: r == Times(n, step)
  }

  /** `r` is the greatest multiple of `step` not above `v`. */
  ghost predicate GreatestMultiple(r: real, v: real, step: real) {
    OnGrid(r, step) && r <= v && forall n: int :: Times(n, step) <= v ==> Times(n, step) <= r
  }

  lemma DivMul(x: real, y: real)
    requires y != 0.0
    ensures (x / y) * y == x
  {
  }

  lemma MulOrder(n: int, m: int, step: real)
    requires step > 0.0
    ensures n <= m <==> Times(n, step) <= Times(m, step)
    ensures n < m <==> Times(n, step) < Times(m, step)
  {
    if n < m {
      assert (m as real - n as real) * step > 0.0;
    } else if m < n {
      assert (n as real - m as real) * step > 0.0;
    }
  }

  lemma NextMultiple(n: int, step: real)
    ensures Times(n + 1, step) == Times(n, step) + step
  {
  }

  /** The quotient `v / step` lies between two neighbouring integers just as `v` lies between their multiples. */
  lemma QuotientBounds(v: real, step: real, n: int)
    requires step > 0.0
    ensures n as real <= v / step <==> Times(n, step) <= v
    ensures v / step < n as real <==> v < Times(n, step)
  {
    var q := v / step;
    DivMul(v, step);
    if n as real <= q {
      assert (q - n as real) * step >= 0.0;
    } else {
      assert (n as real - q) * step > 0.0;
    }
  }

  lemma FloorIsGreatest(v: real, step: real)
    requires step > 0.0
    ensures GreatestMultiple(Times((v / step).Floor, step), v, step)
  {
    var f := (v / step).Floor;
    QuotientBounds(v, step, f);
    forall n: int | Times(n, step) <= v ensures Times(n, step) <= Times(f, step) {
      QuotientBounds(v, step, n);
      MulOrder(n, f, step);
    }
  }

  /** Either greatest multiple is the greatest multiple. */
  lemma GreatestIsUnique(r: real, r': real, v: real, step: real)
    requires GreatestMultiple(r, v, step) && GreatestMultiple(r', v, step)
    ensures r == r'
  {
    var n: int :| r == Times(n, step);
    var n': int :| r' == Times(n', step);
    assert Times(n, step) <= v && Times(n', step) <= v;
  }

  /**
   With positive step and minimum, normalising succeeds exactly when the greatest step
   multiple not above an in-range volume is still at least the minimum, and returns it.
   */
  lemma VolumeIsGreatestStep(v: real, rules: LotRules, r: real)
    requires rules.step > 0.0 && rules.minimum > 0.0
    ensures NormalizeVolume(v, rules) == Ok(r)
       <==> rules.minimum <= v <= rules.maximum && r >= rules.minimum && GreatestMultiple(r, v, rules.step)
  {
    if rules.minimum <= v {
      QuotientBounds(v, rules.step, 0);
      FloorIsGreatest(v, rules.step);
      if GreatestMultiple(r, v, rules.step) {
        GreatestIsUnique(r, Times((v / rules.step).Floor, rules.step), v, rules.step);
      }
    }
  }

  lemma VolumeIdempotent(v: real, rules: LotRules)
    requires rules.step > 0.0 && rules.minimum > 0.0
    requires NormalizeVolume(v, rules).Ok?
    ensures var r := NormalizeVolume(v, rules).value; NormalizeVolume(r, rules) == Ok(r)
  {
    var r := NormalizeVolume(v, rules).value;
    VolumeIsGreatestStep(v, rules, r);
    assert GreatestMultiple(r, r, rules.step);
    VolumeIsGreatestStep(r, rules, r);
  }

  lemma VolumeMonotone(v: real, w: real, rules: LotRules)
    requires rules.step > 0.0 && rules.minimum > 0.0 && v <= w
    requires NormalizeVolume(v, rules).Ok? && w <= rules.maximum
    ensures NormalizeVolume(w, rules).Ok? && NormalizeVolume(v, rules).value <= NormalizeVolume(w, rules).value
  {
    var r := NormalizeVolume(v, rules).value;
    VolumeIsGreatestStep(v, rules, r);
    FloorIsGreatest(w, rules.step);
    var s := Times((w / rules.step).Floor, rules.step);
    var n: int :| r == Times(n, rules.step);
    assert Times(n, rules.step) <= w;
    VolumeIsGreatestStep(w, rules, s);
  }

  // ---------------------------------------------------------------------------------------
  // The two volume checks against each other
  // ---------------------------------------------------------------------------------------

  predicate Near(x: real, n: int, step: real) {
    Abs(x - Times(n, step)) <= step * 0.01
  }

  /** Some multiple of `step` lies within 1% of a step of `x`. */
  ghost predicate NearGrid(x: real, step: real) {
    exists n: int :: Near(x, n, step)
  }

  lemma NearIsCloseQuotient(x: real, n: int, step: real)
    requires step > 0.0 && Near(x, n, step)
    ensures Abs(x / step - n as real) < 0.5
  {
    var q := x / step;
    DivMul(x, step);
    if q - n as real >= 0.5 {
      assert (q - n as real - 0.5) * step >= 0.0;
    } else if n as real - q >= 0.5 {
      assert (n as real - q - 0.5) * step >= 0.0;
    }
  }

  /** Rounding finds a near multiple whenever there is one. */
  lemma NearestFindsGrid(x: real, step: real)
    requires step > 0.0
    ensures NearGrid(x, step) <==> Near(x, RoundHalfEven(x / step), step)
  {
    if n: int :| Near(x, n, step) {
      NearIsCloseQuotient(x, n, step);
      RoundIsNearest(x / step, n);
    }
  }

  lemma NearMirrored(x: real, m: int, n: int, step: real)
    ensures Near(Times(m, step) - x, m - n, step) <==> Near(x, n, step)
  {
    assert Times(m - n, step) == Times(m, step) - Times(n, step);
  }

  /** Whether a point is near the grid does not change when it is mirrored in a multiple. */
  lemma GridSymmetry(x: real, m: int, step: real)
    ensures NearGrid(Times(m, step) - x, step) <==> NearGrid(x, step)
  {
    if n: int :| Near(x, n, step) {
      NearMirrored(x, m, n, step);
    }
    var mirrored := Times(m, step) - x;
    if k: int :| Near(mirrored, k, step) {
      NearMirrored(x, m, m - k, step);
    }
  }

  /**
   A normalised volume passes the older check exactly when the broker's minimum is itself
   within 1% of a step of the step grid; whether it does never depends on the volume.
   */
  lemma NormalizedIsAccepted(v: real, rules: LotRules)
    requires rules.step > 0.0 && rules.minimum > 0.0
    requires NormalizeVolume(v, rules).Ok?
    ensures ValidVolume(NormalizeVolume(v, rules).value, rules) <==> NearGrid(rules.minimum, rules.step)
  {
    var r := NormalizeVolume(v, rules).value;
    VolumeIsGreatestStep(v, rules, r);
    var m: int :| r == Times(m, rules.step);
    GridSymmetry(rules.minimum, m, rules.step);
    NearestFindsGrid(r - rules.minimum, rules.step);
  }

  /** In particular a minimum that is a whole number of steps never gets in the way. */
  lemma WholeMinimumIsNear(n: int, step: real)
    requires step > 0.0
    ensures NearGrid(Times(n, step), step)
  {
    assert Near(Times(n, step), n, step);
  }

  /** A volume in range passes the older check exactly if it is near the grid that starts at the minimum. */
  lemma ValidVolumeIsNear(v: real, rules: LotRules)
    requires rules.step > 0.0
    ensures ValidVolume(v, rules) <==> rules.minimum <= v <= rules.maximum && NearGrid(v - rules.minimum, rules.step)
  {
    NearestFindsGrid(v - rules.minimum, rules.step);
  }

  /** Without a step both checks come down to the range, and nothing is rounded. */
  lemma NoStepNoRounding(v: real, rules: LotRules)
    requires rules.step <= 0.0
    ensures NormalizeVolume(v, rules) == if rules.minimum <= v <= rules.maximum then Ok(v) else Err(OutOfRange)
    ensures ValidVolume(v, rules) <==> rules.minimum <= v <= rules.maximum
  {
  }

  /** Which error a refused volume gets: out of range, or in range with no step multiple between minimum and it. */
  lemma VolumeErrors(v: real, rules: LotRules)
    requires rules.step > 0.0 && rules.minimum > 0.0
    ensures NormalizeVolume(v, rules) == Err(OutOfRange) <==> !(rules.minimum <= v <= rules.maximum)
    ensures NormalizeVolume(v, rules) == Err(BelowMinimum)
       <==> rules.minimum <= v <= rules.maximum && forall n: int :: Times(n, rules.step) <= v ==> Times(n, rules.step) < rules.minimum
  {
    if rules.minimum <= v {
      QuotientBounds(v, rules.step, 0);
      FloorIsGreatest(v, rules.step);
    }
  }

  /** Otherwise normalising can produce what the older check refuses. */
  lemma NormalizedButRefused()
    ensures NormalizeVolume(0.02, LotRules(0.015, 1.0, 0.01)) == Ok(0.02)
    ensures !ValidVolume(0.02, LotRules(0.015, 1.0, 0.01))
  {
    assert 0.02 / 0.01 == 2.0 && (0.02 - 0.015) / 0.01 == 0.5;
  }

  // ---------------------------------------------------------------------------------------
  // Prices
  // ---------------------------------------------------------------------------------------

  function Pow10(n: nat): (p: real)
    ensures p >= 1.0
  {
    if n == 0 then 1.0 else 10.0 * Pow10(n - 1)
  }

  /** The last displayed digit. */
  function Quantum(digits: int): (q: real)
    ensures q > 0.0
  {
    if digits >= 0 then 1.0 / Pow10(digits) else Pow10(-digits)
  }

  /** One more digit makes it ten times finer, also where digits are negative. */
  lemma QuantumPerDigit(digits: int)
    ensures Quantum(0) == 1.0 && Quantum(digits) == 10.0 * Quantum(digits + 1)
  {
    if digits < -1 {
      assert Pow10(-digits) == 10.0 * Pow10(-(digits + 1));
    } else if digits >= 0 {
      assert Pow10(digits + 1) == 10.0 * Pow10(digits);
    }
  }

  /** Nearest multiple of `unit`, ties upwards for the positive numbers it meets. */
  function Snap(x: real, unit: real): real
    requires unit > 0.0
  {
    Times(RoundHalfUp(x / unit), unit)
  }

  /** `tick` is the trade tick size, zero when the broker reports none. */
  function NormalizePrice(price: real, tick: real, digits: int): Result<real, NumericError> {
    if price <= 0.0 then Err(NotPositive)
    else
      var snapped := if tick > 0.0 then Snap(price, tick) else price;
      Ok(Snap(snapped, Quantum(digits)))
  }

  /** For a positive number: the multiple, and how far it can be on either side. */
  lemma SnapBounds(x: real, unit: real)
    requires unit > 0.0 && x >= 0.0
    ensures OnGrid(Snap(x, unit), unit)
    ensures -unit / 2.0 < Snap(x, unit) - x <= unit / 2.0
  {
    var n := RoundHalfUp(x / unit);
    QuotientBounds(x, unit, 0);
    ShiftedQuotient(x, unit);
    QuotientBounds(x + unit / 2.0, unit, n);
    QuotientBounds(x + unit / 2.0, unit, n + 1);
    NextMultiple(n, unit);
  }

  lemma SameSign(d: real, unit: real)
    requires unit > 0.0
    ensures d > 0.0 <==> d * unit > 0.0
    ensures d < 0.0 <==> d * unit < 0.0
  {
  }

  lemma ShiftedQuotient(x: real, unit: real)
    requires unit > 0.0
    ensures (x + unit / 2.0) / unit == x / unit + 0.5
  {
    DivMul(x, unit);
    DivMul(x + unit / 2.0, unit);
    var d := (x + unit / 2.0) / unit - (x / unit + 0.5);
    SameSign(d, unit);
    assert d * unit == 0.0;
  }

  /** The multiple is the only one that close. */
  lemma SnapUnique(x: real, unit: real, n: int)
    requires unit > 0.0 && x >= 0.0
    requires -unit / 2.0 < Times(n, unit) - x <= unit / 2.0
    ensures Snap(x, unit) == Times(n, unit)
  {
    SnapBounds(x, unit);
    var m := RoundHalfUp(x / unit);
    NextMultiple(m, unit);
    NextMultiple(n, unit);
    if m < n {
      MulOrder(m + 1, n, unit);
    } else if n < m {
      MulOrder(n + 1, m, unit);
    }
  }

  lemma SnapMonotone(x: real, y: real, unit: real)
    requires unit > 0.0 && 0.0 <= x <= y
    ensures Snap(x, unit) <= Snap(y, unit)
  {
    DivMul(x, unit);
    DivMul(y, unit);
    if x / unit > y / unit {
      assert (x / unit - y / unit) * unit > 0.0;
    }
    QuotientBounds(x, unit, 0);
    MulOrder(RoundHalfUp(x / unit), RoundHalfUp(y / unit), unit);
  }

  lemma SnapNonNegative(x: real, unit: real)
    requires unit > 0.0 && x >= 0.0
    ensures RoundHalfUp(x / unit) >= 0 && Snap(x, unit) >= 0.0
  {
    QuotientBounds(x, unit, 0);
    MulOrder(0, RoundHalfUp(x / unit), unit);
  }

  /** What the second stage does to a multiple of the tick, the first stage undoes. */
  lemma StagesAgree(n: int, tick: real, q: real)
    requires 0.0 < q <= tick && n >= 0
    ensures Snap(Snap(Times(n, tick), q), tick) == Times(n, tick)
  {
    MulOrder(0, n, tick);
    var x := Times(n, tick);
    var y := Snap(x, q);
    SnapBounds(x, q);
    SnapNonNegative(x, q);
    if q == tick {
      SnapUnique(x, q, n);
    }
    SnapUnique(y, tick, n);
  }

  /** ... and when the quantum is the coarser grid, the second stage undoes the first. */
  lemma CoarseStagesAgree(m: int, tick: real, q: real)
    requires 0.0 < tick < q && m >= 0
    ensures Snap(Snap(Times(m, q), tick), q) == Times(m, q)
  {
    MulOrder(0, m, q);
    var x := Times(m, q);
    SnapBounds(x, tick);
    SnapNonNegative(x, tick);
    SnapUnique(Snap(x, tick), q, m);
  }

  /** Normalising a price twice is normalising it once, unless the first result is zero. */
  lemma PriceIdempotent(price: real, tick: real, digits: int)
    requires NormalizePrice(price, tick, digits).Ok? && NormalizePrice(price, tick, digits).value > 0.0
    ensures var r := NormalizePrice(price, tick, digits).value; NormalizePrice(r, tick, digits) == Ok(r)
  {
    var q := Quantum(digits);
    var snapped := if tick > 0.0 then Snap(price, tick) else price;
    var r := Snap(snapped, q);
    if tick > 0.0 {
      SnapNonNegative(price, tick);
    }
    SnapNonNegative(snapped, q);
    if tick <= 0.0 {
      SnapUnique(r, q, RoundHalfUp(snapped / q));
    } else if q <= tick {
      StagesAgree(RoundHalfUp(price / tick), tick, q);
    } else {
      CoarseStagesAgree(RoundHalfUp(snapped / q), tick, q);
    }
  }

  lemma PriceMonotone(a: real, b: real, tick: real, digits: int)
    requires 0.0 < a <= b
    ensures NormalizePrice(a, tick, digits).value <= NormalizePrice(b, tick, digits).value
  {
    var q := Quantum(digits);
    if tick > 0.0 {
      SnapMonotone(a, b, tick);
      SnapNonNegative(a, tick);
      SnapMonotone(Snap(a, tick), Snap(b, tick), q);
    } else {
      SnapMonotone(a, b, q);
    }
  }

  /** The two roundings together move a price by at most half a tick and half a quantum. */
  lemma PriceError(price: real, tick: real, digits: int)
    requires price > 0.0
    ensures var r := NormalizePrice(price, tick, digits).value;
      Abs(r - price) <= (if tick > 0.0 then tick / 2.0 else 0.0) + Quantum(digits) / 2.0
  {
    if tick > 0.0 {
      SnapBounds(price, tick);
      SnapNonNegative(price, tick);
      SnapBounds(Snap(price, tick), Quantum(digits));
    } else {
      SnapBounds(price, Quantum(digits));
    }
  }

  /** Only positive prices are accepted. */
  lemma PricesArePositive(price: real, tick: real, digits: int)
    ensures NormalizePrice(price, tick, digits) == Err(NotPositive) <==> price <= 0.0
  {
  }

  /** The result has no more than `digits` decimals and stays within half a tick and half a unit of the last one. */
  lemma PriceDecimals(price: real, tick: real, digits: nat) returns (n: int)
    requires price > 0.0
    ensures var r := NormalizePrice(price, tick, digits).value;
      && r == n as real / Pow10(digits)
      && -((if tick > 0.0 then tick / 2.0 else 0.0) + 1.0 / (2.0 * Pow10(digits))) <= r - price
      && r - price <= (if tick > 0.0 then tick / 2.0 else 0.0) + 1.0 / (2.0 * Pow10(digits))
  {
    PriceError(price, tick, digits);
    var q := Quantum(digits);
    var snapped := if tick > 0.0 then Snap(price, tick) else price;
    n := RoundHalfUp(snapped / q);
    HalfQuantum(Pow10(digits), n);
  }

  lemma HalfQuantum(p: real, n: int)
    requires p > 0.0
    ensures (1.0 / p) / 2.0 == 1.0 / (2.0 * p)
    ensures Times(n, 1.0 / p) == n as real / p
  {
  }

  /** When the tick is a whole number of quanta the second stage changes nothing. */
  lemma PriceOnTick(price: real, tick: real, digits: int, k: int)
    requires price > 0.0 && tick > 0.0 && tick == Times(k, Quantum(digits))
    ensures var r := NormalizePrice(price, tick, digits).value;
      r == Snap(price, tick) && OnGrid(r, tick) && Abs(r - price) <= tick / 2.0
  {
    var q := Quantum(digits);
    var n := RoundHalfUp(price / tick);
    SnapBounds(price, tick);
    SnapNonNegative(price, tick);
    assert Times(n, Times(k, q)) == Times(n * k, q);
    SnapUnique(Snap(price, tick), q, n * k);
  }

  lemma SnapVanishes(x: real, unit: real)
    requires unit > 0.0 && x >= 0.0
    ensures Snap(x, unit) > 0.0 <==> x >= unit / 2.0
  {
    SnapBounds(x, unit);
    if x < unit / 2.0 {
      SnapUnique(x, unit, 0);
    }
  }

  /**
   A positive price is lost to zero exactly when it, once rounded to the tick size if there
   is one, is under half of the last displayed digit.
   */
  lemma PriceVanishes(price: real, tick: real, digits: int)
    requires price > 0.0
    ensures NormalizePrice(price, tick, digits).value > 0.0
       <==> (if tick > 0.0 then Snap(price, tick) else price) >= Quantum(digits) / 2.0
  {
    if tick > 0.0 {
      SnapNonNegative(price, tick);
      SnapVanishes(Snap(price, tick), Quantum(digits));
    } else {
      SnapVanishes(price, Quantum(digits));
    }
  }

  /** With a tick no finer than the last displayed digit that is exactly under half a tick. */
  lemma VanishesUnderHalfTick(price: real, tick: real, digits: int)
    requires price > 0.0 && tick >= Quantum(digits)
    ensures NormalizePrice(price, tick, digits).value > 0.0 <==> price >= tick / 2.0
  {
    PriceVanishes(price, tick, digits);
    SnapVanishes(price, tick);
    if price >= tick / 2.0 {
      SnapBounds(price, tick);
      MulOrder(RoundHalfUp(price / tick), 0, tick);
      MulOrder(1, RoundHalfUp(price / tick), tick);
    }
  }
}
