/** The canonical venue fee schedules: Kalshi's quadratic fee, rounded away from zero
    to the cent, and Polymarket's quadratic fee, rounded half up to five decimals with
    a minimum charge. */
module VenueFees {

  const KALSHI_TAKER_FACTOR := 0.07
  const KALSHI_MAKER_FACTOR := 0.0175
  const CENT := 0.01
  const PM_QUANTUM := 0.00001

  datatype Venue = Kalshi | Polymarket

  // The shared parabola: rate * size * price * (1 - price).
  function Quadratic(rate: real, size: real, price: real): real {
    rate * size * (price * (1.0 - price))
  }

  function Ceil(x: real): int { -(-x).Floor }

  // Decimal's ROUND_UP: away from zero.
  function RoundAway(x: real): int { if x >= 0.0 then Ceil(x) else x.Floor }

  // Decimal's ROUND_HALF_UP: ties away from zero.
  function RoundHalfUp(x: real): int { if x >= 0.0 then (x + 0.5).Floor else -(0.5 - x).Floor }

  function KalshiQuadratic(price: real, size: real, factor: real, multiplier: real): real {
    RoundAway(Quadratic(factor * multiplier, size, price) * 100.0) as real / 100.0
  }

  function KalshiTakerFee(price: real, size: real): real {
    KalshiQuadratic(price, size, KALSHI_TAKER_FACTOR, 1.0)
  }

  function KalshiMakerFee(price: real, size: real, chargesMakers: bool, multiplier: real): real {
    if !chargesMakers then 0.0 else KalshiQuadratic(price, size, KALSHI_MAKER_FACTOR, multiplier)
  }

  function PmRate(bps: int): (r: real)
    ensures r >= 0.0
    ensures bps <= 10000 ==> r <= 1.0
  {
    if bps <= 0 then 0.0 else bps as real / 10000.0
  }

  // Half up to whole quanta, one of them at least when anything is owed.
  function InQuanta(raw: real): real {
    var fee := RoundHalfUp(raw * 100000.0) as real / 100000.0;
    if raw > 0.0 && fee < PM_QUANTUM then PM_QUANTUM else fee
  }

  function PmTakerFee(price: real, size: real, bps: int): real {
    if bps <= 0 then 0.0 else InQuanta(Quadratic(PmRate(bps), size, price))
  }

  function TakerRate(venue: Venue, bps: int): (r: real)
    ensures r >= 0.0
    ensures bps <= 10000 ==> r <= 1.0
  {
    match venue
    case Kalshi => KALSHI_TAKER_FACTOR
    case Polymarket => PmRate(bps)
  }

  function RawTakerFee(venue: Venue, bps: int, price: real, size: real): real {
    Quadratic(TakerRate(venue, bps), size, price)
  }

  function TakerFee(venue: Venue, bps: int, price: real, size: real): real {
    match venue
    case Kalshi => KalshiTakerFee(price, size)
    case Polymarket => PmTakerFee(price, size, bps)
  }

  // How far the charged fee may lie above and below the raw curve.
  function RoundingSlack(venue: Venue): real {
    match venue
    case Kalshi => CENT
    case Polymarket => PM_QUANTUM
  }

  // ------------------------------------------------------------- lemmas

  lemma ProductNonNegative(a: real, b: real)
    requires a >= 0.0 && b >= 0.0
    ensures a * b >= 0.0
  {
  }

  lemma ProductPositive(a: real, b: real)
    requires a > 0.0 && b > 0.0
    ensures a * b > 0.0
  {
  }

  lemma SignOfProduct(a: real, b: real)
    requires b > 0.0
    ensures a * b <= 0.0 <==> a <= 0.0
  {
  }

  lemma QuadraticNonNegative(rate: real, size: real, price: real)
    requires rate >= 0.0 && size >= 0.0 && 0.0 <= price <= 1.0
    ensures Quadratic(rate, size, price) >= 0.0
  {
    ProductNonNegative(rate, size);
    ProductNonNegative(price, 1.0 - price);
    ProductNonNegative(rate * size, price * (1.0 - price));
  }

  lemma QuadraticPositive(rate: real, size: real, price: real)
    requires rate > 0.0 && size > 0.0 && 0.0 < price < 1.0
    ensures Quadratic(rate, size, price) > 0.0
  {
    ProductPositive(rate, size);
    ProductPositive(price, 1.0 - price);
    ProductPositive(rate * size, price * (1.0 - price));
  }

  // The charged fee brackets the raw curve from above by less than a cent on Kalshi;
  // on Polymarket it is off by at most half a quantum, or one quantum at the minimum.
  lemma FeeBracket(venue: Venue, bps: int, price: real, size: real)
    requires size >= 0.0 && 0.0 <= price <= 1.0
    ensures var raw, fee := RawTakerFee(venue, bps, price, size), TakerFee(venue, bps, price, size);
            && fee >= 0.0
            && fee <= raw + RoundingSlack(venue)
            && (venue.Kalshi? ==> raw <= fee < raw + CENT)
            && (venue.Polymarket? ==> raw - PM_QUANTUM / 2.0 <= fee)
            && (raw > 0.0 ==> fee > 0.0)
            && (raw == 0.0 ==> fee == 0.0)
  {
    var rate := TakerRate(venue, bps);
    QuadraticNonNegative(rate, size, price);
    var raw := Quadratic(rate, size, price);
    match venue
    case Kalshi =>
      var units := raw * 100.0;
      assert Ceil(units) as real - 1.0 < units <= Ceil(units) as real;
    case Polymarket =>
      if bps <= 0 {
        ZeroRate(size, price);
      } else {
        var units := raw * 100000.0;
        assert units - 0.5 < (units + 0.5).Floor as real <= units + 0.5;
      }
  }

  // The curve both schedules charge on.
  function Curve(price: real, size: real): real { size * (price * (1.0 - price)) }

  // The schedules in the venues' own figures. Kalshi's fee is the least number of whole cents
  // that covers seven hundredths of size * price * (1 - price).
  lemma KalshiSchedule(bps: int, price: real, size: real)
    requires size >= 0.0 && 0.0 <= price <= 1.0
    ensures var cents := TakerFee(Kalshi, bps, price, size) * 100.0;
            cents == cents.Floor as real && cents - 1.0 < 7.0 * Curve(price, size) <= cents
  {
    QuadraticNonNegative(0.07, size, price);
    KalshiCeiling(0.07, size, price);
  }

  // And for a resting order on a series that charges makers, of seven four-hundredths, times
  // the multiplier of the series.
  lemma KalshiMakerSchedule(price: real, size: real, multiplier: real)
    requires size >= 0.0 && 0.0 <= price <= 1.0 && multiplier >= 0.0
    ensures var cents := KalshiMakerFee(price, size, true, multiplier) * 100.0;
            && cents == cents.Floor as real
            && cents - 1.0 < 1.75 * multiplier * Curve(price, size) <= cents
  {
    QuadraticNonNegative(0.0175 * multiplier, size, price);
    KalshiCeiling(0.0175 * multiplier, size, price);
  }

  lemma KalshiCeiling(rate: real, size: real, price: real)
    requires Quadratic(rate, size, price) >= 0.0
    ensures var units := Quadratic(rate, size, price) * 100.0;
            && units == 100.0 * rate * Curve(price, size)
            && RoundAway(units) as real - 1.0 < units <= RoundAway(units) as real
  {
    var curve := price * (1.0 - price);
    assert rate * size * curve == rate * (size * curve);
  }

  // Hundred-thousandths of a dollar owed at so many ten-thousandths of the parabola.
  function QuantaOwed(bps: int, price: real, size: real): real {
    10.0 * bps as real * Curve(price, size)
  }

  // Polymarket's is the whole number of these nearest to what is owed, ties up, and one when
  // that rounds to none; a rate of zero or below charges nothing.
  lemma PolymarketSchedule(bps: int, price: real, size: real)
    requires size >= 0.0 && 0.0 <= price <= 1.0
    ensures var units, owed := TakerFee(Polymarket, bps, price, size) * 100000.0, QuantaOwed(bps, price, size);
            && units == units.Floor as real
            && (bps <= 0 ==> units == 0.0)
            && (bps > 0 && (owed == 0.0 || owed >= 0.5) ==> units - 0.5 <= owed < units + 0.5)
            && (bps > 0 && 0.0 < owed < 0.5 ==> units == 1.0)
  {
    hide Quadratic, InQuanta, QuantaOwed;
    if bps > 0 {
      var raw := Quadratic(bps as real / 10000.0, size, price);
      QuadraticNonNegative(bps as real / 10000.0, size, price);
      QuantaAreOwed(bps, price, size);
      NearestQuantum(raw);
    }
  }

  lemma OwedNonNegative(bps: int, price: real, size: real)
    requires size > 0.0 && 0.0 <= price <= 1.0
    ensures bps > 0 ==> QuantaOwed(bps, price, size) >= 0.0
  {
    ProductNonNegative(price, 1.0 - price);
    ProductNonNegative(size, price * (1.0 - price));
    if bps > 0 { ProductNonNegative(10.0 * bps as real, Curve(price, size)); }
  }

  lemma NearestQuantum(raw: real)
    requires raw >= 0.0
    ensures var units, exact := InQuanta(raw) * 100000.0, raw * 100000.0;
            && units == units.Floor as real
            && (exact == 0.0 || exact >= 0.5 ==> units - 0.5 <= exact < units + 0.5)
            && (0.0 < exact < 0.5 ==> units == 1.0)
  {
    NearestUnit(raw * 100000.0);
  }

  lemma NearestUnit(x: real)
    requires x >= 0.0
    ensures RoundHalfUp(x) as real - 0.5 <= x < RoundHalfUp(x) as real + 0.5
    ensures RoundHalfUp(x) >= 1 <==> x >= 0.5
  {
  }

  lemma QuantaAreOwed(bps: int, price: real, size: real)
    ensures Quadratic(bps as real / 10000.0, size, price) * 100000.0 == QuantaOwed(bps, price, size)
  {
    var curve, rate := price * (1.0 - price), bps as real / 10000.0;
    assert rate * size * curve == rate * (size * curve);
    assert rate * 100000.0 == 10.0 * bps as real;
    assert rate * (size * curve) * 100000.0 == rate * 100000.0 * (size * curve);
  }

  // A resting order never pays more than a taking one of the same series, and nothing at
  // all on a series that charges takers only.
  lemma MakerBelowTaker(price: real, size: real, chargesMakers: bool, multiplier: real)
    requires size >= 0.0 && 0.0 <= price <= 1.0 && multiplier >= 0.0
    ensures 0.0 <= KalshiMakerFee(price, size, chargesMakers, multiplier)
                <= KalshiQuadratic(price, size, KALSHI_TAKER_FACTOR, multiplier)
    ensures !chargesMakers ==> KalshiMakerFee(price, size, chargesMakers, multiplier) == 0.0
  {
    hide Quadratic;
    var maker := Quadratic(KALSHI_MAKER_FACTOR * multiplier, size, price);
    var taker := Quadratic(KALSHI_TAKER_FACTOR * multiplier, size, price);
    QuadraticNonNegative(KALSHI_MAKER_FACTOR * multiplier, size, price);
    FourTimes(multiplier, size, price);
    RoundAwayMonotone(maker * 100.0, taker * 100.0);
  }

  lemma FourTimes(multiplier: real, size: real, price: real)
    ensures Quadratic(KALSHI_TAKER_FACTOR * multiplier, size, price)
         == 4.0 * Quadratic(KALSHI_MAKER_FACTOR * multiplier, size, price)
  {
    var x, y := KALSHI_MAKER_FACTOR * multiplier, size * (price * (1.0 - price));
    assert KALSHI_TAKER_FACTOR * multiplier == 4.0 * x;
    assert x * size * (price * (1.0 - price)) == x * y;
    assert 4.0 * x * size * (price * (1.0 - price)) == 4.0 * (x * y);
  }

  lemma RoundAwayMonotone(x: real, y: real)
    requires 0.0 <= x <= y
    ensures 0 <= RoundAway(x) <= RoundAway(y)
  {
  }

  lemma ZeroRate(size: real, price: real)
    ensures Quadratic(0.0, size, price) == 0.0
  {
  }

  // What one contract really costs a taker: price plus its raw fee.
  function Effective(rate: real, price: real): real { price + rate * (price * (1.0 - price)) }

  // p + r*p*(1-p) is increasing on [0,1] when the rate is at most one: a dearer level
  // stays dearer after fees, which is what the walks rely on when they stop.
  lemma EffectiveMonotone(rate: real, p: real, q: real)
    requires 0.0 <= rate <= 1.0 && 0.0 <= p <= q <= 1.0
    ensures Effective(rate, p) <= Effective(rate, q)
  {
    var gap := q - p;
    var slope := 1.0 + rate * (1.0 - p - q);
    assert slope >= 0.0 by {
      if p + q <= 1.0 { ProductNonNegative(rate, 1.0 - p - q); }
      else {
        ProductNonNegative(1.0 - rate, p + q - 1.0);
        assert rate * (1.0 - p - q) == (1.0 - rate) * (p + q - 1.0) - (p + q - 1.0);
      }
    }
    ProductNonNegative(gap, slope);
    assert Effective(rate, q) - Effective(rate, p) == gap * slope by {
      assert q * (1.0 - q) - p * (1.0 - p) == gap * (1.0 - p - q);
      assert rate * (q * (1.0 - q)) - rate * (p * (1.0 - p)) == rate * (gap * (1.0 - p - q));
    }
  }

  // The raw fee is linear in size: it is the effective price less the price, times size.
  lemma RawFeeLinear(venue: Venue, bps: int, price: real, size: real)
    ensures price * size + RawTakerFee(venue, bps, price, size)
         == Effective(TakerRate(venue, bps), price) * size
  {
    var rate := TakerRate(venue, bps);
    var curve := price * (1.0 - price);
    assert rate * size * curve == rate * curve * size;
  }
}
