/** Market rounding and order validation. */
module Market {
  import opened Decimals

  datatype Status = Active | Inactive | Maintenance | Suspended | Delisted

  datatype OrderSide = Buy | Sell

  datatype OrderType = MarketOrder | Limit | Stop | StopLimit

  datatype MarketError =
    | MarketInactive | OrderSizeTooSmall | OrderSizeTooLarge | InvalidPrice
    | PricePrecision | NotionalTooSmall | QuantityPrecision

  datatype Verdict = Accepted | Refused(error: MarketError)

  datatype Market = Market(
    status: Status,
    minOrderSize: Decimal,
    maxOrderSize: Decimal,
    minNotional: Decimal,
    tickSize: Decimal,
    lotSize: Decimal)
  {
    predicate IsActive() { status == Active }

    function RoundPrice(price: Decimal): Decimal {
      RoundTo(price, tickSize)
    }

    function RoundQuantity(qty: Decimal): Decimal {
      RoundTo(qty, lotSize)
    }

    function ValidateOrder(side: OrderSide, orderType: OrderType, price: Decimal, qty: Decimal): Verdict {
      if !IsActive() then Refused(MarketInactive)
      else if qty < minOrderSize then Refused(OrderSizeTooSmall)
      else if qty > maxOrderSize then Refused(OrderSizeTooLarge)
      else
        var limited := orderType == Limit || orderType == StopLimit;
        if limited && (price == 0.0 || price < 0.0) then Refused(InvalidPrice)
        else if limited && RoundPrice(price) != price then Refused(PricePrecision)
        else if limited && price * qty < minNotional then Refused(NotionalTooSmall)
        else if RoundQuantity(qty) != qty then Refused(QuantityPrecision)
        else Accepted
    }
  }

  /** The body that RoundPrice and RoundQuantity share: a step of zero means no rounding. */
  function RoundTo(x: Decimal, step: Decimal): Decimal {
    if step == 0.0 then x else Round0(Div(x, step)) * step
  }

  /** An exact integer multiple of the step; every number when there is no step. */
  ghost predicate OnGrid(x: Decimal, step: Decimal) {
    step == 0.0 || exists k: int :: Multiple(x, k, step)
  }

  ghost predicate Multiple(x: Decimal, k: int, step: Decimal) {
    x == k as real * step
  }

  /** r is a multiple of the step, and none is closer to x. */
  ghost predicate NearestOnGrid(r: Decimal, x: Decimal, step: Decimal) {
    OnGrid(r, step) && forall y: Decimal :: OnGrid(y, step) ==> Abs(r - x) <= Abs(y - x)
  }

  // ---------------------------------------------------------------- in units of the step

  lemma ExactRatio(x: Decimal, step: Decimal)
    requires step != 0.0
    ensures x == x / step * step
  {
  }

  /** Rounding in units of the step. */
  lemma InUnits(x: Decimal, step: Decimal) returns (q: real, n: int)
    requires step != 0.0
    ensures q == x / step && x == q * step
    ensures n == Twice(q) && RoundTo(x, step) == n as real * step
  {
    q := x / step;
    n := Twice(q);
    ExactRatio(x, step);
  }

  lemma Cancel(a: real, b: real, step: Decimal)
    requires step != 0.0
    ensures a * step == b * step <==> a == b
  {
  }

  // ---------------------------------------------------------------- the theorems on rounding

  predicate IsInt(q: real, k: int) { q == k as real }

  lemma GridInUnits(x: Decimal, step: Decimal, q: real, r: Decimal, n: int)
    requires step != 0.0 && x == q * step && r == n as real * step
    requires forall k: int :: IsInt(q, k) ==> n == k
    ensures OnGrid(r, step) && (r == x <==> OnGrid(x, step))
  {
    assert Multiple(r, n, step);
    Cancel(n as real, q, step);
    if OnGrid(x, step) {
      var k: int :| Multiple(x, k, step);
      Cancel(q, k as real, step);
      assert IsInt(q, k);
    }
  }

  /** The result is a multiple of the step, and the multiples are exactly the numbers that
      rounding leaves alone: the 16-place division never moves one, nor settles on a number
      that is none. */
  lemma FixedIffOnGrid(x: Decimal, step: Decimal)
    ensures OnGrid(RoundTo(x, step), step)
    ensures RoundTo(x, step) == x <==> OnGrid(x, step)
  {
    if step != 0.0 {
      var q, n := InUnits(x, step);
      forall k: int | IsInt(q, k) ensures n == k {
        TwiceOfInt(k);
      }
      GridInUnits(x, step, q, RoundTo(x, step), n);
    }
  }

  lemma RoundingIsIdempotent(x: Decimal, step: Decimal)
    ensures RoundTo(RoundTo(x, step), step) == RoundTo(x, step)
  {
    FixedIffOnGrid(x, step);
    FixedIffOnGrid(RoundTo(x, step), step);
  }

  lemma OppositeUnits(x: Decimal, step: Decimal)
    requires step != 0.0
    ensures -x / step == -(x / step)
  {
  }

  lemma OppositeProducts(n: int, m: int, r: Decimal, s: Decimal, step: Decimal)
    requires r == n as real * step && s == m as real * step && m == -n
    ensures s == -r
  {
  }

  lemma RoundingIsOdd(x: Decimal, step: Decimal)
    ensures RoundTo(-x, step) == -RoundTo(x, step)
  {
    if step != 0.0 {
      var q, n := InUnits(x, step);
      var p, m := InUnits(-x, step);
      OppositeUnits(x, step);
      TwiceIsOdd(q);
      OppositeProducts(n, m, RoundTo(x, step), RoundTo(-x, step), step);
    }
  }

  lemma OrderedUnits(x: Decimal, y: Decimal, step: Decimal)
    requires x <= y && step > 0.0
    ensures x / step <= y / step
  {
  }

  lemma OrderedProducts(m: int, n: int, r: Decimal, s: Decimal, step: Decimal)
    requires r == m as real * step && s == n as real * step && m <= n && step >= 0.0
    ensures r <= s
  {
  }

  lemma RoundingIsMonotone(x: Decimal, y: Decimal, step: Decimal)
    requires x <= y && step >= 0.0
    ensures RoundTo(x, step) <= RoundTo(y, step)
  {
    if step > 0.0 {
      var p, m := InUnits(x, step);
      var q, n := InUnits(y, step);
      OrderedUnits(x, y, step);
      TwiceMonotone(p, q);
      OrderedProducts(m, n, RoundTo(x, step), RoundTo(y, step), step);
    }
  }

  /** A distance in units, scaled by the step, against another. */
  lemma DistanceScales(x: Decimal, step: Decimal, q: real, r: Decimal, n: real, d: real, e: real, w: real)
    requires x == q * step && r == n * step && d == Abs(n - q) && w == Abs(step)
    ensures d <= e ==> Abs(r - x) <= e * w
    ensures d >= e ==> Abs(r - x) >= e * w
    ensures d < e && w > 0.0 ==> Abs(r - x) < e * w
  {
  }

  /** However small the step, the error is at most half a step and half a unit of the 16th
      decimal place of one step. */
  lemma RoundingError(x: Decimal, step: Decimal)
    requires step != 0.0
    ensures Abs(RoundTo(x, step) - x) <= 0.50000000000000005 * Abs(step)
  {
    var q, n := UnitsWithinError(x, step);
    WithinBound(x, step, q, RoundTo(x, step), n, MAX_ERROR, Abs(step));
  }

  lemma UnitsWithinError(x: Decimal, step: Decimal) returns (q: real, n: real)
    requires step != 0.0
    ensures x == q * step && RoundTo(x, step) == n * step && Abs(n - q) <= MAX_ERROR
  {
    var ratio, units := InUnits(x, step);
    TwiceError(ratio);
    q, n := ratio, units as real;
  }

  lemma WithinBound(x: Decimal, step: Decimal, q: real, r: Decimal, n: real, e: real, w: real)
    requires x == q * step && r == n * step && Abs(n - q) <= e && w == Abs(step)
    ensures Abs(r - x) <= e * w
  {
  }

  lemma UnitsOf(q: real, step: Decimal)
    requires step != 0.0
    ensures q * step / step == q
  {
  }

  /** The bound is met: no smaller one holds for any step. */
  lemma RoundingErrorIsMet(step: Decimal) returns (x: Decimal)
    requires step != 0.0
    ensures Abs(RoundTo(x, step) - x) == 0.50000000000000005 * Abs(step)
  {
    var q := 0.5 - 0.5 / SCALE;
    x := q * step;
    UnitsOf(q, step);
    var p, n := InUnits(x, step);
    TwiceByFraction(q);
    DistanceScales(x, step, q, RoundTo(x, step), n as real, Abs(n as real - q), MAX_ERROR, Abs(step));
  }

  function Distance(q: real, k: int): real { Abs(k as real - q) }

  /** Nearness to x on the grid is nearness to the ratio among the integers. */
  lemma NearestInUnits(x: Decimal, step: Decimal, q: real, r: Decimal, n: int)
    requires step != 0.0 && x == q * step && r == n as real * step
    ensures NearestOnGrid(r, x, step) <==> forall k: int :: Distance(q, n) <= Distance(q, k)
  {
    assert Multiple(r, n, step);
    if forall k: int :: Distance(q, n) <= Distance(q, k) {
      forall y: Decimal | OnGrid(y, step) ensures Abs(r - x) <= Abs(y - x) {
        var k: int :| Multiple(y, k, step);
        Closer(x, step, q, n, k);
      }
    } else {
      var k: int :| Distance(q, k) < Distance(q, n);
      var y := k as real * step;
      assert Multiple(y, k, step) && OnGrid(y, step);
      Closer(x, step, q, k, n);
    }
  }

  lemma Closer(x: Decimal, step: Decimal, q: real, n: int, k: int)
    requires step != 0.0 && x == q * step
    ensures Distance(q, n) <= Distance(q, k) ==> Abs(n as real * step - x) <= Abs(k as real * step - x)
    ensures Distance(q, n) < Distance(q, k) ==> Abs(n as real * step - x) < Abs(k as real * step - x)
  {
    var e, w := Distance(q, k), Abs(step);
    DistanceScales(x, step, q, k as real * step, k as real, e, e, w);
    DistanceScales(x, step, q, n as real * step, n as real, Distance(q, n), e, w);
  }

  lemma NearestInteger(q: real, k: int)
    ensures Distance(q, HalfAway(q)) <= Distance(q, k)
  {
    HalfAwayBasics(q);
    if k != HalfAway(q) {
      assert k <= HalfAway(q) - 1 || k >= HalfAway(q) + 1;
    }
  }

  /** The result is a nearest multiple of the step if and only if the ratio of the number to
      the step does not lie just below a half-integer. */
  lemma NearestIff(x: Decimal, step: Decimal)
    requires step != 0.0
    ensures NearestOnGrid(RoundTo(x, step), x, step) <==> !JustBelowHalf(x / step)
  {
    var q, n := InUnits(x, step);
    NearestInUnits(x, step, q, RoundTo(x, step), n);
    TwiceIsOnceIff(q);
    if JustBelowHalf(q) {
      assert Distance(q, HalfAway(q)) < Distance(q, n);
    } else {
      forall k: int ensures Distance(q, n) <= Distance(q, k) {
        NearestInteger(q, k);
      }
    }
  }

  /** "Round to nearest tick" fails on a price of 0.499999999999999999 with a tick of 1. */
  lemma NotAlwaysNearest()
    ensures RoundTo(0.499999999999999999, 1.0) == 1.0
    ensures !NearestOnGrid(RoundTo(0.499999999999999999, 1.0), 0.499999999999999999, 1.0)
  {
    var x := 0.499999999999999999;
    assert x / 1.0 == x;
    TwiceByFraction(x);
    NearestIff(x, 1.0);
    var q, n := InUnits(x, 1.0);
  }

  lemma OfRatio(q: real, step: Decimal)
    requires step != 0.0
    ensures RoundTo(q * step, step) == Twice(q) as real * step
  {
    UnitsOf(q, step);
    var p, n := InUnits(q * step, step);
  }

  /** A figure of q steps, not negative, is rounded down to whole steps if the rest is below
      0.49999999999999995 of a step, and up otherwise. */
  lemma RoundedByFraction(q: real, step: Decimal)
    requires step != 0.0 && q >= 0.0
    ensures var rest := q - q.Floor as real;
            RoundTo(q * step, step) == (if rest < 0.49999999999999995 then q.Floor else q.Floor + 1) as real * step
  {
    TwiceByFraction(q);
    OfRatio(q, step);
  }

  /** The sixteenth place counts and the seventeenth does not. */
  lemma LastPlaceThatCounts()
    ensures RoundTo(0.4999999999999999, 1.0) == 0.0
    ensures RoundTo(0.49999999999999995, 1.0) == 1.0
  {
    var q, r := 0.4999999999999999, 0.49999999999999995;
    assert q.Floor == 0 && r.Floor == 0;
    RoundedByFraction(q, 1.0);
    RoundedByFraction(r, 1.0);
    assert q * 1.0 == q && r * 1.0 == r;
  }

  // ---------------------------------------------------------------- validation

  /** The market's rules, each in terms of exact multiples and products. */
  ghost predicate Breaks(m: Market, orderType: OrderType, price: Decimal, qty: Decimal, e: MarketError) {
    var limited := orderType.Limit? || orderType.StopLimit?;
    match e
    case MarketInactive => !m.status.Active?
    case OrderSizeTooSmall => qty < m.minOrderSize
    case OrderSizeTooLarge => m.maxOrderSize < qty
    case InvalidPrice => limited && price <= 0.0
    case PricePrecision => limited && !OnGrid(price, m.tickSize)
    case NotionalTooSmall => limited && price * qty < m.minNotional
    case QuantityPrecision => !OnGrid(qty, m.lotSize)
  }

  /** The order in which the rules are reported. */
  function Rank(e: MarketError): nat {
    match e
    case MarketInactive => 0
    case OrderSizeTooSmall => 1
    case OrderSizeTooLarge => 2
    case InvalidPrice => 3
    case PricePrecision => 4
    case NotionalTooSmall => 5
    case QuantityPrecision => 6
  }

  /** An order is refused with the first rule that it breaks. */
  lemma RefusedWithFirstBroken(
    m: Market, side: OrderSide, orderType: OrderType, price: Decimal, qty: Decimal, e: MarketError)
    ensures m.ValidateOrder(side, orderType, price, qty) == Refused(e) <==>
            Breaks(m, orderType, price, qty, e)
            && forall e' :: Rank(e') < Rank(e) ==> !Breaks(m, orderType, price, qty, e')
  {
    FixedIffOnGrid(price, m.tickSize);
    FixedIffOnGrid(qty, m.lotSize);
    var v := m.ValidateOrder(side, orderType, price, qty);
    if v.Refused? {
      assert Breaks(m, orderType, price, qty, v.error);
      assert forall e' :: Rank(e') < Rank(v.error) ==> !Breaks(m, orderType, price, qty, e');
      assert Rank(e) == Rank(v.error) ==> e == v.error;
    }
  }

  /** A limit or stop-limit order is accepted if and only if the market is active, the
      quantity is within bounds, the price is positive, price and quantity are exact
      multiples of tick and lot, and the notional reaches the minimum. */
  lemma LimitAcceptedIff(m: Market, side: OrderSide, orderType: OrderType, price: Decimal, qty: Decimal)
    requires orderType.Limit? || orderType.StopLimit?
    ensures m.ValidateOrder(side, orderType, price, qty).Accepted? <==>
            && m.status.Active?
            && m.minOrderSize <= qty <= m.maxOrderSize
            && price > 0.0
            && OnGrid(price, m.tickSize) && OnGrid(qty, m.lotSize)
            && price * qty >= m.minNotional
  {
    FixedIffOnGrid(price, m.tickSize);
    FixedIffOnGrid(qty, m.lotSize);
  }

  /** Other orders are not asked for a price at all. */
  lemma OtherAcceptedIff(m: Market, side: OrderSide, orderType: OrderType, price: Decimal, qty: Decimal)
    requires orderType.MarketOrder? || orderType.Stop?
    ensures m.ValidateOrder(side, orderType, price, qty).Accepted? <==>
            m.status.Active? && m.minOrderSize <= qty <= m.maxOrderSize && OnGrid(qty, m.lotSize)
  {
    FixedIffOnGrid(qty, m.lotSize);
  }

  /** An order made of rounded figures is never refused for its precision. */
  lemma RoundedFiguresArePrecise(m: Market, side: OrderSide, orderType: OrderType, price: Decimal, qty: Decimal)
    ensures var v := m.ValidateOrder(side, orderType, m.RoundPrice(price), m.RoundQuantity(qty));
            v != Refused(PricePrecision) && v != Refused(QuantityPrecision)
  {
    RoundingIsIdempotent(price, m.tickSize);
    RoundingIsIdempotent(qty, m.lotSize);
  }
}
