/**
 Rounding a limit price to the exchange's tick, over exact reals.
 */
module TickSize {
  import opened Wrappers

  datatype Side = Buy | Sell

  function Ceiling(x: real): int {
    -((-x).Floor)
  }

  /** Rounds half to even, as `round` and `quantize` do. */
  function RoundHalfEven(x: real): int {
    var f := x.Floor;
    var d := x - f as real;
    if d < 0.5 then f else if d > 0.5 then f + 1 else if f % 2 == 0 then f else f + 1
  }

  /** `round(price, 6)` */
  function Micro(p: real): real {
    RoundHalfEven(p * 1000000.0) as real / 1000000.0
  }

  function UsableTick(tick: real): real {
    if tick <= 0.0 then 0.05 else tick
  }

  /** Whole ticks of a price already rounded to six digits; at least one. */
  function Ticks(p: real, t: real, side: Side): int
    requires t > 0.0
  {
    var n := if side.Buy? then Ceiling(p / t) else (p / t).Floor;
    if n < 1 then 1 else n
  }

  /** The n-th price of the tick grid. */
  function Grid(n: int, t: real): real {
    n as real * t
  }

  function Snap(n: int, t: real): real {
    if t >= 1.0 then RoundHalfEven(Grid(n, t)) as real else Grid(n, t)
  }

  /**
   `apply_tick_size`: zero for a price that is not positive; otherwise up for a BUY and down for
   a SELL, and a result in whole units when the tick is one or more.
   */
  function ApplyTickSize(price: real, tick: real, side: Side): real {
    if price <= 0.0 then 0.0
    else Snap(Ticks(Micro(price), UsableTick(tick), side), UsableTick(tick))
  }

  predicate Whole(x: real) {
    x == x.Floor as real
  }

  ghost predicate TickMultiple(x: real, t: real) {
    exists n: int :: n >= 1 && x == Grid(n, t)
  }

  // ---------------------------------------------------------------- rounding

  lemma WholeRoundsToItself(n: int)
    ensures RoundHalfEven(n as real) == n
  {
  }

  lemma RoundIsMonotone(x: real, y: real)
    requires x <= y
    ensures RoundHalfEven(x) <= RoundHalfEven(y)
  {
  }

  lemma RoundIsNear(x: real)
    ensures x - 0.5 <= RoundHalfEven(x) as real <= x + 0.5
  {
  }

  /** Halfway between two integers it goes to the even one. */
  lemma TiesGoToEven(n: int)
    ensures RoundHalfEven(n as real + 0.5) % 2 == 0
    ensures RoundHalfEven(n as real + 0.5) in {n, n + 1}
  {
    assert (n as real + 0.5).Floor == n;
  }

  /** A tick that is no positive number counts as five hundredths. */
  lemma MissingTick(price: real, tick: real, side: Side)
    requires tick <= 0.0
    ensures ApplyTickSize(price, tick, side) == ApplyTickSize(price, 0.05, side)
  {
  }

  lemma MicroIsMonotone(x: real, y: real)
    requires x <= y
    ensures Micro(x) <= Micro(y)
  {
    RoundIsMonotone(x * 1000000.0, y * 1000000.0);
  }

  /** The value has at most six decimal digits. */
  predicate SixDigits(x: real) {
    Whole(x * 1000000.0)
  }

  lemma MicroKeepsSixDigits(x: real)
    requires SixDigits(x)
    ensures Micro(x) == x
  {
    WholeRoundsToItself((x * 1000000.0).Floor);
  }

  lemma GridHasSixDigits(n: int, t: real)
    requires SixDigits(t)
    ensures SixDigits(Grid(n, t))
  {
    var m := (t * 1000000.0).Floor;
    assert Grid(n, t) * 1000000.0 == n as real * (t * 1000000.0) == (n * m) as real;
  }

  // ---------------------------------------------------------------- ticks

  lemma GridOrder(m: int, n: int, t: real)
    requires t > 0.0
    ensures m < n ==> Grid(m, t) < Grid(n, t)
    ensures Grid(n + 1, t) == Grid(n, t) + t
    ensures Grid(0, t) == 0.0 && Grid(1, t) == t && Grid(2, t) == 2.0 * t
  {
    if m < n {
      assert (n - m) as real * t > 0.0;
    }
    assert (n + 1) as real * t == n as real * t + t;
  }

  lemma GridCompare(n: int, p: real, t: real)
    requires t > 0.0
    ensures n as real <= p / t <==> Grid(n, t) <= p
    ensures p / t <= n as real <==> p <= Grid(n, t)
  {
    var q := p / t;
    assert q * t == p;
    assert n as real < q ==> n as real * t < q * t;
    assert q < n as real ==> q * t < n as real * t;
  }

  /** Where the rounded price lies: BUY in [p, p + tick), SELL in (p - tick, p], or at one tick. */
  lemma TicksBracketPrice(p: real, t: real, side: Side)
    requires t > 0.0
    ensures var v := Grid(Ticks(p, t, side), t);
      match side
      case Buy => (p <= v && v < p + t) || (v == t && p <= 0.0)
      case Sell => (v <= p && p < v + t) || (v == t && p < t)
  {
    var n := if side.Buy? then Ceiling(p / t) else (p / t).Floor;
    GridCompare(n, p, t);
    GridCompare(n - 1, p, t);
    GridCompare(n + 1, p, t);
    GridCompare(0, p, t);
    GridCompare(1, p, t);
    GridOrder(n, 1, t);
    GridOrder(n - 1, n - 1, t);
    hide Grid;
  }

  lemma TicksAreMonotone(p: real, q: real, t: real, side: Side)
    requires t > 0.0 && p <= q
    ensures Ticks(p, t, side) <= Ticks(q, t, side)
  {
    var x, y := p / t, q / t;
    assert x * t == p && y * t == q;
    assert y < x ==> y * t < x * t;
  }

  // ---------------------------------------------------------------- the tick-multiple claim

  lemma SnapOnGrid(n: int, t: real)
    requires t > 0.0 && (t < 1.0 || Whole(t))
    ensures Snap(n, t) == Grid(n, t)
  {
    if t >= 1.0 {
      assert Grid(n, t) == (n * t.Floor) as real;
      WholeRoundsToItself(n * t.Floor);
    }
  }

  /** Rounding one tick that is at least one but not whole leaves the grid. */
  lemma FractionalTickLeavesGrid(t: real)
    requires t >= 1.0 && !Whole(t)
    ensures !TickMultiple(Snap(1, t), t)
  {
    GridOrder(1, 2, t);
    RoundIsNear(Grid(1, t));
    var v := Snap(1, t);
    forall k: int | k >= 1 ensures v != Grid(k, t) {
      if k > 2 {
        GridOrder(2, k, t);
      }
    }
  }

  /**
   Every number of ticks snaps to a positive multiple of the tick, if and only if the tick is a
   fraction below one or a whole number: a larger tick with a fraction is rounded off the grid.
   */
  lemma SnapIsMultipleIff(t: real)
    requires t > 0.0
    ensures (forall n: int :: n >= 1 ==> TickMultiple(Snap(n, t), t)) <==> (t < 1.0 || Whole(t))
  {
    if t < 1.0 || Whole(t) {
      forall n: int | n >= 1 ensures TickMultiple(Snap(n, t), t) {
        SnapOnGrid(n, t);
      }
    } else {
      FractionalTickLeavesGrid(t);
    }
  }

  /** The rounded price: a positive multiple on the right side of the price, within one tick. */
  lemma RoundedPriceIsTight(price: real, t: real, side: Side)
    requires price > 0.0 && t > 0.0 && (t < 1.0 || Whole(t))
    ensures var v, p := ApplyTickSize(price, t, side), Micro(price);
      && TickMultiple(v, t)
      && match side
         case Buy => (p <= v && v < p + t) || (v == t && p <= 0.0)
         case Sell => (v <= p && p < v + t) || (v == t && p < t)
  {
    hide Micro, Ticks, Snap, Grid;
    var n := Ticks(Micro(price), t, side);
    AtLeastOneTick(Micro(price), t, side);
    SnapOnGrid(n, t);
    TicksBracketPrice(Micro(price), t, side);
  }

  lemma AtLeastOneTick(p: real, t: real, side: Side)
    requires t > 0.0
    ensures Ticks(p, t, side) >= 1
  {
  }

  /** A higher price never rounds lower. */
  lemma RoundingIsMonotone(p: real, q: real, t: real, side: Side)
    requires 0.0 < p <= q && t > 0.0 && (t < 1.0 || Whole(t))
    ensures ApplyTickSize(p, t, side) <= ApplyTickSize(q, t, side)
  {
    hide Micro, Ticks, Snap, Grid;
    MicroIsMonotone(p, q);
    TicksAreMonotone(Micro(p), Micro(q), t, side);
    SnapOnGrid(Ticks(Micro(p), t, side), t);
    SnapOnGrid(Ticks(Micro(q), t, side), t);
    GridOrder(Ticks(Micro(p), t, side), Ticks(Micro(q), t, side), t);
  }

  /** A grid price is n ticks exactly when its six-digit value has not left the tick, to the harmful side. */
  lemma TicksStayIff(n: int, p: real, t: real, side: Side)
    requires t > 0.0 && n >= 1
    ensures Ticks(p, t, side) == n
      <==> match side
           case Buy => p <= Grid(n, t) && (n == 1 || Grid(n - 1, t) < p)
           case Sell => (n == 1 || Grid(n, t) <= p) && p < Grid(n + 1, t)
  {
    GridCompare(n, p, t);
    GridCompare(n - 1, p, t);
    GridCompare(n + 1, p, t);
  }

  /**
   Rounding a rounded price v again changes nothing if and only if its six-digit value is still
   on the harmless side of v, less than a tick away; at one tick only the far side matters.
   */
  lemma RoundingIsIdempotentIff(price: real, t: real, side: Side, again: Side)
    requires price > 0.0 && t > 0.0 && (t < 1.0 || Whole(t))
    ensures var v := ApplyTickSize(price, t, side);
      ApplyTickSize(v, t, again) == v
      <==> match again
           case Buy => Micro(v) <= v && (v == t || v - t < Micro(v))
           case Sell => (v == t || v <= Micro(v)) && Micro(v) < v + t
  {
    hide Micro, Ticks, Snap, Grid;
    var n := Ticks(Micro(price), t, side);
    AtLeastOneTick(Micro(price), t, side);
    SnapOnGrid(n, t);
    var v := Grid(n, t);
    GridOrder(0, n, t);
    GridOrder(1, n, t);
    GridOrder(n, n - 1, t);
    var m := Ticks(Micro(v), t, again);
    AtLeastOneTick(Micro(v), t, again);
    SnapOnGrid(m, t);
    GridOrder(m, n, t);
    GridOrder(n, m, t);
    TicksStayIff(n, Micro(v), t, again);
    assert Grid(n - 1, t) == v - t && Grid(n + 1, t) == v + t;
  }

  /** It always changes nothing, whichever the sides, for ticks of six digits. */
  lemma RoundingIsIdempotent(price: real, t: real, side: Side, again: Side)
    requires price > 0.0 && t > 0.0 && (t < 1.0 || Whole(t)) && SixDigits(t)
    ensures ApplyTickSize(ApplyTickSize(price, t, side), t, again) == ApplyTickSize(price, t, side)
  {
    hide Micro, Ticks, Snap, Grid;
    var n := Ticks(Micro(price), t, side);
    AtLeastOneTick(Micro(price), t, side);
    SnapOnGrid(n, t);
    GridHasSixDigits(n, t);
    MicroKeepsSixDigits(Grid(n, t));
    RoundingIsIdempotentIff(price, t, side, again);
  }

  // ---------------------------------------------------------------- marketable limit

  /** The limit price of an order: the base price moved by the larger of a percentage and five ticks. */
  function LimitPrice(base: real, pct: real, t: real, side: Side): real {
    var buffer := MaxReal(base * pct, t * 5.0);
    ApplyTickSize(if side.Buy? then base + buffer else base - buffer, t, side)
  }

  lemma IntegerIsWhole(n: int, x: real)
    requires x == n as real
    ensures Whole(x)
  {
  }

  lemma FiveMoreIntegers(a: int, b: int)
    ensures (a + 5 * b) as real == a as real + 5.0 * b as real
    ensures (a - 5 * b) as real == a as real - 5.0 * b as real
  {
  }

  lemma FiveMore(x: real, y: real)
    requires Whole(x) && Whole(y)
    ensures Whole(x + 5.0 * y) && Whole(x - 5.0 * y)
  {
    var a, b := x.Floor, y.Floor;
    assert x == a as real && y == b as real;
    hide Whole;
    FiveMoreIntegers(a, b);
    IntegerIsWhole(a + 5 * b, x + 5.0 * y);
    IntegerIsWhole(a - 5 * b, x - 5.0 * y);
  }

  lemma FiveTicksAway(base: real, t: real)
    requires SixDigits(base) && SixDigits(t)
    ensures SixDigits(base + t * 5.0) && SixDigits(base - t * 5.0)
  {
    var x, y := base * 1000000.0, t * 1000000.0;
    FiveMore(x, y);
    assert (base + t * 5.0) * 1000000.0 == x + 5.0 * y;
    assert (base - t * 5.0) * 1000000.0 == x - 5.0 * y;
    hide Whole;
  }

  lemma NotPositiveIsZero(price: real, t: real, side: Side)
    requires price <= 0.0
    ensures ApplyTickSize(price, t, side) == 0.0
  {
  }

  /** The same for any buffer of at least five ticks. */
  lemma BufferedBuy(base: real, buffer: real, t: real)
    requires base > 0.0 && t > 0.0 && (t < 1.0 || Whole(t))
    requires buffer >= t * 5.0
    ensures ApplyTickSize(base + buffer, t, Buy) >= Micro(base + t * 5.0)
  {
    hide ApplyTickSize, Micro, Whole;
    MicroIsMonotone(base + t * 5.0, base + buffer);
    RoundedPriceIsTight(base + buffer, t, Buy);
  }

  lemma BufferedSell(base: real, buffer: real, t: real)
    requires base > 0.0 && t > 0.0 && (t < 1.0 || Whole(t))
    requires buffer >= t * 5.0
    ensures var v := ApplyTickSize(base - buffer, t, Sell);
      && (base - buffer <= 0.0 <==> v == 0.0)
      && (0.0 < base - buffer && Micro(base - buffer) < t ==> v == t)
      && (0.0 < base - buffer && t <= Micro(base - buffer) ==> t <= v <= Micro(base - t * 5.0))
  {
    GridOrder(1, 1, t);
    hide Micro, Whole;
    MicroIsMonotone(base - buffer, base - t * 5.0);
    var price := base - buffer;
    if price <= 0.0 {
      NotPositiveIsZero(price, t, Sell);
    } else {
      AtLeastOneTick(Micro(price), t, Sell);
      SnapOnGrid(Ticks(Micro(price), t, Sell), t);
      GridOrder(1, Ticks(Micro(price), t, Sell), t);
      TicksBracketPrice(Micro(price), t, Sell);
      if Micro(price) < t {
        SmallSellIsOneTick(Micro(price), t);
      }
    }
  }

  /** A SELL price of at most one tick is raised or kept at one tick. */
  lemma SmallSellIsOneTick(p: real, t: real)
    requires t > 0.0 && p <= t
    ensures Ticks(p, t, Sell) == 1
  {
    GridCompare(2, p, t);
    GridOrder(1, 2, t);
  }

  /** Prices are rounded to six digits first, which moves them by at most half a unit of the last. */
  lemma MicroIsNear(p: real)
    ensures p - 0.0000005 <= Micro(p) <= p + 0.0000005
  {
    RoundIsNear(p * 1000000.0);
  }

  /**
   For any base and tick, a BUY limit is at least five ticks above the base, to six digits.  A SELL
   limit is zero exactly when the buffer swallows the price, one tick when less than a tick is
   left, and otherwise at least five ticks below the base, to six digits.
   */
  lemma LimitIsMarketable(base: real, pct: real, t: real)
    requires base > 0.0 && t > 0.0 && (t < 1.0 || Whole(t))
    ensures LimitPrice(base, pct, t, Buy) >= Micro(base + t * 5.0) >= base + t * 5.0 - 0.0000005
    ensures var v, left := LimitPrice(base, pct, t, Sell), base - MaxReal(base * pct, t * 5.0);
      && (v == 0.0 <==> left <= 0.0)
      && (0.0 < left && Micro(left) < t ==> v == t)
      && (0.0 < left && t <= Micro(left) ==> t <= v <= Micro(base - t * 5.0) <= base - t * 5.0 + 0.0000005)
  {
    MicroIsNear(base + t * 5.0);
    MicroIsNear(base - t * 5.0);
    hide ApplyTickSize, Micro, Whole;
    BufferedBuy(base, MaxReal(base * pct, t * 5.0), t);
    BufferedSell(base, MaxReal(base * pct, t * 5.0), t);
  }

  /** With a base and a tick of six digits these bounds are exact. */
  lemma SixDigitLimit(base: real, pct: real, t: real)
    requires base > 0.0 && t > 0.0 && (t < 1.0 || Whole(t))
    requires SixDigits(base) && SixDigits(t)
    ensures LimitPrice(base, pct, t, Buy) >= base + t * 5.0
    ensures var v, left := LimitPrice(base, pct, t, Sell), base - MaxReal(base * pct, t * 5.0);
      && (0.0 < left < t ==> v == t)
      && (left >= t ==> t <= v <= base - t * 5.0)
  {
    FiveTicksAway(base, t);
    MicroKeepsSixDigits(base + t * 5.0);
    MicroKeepsSixDigits(base - t * 5.0);
    MicroKeepsSixDigits(t);
    var left := base - MaxReal(base * pct, t * 5.0);
    hide SixDigits, ApplyTickSize, Micro, Whole;
    if left >= t {
      MicroIsMonotone(t, left);
    } else {
      MicroIsMonotone(left, t);
      SmallSell(base, pct, t);
    }
    LimitIsMarketable(base, pct, t);
  }

  /** A price of less than a tick whose six-digit value is a whole tick still becomes one tick. */
  lemma SmallSell(base: real, pct: real, t: real)
    requires base > 0.0 && t > 0.0 && (t < 1.0 || Whole(t))
    ensures var left := base - MaxReal(base * pct, t * 5.0);
      0.0 < left && Micro(left) <= t ==> LimitPrice(base, pct, t, Sell) == t
  {
    var left := base - MaxReal(base * pct, t * 5.0);
    if 0.0 < left && Micro(left) <= t {
      hide Micro, Whole;
      SmallSellIsOneTick(Micro(left), t);
      GridOrder(1, 1, t);
      SnapOnGrid(1, t);
    }
  }
}
