/**
 The indicator as it is computed: arrays filled bar by bar, and the live chart whose last bar
 follows the ticks.
 */
module SuperTrend {
  import opened Wrappers
  import opened RunnerModel
  import opened Indicator

  method CleanCandles(raw: seq<Raw>) returns (cs: seq<Candle>)
    ensures cs == Clean(raw)
  {
    cs := [];
    for i := 0 to |raw|
      invariant cs == Clean(raw[..i])
    {
      assert raw[..i + 1][..i] == raw[..i];
      if raw[i].Ohlc? {
        cs := cs + [raw[i].candle];
      }
    }
    assert raw[..|raw|] == raw;
  }

  method ComputeTrueRanges(cs: seq<Candle>) returns (tr: seq<real>)
    ensures tr == TrueRanges(cs)
  {
    tr := [];
    for i := 0 to |cs|
      invariant |tr| == i
      invariant forall j :: 0 <= j < i ==> tr[j] == TrueRange(cs, j)
    {
      var high, low := cs[i].high, cs[i].low;
      var t := high - low;
      if i > 0 {
        var prevClose := cs[i - 1].close;
        t := MaxReal(MaxReal(high - low, AbsReal(high - prevClose)), AbsReal(low - prevClose));
      }
      tr := tr + [t];
    }
  }

  /** Wilder's smoothing: the mean of the first ranges, then one step per bar. */
  method FillWilder(tr: seq<real>, period: int, atr: array<real>)
    requires 1 <= period <= |tr| == atr.Length
    modifies atr
    ensures forall i :: 0 <= i < period - 1 ==> atr[i] == old(atr[i])
    ensures forall i :: period - 1 <= i < |tr| ==> atr[i] == Atr(tr, period, true, i)
  {
    atr[period - 1] := RangeSum(tr, 0, period) / period as real;
    hide RangeSum, Smooth;
    for i := period to |tr|
      invariant forall j :: 0 <= j < period - 1 ==> atr[j] == old(atr[j])
      invariant forall j :: period - 1 <= j < i ==> atr[j] == Atr(tr, period, true, j)
    {
      atr[i] := Smooth(atr[i - 1], tr[i], period);
    }
  }

  /** The simple moving average. */
  method FillSimple(tr: seq<real>, period: int, atr: array<real>)
    requires 1 <= period <= |tr| == atr.Length
    modifies atr
    ensures forall i :: 0 <= i < period - 1 ==> atr[i] == old(atr[i])
    ensures forall i :: period - 1 <= i < |tr| ==> atr[i] == Atr(tr, period, false, i)
  {
    hide RangeSum;
    for i := period - 1 to |tr|
      invariant forall j :: 0 <= j < period - 1 ==> atr[j] == old(atr[j])
      invariant forall j :: period - 1 <= j < i ==> atr[j] == Atr(tr, period, false, j)
    {
      atr[i] := RangeSum(tr, i - period + 1, i + 1) / period as real;
    }
  }

  /** Bands and trend of one bar from those of the bar before. */
  method Ratchet(prev: Bands, prevClose: real, basicUb: real, basicLb: real, close: real) returns (b: Bands)
    ensures b == NextBands(prev, prevClose, basicUb, basicLb, close)
  {
    var ub, lb, trend := prev.upper, prev.lower, prev.trend;
    if basicUb < prev.upper || prevClose > prev.upper {
      ub := basicUb;
    }
    if basicLb > prev.lower || prevClose < prev.lower {
      lb := basicLb;
    }
    if prev.trend == -1 && close > prev.upper {
      trend := 1;
    } else if prev.trend == 1 && close < prev.lower {
      trend := -1;
    }
    b := Bands(ub, lb, trend);
  }

  /** Fills the two ratcheting bands and the trend from bar period-1 on. */
  method FillBands(cs: seq<Candle>, g: Settings, atr: array<real>, ub: array<real>, lb: array<real>, trend: array<int>)
    requires HasBands(cs, g, |cs| - 1)
    requires atr.Length == ub.Length == lb.Length == trend.Length == |cs|
    requires ub != lb && atr != ub && atr != lb
    requires forall i :: g.period - 1 <= i < |cs| ==> atr[i] == AtrAt(cs, g, i)
    requires forall i :: 0 <= i < |cs| ==> ub[i] == 0.0 && lb[i] == 0.0 && trend[i] == 0
    modifies ub, lb, trend
    ensures forall i :: 0 <= i < g.period - 1 ==> Bands(ub[i], lb[i], trend[i]) == Bands(0.0, 0.0, 0)
    ensures forall i :: g.period - 1 <= i < |cs| ==> Bands(ub[i], lb[i], trend[i]) == BandsAt(cs, g, i)
  {
    hide AtrAt, BasicUpper, BasicLower, NextBands;
    for i := g.period - 1 to |cs|
      invariant forall j :: 0 <= j < g.period - 1 ==> Bands(ub[j], lb[j], trend[j]) == Bands(0.0, 0.0, 0)
      invariant forall j :: g.period - 1 <= j < i ==> Bands(ub[j], lb[j], trend[j]) == BandsAt(cs, g, j)
    {
      var basicUb := BasicUpper(cs[i], atr[i], g.multiplier);
      var basicLb := BasicLower(cs[i], atr[i], g.multiplier);
      var b;
      if i == g.period - 1 {
        b := Bands(basicUb, basicLb, if cs[i].close >= basicLb then 1 else -1);
      } else {
        b := Ratchet(Bands(ub[i - 1], lb[i - 1], trend[i - 1]), cs[i - 1].close, basicUb, basicLb, cs[i].close);
      }
      assert b == BandsAt(cs, g, i);
      ub[i], lb[i], trend[i] := b.upper, b.lower, b.trend;
    }
  }

  method CalculateSuperTrend(raw: seq<Raw>, atrPeriod: int, multiplier: real, changeAtr: bool) returns (r: Reading)
    ensures r == SuperTrend(raw, atrPeriod, multiplier, changeAtr)
  {
    hide BandsAt, Clean;
    var g := Sanitised(atrPeriod, multiplier, changeAtr);
    var cs := CleanCandles(raw);
    var n := |cs|;
    if n < g.period + 1 {
      return Insufficient(n);
    }
    var tr := ComputeTrueRanges(cs);
    var atr := new real[n](_ => 0.0);
    if g.wilder {
      FillWilder(tr, g.period, atr);
    } else {
      FillSimple(tr, g.period, atr);
    }
    var ub := new real[n](_ => 0.0);
    var lb := new real[n](_ => 0.0);
    var trend := new int[n](_ => 0);
    FillBands(cs, g, atr, ub, lb, trend);
    var series := seq(n, i requires 0 <= i < n reads atr, ub, lb, trend => Plot(cs[i], atr[i], Bands(ub[i], lb[i], trend[i])));
    assert series == Plots(cs, g);
    var current, previous := trend[n - 1], trend[n - 2];
    assert Bands(ub[n - 1], lb[n - 1], current) == BandsAt(cs, g, n - 1);
    assert Bands(ub[n - 2], lb[n - 2], previous) == BandsAt(cs, g, n - 2);
    r := Reading(current, previous, FlipOf(previous, current), cs[n - 1].time, series);
  }

  // ---------------------------------------------------------------- live ticks

  function TickBar(c: Candle, ltp: real): Candle {
    c.(close := ltp,
       high := if ltp > c.high then ltp else c.high,
       low := if ltp < c.low then ltp else c.low)
  }

  /** A positive price moves the last bar; a series too short for the indicator stays as it is. */
  function Ticked(cs: seq<Candle>, g: Settings, ltp: real): seq<Candle> {
    if ltp <= 0.0 || cs == [] || !Enough(cs, g) then cs
    else cs[..|cs| - 1] + [TickBar(cs[|cs| - 1], ltp)]
  }

  function AfterTicks(cs: seq<Candle>, g: Settings, ticks: seq<real>): seq<Candle>
    decreases |ticks|
  {
    if ticks == [] then cs else AfterTicks(Ticked(cs, g, ticks[0]), g, ticks[1..])
  }

  class LiveChart {
    const period: int
    const multiplier: real
    var cached: seq<Candle>
    var lastClose: real
    var formingTrend: int
    var upper: real
    var lower: real

    constructor (period: int, multiplier: real, candles: seq<Candle>)
      ensures cached == candles && this.period == period && this.multiplier == multiplier
    {
      this.period, this.multiplier, cached := period, multiplier, candles;
      lastClose, formingTrend, upper, lower := 0.0, 0, 0.0, 0.0;
    }

    method UpdateLiveTick(ltp: real)
      modifies this
      ensures cached == Ticked(old(cached), Sanitised(period, multiplier, true), ltp)
      ensures lastClose == if ltp > 0.0 then ltp else old(lastClose)
      ensures var g := Sanitised(period, multiplier, true);
        ltp > 0.0 && Enough(cached, g) ==>
          Bands(upper, lower, formingTrend) == BandsAt(cached, g, |cached| - 1)
    {
      hide BandsAt, AtrAt, Clean;
      if ltp <= 0.0 {
        return;
      }
      lastClose := ltp;
      if cached == [] {
        return;
      }
      var n := |cached|;
      var live := cached[..n - 1] + [TickBar(cached[n - 1], ltp)];
      var raw := seq(n, i requires 0 <= i < n => Ohlc(live[i]));
      AllCandlesAreClean(live, raw);
      var r := CalculateSuperTrend(raw, period, multiplier, true);
      if r.Reading? {
        cached := live;
        formingTrend, upper, lower := r.trend, r.series[n - 1].bands.upper, r.series[n - 1].bands.lower;
      }
    }
  }

  lemma {:induction false} AllCandlesAreClean(cs: seq<Candle>, raw: seq<Raw>)
    requires |raw| == |cs|
    requires forall i :: 0 <= i < |cs| ==> raw[i] == Ohlc(cs[i])
    ensures Clean(raw) == cs
  {
    if cs != [] {
      AllCandlesAreClean(cs[..|cs| - 1], raw[..|raw| - 1]);
    }
  }

  /**
   Any sequence of ticks changes only the last bar: its high and low become the running extremes,
   its close the last positive price.
   */
  lemma {:induction false} TicksMoveOnlyTheLastBar(cs: seq<Candle>, g: Settings, ticks: seq<real>)
    requires Enough(cs, g)
    ensures var ds := AfterTicks(cs, g, ticks);
      && |ds| == |cs| && ds[..|cs| - 1] == cs[..|cs| - 1]
      && ds[|cs| - 1].time == cs[|cs| - 1].time && ds[|cs| - 1].open == cs[|cs| - 1].open
    ensures var before, after := cs[|cs| - 1], AfterTicks(cs, g, ticks)[|cs| - 1];
      && after.high >= before.high && after.low <= before.low
      && (forall t :: t in ticks && t > 0.0 ==> after.low <= t <= after.high)
      && (after.high == before.high || after.high in ticks)
      && (after.low == before.low || after.low in ticks)
      && (ticks != [] && ticks[|ticks| - 1] > 0.0 ==> after.close == ticks[|ticks| - 1])
    decreases |ticks|
  {
    if ticks != [] {
      var ds := Ticked(cs, g, ticks[0]);
      TicksMoveOnlyTheLastBar(ds, g, ticks[1..]);
      assert forall t :: t in ticks <==> t == ticks[0] || t in ticks[1..];
      if |ticks| > 1 {
        assert ticks[1..][|ticks| - 2] == ticks[|ticks| - 1];
      }
    }
  }

  /** Prices that are not positive are no ticks: they leave the chart as it was. */
  lemma {:induction false} NoPriceNoTick(cs: seq<Candle>, g: Settings, ticks: seq<real>)
    requires forall i :: 0 <= i < |ticks| ==> ticks[i] <= 0.0
    ensures AfterTicks(cs, g, ticks) == cs
    decreases |ticks|
  {
    if ticks != [] {
      NoPriceNoTick(cs, g, ticks[1..]);
    }
  }

  /** A chart with too few bars for the indicator is left as it was, whatever the ticks. */
  lemma {:induction false} ShortChartIsFrozen(cs: seq<Candle>, g: Settings, ticks: seq<real>)
    requires !Enough(cs, g)
    ensures AfterTicks(cs, g, ticks) == cs
    decreases |ticks|
  {
    if ticks != [] {
      ShortChartIsFrozen(cs, g, ticks[1..]);
    }
  }

  /** Live ticks never repaint: everything plotted before the last bar stays. */
  lemma TicksDoNotRepaint(cs: seq<Candle>, g: Settings, ticks: seq<real>)
    requires Enough(cs, g)
    ensures var ds := AfterTicks(cs, g, ticks);
      |ds| == |cs| && Plots(ds, g)[..|cs| - 1] == Plots(cs, g)[..|cs| - 1]
  {
    TicksMoveOnlyTheLastBar(cs, g, ticks);
    PlotsAreCausal(cs, AfterTicks(cs, g, ticks), g, |cs| - 1);
  }
}
