/**
 The SuperTrend indicator as functions of a candle list, over exact reals: true range, average
 true range in both modes, ratcheting bands, trend and flip.
 */
module Indicator {
  import opened Wrappers
  import opened RunnerModel

  datatype Candle = Candle(time: int, open: real, high: real, low: real, close: real, volume: int)

  /** A feed item: a candle, or something the cleaning filter drops. */
  datatype Raw = Malformed | Ohlc(candle: Candle)

  /** Indicator settings after sanitising: period at least 1, wilder selects the smoothing. */
  datatype Settings = Settings(period: int, multiplier: real, wilder: bool)

  predicate ValidSettings(g: Settings) {
    g.period >= 1
  }

  function Sanitised(period: int, multiplier: real, wilder: bool): Settings {
    Settings(Max(1, period), if multiplier < 0.1 then 0.1 else multiplier, wilder)
  }

  function Clean(raw: seq<Raw>): seq<Candle> {
    if raw == [] then []
    else
      var last := raw[|raw| - 1];
      Clean(raw[..|raw| - 1]) + (if last.Ohlc? then [last.candle] else [])
  }

  function TrueRange(cs: seq<Candle>, i: nat): real
    requires i < |cs|
  {
    var c := cs[i];
    if i == 0 then c.high - c.low
    else
      var prev := cs[i - 1].close;
      MaxReal(MaxReal(c.high - c.low, AbsReal(c.high - prev)), AbsReal(c.low - prev))
  }

  function TrueRanges(cs: seq<Candle>): seq<real> {
    seq(|cs|, i requires 0 <= i < |cs| => TrueRange(cs, i))
  }

  /** tr[a] + ... + tr[b-1] */
  function RangeSum(tr: seq<real>, a: nat, b: nat): real
    requires a <= b <= |tr|
  {
    if a == b then 0.0 else RangeSum(tr, a, b - 1) + tr[b - 1]
  }

  /** One step of Wilder's smoothing. */
  function Smooth(prev: real, t: real, period: int): real
    requires period >= 1
  {
    (prev * (period - 1) as real + t) / period as real
  }

  function Atr(tr: seq<real>, period: int, wilder: bool, i: nat): real
    requires 1 <= period <= i + 1 <= |tr|
  {
    if !wilder || i == period - 1 then RangeSum(tr, i + 1 - period, i + 1) / period as real
    else Smooth(Atr(tr, period, wilder, i - 1), tr[i], period)
  }

  datatype Bands = Bands(upper: real, lower: real, trend: int)

  function BasicUpper(c: Candle, atr: real, multiplier: real): real {
    (c.high + c.low) / 2.0 + multiplier * atr
  }

  function BasicLower(c: Candle, atr: real, multiplier: real): real {
    (c.high + c.low) / 2.0 - multiplier * atr
  }

  function NextTrend(prev: Bands, close: real): int {
    if prev.trend == -1 && close > prev.upper then 1
    else if prev.trend == 1 && close < prev.lower then -1
    else prev.trend
  }

  /** One bar of the ratchet, as the engine computes it. */
  function NextBands(prev: Bands, prevClose: real, upper: real, lower: real, close: real): Bands {
    Bands(
      if upper < prev.upper || prevClose > prev.upper then upper else prev.upper,
      if lower > prev.lower || prevClose < prev.lower then lower else prev.lower,
      NextTrend(prev, close))
  }

  function FirstBands(upper: real, lower: real, close: real): Bands {
    Bands(upper, lower, if close >= lower then 1 else -1)
  }

  predicate HasBands(cs: seq<Candle>, g: Settings, i: int) {
    ValidSettings(g) && g.period - 1 <= i < |cs|
  }

  function AtrAt(cs: seq<Candle>, g: Settings, i: nat): real
    requires HasBands(cs, g, i)
  {
    Atr(TrueRanges(cs), g.period, g.wilder, i)
  }

  function UpperAt(cs: seq<Candle>, g: Settings, i: nat): real
    requires HasBands(cs, g, i)
  {
    BasicUpper(cs[i], AtrAt(cs, g, i), g.multiplier)
  }

  function LowerAt(cs: seq<Candle>, g: Settings, i: nat): real
    requires HasBands(cs, g, i)
  {
    BasicLower(cs[i], AtrAt(cs, g, i), g.multiplier)
  }

  function BandsAt(cs: seq<Candle>, g: Settings, i: nat): Bands
    requires HasBands(cs, g, i)
    decreases i
  {
    if i == g.period - 1 then FirstBands(UpperAt(cs, g, i), LowerAt(cs, g, i), cs[i].close)
    else NextBands(BandsAt(cs, g, i - 1), cs[i - 1].close, UpperAt(cs, g, i), LowerAt(cs, g, i), cs[i].close)
  }

  /** One entry of the enriched series; bars before the first average carry zeros. */
  datatype Plot = Plot(candle: Candle, atr: real, bands: Bands)

  function PlotAt(cs: seq<Candle>, g: Settings, i: nat): Plot
    requires ValidSettings(g) && i < |cs|
  {
    if i < g.period - 1 then Plot(cs[i], 0.0, Bands(0.0, 0.0, 0))
    else Plot(cs[i], AtrAt(cs, g, i), BandsAt(cs, g, i))
  }

  function Plots(cs: seq<Candle>, g: Settings): seq<Plot>
    requires ValidSettings(g)
  {
    seq(|cs|, i requires 0 <= i < |cs| => PlotAt(cs, g, i))
  }

  datatype Reading =
    | Insufficient(count: nat)
    | Reading(trend: int, prevTrend: int, flip: Option<Direction>, time: int, series: seq<Plot>)

  function FlipOf(prevTrend: int, trend: int): Option<Direction> {
    if trend == 1 && prevTrend == -1 then Some(Bullish)
    else if trend == -1 && prevTrend == 1 then Some(Bearish)
    else None
  }

  predicate Enough(cs: seq<Candle>, g: Settings) {
    ValidSettings(g) && |cs| >= g.period + 1
  }

  function Read(cs: seq<Candle>, g: Settings): Reading
    requires ValidSettings(g)
  {
    if !Enough(cs, g) then Insufficient(|cs|)
    else
      var n := |cs|;
      var trend, prev := BandsAt(cs, g, n - 1).trend, BandsAt(cs, g, n - 2).trend;
      Reading(trend, prev, FlipOf(prev, trend), cs[n - 1].time, Plots(cs, g))
  }

  function SuperTrend(raw: seq<Raw>, period: int, multiplier: real, wilder: bool): Reading {
    Read(Clean(raw), Sanitised(period, multiplier, wilder))
  }

  // ---------------------------------------------------------------- settings and short feeds

  /** Settings are sanitised from below only: the period to one, the multiplier to a tenth. */
  lemma SettingsAreSane(period: int, multiplier: real, wilder: bool)
    ensures var g := Sanitised(period, multiplier, wilder);
      && g.wilder == wilder && g.period >= 1 && g.multiplier >= 0.1
      && (g.period != period <==> period < 1) && (g.period != period ==> g.period == 1)
      && (g.multiplier != multiplier <==> multiplier < 0.1) && (g.multiplier != multiplier ==> g.multiplier == 0.1)
  {
  }

  /** A feed is too short exactly when it holds fewer clean candles than the period and one more. */
  lemma InsufficientIff(raw: seq<Raw>, period: int, multiplier: real, wilder: bool)
    requires period >= 1
    ensures SuperTrend(raw, period, multiplier, wilder).Insufficient? <==> |Clean(raw)| <= period
    ensures |Clean(raw)| <= period ==> SuperTrend(raw, period, multiplier, wilder).count == |Clean(raw)|
    ensures |Clean(raw)| > period ==>
      SuperTrend(raw, period, multiplier, wilder).time == Clean(raw)[|Clean(raw)| - 1].time
  {
  }

  /** The series carries zeros before the first average and the values of its bar from then on. */
  lemma SeriesStartsAtFirstAverage(cs: seq<Candle>, g: Settings, i: nat)
    requires ValidSettings(g) && i < |cs|
    ensures var p := Plots(cs, g)[i];
      && p.candle == cs[i]
      && (i + 1 < g.period ==> p.atr == 0.0 && p.bands == Bands(0.0, 0.0, 0))
      && (i + 1 >= g.period ==> p.atr == AtrAt(cs, g, i) && p.bands == BandsAt(cs, g, i))
  {
  }

  // ---------------------------------------------------------------- causality

  predicate AgreeUpTo(cs: seq<Candle>, ds: seq<Candle>, k: nat) {
    k <= |cs| && k <= |ds| && cs[..k] == ds[..k]
  }

  lemma SameTrueRange(cs: seq<Candle>, ds: seq<Candle>, k: nat, i: nat)
    requires AgreeUpTo(cs, ds, k) && i < k
    ensures TrueRange(cs, i) == TrueRange(ds, i) && cs[i] == ds[i]
  {
    assert cs[..k][i] == ds[..k][i];
    if i > 0 {
      assert cs[..k][i - 1] == ds[..k][i - 1];
    }
  }

  lemma {:induction false} SameRangeSum(tr: seq<real>, ur: seq<real>, a: nat, b: nat)
    requires a <= b <= |tr| && b <= |ur|
    requires forall j :: a <= j < b ==> tr[j] == ur[j]
    ensures RangeSum(tr, a, b) == RangeSum(ur, a, b)
    decreases b
  {
    if a < b {
      SameRangeSum(tr, ur, a, b - 1);
    }
  }

  lemma {:induction false} SameAtr(tr: seq<real>, ur: seq<real>, period: int, wilder: bool, i: nat)
    requires 1 <= period <= i + 1 <= |tr| && i < |ur|
    requires forall j :: 0 <= j <= i ==> tr[j] == ur[j]
    ensures Atr(tr, period, wilder, i) == Atr(ur, period, wilder, i)
  {
    if !wilder || i == period - 1 {
      SameRangeSum(tr, ur, i + 1 - period, i + 1);
    } else {
      SameAtr(tr, ur, period, wilder, i - 1);
    }
  }

  lemma AtrIsCausal(cs: seq<Candle>, ds: seq<Candle>, g: Settings, k: nat, i: nat)
    requires AgreeUpTo(cs, ds, k) && i < k && HasBands(cs, g, i)
    ensures AtrAt(cs, g, i) == AtrAt(ds, g, i) && cs[i] == ds[i]
  {
    hide Atr, TrueRange;
    forall j | 0 <= j <= i ensures TrueRanges(cs)[j] == TrueRanges(ds)[j] && cs[j] == ds[j] {
      SameTrueRange(cs, ds, k, j);
    }
    SameAtr(TrueRanges(cs), TrueRanges(ds), g.period, g.wilder, i);
  }

  /** Bands at bar i depend on the candles up to i only. */
  lemma {:induction false} BandsAreCausal(cs: seq<Candle>, ds: seq<Candle>, g: Settings, k: nat, i: nat)
    requires AgreeUpTo(cs, ds, k) && i < k && HasBands(cs, g, i)
    ensures AtrAt(cs, g, i) == AtrAt(ds, g, i)
    ensures BandsAt(cs, g, i) == BandsAt(ds, g, i)
    decreases i
  {
    hide AtrAt, NextBands, FirstBands, BasicUpper, BasicLower;
    AtrIsCausal(cs, ds, g, k, i);
    if i > g.period - 1 {
      AtrIsCausal(cs, ds, g, k, i - 1);
      BandsAreCausal(cs, ds, g, k, i - 1);
    }
  }

  lemma PlotsAreCausal(cs: seq<Candle>, ds: seq<Candle>, g: Settings, k: nat)
    requires AgreeUpTo(cs, ds, k) && ValidSettings(g)
    ensures Plots(cs, g)[..k] == Plots(ds, g)[..k]
  {
    forall i | 0 <= i < k ensures Plots(cs, g)[i] == Plots(ds, g)[i] {
      SameTrueRange(cs, ds, k, i);
      if i >= g.period - 1 {
        BandsAreCausal(cs, ds, g, k, i);
      }
    }
  }

  lemma {:induction false} CleanIsMonotone(raw: seq<Raw>, k: nat)
    requires k <= |raw|
    ensures Clean(raw[..k]) <= Clean(raw)
  {
    if k == |raw| {
      assert raw[..k] == raw;
    } else {
      var init := raw[..|raw| - 1];
      CleanIsMonotone(init, k);
      assert init[..k] == raw[..k];
    }
  }

  /**
   Non-repainting: on any feed, in both averaging modes and through the cleaning filter, what was
   computed on a prefix is the beginning of what is computed on the whole.
   */
  lemma NonRepainting(raw: seq<Raw>, k: nat, period: int, multiplier: real, wilder: bool)
    requires k <= |raw|
    requires SuperTrend(raw[..k], period, multiplier, wilder).Reading?
    ensures var whole := SuperTrend(raw, period, multiplier, wilder);
      whole.Reading? && SuperTrend(raw[..k], period, multiplier, wilder).series <= whole.series
  {
    CleanIsMonotone(raw, k);
    var cs, ds := Clean(raw[..k]), Clean(raw);
    assert AgreeUpTo(cs, ds, |cs|);
    var g := Sanitised(period, multiplier, wilder);
    PlotsAreCausal(cs, ds, g, |cs|);
    assert Plots(cs, g)[..|cs|] == Plots(cs, g);
  }

  // ---------------------------------------------------------------- trend and flip

  lemma {:induction false} TrendIsUpOrDown(cs: seq<Candle>, g: Settings, i: nat)
    requires HasBands(cs, g, i)
    ensures BandsAt(cs, g, i).trend == 1 || BandsAt(cs, g, i).trend == -1
    decreases i
  {
    if i > g.period - 1 {
      TrendIsUpOrDown(cs, g, i - 1);
    }
  }

  /** A flip is reported exactly when the last two trends differ, and names the new one. */
  lemma FlipIffTrendChanges(cs: seq<Candle>, g: Settings)
    requires Enough(cs, g)
    ensures var r := Read(cs, g);
      && r.trend == BandsAt(cs, g, |cs| - 1).trend && r.prevTrend == BandsAt(cs, g, |cs| - 2).trend
      && (r.flip.Some? <==> r.trend != r.prevTrend)
      && (r.flip.Some? ==> Signed(r.flip.value, 1) == r.trend)
  {
    TrendIsUpOrDown(cs, g, |cs| - 1);
    TrendIsUpOrDown(cs, g, |cs| - 2);
  }

  lemma TrueRangeOfFirst(cs: seq<Candle>)
    requires cs != []
    ensures TrueRange(cs, 0) == cs[0].high - cs[0].low
  {
  }

  /**
   The seed, read from the candles: at the first bar with an average both modes take the mean of
   the true ranges so far, the bands stand the multiplier times that above and below the middle of
   the bar, and the trend is up exactly when the close is not below the lower one.
   */
  lemma SeedFromCandles(cs: seq<Candle>, g: Settings)
    requires HasBands(cs, g, g.period - 1)
    ensures var i := g.period - 1;
      var middle := (cs[i].high + cs[i].low) / 2.0;
      var reach := g.multiplier * (RangeSum(TrueRanges(cs), 0, g.period) / g.period as real);
      && BandsAt(cs, g, i).upper == middle + reach && BandsAt(cs, g, i).lower == middle - reach
      && BandsAt(cs, g, i).trend == (if cs[i].close >= middle - reach then 1 else -1)
  {
    var i, tr := g.period - 1, TrueRanges(cs);
    assert AtrAt(cs, g, i) == RangeSum(tr, 0, g.period) / g.period as real;
    hide AtrAt, RangeSum, TrueRanges;
  }

  /** The close leaves the bands of the bar before upwards, or downwards. */
  predicate BreaksUp(cs: seq<Candle>, g: Settings, i: nat)
    requires i < |cs| && HasBands(cs, g, i - 1)
  {
    cs[i].close > BandsAt(cs, g, i - 1).upper
  }

  predicate BreaksDown(cs: seq<Candle>, g: Settings, i: nat)
    requires i < |cs| && HasBands(cs, g, i - 1)
  {
    cs[i].close < BandsAt(cs, g, i - 1).lower
  }

  /** One bar: a break decides the trend; one through crossed bands, in both senses, turns it. */
  lemma OneBarTrend(cs: seq<Candle>, g: Settings, i: nat)
    requires i < |cs| && HasBands(cs, g, i - 1)
    ensures var before, after := BandsAt(cs, g, i - 1).trend, BandsAt(cs, g, i).trend;
      after == (if BreaksUp(cs, g, i) && BreaksDown(cs, g, i) then -before
               else if BreaksUp(cs, g, i) then 1
               else if BreaksDown(cs, g, i) then -1
               else before)
  {
    TrendIsUpOrDown(cs, g, i - 1);
  }

  /**
   The trend of any bar: up exactly when the last break so far was upwards, or there was no break
   downwards at all and the seed close was not below its lower band.  It holds on every series
   whose closes never lie beyond both bands at once, as they cannot while the bands are in order.
   */
  lemma {:induction false} TrendIsLastBreak(cs: seq<Candle>, g: Settings, e: nat)
    requires HasBands(cs, g, e)
    requires forall i :: g.period <= i <= e ==> !(BreaksUp(cs, g, i) && BreaksDown(cs, g, i))
    ensures BandsAt(cs, g, e).trend == 1
      <==> ((exists j :: g.period <= j <= e && BreaksUp(cs, g, j) && forall i :: j < i <= e ==> !BreaksDown(cs, g, i))
            || (BandsAt(cs, g, g.period - 1).trend == 1 && forall i :: g.period <= i <= e ==> !BreaksDown(cs, g, i)))
    decreases e
  {
    hide BandsAt, BreaksUp, BreaksDown;
    TrendIsUpOrDown(cs, g, e);
    if e >= g.period {
      TrendIsLastBreak(cs, g, e - 1);
      OneBarTrend(cs, g, e);
    }
  }

  /** Bands in order are not left on both sides at once. */
  lemma OrderedBandsBreakOnce(cs: seq<Candle>, g: Settings, i: nat)
    requires i < |cs| && HasBands(cs, g, i - 1) && BandsAt(cs, g, i - 1).lower <= BandsAt(cs, g, i - 1).upper
    ensures !(BreaksUp(cs, g, i) && BreaksDown(cs, g, i))
  {
  }

  /** A stretch of one trend, read from the closes: up as long as no close falls below the band before. */
  lemma {:induction false} UpTrendLastsIff(cs: seq<Candle>, g: Settings, s: nat, e: nat)
    requires HasBands(cs, g, s) && s <= e < |cs|
    ensures (forall i :: s <= i <= e ==> BandsAt(cs, g, i).trend == 1)
      <==> (BandsAt(cs, g, s).trend == 1 && forall i :: s < i <= e ==> cs[i].close >= BandsAt(cs, g, i - 1).lower)
    decreases e
  {
    hide BandsAt;
    if s < e {
      UpTrendLastsIff(cs, g, s, e - 1);
      NextTrendFacts(cs, g, e);
    }
  }

  /** The dual for a down trend and the upper band. */
  lemma {:induction false} DownTrendLastsIff(cs: seq<Candle>, g: Settings, s: nat, e: nat)
    requires HasBands(cs, g, s) && s <= e < |cs|
    ensures (forall i :: s <= i <= e ==> BandsAt(cs, g, i).trend == -1)
      <==> (BandsAt(cs, g, s).trend == -1 && forall i :: s < i <= e ==> cs[i].close <= BandsAt(cs, g, i - 1).upper)
    decreases e
  {
    hide BandsAt;
    if s < e {
      DownTrendLastsIff(cs, g, s, e - 1);
      NextTrendFacts(cs, g, e);
    }
  }

  lemma NextTrendFacts(cs: seq<Candle>, g: Settings, i: nat)
    requires HasBands(cs, g, i) && i > g.period - 1
    ensures var prev, b := BandsAt(cs, g, i - 1), BandsAt(cs, g, i);
      && (prev.trend == 1 ==> (b.trend == 1 <==> cs[i].close >= prev.lower))
      && (prev.trend == -1 ==> (b.trend == -1 <==> cs[i].close <= prev.upper))
  {
    TrendIsUpOrDown(cs, g, i - 1);
  }

  /** The bands can cross on a gap, and from bands in order they cross exactly on these bars. */
  lemma BandsCrossIff(prev: Bands, prevClose: real, upper: real, lower: real, close: real)
    requires prev.lower <= prev.upper && lower <= upper
    ensures var b := NextBands(prev, prevClose, upper, lower, close);
      var gapUp, gapDown := lower > prev.upper && prevClose <= prev.upper, upper < prev.lower && prevClose >= prev.lower;
      b.lower > b.upper <==> gapUp || gapDown
  {
  }

  /** The true range is the span of the bar together with the previous close. */
  lemma TrueRangeIsSpan(cs: seq<Candle>, i: nat)
    requires 0 < i < |cs| && cs[i].low <= cs[i].high
    ensures var top := MaxReal(cs[i].high, cs[i - 1].close);
      var bottom := -MaxReal(-cs[i].low, -cs[i - 1].close);
      TrueRange(cs, i) == top - bottom >= 0.0
  {
  }

  // ---------------------------------------------------------------- Wilder's average

  function Times(n: nat, x: real): real {
    if n == 0 then 0.0 else Times(n - 1, x) + x
  }

  lemma {:induction false} TimesIsProduct(n: nat, x: real)
    ensures Times(n, x) == n as real * x
  {
    if n > 0 {
      TimesIsProduct(n - 1, x);
      OneMore((n - 1) as real, x);
    }
  }

  lemma {:induction false} RangeSumBounds(tr: seq<real>, a: nat, b: nat, lo: real, hi: real)
    requires a <= b <= |tr|
    requires forall j :: a <= j < b ==> lo <= tr[j] <= hi
    ensures Times(b - a, lo) <= RangeSum(tr, a, b) <= Times(b - a, hi)
    decreases b
  {
    if a < b {
      RangeSumBounds(tr, a, b - 1, lo, hi);
    }
  }

  lemma OneMore(m: real, x: real)
    ensures (m + 1.0) * x == m * x + x
  {
  }

  lemma MeanBounds(sum: real, n: real, lo: real, hi: real)
    requires n > 0.0 && n * lo <= sum <= n * hi
    ensures lo <= sum / n <= hi
  {
    var q := sum / n;
    assert q * n == sum;
    if q < lo {
      MulLess(q, lo, n);
    }
    if q > hi {
      MulLess(hi, q, n);
    }
  }

  lemma MulLess(a: real, b: real, n: real)
    requires a < b && n > 0.0
    ensures a * n < b * n
  {
  }

  lemma SmoothedBounds(a: real, t: real, period: int, lo: real, hi: real)
    requires period >= 1 && lo <= a <= hi && lo <= t <= hi
    ensures lo <= Smooth(a, t, period) <= hi
  {
    var m := (period - 1) as real;
    assert period as real == m + 1.0;
    WeightedBounds(a, m, t, lo, hi);
    MeanBounds(a * m + t, m + 1.0, lo, hi);
  }

  /** In both modes the average lies between the extremes of the true ranges so far. */
  lemma {:induction false} AtrWithinExtremes(tr: seq<real>, period: int, wilder: bool, i: nat, lo: real, hi: real)
    requires 1 <= period <= i + 1 <= |tr|
    requires forall j :: 0 <= j <= i ==> lo <= tr[j] <= hi
    ensures lo <= Atr(tr, period, wilder, i) <= hi
  {
    if !wilder || i == period - 1 {
      RangeSumBounds(tr, i + 1 - period, i + 1, lo, hi);
      TimesIsProduct(period, lo);
      TimesIsProduct(period, hi);
      MeanBounds(RangeSum(tr, i + 1 - period, i + 1), period as real, lo, hi);
    } else {
      AtrWithinExtremes(tr, period, wilder, i - 1, lo, hi);
      SmoothedBounds(Atr(tr, period, wilder, i - 1), tr[i], period, lo, hi);
    }
  }

  /**
   In both modes the basic bands stand around the middle of the bar, at a distance between the
   multiplier times the smallest and times the largest true range so far; they never cross as
   long as true ranges are not negative.
   */
  lemma BandDistanceFollowsRanges(cs: seq<Candle>, g: Settings, i: nat, lo: real, hi: real)
    requires HasBands(cs, g, i) && g.multiplier > 0.0
    requires forall j :: 0 <= j <= i ==> lo <= TrueRange(cs, j) <= hi
    ensures var middle := (cs[i].high + cs[i].low) / 2.0;
      && middle + g.multiplier * lo <= UpperAt(cs, g, i) <= middle + g.multiplier * hi
      && middle - g.multiplier * hi <= LowerAt(cs, g, i) <= middle - g.multiplier * lo
    ensures lo >= 0.0 ==> LowerAt(cs, g, i) <= UpperAt(cs, g, i)
  {
    hide Atr, TrueRange;
    AtrWithinExtremes(TrueRanges(cs), g.period, g.wilder, i, lo, hi);
    var a, m := AtrAt(cs, g, i), g.multiplier;
    var middle := (cs[i].high + cs[i].low) / 2.0;
    assert lo <= a <= hi;
    assert UpperAt(cs, g, i) == middle + m * a && LowerAt(cs, g, i) == middle - m * a;
    hide AtrAt, UpperAt, LowerAt, TrueRanges;
    MulLeq(lo, a, m);
    MulLeq(a, hi, m);
    MulLeq(0.0, lo, m);
  }

  lemma MulLeq(a: real, b: real, n: real)
    requires n >= 0.0
    ensures a <= b ==> n * a <= n * b
  {
  }

  lemma WeightedBounds(a: real, m: real, t: real, lo: real, hi: real)
    requires m >= 0.0 && lo <= a <= hi && lo <= t <= hi
    ensures (m + 1.0) * lo <= a * m + t <= (m + 1.0) * hi
  {
    assert a * m >= lo * m && a * m <= hi * m;
  }

  function Pow(r: real, k: nat): real {
    if k == 0 then 1.0 else r * Pow(r, k - 1)
  }

  /** The share of the previous average that one smoothing step keeps. */
  function Keep(period: int): real
    requires period >= 1
  {
    (period - 1) as real / period as real
  }

  lemma SmoothingContracts(x: real, y: real, t: real, period: int)
    requires period >= 1
    ensures Smooth(x, t, period) - Smooth(y, t, period) == Keep(period) * (x - y)
  {
    var n := period as real;
    var u, v, r := Smooth(x, t, period), Smooth(y, t, period), Keep(period);
    assert (period - 1) as real == n - 1.0;
    assert u * n == x * (n - 1.0) + t;
    assert v * n == y * (n - 1.0) + t;
    assert r * n == n - 1.0;
    assert (u - v) * n == (n - 1.0) * (x - y);
    assert (r * (x - y)) * n == (r * n) * (x - y);
  }

  lemma OneMorePower(r: real, k: nat, x: real)
    ensures Pow(r, 0) * x == x && r * (Pow(r, k) * x) == Pow(r, k + 1) * x
  {
    assert r * (Pow(r, k) * x) == (r * Pow(r, k)) * x;
  }

  /** Difference of two Wilder averages, at bar i of one series and bar j of the other. */
  function AtrGap(a: seq<real>, b: seq<real>, period: int, i: nat, j: nat): real
    requires 1 <= period <= i + 1 <= |a| && period <= j + 1 <= |b|
  {
    Atr(a, period, true, i) - Atr(b, period, true, j)
  }

  lemma AtrGapStep(a: seq<real>, b: seq<real>, period: int, i: nat, j: nat)
    requires 1 <= period <= i < |a| && period <= j < |b| && a[i] == b[j]
    ensures AtrGap(a, b, period, i, j) == Keep(period) * AtrGap(a, b, period, i - 1, j - 1)
  {
    SmoothingContracts(Atr(a, period, true, i - 1), Atr(b, period, true, j - 1), a[i], period);
  }

  /**
   Forgetting: two series that share the true ranges after bars i and j differ k bars later by
   exactly their difference there times ((p-1)/p)^k.  The windows need not start together.
   */
  lemma {:induction false} WilderForgets(a: seq<real>, b: seq<real>, period: int, i: nat, j: nat, k: nat)
    requires 1 <= period <= i + 1 && period <= j + 1
    requires i + k < |a| && j + k < |b|
    requires forall t :: i < t <= i + k ==> a[t] == b[t - i + j]
    ensures AtrGap(a, b, period, i + k, j + k) == Pow(Keep(period), k) * AtrGap(a, b, period, i, j)
  {
    hide AtrGap, Keep, Pow;
    if k == 0 {
      OneMorePower(Keep(period), 0, AtrGap(a, b, period, i, j));
    } else {
      WilderForgets(a, b, period, i, j, k - 1);
      AtrGapStep(a, b, period, i + k, j + k);
      OneMorePower(Keep(period), k - 1, AtrGap(a, b, period, i, j));
    }
  }

  lemma {:induction false} PowOfShare(r: real, k: nat)
    requires 0.0 <= r <= 1.0
    ensures 0.0 <= Pow(r, k) <= 1.0
  {
    if k > 0 {
      PowOfShare(r, k - 1);
      Shrink(r, Pow(r, k - 1));
    }
  }

  lemma Shrink(r: real, x: real)
    requires 0.0 <= r <= 1.0 && x >= 0.0
    ensures 0.0 <= r * x <= x
  {
  }

  lemma ShrinkAbs(r: real, x: real, y: real)
    requires 0.0 <= r <= 1.0 && y == r * x
    ensures AbsReal(y) <= AbsReal(x)
  {
    if x >= 0.0 {
      Shrink(r, x);
    } else {
      Shrink(r, -x);
    }
  }

  /** The effect of a different start window never grows. */
  lemma WindowEffectShrinks(a: seq<real>, b: seq<real>, period: int, i: nat, j: nat, k: nat)
    requires 1 <= period <= i + 1 && period <= j + 1
    requires i + k < |a| && j + k < |b|
    requires forall t :: i < t <= i + k ==> a[t] == b[t - i + j]
    ensures AbsReal(AtrGap(a, b, period, i + k, j + k)) <= AbsReal(AtrGap(a, b, period, i, j))
  {
    WilderForgets(a, b, period, i, j, k);
    var r, gap := Keep(period), AtrGap(a, b, period, i, j);
    MeanBounds((period - 1) as real, period as real, 0.0, 1.0);
    assert 0.0 <= r <= 1.0;
    hide AtrGap, Keep;
    PowOfShare(r, k);
    ShrinkAbs(Pow(r, k), gap, AtrGap(a, b, period, i + k, j + k));
  }

  // ---------------------------------------------------------------- bands in closed form

  /** One bar: a band tightens with the basic one, and starts afresh after a close beyond it. */
  lemma OneBarRatchet(cs: seq<Candle>, g: Settings, i: nat)
    requires i < |cs| && HasBands(cs, g, i - 1)
    ensures var prev, b, close := BandsAt(cs, g, i - 1), BandsAt(cs, g, i), cs[i - 1].close;
      && b.lower == (if close < prev.lower then LowerAt(cs, g, i) else MaxReal(prev.lower, LowerAt(cs, g, i)))
      && b.upper == (if close > prev.upper then UpperAt(cs, g, i) else -MaxReal(-prev.upper, -UpperAt(cs, g, i)))
  {
    hide UpperAt, LowerAt;
  }

  /**
   While every close stays on or above the lower band, the band is the greatest of its start
   and of all basic lower bands since.
   */
  lemma {:induction false} LowerBandIsRunningMax(cs: seq<Candle>, g: Settings, s: nat, e: nat)
    requires HasBands(cs, g, s) && s <= e < |cs|
    requires forall i :: s <= i < e ==> cs[i].close >= BandsAt(cs, g, i).lower
    ensures BandsAt(cs, g, e).lower >= BandsAt(cs, g, s).lower
    ensures forall j :: s < j <= e ==> BandsAt(cs, g, e).lower >= LowerAt(cs, g, j)
    ensures BandsAt(cs, g, e).lower == BandsAt(cs, g, s).lower
      || exists j :: s < j <= e && BandsAt(cs, g, e).lower == LowerAt(cs, g, j)
    decreases e
  {
    hide BandsAt, LowerAt;
    if s < e {
      LowerBandIsRunningMax(cs, g, s, e - 1);
      OneBarRatchet(cs, g, e);
    }
  }

  /** The dual: while every close stays on or below the upper band it is the least so far. */
  lemma {:induction false} UpperBandIsRunningMin(cs: seq<Candle>, g: Settings, s: nat, e: nat)
    requires HasBands(cs, g, s) && s <= e < |cs|
    requires forall i :: s <= i < e ==> cs[i].close <= BandsAt(cs, g, i).upper
    ensures BandsAt(cs, g, e).upper <= BandsAt(cs, g, s).upper
    ensures forall j :: s < j <= e ==> BandsAt(cs, g, e).upper <= UpperAt(cs, g, j)
    ensures BandsAt(cs, g, e).upper == BandsAt(cs, g, s).upper
      || exists j :: s < j <= e && BandsAt(cs, g, e).upper == UpperAt(cs, g, j)
    decreases e
  {
    hide BandsAt, UpperAt;
    if s < e {
      UpperBandIsRunningMin(cs, g, s, e - 1);
      OneBarRatchet(cs, g, e);
    }
  }

  // ---------------------------------------------------------------- parity with the Pine script

  /** One bar of the ratchet in the reference script. */
  function PineBands(prev: Bands, prevClose: real, upper: real, lower: real, close: real): Bands {
    Bands(
      if prevClose < prev.upper && prev.upper < upper then prev.upper else upper,
      if prevClose > prev.lower && prev.lower > lower then prev.lower else lower,
      NextTrend(prev, close))
  }

  function PineAt(cs: seq<Candle>, g: Settings, i: nat): Bands
    requires HasBands(cs, g, i)
    decreases i
  {
    if i == g.period - 1 then FirstBands(UpperAt(cs, g, i), LowerAt(cs, g, i), cs[i].close)
    else PineBands(PineAt(cs, g, i - 1), cs[i - 1].close, UpperAt(cs, g, i), LowerAt(cs, g, i), cs[i].close)
  }

  /** The close sits exactly on a band and the next basic band is looser. */
  predicate LooseTie(cs: seq<Candle>, g: Settings, i: nat)
    requires HasBands(cs, g, i - 1) && i < |cs|
  {
    var prev, close := BandsAt(cs, g, i - 1), cs[i - 1].close;
    || (close == prev.lower && LowerAt(cs, g, i) < prev.lower)
    || (close == prev.upper && UpperAt(cs, g, i) > prev.upper)
  }

  lemma OneBarParity(prev: Bands, prevClose: real, upper: real, lower: real, close: real)
    ensures NextBands(prev, prevClose, upper, lower, close) == PineBands(prev, prevClose, upper, lower, close)
      <==> !((prevClose == prev.lower && lower < prev.lower) || (prevClose == prev.upper && upper > prev.upper))
  {
  }

  /** The engine and the reference script agree on bar i. */
  predicate Parity(cs: seq<Candle>, g: Settings, i: nat)
    requires HasBands(cs, g, i)
  {
    BandsAt(cs, g, i) == PineAt(cs, g, i)
  }

  lemma ParityStep(cs: seq<Candle>, g: Settings, i: nat)
    requires HasBands(cs, g, i) && i >= g.period && Parity(cs, g, i - 1)
    ensures Parity(cs, g, i) <==> !LooseTie(cs, g, i)
  {
    OneBarParity(BandsAt(cs, g, i - 1), cs[i - 1].close, UpperAt(cs, g, i), LowerAt(cs, g, i), cs[i].close);
  }

  lemma {:induction false} NoTieGivesParity(cs: seq<Candle>, g: Settings, e: nat)
    requires HasBands(cs, g, e)
    requires forall i :: g.period <= i <= e ==> !LooseTie(cs, g, i)
    ensures Parity(cs, g, e)
    decreases e
  {
    if e > g.period - 1 {
      NoTieGivesParity(cs, g, e - 1);
      ParityStep(cs, g, e);
    }
  }

  /**
   Bands and trend equal the reference recursion from the same seed on a whole series if and
   only if no close sits exactly on a band that the next basic band would loosen.
   */
  lemma PineParityIff(cs: seq<Candle>, g: Settings, e: nat)
    requires HasBands(cs, g, e)
    ensures (forall i :: g.period - 1 <= i <= e ==> Parity(cs, g, i))
      <==> (forall i :: g.period <= i <= e ==> !LooseTie(cs, g, i))
  {
    if forall i :: g.period <= i <= e ==> !LooseTie(cs, g, i) {
      forall i | g.period - 1 <= i <= e ensures Parity(cs, g, i) {
        NoTieGivesParity(cs, g, i);
      }
    }
    if forall i :: g.period - 1 <= i <= e ==> Parity(cs, g, i) {
      forall i | g.period <= i <= e ensures !LooseTie(cs, g, i) {
        ParityStep(cs, g, i);
      }
    }
  }

  function TieBars(): seq<Candle> {
    [Candle(0, 10.0, 12.0, 8.0, 8.0, 0), Candle(1, 8.0, 9.0, 5.0, 8.0, 0), Candle(2, 8.0, 8.0, 6.0, 6.0, 0)]
  }

  lemma TieAverages(i: nat)
    requires i < 2
    ensures AtrAt(TieBars(), Settings(1, 0.5, true), i) == 4.0
  {
    var tr := TrueRanges(TieBars());
    assert tr[0] == 4.0 && tr[1] == 4.0;
    assert RangeSum(tr, 0, 1) == RangeSum(tr, 0, 0) + tr[0];
    assert Atr(tr, 1, true, 0) == 4.0 / 1.0;
    assert Smooth(4.0, 4.0, 1) == 4.0;
  }

  /**
   A close on the lower band and a looser band next: the engine keeps the band at 8, the script
   loosens it to 5, and a close at 6 then flips the trend of the engine only.
   */
  lemma TieWitness()
    ensures var cs, g := TieBars(), Settings(1, 0.5, true);
      LooseTie(cs, g, 1) && BandsAt(cs, g, 2).trend == -1 && PineAt(cs, g, 2).trend == 1
  {
    var cs, g := TieBars(), Settings(1, 0.5, true);
    TieAverages(0);
    TieAverages(1);
    assert UpperAt(cs, g, 0) == 12.0 && LowerAt(cs, g, 0) == 8.0;
    assert UpperAt(cs, g, 1) == 9.0 && LowerAt(cs, g, 1) == 5.0;
    hide UpperAt, LowerAt, AtrAt;
    assert BandsAt(cs, g, 0) == PineAt(cs, g, 0) == Bands(12.0, 8.0, 1);
    assert BandsAt(cs, g, 1) == Bands(9.0, 8.0, 1) && PineAt(cs, g, 1) == Bands(9.0, 5.0, 1);
  }
}
