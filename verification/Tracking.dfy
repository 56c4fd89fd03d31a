/**
 The engine tracks the indicator: polling one growing series of closed bars, the runner's
 position is its quantity in the direction of the last closed bar's trend.
 */
module Tracking {
  import opened Wrappers
  import opened RunnerModel
  import opened RunnerLedger
  import opened RunnerSafety
  import opened RunnerLimits
  import opened Indicator

  /** One evaluation of the first `count` closed bars. */
  datatype Poll = Poll(count: nat, stale: bool, earlyCheck: bool)

  function FeedOf(r: Reading, stale: bool): Feed {
    match r
    case Insufficient(_) => Unavailable
    case Reading(_, _, flip, time, _) => Bar(time, flip, stale)
  }

  /** An evaluation with the market open and nothing in flight, always of the same contract. */
  function PollInput(cs: seq<Candle>, g: Settings, p: Poll, r: Contract): Input
    requires ValidSettings(g) && p.count <= |cs|
  {
    Input(false, Some(r), true, true, false, false, p.earlyCheck, true, FeedOf(Read(cs[..p.count], g), p.stale), true)
  }

  function PollOnce(cfg: Config, s: State, r: Contract, cs: seq<Candle>, g: Settings, p: Poll): State
    requires ValidSettings(g) && p.count <= |cs|
  {
    Cycle(cfg, s, PollInput(cs, g, p, r)).0
  }

  /** Bars close one at a time, and every closed bar is polled at least once. */
  predicate Growing(cs: seq<Candle>, g: Settings, polls: seq<Poll>) {
    && ValidSettings(g)
    && (forall i :: 0 <= i < |polls| ==> g.period + 1 <= polls[i].count <= |cs|)
    && (forall i :: 0 < i < |polls| ==> polls[i - 1].count <= polls[i].count <= polls[i - 1].count + 1)
  }

  predicate Chronological(cs: seq<Candle>) {
    && (forall i :: 0 <= i < |cs| ==> cs[i].time > 0)
    && (forall i, j :: 0 <= i < j < |cs| ==> cs[i].time < cs[j].time)
  }

  function Follow(cfg: Config, s: State, r: Contract, cs: seq<Candle>, g: Settings, polls: seq<Poll>): State
    requires Growing(cs, g, polls)
    decreases |polls|
  {
    if polls == [] then s
    else
      assert Growing(cs, g, polls[1..]) by { GrowingTail(cs, g, polls); }
      Follow(cfg, PollOnce(cfg, s, r, cs, g, polls[0]), r, cs, g, polls[1..])
  }

  lemma GrowingTail(cs: seq<Candle>, g: Settings, polls: seq<Poll>)
    requires Growing(cs, g, polls) && polls != []
    ensures Growing(cs, g, polls[1..])
  {
    forall i | 0 < i < |polls| - 1
      ensures polls[1..][i - 1].count <= polls[1..][i].count <= polls[1..][i - 1].count + 1
    {
      assert polls[1..][i - 1] == polls[i] && polls[1..][i] == polls[i + 1];
    }
  }

  /** Trend of bar i of the growing series. */
  function TrendAt(cs: seq<Candle>, g: Settings, i: nat): int
    requires HasBands(cs, g, i)
  {
    BandsAt(cs, g, i).trend
  }

  /** What a poll sees is the trend of the whole series at the last two closed bars. */
  lemma PollSeesTheSeries(cs: seq<Candle>, g: Settings, k: nat)
    requires ValidSettings(g) && g.period + 1 <= k <= |cs|
    ensures Read(cs[..k], g).Reading?
    ensures var r := Read(cs[..k], g);
      && r.time == cs[k - 1].time
      && (r.flip.Some? <==> TrendAt(cs, g, k - 1) != TrendAt(cs, g, k - 2))
      && (r.flip.Some? ==> Signed(r.flip.value, 1) == TrendAt(cs, g, k - 1))
      && (TrendAt(cs, g, k - 1) == 1 || TrendAt(cs, g, k - 1) == -1)
      && (TrendAt(cs, g, k - 2) == 1 || TrendAt(cs, g, k - 2) == -1)
  {
    hide BandsAt, Plots;
    var ds := cs[..k];
    assert ds[..k] == ds;
    BandsAreCausal(cs, ds, g, k, k - 1);
    BandsAreCausal(cs, ds, g, k, k - 2);
    FlipIffTrendChanges(ds, g);
    TrendIsUpOrDown(cs, g, k - 1);
    TrendIsUpOrDown(cs, g, k - 2);
  }

  /** quantity x trend */
  function Aligned(quantity: int, trend: int): int {
    if trend == 1 then quantity else -quantity
  }

  lemma AlignedIsProduct(quantity: int, trend: int)
    requires trend == 1 || trend == -1
    ensures Aligned(quantity, trend) == quantity * trend
  {
  }

  /** Nothing sent so far, or in line with this trend. */
  predicate InLine(cfg: Config, s: State, trend: int) {
    if s.sent == [] then s.position == 0 else s.position == Aligned(cfg.quantity, trend) && s.lastBar != 0
  }

  /** After a poll of the first k bars. */
  predicate Tracks(cfg: Config, s: State, r: Contract, cs: seq<Candle>, g: Settings, k: nat)
    requires ValidSettings(g) && g.period + 1 <= k <= |cs|
  {
    && s.enabled && s.active == Some(r)
    && InLine(cfg, s, TrendAt(cs, g, k - 1))
    && s.lastBar <= cs[k - 1].time
    && (TrendAt(cs, g, k - 1) != TrendAt(cs, g, k - 2) ==> s.lastBar == cs[k - 1].time)
  }

  /** Before the first poll of bar k - 1. */
  predicate Ready(cfg: Config, s: State, r: Contract, cs: seq<Candle>, g: Settings, k: nat)
    requires ValidSettings(g) && g.period + 1 <= k <= |cs|
  {
    && s.enabled && (s.active == Some(r) || (s.active.None? && s.position == 0))
    && InLine(cfg, s, TrendAt(cs, g, k - 2))
    && s.lastBar < cs[k - 1].time
  }

  /** A flip with every leg accepted lands on quantity x the new trend, having sent something. */
  lemma AcceptedFlipAligns(cfg: Config, s: State, r: Contract, d: Direction)
    requires cfg.quantity > 0 && AllAccepted(cfg.script)
    requires s.position == 0 || s.position == Signed(Opposite(d), cfg.quantity)
    ensures var (t, e) := Flip(cfg, s, r, d);
      && e.Continue? && t.position == Signed(d, cfg.quantity)
      && t.enabled == s.enabled && t.active == s.active && t.sent != []
  {
    AcceptedFlipCompletes(cfg, s, r, d);
    FlipReachesTarget(cfg, s, r, d);
    var t := Flip(cfg, s, r, d).0;
    assert Booked(t.sent, r) == Booked(s.sent, r) + (t.position - s.position);
  }

  /**
   The first poll of a bar: a flip is traded unless the start-up guard swallows it, and the
   position follows the trend.
   */
  lemma FirstPollOfBar(cfg: Config, s: State, r: Contract, cs: seq<Candle>, g: Settings, p: Poll)
    requires cfg.quantity > 0 && AllAccepted(cfg.script) && Chronological(cs)
    requires ValidSettings(g) && g.period + 1 <= p.count <= |cs|
    requires Ready(cfg, s, r, cs, g, p.count)
    ensures var t := PollOnce(cfg, s, r, cs, g, p);
      && Tracks(cfg, t, r, cs, g, p.count)
      && (TrendAt(cs, g, p.count - 1) != TrendAt(cs, g, p.count - 2) && !(p.stale && s.lastBar == 0) ==> t.sent != [])
  {
    hide Flip, Read, TrendAt;
    PollSeesTheSeries(cs, g, p.count);
    var b := if s.active.None? then Save(s.(active := Some(r))) else s;
    var flip := Read(cs[..p.count], g).flip;
    if flip.Some? {
      AcceptedFlipAligns(cfg, b.(marginError := false, status := Running), r, flip.value);
    }
  }

  /** Polling the same bar again dispatches nothing and leaves the position alone. */
  lemma RepeatedPollIsSilent(cfg: Config, s: State, r: Contract, cs: seq<Candle>, g: Settings, p: Poll)
    requires Chronological(cs)
    requires ValidSettings(g) && g.period + 1 <= p.count <= |cs|
    requires Tracks(cfg, s, r, cs, g, p.count)
    ensures var t := PollOnce(cfg, s, r, cs, g, p);
      t.sent == s.sent && t.position == s.position && Tracks(cfg, t, r, cs, g, p.count)
  {
    hide Flip, Read, TrendAt;
    PollSeesTheSeries(cs, g, p.count);
  }

  lemma {:induction false} FollowTracks(cfg: Config, s: State, r: Contract, cs: seq<Candle>, g: Settings, polls: seq<Poll>)
    requires cfg.quantity > 0 && AllAccepted(cfg.script) && Chronological(cs)
    requires Growing(cs, g, polls) && polls != []
    requires Ready(cfg, s, r, cs, g, polls[0].count) || Tracks(cfg, s, r, cs, g, polls[0].count)
    ensures Tracks(cfg, Follow(cfg, s, r, cs, g, polls), r, cs, g, polls[|polls| - 1].count)
    decreases |polls|
  {
    hide PollOnce, TrendAt;
    if Tracks(cfg, s, r, cs, g, polls[0].count) {
      RepeatedPollIsSilent(cfg, s, r, cs, g, polls[0]);
    } else {
      FirstPollOfBar(cfg, s, r, cs, g, polls[0]);
    }
    var t := PollOnce(cfg, s, r, cs, g, polls[0]);
    if |polls| > 1 {
      GrowingTail(cs, g, polls);
      assert polls[1..][0] == polls[1] && polls[1..][|polls| - 2] == polls[|polls| - 1];
      FollowTracks(cfg, t, r, cs, g, polls[1..]);
    }
  }

  /**
   Starting flat, with every leg accepted and every closed bar of one growing series polled at
   least once: from the first dispatched order on, the position after every poll is the
   quantity times the trend of the last closed bar; before it, the runner is flat.
   */
  lemma EngineTracksIndicator(cfg: Config, r: Contract, cs: seq<Candle>, g: Settings, polls: seq<Poll>)
    requires cfg.quantity > 0 && AllAccepted(cfg.script) && Chronological(cs)
    requires Growing(cs, g, polls) && polls != []
    ensures var t := Follow(cfg, Start(true), r, cs, g, polls);
      if t.sent == [] then t.position == 0
      else t.position == cfg.quantity * TrendAt(cs, g, polls[|polls| - 1].count - 1)
  {
    hide Follow;
    var k := polls[|polls| - 1].count;
    FollowTracks(cfg, Start(true), r, cs, g, polls);
    TrendIsUpOrDown(cs, g, k - 1);
    AlignedIsProduct(cfg.quantity, TrendAt(cs, g, k - 1));
    hide TrendAt;
  }
}
