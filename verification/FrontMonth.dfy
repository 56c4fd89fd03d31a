/**
 Choice of the contract behind a continuous symbol, and why a runner following it only rolls
 forward.
 */
module FrontMonth {
  import opened Wrappers
  import opened Calendar
  import RM = RunnerModel
  import RL = RunnerLedger
  import RS = RunnerSafety
  import RR = RunnerRuns
  import RLim = RunnerLimits

  datatype Expiry = Never | On(day: Day)

  predicate NoLater(a: Expiry, b: Expiry) {
    b.Never? || (a.On? && a.day <= b.day)
  }

  datatype Listing = Listing(id: RM.Contract, segment: Segment, expiry: Expiry)

  /** Holiday tables and the minimum days before expiry of a derivative. */
  datatype Market = Market(holidays: Holidays, minDays: int)

  predicate Live(m: Market, c: Listing, now: Instant) {
    match c.expiry
    case Never => true
    case On(day) =>
      if c.segment.NSEBSE? then day - now.day > m.minDays
      else !IsPastRollover(m.holidays, day, now)
  }

  /** All listings of one root, ordered by expiry as the cache keeps them. */
  predicate Chain(cs: seq<Listing>) {
    && (forall i, j :: 0 <= i < j < |cs| ==> NoLater(cs[i].expiry, cs[j].expiry) && cs[i].id != cs[j].id)
    && (forall i :: 0 <= i < |cs| ==> cs[i].segment == cs[0].segment)
  }

  function LiveOnes(m: Market, cs: seq<Listing>, now: Instant): seq<Listing> {
    if cs == [] then []
    else
      var last := cs[|cs| - 1];
      LiveOnes(m, cs[..|cs| - 1], now) + (if Live(m, last, now) then [last] else [])
  }

  function Resolve(m: Market, cs: seq<Listing>, depth: int, now: Instant): Option<Listing> {
    var valid := LiveOnes(m, cs, now);
    var candidates := if valid != [] then valid else cs;
    if candidates == [] then None else Some(candidates[Min(Max(0, depth - 1), |candidates| - 1)])
  }

  method ResolveFrontMonth(m: Market, cs: seq<Listing>, depth: int, now: Instant) returns (front: Option<Listing>)
    ensures front == Resolve(m, cs, depth, now)
  {
    var valid := [];
    for i := 0 to |cs|
      invariant valid == LiveOnes(m, cs[..i], now)
    {
      assert cs[..i + 1][..i] == cs[..i];
      if Live(m, cs[i], now) {
        valid := valid + [cs[i]];
      }
    }
    assert cs[..|cs|] == cs;
    var candidates := if |valid| > 0 then valid else cs;
    if |candidates| == 0 {
      return None;
    }
    var idx := Min(Max(0, depth - 1), |candidates| - 1);
    return Some(candidates[idx]);
  }

  // ---------------------------------------------------------------- the live suffix

  /** Number of listings already past; the live ones are cs[FirstLive..]. */
  function FirstLive(m: Market, cs: seq<Listing>, now: Instant): (s: nat)
    ensures s <= |cs|
    ensures forall i :: 0 <= i < s ==> !Live(m, cs[i], now)
    ensures s < |cs| ==> Live(m, cs[s], now)
  {
    if cs == [] || Live(m, cs[0], now) then 0 else 1 + FirstLive(m, cs[1..], now)
  }

  /** An exchange derivative is live while more than the minimum days remain, a commodity until its cutoff. */
  lemma LiveUntil(m: Market, c: Listing, expiry: Day, now: Instant)
    requires c.expiry == On(expiry)
    ensures c.segment.NSEBSE? ==> (Live(m, c, now) <==> now.day + m.minDays < expiry)
    ensures !c.segment.NSEBSE? ==> (Live(m, c, now) <==> !NotAfter(Cutoff(m.holidays, expiry), now))
    ensures Live(m, c.(expiry := Never), now)
  {
    FailSafeIsRedundant(m.holidays, expiry, now);
  }

  /** A listing expiring no earlier, looked at no later, is live when the other is. */
  lemma LiveIsMonotone(m: Market, a: Listing, b: Listing, now: Instant, later: Instant)
    requires a.segment == b.segment && NoLater(a.expiry, b.expiry) && NotAfter(now, later)
    ensures Live(m, a, later) ==> Live(m, b, now)
  {
    if a.expiry.On? && b.expiry.On? {
      PastRolloverIsMonotone(m.holidays, a.expiry.day, b.expiry.day, now, later);
    }
  }

  lemma LiveFromFirst(m: Market, cs: seq<Listing>, now: Instant, i: nat)
    requires Chain(cs) && i < |cs|
    ensures Live(m, cs[i], now) <==> FirstLive(m, cs, now) <= i
  {
    var s := FirstLive(m, cs, now);
    if s < i {
      LiveIsMonotone(m, cs[s], cs[i], now, now);
    }
  }

  lemma {:induction false} LiveOnesArePrefixwise(m: Market, cs: seq<Listing>, now: Instant, k: nat)
    requires Chain(cs) && k <= |cs|
    ensures LiveOnes(m, cs[..k], now) == cs[Min(FirstLive(m, cs, now), k)..k]
  {
    hide Live, FirstLive;
    if k > 0 {
      assert cs[..k][..k - 1] == cs[..k - 1];
      LiveOnesArePrefixwise(m, cs, now, k - 1);
      LiveFromFirst(m, cs, now, k - 1);
    }
  }

  /** Index the resolution picks in the chain. */
  function Pick(m: Market, cs: seq<Listing>, depth: int, now: Instant): (p: nat)
    requires cs != []
    ensures p < |cs|
  {
    var s := FirstLive(m, cs, now);
    Min((if s < |cs| then s else 0) + Max(0, depth - 1), |cs| - 1)
  }

  /**
   The live contracts are a suffix of the chain, and the resolution picks the depth-th of them,
   or the last one; when none is live it falls back to counting from the earliest.
   */
  lemma ResolutionIsPick(m: Market, cs: seq<Listing>, depth: int, now: Instant)
    requires Chain(cs) && cs != []
    ensures LiveOnes(m, cs, now) == cs[FirstLive(m, cs, now)..]
    ensures Resolve(m, cs, depth, now) == Some(cs[Pick(m, cs, depth, now)])
  {
    assert cs[..|cs|] == cs;
    LiveOnesArePrefixwise(m, cs, now, |cs|);
  }

  lemma FirstLiveAdvances(m: Market, cs: seq<Listing>, now: Instant, later: Instant)
    requires Chain(cs) && NotAfter(now, later)
    ensures FirstLive(m, cs, now) <= FirstLive(m, cs, later)
  {
    var s := FirstLive(m, cs, later);
    if s < |cs| {
      LiveIsMonotone(m, cs[s], cs[s], now, later);
    }
  }

  /**
   The pick never moves back in time exactly when a live contract remains, or the pick was
   already the one the fallback chooses.
   */
  lemma PickMovesForwardIff(m: Market, cs: seq<Listing>, depth: int, now: Instant, later: Instant)
    requires Chain(cs) && cs != [] && NotAfter(now, later)
    ensures Pick(m, cs, depth, now) <= Pick(m, cs, depth, later)
      <==> ((exists i :: 0 <= i < |cs| && Live(m, cs[i], later))
            || Pick(m, cs, depth, now) == Min(Max(0, depth - 1), |cs| - 1))
  {
    FirstLiveAdvances(m, cs, now, later);
    var s := FirstLive(m, cs, later);
    if s == |cs| {
      forall i | 0 <= i < |cs| ensures !Live(m, cs[i], later) {
        LiveFromFirst(m, cs, later, i);
      }
    }
  }

  /** Two contracts; once the second is past as well, the pick falls back to the first. */
  lemma FallbackWitness(m: Market)
    requires m.minDays == 0
    ensures var cs := [Listing(1, NSEBSE, On(10)), Listing(2, NSEBSE, On(20))];
      && Chain(cs) && Pick(m, cs, 1, Instant(12, 0)) == 1 && Pick(m, cs, 1, Instant(30, 0)) == 0
  {
    var cs := [Listing(1, NSEBSE, On(10)), Listing(2, NSEBSE, On(20))];
    assert Live(m, cs[1], Instant(12, 0)) && !Live(m, cs[0], Instant(12, 0));
    assert !Live(m, cs[0], Instant(30, 0)) && !Live(m, cs[1], Instant(30, 0));
    LiveFromFirst(m, cs, Instant(12, 0), 0);
    LiveFromFirst(m, cs, Instant(12, 0), 1);
    LiveFromFirst(m, cs, Instant(30, 0), 1);
  }

  // ---------------------------------------------------------------- runs of the runner

  lemma RolloverPersists(cfg: RM.Config, s: RM.State, prev: RM.Contract, r: RM.Contract, dies: bool)
    requires RL.Persisted(s)
    ensures var (t, e) := RM.Rollover(cfg, s, prev, r, dies);
      RL.Persisted(t) && (t.active == s.active || t.active == Some(r))
  {
    RS.RollExitTrades(cfg, s, prev);
    RS.RollEntryTrades(cfg, RM.RollExit(cfg, s, prev).0, r, RM.Side(s.position), Abs(s.position), 3);
    hide RM.RollExit, RM.RollEntry;
  }

  lemma CheckPersists(cfg: RM.Config, s: RM.State, inp: RM.Input, r: RM.Contract)
    requires RL.Persisted(s)
    ensures var t := RM.RollIfNeeded(cfg, s, inp, r).0;
      RL.Persisted(t) && (t.active == s.active || t.active == Some(r))
  {
    hide RM.Rollover;
    var b := if s.active.None? then RM.Save(s.(active := Some(r))) else s;
    RolloverPersists(cfg, b.(pendingRollover := false), b.active.value, r, inp.diesAtPointer);
  }

  lemma CyclePersists(cfg: RM.Config, s: RM.State, inp: RM.Input)
    requires cfg.quantity > 0 && RL.Persisted(s)
    ensures var t := RM.Cycle(cfg, s, inp).0;
      RL.Persisted(t) && (t.active == s.active || (inp.resolved.Some? && t.active == inp.resolved))
  {
    hide RM.RollIfNeeded, RM.Trade;
    if inp.resolved.Some? {
      CheckPersists(cfg, s, inp, inp.resolved.value);
      RS.TradeOnlyTrades(cfg, RM.RollIfNeeded(cfg, s, inp, inp.resolved.value).0, inp, inp.resolved.value);
    }
  }

  /** In every run the pointer only ever moves to the contract just resolved. */
  lemma PointerFollowsResolution(cfg: RM.Config, s: RM.State, ev: RM.Event)
    requires cfg.quantity > 0 && RL.Persisted(s)
    ensures var t := RM.Step(cfg, s, ev);
      && RL.Persisted(t)
      && (t.active == s.active || (ev.Evaluate? && ev.input.resolved.Some? && t.active == ev.input.resolved))
  {
    if ev.Evaluate? {
      CyclePersists(cfg, s, ev.input);
    }
  }

  /** Times the pointer moves from one contract to another during a run. */
  function Switches(cfg: RM.Config, s: RM.State, evs: seq<RM.Event>): nat
    decreases |evs|
  {
    if evs == [] then 0
    else
      var t := RM.Step(cfg, s, evs[0]);
      (if s.active.Some? && t.active != s.active then 1 else 0) + Switches(cfg, t, evs[1..])
  }

  /**
   Every evaluation of the run resolves the symbol through the chain, at that event's time, or
   fails to resolve it.
   */
  predicate Follows(m: Market, cs: seq<Listing>, depth: int, evs: seq<RM.Event>, clock: seq<Instant>) {
    && |evs| == |clock|
    && (forall i, j :: 0 <= i < j < |clock| ==> NotAfter(clock[i], clock[j]))
    && (forall i :: 0 <= i < |evs| ==> FollowsAt(m, cs, depth, evs[i], clock[i]))
  }

  predicate FollowsAt(m: Market, cs: seq<Listing>, depth: int, ev: RM.Event, now: Instant) {
    && (exists k :: 0 <= k < |cs| && Live(m, cs[k], now))
    && (ev.Evaluate? && ev.input.resolved.Some? ==>
          Resolve(m, cs, depth, now).Some? && ev.input.resolved == Some(Resolve(m, cs, depth, now).value.id))
  }

  /** The runner holds nothing yet, or a contract no later in the chain than the pick now. */
  predicate AtOrBefore(cs: seq<Listing>, active: Option<RM.Contract>, a: nat, p: nat) {
    active.Some? ==> a <= p < |cs| && active == Some(cs[a].id)
  }

  lemma {:induction false} SwitchesAreBounded(
    m: Market, cs: seq<Listing>, depth: int, cfg: RM.Config, s: RM.State, evs: seq<RM.Event>, clock: seq<Instant>, a: nat)
    requires Chain(cs) && cs != [] && cfg.quantity > 0 && RL.Persisted(s)
    requires Follows(m, cs, depth, evs, clock)
    requires s.active.Some? ==> a < |cs| && s.active == Some(cs[a].id)
    requires clock != [] ==> AtOrBefore(cs, s.active, a, Pick(m, cs, depth, clock[0]))
    ensures Switches(cfg, s, evs) <= |cs| - 1 - (if s.active.Some? then a else 0)
    decreases |evs|
  {
    hide RM.Step, Pick, Resolve, Live;
    if evs != [] {
      var t := RM.Step(cfg, s, evs[0]);
      PointerFollowsResolution(cfg, s, evs[0]);
      assert FollowsAt(m, cs, depth, evs[0], clock[0]);
      ResolutionIsPick(m, cs, depth, clock[0]);
      var p := Pick(m, cs, depth, clock[0]);
      var b := if t.active == s.active then a else p;
      if |clock| > 1 {
        assert FollowsAt(m, cs, depth, evs[1], clock[1]);
        PickMovesForwardIff(m, cs, depth, clock[0], clock[1]);
      }
      FollowsTail(m, cs, depth, evs, clock);
      SwitchesAreBounded(m, cs, depth, cfg, t, evs[1..], clock[1..], b);
    }
  }

  lemma FollowsTail(m: Market, cs: seq<Listing>, depth: int, evs: seq<RM.Event>, clock: seq<Instant>)
    requires Follows(m, cs, depth, evs, clock) && evs != []
    ensures Follows(m, cs, depth, evs[1..], clock[1..])
  {
    hide FollowsAt;
    forall i | 0 <= i < |evs| - 1 ensures FollowsAt(m, cs, depth, evs[1..][i], clock[1..][i]) {
      assert FollowsAt(m, cs, depth, evs[i + 1], clock[i + 1]);
    }
  }

  /**
   Rollover only moves forward: with a clock that never runs backwards and a live contract left,
   any run of the runner, against any broker and through any restarts, switches contracts at
   most n - 1 times.
   */
  lemma AtMostOneSwitchPerContract(
    m: Market, cs: seq<Listing>, depth: int, cfg: RM.Config, evs: seq<RM.Event>, clock: seq<Instant>, enabled: bool)
    requires Chain(cs) && cs != [] && cfg.quantity > 0
    requires Follows(m, cs, depth, evs, clock)
    ensures Switches(cfg, RM.Start(enabled), evs) <= |cs| - 1
  {
    SwitchesAreBounded(m, cs, depth, cfg, RM.Start(enabled), evs, clock, 0);
  }

  /**
   A contract is left on its cutoff day: an evaluation between 14:00 and the close of that day,
   with a live contract remaining and a broker that accepts, ends with the pointer on the
   contract resolved and nothing booked on the old one.
   */
  lemma CutoffDayRollsOver(
    m: Market, cs: seq<Listing>, depth: int, cfg: RM.Config, s: RM.State, inp: RM.Input, a: nat, expiry: Day, now: Instant)
    requires Chain(cs) && a < |cs| && cs[a].segment.MCXFO? && cs[a].expiry == On(expiry)
    requires now.day == Cutoff(m.holidays, expiry).day && Clock(14, 0) <= now.second <= Clock(23, 55)
    requires exists i :: 0 <= i < |cs| && Live(m, cs[i], now)
    requires cfg.quantity > 0 && RR.Inv(cfg, s) && s.enabled && s.active == Some(cs[a].id)
    requires RLim.AcceptsFrom(cfg.script, |s.sent|)
    requires Resolve(m, cs, depth, now).Some? && inp.resolved == Some(Resolve(m, cs, depth, now).value.id)
    requires inp.marketOpen == IsMarketOpen(m.holidays, true, MCXFO, now)
    requires inp.stabilising == IsOpeningStabilising(m.holidays, MCXFO, now)
    requires inp.descriptorKnown && !inp.tradingPaused && !inp.diesAtPointer
    ensures var t := RM.Cycle(cfg, s, inp).0;
      t.active == inp.resolved && t.active != s.active && RL.Booked(t.sent, cs[a].id) == 0
  {
    CutoffDayIsTradable(m.holidays, expiry, now);
    ResolutionIsPick(m, cs, depth, now);
    LiveFromFirst(m, cs, now, a);
    var i :| 0 <= i < |cs| && Live(m, cs[i], now);
    LiveFromFirst(m, cs, now, i);
    var p := Pick(m, cs, depth, now);
    assert a < FirstLive(m, cs, now) <= p;
    var r := cs[p].id;
    assert inp.resolved == Some(r) && r != cs[a].id;
    hide Live, Pick, Resolve, FirstLive, RM.RollIfNeeded, RM.Trade;
    RLim.DueRolloverCompletes(cfg, s, cs[a].id, inp, r);
    var b := RM.RollIfNeeded(cfg, s, inp, r).0;
    CheckPersists(cfg, s, inp, r);
    RS.TradeOnlyTrades(cfg, b, inp, r);
  }
}
