/**
 What the runner must do, not only what it must not: when an evaluation trades, how often each leg
 is tried, and when a flip, a rollover and a synchronisation complete.  The statements speak of the
 script, the state before and the state after only.
 */
module RunnerProgress {
  import opened Wrappers
  import opened Slicing
  import opened RunnerModel
  import opened RunnerLedger
  import opened RunnerSafety
  import opened RunnerLimits

  // ---------------------------------------------------------------- legs of one slice

  predicate Taken(script: nat -> Outcome, n: nat) {
    script(n).Accepted?
  }

  /** The process survives the orders from n on. */
  ghost predicate Survives(script: nat -> Outcome, n: nat) {
    forall k :: n <= k ==> !script(k).Crash?
  }

  /** A permitted leg that fits into one slice. */
  predicate OneOrder(cfg: Config, qty: int) {
    0 < qty <= SizeLimit(cfg.quantity) && SingleSlice(cfg, qty)
  }

  /** Such a leg sends one order and is done exactly when that is accepted. */
  lemma OneOrderLeg(cfg: Config, s: State, kind: Kind, c: Contract, d: Direction, qty: int)
    requires OneOrder(cfg, qty) && !cfg.script(|s.sent|).Crash?
    ensures var (t, e) := Leg(cfg, s, kind, c, d, qty);
      && t.sent == s.sent + [Order(kind, c, Signed(d, qty), s.position, cfg.script(|s.sent|))]
      && (if Taken(cfg.script, |s.sent|) then e.Done? && t.position == s.position + Signed(d, qty)
          else e.Failed? && t.position == s.position)
      && t.active == s.active && t.enabled == s.enabled && t.lastBar == s.lastBar
      && t.pendingRollover == s.pendingRollover
      && (!Taken(cfg.script, |s.sent|) ==> t.marginError == (cfg.script(|s.sent|) == Refused(true)))
      && t.status == (if kind.Entry? && cfg.script(|s.sent|) == Refused(true) then MarginShortfall else s.status)
  {
    assert Slices(qty, cfg.freezeLots, 1) == [qty];
    assert [qty][1..] == [];
    var t := SendSlice(cfg.script, s, kind, c, Signed(d, qty));
    assert RunLeg(cfg.script, t, kind, c, d, []) == (t, Done);
  }

  /** Against a broker that accepts, a leg is done exactly for sizes up to five times the quantity, or fifty. */
  lemma SizeGuardIff(cfg: Config, s: State, kind: Kind, c: Contract, d: Direction, qty: int)
    requires AcceptsFrom(cfg.script, |s.sent|)
    ensures var (t, e) := Leg(cfg, s, kind, c, d, qty);
      && (e.Done? <==> 0 < qty && (qty <= 50 || qty <= 5 * cfg.quantity))
      && (!e.Done? ==> t == s && e.Failed?)
  {
    if 0 < qty <= SizeLimit(cfg.quantity) {
      AcceptedLegCompletes(cfg, s, kind, c, d, qty);
    }
  }

  /** Number of orders until one is accepted, at most m. */
  function Tries(script: nat -> Outcome, n: nat, m: nat): (k: nat)
    ensures k <= m
    decreases m
  {
    if m == 0 then 0 else if Taken(script, n) then 1 else 1 + Tries(script, n + 1, m - 1)
  }

  // ---------------------------------------------------------------- flips of one slice per leg

  /** First leg: two attempts, and only if both are not accepted the runner is paused with its old position. */
  lemma FlipExitIsTriedTwice(cfg: Config, s: State, r: Contract, d: Direction)
    requires Signed(d, s.position) < 0 && OneOrder(cfg, Abs(s.position)) && Survives(cfg.script, |s.sent|)
    ensures var (t, e) := FlipExit(cfg, s, r, d);
      var n := |s.sent|;
      && t.active == s.active && t.enabled == s.enabled && t.lastBar == s.lastBar && t.status == s.status
      && |t.sent| == n + (if Taken(cfg.script, n) then 1 else 2)
      && (if Taken(cfg.script, n) || Taken(cfg.script, n + 1) then e.Done? && t.position == 0
          else e.Failed? && t.position == s.position)
  {
    var qty := Abs(s.position);
    hide Leg, OneOrder;
    OneOrderLeg(cfg, s, Exit, r, d, qty);
    var (a, e) := Leg(cfg, s, Exit, r, d, qty);
    if e.Failed? {
      OneOrderLeg(cfg, a, Exit, r, d, qty);
    }
  }

  /** Second leg: the same, for what is missing. */
  lemma FlipEntryIsTriedTwice(cfg: Config, s: State, r: Contract, d: Direction)
    requires 0 <= Signed(d, s.position) < cfg.quantity && OneOrder(cfg, cfg.quantity) && Survives(cfg.script, |s.sent|)
    ensures var (t, e) := FlipTail(cfg, s, r, d);
      var n := |s.sent|;
      && t.active == s.active
      && |t.sent| == n + (if Taken(cfg.script, n) then 1 else 2)
      && (if Taken(cfg.script, n) || Taken(cfg.script, n + 1) then
            e.Continue? && Signed(d, t.position) == cfg.quantity && t.enabled == s.enabled
            && t.status == (if cfg.script(n) == Refused(true) then MarginShortfall else s.status)
          else
            e.Return? && t.position == s.position && !t.enabled
            && t.status == (if cfg.script(n + 1) == Refused(true) then MarginShortfall else EntryFailed))
  {
    var qty := cfg.quantity - Signed(d, s.position);
    hide Leg;
    OneOrderLeg(cfg, s, Entry, r, d, qty);
    var (a, e) := Leg(cfg, s, Entry, r, d, qty);
    if e.Failed? {
      OneOrderLeg(cfg, a, Entry, r, d, qty);
    }
  }

  /**
   A flip from the other side, in both directions and for every script without a crash: it pauses
   the runner with the old position iff the first two orders are both not accepted, pauses it flat
   iff the exit succeeds and both entry attempts are not accepted, and completes at the target
   otherwise; a first entry refused for margin then leaves the margin status behind, although the
   retry went through.
   */
  lemma FlipCompletesIff(cfg: Config, s: State, r: Contract, d: Direction)
    requires Signed(d, s.position) < 0 && OneOrder(cfg, Abs(s.position)) && OneOrder(cfg, cfg.quantity)
    requires Survives(cfg.script, |s.sent|)
    ensures var (t, e) := Flip(cfg, s, r, d);
      var n := |s.sent|;
      var m := if Taken(cfg.script, n) then n + 1 else n + 2;
      var exited := Taken(cfg.script, n) || Taken(cfg.script, n + 1);
      var entered := Taken(cfg.script, m) || Taken(cfg.script, m + 1);
      && (if !exited then e.Return? && t.status.ExitFailed? && t.position == s.position && !t.enabled
          else if !entered then
            e.Return? && t.position == 0 && !t.enabled
            && t.status == (if cfg.script(m + 1) == Refused(true) then MarginShortfall else EntryFailed)
          else
            e.Continue? && t.position == Signed(d, cfg.quantity) && t.enabled == s.enabled
            && t.status == (if cfg.script(m) == Refused(true) then MarginShortfall else s.status))
      && |t.sent| == (if !exited then n + 2 else if Taken(cfg.script, m) then m + 1 else m + 2)
  {
    assert cfg.quantity > 0;
    hide FlipExit, FlipTail, OneOrder;
    FlipExitIsTriedTwice(cfg, s, r, d);
    var (a, e) := FlipExit(cfg, s, r, d);
    if e.Done? {
      FlipEntryIsTriedTwice(cfg, a, r, d);
    }
  }

  // ---------------------------------------------------------------- one failure in any number of slices

  /** All orders from n on are accepted, with at most order k refused or timed out. */
  ghost predicate FailsOnlyAt(script: nat -> Outcome, n: nat, k: nat) {
    !script(k).Crash? && forall j :: n <= j && j != k ==> script(j).Accepted?
  }

  /** A leg then completes, or fails at that order and everything after it is accepted. */
  lemma LegFailsOnlyOnce(cfg: Config, s: State, kind: Kind, c: Contract, d: Direction, qty: int, k: nat)
    requires 0 < qty <= SizeLimit(cfg.quantity) && FailsOnlyAt(cfg.script, |s.sent|, k)
    ensures var (t, e) := Leg(cfg, s, kind, c, d, qty);
      && |s.sent| <= |t.sent|
      && (e.Done? || (e.Failed? && AcceptsFrom(cfg.script, |t.sent|)))
  {
    var chunks := Slices(qty, cfg.freezeLots, 1);
    LegAddsPrefix(cfg.script, s, kind, c, d, chunks);
    FilledStops(cfg.script, |s.sent|, |chunks|);
    var f := Filled(cfg.script, |s.sent|, |chunks|);
    if f < |chunks| {
      assert |s.sent| + f == k;
      var (t, e) := Leg(cfg, s, kind, c, d, qty);
      assert (t, e) == RunLeg(cfg.script, s, kind, c, d, chunks);
      assert |t.sent| == k + 1 && e.Failed?;
    }
  }

  lemma ExitSurvivesOneFailure(cfg: Config, s: State, r: Contract, d: Direction, k: nat)
    requires Signed(d, s.position) < 0 && Abs(s.position) <= SizeLimit(cfg.quantity)
    requires FailsOnlyAt(cfg.script, |s.sent|, k)
    ensures var (t, e) := FlipExit(cfg, s, r, d);
      e.Done? && |s.sent| <= |t.sent| && t.position == 0
  {
    var qty := Abs(s.position);
    LegFailsOnlyOnce(cfg, s, Exit, r, d, qty, k);
    LegSummary(cfg, s, Exit, r, d, qty);
    var (a, e) := Leg(cfg, s, Exit, r, d, qty);
    hide Leg;
    if e.Failed? {
      AcceptedLegCompletes(cfg, a, Exit, r, d, Abs(a.position));
      LegSummary(cfg, a, Exit, r, d, Abs(a.position));
    }
  }

  lemma EntrySurvivesOneFailure(cfg: Config, s: State, r: Contract, d: Direction, k: nat)
    requires cfg.quantity > 0 && 0 <= Signed(d, s.position) && FailsOnlyAt(cfg.script, |s.sent|, k)
    ensures FlipTail(cfg, s, r, d).1.Continue?
  {
    var qty := cfg.quantity - Signed(d, s.position);
    if qty > 0 {
      LegFailsOnlyOnce(cfg, s, Entry, r, d, qty, k);
      LegSummary(cfg, s, Entry, r, d, qty);
      var (a, e) := Leg(cfg, s, Entry, r, d, qty);
      hide Leg;
      if e.Failed? {
        AcceptedLegCompletes(cfg, a, Entry, r, d, cfg.quantity - Signed(d, a.position));
      }
    }
  }

  /**
   One failed order is healed: when at most one order of a flip is refused or times out, wherever it
   is and however many slices the legs have, the flip completes at the target.
   */
  lemma OneFailureIsHealed(cfg: Config, s: State, r: Contract, d: Direction, k: nat)
    requires cfg.quantity > 0 && Abs(s.position) <= SizeLimit(cfg.quantity)
    requires FailsOnlyAt(cfg.script, |s.sent|, k)
    ensures var (t, e) := Flip(cfg, s, r, d);
      e.Continue? && t.position == Target(d, cfg.quantity, s.position) && t.enabled == s.enabled
  {
    FlipReachesTarget(cfg, s, r, d);
    hide FlipExit, FlipTail;
    if Signed(d, s.position) < 0 {
      ExitSurvivesOneFailure(cfg, s, r, d, k);
      EntrySurvivesOneFailure(cfg, FlipExit(cfg, s, r, d).0, r, d, k);
    } else {
      EntrySurvivesOneFailure(cfg, s, r, d, k);
    }
  }

  // ---------------------------------------------------------------- rollover of one slice

  lemma {:induction false} RollEntryIsTried(cfg: Config, s: State, r: Contract, d: Direction, qty: int, attempts: nat)
    requires OneOrder(cfg, qty) && Survives(cfg.script, |s.sent|)
    ensures var (t, e) := RollEntry(cfg, s, r, d, qty, attempts);
      var k := Tries(cfg.script, |s.sent|, attempts);
      && |t.sent| == |s.sent| + k && t.active == s.active && t.enabled == s.enabled
      && (e.Done? <==> k > 0 && Taken(cfg.script, |s.sent| + k - 1))
      && (!e.Done? ==> e.Failed?)
      && t.position == s.position + (if e.Done? then Signed(d, qty) else 0)
    decreases attempts
  {
    if attempts > 0 {
      OneOrderLeg(cfg, s, Entry, r, d, qty);
      var (a, e) := Leg(cfg, s, Entry, r, d, qty);
      hide Leg, OneOrder;
      if e.Failed? {
        RollEntryIsTried(cfg, a, r, d, qty, attempts - 1);
      }
    }
  }

  lemma RollExitIsTriedTwice(cfg: Config, s: State, prev: Contract)
    requires s.position != 0 && OneOrder(cfg, Abs(s.position)) && Survives(cfg.script, |s.sent|)
    ensures var (t, e) := RollExit(cfg, s, prev);
      var n := |s.sent|;
      && t.active == s.active && t.enabled == s.enabled
      && |t.sent| == n + (if Taken(cfg.script, n) then 1 else 2)
      && (if Taken(cfg.script, n) || Taken(cfg.script, n + 1) then e.Done? && t.position == 0
          else e.Failed? && t.position == s.position)
  {
    var d, qty := Opposite(Side(s.position)), Abs(s.position);
    hide Leg, OneOrder;
    OneOrderLeg(cfg, s, Exit, prev, d, qty);
    var (a, e) := Leg(cfg, s, Exit, prev, d, qty);
    if e.Failed? {
      OneOrderLeg(cfg, a, Exit, prev, d, qty);
    }
  }

  /**
   A rollover of one slice, for every script without a crash: it is given up with the old position
   on the old contract iff the first two orders are not accepted; it ends flat, paused and on the
   new contract iff the exit succeeds and three entry attempts in a row are not accepted; and it
   completes with the position on the new contract otherwise.
   */
  lemma RolloverCompletesIff(cfg: Config, s: State, prev: Contract, r: Contract)
    requires s.position != 0 && OneOrder(cfg, Abs(s.position)) && Survives(cfg.script, |s.sent|)
    requires s.active == Some(prev) && prev != r && s.enabled && !s.pendingRollover
    ensures var (t, e) := Rollover(cfg, s, prev, r, false);
      var n := |s.sent|;
      var m := if Taken(cfg.script, n) then n + 1 else n + 2;
      var exited := Taken(cfg.script, n) || Taken(cfg.script, n + 1);
      var entered := Taken(cfg.script, m) || Taken(cfg.script, m + 1) || Taken(cfg.script, m + 2);
      && (if !exited then
            t.active == Some(prev) && t.position == s.position && e.Return? && !t.enabled && t.status.RolloverFailed?
          else if !entered then
            t.position == 0 && t.row == Row(0, Some(r)) && e.Return? && !t.enabled && t.status.RolloverFailed?
          else
            t.position == s.position && t.row == Row(s.position, Some(r)) && e.Continue? && t.enabled)
      && (exited ==> t.active == Some(r) && t.lastBar == 0)
      && !t.pendingRollover
  {
    hide RollExit, RollEntry, OneOrder;
    RollExitIsTriedTwice(cfg, s, prev);
    var (a, e) := RollExit(cfg, s, prev);
    if e.Done? {
      var m := |a.sent|;
      RollEntryIsTried(cfg, a, r, Side(s.position), Abs(s.position), 3);
      ThreeTries(cfg.script, m);
    }
  }

  lemma ThreeTries(script: nat -> Outcome, n: nat)
    ensures var k := Tries(script, n, 3);
      k > 0 && (Taken(script, n + k - 1) <==> Taken(script, n) || Taken(script, n + 1) || Taken(script, n + 2))
  {
    assert Tries(script, n + 2, 1) == 1;
    assert Tries(script, n + 1, 2) == if Taken(script, n + 1) then 1 else 2;
  }

  // ---------------------------------------------------------------- synchronisation

  /** Against a broker that accepts, a synchronisation of any number of slices reports success at the target. */
  lemma AcceptedSyncIsSynced(cfg: Config, s: State, r: Contract, d: Direction)
    requires 0 < cfg.quantity && Abs(s.position) <= SizeLimit(cfg.quantity) && AcceptsFrom(cfg.script, |s.sent|)
    ensures var (t, e) := Sync(cfg, s, r, d);
      && e.Synced? && t.position == Target(d, cfg.quantity, s.position) && t.enabled == s.enabled
      && (Persisted(s) ==> Persisted(t))
  {
    SyncReachesTarget(cfg, s, r, d);
    var x := Signed(d, s.position);
    if x < 0 {
      AcceptedLegCompletes(cfg, s, Exit, r, d, Abs(s.position));
      LegSummary(cfg, s, Exit, r, d, Abs(s.position));
      var b := Save(Leg(cfg, s, Exit, r, d, Abs(s.position)).0.(position := 0));
      AcceptedLegCompletes(cfg, b, Entry, r, d, cfg.quantity);
    } else if x < cfg.quantity {
      AcceptedLegCompletes(cfg, s, Entry, r, d, cfg.quantity - x);
    }
  }

  /** An entry on demand is tried once; a failure pauses the runner unless it was a top-up. */
  lemma SyncEntryIsTriedOnce(cfg: Config, s: State, r: Contract, d: Direction, pauses: bool)
    requires 0 <= Signed(d, s.position) < cfg.quantity && OneOrder(cfg, cfg.quantity)
    requires !cfg.script(|s.sent|).Crash?
    ensures var (t, e) := SyncEntry(cfg, s, r, d, cfg.quantity - Signed(d, s.position), pauses);
      && |t.sent| == |s.sent| + 1
      && (if Taken(cfg.script, |s.sent|) then e.Synced? && Signed(d, t.position) == cfg.quantity && t.enabled == s.enabled
          else
            e.SyncError? && t.position == s.position && t.enabled == (s.enabled && !pauses)
            && t.status == (if cfg.script(|s.sent|) == Refused(true) then MarginShortfall else EntryFailed))
  {
    OneOrderLeg(cfg, s, Entry, r, d, cfg.quantity - Signed(d, s.position));
    hide Leg;
  }

  /**
   Synchronisation by one-slice legs, for every script without a crash, and no leg is retried: from
   the other side a refused exit changes nothing, a refused entry leaves the runner flat and paused;
   from flat a refused entry pauses it; a refused top-up does not.
   */
  lemma SyncSucceedsIff(cfg: Config, s: State, r: Contract, d: Direction)
    requires OneOrder(cfg, cfg.quantity) && Abs(s.position) <= cfg.quantity && Survives(cfg.script, |s.sent|)
    ensures var (t, e) := Sync(cfg, s, r, d);
      var x, n := Signed(d, s.position), |s.sent|;
      var refusal := (k: nat) => if cfg.script(k) == Refused(true) then MarginShortfall else EntryFailed;
      if x == cfg.quantity then e.Synced? && t == s
      else if x < 0 && !Taken(cfg.script, n) then e.SyncError? && t.position == s.position && t.enabled == s.enabled
      else if x < 0 && !Taken(cfg.script, n + 1) then
        e.SyncError? && t.position == 0 && !t.enabled && t.status == refusal(n + 1)
      else if x >= 0 && !Taken(cfg.script, n) then
        e.SyncError? && t.position == s.position && t.enabled == (s.enabled && x > 0) && t.status == refusal(n)
      else e.Synced? && Signed(d, t.position) == cfg.quantity && t.enabled == s.enabled
  {
    var x := Signed(d, s.position);
    if x < 0 {
      OneOrderLeg(cfg, s, Exit, r, d, Abs(s.position));
      var (a, e) := Leg(cfg, s, Exit, r, d, Abs(s.position));
      hide Leg, SyncEntry;
      if e.Done? {
        SyncEntryIsTriedOnce(cfg, Save(a.(position := 0)), r, d, true);
      }
    } else if x < cfg.quantity {
      hide Leg, SyncEntry;
      SyncEntryIsTriedOnce(cfg, s, r, d, x == 0);
    }
  }

  // ---------------------------------------------------------------- one evaluation

  /** The evaluation finds the position on the contract resolved, or nothing to move. */
  predicate Settled(s: State, r: Contract) {
    s.active.None? || s.active == Some(r) || s.position == 0
  }

  /** The pointer is on another contract. */
  predicate Moves(s: State, r: Contract) {
    s.active.Some? && s.active != Some(r)
  }

  /** A flip of a closed bar that is neither processed yet nor swallowed at start-up. */
  predicate FreshFlip(s: State, feed: Feed) {
    feed.Bar? && feed.flip.Some? && feed.time != s.lastBar && !(feed.stale && s.lastBar == 0)
  }

  /** The same when the pointer moves first and the last bar is forgotten with it. */
  function Before(s: State, r: Contract): State {
    if Moves(s, r) then s.(lastBar := 0) else s
  }

  predicate MayTrade(s: State, inp: Input, r: Contract) {
    && s.enabled && !inp.tradingPaused && inp.resolved == Some(r) && inp.marketOpen && inp.ordersClear
    && (Moves(s, r) ==> inp.descriptorKnown)
    && FreshFlip(Before(s, r), inp.feed)
  }

  /** The state a flip starts from, after the contract check. */
  function Checked(cfg: Config, s: State, inp: Input, r: Contract): State {
    RollIfNeeded(cfg, s, inp, r).0.(marginError := false, status := Running)
  }

  /** An evaluation of that kind is a flip, or leaves orders and position alone. */
  lemma EvaluationIsFlipOrSilent(cfg: Config, s: State, inp: Input, r: Contract)
    requires inp.resolved.Some? ==> inp.resolved == Some(r) && Settled(s, r)
    ensures var t := Step(cfg, s, Evaluate(inp));
      if MayTrade(s, inp, r) then
        var a := Checked(cfg, s, inp, r);
        var (b, e) := Flip(cfg, a, r, inp.feed.flip.value);
        && a.active == Some(r) && a.enabled == s.enabled && a.position == s.position && a.sent == s.sent
        && (Persisted(s) ==> Persisted(a))
        && t == (match e
                 case Continue => b.(lastBar := inp.feed.time)
                 case Return => b
                 case Perish => Reload(b, inp.restartEnabled))
      else t.sent == s.sent && t.position == s.position
  {
    if inp.resolved.Some? && s.enabled && !inp.tradingPaused {
      CheckSettles(cfg, s, inp, r);
      hide RollIfNeeded, Flip, Moves, Settled;
    }
  }

  /** The contract check of a settled runner sends nothing and ends on the contract resolved. */
  lemma CheckSettles(cfg: Config, s: State, inp: Input, r: Contract)
    requires Settled(s, r)
    ensures var (a, e) := RollIfNeeded(cfg, s, inp, r);
      && a.sent == s.sent && a.position == s.position && a.lastBar == (if e.Continue? then Before(s, r).lastBar else s.lastBar)
      && (Persisted(s) ==> Persisted(a))
      && (if Moves(s, r) && !inp.descriptorKnown then e.Return?
          else e.Continue? && a.active == Some(r) && a.enabled == s.enabled)
  {
  }

  /**
   For every script and state: an evaluation that has no position to move to another contract sends
   something only when the runner is enabled and not paused, no order of its own is open, the
   market is open, and the bar carries a fresh flip to a position it does not have yet; otherwise
   orders and position stay as they were.
   */
  lemma TradesOnlyWhen(cfg: Config, s: State, inp: Input, r: Contract)
    requires cfg.quantity > 0
    requires inp.resolved.Some? ==> inp.resolved == Some(r) && Settled(s, r)
    ensures var t := Step(cfg, s, Evaluate(inp));
      t.sent != s.sent ==>
        MayTrade(s, inp, r) && s.position != Target(inp.feed.flip.value, cfg.quantity, s.position)
    ensures var t := Step(cfg, s, Evaluate(inp));
      t.sent == s.sent && Persisted(s) ==> t.position == s.position
  {
    EvaluationIsFlipOrSilent(cfg, s, inp, r);
    if MayTrade(s, inp, r) {
      var a, d := Checked(cfg, s, inp, r), inp.feed.flip.value;
      FlipReachesTarget(cfg, a, r, d);
      if a.position == Target(d, cfg.quantity, a.position) {
        FlipAtTargetIsSilent(cfg, a, r, d);
      }
      var b := Flip(cfg, a, r, d).0;
      hide Step, Flip, Checked, MayTrade;
      assert Booked(b.sent, r) == Booked(a.sent, r) + (b.position - a.position);
    }
  }

  lemma FlipAtTargetIsSilent(cfg: Config, s: State, r: Contract, d: Direction)
    requires cfg.quantity > 0 && s.position == Target(d, cfg.quantity, s.position)
    ensures Flip(cfg, s, r, d) == (s, Continue)
  {
  }

  /** With an order of its own still open, an evaluation sends nothing and moves nothing. */
  lemma OpenOrdersSilence(cfg: Config, s: State, inp: Input, r: Contract)
    requires !inp.ordersClear
    requires inp.resolved.Some? ==> inp.resolved == Some(r) && Settled(s, r)
    ensures var t := Step(cfg, s, Evaluate(inp));
      t.sent == s.sent && t.position == s.position
  {
    EvaluationIsFlipOrSilent(cfg, s, inp, r);
    hide Step;
  }

  lemma {:induction false} AcceptedLegKeepsStatus(
    script: nat -> Outcome, s: State, kind: Kind, c: Contract, d: Direction, chunks: seq<int>)
    requires AcceptsFrom(script, |s.sent|)
    ensures RunLeg(script, s, kind, c, d, chunks).0.status == s.status
    decreases |chunks|
  {
    if chunks != [] {
      AcceptedLegKeepsStatus(script, SendSlice(script, s, kind, c, Signed(d, chunks[0])), kind, c, d, chunks[1..]);
    }
  }

  lemma AcceptedFlipKeepsStatus(cfg: Config, s: State, r: Contract, d: Direction)
    requires cfg.quantity > 0 && Abs(s.position) <= SizeLimit(cfg.quantity) && AcceptsFrom(cfg.script, |s.sent|)
    ensures Flip(cfg, s, r, d).0.status == s.status
  {
    var a := s;
    if Signed(d, s.position) < 0 {
      AcceptedLegCompletes(cfg, s, Exit, r, d, Abs(s.position));
      LegSummary(cfg, s, Exit, r, d, Abs(s.position));
      AcceptedLegKeepsStatus(cfg.script, s, Exit, r, d, Slices(Abs(s.position), cfg.freezeLots, 1));
      a := Leg(cfg, s, Exit, r, d, Abs(s.position)).0;
      assert a.status == s.status;
    }
    var qty := if Signed(d, a.position) > 0 then cfg.quantity - Abs(a.position) else cfg.quantity;
    if qty > 0 {
      AcceptedLegCompletes(cfg, a, Entry, r, d, qty);
      AcceptedLegKeepsStatus(cfg.script, a, Entry, r, d, Slices(qty, cfg.freezeLots, 1));
      assert Leg(cfg, a, Entry, r, d, qty).0.status == s.status;
      hide Leg;
    }
  }

  /**
   Against a broker that accepts, the condition is exact: the evaluation sends something if and
   only if it may trade and the position is short of the target, which it then reaches.
   */
  lemma TradesIff(cfg: Config, s: State, inp: Input, r: Contract)
    requires cfg.quantity > 0
    requires inp.resolved.Some? ==> inp.resolved == Some(r) && Settled(s, r)
    requires Abs(s.position) <= SizeLimit(cfg.quantity) && AcceptsFrom(cfg.script, |s.sent|)
    ensures var t := Step(cfg, s, Evaluate(inp));
      && (t.sent != s.sent
          <==> MayTrade(s, inp, r) && s.position != Target(inp.feed.flip.value, cfg.quantity, s.position))
      && (MayTrade(s, inp, r) ==>
            t.position == Target(inp.feed.flip.value, cfg.quantity, s.position)
            && t.lastBar == inp.feed.time && t.active == Some(r) && t.enabled && t.status.Running?)
  {
    TradesOnlyWhen(cfg, s, inp, r);
    EvaluationIsFlipOrSilent(cfg, s, inp, r);
    if MayTrade(s, inp, r) {
      var a, d := Checked(cfg, s, inp, r), inp.feed.flip.value;
      assert a.status.Running?;
      FlipReachesTarget(cfg, a, r, d);
      AcceptedFlipCompletes(cfg, a, r, d);
      AcceptedFlipKeepsStatus(cfg, a, r, d);
      var b := Flip(cfg, a, r, d).0;
      hide Step, Flip, Checked;
      assert Booked(b.sent, r) == Booked(a.sent, r) + (b.position - a.position);
    }
  }

  // ---------------------------------------------------------------- evaluations that wait

  /** Disabled, paused or without a contract, an evaluation does nothing but say so. */
  lemma IdleEvaluations(cfg: Config, s: State, inp: Input)
    ensures var t := Step(cfg, s, Evaluate(inp));
      && (!s.enabled ==> t == s)
      && (s.enabled && inp.tradingPaused ==> t == s.(status := Paused))
      && (s.enabled && !inp.tradingPaused && inp.resolved.None? ==> t == s.(marginError := false))
  {
  }

  /**
   On its contract, with the market closed, the data missing or no fresh flip, only status and error
   memory change; a bar swallowed at start-up is remembered as processed.
   */
  lemma WaitingEvaluations(cfg: Config, s: State, inp: Input, r: Contract)
    requires s.enabled && !inp.tradingPaused && inp.resolved == Some(r) && s.active == Some(r)
    requires !inp.earlyCheck || inp.ordersClear
    ensures var t := Step(cfg, s, Evaluate(inp));
      && (inp.feed.Unavailable? ==> t == s.(marginError := false))
      && (!inp.feed.Unavailable? && !inp.marketOpen ==> t == s.(marginError := false, status := MarketClosed))
      && (inp.feed.Forming? && inp.marketOpen ==> t == s.(marginError := false, status := Running))
      && (inp.feed.Bar? && inp.marketOpen && !FreshFlip(s, inp.feed) ==>
            var swallowed := inp.feed.stale && s.lastBar == 0;
            t == s.(marginError := false, status := Running, lastBar := if swallowed then inp.feed.time else s.lastBar))
  {
    hide Flip;
  }

  /**
   A position due for another contract: outside market hours and in the opening minute it stays,
   marked as pending, so that the watchdog leaves it alone; with the old contract's descriptor
   unknown the runner pauses instead.  Nothing is sent in any of these cases.
   */
  lemma QueuedRollover(cfg: Config, s: State, inp: Input, prev: Contract, r: Contract)
    requires s.enabled && !inp.tradingPaused && inp.resolved == Some(r) && s.active == Some(prev) && prev != r
    requires s.position != 0 && (!inp.descriptorKnown || !inp.marketOpen || inp.stabilising)
    ensures var t := Step(cfg, s, Evaluate(inp));
      && t.sent == s.sent && t.position == s.position && t.active == s.active && t.row == s.row
      && (!inp.descriptorKnown ==> !t.enabled && t.status.RolloverFailed? && !t.pendingRollover)
      && (inp.descriptorKnown ==> t.enabled && t.pendingRollover && t.lastBar == s.lastBar)
      && (inp.descriptorKnown && inp.marketOpen ==> t == s.(pendingRollover := true))
      && (inp.descriptorKnown && !inp.marketOpen && inp.feed.Bar? && (inp.earlyCheck ==> inp.ordersClear) ==>
            t == s.(pendingRollover := true, marginError := false, status := MarketClosed))
  {
    hide Flip, Rollover;
  }

  // ---------------------------------------------------------------- toggles, restarts, expiry

  /** A toggle changes the enabled state and the status; enabling forgets the last margin error. */
  lemma ToggleChangesOnly(cfg: Config, s: State, isEnabled: bool)
    ensures Step(cfg, s, Toggle(isEnabled)) ==
      if isEnabled then s.(enabled := true, status := Running, marginError := false)
      else s.(enabled := false, status := Disabled)
  {
  }

  /**
   A restart of a runner whose row is up to date forgets the last bar, the pending mark and the
   last error, and nothing else; a fresh runner is one restarted from an empty row.
   */
  lemma RestartForgetsOnly(cfg: Config, s: State, isEnabled: bool)
    ensures Persisted(s) ==> Step(cfg, s, Restart(isEnabled)) == s.(
      enabled := isEnabled, status := if isEnabled then Running else Disabled,
      pendingRollover := false, lastBar := 0, marginError := false)
    ensures Start(isEnabled) == Step(cfg, Start(!isEnabled), Restart(isEnabled))
    ensures Start(isEnabled).sent == [] && Start(isEnabled).position == 0 && Start(isEnabled).active.None?
  {
  }

  /** A runner without a pointer never erases the contract its row names. */
  lemma {:induction false} StoredContractStays(
    script: nat -> Outcome, s: State, kind: Kind, c: Contract, d: Direction, chunks: seq<int>)
    requires s.active.None?
    ensures var t := RunLeg(script, s, kind, c, d, chunks).0;
      t.active.None? && t.row.contract == s.row.contract
    decreases |chunks|
  {
    if chunks != [] {
      StoredContractStays(script, SendSlice(script, s, kind, c, Signed(d, chunks[0])), kind, c, d, chunks[1..]);
    }
  }

  /** After the expiry guard the runner is paused as expired with a zero row that keeps its contract, unless the process died. */
  lemma ExpiryPauses(cfg: Config, s: State, r: Contract)
    ensures var (t, e) := Expire(cfg, s, r);
      && t.active == s.active
      && (!e.Perish? ==> e.Return? && !t.enabled && t.status.Expired? && t.position == 0 && t.row.position == 0)
      && (s.position == 0 ==> t.sent == s.sent && !e.Perish?)
      && (s.active.None? ==> t.row.contract == s.row.contract)
  {
    var d, qty := Opposite(Side(s.position)), Abs(s.position);
    LegSummary(cfg, s, Exit, r, d, qty);
    if s.active.None? {
      StoredContractStays(cfg.script, s, Exit, r, d, Slices(qty, cfg.freezeLots, 1));
      assert Leg(cfg, s, Exit, r, d, qty).0.row.contract == s.row.contract;
    }
    hide Leg;
  }
}
