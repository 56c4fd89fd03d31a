/**
 Whole runs of the runner: flips, rollovers, closed markets, opening stabilisation, crashes at any
 slice and restarts, in any order and against every broker script.
 */
module RunnerRuns {
  import opened Wrappers
  import opened Slicing
  import opened RunnerModel
  import opened RunnerLedger
  import opened RunnerSafety

  /** What every reachable state satisfies. */
  ghost predicate Inv(cfg: Config, s: State) {
    && Persisted(s)
    && Books(s)
    && Abs(s.position) <= cfg.quantity
    && NeverTwoContracts(s.sent)
    && Faithful(cfg.script, s.sent)
  }

  /**
   If this event rolls the position to another contract, the position fits into one slice and the
   process survives until the pointer is written.
   */
  predicate RollFits(cfg: Config, s: State, ev: Event) {
    MayRoll(s, ev) && s.position != 0 ==> SingleSlice(cfg, Abs(s.position)) && !ev.input.diesAtPointer
  }

  /** The event resolves to another contract while trading is possible. */
  predicate MayRoll(s: State, ev: Event) {
    && ev.Evaluate? && s.active.Some? && ev.input.resolved.Some? && s.active != ev.input.resolved
    && ev.input.marketOpen && !ev.input.stabilising
  }

  /** Every rollover of the run is of that kind. */
  predicate RollsFit(cfg: Config, s: State, evs: seq<Event>)
    decreases |evs|
  {
    evs == [] || (RollFits(cfg, s, evs[0]) && RollsFit(cfg, Step(cfg, s, evs[0]), evs[1..]))
  }

  /** Without time-outs that landed and crashes in the middle of a landed order, nothing is stray. */
  ghost predicate NoStrays(script: nat -> Outcome) {
    forall n :: Reached(script(n)) ==> script(n).Accepted?
  }

  // ---------------------------------------------------------------- order history

  lemma {:induction false} OrdersElsewhere(sent: seq<Order>, from: nat, r: Contract, x: Contract)
    requires from <= |sent| && x != r
    requires forall j :: from <= j < |sent| ==> sent[j].contract == r
    ensures Booked(sent, x) == Booked(sent[..from], x)
  {
    if from == |sent| {
      assert sent[..from] == sent;
    } else {
      var init := sent[..|sent| - 1];
      OrdersElsewhere(init, from, r, x);
      assert init[..from] == sent[..from];
      Append(init, sent[|sent| - 1], x);
      assert init + [sent[|sent| - 1]] == sent;
    }
  }

  /** Trading on r keeps the history clean when nothing was booked elsewhere before. */
  lemma HistoryStaysSolo(cfg: Config, s: State, t: State, r: Contract)
    requires OnlyTrades(cfg.script, s, t, r)
    requires NeverTwoContracts(s.sent)
    requires forall x: Contract :: x != r ==> Booked(s.sent, x) == 0
    ensures NeverTwoContracts(t.sent)
  {
    forall k, x: Contract, y: Contract |
      0 <= k <= |t.sent| && Booked(t.sent[..k], x) != 0 && Booked(t.sent[..k], y) != 0
      ensures x == y
    {
      if k <= |s.sent| {
        assert t.sent[..k] == s.sent[..k];
      } else {
        assert t.sent[..k][..|s.sent|] == s.sent;
        if x != r { OrdersElsewhere(t.sent[..k], |s.sent|, r, x); }
        if y != r { OrdersElsewhere(t.sent[..k], |s.sent|, r, y); }
      }
    }
  }

  // ---------------------------------------------------------------- rollover

  /** A rollover leg of one slice moves everything or nothing. */
  lemma RollExitSummary(cfg: Config, s: State, prev: Contract)
    requires s.position != 0 && SingleSlice(cfg, Abs(s.position))
    ensures var (t, e) := RollExit(cfg, s, prev);
      && OnlyTrades(cfg.script, s, t, prev) && t.enabled == s.enabled
      && t.position == (if e.Done? then 0 else s.position)
  {
    var d := Opposite(Side(s.position));
    var (a, e) := Leg(cfg, s, Exit, prev, d, Abs(s.position));
    LegSummary(cfg, s, Exit, prev, d, Abs(s.position));
    if e.Failed? {
      LegSummary(cfg, a, Exit, prev, d, Abs(s.position));
      TradesCompose(cfg.script, s, a, RollExit(cfg, s, prev).0, prev);
    }
  }

  lemma {:induction false} RollEntrySummary(cfg: Config, s: State, r: Contract, d: Direction, qty: int, attempts: nat)
    requires qty > 0 && SingleSlice(cfg, qty)
    ensures var (t, e) := RollEntry(cfg, s, r, d, qty, attempts);
      && OnlyTrades(cfg.script, s, t, r) && t.enabled == s.enabled
      && t.position == s.position + (if e.Done? then Signed(d, qty) else 0)
    decreases attempts
  {
    if attempts > 0 {
      LegSummary(cfg, s, Entry, r, d, qty);
      var (a, e) := Leg(cfg, s, Entry, r, d, qty);
      if e.Failed? {
        RollEntrySummary(cfg, a, r, d, qty, attempts - 1);
        TradesCompose(cfg.script, s, a, RollEntry(cfg, a, r, d, qty, attempts - 1).0, r);
      }
    }
  }

  /** Both rollover legs: the old contract is empty before the first order on the new one. */
  lemma RollLegsSummary(cfg: Config, s: State, prev: Contract, r: Contract)
    requires Books(s) && s.active == Some(prev) && prev != r
    requires s.position != 0 && SingleSlice(cfg, Abs(s.position))
    ensures var (t, exit, entry) := RollLegs(cfg, s, prev, r);
      && t.active == s.active && t.enabled == s.enabled && s.sent <= t.sent
      && (Persisted(s) ==> Persisted(t))
      && (Faithful(cfg.script, s.sent) ==> Faithful(cfg.script, t.sent))
      && (NeverTwoContracts(s.sent) ==> NeverTwoContracts(t.sent))
      && (!exit.Done? ==> t.position == s.position && Books(t))
      && (exit.Done? && !entry.Done? ==> t.position == 0 && Books(t))
      && (exit.Done? && entry.Done? ==>
           t.position == s.position
           && forall x: Contract :: Booked(t.sent, x) == (if x == r then t.position else 0))
  {
    hide RollExit, RollEntry, NeverTwoContracts;
    RollExitSummary(cfg, s, prev);
    var (a, e) := RollExit(cfg, s, prev);
    if NeverTwoContracts(s.sent) {
      HistoryStaysSolo(cfg, s, a, prev);
    }
    if e.Done? {
      RollEntrySummary(cfg, a, r, Side(s.position), Abs(s.position), 3);
      if NeverTwoContracts(s.sent) {
        HistoryStaysSolo(cfg, a, RollEntry(cfg, a, r, Side(s.position), Abs(s.position), 3).0, r);
      }
    }
  }

  /** A rollover of one slice, whose process survives until the pointer is written, keeps the books. */
  lemma RolloverKeepsBooks(cfg: Config, s: State, prev: Contract, r: Contract)
    requires Books(s) && s.active == Some(prev) && prev != r
    requires s.position != 0 && SingleSlice(cfg, Abs(s.position))
    ensures var (t, e) := Rollover(cfg, s, prev, r, false);
      && Books(t)
      && s.sent <= t.sent
      && (t.active == s.active || t.active == Some(r))
      && (e.Continue? ==> t.active == Some(r) && t.position == s.position && t.enabled == s.enabled)
      && (e.Return? ==> !t.enabled && t.status == RolloverFailed && !t.pendingRollover)
  {
    RollLegsSummary(cfg, s, prev, r);
  }

  lemma RolloverKeepsInv(cfg: Config, s: State, prev: Contract, r: Contract)
    requires Inv(cfg, s) && s.active == Some(prev) && prev != r
    requires s.position != 0 && SingleSlice(cfg, Abs(s.position))
    ensures Inv(cfg, Rollover(cfg, s, prev, r, false).0)
  {
    RollLegsSummary(cfg, s, prev, r);
    RolloverKeepsBooks(cfg, s, prev, r);
  }

  // ---------------------------------------------------------------- cycles and runs

  lemma RollIfNeededKeepsInv(cfg: Config, s: State, inp: Input, r: Contract)
    requires cfg.quantity > 0 && Inv(cfg, s)
    requires s.active.Some? && s.active != Some(r) && inp.marketOpen && !inp.stabilising && s.position != 0 ==>
      SingleSlice(cfg, Abs(s.position)) && !inp.diesAtPointer
    ensures var (t, e) := RollIfNeeded(cfg, s, inp, r);
      && Inv(cfg, t)
      && s.sent <= t.sent
      && (t.active == s.active || t.active == Some(r))
      && (e.Continue? && inp.marketOpen ==> t.active == Some(r))
  {
    hide Rollover;
    var b := if s.active.None? then Save(s.(active := Some(r))) else s;
    assert Inv(cfg, b);
    if b.active != Some(r) && b.position != 0 && inp.descriptorKnown && inp.marketOpen && !inp.stabilising {
      RolloverKeepsInv(cfg, b.(pendingRollover := false), b.active.value, r);
      RolloverKeepsBooks(cfg, b.(pendingRollover := false), b.active.value, r);
    }
  }

  lemma TradeOnBarKeepsInv(cfg: Config, s: State, inp: Input, r: Contract)
    requires cfg.quantity > 0 && Inv(cfg, s) && s.active == Some(r) && inp.feed.Bar?
    ensures var t := TradeOnBar(cfg, s, inp, r).0;
      Inv(cfg, t) && t.active == s.active && s.sent <= t.sent
  {
    hide Flip;
    if inp.feed.flip.Some? {
      FlipKeepsInv(cfg, s, r, inp.feed.flip.value);
    }
  }

  lemma FlipKeepsInv(cfg: Config, s: State, r: Contract, d: Direction)
    requires cfg.quantity > 0 && Inv(cfg, s) && s.active == Some(r)
    ensures Inv(cfg, Flip(cfg, s, r, d).0) && Flip(cfg, s, r, d).0.active == s.active
    ensures s.sent <= Flip(cfg, s, r, d).0.sent
  {
    FlipReachesTarget(cfg, s, r, d);
    HistoryStaysSolo(cfg, s, Flip(cfg, s, r, d).0, r);
  }

  lemma TradeKeepsInv(cfg: Config, s: State, inp: Input, r: Contract)
    requires cfg.quantity > 0 && Inv(cfg, s)
    requires inp.marketOpen ==> s.active == Some(r)
    ensures Inv(cfg, Trade(cfg, s, inp, r).0) && Trade(cfg, s, inp, r).0.active == s.active
    ensures s.sent <= Trade(cfg, s, inp, r).0.sent
  {
    hide TradeOnBar;
    if inp.marketOpen && inp.feed.Bar? {
      TradeOnBarKeepsInv(cfg, s.(marginError := false, status := Running), inp, r);
    }
  }

  lemma CycleKeepsInv(cfg: Config, s: State, inp: Input)
    requires cfg.quantity > 0 && Inv(cfg, s) && RollFits(cfg, s, Evaluate(inp))
    ensures var t := Cycle(cfg, s, inp).0;
      Inv(cfg, t) && s.sent <= t.sent && (t.active == s.active || t.active == inp.resolved)
  {
    hide RollIfNeeded, Trade;
    if s.enabled && !inp.tradingPaused && inp.resolved.Some? {
      var r := inp.resolved.value;
      RollIfNeededKeepsInv(cfg, s, inp, r);
      var (a, e) := RollIfNeeded(cfg, s, inp, r);
      if e.Continue? {
        TradeKeepsInv(cfg, a, inp, r);
      }
    }
  }

  lemma StepKeepsInv(cfg: Config, s: State, ev: Event)
    requires cfg.quantity > 0 && Inv(cfg, s) && RollFits(cfg, s, ev)
    ensures var t := Step(cfg, s, ev);
      && Inv(cfg, t) && s.sent <= t.sent
      && (t.active == s.active || (ev.Evaluate? && t.active == ev.input.resolved))
  {
    hide Cycle;
    if ev.Evaluate? {
      CycleKeepsInv(cfg, s, ev.input);
    }
  }

  /**
   Safety over whole runs.  In every run whose rollovers are single slices, with flips of any
   number of slices, and for every broker script: what the broker holds on any contract is the
   persisted position if that contract is the persisted one, else zero, plus exactly the orders
   that landed unseen; and at no point of the order history were lots booked in two contracts.
   */
  lemma {:induction false} EveryRunIsAccounted(cfg: Config, s: State, evs: seq<Event>)
    requires cfg.quantity > 0 && Inv(cfg, s) && RollsFit(cfg, s, evs)
    ensures Inv(cfg, Run(cfg, s, evs))
    ensures var t := Run(cfg, s, evs);
      forall x: Contract ::
        Lots(t.sent, x) == (if t.row.contract == Some(x) then t.row.position else 0) + Strays(t.sent, x)
    decreases |evs|
  {
    if evs == [] {
      assert forall x: Contract :: Lots(s.sent, x) == Booked(s.sent, x) + Strays(s.sent, x);
    } else {
      StepKeepsInv(cfg, s, evs[0]);
      EveryRunIsAccounted(cfg, Step(cfg, s, evs[0]), evs[1..]);
    }
  }

  lemma StartIsAccounted(cfg: Config, enabled: bool)
    requires cfg.quantity > 0
    ensures Inv(cfg, Start(enabled))
  {
    assert forall k :: 0 <= k <= 0 ==> Start(enabled).sent[..k] == [];
  }

  /** A quantity that fits into one slice makes every run of that kind, restarts between two writes aside. */
  lemma {:induction false} SmallQuantityRollsFit(cfg: Config, s: State, evs: seq<Event>)
    requires cfg.quantity > 0 && SingleSlice(cfg, cfg.quantity) && Inv(cfg, s)
    requires forall i :: 0 <= i < |evs| && evs[i].Evaluate? ==> !evs[i].input.diesAtPointer
    ensures RollsFit(cfg, s, evs)
    decreases |evs|
  {
    if evs != [] {
      StepKeepsInv(cfg, s, evs[0]);
      SmallQuantityRollsFit(cfg, Step(cfg, s, evs[0]), evs[1..]);
    }
  }

  /** Moving the pointer away from a contract leaves nothing booked there. */
  lemma PointerLeavesEmptyContract(cfg: Config, s: State, ev: Event)
    requires cfg.quantity > 0 && Inv(cfg, s) && RollFits(cfg, s, ev)
    ensures var t := Step(cfg, s, ev);
      s.active.Some? && t.active != s.active ==>
        Booked(t.sent, s.active.value) == 0 && ev.Evaluate? && t.active == ev.input.resolved
  {
    StepKeepsInv(cfg, s, ev);
  }

  lemma {:induction false} CleanScriptHasNoStrays(script: nat -> Outcome, sent: seq<Order>, c: Contract)
    requires NoStrays(script) && Faithful(script, sent)
    ensures Strays(sent, c) == 0
  {
    if sent != [] {
      CleanScriptHasNoStrays(script, sent[..|sent| - 1], c);
      assert sent[|sent| - 1].outcome == script(|sent| - 1);
    }
  }

  /**
   With no order landing unseen, all lots sit in the active contract, the runner's position is
   exactly that contract's lots, and so is the persisted row.
   */
  lemma AllLotsInActiveContract(cfg: Config, evs: seq<Event>, enabled: bool)
    requires cfg.quantity > 0 && NoStrays(cfg.script) && RollsFit(cfg, Start(enabled), evs)
    ensures var t := Run(cfg, Start(enabled), evs);
      && t.row == Row(t.position, t.active)
      && forall x: Contract :: Lots(t.sent, x) == (if t.active == Some(x) then t.position else 0)
  {
    StartIsAccounted(cfg, enabled);
    EveryRunIsAccounted(cfg, Start(enabled), evs);
    var t := Run(cfg, Start(enabled), evs);
    forall x: Contract ensures Strays(t.sent, x) == 0 {
      CleanScriptHasNoStrays(cfg.script, t.sent, x);
    }
  }
}
