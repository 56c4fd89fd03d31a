/**
 The total over all contracts, in every run and with no condition on its rollovers: what is booked
 altogether is the runner's position plus the lots written off at failed rollover entries.
 */
module RunnerTotals {
  import opened Wrappers
  import opened RunnerModel
  import opened RunnerLedger
  import opened RunnerSafety
  import RR = RunnerRuns

  /** Lots of all accepted orders. */
  function Total(sent: seq<Order>): int {
    if sent == [] then 0
    else
      var o := sent[|sent| - 1];
      Total(sent[..|sent| - 1]) + (if o.outcome.Accepted? then o.lots else 0)
  }

  predicate Distinct(cs: seq<Contract>) {
    forall i, j :: 0 <= i < j < |cs| ==> cs[i] != cs[j]
  }

  predicate Covers(cs: seq<Contract>, sent: seq<Order>) {
    forall i :: 0 <= i < |sent| ==> sent[i].contract in cs
  }

  /** Booked lots, contract by contract. */
  function BookedOn(sent: seq<Order>, cs: seq<Contract>): int {
    if cs == [] then 0 else Booked(sent, cs[0]) + BookedOn(sent, cs[1..])
  }

  lemma {:induction false} BookedOnAppend(sent: seq<Order>, o: Order, cs: seq<Contract>)
    requires Distinct(cs)
    ensures BookedOn(sent + [o], cs)
      == BookedOn(sent, cs) + (if o.contract in cs && o.outcome.Accepted? then o.lots else 0)
    decreases |cs|
  {
    if cs != [] {
      Append(sent, o, cs[0]);
      BookedOnAppend(sent, o, cs[1..]);
      hide Booked;
      assert o.contract in cs <==> o.contract == cs[0] || o.contract in cs[1..];
    }
  }

  lemma {:induction false} NothingBooked(cs: seq<Contract>)
    ensures BookedOn([], cs) == 0
  {
    if cs != [] {
      NothingBooked(cs[1..]);
    }
  }

  /** The total is the sum over any list of contracts that covers the orders. */
  lemma {:induction false} TotalIsSumOverContracts(sent: seq<Order>, cs: seq<Contract>)
    requires Distinct(cs)
    requires Covers(cs, sent)
    ensures Total(sent) == BookedOn(sent, cs)
  {
    if sent == [] {
      NothingBooked(cs);
    } else {
      var init, o := sent[..|sent| - 1], sent[|sent| - 1];
      TotalIsSumOverContracts(init, cs);
      BookedOnAppend(init, o, cs);
      assert init + [o] == sent;
    }
  }

  lemma {:induction false} TotalOfTail(sent: seq<Order>, from: nat, r: Contract)
    requires from <= |sent|
    requires forall j :: from <= j < |sent| ==> sent[j].contract == r
    ensures Total(sent) - Total(sent[..from]) == Booked(sent, r) - Booked(sent[..from], r)
  {
    if from == |sent| {
      assert sent[..from] == sent;
    } else {
      var init, o := sent[..|sent| - 1], sent[|sent| - 1];
      TotalOfTail(init, from, r);
      assert init[..from] == sent[..from];
      Append(init, o, r);
      assert init + [o] == sent;
    }
  }

  /** Booked lots beyond the position. */
  function Gap(s: State): int {
    Total(s.sent) - s.position
  }

  /** Trading on one contract keeps the gap. */
  lemma TradesKeepGap(s: State, t: State, r: Contract)
    requires s.sent <= t.sent && forall j :: |s.sent| <= j < |t.sent| ==> t.sent[j].contract == r
    requires Booked(t.sent, r) == Booked(s.sent, r) + (t.position - s.position)
    ensures Gap(t) == Gap(s)
  {
    assert t.sent[..|s.sent|] == s.sent;
    TotalOfTail(t.sent, |s.sent|, r);
  }

  // ---------------------------------------------------------------- what is written off

  /** The position a rollover forgets when all entry attempts failed. */
  function RollWritesOff(cfg: Config, s: State, prev: Contract, r: Contract, dies: bool): int {
    var (b, exit, entry) := RollLegs(cfg, s, prev, r);
    if exit.Done? && entry.Failed? && !dies then b.position else 0
  }

  /** A rollover takes place in this evaluation. */
  predicate Rolls(s: State, inp: Input, r: Contract) {
    && s.active.Some? && s.active != Some(r) && s.position != 0
    && inp.descriptorKnown && inp.marketOpen && !inp.stabilising
  }

  function StepWritesOff(cfg: Config, s: State, ev: Event): int {
    if ev.Evaluate? && s.enabled && !ev.input.tradingPaused && ev.input.resolved.Some?
        && Rolls(s, ev.input, ev.input.resolved.value) then
      RollWritesOff(cfg, s.(pendingRollover := false), s.active.value, ev.input.resolved.value, ev.input.diesAtPointer)
    else 0
  }

  function WrittenOff(cfg: Config, s: State, evs: seq<Event>): int
    decreases |evs|
  {
    if evs == [] then 0 else StepWritesOff(cfg, s, evs[0]) + WrittenOff(cfg, Step(cfg, s, evs[0]), evs[1..])
  }

  lemma LegsKeepGap(cfg: Config, s: State, prev: Contract, r: Contract)
    requires Persisted(s)
    ensures var b := RollLegs(cfg, s, prev, r).0;
      Persisted(b) && Gap(b) == Gap(s)
  {
    hide RollExit, RollEntry, Gap, Booked;
    RollExitTrades(cfg, s, prev);
    var a := RollExit(cfg, s, prev).0;
    TradesKeepGap(s, a, prev);
    RollEntryTrades(cfg, a, r, Side(s.position), Abs(s.position), 3);
    TradesKeepGap(a, RollEntry(cfg, a, r, Side(s.position), Abs(s.position), 3).0, r);
  }

  lemma RollIfNeededGap(cfg: Config, s: State, inp: Input, r: Contract)
    requires Persisted(s)
    ensures var t := RollIfNeeded(cfg, s, inp, r).0;
      && Persisted(t)
      && Gap(t) == Gap(s) + (if !Rolls(s, inp, r) then 0
                             else RollWritesOff(cfg, s.(pendingRollover := false), s.active.value, r, inp.diesAtPointer))
  {
    hide RollLegs;
    if Rolls(s, inp, r) {
      LegsKeepGap(cfg, s.(pendingRollover := false), s.active.value, r);
    }
  }

  lemma TradeKeepsGap(cfg: Config, s: State, inp: Input, r: Contract)
    requires cfg.quantity > 0 && Persisted(s)
    ensures Persisted(Trade(cfg, s, inp, r).0) && Gap(Trade(cfg, s, inp, r).0) == Gap(s)
  {
    hide Trade, Booked, Gap;
    TradeOnlyTrades(cfg, s, inp, r);
    TradesKeepGap(s, Trade(cfg, s, inp, r).0, r);
  }

  /** One event adds to the gap exactly what it writes off, a crash or restart included. */
  lemma StepGap(cfg: Config, s: State, ev: Event)
    requires cfg.quantity > 0 && Persisted(s)
    ensures Persisted(Step(cfg, s, ev)) && Gap(Step(cfg, s, ev)) == Gap(s) + StepWritesOff(cfg, s, ev)
  {
    hide RollIfNeeded, Trade, RollWritesOff;
    if ev.Evaluate? && ev.input.resolved.Some? {
      var r := ev.input.resolved.value;
      RollIfNeededGap(cfg, s, ev.input, r);
      TradeKeepsGap(cfg, RollIfNeeded(cfg, s, ev.input, r).0, ev.input, r);
    }
  }

  lemma {:induction false} RunGap(cfg: Config, s: State, evs: seq<Event>)
    requires cfg.quantity > 0 && Persisted(s)
    ensures Persisted(Run(cfg, s, evs)) && Gap(Run(cfg, s, evs)) == Gap(s) + WrittenOff(cfg, s, evs)
    decreases |evs|
  {
    hide Step, StepWritesOff, Gap;
    if evs != [] {
      StepGap(cfg, s, evs[0]);
      RunGap(cfg, Step(cfg, s, evs[0]), evs[1..]);
    }
  }

  /**
   Conservation over all runs: for every broker, any number of slices, and through crashes and
   restarts at any point, the lots booked over all contracts are the position plus exactly what
   failed rollover entries wrote off.
   */
  lemma EveryLotIsPositionOrWrittenOff(cfg: Config, evs: seq<Event>, enabled: bool, cs: seq<Contract>)
    requires cfg.quantity > 0
    requires Distinct(cs)
    requires Covers(cs, Run(cfg, Start(enabled), evs).sent)
    ensures var t := Run(cfg, Start(enabled), evs);
      BookedOn(t.sent, cs) == t.position + WrittenOff(cfg, Start(enabled), evs)
  {
    hide *;
    StartHasNoGap(enabled);
    BookedAfterRun(cfg, Start(enabled), evs, cs);
  }

  lemma StartHasNoGap(enabled: bool)
    ensures Persisted(Start(enabled)) && Gap(Start(enabled)) == 0
  {
  }

  lemma BookedAfterRun(cfg: Config, s: State, evs: seq<Event>, cs: seq<Contract>)
    requires cfg.quantity > 0 && Persisted(s)
    requires Distinct(cs) && Covers(cs, Run(cfg, s, evs).sent)
    ensures var t := Run(cfg, s, evs);
      BookedOn(t.sent, cs) == t.position + Gap(s) + WrittenOff(cfg, s, evs)
  {
    hide Run, WrittenOff, BookedOn, Total;
    RunGap(cfg, s, evs);
    TotalIsSumOverContracts(Run(cfg, s, evs).sent, cs);
  }

  /** A rollover of one slice writes nothing off. */
  lemma OneSliceWritesNothingOff(cfg: Config, s: State, prev: Contract, r: Contract, dies: bool)
    requires s.position != 0 && SingleSlice(cfg, Abs(s.position))
    ensures RollWritesOff(cfg, s, prev, r, dies) == 0
  {
    hide RollExit, RollEntry;
    RR.RollExitSummary(cfg, s, prev);
    RR.RollEntrySummary(cfg, RollExit(cfg, s, prev).0, r, Side(s.position), Abs(s.position), 3);
  }
}
