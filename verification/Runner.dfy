/**
 The runner object: fields updated in place, slice by slice, with the row written after every
 accepted slice.  Every method is proved against the specification in RunnerModel.
 */
module Runner {
  import opened Wrappers
  import opened Slicing
  import opened RunnerModel
  import RR = RunnerRuns

  class SuperTrendRunner {
    const quantity: int
    const freezeLots: int
    const script: nat -> Outcome

    var position: int
    var active: Option<Contract>
    var row: Row
    var enabled: bool
    var status: Status
    var pendingRollover: bool
    var lastBar: int
    var marginError: bool
    var sent: seq<Order>

    ghost function Cfg(): Config {
      Config(quantity, freezeLots, script)
    }

    ghost function View(): State
      reads this
    {
      State(position, active, row, enabled, status, pendingRollover, lastBar, marginError, sent)
    }

    constructor (quantity: int, freezeLots: int, script: nat -> Outcome, isEnabled: bool)
      ensures View() == Start(isEnabled)
      ensures Cfg() == Config(quantity, freezeLots, script)
    {
      this.quantity, this.freezeLots, this.script := quantity, freezeLots, script;
      position, active, row := 0, None, Row(0, None);
      enabled, status := isEnabled, if isEnabled then Running else Disabled;
      pendingRollover, lastBar, marginError, sent := false, 0, false, [];
    }

    method SaveRow()
      modifies this`row
      ensures View() == Save(old(View()))
    {
      row := Row(position, if active.Some? then active else row.contract);
    }

    method DispatchSlice(kind: Kind, c: Contract, lots: int) returns (o: Outcome)
      modifies this
      ensures o == script(old(|sent|))
      ensures View() == SendSlice(script, old(View()), kind, c, lots)
    {
      o := script(|sent|);
      sent := sent + [Order(kind, c, lots, position, o)];
      match o {
        case Accepted =>
          position := position + lots;
          SaveRow();
        case Refused(m) =>
          marginError := m;
          if kind.Entry? && m {
            status := MarginShortfall;
          }
        case Unknown(_) =>
          marginError := false;
        case Crash(_) =>
      }
    }

    /** `_execute_exit` and `_execute_entry`: size guard, slicing, stop at the first failure. */
    method ExecuteLeg(kind: Kind, c: Contract, d: Direction, qty: int) returns (end: LegEnd)
      modifies this
      ensures (View(), end) == Leg(Cfg(), old(View()), kind, c, d, qty)
    {
      var limit := Max(quantity * 5, 50);
      if qty > limit || qty <= 0 {
        return Failed;
      }
      var chunks := SliceQuantityForFreeze(qty, freezeLots, 1);
      for i := 0 to |chunks|
        invariant RunLeg(script, View(), kind, c, d, chunks[i..]) == RunLeg(script, old(View()), kind, c, d, chunks)
      {
        assert chunks[i..][1..] == chunks[i + 1..];
        var o := DispatchSlice(kind, c, Signed(d, chunks[i]));
        match o {
          case Accepted =>
          case Crash(_) => return Died;
          case _ => return Failed;
        }
      }
      return Done;
    }

    /** First leg of a flip; the retry covers what is still held. */
    method ExitAgainst(r: Contract, d: Direction) returns (end: LegEnd)
      modifies this
      ensures (View(), end) == FlipExit(Cfg(), old(View()), r, d)
    {
      end := ExecuteLeg(Exit, r, d, Abs(position));
      if end.Failed? {
        if Abs(position) > 0 {
          end := ExecuteLeg(Exit, r, d, Abs(position));
        } else {
          end := Done;
        }
      }
    }

    /** Second leg of a flip; the retry covers what is still missing. */
    method EnterTowards(r: Contract, d: Direction, qty: int) returns (end: LegEnd)
      modifies this
      ensures (View(), end) == FlipEntry(Cfg(), old(View()), r, d, qty)
    {
      end := ExecuteLeg(Entry, r, d, qty);
      if end.Failed? {
        var left := Missing(d, quantity, position);
        if left > 0 {
          end := ExecuteLeg(Entry, r, d, left);
        } else {
          end := Done;
        }
      }
    }

    method FinishFlip(r: Contract, d: Direction) returns (e: Ending)
      modifies this
      ensures (View(), e) == FlipTail(Cfg(), old(View()), r, d)
    {
      var qty := if Signed(d, position) > 0 then quantity - Abs(position) else quantity;
      if qty > 0 {
        var entry := EnterTowards(r, d, qty);
        match entry {
          case Done =>
          case Died => return Perish;
          case Failed =>
            status, enabled := if marginError then MarginShortfall else EntryFailed, false;
            return Return;
        }
      }
      return Continue;
    }

    method FlipTo(r: Contract, d: Direction) returns (e: Ending)
      modifies this
      ensures (View(), e) == Flip(Cfg(), old(View()), r, d)
    {
      if Signed(d, position) < 0 {
        var exit := ExitAgainst(r, d);
        match exit {
          case Done =>
          case Died => return Perish;
          case Failed =>
            status, enabled := ExitFailed, false;
            return Return;
        }
      }
      e := FinishFlip(r, d);
    }

    method MovePointer(r: Contract)
      modifies this
      ensures View() == Point(old(View()), r)
    {
      active, pendingRollover, lastBar := Some(r), false, 0;
      SaveRow();
    }

    method Pause()
      modifies this
      ensures View() == PauseRollover(old(View()))
    {
      status, enabled, pendingRollover := RolloverFailed, false, false;
    }

    /** First leg of a rollover; the retry re-sends the full quantity. */
    method ExitExpiring(prev: Contract) returns (exit: LegEnd)
      modifies this
      ensures (View(), exit) == RollExit(Cfg(), old(View()), prev)
    {
      var side, qty := Side(position), Abs(position);
      exit := ExecuteLeg(Exit, prev, Opposite(side), qty);
      if exit.Failed? {
        exit := ExecuteLeg(Exit, prev, Opposite(side), qty);
      }
    }

    /** Second leg of a rollover: up to three attempts for the full quantity. */
    method EnterRolled(r: Contract, side: Direction, qty: int) returns (entry: LegEnd)
      modifies this
      ensures (View(), entry) == RollEntry(Cfg(), old(View()), r, side, qty, 3)
    {
      hide Leg;
      var attempts := 3;
      entry := Failed;
      while attempts > 0 && entry.Failed?
        invariant 0 <= attempts <= 3
        invariant (if entry.Failed? then RollEntry(Cfg(), View(), r, side, qty, attempts) else (View(), entry))
          == RollEntry(Cfg(), old(View()), r, side, qty, 3)
      {
        entry := ExecuteLeg(Entry, r, side, qty);
        attempts := attempts - 1;
      }
    }

    method RollTo(prev: Contract, r: Contract, dies: bool) returns (e: Ending)
      modifies this
      ensures (View(), e) == Rollover(Cfg(), old(View()), prev, r, dies)
    {
      hide Leg, RollExit, RollEntry;
      var side, qty := Side(position), Abs(position);
      var exit := ExitExpiring(prev);
      match exit {
        case Done =>
        case Died => return Perish;
        case Failed =>
          Pause();
          return Return;
      }
      var entry := EnterRolled(r, side, qty);
      if entry.Died? || dies {
        return Perish;
      }
      if entry.Failed? {
        position := 0;
        Pause();
        MovePointer(r);
        return Return;
      }
      MovePointer(r);
      return Continue;
    }

    method CheckRollover(inp: Input, r: Contract) returns (e: Ending)
      modifies this
      ensures (View(), e) == RollIfNeeded(Cfg(), old(View()), inp, r)
    {
      if active.None? {
        active := Some(r);
        SaveRow();
      }
      if active == Some(r) {
        return Continue;
      }
      if !inp.descriptorKnown {
        Pause();
        return Return;
      }
      if position == 0 {
        MovePointer(r);
        return Continue;
      }
      if !inp.marketOpen {
        pendingRollover := true;
        return Continue;
      }
      if inp.stabilising {
        pendingRollover := true;
        return Return;
      }
      pendingRollover := false;
      e := RollTo(active.value, r, inp.diesAtPointer);
    }

    /** The accounting invariant of this runner. */
    ghost predicate Accounted()
      reads this
    {
      quantity > 0 && RR.Inv(Cfg(), View())
    }

    ghost predicate RollFits(ev: Event)
      reads this
    {
      RR.RollFits(Cfg(), View(), ev)
    }

    method EvaluateCycle(inp: Input) returns (e: Ending)
      modifies this
      ensures (View(), e) == Cycle(Cfg(), old(View()), inp)
      ensures old(Accounted() && RollFits(Evaluate(inp))) ==> Accounted()
    {
      ghost var before := View();
      e := RunCycle(inp);
      if quantity > 0 && RR.Inv(Cfg(), before) && RR.RollFits(Cfg(), before, Evaluate(inp)) {
        RR.CycleKeepsInv(Cfg(), before, inp);
      }
    }

    method RunCycle(inp: Input) returns (e: Ending)
      modifies this
      ensures (View(), e) == Cycle(Cfg(), old(View()), inp)
    {
      if !enabled {
        return Return;
      }
      if inp.tradingPaused {
        status := Paused;
        return Return;
      }
      if inp.resolved.None? {
        marginError := false;
        return Return;
      }
      var r := inp.resolved.value;
      e := CheckRollover(inp, r);
      if !e.Continue? {
        return;
      }
      e := EvaluateBar(inp, r);
    }

    method EvaluateBar(inp: Input, r: Contract) returns (e: Ending)
      modifies this
      ensures (View(), e) == Trade(Cfg(), old(View()), inp, r)
    {
      e := Return;
      if inp.earlyCheck && !inp.ordersClear {
        return;
      }
      marginError := false;
      if inp.feed.Unavailable? {
        return;
      }
      if !inp.marketOpen {
        status := MarketClosed;
        return;
      }
      status := Running;
      if inp.feed.Forming? {
        return;
      }
      var Bar(time, flip, stale) := inp.feed;
      if stale && lastBar == 0 {
        lastBar := time;
        return;
      }
      if flip.Some? && time != lastBar {
        if !inp.earlyCheck && !inp.ordersClear {
          return;
        }
        e := FlipTo(r, flip.value);
        if e.Continue? {
          lastBar := time;
          e := Return;
        }
      }
    }

    method SyncToTrend(r: Contract, d: Direction) returns (res: SyncResult)
      modifies this
      ensures (View(), res) == Sync(Cfg(), old(View()), r, d)
    {
      var x := Signed(d, position);
      if x == quantity {
        return Synced;
      }
      if x < 0 {
        var exit := ExecuteLeg(Exit, r, d, Abs(position));
        if !exit.Done? {
          return if exit.Died? then SyncPerish else SyncError;
        }
        position := 0;
        SaveRow();
        res := SyncEnter(r, d, quantity, true);
      } else if x > 0 {
        if quantity - x > 0 {
          res := SyncEnter(r, d, quantity - x, false);
        } else {
          res := Synced;
        }
      } else {
        res := SyncEnter(r, d, quantity, true);
      }
    }

    method SyncEnter(r: Contract, d: Direction, qty: int, pauses: bool) returns (res: SyncResult)
      modifies this
      ensures (View(), res) == SyncEntry(Cfg(), old(View()), r, d, qty, pauses)
    {
      var entry := ExecuteLeg(Entry, r, d, qty);
      if entry.Died? {
        return SyncPerish;
      }
      if entry.Failed? {
        status, enabled := if marginError then MarginShortfall else EntryFailed, enabled && !pauses;
        return SyncError;
      }
      position := Signed(d, quantity);
      SaveRow();
      return Synced;
    }

    method SquareOffExpired(r: Contract) returns (e: Ending)
      modifies this
      ensures (View(), e) == Expire(Cfg(), old(View()), r)
    {
      if position != 0 {
        var exit := ExecuteLeg(Exit, r, Opposite(Side(position)), Abs(position));
        if exit.Died? {
          return Perish;
        }
      }
      position := 0;
      SaveRow();
      enabled, status := false, Expired;
      return Return;
    }

    /** A fresh process: everything but the row is forgotten. */
    method RestartFromRow(isEnabled: bool)
      modifies this
      ensures View() == Reload(old(View()), isEnabled)
    {
      position, active := row.position, row.contract;
      enabled, status := isEnabled, if isEnabled then Running else Disabled;
      pendingRollover, lastBar, marginError := false, 0, false;
    }

    /** `toggle_strategy`, as far as this runner goes. */
    method SetEnabled(isEnabled: bool)
      modifies this
      ensures View() == Step(Cfg(), old(View()), Toggle(isEnabled))
    {
      enabled, status := isEnabled, if isEnabled then Running else Disabled;
      if isEnabled {
        marginError := false;
      }
    }

    /** One event of a run; a process that dies in its cycle comes back from the row. */
    method Handle(ev: Event)
      modifies this
      ensures View() == Step(Cfg(), old(View()), ev)
      ensures old(Accounted() && RollFits(ev)) ==> Accounted()
    {
      ghost var before := View();
      match ev {
        case Evaluate(inp) =>
          var e := EvaluateCycle(inp);
          if e.Perish? {
            RestartFromRow(inp.restartEnabled);
          }
        case Restart(isEnabled) => RestartFromRow(isEnabled);
        case Toggle(isEnabled) => SetEnabled(isEnabled);
      }
      if quantity > 0 && RR.Inv(Cfg(), before) && RR.RollFits(Cfg(), before, ev) {
        RR.StepKeepsInv(Cfg(), before, ev);
      }
    }
  }
}
