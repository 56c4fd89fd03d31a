/**
 Where the runner's bookkeeping stops being exact, each time with the precise condition on what is
 known before the call and a witness for the failing side.
 */
module RunnerLimits {
  import opened Wrappers
  import opened Slicing
  import opened RunnerModel
  import opened RunnerLedger
  import opened RunnerSafety
  import opened RunnerRuns

  /** From order n on the broker accepts everything. */
  ghost predicate AcceptsFrom(script: nat -> Outcome, n: nat) {
    forall k :: n <= k ==> script(k).Accepted?
  }

  ghost predicate AllAccepted(script: nat -> Outcome) {
    AcceptsFrom(script, 0)
  }

  lemma {:induction false} FilledUpTo(script: nat -> Outcome, n: nat, m: nat, k: nat)
    requires k <= m && forall i :: n <= i < n + k ==> script(i).Accepted?
    requires k < m ==> !script(n + k).Accepted?
    ensures Filled(script, n, m) == k
    decreases m
  {
    if k > 0 {
      FilledUpTo(script, n + 1, m - 1, k - 1);
    }
  }

  /** When the broker accepts everything from here on, a leg of a permitted size completes. */
  lemma AcceptedLegCompletes(cfg: Config, s: State, kind: Kind, c: Contract, d: Direction, qty: int)
    requires 0 < qty <= SizeLimit(cfg.quantity)
    requires AcceptsFrom(cfg.script, |s.sent|)
    ensures Leg(cfg, s, kind, c, d, qty).1.Done?
  {
    var chunks := Slices(qty, cfg.freezeLots, 1);
    FilledUpTo(cfg.script, |s.sent|, |chunks|, |chunks|);
    LegAddsPrefix(cfg.script, s, kind, c, d, chunks);
  }

  lemma AcceptedFlipCompletes(cfg: Config, s: State, r: Contract, d: Direction)
    requires cfg.quantity > 0 && Abs(s.position) <= SizeLimit(cfg.quantity)
    requires AcceptsFrom(cfg.script, |s.sent|)
    ensures Flip(cfg, s, r, d).1.Continue?
  {
    var a := s;
    if Signed(d, s.position) < 0 {
      AcceptedLegCompletes(cfg, s, Exit, r, d, Abs(s.position));
      LegSummary(cfg, s, Exit, r, d, Abs(s.position));
      a := Leg(cfg, s, Exit, r, d, Abs(s.position)).0;
    }
    hide Leg;
    var qty := if Signed(d, a.position) > 0 then cfg.quantity - Abs(a.position) else cfg.quantity;
    if qty > 0 {
      AcceptedLegCompletes(cfg, a, Entry, r, d, qty);
    }
  }

  /** Both legs of a rollover complete against such a broker, whatever the number of slices. */
  lemma AcceptedRollLegs(cfg: Config, s: State, prev: Contract, r: Contract)
    requires s.position != 0 && Abs(s.position) <= SizeLimit(cfg.quantity)
    requires AcceptsFrom(cfg.script, |s.sent|)
    ensures var (t, exit, entry) := RollLegs(cfg, s, prev, r);
      && exit.Done? && entry.Done? && t.active == s.active && t.position == s.position
      && (Persisted(s) ==> Persisted(t))
      && (prev != r ==> Booked(t.sent, prev) == Booked(s.sent, prev) - s.position)
      && (prev != r ==> Booked(t.sent, r) == Booked(s.sent, r) + s.position)
  {
    var qty, side := Abs(s.position), Side(s.position);
    AcceptedLegCompletes(cfg, s, Exit, prev, Opposite(side), qty);
    LegSummary(cfg, s, Exit, prev, Opposite(side), qty);
    var a := RollExit(cfg, s, prev).0;
    AcceptedLegCompletes(cfg, a, Entry, r, side, qty);
    LegSummary(cfg, a, Entry, r, side, qty);
  }

  /**
   Against a broker that accepts, a rollover that is due and may trade completes in that cycle,
   whatever its number of slices: the pointer arrives at the resolved contract with the position
   unchanged and every lot on it.
   */
  lemma DueRolloverCompletes(cfg: Config, s: State, prev: Contract, inp: Input, r: Contract)
    requires cfg.quantity > 0 && Inv(cfg, s) && AcceptsFrom(cfg.script, |s.sent|)
    requires s.active == Some(prev) && prev != r
    requires inp.descriptorKnown && inp.marketOpen && !inp.stabilising && !inp.diesAtPointer
    ensures var (t, e) := RollIfNeeded(cfg, s, inp, r);
      && e.Continue? && t.active == Some(r) && t.position == s.position && !t.pendingRollover
      && Booked(t.sent, r) == s.position && Booked(t.sent, prev) == 0
  {
    hide RollLegs;
    if s.position != 0 {
      AcceptedRollLegs(cfg, s.(pendingRollover := false), prev, r);
    }
  }

  // ---------------------------------------------------------------- rollover of several slices

  /** A rollover exit that reports success has emptied the position. */
  predicate RollExitEmpties(cfg: Config, s: State, prev: Contract) {
    var (t, e) := RollExit(cfg, s, prev);
    e.Done? ==> t.position == 0
  }

  /** Accepts order n, refuses order n + 1, accepts all others. */
  function AcceptThenRefuse(n: nat): nat -> Outcome {
    (k: nat) => if k == n + 1 then Refused(false) else Accepted
  }

  lemma SecondSliceRefused(cfg: Config, s: State, prev: Contract)
    requires s.position != 0 && Abs(s.position) <= SizeLimit(cfg.quantity)
    requires !SingleSlice(cfg, Abs(s.position))
    requires cfg.script == AcceptThenRefuse(|s.sent|)
    ensures var (t, e) := RollExit(cfg, s, prev);
      && e.Done? && Signed(Side(s.position), t.position) < 0 && |s.sent| + 2 <= |t.sent|
      && OnlyTrades(cfg.script, s, t, prev)
  {
    var d := Opposite(Side(s.position));
    var qty := Abs(s.position);
    var chunks := Slices(qty, cfg.freezeLots, 1);
    SeveralSlices(qty, cfg.freezeLots);
    FilledUpTo(cfg.script, |s.sent|, |chunks|, 1);
    LegAddsPrefix(cfg.script, s, Exit, prev, d, chunks);
    LegSummary(cfg, s, Exit, prev, d, qty);
    var a := Leg(cfg, s, Exit, prev, d, qty).0;
    FilledUpTo(cfg.script, |a.sent|, |chunks|, |chunks|);
    LegAddsPrefix(cfg.script, a, Exit, prev, d, chunks);
    LegSummary(cfg, a, Exit, prev, d, qty);
    assert chunks[..|chunks|] == chunks;
    TradesCompose(cfg.script, s, a, RollExit(cfg, s, prev).0, prev);
  }

  lemma SeveralSlices(qty: int, freezeLots: int)
    requires qty > freezeLots > 0
    ensures var chunks := Slices(qty, freezeLots, 1);
      |chunks| >= 2 && chunks[0] > 0 && Sum(chunks[..1]) == chunks[0] && Sum(chunks) == qty && chunks[0] < qty
  {
    var chunks := Slices(qty, freezeLots, 1);
    assert EffectiveFreeze(freezeLots, 1) == freezeLots;
    CutFacts(qty, freezeLots);
    assert |chunks| >= 2;
    assert chunks[0] in chunks;
    assert chunks[..1] == [chunks[0]] && Sum([chunks[0]]) == chunks[0];
  }

  /**
   The rollover retry re-sends the full quantity.  So success of the exit means an empty
   position for every broker if and only if the leg is a single slice (or too large to be sent
   at all); otherwise some broker leaves the runner on the opposite side.
   */
  lemma RolloverIsExactIffOneSlice(quantity: int, freezeLots: int, s: State, prev: Contract)
    requires s.position != 0
    ensures (forall script :: RollExitEmpties(Config(quantity, freezeLots, script), s, prev))
      <==> (freezeLots <= 0 || Abs(s.position) <= freezeLots || Abs(s.position) > SizeLimit(quantity))
  {
    if freezeLots <= 0 || Abs(s.position) <= freezeLots {
      forall script ensures RollExitEmpties(Config(quantity, freezeLots, script), s, prev) {
        RollExitSummary(Config(quantity, freezeLots, script), s, prev);
      }
    } else if Abs(s.position) <= SizeLimit(quantity) {
      var cfg := Config(quantity, freezeLots, AcceptThenRefuse(|s.sent|));
      SecondSliceRefused(cfg, s, prev);
      assert !RollExitEmpties(cfg, s, prev);
    }
  }

  /** The ledger after a rollover, both legs and the pointer included. */
  ghost predicate RolloverKeepsLedger(cfg: Config, s: State, prev: Contract, r: Contract) {
    Books(Rollover(cfg, s, prev, r, false).0)
  }

  /** First witness: the second slice of the exit refused, everything else accepted. */
  lemma OverExitBreaksLedger(cfg: Config, s: State, prev: Contract, r: Contract)
    requires Books(s) && s.active == Some(prev) && prev != r
    requires s.position != 0 && Abs(s.position) <= SizeLimit(cfg.quantity)
    requires !SingleSlice(cfg, Abs(s.position)) && cfg.script == AcceptThenRefuse(|s.sent|)
    ensures var (t, e) := Rollover(cfg, s, prev, r, false);
      && e.Continue? && t.active == Some(r) && Booked(t.sent, prev) != 0 && !Books(t)
      && (Persisted(s) ==> Persisted(t))
  {
    SecondSliceRefused(cfg, s, prev);
    var a := RollExit(cfg, s, prev).0;
    var side, qty := Side(s.position), Abs(s.position);
    hide RollExit;
    AcceptedLegCompletes(cfg, a, Entry, r, side, qty);
    LegSummary(cfg, a, Entry, r, side, qty);
  }

  /** Accepts every order before n, refuses every order from n on. */
  function AcceptBelow(n: nat): nat -> Outcome {
    (k: nat) => if k < n then Accepted else Refused(false)
  }

  lemma {:induction false} RefusedEntryStays(cfg: Config, s: State, r: Contract, d: Direction, qty: int, attempts: nat)
    requires 0 < qty <= SizeLimit(cfg.quantity) && forall k :: |s.sent| <= k ==> cfg.script(k).Refused?
    ensures var (t, e) := RollEntry(cfg, s, r, d, qty, attempts);
      e.Failed? && t.position == s.position && OnlyTrades(cfg.script, s, t, r)
    decreases attempts
  {
    if attempts > 0 {
      var chunks := Slices(qty, cfg.freezeLots, 1);
      SlicesConserve(qty, cfg.freezeLots, 1);
      FilledUpTo(cfg.script, |s.sent|, |chunks|, 0);
      LegAddsPrefix(cfg.script, s, Entry, r, d, chunks);
      LegSummary(cfg, s, Entry, r, d, qty);
      var a := Leg(cfg, s, Entry, r, d, qty).0;
      RefusedEntryStays(cfg, a, r, d, qty, attempts - 1);
      TradesCompose(cfg.script, s, a, RollEntry(cfg, a, r, d, qty, attempts - 1).0, r);
    }
  }

  lemma FirstEntrySliceOnly(cfg: Config, s: State, r: Contract, d: Direction, qty: int)
    requires 0 < qty <= SizeLimit(cfg.quantity) && !SingleSlice(cfg, qty)
    requires cfg.script == AcceptBelow(|s.sent| + 1)
    ensures var (t, e) := RollEntry(cfg, s, r, d, qty, 3);
      e.Failed? && Signed(d, t.position - s.position) > 0 && OnlyTrades(cfg.script, s, t, r)
  {
    var chunks := Slices(qty, cfg.freezeLots, 1);
    SeveralSlices(qty, cfg.freezeLots);
    FilledUpTo(cfg.script, |s.sent|, |chunks|, 1);
    LegAddsPrefix(cfg.script, s, Entry, r, d, chunks);
    LegSummary(cfg, s, Entry, r, d, qty);
    var a := Leg(cfg, s, Entry, r, d, qty).0;
    RefusedEntryStays(cfg, a, r, d, qty, 2);
    TradesCompose(cfg.script, s, a, RollEntry(cfg, a, r, d, qty, 2).0, r);
  }

  lemma WholeExitAccepted(cfg: Config, s: State, prev: Contract)
    requires s.position != 0 && Abs(s.position) <= SizeLimit(cfg.quantity)
    requires cfg.script == AcceptBelow(|s.sent| + |Slices(Abs(s.position), cfg.freezeLots, 1)| + 1)
    ensures var (t, e) := RollExit(cfg, s, prev);
      && e.Done? && t.position == 0 && OnlyTrades(cfg.script, s, t, prev)
      && |t.sent| == |s.sent| + |Slices(Abs(s.position), cfg.freezeLots, 1)|
  {
    var side, qty := Side(s.position), Abs(s.position);
    var chunks := Slices(qty, cfg.freezeLots, 1);
    SlicesConserve(qty, cfg.freezeLots, 1);
    FilledUpTo(cfg.script, |s.sent|, |chunks|, |chunks|);
    LegAddsPrefix(cfg.script, s, Exit, prev, Opposite(side), chunks);
    LegSummary(cfg, s, Exit, prev, Opposite(side), qty);
  }

  /**
   Second witness: the exit accepted, one slice of the entry accepted and the rest refused.  The
   runner calls the position zero while that slice stays on the new contract.
   */
  lemma FailedEntryIsWrittenOff(cfg: Config, s: State, prev: Contract, r: Contract)
    requires Books(s) && s.active == Some(prev) && prev != r
    requires s.position != 0 && Abs(s.position) <= SizeLimit(cfg.quantity)
    requires !SingleSlice(cfg, Abs(s.position))
    requires cfg.script == AcceptBelow(|s.sent| + |Slices(Abs(s.position), cfg.freezeLots, 1)| + 1)
    ensures var (t, e) := Rollover(cfg, s, prev, r, false);
      && e.Return? && t.position == 0 && t.active == Some(r)
      && Booked(t.sent, prev) == 0 && Booked(t.sent, r) != 0 && !Books(t)
  {
    var side, qty := Side(s.position), Abs(s.position);
    WholeExitAccepted(cfg, s, prev);
    var a := RollExit(cfg, s, prev).0;
    hide RollExit, RollEntry, SizeLimit;
    FirstEntrySliceOnly(cfg, a, r, side, qty);
  }

  /**
   A rollover keeps the ledger for every broker if and only if the position fits into one slice.
   Outside that, a refused second exit slice leaves lots on the old contract, and a failed entry
   leaves lots on the new one (FailedEntryIsWrittenOff).
   */
  lemma RolloverKeepsLedgerIff(quantity: int, freezeLots: int, s: State, prev: Contract, r: Contract)
    requires Books(s) && s.active == Some(prev) && prev != r
    requires s.position != 0 && Abs(s.position) <= quantity
    ensures (forall script :: RolloverKeepsLedger(Config(quantity, freezeLots, script), s, prev, r))
      <==> (freezeLots <= 0 || Abs(s.position) <= freezeLots)
  {
    hide Rollover;
    if freezeLots <= 0 || Abs(s.position) <= freezeLots {
      forall script ensures RolloverKeepsLedger(Config(quantity, freezeLots, script), s, prev, r) {
        RolloverKeepsBooks(Config(quantity, freezeLots, script), s, prev, r);
      }
    } else {
      var cfg := Config(quantity, freezeLots, AcceptThenRefuse(|s.sent|));
      OverExitBreaksLedger(cfg, s, prev, r);
      assert !RolloverKeepsLedger(cfg, s, prev, r);
    }
  }

  // ---------------------------------------------------------------- one event that rolls

  /** A rollover is due in this evaluation and may trade. */
  predicate RollsNow(s: State, inp: Input, prev: Contract, r: Contract) {
    && s.enabled && !inp.tradingPaused && inp.resolved == Some(r) && s.active == Some(prev) && prev != r
    && s.position != 0 && inp.descriptorKnown && inp.marketOpen && !inp.stabilising
  }

  ghost predicate StepKeepsLedger(cfg: Config, s: State, inp: Input) {
    Books(Step(cfg, s, Evaluate(inp)))
  }

  lemma RollStepKeepsBooks(cfg: Config, s: State, inp: Input, prev: Contract, r: Contract)
    requires cfg.quantity > 0 && Books(s) && Persisted(s) && RollsNow(s, inp, prev, r)
    requires SingleSlice(cfg, Abs(s.position)) && !inp.diesAtPointer
    ensures StepKeepsLedger(cfg, s, inp)
  {
    var b := s.(pendingRollover := false);
    RolloverKeepsBooks(cfg, b, prev, r);
    RollLegsSummary(cfg, b, prev, r);
    var a := Rollover(cfg, b, prev, r, false).0;
    assert Persisted(a);
    hide Rollover, Trade;
    TradeOnlyTrades(cfg, a, inp, r);
  }

  /** The write of the pointer never happens: the reloaded row puts the new lots on the old contract. */
  lemma RestartBeforePointerMisbooks(cfg: Config, s: State, inp: Input, prev: Contract, r: Contract)
    requires Books(s) && Persisted(s) && RollsNow(s, inp, prev, r)
    requires Abs(s.position) <= SizeLimit(cfg.quantity) && AcceptsFrom(cfg.script, |s.sent|)
    requires inp.diesAtPointer
    ensures var t := Step(cfg, s, Evaluate(inp));
      && t.active == Some(prev) && t.position == s.position
      && Booked(t.sent, prev) == 0 && Booked(t.sent, r) == s.position
      && !StepKeepsLedger(cfg, s, inp)
  {
    AcceptedRollLegs(cfg, s.(pendingRollover := false), prev, r);
    hide RollLegs;
  }

  lemma OverExitBreaksStep(cfg: Config, s: State, inp: Input, prev: Contract, r: Contract)
    requires cfg.quantity > 0 && Books(s) && Persisted(s) && RollsNow(s, inp, prev, r)
    requires Abs(s.position) <= SizeLimit(cfg.quantity) && !SingleSlice(cfg, Abs(s.position))
    requires cfg.script == AcceptThenRefuse(|s.sent|) && !inp.diesAtPointer
    ensures !StepKeepsLedger(cfg, s, inp)
  {
    var b := s.(pendingRollover := false);
    OverExitBreaksLedger(cfg, b, prev, r);
    var a := Rollover(cfg, b, prev, r, false).0;
    hide Rollover, Trade;
    TradeOnlyTrades(cfg, a, inp, r);
    assert Booked(Step(cfg, s, Evaluate(inp)).sent, prev) != 0;
  }

  /**
   An evaluation that rolls keeps the ledger for every broker if and only if the position fits
   into one slice and the process lives until the pointer is written.
   */
  lemma RollStepKeepsLedgerIff(quantity: int, freezeLots: int, s: State, inp: Input, prev: Contract, r: Contract)
    requires Books(s) && Persisted(s) && RollsNow(s, inp, prev, r) && Abs(s.position) <= quantity
    ensures (forall script :: StepKeepsLedger(Config(quantity, freezeLots, script), s, inp))
      <==> ((freezeLots <= 0 || Abs(s.position) <= freezeLots) && !inp.diesAtPointer)
  {
    hide StepKeepsLedger;
    if inp.diesAtPointer {
      var cfg := Config(quantity, freezeLots, _ => Accepted);
      RestartBeforePointerMisbooks(cfg, s, inp, prev, r);
      assert !StepKeepsLedger(cfg, s, inp);
    } else if freezeLots <= 0 || Abs(s.position) <= freezeLots {
      forall script ensures StepKeepsLedger(Config(quantity, freezeLots, script), s, inp) {
        RollStepKeepsBooks(Config(quantity, freezeLots, script), s, inp, prev, r);
      }
    } else {
      var cfg := Config(quantity, freezeLots, AcceptThenRefuse(|s.sent|));
      OverExitBreaksStep(cfg, s, inp, prev, r);
      assert !StepKeepsLedger(cfg, s, inp);
    }
  }

  // ---------------------------------------------------------------- synchronisation

  ghost predicate SyncKeepsLedger(cfg: Config, s: State, r: Contract, d: Direction) {
    Books(Sync(cfg, s, r, d).0)
  }

  /** Against a broker that accepts, a synchronisation away from the target fills something. */
  lemma AcceptedSyncMoves(cfg: Config, s: State, r: Contract, d: Direction)
    requires 0 < cfg.quantity && Abs(s.position) <= cfg.quantity && AcceptsFrom(cfg.script, |s.sent|)
    ensures Sync(cfg, s, r, d).0.position == Target(d, cfg.quantity, s.position)
  {
    SyncReachesTarget(cfg, s, r, d);
    var x := Signed(d, s.position);
    if x < 0 {
      AcceptedLegCompletes(cfg, s, Exit, r, d, Abs(s.position));
      LegSummary(cfg, s, Exit, r, d, Abs(s.position));
      var b := Save(Leg(cfg, s, Exit, r, d, Abs(s.position)).0.(position := 0));
      AcceptedLegCompletes(cfg, b, Entry, r, d, cfg.quantity);
    } else if x < cfg.quantity {
      AcceptedLegCompletes(cfg, s, Entry, r, d, cfg.quantity - x);
    }
  }

  /**
   Synchronisation trades the resolved contract without looking at the active one: it keeps the
   ledger for every broker if and only if the two agree or the position is already the target.
   */
  lemma SyncKeepsLedgerIff(quantity: int, freezeLots: int, s: State, a: Contract, r: Contract, d: Direction)
    requires 0 < quantity && Books(s) && s.active == Some(a) && Abs(s.position) <= quantity
    ensures (forall script :: SyncKeepsLedger(Config(quantity, freezeLots, script), s, r, d))
      <==> (r == a || s.position == Target(d, quantity, s.position))
  {
    hide Sync;
    if r == a || s.position == Target(d, quantity, s.position) {
      forall script ensures SyncKeepsLedger(Config(quantity, freezeLots, script), s, r, d) {
        SyncReachesTarget(Config(quantity, freezeLots, script), s, r, d);
      }
    } else {
      var cfg := Config(quantity, freezeLots, _ => Accepted);
      SyncReachesTarget(cfg, s, r, d);
      AcceptedSyncMoves(cfg, s, r, d);
      var t := Sync(cfg, s, r, d).0;
      assert Booked(t.sent, r) == t.position - s.position;
      assert !SyncKeepsLedger(cfg, s, r, d);
    }
  }

  // ---------------------------------------------------------------- expiry of a fixed contract

  /**
   The expiry guard of a fixed contract calls the position zero whatever its exit leg did.  The
   zero is what is booked if and only if the size was permitted and every slice accepted; a
   process that dies in the leg writes no zero and stays exact.
   */
  lemma ExpiryIsExactIff(cfg: Config, s: State, r: Contract)
    requires s.position != 0 && Booked(s.sent, r) == s.position
    ensures var n := |Slices(Abs(s.position), cfg.freezeLots, 1)|;
      var k := Filled(cfg.script, |s.sent|, n);
      var permitted := Abs(s.position) <= SizeLimit(cfg.quantity);
      var t := Expire(cfg, s, r).0;
      Booked(t.sent, r) == t.position <==> permitted && (k == n || cfg.script(|s.sent| + k).Crash?)
  {
    var qty, d := Abs(s.position), Opposite(Side(s.position));
    LegSummary(cfg, s, Exit, r, d, qty);
    LegAddsPrefix(cfg.script, s, Exit, r, d, Slices(qty, cfg.freezeLots, 1));
  }

  // ---------------------------------------------------------------- reachable witnesses

  function AcceptAll(): nat -> Outcome {
    (_: nat) => Accepted
  }

  /** One evaluation of a bullish bar on contract c with the market open. */
  function BullishBar(c: Contract): Input {
    Input(false, Some(c), true, true, false, false, true, true, Bar(1, Some(Bullish), false), true)
  }

  /** A fresh runner after one bullish bar on contract c. */
  function AfterBullishBar(cfg: Config, c: Contract): State {
    Step(cfg, Start(true), Evaluate(BullishBar(c)))
  }

  /** The slices of a first entry of the whole quantity are accepted. */
  ghost predicate AcceptsFirstEntry(cfg: Config) {
    forall k :: 0 <= k < |Slices(cfg.quantity, cfg.freezeLots, 1)| ==> cfg.script(k).Accepted?
  }

  lemma FirstEntryFills(cfg: Config, b: State, c: Contract)
    requires cfg.quantity > 0 && AcceptsFirstEntry(cfg) && b.position == 0 && b.sent == []
    ensures var (t, e) := Flip(cfg, b, c, Bullish);
      && e.Continue? && t.position == cfg.quantity && t.active == b.active && t.enabled == b.enabled
      && |t.sent| == |Slices(cfg.quantity, cfg.freezeLots, 1)|
  {
    var chunks := Slices(cfg.quantity, cfg.freezeLots, 1);
    SlicesConserve(cfg.quantity, cfg.freezeLots, 1);
    FilledUpTo(cfg.script, 0, |chunks|, |chunks|);
    LegAddsPrefix(cfg.script, b, Entry, c, Bullish, chunks);
    LegBooks(cfg.script, b, Entry, c, Bullish, chunks);
    assert chunks[..|chunks|] == chunks;
    hide RunLeg;
  }

  lemma LongAfterFirstBar(cfg: Config, c: Contract)
    requires cfg.quantity > 0 && AcceptsFirstEntry(cfg)
    ensures var s := AfterBullishBar(cfg, c);
      && Inv(cfg, s) && s.position == cfg.quantity && s.active == Some(c) && s.enabled
      && |s.sent| == |Slices(cfg.quantity, cfg.freezeLots, 1)|
  {
    hide Flip, Inv;
    StartIsAccounted(cfg, true);
    StepKeepsInv(cfg, Start(true), Evaluate(BullishBar(c)));
    FirstEntryFills(cfg, Save(Start(true).(active := Some(c))).(status := Running), c);
  }

  lemma OneLotLong(cfg: Config, c: Contract)
    requires cfg.quantity == 1 && cfg.script(0).Accepted? && cfg.freezeLots >= 1
    ensures var s := AfterBullishBar(cfg, c);
      && Inv(cfg, s) && s.position == 1 && s.active == Some(c) && s.enabled && |s.sent| == 1
  {
    assert Slices(1, cfg.freezeLots, 1) == [1];
    LongAfterFirstBar(cfg, c);
  }

  // ---------------------------------------------------------------- all runs

  /** Every process of the run that finishes the legs of a rollover lives to write the pointer. */
  predicate PointersWritten(evs: seq<Event>) {
    forall i :: 0 <= i < |evs| && evs[i].Evaluate? ==> !evs[i].input.diesAtPointer
  }

  ghost predicate RunKeepsLedger(cfg: Config, evs: seq<Event>) {
    PointersWritten(evs) ==> Books(Run(cfg, Start(true), evs))
  }

  /** Bought in several slices on contract 1, then rolled with the second slice of the exit refused. */
  lemma OversizedRunMisbooks(quantity: int, freezeLots: int)
    requires quantity > freezeLots > 0
    ensures var n := |Slices(quantity, freezeLots, 1)|;
      !RunKeepsLedger(Config(quantity, freezeLots, AcceptThenRefuse(n)), [Evaluate(BullishBar(1)), Evaluate(BullishBar(2))])
  {
    var n := |Slices(quantity, freezeLots, 1)|;
    var cfg := Config(quantity, freezeLots, AcceptThenRefuse(n));
    LongAfterFirstBar(cfg, 1);
    var s := AfterBullishBar(cfg, 1);
    var a, b := Evaluate(BullishBar(1)), Evaluate(BullishBar(2));
    assert PointersWritten([a, b]);
    assert [a, b][1..] == [b] && [b][1..] == [];
    assert Run(cfg, Start(true), [a, b]) == Step(cfg, s, b) by {
      hide Step;
      assert Run(cfg, s, [b]) == Run(cfg, Step(cfg, s, b), []);
    }
    hide AfterBullishBar, Step, Run;
    OverExitBreaksStep(cfg, s, BullishBar(2), 1, 2);
  }

  /**
   The ledger stays true in every run against every broker if and only if the configured quantity
   fits into one slice.
   */
  lemma RunsKeepLedgerIff(quantity: int, freezeLots: int)
    requires quantity > 0
    ensures (forall script, evs :: RunKeepsLedger(Config(quantity, freezeLots, script), evs))
      <==> (freezeLots <= 0 || quantity <= freezeLots)
  {
    hide Run;
    if freezeLots <= 0 || quantity <= freezeLots {
      forall script, evs ensures RunKeepsLedger(Config(quantity, freezeLots, script), evs) {
        var cfg := Config(quantity, freezeLots, script);
        StartIsAccounted(cfg, true);
        if PointersWritten(evs) {
          SmallQuantityRollsFit(cfg, Start(true), evs);
          EveryRunIsAccounted(cfg, Start(true), evs);
        }
      }
    } else {
      OversizedRunMisbooks(quantity, freezeLots);
    }
  }

  // ---------------------------------------------------------------- more witnesses

  /** Long on contract 1, synchronised to a down trend after contract 2 was resolved. */
  lemma SyncWitness()
    ensures var cfg := Config(1, 10, AcceptAll());
      var s := AfterBullishBar(cfg, 1);
      Inv(cfg, s) && !SyncKeepsLedger(cfg, s, 2, Bearish)
  {
    var cfg := Config(1, 10, AcceptAll());
    OneLotLong(cfg, 1);
    var s := AfterBullishBar(cfg, 1);
    hide AfterBullishBar, Sync;
    SyncReachesTarget(cfg, s, 2, Bearish);
    AcceptedSyncMoves(cfg, s, 2, Bearish);
    assert Booked(Sync(cfg, s, 2, Bearish).0.sent, 2) == -2;
  }

  /** The same runner rolled to contract 2 by a process that dies before the pointer is written. */
  lemma RestartWitness()
    ensures var cfg := Config(1, 10, AcceptAll());
      var s := AfterBullishBar(cfg, 1);
      Inv(cfg, s) && !StepKeepsLedger(cfg, s, BullishBar(2).(diesAtPointer := true))
  {
    var cfg := Config(1, 10, AcceptAll());
    OneLotLong(cfg, 1);
    var s := AfterBullishBar(cfg, 1);
    hide AfterBullishBar, Step;
    RestartBeforePointerMisbooks(cfg, s, BullishBar(2).(diesAtPointer := true), 1, 2);
  }

  /** One lot on a fixed contract whose expiry exit is refused: zero is recorded, the lot stays. */
  lemma ExpiryWitness()
    ensures var cfg := Config(1, 10, AcceptBelow(1));
      var s := AfterBullishBar(cfg, 1);
      var t := Expire(cfg, s, 1).0;
      s.position == 1 && t.position == 0 && Booked(t.sent, 1) == 1
  {
    var cfg := Config(1, 10, AcceptBelow(1));
    OneLotLong(cfg, 1);
    var s := AfterBullishBar(cfg, 1);
    hide AfterBullishBar;
    assert Slices(1, 10, 1) == [1];
    FilledUpTo(cfg.script, 1, 1, 0);
    LegAddsPrefix(cfg.script, s, Exit, 1, Bearish, [1]);
    LegSummary(cfg, s, Exit, 1, Bearish, 1);
  }
}
