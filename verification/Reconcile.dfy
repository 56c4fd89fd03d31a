/**
 Closed-loop reconciliation of one symbol: the watchdog compares the runners' target with the
 broker's lots and sends a capped corrective batch, with exponential backoff after a rejection
 and a latch after a margin shortfall.
 */
module Reconcile {
  import opened Wrappers
  import opened Slicing
  import RM = RunnerModel
  import G = Gateway

  /** An enabled runner of the symbol, as the watchdog sees it. */
  datatype Member = Member(position: int, quantity: nat, paper: bool, busy: bool, marginPaused: bool)

  /** How a slice is taken, and the lots of it that landed: a partial failure counts as filled. */
  datatype Verdict = Filled(landed: int) | Rejected(margin: bool, landed: int)

  datatype History = Clear | Backoff(count: nat, until: real) | Latched

  /** What happened to the symbol: signed lots were sent, or a toggle or a restart cleared the history. */
  datatype Entry = Tried(at: real, lots: int, verdict: Verdict) | Cleared

  /** `held` is what the broker really holds, in lots. */
  datatype Watch = Watch(members: seq<Member>, held: int, history: History, log: seq<Entry>)

  /**
   One pass: the time it checks the history, the time a rejection is recorded, the raw quantity the
   broker reports, the watchdog's own freeze limit, the gateway's limits for the instrument, the
   target re-read under the lock, the broker's reply to each order, and whether the description of
   a rejection speaks of margin.
   */
  datatype Observation = Observation(
    now: real,
    rejectedAt: real,
    resolved: bool,
    inflight: bool,
    raw: int,
    freeze: int,
    gate: G.Gate,
    lateTarget: int,
    reply: nat -> G.Response,
    margin: nat -> bool)

  function Target(ms: seq<Member>): int {
    if ms == [] then 0 else ms[0].position + Target(ms[1..])
  }

  function TotalQuantity(ms: seq<Member>): nat {
    if ms == [] then 0 else ms[0].quantity + TotalQuantity(ms[1..])
  }

  /** Reported units as lots; a quantity that is no multiple of the lot is taken for lots as it is. */
  function LotsOf(raw: int, lot: int): int {
    if lot > 1 && raw % lot == 0 then raw / lot else raw
  }

  function Reported(obs: Observation): int {
    LotsOf(obs.raw, obs.gate.lot)
  }

  function Pow2(n: nat): nat {
    if n == 0 then 1 else 2 * Pow2(n - 1)
  }

  function BackoffSeconds(count: nat): int {
    Min(60 * Pow2(count), 3600)
  }

  function DriftCap(ms: seq<Member>): int {
    Max(TotalQuantity(ms) * 2, 10)
  }

  /** The guards before anything is compared. */
  predicate MayHeal(w: Watch, obs: Observation) {
    && w.members != []
    && !(forall i :: 0 <= i < |w.members| ==> w.members[i].paper)
    && !w.history.Latched?
    && !(w.history.Backoff? && w.history.until > obs.now)
    && (forall i :: 0 <= i < |w.members| ==> !w.members[i].marginPaused && !w.members[i].busy)
    && obs.resolved && !obs.inflight
  }

  /** The margin breaker: every runner of the symbol takes over the lots observed before the batch. */
  function TakeOver(ms: seq<Member>, lots: int): seq<Member> {
    seq(|ms|, i requires 0 <= i < |ms| => ms[i].(position := lots, marginPaused := true))
  }

  /** What the watchdog makes of a slice of c lots whose first order gets reply n. */
  function VerdictOn(obs: Observation, n: nat, c: int): Verdict {
    var d := G.EngineDispatch(obs.reply, n, c, obs.gate);
    var lots := d.landed / obs.gate.lot;
    if G.Counted(G.Recorded(d.result), false) then Filled(lots) else Rejected(obs.margin(n), lots)
  }

  /** The reply the next slice starts with. */
  function NextReply(obs: Observation, n: nat, c: int): nat {
    n + G.EngineDispatch(obs.reply, n, c, obs.gate).used
  }

  function AfterVerdict(w: Watch, obs: Observation, actual: int, d: RM.Direction, lots: int, v: Verdict): Watch {
    var moved := w.(held := w.held + RM.Signed(d, v.landed));
    match v
    case Filled(_) =>
      moved.(history := Clear, log := w.log + [Tried(obs.now, RM.Signed(d, lots), v)])
    case Rejected(margin, _) =>
      var logged := moved.(log := w.log + [Tried(obs.rejectedAt, RM.Signed(d, lots), v)]);
      if margin then logged.(members := TakeOver(w.members, actual), history := Latched)
      else
        var count := (if w.history.Backoff? then w.history.count else 0) + 1;
        logged.(history := Backoff(count, obs.rejectedAt + BackoffSeconds(count) as real))
  }

  /** Slices are sent until one is rejected. */
  function SendBatch(w: Watch, obs: Observation, actual: int, d: RM.Direction, chunks: seq<int>, n: nat): Watch
    decreases |chunks|
  {
    if chunks == [] then w
    else
      var v := VerdictOn(obs, n, chunks[0]);
      var t := AfterVerdict(w, obs, actual, d, chunks[0], v);
      if v.Filled? then SendBatch(t, obs, actual, d, chunks[1..], NextReply(obs, n, chunks[0])) else t
  }

  function Correction(target: int, actual: int): RM.Direction {
    if target > actual then RM.Bullish else RM.Bearish
  }

  /** The guards pass and the drift seen before the lock is nonzero and within the cap. */
  predicate Heals(w: Watch, obs: Observation) {
    var drift := Reported(obs) - Target(w.members);
    MayHeal(w, obs) && drift != 0 && Abs(drift) <= DriftCap(w.members)
  }

  /** The slices of a pass; the target is read again under the lock, the broker's lots are not. */
  function Batch(obs: Observation): seq<int> {
    Slices(Abs(obs.lateTarget - Reported(obs)), FreezeLots(obs.freeze, obs.gate.lot), 1)
  }

  function Pass(w: Watch, obs: Observation): Watch {
    if !Heals(w, obs) then w
    else
      var actual := Reported(obs);
      SendBatch(w, obs, actual, Correction(obs.lateTarget, actual), Batch(obs), 0)
  }

  // ---------------------------------------------------------------- reports

  /** The observation reports the truth and the target did not move while the lock was taken. */
  predicate Accurate(w: Watch, obs: Observation) {
    obs.raw == w.held * obs.gate.lot && obs.lateTarget == Target(w.members)
  }

  /** A report is read correctly exactly when it is a whole number of lots. */
  lemma LotsAreReadIff(raw: int, lot: int)
    requires lot >= 1
    ensures LotsOf(raw, lot) * lot == raw <==> (raw % lot == 0)
    ensures raw % lot != 0 ==> LotsOf(raw, lot) == raw
  {
    if raw % lot != 0 {
      if lot == 1 {
        DivModUnique(raw, 1, raw, 0);
      }
      if raw * lot == raw {
        assert raw * (lot - 1) == 0;
        assert raw == 0;
        DivModUnique(0, lot, 0, 0);
      }
    } else {
      assert raw == lot * (raw / lot) + raw % lot;
    }
  }

  lemma AccurateLots(w: Watch, obs: Observation)
    requires Accurate(w, obs)
    ensures Reported(obs) == w.held
  {
    LotDivides(w.held, obs.gate.lot);
  }

  // ---------------------------------------------------------------- what one batch does

  /** Lots that reach the broker: those of every slice sent, the rejected one included. */
  function LandedLots(obs: Observation, chunks: seq<int>, n: nat): int
    decreases |chunks|
  {
    if chunks == [] then 0
    else
      var v := VerdictOn(obs, n, chunks[0]);
      v.landed + (if v.Filled? then LandedLots(obs, chunks[1..], NextReply(obs, n, chunks[0])) else 0)
  }

  /** Lots sent: the slices up to the rejected one. */
  function SentLots(obs: Observation, chunks: seq<int>, n: nat): int
    decreases |chunks|
  {
    if chunks == [] then 0
    else
      chunks[0]
      + (if VerdictOn(obs, n, chunks[0]).Filled? then SentLots(obs, chunks[1..], NextReply(obs, n, chunks[0])) else 0)
  }

  /** The batch stops at a margin rejection. */
  predicate MarginStop(obs: Observation, chunks: seq<int>, n: nat)
    decreases |chunks|
  {
    chunks != []
    && var v := VerdictOn(obs, n, chunks[0]);
       if v.Filled? then MarginStop(obs, chunks[1..], NextReply(obs, n, chunks[0])) else v.margin
  }

  /** Every slice counts as filled. */
  predicate AllCounted(obs: Observation, chunks: seq<int>, n: nat)
    decreases |chunks|
  {
    chunks != [] ==>
      VerdictOn(obs, n, chunks[0]).Filled? && AllCounted(obs, chunks[1..], NextReply(obs, n, chunks[0]))
  }

  /** Every slice is reported as done, not just counted. */
  predicate AllDone(obs: Observation, chunks: seq<int>, n: nat)
    decreases |chunks|
  {
    chunks != [] ==>
      && G.EngineDispatch(obs.reply, n, chunks[0], obs.gate).result.Success?
      && AllDone(obs, chunks[1..], NextReply(obs, n, chunks[0]))
  }

  /** Lots of all orders in the log. */
  function Dispatched(log: seq<Entry>): int {
    if log == [] then 0
    else
      var last := log[|log| - 1];
      Dispatched(log[..|log| - 1]) + (if last.Tried? then Abs(last.lots) else 0)
  }

  lemma DispatchedAppend(log: seq<Entry>, e: Entry)
    ensures Dispatched(log + [e]) == Dispatched(log) + (if e.Tried? then Abs(e.lots) else 0)
  {
    assert (log + [e])[..|log|] == log;
  }

  /** Landed units against the units of c lots, and the same in lots. */
  lemma LotBounds(landed: int, c: int, lot: int, units: int)
    requires lot >= 1 && landed % lot == 0 && units == c * lot
    ensures var q := landed / lot;
      && (landed >= 0 <==> q >= 0) && (landed > 0 <==> q > 0)
      && (landed <= units <==> q <= c) && (landed >= units <==> q >= c)
      && (landed <= 2 * units <==> q <= 2 * c)
  {
    LotOrder(landed / lot, 0, lot);
    LotOrder(landed / lot, c, lot);
    LotOrder(landed / lot, 2 * c, lot);
  }

  lemma LotOrder(q: int, c: int, lot: int)
    requires lot >= 1
    ensures q <= c <==> lot * q <= lot * c
    ensures q >= c <==> lot * q >= lot * c
  {
    if q < c {
      MulMonotone(q + 1, c, lot);
    } else {
      MulMonotone(c, q, lot);
      if q > c {
        MulMonotone(c + 1, q, lot);
      }
    }
  }

  /** One slice: what can land of it and when it counts. */
  lemma SliceFacts(obs: Observation, n: nat, c: int)
    requires c >= 1
    ensures var v, done := VerdictOn(obs, n, c), G.EngineDispatch(obs.reply, n, c, obs.gate).result.Success?;
      && 0 <= v.landed <= 2 * c
      && (G.NoBlindRepeat(obs.reply) ==> v.landed <= c)
      && (v.Filled? ==> 1 <= v.landed)
      && (done ==> v.Filled? && c <= v.landed)
      && (v.Filled? ==> G.Takes(obs.gate, c) && (G.Fits(obs.gate, c) ==> done))
      && (!G.Takes(obs.gate, c) ==> v == Rejected(obs.margin(n), 0))
  {
    var g := obs.gate;
    var d := G.EngineDispatch(obs.reply, n, c, g);
    DispatchFacts(obs.reply, n, c, g);
    G.LandedIsLots(obs.reply, n, c, g);
    var units, lot := c * g.lot, g.lot;
    hide G.EngineDispatch, G.Fits, G.Takes, G.NoBlindRepeat, G.Counted, G.Recorded;
    LotBounds(d.landed, c, lot, units);
  }

  lemma DispatchFacts(reply: nat -> G.Response, n: nat, c: int, g: G.Gate)
    requires c >= 1
    ensures var d := G.EngineDispatch(reply, n, c, g);
      && 0 <= d.landed <= 2 * (c * g.lot)
      && (G.NoBlindRepeat(reply) ==> d.landed <= c * g.lot)
      && (d.result.Success? ==> c * g.lot <= d.landed)
      && (G.Counted(G.Recorded(d.result), false) ==> 0 < d.landed && G.Takes(g, c) && (G.Fits(g, c) ==> d.result.Success?))
      && (!G.Takes(g, c) ==> d == G.Dispatch(G.Error(G.OtherText), 0, 0))
  {
    MulMonotone(1, c, g.lot);
    G.ExecuteLands(reply, n, c * g.lot, g.freeze, g.lot);
    if G.Takes(g, c) && G.Fits(g, c) {
      G.EngineSliceIsAllOrNothing(reply, n, c, g, false);
    }
    hide G.Execute, G.Fits, G.NoBlindRepeat;
  }

  lemma {:induction false} BatchLands(w: Watch, obs: Observation, actual: int, d: RM.Direction, chunks: seq<int>, n: nat)
    requires forall j :: 0 <= j < |chunks| ==> chunks[j] > 0
    ensures var t := SendBatch(w, obs, actual, d, chunks, n);
      && t.held == w.held + RM.Signed(d, LandedLots(obs, chunks, n))
      && Dispatched(t.log) == Dispatched(w.log) + SentLots(obs, chunks, n)
      && (if MarginStop(obs, chunks, n) then t.history.Latched? && t.members == TakeOver(w.members, actual)
          else t.members == w.members && (t.history.Latched? ==> w.history.Latched?))
      && (chunks != [] && AllCounted(obs, chunks, n) ==> t.history.Clear? && !MarginStop(obs, chunks, n))
    decreases |chunks|
  {
    if chunks != [] {
      var v := VerdictOn(obs, n, chunks[0]);
      hide VerdictOn, NextReply, TakeOver, BackoffSeconds;
      DispatchedAppend(w.log, Tried(if v.Filled? then obs.now else obs.rejectedAt, RM.Signed(d, chunks[0]), v));
      hide Dispatched;
      if v.Filled? {
        BatchLands(
          AfterVerdict(w, obs, actual, d, chunks[0], v), obs, actual, d, chunks[1..], NextReply(obs, n, chunks[0]));
      }
    }
  }

  lemma BatchIsPositive(obs: Observation)
    ensures forall j :: 0 <= j < |Batch(obs)| ==> Batch(obs)[j] > 0
    ensures Sum(Batch(obs)) == Abs(obs.lateTarget - Reported(obs))
    ensures obs.lateTarget != Reported(obs) ==> Batch(obs) != [] && Batch(obs)[0] == LargestSliceOf(obs)
    ensures forall j :: 0 <= j < |Batch(obs)| ==> Batch(obs)[j] <= LargestSliceOf(obs)
  {
    var q, cap := Abs(obs.lateTarget - Reported(obs)), FreezeLots(obs.freeze, obs.gate.lot);
    SlicesConserve(q, cap, 1);
    if q > 0 {
      LargestSlice(q, cap);
    }
    forall j | 0 <= j < |Batch(obs)| ensures 0 < Batch(obs)[j] <= LargestSliceOf(obs) {
      assert Batch(obs)[j] in Slices(q, cap, 1);
    }
  }

  /** The first slice of a batch, which none of the others exceeds. */
  function LargestSliceOf(obs: Observation): int {
    Min(Abs(obs.lateTarget - Reported(obs)), FreezeLots(obs.freeze, obs.gate.lot))
  }

  lemma SmallerPasses(g: G.Gate, c: int, d: int)
    requires 0 <= c <= d
    ensures G.Takes(g, d) ==> G.Takes(g, c)
    ensures G.Fits(g, d) ==> G.Fits(g, c)
  {
    MulMonotone(c, d, g.lot);
  }

  /** What a batch lands and sends, for every broker. */
  lemma {:induction false} LotsWithinBatch(obs: Observation, chunks: seq<int>, n: nat)
    requires forall j :: 0 <= j < |chunks| ==> chunks[j] > 0
    ensures 0 <= LandedLots(obs, chunks, n) <= 2 * SentLots(obs, chunks, n)
    ensures SentLots(obs, chunks, n) <= Sum(chunks)
    ensures G.NoBlindRepeat(obs.reply) ==> LandedLots(obs, chunks, n) <= SentLots(obs, chunks, n)
    ensures AllDone(obs, chunks, n) ==>
      AllCounted(obs, chunks, n) && SentLots(obs, chunks, n) == Sum(chunks) <= LandedLots(obs, chunks, n)
    ensures chunks != [] ==> (LandedLots(obs, chunks, n) == 0
      <==> VerdictOn(obs, n, chunks[0]).Rejected? && VerdictOn(obs, n, chunks[0]).landed == 0)
    decreases |chunks|
  {
    if chunks != [] {
      SliceFacts(obs, n, chunks[0]);
      SumPositive(chunks[1..]);
      hide VerdictOn, NextReply, G.NoBlindRepeat, G.Fits, G.Takes, G.EngineDispatch;
      LotsWithinBatch(obs, chunks[1..], NextReply(obs, n, chunks[0]));
    }
  }

  /** Slices that fit the gateway are done when they count. */
  lemma {:induction false} FittingBatchIsDone(obs: Observation, chunks: seq<int>, n: nat)
    requires forall j :: 0 <= j < |chunks| ==> chunks[j] > 0 && G.Fits(obs.gate, chunks[j])
    requires AllCounted(obs, chunks, n)
    ensures AllDone(obs, chunks, n)
    decreases |chunks|
  {
    if chunks != [] {
      SliceFacts(obs, n, chunks[0]);
      hide VerdictOn, NextReply, G.Fits, G.EngineDispatch;
      FittingBatchIsDone(obs, chunks[1..], NextReply(obs, n, chunks[0]));
    }
  }

  /** A broker that books everything from here on makes a batch within the size caps done. */
  lemma {:induction false} BookedBatchIsDone(obs: Observation, chunks: seq<int>, n: nat)
    requires forall j :: 0 <= j < |chunks| ==> chunks[j] > 0 && G.Takes(obs.gate, chunks[j])
    requires forall k :: n <= k ==> obs.reply(k).Booked?
    ensures AllDone(obs, chunks, n)
    decreases |chunks|
  {
    if chunks != [] {
      G.BookedThrough(obs.reply, n, chunks[0], obs.gate);
      hide G.EngineDispatch, G.Takes;
      BookedBatchIsDone(obs, chunks[1..], NextReply(obs, n, chunks[0]));
    }
  }

  /** What the pass sends and lands, for every observation. */
  lemma PassLands(w: Watch, obs: Observation)
    requires Heals(w, obs)
    ensures var t, actual := Pass(w, obs), Reported(obs);
      var landed, sent := LandedLots(obs, Batch(obs), 0), SentLots(obs, Batch(obs), 0);
      && t.held == w.held + RM.Signed(Correction(obs.lateTarget, actual), landed)
      && Dispatched(t.log) == Dispatched(w.log) + sent
      && 0 <= landed <= 2 * sent && sent <= Abs(obs.lateTarget - actual)
      && (G.NoBlindRepeat(obs.reply) ==> landed <= sent)
      && (if MarginStop(obs, Batch(obs), 0) then t.history.Latched? && t.members == TakeOver(w.members, actual)
          else !t.history.Latched? && t.members == w.members)
      && (Batch(obs) != [] && AllCounted(obs, Batch(obs), 0) ==> t.history.Clear?)
  {
    var actual := Reported(obs);
    BatchIsPositive(obs);
    hide Batch, G.NoBlindRepeat, VerdictOn;
    LotsWithinBatch(obs, Batch(obs), 0);
    BatchLands(w, obs, actual, Correction(obs.lateTarget, actual), Batch(obs), 0);
  }

  // ---------------------------------------------------------------- the watchdog

  class Watchdog {
    var members: seq<Member>
    var held: int
    var history: History
    var log: seq<Entry>

    ghost function View(): Watch
      reads this
    {
      Watch(members, held, history, log)
    }

    constructor (members: seq<Member>, held: int)
      ensures View() == Watch(members, held, Clear, [])
    {
      this.members, this.held, history, log := members, held, Clear, [];
    }

    method RecordVerdict(obs: Observation, actual: int, d: RM.Direction, lots: int, v: Verdict)
      modifies this
      ensures View() == AfterVerdict(old(View()), obs, actual, d, lots, v)
    {
      held := held + RM.Signed(d, v.landed);
      match v {
        case Filled(_) =>
          log := log + [Tried(obs.now, RM.Signed(d, lots), v)];
          history := Clear;
        case Rejected(margin, _) =>
          log := log + [Tried(obs.rejectedAt, RM.Signed(d, lots), v)];
          if margin {
            members := seq(|members|, i requires 0 <= i < |members| reads this =>
              members[i].(position := actual, marginPaused := true));
            history := Latched;
          } else {
            var count := (if history.Backoff? then history.count else 0) + 1;
            history := Backoff(count, obs.rejectedAt + BackoffSeconds(count) as real);
          }
      }
    }

    /** One corrective slice through the gateway, and how its recorded status is read. */
    method DispatchSlice(obs: Observation, n: nat, c: int) returns (v: Verdict, next: nat)
      requires c >= 1
      ensures v == VerdictOn(obs, n, c) && next == NextReply(obs, n, c)
    {
      MulMonotone(1, c, obs.gate.lot);
      var d := G.Dispatch(G.Error(G.OtherText), 0, 0);
      if G.Takes(obs.gate, c) {
        d := G.ExecuteTradeWithRetry(obs.reply, n, c * obs.gate.lot, obs.gate.freeze, obs.gate.lot);
      }
      var status, lots := G.Recorded(d.result), d.landed / obs.gate.lot;
      v := if status in {G.DoneStatus, G.PartialStatus} then Filled(lots) else Rejected(obs.margin(n), lots);
      next := n + d.used;
    }

    method ReconcilePass(obs: Observation)
      modifies this
      ensures View() == Pass(old(View()), obs)
    {
      if !MayHeal(Watch(members, held, history, log), obs) {
        return;
      }
      var actual := Reported(obs);
      var drift := actual - Target(members);
      if drift == 0 || Abs(drift) > Max(TotalQuantity(members) * 2, 10) || obs.lateTarget == actual {
        return;
      }
      var d := Correction(obs.lateTarget, actual);
      var chunks :=
        SliceQuantityForFreeze(Abs(obs.lateTarget - actual), FreezeLots(obs.freeze, obs.gate.lot), 1);
      ghost var all := SendBatch(View(), obs, actual, d, chunks, 0);
      assert all == Pass(old(View()), obs);
      hide VerdictOn, NextReply, AfterVerdict, Pass, MayHeal;
      var i, n := 0, 0;
      while i < |chunks|
        invariant 0 <= i <= |chunks|
        invariant SendBatch(View(), obs, actual, d, chunks[i..], n) == all
      {
        assert chunks[i..][1..] == chunks[i + 1..];
        assert chunks[i] in chunks;
        var v, next := DispatchSlice(obs, n, chunks[i]);
        RecordVerdict(obs, actual, d, chunks[i], v);
        if v.Rejected? {
          return;
        }
        i, n := i + 1, next;
      }
    }
  }
}
