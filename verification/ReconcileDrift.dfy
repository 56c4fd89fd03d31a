/**
 What a pass of the watchdog does to the drift, for every broker: overshoot, convergence, the cap,
 refusals hidden behind a booked part, and the margin breaker, each with its exact condition.
 */
module ReconcileDrift {
  import opened Wrappers
  import opened Slicing
  import opened ErrorText
  import opened Reconcile
  import RM = RunnerModel
  import G = Gateway

  // ---------------------------------------------------------------- when a pass acts

  /** Some runner trades live, and none is busy or paused for margin. */
  predicate RunnersReady(ms: seq<Member>) {
    && (exists i :: 0 <= i < |ms| && !ms[i].paper)
    && (forall i :: 0 <= i < |ms| ==> !ms[i].busy)
    && (forall i :: 0 <= i < |ms| ==> !ms[i].marginPaused)
  }

  /**
   A pass sends a corrective order if and only if its runners are ready, the contract is resolved
   without an order in flight, neither a latch nor a running backoff suppresses it, the drift is
   nonzero and within the cap, and the target under the lock still differs from the report.
   Otherwise it changes nothing at all.
   */
  lemma PassActsIff(w: Watch, obs: Observation)
    ensures var drift := Reported(obs) - Target(w.members);
      Pass(w, obs).log != w.log
      <==> (&& RunnersReady(w.members) && obs.resolved && !obs.inflight
            && !w.history.Latched? && (w.history.Backoff? ==> w.history.until <= obs.now)
            && drift != 0 && Abs(drift) <= Max(2 * TotalQuantity(w.members), 10)
            && obs.lateTarget != Reported(obs))
    ensures Pass(w, obs).log == w.log ==> Pass(w, obs) == w
  {
    HealsIff(w, obs);
    if obs.lateTarget == Reported(obs) {
      assert Batch(obs) == [];
    } else if Heals(w, obs) {
      BatchIsPositive(obs);
      hide Pass, Batch, Heals, RunnersReady;
      PassLands(w, obs);
      SentAtLeastFirst(obs, Batch(obs), 0);
    }
  }

  lemma HealsIff(w: Watch, obs: Observation)
    ensures var drift := Reported(obs) - Target(w.members);
      Heals(w, obs)
      <==> (&& RunnersReady(w.members) && obs.resolved && !obs.inflight
            && !w.history.Latched? && (w.history.Backoff? ==> w.history.until <= obs.now)
            && drift != 0 && Abs(drift) <= Max(2 * TotalQuantity(w.members), 10))
  {
  }

  lemma SentAtLeastFirst(obs: Observation, chunks: seq<int>, n: nat)
    requires chunks != [] && forall j :: 0 <= j < |chunks| ==> chunks[j] > 0
    ensures SentLots(obs, chunks, n) > 0
  {
    LotsWithinBatch(obs, chunks[1..], NextReply(obs, n, chunks[0]));
    hide VerdictOn, NextReply;
  }

  /** The target of a symbol is the sum of its runners' positions, and the cap that of their quantities. */
  lemma {:induction false} TargetIsSum(ms: seq<Member>)
    ensures Target(ms) == Sum(seq(|ms|, i requires 0 <= i < |ms| => ms[i].position))
    ensures TotalQuantity(ms) == Sum(seq(|ms|, i requires 0 <= i < |ms| => ms[i].quantity as int))
  {
    var ps, qs :=
      seq(|ms|, i requires 0 <= i < |ms| => ms[i].position), seq(|ms|, i requires 0 <= i < |ms| => ms[i].quantity as int);
    if ms != [] {
      var rest := ms[1..];
      assert ps[1..] == seq(|rest|, i requires 0 <= i < |rest| => rest[i].position);
      assert qs[1..] == seq(|rest|, i requires 0 <= i < |rest| => rest[i].quantity as int);
      TargetIsSum(rest);
    }
  }

  // ---------------------------------------------------------------- convergence

  /**
   Whatever the report says, the target does and the slices become, the lots move only in the
   direction of the correction and no more than it is sent.  They stay within it as long as nothing
   lands behind an error that reads like a lost session.
   */
  lemma LotsMoveByTheCorrection(w: Watch, obs: Observation)
    requires Heals(w, obs)
    ensures var t, correction := Pass(w, obs), obs.lateTarget - Reported(obs);
      && 0 <= RM.Signed(Correction(obs.lateTarget, Reported(obs)), t.held - w.held) <= 2 * Abs(correction)
      && (G.NoBlindRepeat(obs.reply) ==>
            if correction >= 0 then w.held <= t.held <= w.held + correction
            else w.held + correction <= t.held <= w.held)
      && Dispatched(t.log) - Dispatched(w.log) <= Abs(correction)
  {
    PassLands(w, obs);
  }

  /** The first slice of the batch is larger than the gateway takes, so nothing is posted at all. */
  predicate RefusedOutright(obs: Observation) {
    obs.lateTarget != Reported(obs) && !G.Takes(obs.gate, LargestSliceOf(obs))
  }

  lemma RefusedLandsNothing(obs: Observation)
    requires RefusedOutright(obs)
    ensures !AllCounted(obs, Batch(obs), 0)
    ensures LandedLots(obs, Batch(obs), 0) == 0 && SentLots(obs, Batch(obs), 0) == LargestSliceOf(obs)
  {
    BatchIsPositive(obs);
    SliceFacts(obs, 0, Batch(obs)[0]);
  }

  lemma TakenBatch(obs: Observation)
    requires !RefusedOutright(obs)
    ensures forall j :: 0 <= j < |Batch(obs)| ==> Batch(obs)[j] > 0 && G.Takes(obs.gate, Batch(obs)[j])
  {
    BatchIsPositive(obs);
    if obs.lateTarget != Reported(obs) {
      hide Batch, G.Takes, LargestSliceOf;
      forall j | 0 <= j < |Batch(obs)| ensures G.Takes(obs.gate, Batch(obs)[j]) {
        SmallerPasses(obs.gate, Batch(obs)[j], LargestSliceOf(obs));
      }
    }
  }

  /** The lots stay within the correction. */
  predicate WithinCorrection(w: Watch, obs: Observation) {
    Abs(Pass(w, obs).held - w.held) <= Abs(obs.lateTarget - Reported(obs))
  }

  /** The first order of the batch lands behind a lost session: it is sent again and overshoots. */
  lemma BlindRepeatOvershoots(w: Watch, obs: Observation)
    requires Heals(w, obs) && obs.reply == G.DroppedFirst()
    requires obs.lateTarget != Reported(obs) && !RefusedOutright(obs)
    ensures !WithinCorrection(w, obs)
  {
    PassLands(w, obs);
    BatchIsPositive(obs);
    TakenBatch(obs);
    var chunks := Batch(obs);
    hide Batch, RefusedOutright, Pass, Heals;
    var c := chunks[0];
    G.DroppedFirstLandsMore(c, obs.gate);
    G.LandedIsLots(obs.reply, 0, c, obs.gate);
    LotBounds(G.EngineDispatch(obs.reply, 0, c, obs.gate).landed, c, obs.gate.lot, c * obs.gate.lot);
    assert VerdictOn(obs, 0, c).Filled? && VerdictOn(obs, 0, c).landed > c;
    SliceUsesReply(obs, 0, c);
    hide VerdictOn, G.EngineDispatch, G.Takes;
    var rest, n := chunks[1..], NextReply(obs, 0, c);
    BookedBatchIsDone(obs, rest, n);
    LotsWithinBatch(obs, rest, n);
  }

  lemma SliceUsesReply(obs: Observation, n: nat, c: int)
    requires c >= 1 && G.Takes(obs.gate, c)
    ensures NextReply(obs, n, c) > n
  {
    MulMonotone(1, c, obs.gate.lot);
    SlicesConserve(c * obs.gate.lot, obs.gate.freeze, obs.gate.lot);
    hide Slices;
  }

  /**
   No broker makes the lots overshoot the correction if and only if nothing is to be posted: the
   correction is empty or its first slice is refused outright.
   */
  lemma NoOvershootIff(w: Watch, obs: Observation)
    requires Heals(w, obs)
    ensures (forall reply :: WithinCorrection(w, obs.(reply := reply)))
      <==> (obs.lateTarget == Reported(obs) || RefusedOutright(obs))
  {
    if obs.lateTarget == Reported(obs) || RefusedOutright(obs) {
      forall reply ensures WithinCorrection(w, obs.(reply := reply)) {
        var o := obs.(reply := reply);
        PassLands(w, o);
        if RefusedOutright(o) {
          RefusedLandsNothing(o);
        }
      }
    } else {
      var o := obs.(reply := G.DroppedFirst());
      BlindRepeatOvershoots(w, o);
      assert !WithinCorrection(w, o);
    }
  }

  /**
   No overshoot: with a true report, a target that stays, and no order landing behind a lost
   session, the broker's lots move towards the target and not beyond, even when slices count as
   filled and land in part; and no more than the cap is dispatched.
   */
  lemma DriftNeverGrows(w: Watch, obs: Observation)
    requires Accurate(w, obs) && G.NoBlindRepeat(obs.reply)
    ensures var t := Pass(w, obs);
      && (if w.held <= Target(w.members) then w.held <= t.held <= Target(w.members)
          else Target(w.members) <= t.held <= w.held)
      && Dispatched(t.log) - Dispatched(w.log) <= Max(2 * TotalQuantity(w.members), 10)
  {
    if Heals(w, obs) {
      AccurateLots(w, obs);
      LotsMoveByTheCorrection(w, obs);
    }
  }

  /** When all slices of the pass count as filled, the lots are at the target it read last. */
  ghost predicate CountedMeansTarget(w: Watch, obs: Observation) {
    G.NoBlindRepeat(obs.reply) && AllCounted(obs, Batch(obs), 0) ==> Pass(w, obs).held == obs.lateTarget
  }

  /** Slices that are all done move the lots by the whole correction. */
  lemma DoneMovesWhole(w: Watch, obs: Observation)
    requires Heals(w, obs) && G.NoBlindRepeat(obs.reply) && AllDone(obs, Batch(obs), 0)
    ensures Pass(w, obs).held == w.held + (obs.lateTarget - Reported(obs))
    ensures Pass(w, obs).members == w.members && AllCounted(obs, Batch(obs), 0)
    ensures Dispatched(Pass(w, obs).log) - Dispatched(w.log) == Abs(obs.lateTarget - Reported(obs))
  {
    PassLands(w, obs);
    BatchIsPositive(obs);
    hide G.NoBlindRepeat, VerdictOn;
    LotsWithinBatch(obs, Batch(obs), 0);
    BatchLands(w, obs, Reported(obs), Correction(obs.lateTarget, Reported(obs)), Batch(obs), 0);
  }

  /** A first slice that is cut again and ends in part counts as filled and leaves the target unmet. */
  lemma PartMissesTarget(w: Watch, obs: Observation)
    requires Heals(w, obs) && obs.reply == G.PartAfterSession()
    requires obs.lateTarget != Reported(obs) && !RefusedOutright(obs)
    requires !G.Fits(obs.gate, LargestSliceOf(obs))
    ensures G.NoBlindRepeat(obs.reply) && AllCounted(obs, Batch(obs), 0)
    ensures LandedLots(obs, Batch(obs), 0) < Abs(obs.lateTarget - Reported(obs))
    ensures Reported(obs) == w.held ==> Pass(w, obs).held != obs.lateTarget
  {
    PassLands(w, obs);
    BatchIsPositive(obs);
    TakenBatch(obs);
    var chunks, g := Batch(obs), obs.gate;
    var c := chunks[0];
    hide Batch, RefusedOutright, Pass, Heals;
    G.CutSliceEndsPartially(c, g);
    G.LandedIsLots(obs.reply, 0, c, g);
    LotBounds(G.EngineDispatch(obs.reply, 0, c, g).landed, c, g.lot, c * g.lot);
    assert VerdictOn(obs, 0, c).Filled? && VerdictOn(obs, 0, c).landed < c && NextReply(obs, 0, c) == 3;
    hide VerdictOn, NextReply, G.EngineDispatch, G.Takes;
    BookedBatchIsDone(obs, chunks[1..], 3);
    LotsWithinBatch(obs, chunks[1..], 3);
  }

  lemma BookedMovesWhole(w: Watch, obs: Observation)
    requires Heals(w, obs) && !RefusedOutright(obs) && forall k :: obs.reply(k).Booked?
    ensures G.NoBlindRepeat(obs.reply) && AllCounted(obs, Batch(obs), 0)
    ensures Pass(w, obs).held == w.held + (obs.lateTarget - Reported(obs))
    ensures Dispatched(Pass(w, obs).log) - Dispatched(w.log) == Abs(obs.lateTarget - Reported(obs))
  {
    TakenBatch(obs);
    BookedBatchIsDone(obs, Batch(obs), 0);
    DoneMovesWhole(w, obs);
  }

  lemma FittingHitsTarget(w: Watch, obs: Observation)
    requires Heals(w, obs) && G.Fits(obs.gate, LargestSliceOf(obs)) && Reported(obs) == w.held
    ensures CountedMeansTarget(w, obs)
  {
    if G.NoBlindRepeat(obs.reply) && AllCounted(obs, Batch(obs), 0) {
      BatchIsPositive(obs);
      forall j | 0 <= j < |Batch(obs)| ensures G.Fits(obs.gate, Batch(obs)[j]) {
        SmallerPasses(obs.gate, Batch(obs)[j], LargestSliceOf(obs));
      }
      FittingBatchIsDone(obs, Batch(obs), 0);
      DoneMovesWhole(w, obs);
    }
  }

  /**
   For every broker, a pass whose slices all count as filled ends at the late target, if and only
   if the report told the lots held and the largest slice passes the gateway uncut (or the first
   slice is refused outright, so that none counts).
   */
  lemma FullAcceptanceHitsTargetIff(w: Watch, obs: Observation)
    requires Heals(w, obs) && obs.lateTarget != Reported(obs)
    ensures (forall reply :: CountedMeansTarget(w, obs.(reply := reply)))
      <==> RefusedOutright(obs) || (Reported(obs) == w.held && G.Fits(obs.gate, LargestSliceOf(obs)))
  {
    hide Heals, Pass, G.Fits, G.NoBlindRepeat, AllCounted, Batch;
    if RefusedOutright(obs) {
      forall reply ensures CountedMeansTarget(w, obs.(reply := reply)) {
        RefusedLandsNothing(obs.(reply := reply));
      }
    } else if Reported(obs) != w.held {
      var o := obs.(reply := _ => G.Booked);
      assert Heals(w, o) by { SameGuards(w, obs, o); }
      BookedMovesWhole(w, o);
      assert !CountedMeansTarget(w, o);
    } else if G.Fits(obs.gate, LargestSliceOf(obs)) {
      forall reply ensures CountedMeansTarget(w, obs.(reply := reply)) {
        var o := obs.(reply := reply);
        SameGuards(w, obs, o);
        FittingHitsTarget(w, o);
      }
    } else {
      var o := obs.(reply := G.PartAfterSession());
      SameGuards(w, obs, o);
      PartMissesTarget(w, o);
      assert !CountedMeansTarget(w, o);
    }
  }

  /** The guards do not look at replies. */
  lemma SameGuards(w: Watch, obs: Observation, o: Observation)
    requires Heals(w, obs) && o == obs.(reply := o.reply)
    ensures Heals(w, o)
  {
  }

  /** With every slice done, a true report and a target that stays, the next pass does nothing at all. */
  lemma FullAcceptanceConverges(w: Watch, obs: Observation, next: Observation)
    requires Accurate(w, obs) && MayHeal(w, obs) && G.NoBlindRepeat(obs.reply) && AllDone(obs, Batch(obs), 0)
    requires Abs(w.held - Target(w.members)) <= Max(2 * TotalQuantity(w.members), 10)
    ensures var t := Pass(w, obs);
      && t.held == Target(t.members) && t.members == w.members
      && (Accurate(t, next) ==> Pass(t, next) == t)
  {
    AccurateLots(w, obs);
    if Heals(w, obs) {
      DoneMovesWhole(w, obs);
    }
    var t := Pass(w, obs);
    if Accurate(t, next) {
      AccurateLots(t, next);
    }
  }

  predicate WithinCap(w: Watch, obs: Observation) {
    Dispatched(Pass(w, obs).log) - Dispatched(w.log) <= DriftCap(w.members)
  }

  /**
   The cap is checked before the lock: a batch respects it for every broker if and only if the
   target read under the lock is still within the cap of the report, or the batch ends at once
   with a slice within the cap that is refused outright.
   */
  lemma BatchRespectsCapIff(w: Watch, obs: Observation)
    requires Heals(w, obs)
    ensures (forall reply :: WithinCap(w, obs.(reply := reply)))
      <==> (Abs(obs.lateTarget - Reported(obs)) <= DriftCap(w.members)
            || (RefusedOutright(obs) && LargestSliceOf(obs) <= DriftCap(w.members)))
  {
    hide Pass, Batch;
    if Abs(obs.lateTarget - Reported(obs)) <= DriftCap(w.members) {
      forall reply ensures WithinCap(w, obs.(reply := reply)) {
        LotsMoveByTheCorrection(w, obs.(reply := reply));
      }
    } else if RefusedOutright(obs) {
      forall reply ensures WithinCap(w, obs.(reply := reply)) <==> LargestSliceOf(obs) <= DriftCap(w.members) {
        PassLands(w, obs.(reply := reply));
        RefusedLandsNothing(obs.(reply := reply));
      }
      assert obs == obs.(reply := obs.reply);
    } else {
      var booked := obs.(reply := _ => G.Booked);
      BookedMovesWhole(w, booked);
      assert !WithinCap(w, booked);
    }
  }

  lemma SingleSlicePass(w: Watch, obs: Observation)
    requires Heals(w, obs) && |Batch(obs)| == 1
    ensures var actual, c := Reported(obs), Batch(obs)[0];
      Pass(w, obs) == AfterVerdict(w, obs, actual, Correction(obs.lateTarget, actual), c, VerdictOn(obs, 0, c))
  {
    var actual, c := Reported(obs), Batch(obs)[0];
    assert Batch(obs) == [c];
    assert Batch(obs)[1..] == [];
    var t := AfterVerdict(w, obs, actual, Correction(obs.lateTarget, actual), c, VerdictOn(obs, 0, c));
    hide VerdictOn, AfterVerdict, Batch, NextReply;
    assert SendBatch(t, obs, actual, Correction(obs.lateTarget, actual), [], NextReply(obs, 0, c)) == t;
  }

  /**
   A slice refused behind a booked part, at the first attempt and for whatever reason: it counts as
   filled, so that even a margin refusal neither latches nor backs off, if and only if the message
   about the part holds no 502, 503 or 504.
   */
  lemma PartHidesRefusalIff(w: Watch, obs: Observation)
    requires Heals(w, obs) && |Batch(obs)| == 1 && G.Takes(obs.gate, Batch(obs)[0])
    requires 0 < G.BookedSlices(obs.reply, 0, |G.Pieces(obs.gate, Batch(obs)[0])|) < |G.Pieces(obs.gate, Batch(obs)[0])|
    ensures var pieces := G.Pieces(obs.gate, Batch(obs)[0]);
      var booked := Sum(pieces[..G.BookedSlices(obs.reply, 0, |pieces|)]);
      && 0 < booked < Batch(obs)[0] * obs.gate.lot
      && (Pass(w, obs).history.Clear? <==> !HasCode(Message(booked, Batch(obs)[0] * obs.gate.lot)))
      && (!Pass(w, obs).history.Clear? ==> (Pass(w, obs).history.Latched? <==> obs.margin(0)))
  {
    BatchIsPositive(obs);
    var c := Batch(obs)[0];
    SingleSlicePass(w, obs);
    hide Batch, Pass, Heals;
    G.PartIsRecordedFailedIff(obs.reply, 0, c, obs.gate);
    hide G.EngineDispatch, HasCode, Message, G.BookedSlices, G.Pieces, Reported, TakeOver, BackoffSeconds;
  }

  lemma {:induction false} TargetOfTakeOver(ms: seq<Member>, lots: int)
    ensures Target(TakeOver(ms, lots)) == |ms| * lots
  {
    if ms != [] {
      assert TakeOver(ms, lots)[1..] == TakeOver(ms[1..], lots);
      TargetOfTakeOver(ms[1..], lots);
    }
  }

  /**
   The margin breaker writes the lots reported before the batch to every runner.  A batch stopped
   by a margin rejection ends without drift if and only if the lots that landed make the lots held
   the same multiple of the reported ones; for a single runner and a true report, if and only if
   the first slice was the rejected one and nothing of it landed.
   */
  lemma BreakerRemovesDriftIff(w: Watch, obs: Observation)
    requires Heals(w, obs) && MarginStop(obs, Batch(obs), 0)
    ensures var t, actual := Pass(w, obs), Reported(obs);
      var landed := RM.Signed(Correction(obs.lateTarget, actual), LandedLots(obs, Batch(obs), 0));
      && t.history.Latched? && |t.members| == |w.members|
      && (forall i :: 0 <= i < |w.members| ==> t.members[i] == w.members[i].(position := actual, marginPaused := true))
      && (t.held == Target(t.members) <==> w.held + landed == |w.members| * actual)
      && (|w.members| == 1 && actual == w.held ==>
            (t.held == Target(t.members)
             <==> VerdictOn(obs, 0, LargestSliceOf(obs)).Rejected? && VerdictOn(obs, 0, LargestSliceOf(obs)).landed == 0))
  {
    PassLands(w, obs);
    BatchIsPositive(obs);
    hide VerdictOn, LargestSliceOf;
    LotsWithinBatch(obs, Batch(obs), 0);
    TargetOfTakeOver(w.members, Reported(obs));
  }

  // ---------------------------------------------------------------- concrete passes

  function Idle(position: int, quantity: nat): Member {
    Member(position, quantity, false, false, false)
  }

  /** An undisturbed pass over a symbol of lot size one. */
  function Seen(raw: int, lateTarget: int, reply: nat -> G.Response, margin: bool): Observation {
    Observation(0.0, 0.0, true, false, raw, 100000, G.Gate(100000, 1, 100, 100000), lateTarget, reply, _ => margin)
  }

  function AllBooked(): nat -> G.Response {
    (_: nat) => G.Booked
  }

  function AllRefused(): nat -> G.Response {
    (_: nat) => G.RmsRejected
  }

  /** A single runner that nothing holds back. */
  lemma SoloHeals(w: Watch, obs: Observation, position: int, quantity: nat)
    requires w.members == [Idle(position, quantity)] && w.history.Clear? && obs.resolved && !obs.inflight
    requires 0 < Abs(Reported(obs) - position) <= Max(2 * quantity, 10)
    ensures Target(w.members) == position && TotalQuantity(w.members) == quantity && Heals(w, obs)
  {
    assert !w.members[0].paper;
    assert w.members[1..] == [];
  }

  /** One lot of a symbol of lot size one, refused. */
  lemma OneLotIsRefused(obs: Observation)
    requires obs == Seen(obs.raw, obs.lateTarget, AllRefused(), obs.margin(0))
    requires Abs(obs.lateTarget - Reported(obs)) == 1
    ensures Batch(obs) == [1] && VerdictOn(obs, 0, 1) == Rejected(obs.margin(0), 0)
  {
    G.FittingSlice(obs.reply, 0, 1, obs.gate);
    hide G.EngineDispatch;
  }

  lemma PairHeals(w: Watch, obs: Observation)
    requires w == Watch([Idle(1, 1), Idle(1, 1)], 1, Clear, [])
    requires obs == Seen(1, 2, AllRefused(), true)
    ensures Target(w.members) == 2 && Accurate(w, obs) && Heals(w, obs) && Reported(obs) == 1
  {
    assert w.members[1..] == [Idle(1, 1)] && [Idle(1, 1)][1..] == [];
    assert Target(w.members) == 1 + Target([Idle(1, 1)]) == 2;
    assert !w.members[0].paper;
  }

  lemma LoneRejection(obs: Observation)
    requires Batch(obs) == [1] && VerdictOn(obs, 0, 1) == Rejected(true, 0)
    ensures MarginStop(obs, Batch(obs), 0) && LandedLots(obs, Batch(obs), 0) == 0
  {
    hide VerdictOn, Batch;
  }

  /** Two runners of one lot each, one lot held, nothing lands: both take over one lot and the drift stays. */
  lemma BreakerWitness()
    ensures var w := Watch([Idle(1, 1), Idle(1, 1)], 1, Clear, []);
      var obs := Seen(1, 2, AllRefused(), true);
      Accurate(w, obs) && Pass(w, obs).history.Latched?
      && Pass(w, obs).held == 1 && Target(Pass(w, obs).members) == 2
  {
    hide Pass, Heals, MayHeal, Accurate, VerdictOn, Batch, MarginStop, LandedLots, SentLots, TakeOver, Target, Reported;
    var w, obs := Watch([Idle(1, 1), Idle(1, 1)], 1, Clear, []), Seen(1, 2, AllRefused(), true);
    PairHeals(w, obs);
    OneLotIsRefused(obs);
    LoneRejection(obs);
    PassLands(w, obs);
    TargetOfTakeOver(w.members, 1);
  }

  /** One lot held and wanted, but the report is from before two were bought: it ends with three. */
  lemma StaleReportWitness()
    ensures var w := Watch([Idle(1, 1)], 1, Clear, []);
      Target(w.members) == w.held && Pass(w, Seen(-1, 1, AllBooked(), false)).held == 3
  {
    var w, obs := Watch([Idle(1, 1)], 1, Clear, []), Seen(-1, 1, AllBooked(), false);
    SoloHeals(w, obs, 1, 1);
    hide Pass, Batch;
    BookedMovesWhole(w, obs);
    PassLands(w, obs);
  }

  /** One configured lot, and a target that moves to a hundred before the lock: a hundred are sent. */
  lemma MovedTargetWitness()
    ensures var w := Watch([Idle(1, 1)], 0, Clear, []);
      var obs := Seen(0, 100, AllBooked(), false);
      Dispatched(Pass(w, obs).log) == 100 && DriftCap(w.members) == 10
  {
    var w, obs := Watch([Idle(1, 1)], 0, Clear, []), Seen(0, 100, AllBooked(), false);
    SoloHeals(w, obs, 1, 1);
    hide Pass, Batch;
    BookedMovesWhole(w, obs);
  }

  /**
   Fifty lots of 75 under a gateway limit of 1800: the watchdog sends one slice, the second order
   of it is refused for margin, and the pass logs it as filled, without latch, with 24 lots held.
   */
  lemma PartFillWitness()
    ensures var w := Watch([Idle(50, 50)], 0, Clear, []);
      var obs := Seen(0, 50, G.BookOnly(0), true).(gate := G.Gate(1800, 75, 100, 100000));
      var t := Pass(w, obs);
      Accurate(w, obs) && t.log == [Tried(0.0, 50, Filled(24))] && t.held == 24 && t.history == Clear
  {
    var w := Watch([Idle(50, 50)], 0, Clear, []);
    var g := G.Gate(1800, 75, 100, 100000);
    var obs := Seen(0, 50, G.BookOnly(0), true).(gate := g);
    SoloHeals(w, obs, 50, 50);
    assert Batch(obs) == [50];
    assert EffectiveFreeze(1800, 75) == 1800;
    assert G.Pieces(g, 50)[0] == 1800;
    assert !ReadsAsTimeout(1800, 3750) by {
      assert !CodeInNumber(180) && !CodeInNumber(375);
    }
    G.CutSliceLandsInPart(50, g);
    assert VerdictOn(obs, 0, 50) == Filled(24);
    hide VerdictOn, G.EngineDispatch, G.Pieces;
    assert [50][1..] == [];
  }
}
