/**
 The rejection history over whole runs: what a latch and a backoff suppress, what resets them, and
 how far apart rejections are.
 */
module ReconcileHistory {
  import opened Wrappers
  import opened Slicing
  import opened Reconcile
  import opened ReconcileDrift
  import RM = RunnerModel
  import G = Gateway

  // ---------------------------------------------------------------- runs

  /**
   Outside: anything the runners and the broker do between passes.  Restart: a new process, whose
   runners come from their rows and whose rejection history is empty.
   */
  datatype Event =
    | Healing(obs: Observation)
    | Toggle(enabled: bool)
    | Restart(members: seq<Member>)
    | Outside(members: seq<Member>, held: int)

  function Step(w: Watch, ev: Event): Watch {
    match ev
    case Healing(obs) => Pass(w, obs)
    case Toggle(enabled) => if enabled then w.(history := Clear, log := w.log + [Cleared]) else w
    case Restart(members) => w.(members := members, history := Clear, log := w.log + [Cleared])
    case Outside(members, held) => w.(members := members, held := held)
  }

  function Run(w: Watch, evs: seq<Event>): Watch
    decreases |evs|
  {
    if evs == [] then w else Run(Step(w, evs[0]), evs[1..])
  }

  /** A rejection is recorded no earlier than the pass looked at the clock. */
  predicate Timely(evs: seq<Event>) {
    forall i :: 0 <= i < |evs| && evs[i].Healing? ==> evs[i].obs.now <= evs[i].obs.rejectedAt
  }

  // ---------------------------------------------------------------- suppression

  /** Events that forget the rejections of a symbol. */
  predicate Resets(ev: Event) {
    ev.Restart? || ev == Toggle(true)
  }

  predicate NoReset(evs: seq<Event>) {
    forall i :: 0 <= i < |evs| ==> !Resets(evs[i])
  }

  /** The history keeps a pass from healing: latched, or looked at before the backoff is over. */
  predicate Suppressed(h: History, ev: Event) {
    ev.Healing? ==> h.Latched? || (h.Backoff? && ev.obs.now < h.until)
  }

  predicate AllSuppressed(h: History, evs: seq<Event>) {
    forall i :: 0 <= i < |evs| ==> Suppressed(h, evs[i])
  }

  /** No corrective order goes out in evs, nor in any reset-free continuation the history covers. */
  predicate Quiet(w: Watch, evs: seq<Event>, later: seq<Event>) {
    NoReset(later) && AllSuppressed(w.history, later) ==> Tries(Run(Run(w, evs), later).log) == Tries(w.log)
  }

  /** Number of corrective orders sent. */
  function Tries(log: seq<Entry>): nat {
    if log == [] then 0 else Tries(log[..|log| - 1]) + (if log[|log| - 1].Tried? then 1 else 0)
  }

  lemma TriesAppend(log: seq<Entry>, e: Entry)
    ensures Tries(log + [e]) == Tries(log) + (if e.Tried? then 1 else 0)
  {
    assert (log + [e])[..|log|] == log;
  }

  lemma {:induction false} BatchTries(w: Watch, obs: Observation, actual: int, d: RM.Direction, chunks: seq<int>, n: nat)
    ensures Tries(SendBatch(w, obs, actual, d, chunks, n).log) >= Tries(w.log) + (if chunks == [] then 0 else 1)
    decreases |chunks|
  {
    if chunks != [] {
      var v := VerdictOn(obs, n, chunks[0]);
      hide VerdictOn, NextReply;
      TriesAppend(w.log, Tried(if v.Filled? then obs.now else obs.rejectedAt, RM.Signed(d, chunks[0]), v));
      hide Tries;
      if v.Filled? {
        BatchTries(
          AfterVerdict(w, obs, actual, d, chunks[0], v), obs, actual, d, chunks[1..], NextReply(obs, n, chunks[0]));
      }
    }
  }

  /** An event sends orders or leaves a clear history clear. */
  lemma StepTries(w: Watch, ev: Event)
    ensures Tries(Step(w, ev).log) >= Tries(w.log)
    ensures w.history.Clear? ==> Tries(Step(w, ev).log) > Tries(w.log) || Step(w, ev).history.Clear?
    ensures Resets(ev) ==> Step(w, ev).history.Clear?
  {
    TriesAppend(w.log, Cleared);
    if ev.Healing? && Heals(w, ev.obs) {
      var obs := ev.obs;
      var actual := Reported(obs);
      BatchIsPositive(obs);
      BatchTries(w, obs, actual, Correction(obs.lateTarget, actual), Batch(obs), 0);
    }
  }

  lemma {:induction false} ResetClears(w: Watch, evs: seq<Event>)
    requires w.history.Clear? || !NoReset(evs)
    ensures Tries(Run(w, evs).log) > Tries(w.log) || Run(w, evs).history.Clear?
    decreases |evs|
  {
    if evs != [] {
      var t := Step(w, evs[0]);
      StepTries(w, evs[0]);
      hide Tries, Step;
      if t.history.Clear? || !NoReset(evs[1..]) {
        ResetClears(t, evs[1..]);
      } else {
        TriesNeverDrop(t, evs[1..]);
      }
    }
  }

  lemma {:induction false} TriesNeverDrop(w: Watch, evs: seq<Event>)
    ensures Tries(Run(w, evs).log) >= Tries(w.log)
    decreases |evs|
  {
    if evs != [] {
      StepTries(w, evs[0]);
      hide Tries, Step;
      TriesNeverDrop(Step(w, evs[0]), evs[1..]);
    }
  }

  lemma {:induction false} SuppressionHolds(w: Watch, evs: seq<Event>)
    requires NoReset(evs) && AllSuppressed(w.history, evs)
    ensures Run(w, evs).history == w.history && Run(w, evs).log == w.log
    decreases |evs|
  {
    if evs != [] {
      assert Suppressed(w.history, evs[0]) && !Resets(evs[0]);
      SuppressionHolds(Step(w, evs[0]), evs[1..]);
    }
  }

  /** After a reset, one runner and one drifting lot are enough for an order at any time. */
  lemma ClearHistoryHeals(w: Watch, now: real)
    requires w.history.Clear?
    ensures var obs := Seen(1, 0, AllBooked(), false).(now := now);
      Tries(Run(w, [Outside([Idle(0, 1)], 1), Healing(obs)]).log) > Tries(w.log)
  {
    var obs := Seen(1, 0, AllBooked(), false).(now := now);
    var outside, healing := Outside([Idle(0, 1)], 1), Healing(obs);
    var a := Step(w, outside);
    SoloHeals(a, obs, 0, 1);
    BatchIsPositive(obs);
    BatchTries(a, obs, 1, RM.Bearish, Batch(obs), 0);
    hide Heals, SendBatch, Tries;
    TwoEvents(w, outside, healing);
  }

  /**
   A latch, and a backoff before its end, suppress every corrective order of a run and of whatever
   follows it, if and only if the run holds neither a restart nor an enabling toggle: the history
   lives in the process only.
   */
  lemma SuppressionHoldsIff(w: Watch, evs: seq<Event>)
    requires !w.history.Clear? && AllSuppressed(w.history, evs)
    ensures (forall later :: Quiet(w, evs, later)) <==> NoReset(evs)
  {
    if NoReset(evs) {
      SuppressionHolds(w, evs);
      forall later ensures Quiet(w, evs, later) {
        if NoReset(later) && AllSuppressed(w.history, later) {
          SuppressionHolds(Run(w, evs), later);
        }
      }
    } else {
      var t := Run(w, evs);
      ResetClears(w, evs);
      TriesNeverDrop(w, evs);
      var now := if w.history.Backoff? then w.history.until - 1.0 else 0.0;
      var later := if t.history.Clear? then [Outside([Idle(0, 1)], 1), Healing(Seen(1, 0, AllBooked(), false).(now := now))] else [];
      hide Tries, Run;
      if t.history.Clear? {
        ClearHistoryHeals(t, now);
      } else {
        NothingHappens(t);
      }
      assert NoReset(later) && AllSuppressed(w.history, later);
      assert !Quiet(w, evs, later);
    }
  }

  /** The same for a latch alone, which covers every pass whenever it happens. */
  lemma LatchHoldsIff(w: Watch, evs: seq<Event>)
    requires w.history.Latched?
    ensures (forall later :: Quiet(w, evs, later)) <==> NoReset(evs)
    ensures NoReset(evs) ==> Run(w, evs).history.Latched? && Run(w, evs).log == w.log
  {
    SuppressionHoldsIff(w, evs);
    if NoReset(evs) {
      SuppressionHolds(w, evs);
    }
  }

  lemma NothingHappens(w: Watch)
    ensures Run(w, []) == w
  {
  }

  lemma TwoEvents(w: Watch, a: Event, b: Event)
    ensures Run(w, [a, b]) == Step(Step(w, a), b)
  {
    assert [a, b] == [a] + [b];
    RunSplits(w, [a], [b]);
    OneEvent(w, a);
    OneEvent(Step(w, a), b);
  }

  /** A rejected lot: after a reset the next pass repeats the order at once, whether it was latched or not. */
  lemma ResetRepeatsAtOnce(margin: bool, ev: Event)
    requires ev == Toggle(true) || ev == Restart([Idle(1, 1)])
    ensures var refused := Seen(0, 1, AllRefused(), margin);
      var w := Watch([Idle(1, 1)], 0, Clear, []);
      Run(w, [Healing(refused), ev, Outside([Idle(1, 1)], 0), Healing(refused)]).log
        == [Tried(0.0, 1, Rejected(margin, 0)), Cleared, Tried(0.0, 1, Rejected(margin, 0))]
  {
    hide *;
    var ms := [Idle(1, 1)];
    var refused, outside := Seen(0, 1, AllRefused(), margin), Outside(ms, 0);
    var w, heal := Watch(ms, 0, Clear, []), Healing(refused);
    var a := Step(w, heal);
    var c := Watch(ms, 0, Clear, a.log + [Cleared]);
    FourEvents(w, heal, ev, outside, heal);
    OneLotRefused(w, refused, margin);
    AfterReset(a, ev, ms, 0);
    OneLotRefused(c, refused, margin);
  }

  lemma FourEvents(w: Watch, a: Event, b: Event, c: Event, d: Event)
    ensures Run(w, [a, b, c, d]) == Step(Step(Step(Step(w, a), b), c), d)
  {
    hide Step;
    assert [a, b, c, d] == [a, b] + [c, d];
    RunSplits(w, [a, b], [c, d]);
    TwoEvents(w, a, b);
    TwoEvents(Step(Step(w, a), b), c, d);
  }

  lemma AfterReset(w: Watch, ev: Event, members: seq<Member>, held: int)
    requires ev == Toggle(true) || ev.Restart?
    ensures Step(Step(w, ev), Outside(members, held)) == Watch(members, held, Clear, w.log + [Cleared])
  {
  }

  lemma OneEvent(w: Watch, ev: Event)
    ensures Run(w, [ev]) == Step(w, ev)
  {
    assert [ev][1..] == [];
  }

  lemma {:induction false} RunSplits(w: Watch, xs: seq<Event>, ys: seq<Event>)
    ensures Run(w, xs + ys) == Run(Run(w, xs), ys)
    decreases |xs|
  {
    hide Step;
    if xs == [] {
      assert xs + ys == ys;
    } else {
      assert (xs + ys)[1..] == xs[1..] + ys;
      RunSplits(Step(w, xs[0]), xs[1..], ys);
    }
  }

  /** The pass of a lot that is missing and refused. */
  lemma OneLotRefused(w: Watch, refused: Observation, margin: bool)
    requires w.members == [Idle(1, 1)] && w.held == 0 && w.history.Clear?
    requires refused == Seen(0, 1, AllRefused(), margin)
    ensures Step(w, Healing(refused)).log == w.log + [Tried(0.0, 1, Rejected(margin, 0))]
  {
    SoloHeals(w, refused, 1, 1);
    OneLotIsRefused(refused);
    hide VerdictOn, Batch;
  }

  // ---------------------------------------------------------------- backoff

  /** The waiting times: two minutes after the first rejection, doubling up to an hour. */
  lemma BackoffSchedule(n: nat)
    ensures BackoffSeconds(1) == 120
    ensures BackoffSeconds(n + 1) == Min(2 * BackoffSeconds(n), 3600)
    ensures n >= 6 ==> BackoffSeconds(n) == 3600
  {
    assert Pow2(1) == 2 * Pow2(0);
    if n >= 6 {
      BackoffGrows(6, n);
      assert Pow2(6) == 64;
    }
  }

  /** Consecutive rejections so far, as the history counts them. */
  function Count(h: History): nat {
    if h.Backoff? then h.count else 0
  }

  /**
   A pass whose first slice is rejected without a word of margin counts one rejection more and
   waits from the moment the rejection is recorded, by the schedule.
   */
  lemma RejectionStartsBackoff(w: Watch, obs: Observation)
    requires Heals(w, obs) && obs.lateTarget != Reported(obs)
    requires VerdictOn(obs, 0, LargestSliceOf(obs)).Rejected? && !VerdictOn(obs, 0, LargestSliceOf(obs)).margin
    ensures var n := Count(w.history) + 1;
      Pass(w, obs).history == Backoff(n, obs.rejectedAt + BackoffSeconds(n) as real)
  {
    BatchIsPositive(obs);
    hide VerdictOn, LargestSliceOf, Batch, Heals, BackoffSeconds;
  }

  predicate Refusal(e: Entry) {
    e.Tried? && e.verdict.Rejected? && !e.verdict.margin
  }

  function Time(e: Entry): real {
    match e
    case Tried(at, _, _) => at
    case Cleared => 0.0
  }

  /** Length of the run of non-margin rejections at the end of the log. */
  function Streak(log: seq<Entry>): nat {
    if log == [] || !Refusal(log[|log| - 1]) then 0 else 1 + Streak(log[..|log| - 1])
  }

  /** After the n-th rejection of a streak the next one keeps its distance. */
  predicate SpacedAt(log: seq<Entry>, p: int) {
    0 <= p && p + 1 < |log| && Refusal(log[p]) && Refusal(log[p + 1]) ==>
      log[p].at + BackoffSeconds(Streak(log[..p + 1])) as real <= log[p + 1].at
  }

  ghost predicate Spaced(log: seq<Entry>) {
    forall p :: 0 <= p < |log| ==> SpacedAt(log, p)
  }

  /** The history is what the log says. */
  predicate Matches(h: History, log: seq<Entry>) {
    if log == [] || log[|log| - 1].Cleared? || log[|log| - 1].verdict.Filled? then h == Clear
    else if log[|log| - 1].verdict.margin then h == Latched
    else h == Backoff(Streak(log), log[|log| - 1].at + BackoffSeconds(Streak(log)) as real)
  }

  lemma AppendSpaced(log: seq<Entry>, e: Entry)
    requires Spaced(log)
    requires log != [] && Refusal(log[|log| - 1]) && Refusal(e) ==>
      log[|log| - 1].at + BackoffSeconds(Streak(log)) as real <= e.at
    ensures Spaced(log + [e])
  {
    var next := log + [e];
    forall p | 0 <= p < |next| ensures SpacedAt(next, p) {
      if p + 1 < |log| {
        assert next[..p + 1] == log[..p + 1];
        assert SpacedAt(log, p);
      } else if p + 1 == |log| {
        assert next[..p + 1] == log;
      }
    }
  }

  lemma StreakAppend(log: seq<Entry>, e: Entry)
    ensures Streak(log + [e]) == if Refusal(e) then 1 + Streak(log) else 0
  {
    assert (log + [e])[..|log|] == log;
  }

  /** What the history says about the streak so far. */
  lemma HistoryCounts(h: History, log: seq<Entry>)
    requires Matches(h, log) && !h.Latched?
    ensures Streak(log) == if h.Backoff? then h.count else 0
    ensures h.Backoff? ==> Refusal(log[|log| - 1]) && h.until == Time(log[|log| - 1]) + BackoffSeconds(h.count) as real
    ensures h.Clear? && log != [] ==> !Refusal(log[|log| - 1])
  {
  }

  lemma VerdictMatches(w: Watch, obs: Observation, actual: int, d: RM.Direction, lots: int, v: Verdict)
    requires Matches(w.history, w.log) && Spaced(w.log)
    requires !w.history.Latched? && (w.history.Backoff? ==> w.history.until <= obs.rejectedAt)
    ensures var t := AfterVerdict(w, obs, actual, d, lots, v);
      Matches(t.history, t.log) && Spaced(t.log)
  {
    var e := Tried(if v.Filled? then obs.now else obs.rejectedAt, RM.Signed(d, lots), v);
    HistoryCounts(w.history, w.log);
    StreakAppend(w.log, e);
    hide BackoffSeconds, Streak, Spaced;
    AppendSpaced(w.log, e);
  }

  lemma {:induction false} BatchMatches(w: Watch, obs: Observation, actual: int, d: RM.Direction, chunks: seq<int>, n: nat)
    requires Matches(w.history, w.log) && Spaced(w.log)
    requires !w.history.Latched? && (w.history.Backoff? ==> w.history.until <= obs.rejectedAt)
    ensures var t := SendBatch(w, obs, actual, d, chunks, n);
      Matches(t.history, t.log) && Spaced(t.log)
    decreases |chunks|
  {
    if chunks != [] {
      var v := VerdictOn(obs, n, chunks[0]);
      hide VerdictOn, NextReply, Spaced, Matches;
      VerdictMatches(w, obs, actual, d, chunks[0], v);
      if v.Filled? {
        BatchMatches(
          AfterVerdict(w, obs, actual, d, chunks[0], v), obs, actual, d, chunks[1..], NextReply(obs, n, chunks[0]));
      }
    }
  }

  lemma StepMatches(w: Watch, ev: Event)
    requires Matches(w.history, w.log) && Spaced(w.log)
    requires ev.Healing? ==> ev.obs.now <= ev.obs.rejectedAt
    ensures Matches(Step(w, ev).history, Step(w, ev).log) && Spaced(Step(w, ev).log)
  {
    match ev
    case Healing(obs) =>
      if Heals(w, obs) {
        var actual := Reported(obs);
        BatchMatches(w, obs, actual, Correction(obs.lateTarget, actual), Batch(obs), 0);
      }
    case Toggle(_) => AppendSpaced(w.log, Cleared);
    case Restart(_) => AppendSpaced(w.log, Cleared);
    case Outside(_, _) =>
  }

  lemma {:induction false} RunMatches(w: Watch, evs: seq<Event>)
    requires Matches(w.history, w.log) && Spaced(w.log) && Timely(evs)
    ensures Matches(Run(w, evs).history, Run(w, evs).log) && Spaced(Run(w, evs).log)
    decreases |evs|
  {
    if evs != [] {
      StepMatches(w, evs[0]);
      RunMatches(Step(w, evs[0]), evs[1..]);
    }
  }

  /** The sum of min(60 * 2^i, 3600) for i from 1 to k. */
  function TotalBackoff(k: nat): int {
    if k == 0 then 0 else TotalBackoff(k - 1) + Min(60 * Pow2(k), 3600)
  }

  lemma {:induction false} BackoffGrows(m: nat, n: nat)
    requires m <= n
    ensures Pow2(m) <= Pow2(n) && BackoffSeconds(m) <= BackoffSeconds(n)
    decreases n
  {
    if m < n {
      BackoffGrows(m, n - 1);
    }
  }

  lemma {:induction false} StreakCovers(log: seq<Entry>, i: nat)
    requires i <= |log| && forall p :: i <= p < |log| ==> Refusal(log[p])
    ensures Streak(log) >= |log| - i
    decreases |log|
  {
    if i < |log| {
      StreakCovers(log[..|log| - 1], i);
    }
  }

  lemma {:induction false} StreakTakes(log: seq<Entry>, i: nat, j: nat)
    requires Spaced(log) && i <= j < |log|
    requires forall p :: i <= p <= j ==> Refusal(log[p])
    ensures Time(log[i]) + TotalBackoff(j - i) as real <= Time(log[j])
    decreases j
  {
    if i < j {
      StreakTakes(log, i, j - 1);
      assert SpacedAt(log, j - 1);
      StreakCovers(log[..j], i);
      BackoffGrows(j - i, Streak(log[..j]));
    }
  }

  /**
   Exponential backoff over whole runs: k consecutive non-margin rejections of a symbol, with no
   accepted slice, enabling toggle or restart in between, take at least the sum of
   min(60*2^i, 3600) seconds for i from 1 to k - 1.  A reset in between ends that: see
   SuppressionHoldsIff and ResetRepeatsAtOnce.
   */
  lemma RejectionsBackOff(members: seq<Member>, held: int, evs: seq<Event>, i: nat, j: nat)
    requires Timely(evs)
    requires i <= j < |Run(Watch(members, held, Clear, []), evs).log|
    requires forall p :: i <= p <= j ==> Refusal(Run(Watch(members, held, Clear, []), evs).log[p])
    ensures var log := Run(Watch(members, held, Clear, []), evs).log;
      Time(log[i]) + TotalBackoff(j - i) as real <= Time(log[j])
  {
    RunMatches(Watch(members, held, Clear, []), evs);
    StreakTakes(Run(Watch(members, held, Clear, []), evs).log, i, j);
  }
}
