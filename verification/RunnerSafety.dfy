/**
 Safety of the runner for every broker script: what a flip, a rollover and a synchronisation
 reach, and the invariant that every run keeps.
 */
module RunnerSafety {
  import opened Wrappers
  import opened Slicing
  import opened RunnerModel
  import opened RunnerLedger

  /** The position a completed flip towards d reaches: it never reduces a position already there. */
  function Target(d: Direction, quantity: int, position: int): int {
    match d
    case Bullish => Max(position, quantity)
    case Bearish => Min(position, -quantity)
  }

  predicate Between(a: int, b: int, c: int) {
    Min(a, c) <= b <= Max(a, c)
  }

  predicate SingleSlice(cfg: Config, qty: int) {
    cfg.freezeLots <= 0 || qty <= cfg.freezeLots
  }

  /** What one or more legs on contract r change: the position, the orders, the row, the status. */
  ghost predicate OnlyTrades(script: nat -> Outcome, s: State, t: State, r: Contract) {
    && t.active == s.active && t.pendingRollover == s.pendingRollover && t.lastBar == s.lastBar
    && s.sent <= t.sent
    && (Persisted(s) ==> Persisted(t))
    && (Faithful(script, s.sent) ==> Faithful(script, t.sent))
    && (forall j :: |s.sent| <= j < |t.sent| ==> t.sent[j].contract == r)
    && (forall x: Contract :: Booked(t.sent, x) == Booked(s.sent, x) + (if x == r then t.position - s.position else 0))
  }

  /** New orders all push towards d, and no entry goes out while the position is on the other side. */
  predicate FlipOrders(sent: seq<Order>, from: nat, d: Direction) {
    forall j :: from <= j < |sent| ==>
      Signed(d, sent[j].lots) > 0 && (sent[j].kind.Entry? ==> Signed(d, sent[j].held) >= 0)
  }

  // ---------------------------------------------------------------- one leg

  lemma LegSummary(cfg: Config, s: State, kind: Kind, c: Contract, d: Direction, qty: int)
    ensures var (t, e) := Leg(cfg, s, kind, c, d, qty);
      var moved := Signed(d, t.position - s.position);
      && OnlyTrades(cfg.script, s, t, c) && t.enabled == s.enabled
      && 0 <= moved <= Max(0, qty)
      && (e.Done? ==> moved == qty)
      && (!e.Done? && qty > 0 ==> moved < qty)
      && (!e.Done? && SingleSlice(cfg, qty) ==> moved == 0)
    ensures kind.Exit? || Signed(d, s.position) >= 0 ==>
      FlipOrders(Leg(cfg, s, kind, c, d, qty).0.sent, |s.sent|, d)
  {
    if 0 < qty <= SizeLimit(cfg.quantity) {
      var chunks := Slices(qty, cfg.freezeLots, 1);
      SlicesConserve(qty, cfg.freezeLots, 1);
      forall i | 0 <= i < |chunks| ensures chunks[i] > 0 {
        assert chunks[i] in chunks;
      }
      LegAddsPrefix(cfg.script, s, kind, c, d, chunks);
      LegBooks(cfg.script, s, kind, c, d, chunks);
      LegSends(cfg.script, s, kind, c, d, chunks);
      PrefixSums(chunks, Filled(cfg.script, |s.sent|, |chunks|));
      assert chunks[..|chunks|] == chunks;
    }
  }

  lemma TradesCompose(script: nat -> Outcome, s: State, t: State, u: State, r: Contract)
    requires OnlyTrades(script, s, t, r) && OnlyTrades(script, t, u, r)
    ensures OnlyTrades(script, s, u, r)
  {
    assert forall j :: |s.sent| <= j < |t.sent| ==> u.sent[j] == t.sent[j];
  }

  // ---------------------------------------------------------------- flip

  lemma FlipExitSummary(cfg: Config, s: State, r: Contract, d: Direction)
    requires Signed(d, s.position) < 0
    ensures var (t, e) := FlipExit(cfg, s, r, d);
      && OnlyTrades(cfg.script, s, t, r) && t.enabled == s.enabled
      && Signed(d, s.position) <= Signed(d, t.position) <= 0
      && (e.Done? ==> t.position == 0)
    ensures FlipOrders(FlipExit(cfg, s, r, d).0.sent, |s.sent|, d)
  {
    hide Leg;
    LegSummary(cfg, s, Exit, r, d, Abs(s.position));
    var (a, e) := Leg(cfg, s, Exit, r, d, Abs(s.position));
    if e.Failed? && Abs(a.position) > 0 {
      LegSummary(cfg, a, Exit, r, d, Abs(a.position));
      TradesCompose(cfg.script, s, a, FlipExit(cfg, s, r, d).0, r);
    }
  }

  lemma FlipEntrySummary(cfg: Config, s: State, r: Contract, d: Direction, qty: int)
    requires 0 <= Signed(d, s.position) && qty == cfg.quantity - Signed(d, s.position) > 0
    ensures var (t, e) := FlipEntry(cfg, s, r, d, qty);
      && OnlyTrades(cfg.script, s, t, r) && t.enabled == s.enabled
      && Signed(d, s.position) <= Signed(d, t.position) <= cfg.quantity
      && (e.Done? ==> Signed(d, t.position) == cfg.quantity)
    ensures FlipOrders(FlipEntry(cfg, s, r, d, qty).0.sent, |s.sent|, d)
  {
    hide Leg;
    LegSummary(cfg, s, Entry, r, d, qty);
    var (a, e) := Leg(cfg, s, Entry, r, d, qty);
    if e.Failed? && Missing(d, cfg.quantity, a.position) > 0 {
      LegSummary(cfg, a, Entry, r, d, Missing(d, cfg.quantity, a.position));
      TradesCompose(cfg.script, s, a, FlipEntry(cfg, s, r, d, qty).0, r);
    }
  }

  lemma FlipTailSummary(cfg: Config, s: State, r: Contract, d: Direction)
    requires cfg.quantity > 0 && 0 <= Signed(d, s.position)
    ensures var (t, e) := FlipTail(cfg, s, r, d);
      && OnlyTrades(cfg.script, s, t, r)
      && Between(s.position, t.position, Target(d, cfg.quantity, s.position))
      && (e.Continue? ==> t.enabled == s.enabled && t.position == Target(d, cfg.quantity, s.position))
      && (e.Return? ==> !t.enabled && t.status in {EntryFailed, MarginShortfall})
      && FlipOrders(t.sent, |s.sent|, d)
  {
    hide FlipEntry;
    if cfg.quantity - Signed(d, s.position) > 0 {
      FlipEntrySummary(cfg, s, r, d, cfg.quantity - Signed(d, s.position));
    }
  }

  /**
   For every sequence of outcomes a flip cycle either completes at exactly the target position,
   or disables the runner (or dies with it) somewhere between the old position and the target.
   No entry goes out before the opposite position is gone.
   */
  lemma FlipReachesTarget(cfg: Config, s: State, r: Contract, d: Direction)
    requires cfg.quantity > 0
    ensures var (t, e) := Flip(cfg, s, r, d);
      && (e.Continue? ==> t.enabled == s.enabled && t.position == Target(d, cfg.quantity, s.position))
      && (e.Return? ==> !t.enabled && t.status in {ExitFailed, EntryFailed, MarginShortfall})
      && Between(s.position, t.position, Target(d, cfg.quantity, s.position))
    ensures var t := Flip(cfg, s, r, d).0;
      OnlyTrades(cfg.script, s, t, r) && FlipOrders(t.sent, |s.sent|, d)
  {
    hide FlipExit, FlipTail;
    if Signed(d, s.position) < 0 {
      FlipExitSummary(cfg, s, r, d);
      var (a, e) := FlipExit(cfg, s, r, d);
      if e.Done? {
        FlipTailSummary(cfg, a, r, d);
        TradesCompose(cfg.script, s, a, FlipTail(cfg, a, r, d).0, r);
      }
    } else {
      FlipTailSummary(cfg, s, r, d);
    }
  }

  // ---------------------------------------------------------------- synchronisation

  lemma SyncEntrySummary(cfg: Config, s: State, r: Contract, d: Direction, pauses: bool)
    requires 0 <= Signed(d, s.position) < cfg.quantity
    ensures var (t, e) := SyncEntry(cfg, s, r, d, cfg.quantity - Signed(d, s.position), pauses);
      && OnlyTrades(cfg.script, s, t, r) && FlipOrders(t.sent, |s.sent|, d)
      && Signed(d, s.position) <= Signed(d, t.position) <= cfg.quantity
      && (e.Synced? ==> Signed(d, t.position) == cfg.quantity && t.enabled == s.enabled)
  {
    var qty := cfg.quantity - Signed(d, s.position);
    LegSummary(cfg, s, Entry, r, d, qty);
    var (a, e) := Leg(cfg, s, Entry, r, d, qty);
    if e.Done? {
      var t := Save(a.(position := Signed(d, cfg.quantity)));
      assert a.position == t.position;
      assert OnlyTrades(cfg.script, a, t, r);
      TradesCompose(cfg.script, s, a, t, r);
    }
  }

  /** Exit leg of a reversal on demand, and the position set to zero after it. */
  lemma SyncExitSummary(cfg: Config, s: State, r: Contract, d: Direction)
    requires Signed(d, s.position) < 0
    ensures var (a, e) := Leg(cfg, s, Exit, r, d, Abs(s.position));
      && OnlyTrades(cfg.script, s, a, r) && FlipOrders(a.sent, |s.sent|, d) && a.enabled == s.enabled
      && Signed(d, s.position) <= Signed(d, a.position) <= 0
      && (e.Done? ==> a.position == 0 && OnlyTrades(cfg.script, s, Save(a.(position := 0)), r))
  {
    LegSummary(cfg, s, Exit, r, d, Abs(s.position));
  }

  /** Synchronisation on demand, when it reports success, reaches the same target as a flip. */
  lemma SyncReachesTarget(cfg: Config, s: State, r: Contract, d: Direction)
    requires cfg.quantity > 0
    ensures var (t, e) := Sync(cfg, s, r, d);
      && (e.Synced? ==> t.position == Target(d, cfg.quantity, s.position) && t.enabled == s.enabled)
      && Between(s.position, t.position, Target(d, cfg.quantity, s.position))
    ensures var t := Sync(cfg, s, r, d).0;
      OnlyTrades(cfg.script, s, t, r) && FlipOrders(t.sent, |s.sent|, d)
  {
    hide Leg, SyncEntry;
    var x := Signed(d, s.position);
    if x < 0 {
      SyncExitSummary(cfg, s, r, d);
      var (a, e) := Leg(cfg, s, Exit, r, d, Abs(s.position));
      if e.Done? {
        var b := Save(a.(position := 0));
        SyncEntrySummary(cfg, b, r, d, true);
        TradesCompose(cfg.script, s, b, SyncEntry(cfg, b, r, d, cfg.quantity, true).0, r);
      }
    } else if x < cfg.quantity {
      SyncEntrySummary(cfg, s, r, d, x == 0);
    }
  }

  // ---------------------------------------------------------------- trading within a cycle

  /** After the contract check a cycle trades the resolved contract only and keeps the pointer. */
  lemma TradeOnlyTrades(cfg: Config, s: State, inp: Input, r: Contract)
    requires cfg.quantity > 0
    ensures var t := Trade(cfg, s, inp, r).0;
      && t.active == s.active && s.sent <= t.sent && (Persisted(s) ==> Persisted(t))
      && (!inp.marketOpen ==> t.sent == s.sent && t.position == s.position)
      && (forall j :: |s.sent| <= j < |t.sent| ==> t.sent[j].contract == r)
      && (forall x: Contract :: Booked(t.sent, x) == Booked(s.sent, x) + (if x == r then t.position - s.position else 0))
  {
    hide Flip;
    if inp.feed.Bar? && inp.feed.flip.Some? {
      FlipReachesTarget(cfg, s.(marginError := false, status := Running), r, inp.feed.flip.value);
    }
  }

  /** The exit of a rollover trades the old contract only, whatever the number of slices. */
  lemma RollExitTrades(cfg: Config, s: State, prev: Contract)
    ensures OnlyTrades(cfg.script, s, RollExit(cfg, s, prev).0, prev)
  {
    var d, qty := Opposite(Side(s.position)), Abs(s.position);
    LegSummary(cfg, s, Exit, prev, d, qty);
    var (a, e) := Leg(cfg, s, Exit, prev, d, qty);
    if e.Failed? {
      LegSummary(cfg, a, Exit, prev, d, qty);
      TradesCompose(cfg.script, s, a, RollExit(cfg, s, prev).0, prev);
    }
  }

  /** The entry attempts trade the new one only. */
  lemma {:induction false} RollEntryTrades(cfg: Config, s: State, r: Contract, d: Direction, qty: int, attempts: nat)
    ensures OnlyTrades(cfg.script, s, RollEntry(cfg, s, r, d, qty, attempts).0, r)
    decreases attempts
  {
    if attempts > 0 {
      LegSummary(cfg, s, Entry, r, d, qty);
      var (a, e) := Leg(cfg, s, Entry, r, d, qty);
      if e.Failed? {
        RollEntryTrades(cfg, a, r, d, qty, attempts - 1);
        TradesCompose(cfg.script, s, a, RollEntry(cfg, a, r, d, qty, attempts - 1).0, r);
      }
    }
  }
}
