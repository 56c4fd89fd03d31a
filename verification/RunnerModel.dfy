/**
 The specification of one SuperTrend runner: a state, the orders it has sent, and the effect of
 every leg, flip, rollover, synchronisation and evaluation cycle.  The broker is a script that
 fixes the outcome of the n-th order; all statements quantify over every script.
 */
module RunnerModel {
  import opened Wrappers
  import opened Slicing

  type Contract = nat

  datatype Direction = Bullish | Bearish

  function Opposite(d: Direction): Direction {
    if d.Bullish? then Bearish else Bullish
  }

  function Signed(d: Direction, lots: int): int {
    if d.Bullish? then lots else -lots
  }

  /**
   What became of one slice.  Unknown: the request timed out and may or may not have reached the
   exchange.  Crash: the process died while the slice was being sent, before the new position
   was written.
   */
  datatype Outcome = Accepted | Refused(margin: bool) | Unknown(landed: bool) | Crash(landed: bool)

  datatype Kind = Exit | Entry

  /** One slice sent to the broker; `held` is the runner's position when it was sent. */
  datatype Order = Order(kind: Kind, contract: Contract, lots: int, held: int, outcome: Outcome)

  /** The persisted row of strategy_virtual_positions. */
  datatype Row = Row(position: int, contract: Option<Contract>)

  datatype Status =
    | Running | Paused | Disabled | MarketClosed | ExitFailed | EntryFailed | MarginShortfall | RolloverFailed | Expired

  datatype State = State(
    position: int,
    active: Option<Contract>,
    row: Row,
    enabled: bool,
    status: Status,
    pendingRollover: bool,
    lastBar: int,
    marginError: bool,
    sent: seq<Order>)

  /** Fixed data of a run: configured lots, freeze limit in lots, and the broker's script. */
  datatype Config = Config(quantity: int, freezeLots: int, script: nat -> Outcome)

  datatype LegEnd = Done | Failed | Died

  /** How a part of the evaluation cycle ended: fall through, return from the cycle, or die. */
  datatype Ending = Continue | Return | Perish

  // ---------------------------------------------------------------- legs

  /** Writing the row keeps the stored contract when the runner has none. */
  function Save(s: State): State {
    s.(row := Row(s.position, if s.active.Some? then s.active else s.row.contract))
  }

  function SendSlice(script: nat -> Outcome, s: State, kind: Kind, c: Contract, lots: int): State {
    var o := script(|s.sent|);
    var t := s.(sent := s.sent + [Order(kind, c, lots, s.position, o)]);
    match o
    case Accepted => Save(t.(position := t.position + lots))
    case Refused(m) => t.(marginError := m, status := if kind.Entry? && m then MarginShortfall else t.status)
    case Unknown(_) => t.(marginError := false)
    case Crash(_) => t
  }

  function RunLeg(script: nat -> Outcome, s: State, kind: Kind, c: Contract, d: Direction, chunks: seq<int>)
    : (State, LegEnd)
    decreases |chunks|
  {
    if chunks == [] then (s, Done)
    else
      var t := SendSlice(script, s, kind, c, Signed(d, chunks[0]));
      match script(|s.sent|)
      case Accepted => RunLeg(script, t, kind, c, d, chunks[1..])
      case Crash(_) => (t, Died)
      case _ => (t, Failed)
  }

  function SizeLimit(quantity: int): int {
    Max(quantity * 5, 50)
  }

  /** One exit or entry leg: refuse an unreasonable size, else send its slices until one fails. */
  function Leg(cfg: Config, s: State, kind: Kind, c: Contract, d: Direction, qty: int): (State, LegEnd) {
    if qty > SizeLimit(cfg.quantity) || qty <= 0 then (s, Failed)
    else RunLeg(cfg.script, s, kind, c, d, Slices(qty, cfg.freezeLots, 1))
  }

  // ---------------------------------------------------------------- flip

  function PauseEntry(s: State): State {
    s.(status := if s.marginError then MarginShortfall else EntryFailed, enabled := false)
  }

  function FlipExit(cfg: Config, s: State, r: Contract, d: Direction): (State, LegEnd) {
    var (a, e) := Leg(cfg, s, Exit, r, d, Abs(s.position));
    if !e.Failed? then (a, e)
    else if Abs(a.position) > 0 then Leg(cfg, a, Exit, r, d, Abs(a.position))
    else (a, Done)
  }

  /** Lots still missing for an entry retry, as each branch of the code computes it. */
  function Missing(d: Direction, quantity: int, position: int): int {
    match d
    case Bullish => if position < quantity then quantity - position else 0
    case Bearish => if Abs(position) < quantity then quantity - Abs(position) else 0
  }

  function FlipEntry(cfg: Config, s: State, r: Contract, d: Direction, qty: int): (State, LegEnd) {
    var (a, e) := Leg(cfg, s, Entry, r, d, qty);
    if !e.Failed? then (a, e)
    else
      var left := Missing(d, cfg.quantity, a.position);
      if left > 0 then Leg(cfg, a, Entry, r, d, left) else (a, Done)
  }

  function FlipTail(cfg: Config, s: State, r: Contract, d: Direction): (State, Ending) {
    var qty := if Signed(d, s.position) > 0 then cfg.quantity - Abs(s.position) else cfg.quantity;
    if qty <= 0 then (s, Continue)
    else
      var (a, e) := FlipEntry(cfg, s, r, d, qty);
      match e
      case Done => (a, Continue)
      case Died => (a, Perish)
      case Failed => (PauseEntry(a), Return)
  }

  /** The two legs of a flip towards d on the resolved contract r, each retried once. */
  function Flip(cfg: Config, s: State, r: Contract, d: Direction): (State, Ending) {
    if Signed(d, s.position) < 0 then
      var (a, e) := FlipExit(cfg, s, r, d);
      match e
      case Done => FlipTail(cfg, a, r, d)
      case Died => (a, Perish)
      case Failed => (a.(status := ExitFailed, enabled := false), Return)
    else FlipTail(cfg, s, r, d)
  }

  // ---------------------------------------------------------------- rollover

  function Side(position: int): Direction {
    if position > 0 then Bullish else Bearish
  }

  /** Exit of the expiring contract; the retry re-sends the full quantity. */
  function RollExit(cfg: Config, s: State, prev: Contract): (State, LegEnd) {
    var d := Opposite(Side(s.position));
    var qty := Abs(s.position);
    var (a, e) := Leg(cfg, s, Exit, prev, d, qty);
    if e.Failed? then Leg(cfg, a, Exit, prev, d, qty) else (a, e)
  }

  /** Entry into the new contract, up to `attempts` times, each for the full quantity. */
  function RollEntry(cfg: Config, s: State, c: Contract, d: Direction, qty: int, attempts: nat): (State, LegEnd)
    decreases attempts
  {
    if attempts == 0 then (s, Failed)
    else
      var (a, e) := Leg(cfg, s, Entry, c, d, qty);
      if e.Failed? then RollEntry(cfg, a, c, d, qty, attempts - 1) else (a, e)
  }

  /** Both legs of a rollover, before the contract pointer is moved. */
  function RollLegs(cfg: Config, s: State, prev: Contract, r: Contract): (State, LegEnd, LegEnd) {
    var (a, e) := RollExit(cfg, s, prev);
    if !e.Done? then (a, e, Failed)
    else
      var (b, f) := RollEntry(cfg, a, r, Side(s.position), Abs(s.position), 3);
      (b, Done, f)
  }

  /** Moves the contract pointer, writes the row and forgets the indicator state. */
  function Point(s: State, r: Contract): State {
    Save(s.(active := Some(r), pendingRollover := false, lastBar := 0))
  }

  function PauseRollover(s: State): State {
    s.(status := RolloverFailed, enabled := false, pendingRollover := false)
  }

  /** A rollover; `dies` tells whether the process ends after the legs, before the pointer is written. */
  function Rollover(cfg: Config, s: State, prev: Contract, r: Contract, dies: bool): (State, Ending) {
    var (b, exit, entry) := RollLegs(cfg, s, prev, r);
    if exit.Died? || (exit.Done? && entry.Died?) then (b, Perish)
    else if exit.Failed? then (PauseRollover(b), Return)
    else if dies then (b, Perish)
    else if entry.Failed? then (Point(PauseRollover(b.(position := 0)), r), Return)
    else (Point(b, r), Continue)
  }

  // ---------------------------------------------------------------- evaluation cycle

  /**
   What the indicator says about the last closed bar.  `stale`: the bar is older than the
   start-up window.  Forming: no closed bar can be evaluated yet.
   */
  datatype Feed = Unavailable | Forming | Bar(time: int, flip: Option<Direction>, stale: bool)

  /**
   Everything a cycle reads from outside.  `earlyCheck`: orders are inspected first.
   `diesAtPointer`: the process ends between the legs of a rollover and the pointer's write.
   */
  datatype Input = Input(
    tradingPaused: bool,
    resolved: Option<Contract>,
    descriptorKnown: bool,
    marketOpen: bool,
    stabilising: bool,
    diesAtPointer: bool,
    earlyCheck: bool,
    ordersClear: bool,
    feed: Feed,
    restartEnabled: bool)

  function RollIfNeeded(cfg: Config, s: State, inp: Input, r: Contract): (State, Ending) {
    var b := if s.active.None? then Save(s.(active := Some(r))) else s;
    if b.active == Some(r) then (b, Continue)
    else if !inp.descriptorKnown then (PauseRollover(b), Return)
    else if b.position == 0 then (Point(b, r), Continue)
    else if !inp.marketOpen then (b.(pendingRollover := true), Continue)
    else if inp.stabilising then (b.(pendingRollover := true), Return)
    else Rollover(cfg, b.(pendingRollover := false), b.active.value, r, inp.diesAtPointer)
  }

  function TradeOnBar(cfg: Config, s: State, inp: Input, r: Contract): (State, Ending)
    requires inp.feed.Bar?
  {
    var bar := inp.feed;
    if bar.stale && s.lastBar == 0 then (s.(lastBar := bar.time), Return)
    else if bar.flip.Some? && bar.time != s.lastBar then
      if !inp.earlyCheck && !inp.ordersClear then (s, Return)
      else
        var (a, e) := Flip(cfg, s, r, bar.flip.value);
        if e.Continue? then (a.(lastBar := bar.time), Return) else (a, e)
    else (s, Return)
  }

  function Trade(cfg: Config, s: State, inp: Input, r: Contract): (State, Ending) {
    if inp.earlyCheck && !inp.ordersClear then (s, Return)
    else if inp.feed.Unavailable? then (s.(marginError := false), Return)
    else
      var a := s.(marginError := false);
      if !inp.marketOpen then (a.(status := MarketClosed), Return)
      else
        var b := a.(status := Running);
        if inp.feed.Forming? then (b, Return) else TradeOnBar(cfg, b, inp, r)
  }

  function Cycle(cfg: Config, s: State, inp: Input): (State, Ending) {
    if !s.enabled then (s, Return)
    else if inp.tradingPaused then (s.(status := Paused), Return)
    else if inp.resolved.None? then (s.(marginError := false), Return)
    else
      var (a, e) := RollIfNeeded(cfg, s, inp, inp.resolved.value);
      if e.Continue? then Trade(cfg, a, inp, inp.resolved.value) else (a, e)
  }

  /** Expiry guard of a fixed contract r: exit, then call the position zero whatever the exit did. */
  function Expire(cfg: Config, s: State, r: Contract): (State, Ending) {
    var (a, e) := if s.position == 0 then (s, Done) else Leg(cfg, s, Exit, r, Opposite(Side(s.position)), Abs(s.position));
    if e.Died? then (a, Perish)
    else (Save(a.(position := 0)).(enabled := false, status := Expired), Return)
  }

  // ---------------------------------------------------------------- runs

  /** A new process starts from the persisted row. */
  function Reload(s: State, enabled: bool): State {
    State(s.row.position, s.row.contract, s.row, enabled, if enabled then Running else Disabled, false, 0, false, s.sent)
  }

  datatype Event = Evaluate(input: Input) | Restart(enabled: bool) | Toggle(enabled: bool)

  function Step(cfg: Config, s: State, ev: Event): State {
    match ev
    case Evaluate(inp) =>
      var (t, e) := Cycle(cfg, s, inp);
      if e.Perish? then Reload(t, inp.restartEnabled) else t
    case Restart(en) => Reload(s, en)
    case Toggle(en) =>
      s.(enabled := en, status := if en then Running else Disabled, marginError := s.marginError && !en)
  }

  function Run(cfg: Config, s: State, evs: seq<Event>): State
    decreases |evs|
  {
    if evs == [] then s else Run(cfg, Step(cfg, s, evs[0]), evs[1..])
  }

  function Start(enabled: bool): State {
    State(0, None, Row(0, None), enabled, if enabled then Running else Disabled, false, 0, false, [])
  }

  // ---------------------------------------------------------------- synchronisation on demand

  datatype SyncResult = Synced | SyncError | SyncPerish

  function SyncEntry(cfg: Config, s: State, r: Contract, d: Direction, qty: int, pauses: bool): (State, SyncResult) {
    var (a, e) := Leg(cfg, s, Entry, r, d, qty);
    match e
    case Done => (Save(a.(position := Signed(d, cfg.quantity))), Synced)
    case Died => (a, SyncPerish)
    case Failed =>
      (a.(status := if a.marginError then MarginShortfall else EntryFailed, enabled := a.enabled && !pauses), SyncError)
  }

  /** Brings the position to the prevailing trend d on the resolved contract r. */
  function Sync(cfg: Config, s: State, r: Contract, d: Direction): (State, SyncResult) {
    var x := Signed(d, s.position);
    if x == cfg.quantity then (s, Synced)
    else if x < 0 then
      var (a, e) := Leg(cfg, s, Exit, r, d, Abs(s.position));
      match e
      case Done => SyncEntry(cfg, Save(a.(position := 0)), r, d, cfg.quantity, true)
      case Died => (a, SyncPerish)
      case Failed => (a, SyncError)
    else if x > 0 then
      if cfg.quantity - x > 0 then SyncEntry(cfg, s, r, d, cfg.quantity - x, false) else (s, Synced)
    else SyncEntry(cfg, s, r, d, cfg.quantity, true)
  }
}
