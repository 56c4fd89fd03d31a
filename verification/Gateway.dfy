/**
 The order gateway: one dispatch of a signal is cut into slices, posted slice by slice, possibly
 repeated once after a session error, and reported as done, partially failed or failed.
 */
module Gateway {
  import opened Wrappers
  import opened Slicing
  import opened ErrorText
  import RM = RunnerModel
  import RL = RunnerLedger

  /** First class an error message falls into, in the order the retry logic tests them. */
  datatype Text = RmsText | TimeoutText | TransientText | AuthText | OtherText

  /**
   What happens to one order; `landed` tells whether the exchange got it after all.  A refusal
   before posting (no session, market closed, size caps) counts as Declined: nothing lands.
   */
  datatype Response =
    | Booked
    | RmsRejected
    | Declined(text: Text)
    | RateLimited
    | Garbled(landed: bool, text: Text)
    | TimedOut(landed: bool)
    | Dropped(landed: bool, text: Text)

  function Landed(r: Response, units: int): int {
    match r
    case Booked => units
    case Garbled(landed, _) => if landed then units else 0
    case TimedOut(landed) => if landed then units else 0
    case Dropped(landed, _) => if landed then units else 0
    case _ => 0
  }

  datatype Result = Success | Partial(dispatched: int) | Rejected | Error(text: Text)

  function Failure(r: Response): Result
    requires !r.Booked?
  {
    match r
    case RmsRejected => Rejected
    case Declined(text) => Error(text)
    case RateLimited => Error(OtherText)
    case Garbled(_, text) => Error(text)
    case TimedOut(_) => Error(TimeoutText)
    case Dropped(_, text) => Error(text)
  }

  /** Number of leading slices booked, when reply n answers the first of m. */
  function BookedSlices(reply: nat -> Response, n: nat, m: nat): (k: nat)
    ensures k <= m
    ensures forall i :: n <= i < n + k ==> reply(i).Booked?
    ensures k < m ==> !reply(n + k).Booked?
    decreases m
  {
    if m == 0 || !reply(n).Booked? then 0 else 1 + BookedSlices(reply, n + 1, m - 1)
  }

  /** A dispatch: how it was reported, how many units landed, how many replies it used. */
  datatype Dispatch = Dispatch(result: Result, landed: int, used: nat)

  function Place(reply: nat -> Response, n: nat, chunks: seq<int>): Dispatch {
    var k := BookedSlices(reply, n, |chunks|);
    var booked := Sum(chunks[..k]);
    if k == |chunks| then Dispatch(Success, booked, k)
    else
      Dispatch(
        if booked > 0 then Partial(booked) else Failure(reply(n + k)),
        booked + Landed(reply(n + k), chunks[k]),
        k + 1)
  }

  /** The slice loop stops at the first reply that is not a booking. */
  method PlaceOrder(reply: nat -> Response, n: nat, units: int, freeze: int, lot: int) returns (d: Dispatch)
    requires units > 0
    ensures d == Place(reply, n, Slices(units, freeze, lot))
  {
    var chunks := SliceQuantityForFreeze(units, freeze, lot);
    ghost var k := BookedSlices(reply, n, |chunks|);
    var booked, i := 0, 0;
    while i < |chunks|
      invariant 0 <= i <= k
      invariant booked == Sum(chunks[..i])
    {
      var r := reply(n + i);
      if !r.Booked? {
        assert i == k;
        return Dispatch(if booked > 0 then Partial(booked) else Failure(r), booked + Landed(r, chunks[i]), i + 1);
      }
      assert i < k;
      assert chunks[..i + 1] == chunks[..i] + [chunks[i]];
      SumAppend(chunks[..i], [chunks[i]]);
      booked := booked + chunks[i];
      i := i + 1;
    }
    return Dispatch(Success, booked, i);
  }

  /**
   `execute_trade_with_retry`: only a session error of the first attempt is sent again.  A partial
   failure of the first attempt whose own text reads like a gateway error is reported as a
   time-out; the second attempt is reported as it is.
   */
  function Execute(reply: nat -> Response, n: nat, chunks: seq<int>): Dispatch {
    var first := Place(reply, n, chunks);
    if first.result == Error(AuthText) then
      var second := Place(reply, n + first.used, chunks);
      Dispatch(second.result, first.landed + second.landed, first.used + second.used)
    else if first.result.Partial? && ReadsAsTimeout(first.result.dispatched, Sum(chunks)) then
      first.(result := Error(TimeoutText))
    else first
  }

  method ExecuteTradeWithRetry(reply: nat -> Response, n: nat, units: int, freeze: int, lot: int) returns (d: Dispatch)
    requires units > 0
    ensures d == Execute(reply, n, Slices(units, freeze, lot))
  {
    SlicesConserve(units, freeze, lot);
    hide Place, Slices;
    d := PlaceOrder(reply, n, units, freeze, lot);
    if d.result == Error(AuthText) {
      var again := PlaceOrder(reply, n + d.used, units, freeze, lot);
      d := Dispatch(again.result, d.landed + again.landed, d.used + again.used);
    } else if d.result.Partial? && ReadsAsTimeout(d.result.dispatched, units) {
      d := d.(result := Error(TimeoutText));
    }
  }

  datatype SignalStatus = DoneStatus | PartialStatus | FailedStatus

  function Recorded(r: Result): SignalStatus {
    match r
    case Success => DoneStatus
    case Partial(_) => PartialStatus
    case _ => FailedStatus
  }

  /** Whether the runner adds the slice to its position. */
  predicate Counted(status: SignalStatus, rollover: bool) {
    status.DoneStatus? || (status.PartialStatus? && !rollover)
  }

  // ---------------------------------------------------------------- results of one dispatch

  /**
   Success means every unit landed; a partial failure reports exactly the booked prefix, which is
   neither nothing nor everything.
   */
  lemma PlaceReportsPrefix(reply: nat -> Response, n: nat, units: int, freeze: int, lot: int)
    requires units > 0
    ensures var chunks := Slices(units, freeze, lot);
      var d := Place(reply, n, chunks);
      && (d.result.Success? ==> d.landed == units)
      && (d.result.Partial? ==> 0 < d.result.dispatched < units && d.result.dispatched <= d.landed <= units)
      && (d.result.Rejected? ==> d.landed == 0)
      && 0 <= d.landed <= units
  {
    var chunks := Slices(units, freeze, lot);
    SlicesConserve(units, freeze, lot);
    forall i | 0 <= i < |chunks| ensures chunks[i] > 0 {
      assert chunks[i] in chunks;
    }
    var k := BookedSlices(reply, n, |chunks|);
    PrefixSums(chunks, k);
    if k < |chunks| {
      PrefixSums(chunks, k + 1);
      assert chunks[..k + 1] == chunks[..k] + [chunks[k]];
      SumAppend(chunks[..k], [chunks[k]]);
    } else {
      assert chunks[..k] == chunks;
    }
  }

  /** The reply is an error that reads like a lost session. */
  predicate AuthError(r: Response) {
    !r.Booked? && Failure(r) == Error(AuthText)
  }

  /** An order reached the exchange although its error reads like a lost session. */
  predicate LandedBehindAuthError(r: Response) {
    Landed(r, 1) == 1 && AuthError(r)
  }

  /** No order lands behind such an error, so a repetition never doubles anything. */
  ghost predicate NoBlindRepeat(reply: nat -> Response) {
    forall n :: !LandedBehindAuthError(reply(n))
  }

  /** What a whole dispatch can land, for every broker. */
  lemma ExecuteLands(reply: nat -> Response, n: nat, units: int, freeze: int, lot: int)
    requires units > 0
    ensures var d := Execute(reply, n, Slices(units, freeze, lot));
      && 0 <= d.landed <= 2 * units
      && (d.result.Success? ==> units <= d.landed)
      && (d.result.Partial? ==> 0 < d.landed)
      && (NoBlindRepeat(reply) ==> d.landed <= units)
  {
    var chunks := Slices(units, freeze, lot);
    SlicesConserve(units, freeze, lot);
    var first := Place(reply, n, chunks);
    PlaceReportsPrefix(reply, n, units, freeze, lot);
    PlaceReportsPrefix(reply, n + first.used, units, freeze, lot);
    if first.result == Error(AuthText) {
      AuthStopsAtFirst(reply, n, units, freeze, lot);
      hide Slices, Place;
    }
  }

  /** A session error is reported only when nothing was booked before it. */
  lemma AuthStopsAtFirst(reply: nat -> Response, n: nat, units: int, freeze: int, lot: int)
    requires units > 0
    requires Place(reply, n, Slices(units, freeze, lot)).result == Error(AuthText)
    ensures AuthError(reply(n))
    ensures Landed(reply(n), 1) == 0 ==> Place(reply, n, Slices(units, freeze, lot)).landed == 0
  {
    var chunks := Slices(units, freeze, lot);
    SlicesConserve(units, freeze, lot);
    forall i | 0 <= i < |chunks| ensures chunks[i] > 0 {
      assert chunks[i] in chunks;
    }
    var k := BookedSlices(reply, n, |chunks|);
    PrefixSums(chunks, k);
    SumPositive(chunks[..k]);
    hide Slices;
  }

  // ---------------------------------------------------------------- slices of a runner's leg

  /** A lot size; what is no positive number is taken for one. */
  type LotSize = n: int | n >= 1 witness 1

  /** The gateway's own limits: freeze quantity, lot size, and the largest order it accepts. */
  datatype Gate = Gate(freeze: int, lot: LotSize, maxLots: int, maxUnits: int)

  /** An order of c lots is within the size caps; a larger one is refused before anything is sent. */
  predicate Takes(g: Gate, c: int) {
    c <= g.maxLots && c * g.lot <= g.maxUnits
  }

  /** An order of c lots is posted uncut. */
  predicate Fits(g: Gate, c: int) {
    FitsGateway(c, g.freeze, g.lot)
  }

  /** The orders the gateway posts for c lots. */
  function Pieces(g: Gate, c: int): seq<int> {
    Slices(c * g.lot, g.freeze, g.lot)
  }

  /** The dispatch of one engine slice of c lots. */
  function EngineDispatch(reply: nat -> Response, n: nat, c: int, g: Gate): Dispatch {
    if !Takes(g, c) then Dispatch(Error(OtherText), 0, 0) else Execute(reply, n, Pieces(g, c))
  }

  /** The dispatch of the slice is recorded as done or as failed. */
  predicate AllOrNothing(reply: nat -> Response, n: nat, c: int, g: Gate) {
    Recorded(EngineDispatch(reply, n, c, g).result) != PartialStatus
  }

  /** Each attempt at the slice lands whole or not at all. */
  predicate LandsWhole(reply: nat -> Response, n: nat, c: int, g: Gate) {
    EngineDispatch(reply, n, c, g).landed in {0, c * g.lot, 2 * (c * g.lot)}
  }

  lemma OneReply(reply: nat -> Response, n: nat, units: int)
    requires units > 0
    ensures Place(reply, n, [units])
      == Dispatch(if reply(n).Booked? then Success else Failure(reply(n)), Landed(reply(n), units), 1)
  {
    assert [units][..0] == [] && [units][..1] == [units];
    assert BookedSlices(reply, n, 1) == if reply(n).Booked? then 1 else 0;
    assert Sum([units]) == units + Sum([]);
  }

  /** What a slice that fits the gateway goes through: one reply, or two after a session error. */
  lemma FittingSlice(reply: nat -> Response, n: nat, c: int, g: Gate)
    requires c >= 1 && Takes(g, c) && Fits(g, c)
    ensures c * g.lot > 0
    ensures var last := if AuthError(reply(n)) then reply(n + 1) else reply(n);
      EngineDispatch(reply, n, c, g) == Dispatch(
        if last.Booked? then Success else Failure(last),
        Landed(reply(n), c * g.lot) + (if AuthError(reply(n)) then Landed(reply(n + 1), c * g.lot) else 0),
        if AuthError(reply(n)) then 2 else 1)
  {
    SliceIsOneOrderIff(g.freeze, g.lot, c);
    MulMonotone(1, c, g.lot);
    hide Place, Slices;
    OneReply(reply, n, c * g.lot);
    OneReply(reply, n + 1, c * g.lot);
  }

  /**
   A slice that fits the gateway is recorded as done or failed, and it is counted exactly when its
   last attempt was booked in full.
   */
  lemma EngineSliceIsAllOrNothing(reply: nat -> Response, n: nat, c: int, g: Gate, rollover: bool)
    requires c >= 1 && Takes(g, c) && Fits(g, c)
    ensures var d := EngineDispatch(reply, n, c, g);
      && AllOrNothing(reply, n, c, g)
      && d.used == (if AuthError(reply(n)) then 2 else 1)
      && (Counted(Recorded(d.result), rollover) <==> reply(n + d.used - 1).Booked?)
  {
    FittingSlice(reply, n, c, g);
  }

  lemma {:induction false} SumAligned(xs: seq<int>, lot: int)
    requires lot >= 1 && forall i :: 0 <= i < |xs| ==> xs[i] % lot == 0
    ensures Sum(xs) % lot == 0
  {
    if xs == [] {
      DivModUnique(0, lot, 0, 0);
    } else {
      SumAligned(xs[1..], lot);
      SumOfMultiples(xs[0], Sum(xs[1..]), lot);
    }
  }

  lemma SumOfMultiples(a: int, b: int, lot: int)
    requires lot >= 1 && a % lot == 0 && b % lot == 0
    ensures (a + b) % lot == 0
  {
    DivModUnique(a + b, lot, a / lot + b / lot, 0);
  }

  lemma PiecesAreLots(g: Gate, c: int)
    requires c >= 1
    ensures forall i :: 0 <= i < |Pieces(g, c)| ==> Pieces(g, c)[i] % g.lot == 0
  {
    MulMonotone(1, c, g.lot);
    LotDivides(c, g.lot);
    LotAlignment(c * g.lot, g.freeze, g.lot);
    var chunks := Pieces(g, c);
    hide Slices;
    forall i | 0 <= i < |chunks| ensures chunks[i] % g.lot == 0 {
      assert chunks[i] in chunks;
    }
  }

  lemma PlaceLandsLots(reply: nat -> Response, n: nat, chunks: seq<int>, lot: int)
    requires lot >= 1 && forall i :: 0 <= i < |chunks| ==> chunks[i] % lot == 0
    ensures Place(reply, n, chunks).landed % lot == 0
  {
    var k := BookedSlices(reply, n, |chunks|);
    SumAligned(chunks[..k], lot);
    if k < |chunks| {
      DivModUnique(0, lot, 0, 0);
      SumOfMultiples(Sum(chunks[..k]), Landed(reply(n + k), chunks[k]), lot);
    }
  }

  /** Whatever lands is a whole number of lots. */
  lemma LandedIsLots(reply: nat -> Response, n: nat, c: int, g: Gate)
    requires c >= 1
    ensures EngineDispatch(reply, n, c, g).landed % g.lot == 0
  {
    DivModUnique(0, g.lot, 0, 0);
    var first := Place(reply, n, Pieces(g, c));
    PiecesAreLots(g, c);
    hide Place, Pieces;
    PlaceLandsLots(reply, n, Pieces(g, c), g.lot);
    PlaceLandsLots(reply, n + first.used, Pieces(g, c), g.lot);
    SumOfMultiples(first.landed, Place(reply, n + first.used, Pieces(g, c)).landed, g.lot);
  }

  /** When everything from here on is booked, an order within the caps is done. */
  lemma BookedThrough(reply: nat -> Response, n: nat, c: int, g: Gate)
    requires c >= 1 && Takes(g, c) && forall k :: n <= k ==> reply(k).Booked?
    ensures EngineDispatch(reply, n, c, g).result.Success?
  {
  }

  /** The size caps: against a broker that books everything an order is done exactly within both. */
  lemma SizeCapsIff(c: int, g: Gate)
    requires c >= 1
    ensures var d := EngineDispatch((_: nat) => Booked, 0, c, g);
      && (d.result.Success? <==> c <= g.maxLots && c * g.lot <= g.maxUnits)
      && (!d.result.Success? ==> d.used == 0 && d.landed == 0 && !Counted(Recorded(d.result), false))
  {
    if Takes(g, c) {
      BookedThrough((_: nat) => Booked, 0, c, g);
    }
  }

  /** A first order that lands behind a lost session is sent again in full. */
  lemma DroppedFirstLandsMore(c: int, g: Gate)
    requires c >= 1 && Takes(g, c)
    ensures var d := EngineDispatch(DroppedFirst(), 0, c, g);
      d.result.Success? && d.landed > c * g.lot
  {
    var chunks := Pieces(g, c);
    MulMonotone(1, c, g.lot);
    SlicesConserve(c * g.lot, g.freeze, g.lot);
    PlaceReportsPrefix(DroppedFirst(), 1, c * g.lot, g.freeze, g.lot);
    assert chunks[0] in chunks;
    assert Place(DroppedFirst(), 0, chunks) == Dispatch(Error(AuthText), chunks[0], 1) by {
      assert BookedSlices(DroppedFirst(), 0, |chunks|) == 0;
      assert chunks[..0] == [];
    }
  }

  // ---------------------------------------------------------------- what is sent again

  /** The replies that make the client log in and send the whole order again, one by one. */
  predicate LostSession(r: Response) {
    match r
    case Booked => false
    case RmsRejected => false
    case Declined(text) => text.AuthText?
    case RateLimited => false
    case Garbled(_, text) => text.AuthText?
    case TimedOut(_) => false
    case Dropped(_, text) => text.AuthText?
  }

  /** Landed behind such an error: a garbled or dropped reply, and nothing else. */
  lemma LandedBehindAuthErrorIff(r: Response)
    ensures AuthError(r) <==> LostSession(r)
    ensures LandedBehindAuthError(r) <==> r == Garbled(true, AuthText) || r == Dropped(true, AuthText)
  {
  }

  /** Orders posted by one attempt at m pieces, the first of which gets reply n. */
  function Posted(reply: nat -> Response, n: nat, m: nat): nat {
    Min(BookedSlices(reply, n, m) + 1, m)
  }

  /**
   For every broker and every order the gateway takes, cut or not: it is sent again if and only if
   the first reply is one of those.  A reply that times out, is rate-limited or is rejected ends the
   dispatch after one posting, counts as nothing, and at most that one order is on the exchange.
   */
  lemma SentAgainIff(reply: nat -> Response, n: nat, c: int, g: Gate)
    requires c >= 1 && Takes(g, c)
    ensures var d := EngineDispatch(reply, n, c, g);
      var pieces := Pieces(g, c);
      && pieces != []
      && d.used == (if LostSession(reply(n)) then 1 + Posted(reply, n + 1, |pieces|) else Posted(reply, n, |pieces|))
      && (!LostSession(reply(n)) ==> d.landed <= c * g.lot)
      && (reply(n).TimedOut? || reply(n).RateLimited? || reply(n).RmsRejected? ==>
            d.used == 1 && Recorded(d.result).FailedStatus?
            && d.landed == (if reply(n) == TimedOut(true) then pieces[0] else 0))
  {
    var pieces := Pieces(g, c);
    MulMonotone(1, c, g.lot);
    SlicesConserve(c * g.lot, g.freeze, g.lot);
    PlaceReportsPrefix(reply, n, c * g.lot, g.freeze, g.lot);
    if !reply(n).Booked? {
      assert BookedSlices(reply, n, |pieces|) == 0;
      assert pieces[..0] == [];
    } else {
      BookedFirst(reply, n, c, g);
    }
    hide Slices;
  }

  lemma BookedFirst(reply: nat -> Response, n: nat, c: int, g: Gate)
    requires c >= 1 && reply(n).Booked?
    ensures Place(reply, n, Pieces(g, c)).result != Error(AuthText)
  {
    MulMonotone(1, c, g.lot);
    if Place(reply, n, Pieces(g, c)).result == Error(AuthText) {
      AuthStopsAtFirst(reply, n, c * g.lot, g.freeze, g.lot);
    }
  }

  // ---------------------------------------------------------------- slices that are cut again

  /** Books order n, rejects all others. */
  function BookOnly(n: nat): nat -> Response {
    (k: nat) => if k == n then Booked else RmsRejected
  }

  /** A lost session, one booked order, one rejected, and everything booked after that. */
  function PartAfterSession(): nat -> Response {
    (k: nat) => if k == 0 then Declined(AuthText) else if k == 2 then RmsRejected else Booked
  }

  lemma CutSlicePlaces(reply: nat -> Response, n: nat, c: int, g: Gate)
    requires c >= 1 && !Fits(g, c)
    requires reply(n).Booked? && reply(n + 1).RmsRejected?
    ensures c * g.lot > 0 && |Pieces(g, c)| >= 2 && Sum(Pieces(g, c)) == c * g.lot
    ensures 0 < Pieces(g, c)[0] < c * g.lot
    ensures Place(reply, n, Pieces(g, c)) == Dispatch(Partial(Pieces(g, c)[0]), Pieces(g, c)[0], 2)
  {
    SliceIsOneOrderIff(g.freeze, g.lot, c);
    MulMonotone(1, c, g.lot);
    SlicesConserve(c * g.lot, g.freeze, g.lot);
    var chunks := Pieces(g, c);
    hide Slices;
    assert BookedSlices(reply, n, |chunks|) == 1 by {
      assert BookedSlices(reply, n + 1, |chunks| - 1) == 0;
    }
    assert chunks[..1] == [chunks[0]] && Sum([chunks[0]]) == chunks[0] + Sum([]);
  }

  /**
   A slice cut again at the gateway can end partially, whatever its numbers are: after a lost
   session the text is no longer tested.  A flip or top-up then counts all of it, a rollover none.
   */
  lemma CutSliceEndsPartially(c: int, g: Gate)
    requires c >= 1 && Takes(g, c) && !Fits(g, c)
    ensures var d := EngineDispatch(PartAfterSession(), 0, c, g);
      && d == Dispatch(Partial(Pieces(g, c)[0]), Pieces(g, c)[0], 3) && 0 < d.landed < c * g.lot
      && !AllOrNothing(PartAfterSession(), 0, c, g)
      && Counted(Recorded(d.result), false) && !Counted(Recorded(d.result), true)
  {
    var reply := PartAfterSession();
    CutSlicePlaces(reply, 1, c, g);
    var chunks := Pieces(g, c);
    assert Place(reply, 0, chunks) == Dispatch(Error(AuthText), 0, 1) by {
      assert BookedSlices(reply, 0, |chunks|) == 0;
      assert chunks[..0] == [];
    }
    hide Place, Pieces;
  }

  /** Refused behind a booked part at the first attempt: what is recorded depends on two numbers. */
  lemma CutSliceLandsInPart(c: int, g: Gate)
    requires c >= 1 && Takes(g, c) && !Fits(g, c)
    ensures var d := EngineDispatch(BookOnly(0), 0, c, g);
      && d.landed == Pieces(g, c)[0] && 0 < d.landed < c * g.lot
      && !LandsWhole(BookOnly(0), 0, c, g)
      && d.result == (if ReadsAsTimeout(d.landed, c * g.lot) then Error(TimeoutText) else Partial(d.landed))
  {
    CutSlicePlaces(BookOnly(0), 0, c, g);
    hide Place, Pieces;
  }

  /**
   For every broker: when a proper part of the orders was booked at the first attempt, the signal
   is recorded as failed, with that part on the exchange, if and only if the client's own message
   about it holds 502, 503 or 504; otherwise it is recorded as a partial failure.
   */
  lemma PartIsRecordedFailedIff(reply: nat -> Response, n: nat, c: int, g: Gate)
    requires c >= 1 && Takes(g, c)
    requires 0 < BookedSlices(reply, n, |Pieces(g, c)|) < |Pieces(g, c)|
    ensures var d := EngineDispatch(reply, n, c, g);
      var booked := Sum(Pieces(g, c)[..BookedSlices(reply, n, |Pieces(g, c)|)]);
      && 0 < booked < c * g.lot && booked <= d.landed
      && Recorded(d.result) == (if HasCode(Message(booked, c * g.lot)) then FailedStatus else PartialStatus)
  {
    var chunks := Pieces(g, c);
    var k := BookedSlices(reply, n, |chunks|);
    MulMonotone(1, c, g.lot);
    SlicesConserve(c * g.lot, g.freeze, g.lot);
    forall i | 0 <= i < |chunks| ensures chunks[i] > 0 {
      assert chunks[i] in chunks;
    }
    SumPositive(chunks[..k]);
    PrefixSums(chunks, k);
    PlaceReportsPrefix(reply, n, c * g.lot, g.freeze, g.lot);
    ReadsAsTimeoutIff(Sum(chunks[..k]), c * g.lot);
    hide Slices, HasCode, Message, ReadsAsTimeout;
  }

  /** Forty-two lots of 120 under a limit of 2800: 2760 units land and "2760/5040" reads as a 504. */
  lemma MisreadWitness()
    ensures var g := Gate(2800, 120, 100, 100000);
      var d := EngineDispatch(BookOnly(0), 0, 42, g);
      Recorded(d.result) == FailedStatus && d.landed == 2760
  {
    var g := Gate(2800, 120, 100, 100000);
    assert EffectiveFreeze(2800, 120) == 2760;
    assert Pieces(g, 42)[0] == 2760;
    hide EngineDispatch, Pieces;
    CutSliceLandsInPart(42, g);
    assert CodeInNumber(5040 / 10);
    assert ReadsAsTimeout(2760, 5040);
  }

  // ---------------------------------------------------------------- whole legs

  /** Every slice of the leg that the gateway takes at all passes it uncut. */
  predicate LegFits(quantity: int, freeze: int, lot: int, g: Gate) {
    forall c :: c in Slices(quantity, FreezeLots(freeze, lot), 1) && Takes(g, c) ==> Fits(g, c)
  }

  lemma LegSlicesPositive(quantity: int, freeze: int, lot: int)
    ensures forall c :: c in Slices(quantity, FreezeLots(freeze, lot), 1) ==> c >= 1
  {
    SlicesConserve(quantity, FreezeLots(freeze, lot), 1);
  }

  /**
   Partial failure is unreachable for a leg, whatever the broker answers, if and only if every
   slice the gateway takes fits it.
   */
  lemma LegIsAllOrNothingIff(quantity: int, freeze: int, lot: int, g: Gate)
    ensures (forall c, reply, n :: c in Slices(quantity, FreezeLots(freeze, lot), 1) ==> AllOrNothing(reply, n, c, g))
      <==> LegFits(quantity, freeze, lot, g)
  {
    var slices := Slices(quantity, FreezeLots(freeze, lot), 1);
    LegSlicesPositive(quantity, freeze, lot);
    assert forall c, reply, n :: !Takes(g, c) ==> AllOrNothing(reply, n, c, g);
    hide Slices, AllOrNothing, Takes, Fits;
    if LegFits(quantity, freeze, lot, g) {
      forall c, reply, n | c in slices ensures AllOrNothing(reply, n, c, g) {
        if Takes(g, c) {
          EngineSliceIsAllOrNothing(reply, n, c, g, false);
        }
      }
    } else {
      var c :| c in slices && Takes(g, c) && !Fits(g, c);
      CutSliceEndsPartially(c, g);
      assert !AllOrNothing(PartAfterSession(), 0, c, g);
    }
  }

  /** What lands does not depend on the texts: whole or nothing per attempt, under the same condition. */
  lemma LegLandsWholeIff(quantity: int, freeze: int, lot: int, g: Gate)
    ensures (forall c, reply, n :: c in Slices(quantity, FreezeLots(freeze, lot), 1) ==> LandsWhole(reply, n, c, g))
      <==> LegFits(quantity, freeze, lot, g)
  {
    var slices := Slices(quantity, FreezeLots(freeze, lot), 1);
    LegSlicesPositive(quantity, freeze, lot);
    assert forall c, reply, n :: !Takes(g, c) ==> LandsWhole(reply, n, c, g);
    hide Slices, Takes, Fits;
    if LegFits(quantity, freeze, lot, g) {
      forall c, reply, n | c in slices ensures LandsWhole(reply, n, c, g) {
        if Takes(g, c) {
          SliceLandsTwiceIff(reply, n, c, g);
        }
      }
    } else {
      var c :| c in slices && Takes(g, c) && !Fits(g, c);
      CutSliceLandsInPart(c, g);
    }
  }

  /** With one limit and lot size for both levels the condition holds for every leg. */
  lemma MatchingLegIsAllOrNothing(quantity: int, c: int, g: Gate, reply: nat -> Response, n: nat)
    requires c in Slices(quantity, FreezeLots(g.freeze, g.lot), 1)
    ensures AllOrNothing(reply, n, c, g) && LandsWhole(reply, n, c, g)
  {
    EngineSliceIsOneOrder(quantity, g.freeze, g.lot, c);
    SliceIsOneOrderIff(g.freeze, g.lot, c);
    hide Slices, FitsGateway;
    if Takes(g, c) {
      EngineSliceIsAllOrNothing(reply, n, c, g, false);
      SliceLandsTwiceIff(reply, n, c, g);
    }
  }

  /** Fifty lots under a lot size of one in the engine, and of a hundred units at the gateway. */
  lemma StaleLotSizeWitness()
    ensures Slices(50, FreezeLots(1000, 1), 1) == [50]
    ensures var d := EngineDispatch(BookOnly(0), 0, 50, Gate(1000, 100, 100, 100000));
      Counted(Recorded(d.result), false) && d.landed == 1000
  {
    var g := Gate(1000, 100, 100, 100000);
    assert EffectiveFreeze(1000, 100) == 1000;
    assert Pieces(g, 50)[0] == 1000;
    hide EngineDispatch, Pieces;
    CutSliceLandsInPart(50, g);
    assert !CodeInNumber(1000) && !CodeInNumber(5000) by {
      assert !CodeInNumber(100) && !CodeInNumber(500);
    }
  }

  /**
   A fitting slice lands at most once, unless its first attempt landed behind an error that reads
   like a lost session: then, and only then, can the repetition land a second time.
   */
  lemma SliceLandsTwiceIff(reply: nat -> Response, n: nat, c: int, g: Gate)
    requires c >= 1 && Takes(g, c) && Fits(g, c)
    ensures var d := EngineDispatch(reply, n, c, g);
      && LandsWhole(reply, n, c, g)
      && (d.landed > c * g.lot <==> LandedBehindAuthError(reply(n)) && Landed(reply(n + 1), 1) == 1)
  {
    FittingSlice(reply, n, c, g);
  }

  /** A connection dropped after the exchange had the order, with a message that names the session. */
  function DroppedFirst(): nat -> Response {
    (k: nat) => if k == 0 then Dropped(true, AuthText) else Booked
  }

  lemma LandsTwiceWitness()
    ensures EngineDispatch(DroppedFirst(), 0, 1, Gate(100, 1, 100, 100000)).landed == 2
  {
    FittingSlice(DroppedFirst(), 0, 1, Gate(100, 1, 100, 100000));
    hide EngineDispatch;
  }

  // ---------------------------------------------------------------- outcomes for the runner

  /** The runner's view of a dispatch: booked, known not to have landed, or unknown. */
  function SliceOutcome(d: Dispatch): RM.Outcome {
    if d.result.Success? then RM.Accepted
    else if d.result.Rejected? then RM.Refused(true)
    else RM.Unknown(d.landed > 0)
  }

  /** The lots landed are those the runner's specification assumes for this outcome. */
  predicate OutcomeTellsLots(d: Dispatch, units: int) {
    d.landed == (if RL.Reached(SliceOutcome(d)) then units else 0)
  }

  /**
   The abstraction the runner's specification uses: the outcome is Accepted iff the runner counts
   the slice, and it tells the units landed exactly unless a first attempt landed behind an error
   that reads like a lost session and the repetition did anything but fail without a verdict.
   */
  lemma OutcomeIsFaithfulIff(reply: nat -> Response, n: nat, c: int, g: Gate, rollover: bool)
    requires c >= 1 && Takes(g, c) && Fits(g, c)
    ensures var d := EngineDispatch(reply, n, c, g);
      && (SliceOutcome(d).Accepted? <==> Counted(Recorded(d.result), rollover))
      && (SliceOutcome(d) == RM.Refused(true) <==> reply(n + d.used - 1).RmsRejected?)
      && (OutcomeTellsLots(d, c * g.lot)
          <==> !LandedBehindAuthError(reply(n)) || (Landed(reply(n + 1), 1) == 0 && !reply(n + 1).RmsRejected?))
  {
    FittingSlice(reply, n, c, g);
    hide EngineDispatch;
  }
}
