/**
 Trading calendar and the rollover cutoff: market hours in Indian Standard Time and the step
 back to the trading day on which a commodity contract must be rolled.
 */
module Calendar {
  import opened Wrappers

  /** A date as its proleptic ordinal (day 1 is a Monday). */
  type Day = int

  /** Monday is 0, Sunday is 6. */
  function Weekday(d: Day): int {
    (d + 6) % 7
  }

  datatype Holidays = Holidays(fullDay: set<Day>, morning: set<Day>)

  function AllHolidays(h: Holidays): set<Day> {
    h.fullDay + h.morning
  }

  datatype Segment = MCXFO | NCDEX | NSEBSE

  /** A moment in Indian Standard Time, to the second. */
  datatype Instant = Instant(day: Day, second: nat)

  predicate NotAfter(a: Instant, b: Instant) {
    a.day < b.day || (a.day == b.day && a.second <= b.second)
  }

  function Clock(hour: nat, minute: nat): nat {
    hour * 3600 + minute * 60
  }

  /** Market hours of a segment; every moment counts as open when hours are not enforced. */
  predicate IsMarketOpen(h: Holidays, enforce: bool, seg: Segment, now: Instant) {
    if !enforce then true
    else if Weekday(now.day) >= 5 then false
    else if seg.MCXFO? then
      if now.day in h.fullDay then false
      else if now.day in h.morning then Clock(17, 0) <= now.second <= Clock(23, 55)
      else Clock(9, 0) <= now.second <= Clock(23, 55)
    else if now.day in AllHolidays(h) then false
    else if seg.NSEBSE? then Clock(9, 15) <= now.second <= Clock(15, 30)
    else Clock(9, 0) <= now.second <= Clock(23, 55)
  }

  /** The first sixty seconds of an MCX session, when rollovers wait. */
  predicate IsOpeningStabilising(h: Holidays, seg: Segment, now: Instant) {
    seg.MCXFO?
    && if now.day in h.morning then Clock(17, 0) <= now.second < Clock(17, 1)
       else now.day !in h.fullDay && Clock(9, 0) <= now.second < Clock(9, 1)
  }

  predicate TradingDay(h: Holidays, d: Day) {
    Weekday(d) < 5 && d !in AllHolidays(h)
  }

  /** d is the greatest trading day not after the limit. */
  ghost predicate LastTradingDay(h: Holidays, limit: Day, d: Day) {
    d <= limit && TradingDay(h, d) && forall x :: d < x <= limit ==> !TradingDay(h, x)
  }

  function HolidaysUpTo(h: Holidays, d: Day): set<Day> {
    set x | x in AllHolidays(h) && x <= d
  }

  /** Stepping back from a holiday leaves fewer holidays behind; from a weekend, a lower weekday. */
  lemma SteppingBack(h: Holidays, d: Day)
    requires !TradingDay(h, d)
    ensures HolidaysUpTo(h, d - 1) <= HolidaysUpTo(h, d)
    ensures d in AllHolidays(h) ==> d in HolidaysUpTo(h, d) && d !in HolidaysUpTo(h, d - 1)
    ensures d !in AllHolidays(h) ==>
      HolidaysUpTo(h, d - 1) == HolidaysUpTo(h, d) && 0 <= Weekday(d - 1) < Weekday(d)
  {
    if d !in AllHolidays(h) {
      assert forall x :: x in HolidaysUpTo(h, d) ==> x in HolidaysUpTo(h, d - 1);
    }
  }

  function LastTrading(h: Holidays, limit: Day): (d: Day)
    ensures LastTradingDay(h, limit, d)
    decreases HolidaysUpTo(h, limit), Weekday(limit)
  {
    if TradingDay(h, limit) then limit
    else
      SteppingBack(h, limit);
      LastTrading(h, limit - 1)
  }

  lemma LastTradingDayIsUnique(h: Holidays, limit: Day, d: Day, e: Day)
    requires LastTradingDay(h, limit, d) && LastTradingDay(h, limit, e)
    ensures d == e
  {
    assert !(d < e) && !(e < d);
  }

  function Cutoff(h: Holidays, expiry: Day): Instant {
    Instant(LastTrading(h, expiry - 8), Clock(14, 0))
  }

  /** The loop that steps back terminates for every finite holiday table and finds that day. */
  method RolloverCutoff(h: Holidays, expiry: Day) returns (cutoff: Instant)
    ensures LastTradingDay(h, expiry - 8, cutoff.day) && cutoff.second == Clock(14, 0)
    ensures cutoff == Cutoff(h, expiry)
  {
    var target := expiry - 8;
    while Weekday(target) >= 5 || target in AllHolidays(h)
      invariant target <= expiry - 8
      invariant forall x :: target < x <= expiry - 8 ==> !TradingDay(h, x)
      decreases HolidaysUpTo(h, target), Weekday(target)
    {
      SteppingBack(h, target);
      target := target - 1;
    }
    LastTradingDayIsUnique(h, expiry - 8, target, LastTrading(h, expiry - 8));
    cutoff := Instant(target, Clock(14, 0));
  }

  /** `is_commodity_past_rollover`: the seven-day fail-safe first, then the cutoff. */
  predicate IsPastRollover(h: Holidays, expiry: Day, now: Instant) {
    if expiry - now.day <= 7 then true else NotAfter(Cutoff(h, expiry), now)
  }

  // ---------------------------------------------------------------- sessions

  /** Weeks repeat, day 1 is a Monday, and the weekday counts the days since. */
  lemma WeekdaysRepeat(d: Day)
    ensures Weekday(1) == 0 && Weekday(d + 7) == Weekday(d)
    ensures Weekday(d + 1) == (if Weekday(d) == 6 then 0 else Weekday(d) + 1)
  {
  }

  /** Moments are totally ordered. */
  lemma NotAfterIsOrder(a: Instant, b: Instant, c: Instant)
    ensures NotAfter(a, b) || NotAfter(b, a)
    ensures NotAfter(a, b) && NotAfter(b, a) ==> a == b
    ensures NotAfter(a, b) && NotAfter(b, c) ==> NotAfter(a, c)
  {
  }

  /** Seconds of the day in which a segment trades on a normal weekday, as opening and closing second. */
  function Session(seg: Segment): (int, int) {
    match seg
    case MCXFO => (32400, 86100)
    case NCDEX => (32400, 86100)
    case NSEBSE => (33300, 55800)
  }

  /**
   Market hours, both ends included: never on a weekend or a full holiday; on a morning holiday the
   commodity exchange opens at 17:00 and the others not at all; else within the session.
   */
  lemma MarketHours(h: Holidays, seg: Segment, now: Instant)
    ensures var (from, to) := Session(seg);
      IsMarketOpen(h, true, seg, now)
      <==> (&& Weekday(now.day) !in {5, 6} && now.day !in h.fullDay
            && (if now.day !in h.morning then from <= now.second <= to
                else seg.MCXFO? && 61200 <= now.second <= to))
    ensures IsMarketOpen(h, false, seg, now)
  {
  }

  /**
   The opening buffer is the first minute of a commodity session: on a weekday that is in one of
   the holiday tables at most, it holds exactly when the market is open and was not a minute before.
   */
  lemma StabilisingIsFirstMinute(h: Holidays, now: Instant)
    requires Weekday(now.day) < 5 && now.second >= 60
    requires now.day in h.morning ==> now.day !in h.fullDay
    ensures IsOpeningStabilising(h, MCXFO, now)
      <==> (IsMarketOpen(h, true, MCXFO, now) && !IsMarketOpen(h, true, MCXFO, Instant(now.day, now.second - 60)))
    ensures !IsOpeningStabilising(h, NCDEX, now) && !IsOpeningStabilising(h, NSEBSE, now)
  {
  }

  // ---------------------------------------------------------------- properties

  /** The seven-day fail-safe is redundant: past rollover means at or after the cutoff. */
  lemma FailSafeIsRedundant(h: Holidays, expiry: Day, now: Instant)
    ensures IsPastRollover(h, expiry, now) <==> NotAfter(Cutoff(h, expiry), now)
  {
    assert LastTradingDay(h, expiry - 8, Cutoff(h, expiry).day);
  }

  /** A later expiry never rolls earlier. */
  lemma CutoffIsMonotone(h: Holidays, e1: Day, e2: Day)
    requires e1 <= e2
    ensures NotAfter(Cutoff(h, e1), Cutoff(h, e2))
  {
    var d1, d2 := Cutoff(h, e1).day, Cutoff(h, e2).day;
    assert LastTradingDay(h, e1 - 8, d1) && LastTradingDay(h, e2 - 8, d2);
    assert !(d2 < d1);
  }

  /** Time only takes a contract past its rollover, never back. */
  lemma PastRolloverIsMonotone(h: Holidays, e1: Day, e2: Day, now: Instant, later: Instant)
    requires e1 <= e2 && NotAfter(now, later)
    ensures IsPastRollover(h, e2, now) ==> IsPastRollover(h, e1, later)
  {
    FailSafeIsRedundant(h, e2, now);
    FailSafeIsRedundant(h, e1, later);
    CutoffIsMonotone(h, e1, e2);
  }

  /**
   From the cutoff until the close of that day the commodity market is open and past its opening
   minute, so a due rollover is neither queued nor made to wait.
   */
  lemma CutoffDayIsTradable(h: Holidays, expiry: Day, now: Instant)
    requires now.day == Cutoff(h, expiry).day && Clock(14, 0) <= now.second <= Clock(23, 55)
    ensures IsPastRollover(h, expiry, now)
    ensures IsMarketOpen(h, true, MCXFO, now) && IsMarketOpen(h, true, NCDEX, now)
    ensures !IsOpeningStabilising(h, MCXFO, now)
  {
    FailSafeIsRedundant(h, expiry, now);
    assert LastTradingDay(h, expiry - 8, now.day);
  }
}
