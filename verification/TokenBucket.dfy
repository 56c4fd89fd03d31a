/**
 The token bucket in front of order-mutating requests, over exact reals.  The clock only moves
 forward; `lag` fixes how much time passes between consecutive readings, and `others` how many
 times other threads pass through the locked section while this one sleeps or waits for it.
 */
module TokenBucket {
  import opened Wrappers

  datatype Bucket = Bucket(rate: real, capacity: real, tokens: real, last: real)

  predicate Valid(b: Bucket) {
    b.rate > 0.0 && b.capacity >= 0.0 && 0.0 <= b.tokens <= b.capacity
  }

  /** Tokens earned in a stretch of time. */
  function Earned(rate: real, elapsed: real): real {
    elapsed * rate
  }

  lemma EarnedGrows(rate: real, x: real, y: real)
    requires rate > 0.0
    ensures x <= y ==> Earned(rate, x) <= Earned(rate, y)
    ensures x < y ==> Earned(rate, x) < Earned(rate, y)
    ensures Earned(rate, 0.0) == 0.0
  {
  }

  lemma EarnedIsProduct(rate: real, elapsed: real)
    ensures Earned(rate, elapsed) == elapsed * rate
  {
  }

  lemma EarnedAdds(rate: real, x: real, y: real)
    ensures Earned(rate, x) + Earned(rate, y) == Earned(rate, x + y)
  {
  }

  function Refill(b: Bucket, now: real): Bucket {
    b.(tokens := MinReal(b.capacity, b.tokens + Earned(b.rate, now - b.last)), last := now)
  }

  /** The locked section: refill, then take a token when there is one. */
  function Attempt(b: Bucket, now: real): (Bucket, bool) {
    var r := Refill(b, now);
    if r.tokens >= 1.0 then (r.(tokens := r.tokens - 1.0), true) else (r, false)
  }

  /** Any number of threads: the locked sections happen one after the other, at these times. */
  predicate Forward(start: real, times: seq<real>) {
    && (times != [] ==> start <= times[0])
    && (forall i, j :: 0 <= i < j < |times| ==> times[i] <= times[j])
  }

  function AfterAttempts(b: Bucket, times: seq<real>): Bucket
    decreases |times|
  {
    if times == [] then b else AfterAttempts(Attempt(b, times[0]).0, times[1..])
  }

  function Grants(b: Bucket, times: seq<real>): nat
    decreases |times|
  {
    if times == [] then 0
    else
      var (c, ok) := Attempt(b, times[0]);
      (if ok then 1 else 0) + Grants(c, times[1..])
  }

  lemma AttemptKeepsValid(b: Bucket, now: real)
    requires Valid(b) && b.last <= now
    ensures var (c, ok) := Attempt(b, now);
      && Valid(c) && c.last == now && c.rate == b.rate && c.capacity == b.capacity
      && c.tokens + (if ok then 1.0 else 0.0) <= b.tokens + Earned(b.rate, now - b.last)
      && c.tokens + (if ok then 1.0 else 0.0) <= b.capacity
  {
    EarnedGrows(b.rate, 0.0, now - b.last);
    hide Earned;
  }

  /**
   An attempt is granted if and only if the bucket can hold a token and what was left plus what was
   earned since makes one; in particular after an idle time of 1/rate.
   */
  lemma AttemptGrantedIff(b: Bucket, now: real)
    requires Valid(b) && b.last <= now
    ensures Attempt(b, now).1 <==> b.capacity >= 1.0 && b.tokens + Earned(b.rate, now - b.last) >= 1.0
    ensures b.capacity >= 1.0 && now - b.last >= 1.0 / b.rate ==> Attempt(b, now).1
  {
    if now - b.last >= 1.0 / b.rate {
      EarnedGrows(b.rate, 1.0 / b.rate, now - b.last);
      EarnedIsProduct(b.rate, 1.0 / b.rate);
    }
    hide Earned;
  }

  /** Nothing is lost below the brim: tokens after an attempt are old plus earned, less the grant, up to the capacity. */
  lemma TokensAreConserved(b: Bucket, now: real)
    requires Valid(b) && b.last <= now
    ensures var (c, ok) := Attempt(b, now);
      c.tokens + (if ok then 1.0 else 0.0) == MinReal(b.capacity, b.tokens + Earned(b.rate, now - b.last))
  {
    hide Earned;
  }

  /** Tokens held plus tokens granted never exceed what was there plus what was refilled. */
  lemma {:induction false} GrantsWithinRefill(b: Bucket, times: seq<real>)
    requires Valid(b) && Forward(b.last, times)
    ensures var c := AfterAttempts(b, times);
      && Valid(c) && c.rate == b.rate && c.capacity == b.capacity && b.last <= c.last
      && c.last == (if times == [] then b.last else times[|times| - 1])
      && Grants(b, times) as real + c.tokens <= b.tokens + Earned(b.rate, c.last - b.last)
    decreases |times|
  {
    hide Attempt, Earned;
    if times == [] {
      EarnedGrows(b.rate, 0.0, 0.0);
    } else {
      AttemptKeepsValid(b, times[0]);
      var c := Attempt(b, times[0]).0;
      GrantsWithinRefill(c, times[1..]);
      EarnedAdds(b.rate, times[0] - b.last, AfterAttempts(c, times[1..]).last - times[0]);
    }
  }

  /** Each moment lies at least this long after the one before. */
  predicate Apart(start: real, times: seq<real>, gap: real)
    decreases |times|
  {
    times != [] ==> times[0] - start >= gap && Apart(times[0], times[1..], gap)
  }

  /** Attempts no closer together than 1/rate are all granted. */
  lemma {:induction false} PatientCallersAreServed(b: Bucket, times: seq<real>)
    requires Valid(b) && b.capacity >= 1.0 && Apart(b.last, times, 1.0 / b.rate)
    ensures Grants(b, times) == |times|
    decreases |times|
  {
    if times != [] {
      RateIsPositive(b.rate);
      AttemptGrantedIff(b, times[0]);
      AttemptKeepsValid(b, times[0]);
      hide Attempt;
      PatientCallersAreServed(Attempt(b, times[0]).0, times[1..]);
    }
  }

  lemma RateIsPositive(rate: real)
    requires rate > 0.0
    ensures 1.0 / rate > 0.0
  {
    assert (1.0 / rate) * rate == 1.0;
  }

  /** An interval opens with at most a full bucket. */
  lemma GrantsFromFullBucket(c: Bucket, inside: seq<real>, from: real, to: real)
    requires Valid(c) && Forward(c.last, inside) && inside != []
    requires from <= inside[0] && inside[|inside| - 1] <= to
    ensures Grants(c, inside) as real <= c.capacity + Earned(c.rate, to - from)
  {
    hide Attempt, Earned;
    var d := Attempt(c, inside[0]).0;
    AttemptKeepsValid(c, inside[0]);
    GrantsWithinRefill(d, inside[1..]);
    var e := AfterAttempts(d, inside[1..]).last;
    assert e <= to;
    EarnedGrows(c.rate, e - inside[0], to - from);
  }

  /**
   In every run and every interval the number of grants is at most the capacity plus the rate
   times the length of the interval.
   */
  lemma GrantsInInterval(b: Bucket, before: seq<real>, inside: seq<real>, from: real, to: real)
    requires Valid(b) && Forward(b.last, before + inside)
    requires forall i :: 0 <= i < |inside| ==> from <= inside[i] <= to
    requires from <= to
    ensures Grants(AfterAttempts(b, before), inside) as real <= b.capacity + Earned(b.rate, to - from)
  {
    assert inside == [] ==> Grants(AfterAttempts(b, before), inside) == 0;
    hide Attempt, Earned, Grants, AfterAttempts;
    ForwardSplit(b.last, before, inside);
    GrantsWithinRefill(b, before);
    EarnedGrows(b.rate, 0.0, to - from);
    if inside != [] {
      GrantsFromFullBucket(AfterAttempts(b, before), inside, from, to);
    }
  }

  lemma ForwardSplit(start: real, before: seq<real>, inside: seq<real>)
    requires Forward(start, before + inside)
    ensures Forward(start, before)
    ensures Forward(if before == [] then start else before[|before| - 1], inside)
  {
    var all := before + inside;
    forall i, j | 0 <= i < j < |before| ensures before[i] <= before[j] {
      assert all[i] <= all[j];
    }
    forall i, j | 0 <= i < j < |inside| ensures inside[i] <= inside[j] {
      assert all[|before| + i] <= all[|before| + j];
    }
    if before != [] {
      assert all[0] == before[0];
      if inside != [] {
        assert all[|before| - 1] <= all[|before|];
      }
    } else if inside != [] {
      assert all[0] == inside[0];
    }
  }

  datatype RoundEnd = Granted | GaveUp | Slept

  class RateLimiter {
    const rate: real
    const capacity: real
    const lag: nat -> real
    const others: nat -> nat
    var tokens: real
    var lastUpdate: real
    var clock: real
    var readings: nat
    var gaps: nat

    ghost function View(): Bucket
      reads this
    {
      Bucket(rate, capacity, tokens, lastUpdate)
    }

    ghost predicate Ready()
      reads this
    {
      Valid(View()) && lastUpdate <= clock && forall n :: lag(n) >= 0.0
    }

    constructor (rate: real, capacity: real, lag: nat -> real, others: nat -> nat, start: real)
      requires rate > 0.0 && capacity >= 0.0 && forall n :: lag(n) >= 0.0
      ensures Ready() && View() == Bucket(rate, capacity, capacity, start) && clock == start
    {
      this.rate, this.capacity, this.lag, this.others := rate, capacity, lag, others;
      tokens, lastUpdate, clock, readings, gaps := capacity, start, start, 0, 0;
    }

    /** `time.time()` */
    method Now() returns (t: real)
      requires Ready()
      modifies this`clock, this`readings
      ensures t == clock && old(clock) <= clock && Ready()
    {
      clock := clock + lag(readings);
      readings := readings + 1;
      t := clock;
    }

    /** The locked section of `acquire`. */
    method TakeToken(now: real) returns (ok: bool)
      requires Valid(View()) && lastUpdate <= now
      modifies this`tokens, this`lastUpdate
      ensures (View(), ok) == Attempt(old(View()), now)
      ensures Valid(View()) && lastUpdate == now && (!ok ==> tokens < 1.0)
    {
      AttemptKeepsValid(View(), now);
      var elapsed := now - lastUpdate;
      lastUpdate := now;
      tokens := MinReal(capacity, tokens + Earned(rate, elapsed));
      ok := tokens >= 1.0;
      if ok {
        tokens := tokens - 1.0;
      }
    }

    /** Other threads run their attempts, at whatever times. */
    method OthersRun() returns (ghost times: seq<real>)
      requires Ready()
      modifies this
      ensures Ready() && old(clock) <= clock && View() == AfterAttempts(old(View()), times)
      ensures Forward(old(lastUpdate), times) && lastUpdate == Latest(old(lastUpdate), times)
    {
      hide Attempt, Earned;
      times := [];
      for i := 0 to others(gaps)
        invariant Ready() && old(clock) <= clock && View() == AfterAttempts(old(View()), times)
        invariant Forward(old(lastUpdate), times) && lastUpdate == Latest(old(lastUpdate), times)
      {
        ghost var before := View();
        var now := Now();
        var ok := TakeToken(now);
        OneAttempt(before, now);
        ExtendAttempts(old(View()), times, [now]);
        times := times + [now];
      }
      gaps := gaps + 1;
    }

    /** One turn of the loop: take a token, give up, or sleep. */
    method Round(start: real, timeout: real) returns (end: RoundEnd, now: real, ghost times: seq<real>)
      requires Ready() && start <= clock
      modifies this
      ensures Ready() && old(clock) <= now <= clock
      ensures end.Granted? == Attempt(old(View()), now).1
      ensures Forward(now, times) && View() == AfterAttempts(Attempt(old(View()), now).0, times)
      ensures lastUpdate == Latest(now, times)
      ensures !end.Slept? ==> times == []
      ensures end.GaveUp? ==> tokens < 1.0 && tokens + Earned(rate, timeout - (clock - start)) < 1.0
      ensures end.Slept? ==> old(clock) - start <= timeout && clock >= old(clock) + 0.01
    {
      now := Now();
      times := [];
      var ok := TakeToken(now);
      if ok {
        return Granted, now, times;
      }
      var requiredWait := (1.0 - tokens) / rate;
      WaitIsPositive(tokens, rate);
      var again := Now();
      if again - start + requiredWait > timeout {
        DeadlineMissed(tokens, rate, again - start, timeout);
        return GaveUp, now, times;
      }
      hide Attempt, Earned;
      times := Nap(requiredWait);
      return Slept, now, times;
    }

    /**
     Loops until a token is taken or the deadline cannot be met, with any number of other threads
     in between; `attempts` are the attempts of all threads and `own` the positions of this one's.
     True comes from exactly one successful attempt of its own, the last; false only when no token
     could be earned before the deadline; and the loop sleeps at most 100 times per second of
     time-out, plus once, whatever the others do.
     */
    method Acquire(timeout: real) returns (granted: bool, ghost attempts: seq<real>, ghost own: seq<nat>)
      requires Ready() && timeout >= 0.0
      modifies this
      ensures Ready()
      ensures Forward(old(lastUpdate), attempts) && View() == AfterAttempts(old(View()), attempts)
      ensures own != [] && own[|own| - 1] == |attempts| - 1
      ensures forall i :: 0 <= i < |own| ==>
        own[i] < |attempts| && (Taken(old(View()), attempts, own[i]) <==> granted && i == |own| - 1)
      ensures (|own| - 1) as real <= 100.0 * timeout + 1.0
      ensures !granted ==> tokens < 1.0 && tokens + Earned(rate, old(clock) + timeout - clock) < 1.0
    {
      hide Attempt, Earned, AfterAttempts;
      var start := Now();
      granted, own := false, [];
      attempts := OthersRun();
      while true
        invariant Ready() && start <= clock && old(clock) <= start
        invariant Forward(old(lastUpdate), attempts) && View() == AfterAttempts(old(View()), attempts)
        invariant lastUpdate == Latest(old(lastUpdate), attempts)
        invariant forall i :: 0 <= i < |own| ==> own[i] < |attempts| && !Taken(old(View()), attempts, own[i])
        invariant 0.01 * |own| as real <= clock - start
        invariant |own| as real <= 100.0 * timeout + 1.0
        decreases (100.0 * timeout + 2.0).Floor - |own|
      {
        ghost var before, was, mine := View(), attempts, |attempts|;
        var end, now, times := Round(start, timeout);
        ExtendAttempts(old(View()), was, [now] + times);
        OneMoreAttempt(before, now, times);
        attempts := was + ([now] + times);
        own := own + [mine];
        assert attempts[..mine] == was;
        forall i | 0 <= i < mine ensures attempts[i] == was[i] && attempts[..i] == was[..i] {
        }
        match end {
          case Granted =>
            granted := true;
            return;
          case GaveUp =>
            EarnedGrows(rate, old(clock) + timeout - clock, timeout - (clock - start));
            return;
          case Slept =>
        }
      }
    }

    /** `time.sleep(max(0.01, min(wait, 0.1)))`; it may oversleep, and others run meanwhile. */
    method Nap(wait: real) returns (ghost times: seq<real>)
      requires Ready()
      modifies this
      ensures Ready() && clock >= old(clock) + 0.01 && View() == AfterAttempts(old(View()), times)
      ensures Forward(old(lastUpdate), times) && lastUpdate == Latest(old(lastUpdate), times)
    {
      var nap := MinReal(wait, 0.1);
      var wake := clock + (if nap > 0.01 then nap else 0.01);
      times := OthersRun();
      if clock < wake {
        clock := wake;
      }
    }
  }

  /** The attempt at index i takes a token. */
  ghost predicate Taken(b: Bucket, attempts: seq<real>, i: nat)
    requires i < |attempts|
  {
    Attempt(AfterAttempts(b, attempts[..i]), attempts[i]).1
  }

  /** Time of the last attempt. */
  function Latest(start: real, times: seq<real>): real {
    if times == [] then start else times[|times| - 1]
  }

  lemma WaitIsPositive(tokens: real, rate: real)
    requires rate > 0.0 && tokens < 1.0
    ensures (1.0 - tokens) / rate > 0.0
  {
    assert ((1.0 - tokens) / rate) * rate == 1.0 - tokens;
  }

  lemma DeadlineMissed(tokens: real, rate: real, elapsed: real, timeout: real)
    requires rate > 0.0 && elapsed + (1.0 - tokens) / rate > timeout
    ensures tokens + Earned(rate, timeout - elapsed) < 1.0
  {
    assert ((1.0 - tokens) / rate) * rate == 1.0 - tokens;
    EarnedGrows(rate, timeout - elapsed, (1.0 - tokens) / rate);
  }

  lemma OneAttempt(b: Bucket, now: real)
    ensures AfterAttempts(b, [now]) == Attempt(b, now).0
    ensures Grants(b, [now]) == if Attempt(b, now).1 then 1 else 0
  {
    assert [now][1..] == [];
    assert Grants(Attempt(b, now).0, []) == 0;
  }

  lemma OneMoreAttempt(b: Bucket, now: real, times: seq<real>)
    ensures AfterAttempts(b, [now] + times) == AfterAttempts(Attempt(b, now).0, times)
  {
    assert ([now] + times)[1..] == times;
  }

  lemma {:induction false} ExtendAttempts(b: Bucket, times: seq<real>, more: seq<real>)
    requires Forward(b.last, times) && Forward(Latest(b.last, times), more)
    ensures Forward(b.last, times + more) && Latest(b.last, times + more) == Latest(Latest(b.last, times), more)
    ensures AfterAttempts(b, times + more) == AfterAttempts(AfterAttempts(b, times), more)
    ensures Grants(b, times + more) == Grants(b, times) + Grants(AfterAttempts(b, times), more)
    decreases |times|
  {
    if times == [] {
      assert times + more == more;
    } else {
      var c := Attempt(b, times[0]).0;
      assert c.last == times[0];
      assert (times + more)[1..] == times[1..] + more;
      hide Attempt;
      ExtendAttempts(c, times[1..], more);
      ForwardConcat(b.last, times, more);
    }
  }

  lemma ForwardConcat(start: real, times: seq<real>, more: seq<real>)
    requires Forward(start, times) && Forward(Latest(start, times), more)
    ensures Forward(start, times + more)
  {
    if times != [] && more != [] {
      forall i, j | 0 <= i < j < |times + more| ensures (times + more)[i] <= (times + more)[j] {
        assert i < |times| ==> times[i] <= times[|times| - 1];
        assert j >= |times| ==> more[0] <= more[j - |times|];
      }
    }
  }
}
