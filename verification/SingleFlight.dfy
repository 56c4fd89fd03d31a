/**
 Single-flight refresh of the session token: any number of threads, interleaved at every point
 where the lock is released, with timed-out waits, forced refreshes and cleared tokens.
 */
module SingleFlight {

  type Thread = nat

  /** Where a thread stands in `get_interactive_token`. */
  datatype Pc =
    | Idle
    | Entering(force: bool)               // about to take the lock
    | Waiting(notified: bool)             // asleep on the condition variable
    | LoggingIn                           // posting the login, lock released
    | Stored                              // new token stored, about to read it back
    | Finishing(gotToken: bool)           // about to run the finally block
    | Returned(gotToken: bool)

  datatype System = System(pc: map<Thread, Pc>, refreshing: bool, token: bool)

  function At(s: System, t: Thread): Pc {
    if t in s.pc then s.pc[t] else Idle
  }

  function Go(s: System, t: Thread, p: Pc): System {
    s.(pc := s.pc[t := p])
  }

  /**
   Steps.  Call: the checks before the lock, with `aged` for a token past its life span and
   `cooling` for a recent failure.  Enter: the locked prologue.  Wake: a sleeper is scheduled,
   because it was notified or because its time ran out.  Login: the broker answers.  ReadBack: the
   stored token becomes the return value.  Finally:
   the flag goes down and everybody is notified.  ClearTokens: the token is dropped.
   */
  datatype Step =
    | Call(t: Thread, force: bool, aged: bool, cooling: bool)
    | Enter(t: Thread)
    | Wake(t: Thread, timedOut: bool)
    | Login(t: Thread, success: bool)
    | ReadBack(t: Thread)
    | Finally(t: Thread)
    | ClearTokens

  predicate Enabled(s: System, st: Step) {
    match st
    case Call(t, _, _, _) => At(s, t).Idle? || At(s, t).Returned?
    case Enter(t) => At(s, t).Entering?
    case Wake(t, timedOut) => At(s, t).Waiting? && (At(s, t).notified || timedOut)
    case Login(t, _) => At(s, t).LoggingIn?
    case ReadBack(t) => At(s, t).Stored?
    case Finally(t) => At(s, t).Finishing?
    case ClearTokens => true
  }

  function NotifyAll(s: System): map<Thread, Pc> {
    map t | t in s.pc :: if s.pc[t].Waiting? then Waiting(true) else s.pc[t]
  }

  /** After the wait: a token is returned, a time-out gives up, otherwise this thread refreshes. */
  function AfterWait(s: System, t: Thread, timedOut: bool): System {
    if s.refreshing && !timedOut then Go(s, t, Waiting(false))
    else if s.token then Go(s, t, Returned(true))
    else if s.refreshing then Go(s, t, Returned(false))
    else Go(s, t, LoggingIn).(refreshing := true)
  }

  function Next(s: System, st: Step): System
    requires Enabled(s, st)
  {
    match st
    case Call(t, force, aged, cooling) =>
      var forced := force || (s.token && aged);
      if !forced && s.token then Go(s, t, Returned(true))
      else if !forced && cooling && !s.token then Go(s, t, Returned(false))
      else Go(s, t, Entering(forced))
    case Enter(t) =>
      if !At(s, t).force && s.token then Go(s, t, Returned(true))
      else if s.refreshing then Go(s, t, Waiting(false))
      else Go(s, t, LoggingIn).(refreshing := true)
    case Wake(t, timedOut) => AfterWait(s, t, timedOut)
    case Login(t, success) => if success then Go(s, t, Stored).(token := true) else Go(s, t, Finishing(false))
    case ReadBack(t) => Go(s, t, Finishing(s.token))
    case Finally(t) =>
      var r := Go(s, t, Returned(At(s, t).gotToken));
      System(NotifyAll(r), false, s.token)
    case ClearTokens => s.(token := false)
  }

  function Start(): System {
    System(map[], false, false)
  }

  /** A login is in progress from taking the flag to the finally block. */
  predicate InFlight(s: System, t: Thread) {
    At(s, t).LoggingIn? || At(s, t).Stored? || At(s, t).Finishing?
  }

  /** At most one login; the flag is up exactly while there is one; no lost wake-up. */
  ghost predicate Inv(s: System) {
    && (forall t, u :: InFlight(s, t) && InFlight(s, u) ==> t == u)
    && (s.refreshing <==> exists t :: InFlight(s, t))
    && (!s.refreshing ==> forall t :: At(s, t).Waiting? ==> At(s, t).notified)
  }

  /** A run is legal when each step is enabled where it is taken. */
  predicate Legal(s: System, steps: seq<Step>)
    decreases |steps|
  {
    steps == [] || (Enabled(s, steps[0]) && Legal(Next(s, steps[0]), steps[1..]))
  }

  function Run(s: System, steps: seq<Step>): System
    requires Legal(s, steps)
    decreases |steps|
  {
    if steps == [] then s else Run(Next(s, steps[0]), steps[1..])
  }

  lemma GoMoves(s: System, t: Thread, p: Pc)
    ensures At(Go(s, t, p), t) == p
    ensures forall u :: u != t ==> At(Go(s, t, p), u) == At(s, u)
  {
  }

  /** Putting a thread that is not in flight somewhere that is not in flight, nor asleep unnoticed. */
  lemma QuietMove(s: System, t: Thread, p: Pc)
    requires Inv(s) && !InFlight(s, t)
    requires !p.LoggingIn? && !p.Stored? && !p.Finishing? && (p.Waiting? ==> p.notified || s.refreshing)
    ensures Inv(Go(s, t, p))
  {
    GoMoves(s, t, p);
    var r := Go(s, t, p);
    forall u ensures InFlight(r, u) <==> InFlight(s, u) {
    }
    if s.refreshing {
      var u :| InFlight(s, u);
      assert InFlight(r, u);
    }
  }

  /** Taking the flag while it is down. */
  lemma TakeFlag(s: System, t: Thread)
    requires Inv(s) && !s.refreshing
    ensures Inv(Go(s, t, LoggingIn).(refreshing := true))
  {
    GoMoves(s, t, LoggingIn);
    var r := Go(s, t, LoggingIn).(refreshing := true);
    forall u ensures InFlight(r, u) <==> u == t {
      assert !InFlight(s, u);
    }
    assert InFlight(r, t);
  }

  /** Moving the thread in flight along, or changing only the token. */
  lemma FlightMove(s: System, t: Thread, p: Pc, token: bool)
    requires Inv(s) && InFlight(s, t) && (p.Stored? || p.Finishing?)
    ensures Inv(Go(s, t, p).(token := token))
  {
    GoMoves(s, t, p);
    var r := Go(s, t, p).(token := token);
    forall u ensures InFlight(r, u) <==> InFlight(s, u) {
    }
    assert InFlight(s, t) && InFlight(r, t);
  }

  lemma FinallyKeepsInv(s: System, t: Thread)
    requires Inv(s) && At(s, t).Finishing?
    ensures Inv(Next(s, Finally(t)))
  {
    var g := Go(s, t, Returned(At(s, t).gotToken));
    var r := Next(s, Finally(t));
    GoMoves(s, t, Returned(At(s, t).gotToken));
    assert InFlight(s, t);
    forall u ensures !InFlight(r, u) && (At(r, u).Waiting? ==> At(r, u).notified) {
      assert u in g.pc ==> At(r, u) == (if g.pc[u].Waiting? then Waiting(true) else g.pc[u]);
      assert u !in g.pc ==> At(r, u) == Idle;
      if u != t {
        assert InFlight(s, u) ==> u == t;
      }
    }
  }

  lemma NextKeepsInv(s: System, st: Step)
    requires Inv(s) && Enabled(s, st)
    ensures Inv(Next(s, st))
  {
    match st
    case Call(t, force, aged, cooling) =>
      var forced := force || (s.token && aged);
      QuietMove(s, t, Entering(forced));
      QuietMove(s, t, Returned(true));
      QuietMove(s, t, Returned(false));
    case Enter(t) =>
      QuietMove(s, t, Returned(true));
      if s.refreshing {
        QuietMove(s, t, Waiting(false));
      } else {
        TakeFlag(s, t);
      }
    case Wake(t, timedOut) =>
      QuietMove(s, t, Returned(true));
      QuietMove(s, t, Returned(false));
      if s.refreshing {
        QuietMove(s, t, Waiting(false));
      } else {
        TakeFlag(s, t);
      }
    case Login(t, success) =>
      FlightMove(s, t, Stored, true);
      FlightMove(s, t, Finishing(false), s.token);
    case ReadBack(t) => FlightMove(s, t, Finishing(s.token), s.token);
    case Finally(t) => FinallyKeepsInv(s, t);
    case ClearTokens =>
      ClearKeepsInv(s);
  }

  lemma ClearKeepsInv(s: System)
    requires Inv(s)
    ensures Inv(s.(token := false))
  {
    var r := s.(token := false);
    forall u ensures At(r, u) == At(s, u) && (InFlight(r, u) <==> InFlight(s, u)) {
    }
    if s.refreshing {
      var u :| InFlight(s, u);
      assert InFlight(r, u);
    }
  }

  /** Single flight, in every run of every number of threads. */
  lemma {:induction false} EveryRunIsSingleFlight(s: System, steps: seq<Step>)
    requires Inv(s) && Legal(s, steps)
    ensures Inv(Run(s, steps))
    decreases |steps|
  {
    if steps != [] {
      NextKeepsInv(s, steps[0]);
      EveryRunIsSingleFlight(Next(s, steps[0]), steps[1..]);
    }
  }

  lemma StartIsSingleFlight(steps: seq<Step>)
    requires Legal(Start(), steps)
    ensures Inv(Run(Start(), steps))
  {
    EveryRunIsSingleFlight(Start(), steps);
  }

  // ---------------------------------------------------------------- when a login happens

  /** A caller that neither forces a refresh nor finds its token too old. */
  predicate Plain(st: Step) {
    st.Call? ==> !st.force && !st.aged
  }

  /** There is a token, and nobody is logging in or about to. */
  ghost predicate Served(s: System) {
    s.token && !s.refreshing && forall t :: !InFlight(s, t) && !At(s, t).Entering? && !At(s, t).Waiting?
  }

  lemma PlainStepStaysServed(s: System, st: Step)
    requires Served(s) && Enabled(s, st) && Plain(st) && !st.ClearTokens?
    ensures Served(Next(s, st)) && st.Call? && At(Next(s, st), st.t) == Returned(true)
  {
    if st.Call? {
      GoMoves(s, st.t, Returned(true));
    }
  }

  /**
   A token is shared: once there is one and no refresh is under way, plain calls of any number of
   threads return with it, and none of them logs in, until it is cleared.
   */
  lemma {:induction false} TokenIsShared(s: System, steps: seq<Step>)
    requires Served(s) && Legal(s, steps)
    requires forall i :: 0 <= i < |steps| ==> Plain(steps[i]) && !steps[i].ClearTokens?
    ensures Served(Run(s, steps))
    ensures forall i :: 0 <= i < |steps| ==> steps[i].Call?
    decreases |steps|
  {
    if steps != [] {
      assert Plain(steps[0]);
      PlainStepStaysServed(s, steps[0]);
      TokenIsShared(Next(s, steps[0]), steps[1..]);
      forall i | 0 <= i < |steps| ensures steps[i].Call? {
        assert i > 0 ==> steps[i] == steps[1..][i - 1];
      }
    }
  }

  /** No token, a recent failure, and nobody inside. */
  ghost predicate Cooling(s: System) {
    !s.token && !s.refreshing && forall t :: !InFlight(s, t) && !At(s, t).Entering? && !At(s, t).Waiting?
  }

  /** Within the cool-down after a failure unforced calls return without a token, and nobody logs in. */
  lemma {:induction false} CoolDownHolds(s: System, steps: seq<Step>)
    requires Cooling(s) && Legal(s, steps)
    requires forall i :: 0 <= i < |steps| && steps[i].Call? ==> !steps[i].force && steps[i].cooling
    ensures Cooling(Run(s, steps))
    decreases |steps|
  {
    if steps != [] {
      var st := steps[0];
      if st.Call? {
        GoMoves(s, st.t, Returned(false));
      }
      CoolDownHolds(Next(s, st), steps[1..]);
    }
  }

  /**
   A caller that may not or need not take the token goes to the lock, and behind it exactly one of
   three things happens: it leaves with a token found there unless it forces a refresh, it sleeps
   while a login is in flight, or it logs in itself.
   */
  lemma CallReachesLogin(s: System, t: Thread, force: bool, aged: bool, cooling: bool)
    requires At(s, t).Idle? || At(s, t).Returned?
    requires force || (s.token && aged) || (!s.token && !cooling)
    ensures var forced := force || (s.token && aged);
      var a := Next(s, Call(t, force, aged, cooling));
      && At(a, t) == Entering(forced) && a.token == s.token && a.refreshing == s.refreshing
      && var b := Next(a, Enter(t));
         At(b, t) == (if s.token && !forced then Returned(true) else if s.refreshing then Waiting(false) else LoggingIn)
         && (b.refreshing <==> s.refreshing || At(b, t).LoggingIn?)
  {
    GoMoves(s, t, Entering(force || (s.token && aged)));
    var a := Next(s, Call(t, force, aged, cooling));
    GoMoves(a, t, Returned(true));
    GoMoves(a, t, Waiting(false));
    GoMoves(a, t, LoggingIn);
  }

  /**
   Behind the lock a caller decides by what it finds there: a token that somebody else fetched since
   it asked is shared, unless it forces a refresh.
   */
  lemma LateCallerShares(s: System, t: Thread)
    requires At(s, t).Entering?
    ensures Enabled(s, Enter(t))
    ensures At(Next(s, Enter(t)), t) ==
      if s.token && !At(s, t).force then Returned(true) else if s.refreshing then Waiting(false) else LoggingIn
  {
    GoMoves(s, t, Returned(true));
    GoMoves(s, t, Waiting(false));
    GoMoves(s, t, LoggingIn);
  }

  /** Dropping the token is possible at any time and disturbs nobody inside; the next plain caller goes to the lock. */
  lemma ClearedTokenIsFetched(s: System, t: Thread)
    ensures Enabled(s, ClearTokens) && Next(s, ClearTokens) == s.(token := false)
    ensures At(s, t).Idle? ==> At(Next(Next(s, ClearTokens), Call(t, false, false, false)), t) == Entering(false)
  {
    GoMoves(s.(token := false), t, Entering(false));
  }

  /** A sleeper whose time runs out leaves with a token if there is one by then, and else without, starting no login. */
  lemma TimeOutGivesUp(s: System, t: Thread)
    requires At(s, t).Waiting? && s.refreshing
    ensures Enabled(s, Wake(t, true))
    ensures var u := Next(s, Wake(t, true));
      At(u, t) == Returned(s.token) && u.refreshing && u.token == s.token
    ensures At(s, t).notified ==> At(Next(s, Wake(t, false)), t) == Waiting(false)
  {
    GoMoves(s, t, Returned(s.token));
    GoMoves(s, t, Waiting(false));
  }

  /** The first caller of all logs in, and every caller's login ends with what the broker answered. */
  lemma FirstCallerLogsIn(t: Thread, success: bool)
    ensures var steps := [Call(t, false, false, false), Enter(t), Login(t, success)]
      + (if success then [ReadBack(t)] else []) + [Finally(t)];
      Legal(Start(), steps)
      && At(Run(Start(), steps), t) == Returned(success) && Run(Start(), steps).token == success
      && !Run(Start(), steps).refreshing
  {
    var s := Start();
    CallReachesLogin(s, t, false, false, false);
    var a := Next(s, Call(t, false, false, false));
    var b := Next(a, Enter(t));
    var c := Next(b, Login(t, success));
    var d := if success then Next(c, ReadBack(t)) else c;
    var e := Next(d, Finally(t));
    assert Legal(e, []) && Run(e, []) == e;
    assert Legal(d, [Finally(t)]) && Run(d, [Finally(t)]) == e;
    var tail := (if success then [ReadBack(t)] else []) + [Finally(t)];
    assert Legal(c, tail) && Run(c, tail) == e by {
      if success {
        assert tail[0] == ReadBack(t) && tail[1..] == [Finally(t)];
      } else {
        assert tail == [Finally(t)];
      }
    }
    assert ([Login(t, success)] + tail)[1..] == tail;
    assert ([Enter(t), Login(t, success)] + tail)[1..] == [Login(t, success)] + tail;
    var steps := [Call(t, false, false, false), Enter(t), Login(t, success)] + tail;
    assert steps[1..] == [Enter(t), Login(t, success)] + tail;
    assert Legal(b, [Login(t, success)] + tail) && Run(b, [Login(t, success)] + tail) == e;
    assert Legal(a, steps[1..]) && Run(a, steps[1..]) == e;
    assert steps == [Call(t, false, false, false), Enter(t), Login(t, success)]
      + (if success then [ReadBack(t)] else []) + [Finally(t)];
  }

  // ---------------------------------------------------------------- no waiter is left behind

  /**
   In every reachable state a sleeper has somebody to wait for or can be scheduled at once; and
   when it is scheduled with the flag down it leaves the wait, with the token or as the next to
   log in.
   */
  lemma SleepersAreServed(s: System, t: Thread)
    requires Inv(s) && At(s, t).Waiting?
    ensures (exists u :: InFlight(s, u)) || Enabled(s, Wake(t, false))
    ensures !s.refreshing ==>
      Enabled(s, Wake(t, false))
      && At(Next(s, Wake(t, false)), t) == (if s.token then Returned(true) else LoggingIn)
  {
    GoMoves(s, t, Returned(true));
    GoMoves(s, t, LoggingIn);
  }

  /** The flag stands for the login in flight: no step but that thread's own finally lowers it. */
  lemma FlagBelongsToLogin(s: System, t: Thread, st: Step)
    requires Inv(s) && Enabled(s, st) && InFlight(s, t)
    ensures Next(s, st).refreshing <==> st != Finally(t)
  {
    if st.Finally? && st.t != t {
      assert InFlight(s, st.t);
      assert false;
    }
  }

  /** The step thread t takes next by itself, if it has one: no time-out, no new call. */
  function OwnStep(s: System, t: Thread): Step {
    match At(s, t)
    case Entering(_) => Enter(t)
    case LoggingIn => Login(t, false)
    case Stored => ReadBack(t)
    case Finishing(_) => Finally(t)
    case _ => Wake(t, false)
  }

  /**
   No deadlock: while any thread is inside the function, some thread can take its own next step,
   without waiting for a time-out.
   */
  lemma NoDeadlock(s: System, t: Thread)
    requires Inv(s) && !At(s, t).Idle? && !At(s, t).Returned?
    ensures exists u :: Enabled(s, OwnStep(s, u))
  {
    if At(s, t).Waiting? && s.refreshing {
      var u :| InFlight(s, u);
      assert Enabled(s, OwnStep(s, u));
    } else {
      assert Enabled(s, OwnStep(s, t));
    }
  }
}
