/**
 Drift accounting for the runner: what the broker holds per contract, against what the runner
 believes and has persisted, over legs, flips, rollovers, crashes and whole runs.
 */
module RunnerLedger {
  import opened Wrappers
  import opened Slicing
  import opened RunnerModel

  // ---------------------------------------------------------------- the broker's books

  predicate Reached(o: Outcome) {
    match o
    case Accepted => true
    case Refused(_) => false
    case Unknown(landed) => landed
    case Crash(landed) => landed
  }

  /** Lots the broker really holds on c after these orders. */
  function Lots(sent: seq<Order>, c: Contract): int {
    if sent == [] then 0
    else
      var o := sent[|sent| - 1];
      Lots(sent[..|sent| - 1], c) + (if o.contract == c && Reached(o.outcome) then o.lots else 0)
  }

  /** Lots that reached the exchange although the runner was told, or lived to see, otherwise. */
  function Strays(sent: seq<Order>, c: Contract): int {
    if sent == [] then 0
    else
      var o := sent[|sent| - 1];
      Strays(sent[..|sent| - 1], c)
      + (if o.contract == c && Reached(o.outcome) && !o.outcome.Accepted? then o.lots else 0)
  }

  /** Lots on c that the runner knows about. */
  function Booked(sent: seq<Order>, c: Contract): int {
    Lots(sent, c) - Strays(sent, c)
  }

  /** All booked lots sit in the active contract and are the runner's position. */
  ghost predicate Books(s: State) {
    && (s.active.None? ==> s.position == 0)
    && forall x: Contract :: Booked(s.sent, x) == (if s.active == Some(x) then s.position else 0)
  }

  /** The persisted row is the state in memory. */
  predicate Persisted(s: State) {
    s.row == Row(s.position, s.active)
  }

  /** At no point in the order history were lots booked in two contracts at once. */
  ghost predicate NeverTwoContracts(sent: seq<Order>) {
    forall k, x: Contract, y: Contract ::
      0 <= k <= |sent| && Booked(sent[..k], x) != 0 && Booked(sent[..k], y) != 0 ==> x == y
  }

  lemma Append(sent: seq<Order>, o: Order, c: Contract)
    ensures Lots(sent + [o], c) == Lots(sent, c) + (if o.contract == c && Reached(o.outcome) then o.lots else 0)
    ensures Booked(sent + [o], c) == Booked(sent, c) + (if o.contract == c && o.outcome.Accepted? then o.lots else 0)
  {
    assert (sent + [o])[..|sent|] == sent;
  }

  // ---------------------------------------------------------------- legs

  /** Number of leading slices accepted when order n is the first of m. */
  function Filled(script: nat -> Outcome, n: nat, m: nat): (k: nat)
    ensures k <= m
    decreases m
  {
    if m == 0 || !script(n).Accepted? then 0 else 1 + Filled(script, n + 1, m - 1)
  }

  lemma {:induction false} FilledStops(script: nat -> Outcome, n: nat, m: nat)
    ensures var k := Filled(script, n, m);
      && (forall j :: n <= j < n + k ==> script(j).Accepted?)
      && (k < m ==> !script(n + k).Accepted?)
    decreases m
  {
    if m > 0 && script(n).Accepted? {
      FilledStops(script, n + 1, m - 1);
    }
  }

  /** The log records what the script said. */
  ghost predicate Faithful(script: nat -> Outcome, sent: seq<Order>) {
    forall j :: 0 <= j < |sent| ==> sent[j].outcome == script(j)
  }

  /** Everything a leg leaves alone, whatever the outcomes. */
  ghost predicate SameSetup(script: nat -> Outcome, s: State, t: State) {
    && t.active == s.active && t.enabled == s.enabled && t.pendingRollover == s.pendingRollover
    && t.lastBar == s.lastBar && s.sent <= t.sent && (Persisted(s) ==> Persisted(t))
    && (Faithful(script, s.sent) ==> Faithful(script, t.sent))
  }

  /** The orders a leg adds: its kind, contract, side and sizes, in order. */
  predicate LegOrders(sent: seq<Order>, from: nat, kind: Kind, c: Contract, d: Direction, chunks: seq<int>, held: int) {
    && from <= |sent| <= from + |chunks|
    && forall j :: from <= j < |sent| ==>
        && sent[j].kind == kind && sent[j].contract == c
        && sent[j].lots == Signed(d, chunks[j - from])
        && Signed(d, sent[j].held) >= Signed(d, held)
  }

  lemma OneSlice(script: nat -> Outcome, s: State, kind: Kind, c: Contract, lots: int)
    ensures var t := SendSlice(script, s, kind, c, lots);
      && SameSetup(script, s, t)
      && t.sent == s.sent + [Order(kind, c, lots, s.position, script(|s.sent|))]
      && t.position == s.position + (if script(|s.sent|).Accepted? then lots else 0)
    ensures var t := SendSlice(script, s, kind, c, lots);
      forall x: Contract :: Booked(t.sent, x) == Booked(s.sent, x) + (if x == c then t.position - s.position else 0)
  {
    var o := Order(kind, c, lots, s.position, script(|s.sent|));
    forall x: Contract
      ensures Booked(s.sent + [o], x) == Booked(s.sent, x) + (if x == c && o.outcome.Accepted? then lots else 0)
    {
      Append(s.sent, o, x);
    }
  }

  lemma PrefixSumStep(chunks: seq<int>, k: nat)
    requires chunks != [] && k < |chunks|
    ensures Sum(chunks[..k + 1]) == chunks[0] + Sum(chunks[1..][..k])
    ensures Sum(chunks[..0]) == 0
  {
    assert chunks[..k + 1][1..] == chunks[1..][..k];
  }

  /** A leg adds a signed prefix of its slices, and is Done iff every slice was accepted. */
  lemma {:induction false} LegAddsPrefix(script: nat -> Outcome, s: State, kind: Kind, c: Contract, d: Direction, chunks: seq<int>)
    ensures var (t, e) := RunLeg(script, s, kind, c, d, chunks);
      var k := Filled(script, |s.sent|, |chunks|);
      && t.position == s.position + Signed(d, Sum(chunks[..k]))
      && (e.Done? <==> k == |chunks|)
      && |t.sent| == |s.sent| + k + (if e.Done? then 0 else 1)
      && (e.Died? <==> k < |chunks| && script(|s.sent| + k).Crash?)
    decreases |chunks|
  {
    if chunks != [] {
      var t := SendSlice(script, s, kind, c, Signed(d, chunks[0]));
      OneSlice(script, s, kind, c, Signed(d, chunks[0]));
      hide SendSlice, Sum;
      PrefixSumStep(chunks, 0);
      if script(|s.sent|).Accepted? {
        LegAddsPrefix(script, t, kind, c, d, chunks[1..]);
        PrefixSumStep(chunks, Filled(script, |t.sent|, |chunks| - 1));
      }
    }
  }

  /** Broker lots change exactly as the position does, plus the strays; nothing else is touched. */
  lemma {:induction false} LegBooks(script: nat -> Outcome, s: State, kind: Kind, c: Contract, d: Direction, chunks: seq<int>)
    ensures var t := RunLeg(script, s, kind, c, d, chunks).0;
      SameSetup(script, s, t)
      && forall x: Contract :: Booked(t.sent, x) == Booked(s.sent, x) + (if x == c then t.position - s.position else 0)
    decreases |chunks|
  {
    if chunks != [] {
      var t := SendSlice(script, s, kind, c, Signed(d, chunks[0]));
      OneSlice(script, s, kind, c, Signed(d, chunks[0]));
      if script(|s.sent|).Accepted? {
        LegBooks(script, t, kind, c, d, chunks[1..]);
      }
    }
  }

  /** The orders a leg sends carry its slices in order, and never start behind its first one. */
  lemma {:induction false} LegSends(script: nat -> Outcome, s: State, kind: Kind, c: Contract, d: Direction, chunks: seq<int>)
    requires forall i :: 0 <= i < |chunks| ==> chunks[i] > 0
    ensures s.sent <= RunLeg(script, s, kind, c, d, chunks).0.sent
    ensures LegOrders(RunLeg(script, s, kind, c, d, chunks).0.sent, |s.sent|, kind, c, d, chunks, s.position)
    decreases |chunks|
  {
    if chunks != [] {
      var t := SendSlice(script, s, kind, c, Signed(d, chunks[0]));
      OneSlice(script, s, kind, c, Signed(d, chunks[0]));
      if script(|s.sent|).Accepted? {
        LegSends(script, t, kind, c, d, chunks[1..]);
        var u := RunLeg(script, t, kind, c, d, chunks[1..]).0;
        assert u.sent[|s.sent|] == t.sent[|s.sent|];
        forall j | |s.sent| < j < |u.sent|
          ensures u.sent[j].lots == Signed(d, chunks[j - |s.sent|])
        {
          assert chunks[1..][j - |t.sent|] == chunks[j - |s.sent|];
        }
      }
    }
  }
}
