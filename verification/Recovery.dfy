/**
 Signals across crashes: the status table, the dispatch of a signal, and the recovery that runs
 after a restart, interleaved in any order with new signals, crashes and pruning.
 */
module Recovery {
  import opened Wrappers

  type Id = nat

  datatype Status =
    | Pending | Processing
    | Done | PaperDone | PartialFailure | Failed
    | AbandonedError | AbandonedReview | AbandonedStale

  predicate Unfinished(st: Status) {
    st.Pending? || st.Processing?
  }

  /** One row of the signals table; `readable` tells whether its payload parses. */
  datatype Row = Row(status: Status, receivedAt: int, updatedAt: int, readable: bool)

  type Table = map<Id, Row>

  /**
   What the broker's order book says, after normalising case and separators.
   OnBook: open, new, filled, partially filled, pending, pending new, replaced, pending replace,
   pending cancel, success, complete or executed.  Refused: rejected, cancelled or expired.
   Unlisted: any other word.
   */
  datatype BrokerStatus = OnBook | Refused | NetworkError | NotFound | Unlisted

  // ---------------------------------------------------------------- the table

  function SetStatus(rows: Table, id: Id, st: Status, now: int): Table {
    if id in rows then rows[id := rows[id].(status := st, updatedAt := now)] else rows
  }

  function UnfinishedRows(rows: Table): Table {
    map id | id in rows && Unfinished(rows[id].status) :: rows[id]
  }

  function Pruned(rows: Table, cutoff: int): Table {
    map id | id in rows && !(rows[id].updatedAt < cutoff && !Unfinished(rows[id].status)) :: rows[id]
  }

  // ---------------------------------------------------------------- recovery of one signal

  datatype Decision = Close(status: Status) | Requeue

  function Decide(row: Row, age: int, window: int, broker: BrokerStatus): Decision {
    if !row.readable then Close(AbandonedError)
    else if age <= window || row.status == Processing then
      match broker
      case OnBook => Close(Done)
      case Refused => Close(Failed)
      case NetworkError => Close(Failed)
      case NotFound => if row.status == Processing then Close(AbandonedReview) else Requeue
      case Unlisted => Requeue
    else Close(AbandonedStale)
  }

  /**
   A signal is sent again exactly when it is readable and either a fresh pending signal is
   missing from the book, or the book answers with a word in neither list.
   */
  lemma RequeueIff(row: Row, age: int, window: int, broker: BrokerStatus)
    requires Unfinished(row.status)
    ensures Decide(row, age, window, broker).Requeue?
      <==> row.readable && ((row.status == Pending && age <= window && broker.NotFound?)
                            || ((row.status == Processing || age <= window) && broker.Unlisted?))
  {
  }

  // ---------------------------------------------------------------- the running system

  /** Queued: the dispatch has not touched the row yet.  Marked: the row says processing. */
  datatype Task = Queued | Marked | Executing

  /**
   `todo` is the snapshot recovery still has to go through; `begun` counts how often the
   execution of a signal began; `used` and `accepted` are the ids ever issued and those issued
   by the present process.
   */
  datatype System = System(
    up: bool,
    rows: Table,
    tasks: map<Id, Task>,
    todo: Table,
    recoveredAt: int,
    begun: multiset<Id>,
    used: set<Id>,
    accepted: set<Id>)

  datatype Step =
    | Accept(id: Id, now: int, readable: bool)
    | Mark(id: Id, now: int)
    | Begin(id: Id)
    | End(id: Id, result: Status, now: int)
    | Crash
    | Restart(now: int)
    | Recover(id: Id, broker: BrokerStatus, now: int)
    | Prune(cutoff: int)

  predicate Enabled(s: System, st: Step) {
    match st
    case Accept(id, _, _) => s.up && id !in s.used
    case Mark(id, _) => s.up && id in s.tasks && s.tasks[id].Queued?
    case Begin(id) => s.up && id in s.tasks && s.tasks[id].Marked?
    case End(id, result, _) =>
      s.up && id in s.tasks && s.tasks[id].Executing? && result in {Done, PaperDone, PartialFailure, Failed}
    case Crash => s.up
    case Restart(_) => !s.up
    case Recover(id, _, _) => s.up && id in s.todo
    case Prune(_) => s.up
  }

  function Next(s: System, st: Step, window: int): System
    requires Enabled(s, st)
  {
    match st
    case Accept(id, now, readable) =>
      s.(rows := s.rows[id := Row(Pending, now, now, readable)], tasks := s.tasks[id := Queued],
         used := s.used + {id}, accepted := s.accepted + {id})
    case Mark(id, now) => s.(rows := SetStatus(s.rows, id, Processing, now), tasks := s.tasks[id := Marked])
    case Begin(id) => s.(tasks := s.tasks[id := Executing], begun := s.begun + multiset{id})
    case End(id, result, now) => s.(rows := SetStatus(s.rows, id, result, now), tasks := s.tasks - {id})
    case Crash => s.(up := false, tasks := map[], todo := map[], accepted := {})
    case Restart(now) => s.(up := true, todo := UnfinishedRows(s.rows), recoveredAt := now)
    case Recover(id, broker, now) =>
      var rest := s.(todo := s.todo - {id});
      (match Decide(s.todo[id], s.recoveredAt - s.todo[id].receivedAt, window, broker)
       case Close(st) => rest.(rows := SetStatus(s.rows, id, st, now))
       case Requeue => rest.(tasks := s.tasks[id := Queued]))
    case Prune(cutoff) => s.(rows := Pruned(s.rows, cutoff))
  }

  /** A recovery answer from the listed words; an unlisted one is harmless for a pending signal. */
  predicate Listed(s: System, st: Step) {
    st.Recover? && st.id in s.todo && s.todo[st.id].status == Processing ==> !st.broker.Unlisted?
  }

  function Start(): System {
    System(true, map[], map[], map[], 0, multiset{}, {}, {})
  }

  predicate TaskFits(task: Task, row: Row, begun: nat) {
    match task
    case Queued => row.status == Pending && begun == 0
    case Marked => row.status == Processing && begun == 0
    case Executing => row.status == Processing && begun == 1
  }

  /** What a status says about the execution. */
  predicate StatusFits(st: Status, begun: nat) {
    && (st in {Pending, AbandonedStale} ==> begun == 0)
    && (st in {PaperDone, PartialFailure} ==> begun == 1)
  }

  /** What is true of one signal in every reachable state. */
  predicate SignalInv(s: System, window: int, id: Id) {
    && s.begun[id] <= 1
    && (id !in s.used ==> id !in s.rows && id !in s.tasks && s.begun[id] == 0)
    && (id in s.rows ==> StatusFits(s.rows[id].status, s.begun[id]))
    && (id in s.tasks ==>
          && s.up && id in s.rows && id !in s.todo
          && TaskFits(s.tasks[id], s.rows[id], s.begun[id])
          && (id in s.accepted || s.recoveredAt - s.rows[id].receivedAt <= window))
    && (id in s.todo ==>
          s.up && id in s.rows && s.rows[id] == s.todo[id] && Unfinished(s.rows[id].status) && id !in s.accepted)
    && (id in s.accepted ==> s.up && id in s.used)
  }

  ghost predicate Inv(s: System, window: int) {
    forall id :: SignalInv(s, window, id)
  }

  lemma NextKeepsSignal(s: System, st: Step, window: int, id: Id)
    requires SignalInv(s, window, id) && Enabled(s, st) && Listed(s, st)
    ensures SignalInv(Next(s, st, window), window, id)
  {
    if st.Recover? && st.id == id {
      RequeueIff(s.todo[id], s.recoveredAt - s.todo[id].receivedAt, window, st.broker);
    }
  }

  lemma NextKeepsInv(s: System, st: Step, window: int)
    requires Inv(s, window) && Enabled(s, st) && Listed(s, st)
    ensures Inv(Next(s, st, window), window)
  {
    forall id ensures SignalInv(Next(s, st, window), window, id) {
      NextKeepsSignal(s, st, window, id);
    }
  }

  predicate Legal(s: System, steps: seq<Step>, window: int)
    decreases |steps|
  {
    steps == []
    || (Enabled(s, steps[0]) && Listed(s, steps[0]) && Legal(Next(s, steps[0], window), steps[1..], window))
  }

  function Run(s: System, steps: seq<Step>, window: int): System
    requires Legal(s, steps, window)
    decreases |steps|
  {
    if steps == [] then s else Run(Next(s, steps[0], window), steps[1..], window)
  }

  lemma {:induction false} RunKeepsInv(s: System, steps: seq<Step>, window: int)
    requires Inv(s, window) && Legal(s, steps, window)
    ensures Inv(Run(s, steps, window), window)
    decreases |steps|
  {
    if steps != [] {
      NextKeepsInv(s, steps[0], window);
      RunKeepsInv(Next(s, steps[0], window), steps[1..], window);
    }
  }

  /**
   At most once: in every interleaving of dispatches, crashes, restarts, recovery and pruning, as
   long as the book answers with listed words, the execution of a signal begins at most once.
   */
  lemma AtMostOnce(steps: seq<Step>, window: int, id: Id)
    requires Legal(Start(), steps, window)
    ensures Run(Start(), steps, window).begun[id] <= 1
  {
    RunKeepsInv(Start(), steps, window);
    assert SignalInv(Run(Start(), steps, window), window, id);
  }

  // ---------------------------------------------------------------- what a status tells

  /** Some recovery of this run found the order of the signal on the book. */
  predicate FoundOnBook(steps: seq<Step>, id: Id) {
    exists i :: 0 <= i < |steps| && steps[i].Recover? && steps[i].id == id && steps[i].broker.OnBook?
  }

  lemma {:induction false} BegunNeverDrops(s: System, steps: seq<Step>, window: int, id: Id)
    requires Legal(s, steps, window)
    ensures Run(s, steps, window).begun[id] >= s.begun[id]
    decreases |steps|
  {
    if steps != [] {
      BegunNeverDrops(Next(s, steps[0], window), steps[1..], window, id);
    }
  }

  predicate IsDone(s: System, id: Id) {
    id in s.rows && s.rows[id].status == Done
  }

  lemma {:induction false} DoneIsEarned(s: System, steps: seq<Step>, window: int, id: Id)
    requires Inv(s, window) && Legal(s, steps, window) && !IsDone(s, id)
    requires IsDone(Run(s, steps, window), id)
    ensures Run(s, steps, window).begun[id] >= 1 || FoundOnBook(steps, id)
    decreases |steps|
  {
    var st, t := steps[0], Next(s, steps[0], window);
    assert SignalInv(s, window, id);
    NextKeepsInv(s, st, window);
    BegunNeverDrops(t, steps[1..], window, id);
    if IsDone(t, id) {
      assert st == End(id, Done, t.rows[id].updatedAt) || (st.Recover? && st.id == id && st.broker.OnBook?);
    } else {
      DoneIsEarned(t, steps[1..], window, id);
      if FoundOnBook(steps[1..], id) {
        var i :| 0 <= i < |steps[1..]| && steps[1..][i].Recover? && steps[1..][i].id == id && steps[1..][i].broker.OnBook?;
        assert steps[i + 1] == steps[1..][i];
      }
    }
  }

  /**
   In every run the recorded status is the truth about the execution: done means it began once or
   recovery found its order on the book, paper done and partial failure mean it began once, and
   pending and stale signals never began.
   */
  lemma StatusTellsExecution(steps: seq<Step>, window: int, id: Id)
    requires Legal(Start(), steps, window)
    ensures var s := Run(Start(), steps, window);
      id in s.rows ==>
        match s.rows[id].status
        case Done => s.begun[id] == 1 || FoundOnBook(steps, id)
        case PaperDone => s.begun[id] == 1
        case PartialFailure => s.begun[id] == 1
        case Pending => s.begun[id] == 0
        case AbandonedStale => s.begun[id] == 0
        case _ => true
  {
    RunKeepsInv(Start(), steps, window);
    var s := Run(Start(), steps, window);
    assert SignalInv(s, window, id);
    if IsDone(s, id) {
      DoneIsEarned(Start(), steps, window, id);
    }
  }

  // ---------------------------------------------------------------- what a step does

  /** A signal accepted, marked, executed and ended: its result is stored, and it began once. */
  lemma DispatchIsRecorded(s: System, window: int, id: Id, readable: bool, result: Status, t0: int, t1: int, t2: int)
    requires s.up && id !in s.used && result in {Done, PaperDone, PartialFailure, Failed}
    ensures var steps := [Accept(id, t0, readable), Mark(id, t1), Begin(id), End(id, result, t2)];
      Legal(s, steps, window)
      && var t := Run(s, steps, window);
         && t.rows == s.rows[id := Row(result, t0, t2, readable)]
         && t.tasks == s.tasks - {id} && t.begun[id] == s.begun[id] + 1
         && t.todo == s.todo && id in t.used
  {
    var a := Next(s, Accept(id, t0, readable), window);
    var b := Next(a, Mark(id, t1), window);
    var c := Next(b, Begin(id), window);
    var d := Next(c, End(id, result, t2), window);
    assert Legal(d, [], window) && Run(d, [], window) == d;
    assert Legal(c, [End(id, result, t2)], window) && Run(c, [End(id, result, t2)], window) == d;
    assert Legal(b, [Begin(id), End(id, result, t2)], window);
    assert Run(b, [Begin(id), End(id, result, t2)], window) == d;
    assert Legal(a, [Mark(id, t1), Begin(id), End(id, result, t2)], window);
    assert Run(a, [Mark(id, t1), Begin(id), End(id, result, t2)], window) == d;
    var steps := [Accept(id, t0, readable), Mark(id, t1), Begin(id), End(id, result, t2)];
    assert steps[1..] == [Mark(id, t1), Begin(id), End(id, result, t2)];
    assert Legal(s, steps, window) && Run(s, steps, window) == d;
    assert d.rows == s.rows[id := Row(result, t0, t2, readable)];
    assert d.tasks == s.tasks - {id};
  }

  /**
   A restart takes every unfinished row into recovery, and recovering one then decides by the age
   at the restart and the book word: it is closed with that status, or queued to be sent again.
   */
  lemma RestartRecovers(s: System, window: int, id: Id, started: int, word: BrokerStatus, now: int)
    requires !s.up && id in s.rows && Unfinished(s.rows[id].status)
    ensures var t := Next(s, Restart(started), window);
      Enabled(t, Recover(id, word, now))
      && var u := Next(t, Recover(id, word, now), window);
         var verdict := Verdict(s.rows[id], started - s.rows[id].receivedAt, window, word);
         && id !in u.todo
         && (verdict.None? ==> u.rows == s.rows && id in u.tasks && u.tasks[id].Queued?)
         && (verdict.Some? ==>
               u.rows == s.rows[id := s.rows[id].(status := verdict.value, updatedAt := now)] && u.tasks == s.tasks)
  {
  }

  /** Pruning removes exactly the finished rows older than the cutoff and leaves the others as they are. */
  lemma PruningIsExact(s: System, window: int, cutoff: int, id: Id)
    requires s.up && id in s.rows
    ensures var t := Next(s, Prune(cutoff), window);
      && t == s.(rows := t.rows)
      && (id in t.rows <==> s.rows[id].status in {Pending, Processing} || s.rows[id].updatedAt >= cutoff)
      && (id in t.rows ==> t.rows[id] == s.rows[id])
    ensures Pruned(s.rows, cutoff) == Next(s, Prune(cutoff), window).rows
  {
  }

  // ---------------------------------------------------------------- what a step cannot do

  /** Closed: the id was issued, and its row is terminal or already pruned. */
  predicate Closed(s: System, id: Id) {
    id in s.used && (id in s.rows ==> !Unfinished(s.rows[id].status))
  }

  /**
   Terminal statuses are absorbing: whatever happens afterwards, a closed signal keeps its status
   until it is pruned, never comes back and never executes again.
   */
  lemma {:induction false} TerminalIsAbsorbing(s: System, steps: seq<Step>, window: int, id: Id)
    requires Inv(s, window) && Legal(s, steps, window) && Closed(s, id)
    ensures var t := Run(s, steps, window);
      && Closed(t, id) && t.begun[id] == s.begun[id]
      && (id in t.rows ==> id in s.rows && t.rows[id].status == s.rows[id].status)
    decreases |steps|
  {
    if steps != [] {
      assert SignalInv(s, window, id);
      NextKeepsInv(s, steps[0], window);
      TerminalIsAbsorbing(Next(s, steps[0], window), steps[1..], window, id);
    }
  }

  /** No step, pruning included, removes an unfinished signal or changes when it was received. */
  lemma UnfinishedIsKept(s: System, st: Step, window: int, id: Id)
    requires Inv(s, window) && Enabled(s, st)
    requires id in s.rows && Unfinished(s.rows[id].status)
    ensures var t := Next(s, st, window);
      && id in t.rows && t.rows[id].receivedAt == s.rows[id].receivedAt
      && (st.Prune? ==> t.rows[id] == s.rows[id])
  {
    assert SignalInv(s, window, id);
  }

  /** In every run, a signal about to execute is one of this process, or was fresh at recovery. */
  lemma StaleNeverExecutes(steps: seq<Step>, window: int, id: Id)
    requires Legal(Start(), steps, window)
    ensures var s := Run(Start(), steps, window);
      Enabled(s, Begin(id)) ==>
        id in s.accepted || (id in s.rows && s.recoveredAt - s.rows[id].receivedAt <= window)
  {
    RunKeepsInv(Start(), steps, window);
    assert SignalInv(Run(Start(), steps, window), window, id);
  }

  // ---------------------------------------------------------------- the unlisted word

  /**
   Why the words must be listed: recovering a signal whose execution had begun makes it begin a
   second time if and only if the book answers with an unlisted word.
   */
  lemma SecondExecutionIff(s: System, id: Id, broker: BrokerStatus, now: int, window: int)
    requires SignalInv(s, window, id) && s.up && id in s.todo
    requires s.begun[id] == 1 && s.todo[id].readable
    ensures var t := Next(s, Recover(id, broker, now), window);
      && (Enabled(t, Mark(id, now)) <==> broker.Unlisted?)
      && (broker.Unlisted? ==>
            var u := Next(t, Mark(id, now), window);
            Enabled(u, Begin(id)) && Next(u, Begin(id), window).begun[id] == 2)
  {
    RequeueIff(s.todo[id], s.recoveredAt - s.todo[id].receivedAt, window, broker);
  }

  /** A crash in the middle of an execution, a restart, and an unlisted word: it begins twice. */
  lemma SecondExecutionWitness()
    ensures var steps := [Accept(0, 0, true), Mark(0, 0), Begin(0), Crash, Restart(1)];
      Legal(Start(), steps, 30)
      && var s := Run(Start(), steps, 30);
         && s.begun[0] == 1 && Enabled(s, Recover(0, Unlisted, 1))
         && var t := Next(s, Recover(0, Unlisted, 1), 30);
            && Enabled(t, Mark(0, 1))
            && var u := Next(t, Mark(0, 1), 30);
               Enabled(u, Begin(0)) && Next(u, Begin(0), 30).begun[0] == 2
  {
    var a := Next(Start(), Accept(0, 0, true), 30);
    var b := Next(a, Mark(0, 0), 30);
    var c := Next(b, Begin(0), 30);
    var d := Next(c, Crash, 30);
    var s := Next(d, Restart(1), 30);
    assert Legal(s, [], 30) && Legal(d, [Restart(1)], 30);
    assert Legal(c, [Crash, Restart(1)], 30);
    assert Legal(b, [Begin(0), Crash, Restart(1)], 30);
    assert Legal(a, [Mark(0, 0), Begin(0), Crash, Restart(1)], 30);
    var steps := [Accept(0, 0, true), Mark(0, 0), Begin(0), Crash, Restart(1)];
    assert Legal(Start(), steps, 30) && Run(Start(), steps, 30) == s;
    RunKeepsInv(Start(), steps, 30);
    assert SignalInv(s, 30, 0);
    hide Next;
    SecondExecutionIff(s, 0, Unlisted, 1, 30);
  }

  // ---------------------------------------------------------------- the store

  datatype RecoveryState = RecoveryState(rows: Table, requeued: seq<Id>)

  function RecoverOne(r: RecoveryState, snapshot: Table, id: Id, word: BrokerStatus, started: int, window: int): RecoveryState {
    if id !in snapshot then r
    else
      match Decide(snapshot[id], started - snapshot[id].receivedAt, window, word)
      case Close(st) => r.(rows := SetStatus(r.rows, id, st, started))
      case Requeue => r.(requeued := r.requeued + [id])
  }

  /** The recovery loop over a snapshot, in list order. */
  function RecoverAll(r: RecoveryState, snapshot: Table, ids: seq<Id>, book: Id -> BrokerStatus, started: int, window: int)
    : RecoveryState
    decreases |ids|
  {
    if ids == [] then r
    else
      RecoverAll(RecoverOne(r, snapshot, ids[0], book(ids[0]), started, window), snapshot, ids[1..], book, started, window)
  }

  class SignalStore {
    var rows: Table

    constructor ()
      ensures rows == map[]
    {
      rows := map[];
    }

    /** The id is the primary key: a second insert of the same id is refused. */
    method InsertPending(id: Id, now: int, readable: bool) returns (ok: bool)
      modifies this
      ensures ok <==> id !in old(rows)
      ensures rows == if ok then old(rows)[id := Row(Pending, now, now, readable)] else old(rows)
    {
      ok := id !in rows;
      if ok {
        rows := rows[id := Row(Pending, now, now, readable)];
      }
    }

    method UpdateStatus(id: Id, st: Status, now: int)
      modifies this
      ensures rows == SetStatus(old(rows), id, st, now)
    {
      if id in rows {
        rows := rows[id := rows[id].(status := st, updatedAt := now)];
      }
    }

    method PruneOld(now: int, maxAge: int)
      modifies this
      ensures rows == Pruned(old(rows), now - maxAge)
      ensures UnfinishedRows(rows) == UnfinishedRows(old(rows))
    {
      var cutoff := now - maxAge;
      rows := map id | id in rows && !(rows[id].updatedAt < cutoff && !Unfinished(rows[id].status)) :: rows[id];
    }

    /** `process_recovery`: the snapshot was fetched before; each entry is closed or sent again. */
    method ProcessRecovery(snapshot: Table, ids: seq<Id>, book: Id -> BrokerStatus, started: int, window: int)
      returns (requeued: seq<Id>)
      modifies this
      ensures RecoveryState(rows, requeued) == RecoverAll(RecoveryState(old(rows), []), snapshot, ids, book, started, window)
    {
      requeued := [];
      for i := 0 to |ids|
        invariant RecoverAll(RecoveryState(rows, requeued), snapshot, ids[i..], book, started, window)
          == RecoverAll(RecoveryState(old(rows), []), snapshot, ids, book, started, window)
      {
        var id := ids[i];
        assert ids[i..][1..] == ids[i + 1..];
        if id in snapshot {
          var row := snapshot[id];
          var decision := Decide(row, started - row.receivedAt, window, book(id));
          match decision {
            case Close(st) => UpdateStatus(id, st, started);
            case Requeue => requeued := requeued + [id];
          }
        }
      }
    }
  }

  /** Final status recovery gives an entry, or None when the signal is sent again. */
  function Verdict(row: Row, age: int, window: int, word: BrokerStatus): Option<Status> {
    if !row.readable then Some(AbandonedError)
    else if row.status == Pending && age > window then Some(AbandonedStale)
    else
      match word
      case OnBook => Some(Done)
      case Refused => Some(Failed)
      case NetworkError => Some(Failed)
      case NotFound => if row.status == Processing then Some(AbandonedReview) else None
      case Unlisted => None
  }

  /**
   What becomes of every entry of the snapshot, from its row and its book word alone: it is closed
   with that status at the time of recovery, or sent again with its row as it was.
   */
  lemma {:induction false} RecoveryDecidesByWord(
    r: RecoveryState, snapshot: Table, ids: seq<Id>, book: Id -> BrokerStatus, started: int, window: int, id: Id)
    requires forall i, j :: 0 <= i < j < |ids| ==> ids[i] != ids[j]
    requires id in ids && id in snapshot && id in r.rows && id !in r.requeued && Unfinished(snapshot[id].status)
    ensures var e := RecoverAll(r, snapshot, ids, book, started, window);
      var verdict := Verdict(snapshot[id], started - snapshot[id].receivedAt, window, book(id));
      && id in e.rows
      && (id in e.requeued <==> verdict.None?)
      && e.rows[id] == (if verdict.None? then r.rows[id] else r.rows[id].(status := verdict.value, updatedAt := started))
    decreases |ids|
  {
    var x := ids[0];
    var next := RecoverOne(r, snapshot, x, book(x), started, window);
    if x == id {
      RecoveryLeavesOthers(next, snapshot, ids[1..], book, started, window, id);
    } else {
      assert id in ids[1..];
      RecoveryDecidesByWord(next, snapshot, ids[1..], book, started, window, id);
    }
  }

  lemma {:induction false} RecoveryLeavesOthers(
    r: RecoveryState, snapshot: Table, ids: seq<Id>, book: Id -> BrokerStatus, started: int, window: int, id: Id)
    requires id !in ids
    ensures var e := RecoverAll(r, snapshot, ids, book, started, window);
      && (id in e.rows <==> id in r.rows) && (id in r.rows ==> e.rows[id] == r.rows[id])
      && (id in e.requeued <==> id in r.requeued)
    decreases |ids|
  {
    if ids != [] {
      var next := RecoverOne(r, snapshot, ids[0], book(ids[0]), started, window);
      RecoveryLeavesOthers(next, snapshot, ids[1..], book, started, window, id);
    }
  }

  /**
   The recovery loop closes or requeues every entry of the snapshot: afterwards no row of it is
   left processing, and nothing outside it was touched.
   */
  lemma {:induction false} RecoveryLeavesNothingProcessing(
    r: RecoveryState, snapshot: Table, ids: seq<Id>, book: Id -> BrokerStatus, started: int, window: int, id: Id)
    requires forall i, j :: 0 <= i < j < |ids| ==> ids[i] != ids[j]
    requires forall x :: x in snapshot ==> x in r.rows && Unfinished(snapshot[x].status)
    requires id in ids && id in snapshot ==> r.rows[id] == snapshot[id] && id !in r.requeued
    requires id in snapshot && snapshot[id].status == Processing ==> !book(id).Unlisted?
    ensures var e := RecoverAll(r, snapshot, ids, book, started, window);
      && (id !in snapshot || id !in ids ==> (id in e.rows <==> id in r.rows) && (id in r.rows ==> e.rows[id] == r.rows[id]))
      && (id in ids && id in snapshot ==>
            id in e.rows
            && (id in e.requeued ==> e.rows[id].status == Pending && started - e.rows[id].receivedAt <= window)
            && (id !in e.requeued ==> !Unfinished(e.rows[id].status)))
      && (id !in ids ==> (id in e.requeued <==> id in r.requeued))
    decreases |ids|
  {
    if ids != [] {
      var x := ids[0];
      var next := RecoverOne(r, snapshot, x, book(x), started, window);
      if x in snapshot {
        RequeueIff(snapshot[x], started - snapshot[x].receivedAt, window, book(x));
      }
      assert id in ids <==> id == x || id in ids[1..];
      RecoveryLeavesNothingProcessing(next, snapshot, ids[1..], book, started, window, id);
    }
  }
}
