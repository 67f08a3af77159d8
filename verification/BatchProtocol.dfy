/**
 The batch writer under concurrency: any number of appending goroutines, flushes spawned
 at the threshold, timer flushes and Close, interleaved at every lock release. A run is
 any sequence of actions; one that is not enabled changes nothing.
 */
module BatchProtocol {
  import opened Wrappers
  import opened BatchWriter

  datatype Outcome = InFlight | Sent | Dropped

  /** Rows that one flush took, under the lock, from one table. */
  datatype Batch = Batch(table: string, rows: seq<Row>, outcome: Outcome)

  datatype Entry = Entry(table: string, row: Row)

  datatype Thread =
    | Spawning(table: string)                        // append saw the threshold, go flush comes next
    | Waiting(table: string)                         // a spawned flush before its lock
    | Inserting(batch: nat)                          // a spawned flush after it
    | Snapshotting(closing: bool)                    // flushAll before it lists the tables
    | Sweeping(todo: seq<string>, closing: bool, mark: nat)
    | SweepInserting(batch: nat, todo: seq<string>, closing: bool, mark: nat)
    | Disconnecting(mark: nat)                       // Close after its flushAll
    | Done

  datatype State = State(
    batches: Batches,
    threads: seq<Thread>,
    taken: seq<Batch>,          // every batch ever taken, in lock order
    history: seq<Entry>,        // every append, in lock order
    timerArmed: bool,
    closedAt: Option<nat>)      // length of the history when the closing flushAll listed the tables

  datatype Action =
    | Append(table: string, row: Row)
    | Spawn(i: nat)
    | Take(i: nat)
    | Insert(i: nat, fails: bool)
    | TimerFires
    | CallClose
    | Snapshot(i: nat, tables: seq<string>)
    | SweepTake(i: nat)
    | SweepInsert(i: nat, fails: bool)
    | Rearm(i: nat)
    | Disconnect(i: nat)

  const Init := State(map[], [], [], [], true, None)

  function TakeTable(s: State, table: string): State {
    var rows := Buffer(s.batches, table);
    s.(batches := Emptied(s.batches, table),
       taken := if rows == [] then s.taken else s.taken + [Batch(table, rows, InFlight)])
  }

  function Settle(s: State, k: nat, fails: bool): State
    requires k < |s.taken|
  {
    s.(taken := s.taken[k := s.taken[k].(outcome := if fails || s.closedAt.Some? then Dropped else Sent)])
  }

  function Moved(s: State, i: nat, t: Thread): State
    requires i < |s.threads|
  {
    s.(threads := s.threads[i := t])
  }

  function Next(batchSize: int, s: State, a: Action): State {
    match a
    case Append(table, row) =>
      var batches := Appended(s.batches, table, row);
      s.(batches := batches,
         history := s.history + [Entry(table, row)],
         threads := s.threads + (if |batches[table]| >= batchSize then [Spawning(table)] else []))
    case Spawn(i) =>
      if i < |s.threads| && s.threads[i].Spawning? then Moved(s, i, Waiting(s.threads[i].table)) else s
    case Take(i) =>
      if i < |s.threads| && s.threads[i].Waiting? then
        var table := s.threads[i].table;
        Moved(TakeTable(s, table), i, if Buffer(s.batches, table) == [] then Done else Inserting(|s.taken|))
      else s
    case Insert(i, fails) =>
      if i < |s.threads| && s.threads[i].Inserting? && s.threads[i].batch < |s.taken|
      then Moved(Settle(s, s.threads[i].batch, fails), i, Done) else s
    case TimerFires =>
      if s.timerArmed then s.(timerArmed := false, threads := s.threads + [Snapshotting(false)]) else s
    case CallClose => s.(timerArmed := false, threads := s.threads + [Snapshotting(true)])
    case Snapshot(i, tables) =>
      if i < |s.threads| && s.threads[i].Snapshotting? && (set t | t in tables) == s.batches.Keys
      then Moved(s, i, Sweeping(tables, s.threads[i].closing, |s.history|)) else s
    case SweepTake(i) =>
      if i < |s.threads| && s.threads[i].Sweeping? && s.threads[i].todo != [] then
        var t := s.threads[i];
        Moved(TakeTable(s, t.todo[0]), i,
              if Buffer(s.batches, t.todo[0]) == [] then Sweeping(t.todo[1..], t.closing, t.mark)
              else SweepInserting(|s.taken|, t.todo[1..], t.closing, t.mark))
      else s
    case SweepInsert(i, fails) =>
      if i < |s.threads| && s.threads[i].SweepInserting? && s.threads[i].batch < |s.taken| then
        var t := s.threads[i];
        Moved(Settle(s, t.batch, fails), i, Sweeping(t.todo, t.closing, t.mark))
      else s
    case Rearm(i) =>
      if i < |s.threads| && s.threads[i].Sweeping? && s.threads[i].todo == []
      then Moved(s.(timerArmed := true), i, if s.threads[i].closing then Disconnecting(s.threads[i].mark) else Done) else s
    case Disconnect(i) =>
      if i < |s.threads| && s.threads[i].Disconnecting?
      then Moved(s.(closedAt := Some(s.threads[i].mark)), i, Done) else s
  }

  function Run(batchSize: int, acts: seq<Action>): State {
    if acts == [] then Init
    else Next(batchSize, Run(batchSize, acts[..|acts| - 1]), acts[|acts| - 1])
  }

  // ----- Projections -----

  /** The rows appended to one table, in lock order. */
  function RowsOf(history: seq<Entry>, table: string): seq<Row> {
    if history == [] then []
    else
      var e := history[|history| - 1];
      RowsOf(history[..|history| - 1], table) + (if e.table == table then [e.row] else [])
  }

  /** The rows taken from one table, in lock order. */
  function TakenFrom(taken: seq<Batch>, table: string): seq<Row> {
    if taken == [] then []
    else
      var b := taken[|taken| - 1];
      TakenFrom(taken[..|taken| - 1], table) + (if b.table == table then b.rows else [])
  }

  /** The rows of one table whose batch has one outcome. */
  function RowsWith(taken: seq<Batch>, table: string, outcome: Outcome): multiset<Row> {
    if taken == [] then multiset{}
    else
      var b := taken[|taken| - 1];
      RowsWith(taken[..|taken| - 1], table, outcome)
      + (if b.table == table && b.outcome == outcome then multiset(b.rows) else multiset{})
  }

  predicate IsPending(t: Thread, table: string) {
    (t.Spawning? || t.Waiting?) && t.table == table
  }

  /** Threshold flushes of a table that have not yet taken its buffer. */
  function Pending(threads: seq<Thread>, table: string): nat {
    if threads == [] then 0
    else Pending(threads[..|threads| - 1], table) + (if IsPending(threads[|threads| - 1], table) then 1 else 0)
  }

  lemma {:induction false} PendingUpdated(threads: seq<Thread>, i: nat, t: Thread, table: string)
    requires i < |threads|
    ensures Pending(threads[i := t], table)
            == Pending(threads, table) - (if IsPending(threads[i], table) then 1 else 0) + (if IsPending(t, table) then 1 else 0)
  {
    var n := |threads| - 1;
    if i == n {
      assert threads[i := t][..n] == threads[..n];
    } else {
      assert threads[i := t][..n] == threads[..n][i := t];
      PendingUpdated(threads[..n], i, t, table);
    }
  }

  lemma PendingAppended(threads: seq<Thread>, t: Thread, table: string)
    ensures Pending(threads + [t], table) == Pending(threads, table) + (if IsPending(t, table) then 1 else 0)
  {
    assert (threads + [t])[..|threads|] == threads;
  }

  lemma {:induction false} TakenFromSettled(taken: seq<Batch>, k: nat, outcome: Outcome, table: string)
    requires k < |taken|
    ensures TakenFrom(taken[k := taken[k].(outcome := outcome)], table) == TakenFrom(taken, table)
  {
    var n := |taken| - 1;
    var taken' := taken[k := taken[k].(outcome := outcome)];
    if k == n {
      assert taken'[..n] == taken[..n];
    } else {
      assert taken'[..n] == taken[..n][k := taken[k].(outcome := outcome)];
      TakenFromSettled(taken[..n], k, outcome, table);
    }
  }

  lemma {:induction false} RowsOfPrefix(history: seq<Entry>, mark: nat, table: string)
    requires mark <= |history|
    ensures RowsOf(history[..mark], table) <= RowsOf(history, table)
  {
    if mark == |history| {
      assert history[..mark] == history;
    } else {
      var n := |history| - 1;
      assert history[..n][..mark] == history[..mark];
      RowsOfPrefix(history[..n], mark, table);
    }
  }

  // ----- The invariant -----

  /** The batch a thread is inserting, if any. */
  function Work(t: Thread): Option<nat> {
    if t.Inserting? || t.SweepInserting? then Some(t.batch) else None
  }

  ghost predicate WorkOk(s: State) {
    && (forall i | 0 <= i < |s.threads| && Work(s.threads[i]).Some? ::
          Work(s.threads[i]).value < |s.taken| && s.taken[Work(s.threads[i]).value].outcome.InFlight?)
    && (forall i, j | 0 <= i < j < |s.threads| && Work(s.threads[i]).Some? :: Work(s.threads[i]) != Work(s.threads[j]))
  }

  ghost predicate TableOk(batchSize: int, s: State, table: string) {
    && TakenFrom(s.taken, table) + Buffer(s.batches, table) == RowsOf(s.history, table)
    && (table !in s.batches ==> RowsOf(s.history, table) == [])
    && (batchSize >= 1 ==> |Buffer(s.batches, table)| <= batchSize - 1 + Pending(s.threads, table))
  }

  /** Everything appended to the table before the mark has been taken. */
  predicate Swept(history: seq<Entry>, taken: seq<Batch>, mark: int, table: string) {
    0 <= mark <= |history| && |RowsOf(history[..mark], table)| <= |TakenFrom(taken, table)|
  }

  ghost predicate SweepOk(history: seq<Entry>, taken: seq<Batch>, t: Thread) {
    match t
    case Sweeping(todo, _, mark) =>
      mark <= |history| && forall table | table !in todo :: Swept(history, taken, mark, table)
    case SweepInserting(_, todo, _, mark) =>
      mark <= |history| && forall table | table !in todo :: Swept(history, taken, mark, table)
    case Disconnecting(mark) => mark <= |history| && forall table :: Swept(history, taken, mark, table)
    case _ => true
  }

  ghost predicate Inv(batchSize: int, s: State) {
    && WorkOk(s)
    && (forall table :: TableOk(batchSize, s, table))
    && (forall i | 0 <= i < |s.threads| :: SweepOk(s.history, s.taken, s.threads[i]))
    && (s.closedAt.Some? ==> forall table :: Swept(s.history, s.taken, s.closedAt.value, table))
  }

  // ----- Each step keeps the invariant -----

  lemma AppendKeepsTable(batchSize: int, s: State, table: string, row: Row, t: string)
    requires TableOk(batchSize, s, t) && TableOk(batchSize, s, table)
    ensures TableOk(batchSize, Next(batchSize, s, Append(table, row)), t)
  {
    var s' := Next(batchSize, s, Append(table, row));
    assert s'.history[..|s.history|] == s.history;
    if |s'.batches[table]| >= batchSize {
      PendingAppended(s.threads, Spawning(table), t);
    } else {
      assert s'.threads == s.threads;
    }
  }

  lemma AppendKeepsSwept(s: State, history: seq<Entry>, e: Entry)
    requires history == s.history + [e]
    ensures forall mark, t | Swept(s.history, s.taken, mark, t) :: Swept(history, s.taken, mark, t)
  {
    forall mark, t | Swept(s.history, s.taken, mark, t) ensures Swept(history, s.taken, mark, t) {
      assert history[..mark] == s.history[..mark];
    }
  }

  lemma AppendKeepsInv(batchSize: int, s: State, table: string, row: Row)
    requires Inv(batchSize, s)
    ensures Inv(batchSize, Next(batchSize, s, Append(table, row)))
  {
    hide TableOk, Swept;
    var s' := Next(batchSize, s, Append(table, row));
    forall t ensures TableOk(batchSize, s', t) {
      AppendKeepsTable(batchSize, s, table, row, t);
    }
    AppendKeepsSwept(s, s'.history, Entry(table, row));
  }

  lemma TakeTableKeeps(batchSize: int, s: State, table: string)
    requires Inv(batchSize, s)
    ensures var s' := TakeTable(s, table);
            && (forall t :: TakenFrom(s'.taken, t) + Buffer(s'.batches, t) == RowsOf(s'.history, t))
            && (forall t, mark | Swept(s.history, s.taken, mark, t) :: Swept(s'.history, s'.taken, mark, t))
            && (forall mark | 0 <= mark <= |s.history| :: Swept(s'.history, s'.taken, mark, table))
  {
    var s' := TakeTable(s, table);
    var b := Batch(table, Buffer(s.batches, table), InFlight);
    assert (s.taken + [b])[..|s.taken|] == s.taken;
    forall t ensures TakenFrom(s'.taken, t) + Buffer(s'.batches, t) == RowsOf(s'.history, t) {
      assert TableOk(batchSize, s, t);
    }
    forall mark | 0 <= mark <= |s.history| ensures Swept(s'.history, s'.taken, mark, table) {
      RowsOfPrefix(s.history, mark, table);
      assert TakenFrom(s'.taken, table) + [] == RowsOf(s.history, table);
    }
  }

  /** Thread i takes the table's buffer and goes on as t. */
  lemma TakeKeepsInv(batchSize: int, s: State, i: nat, table: string, t: Thread)
    requires Inv(batchSize, s) && i < |s.threads| && Work(s.threads[i]).None?
    requires Work(t) == if Buffer(s.batches, table) == [] then None else Some(|s.taken|)
    requires !t.Spawning? && !t.Waiting?
    requires forall x | x != table :: IsPending(s.threads[i], x) == IsPending(t, x)
    requires SweepOk(s.history, TakeTable(s, table).taken, t)
    ensures Inv(batchSize, Moved(TakeTable(s, table), i, t))
  {
    var s' := Moved(TakeTable(s, table), i, t);
    TakeTableKeeps(batchSize, s, table);
    forall x ensures TableOk(batchSize, s', x) {
      assert TableOk(batchSize, s, x);
      PendingUpdated(s.threads, i, t, x);
    }
    forall j | 0 <= j < |s'.threads| ensures SweepOk(s'.history, s'.taken, s'.threads[j]) {
      assert SweepOk(s.history, s.taken, s.threads[j]);
    }
  }

  lemma SettleKeepsInv(batchSize: int, s: State, i: nat, fails: bool, t: Thread)
    requires Inv(batchSize, s) && i < |s.threads| && Work(s.threads[i]).Some? && Work(s.threads[i]).value < |s.taken|
    requires Work(t).None? && !t.Spawning? && !t.Waiting? && SweepOk(s.history, s.taken, t)
    ensures Inv(batchSize, Moved(Settle(s, Work(s.threads[i]).value, fails), i, t))
  {
    var k := Work(s.threads[i]).value;
    var s' := Moved(Settle(s, k, fails), i, t);
    forall x ensures TakenFrom(s'.taken, x) == TakenFrom(s.taken, x) {
      TakenFromSettled(s.taken, k, s'.taken[k].outcome, x);
    }
    forall x ensures TableOk(batchSize, s', x) {
      assert TableOk(batchSize, s, x);
      PendingUpdated(s.threads, i, t, x);
    }
    forall mark, x | Swept(s.history, s.taken, mark, x) ensures Swept(s'.history, s'.taken, mark, x) {
    }
    forall j | 0 <= j < |s'.threads| ensures SweepOk(s'.history, s'.taken, s'.threads[j]) {
      assert SweepOk(s.history, s.taken, s.threads[j]);
    }
  }

  /** A thread moves on without touching buffers or batches. */
  lemma MoveKeepsInv(batchSize: int, s: State, i: nat, t: Thread)
    requires Inv(batchSize, s) && i < |s.threads| && Work(s.threads[i]).None? && Work(t).None?
    requires forall x :: IsPending(s.threads[i], x) == IsPending(t, x)
    requires SweepOk(s.history, s.taken, t)
    ensures Inv(batchSize, Moved(s, i, t))
  {
    var s' := Moved(s, i, t);
    forall x ensures TableOk(batchSize, s', x) {
      assert TableOk(batchSize, s, x);
      PendingUpdated(s.threads, i, t, x);
    }
    forall j | 0 <= j < |s'.threads| ensures SweepOk(s'.history, s'.taken, s'.threads[j]) {
      assert SweepOk(s.history, s.taken, s.threads[j]);
    }
  }

  lemma StartKeepsInv(batchSize: int, s: State, closing: bool)
    requires Inv(batchSize, s)
    ensures Inv(batchSize, s.(timerArmed := false, threads := s.threads + [Snapshotting(closing)]))
  {
    var s' := s.(timerArmed := false, threads := s.threads + [Snapshotting(closing)]);
    forall x ensures TableOk(batchSize, s', x) {
      assert TableOk(batchSize, s, x);
      PendingAppended(s.threads, Snapshotting(closing), x);
    }
    forall j | 0 <= j < |s'.threads| ensures SweepOk(s'.history, s'.taken, s'.threads[j]) {
      assert j < |s.threads| ==> SweepOk(s.history, s.taken, s.threads[j]);
    }
  }

  lemma SnapshotKeepsInv(batchSize: int, s: State, i: nat, tables: seq<string>)
    requires Inv(batchSize, s) && i < |s.threads| && s.threads[i].Snapshotting?
    requires (set t | t in tables) == s.batches.Keys
    ensures Inv(batchSize, Moved(s, i, Sweeping(tables, s.threads[i].closing, |s.history|)))
  {
    forall table | table !in tables ensures Swept(s.history, s.taken, |s.history|, table) {
      assert table !in s.batches.Keys;
      assert TableOk(batchSize, s, table);
      assert s.history[..|s.history|] == s.history;
    }
    MoveKeepsInv(batchSize, s, i, Sweeping(tables, s.threads[i].closing, |s.history|));
  }

  lemma SweepTakeKeepsInv(batchSize: int, s: State, i: nat)
    requires Inv(batchSize, s) && i < |s.threads|
    ensures Inv(batchSize, Next(batchSize, s, SweepTake(i)))
  {
    var t := s.threads[i];
    if t.Sweeping? && t.todo != [] {
      var t' := if Buffer(s.batches, t.todo[0]) == [] then Sweeping(t.todo[1..], t.closing, t.mark)
                else SweepInserting(|s.taken|, t.todo[1..], t.closing, t.mark);
      TakeTableKeeps(batchSize, s, t.todo[0]);
      assert SweepOk(s.history, s.taken, t);
      assert forall x | x !in t.todo[1..] :: x == t.todo[0] || x !in t.todo;
      TakeKeepsInv(batchSize, s, i, t.todo[0], t');
    }
  }

  lemma StepKeepsInv(batchSize: int, s: State, a: Action)
    requires Inv(batchSize, s)
    ensures Inv(batchSize, Next(batchSize, s, a))
  {
    hide TableOk, Swept;
    match a {
      case Append(table, row) => AppendKeepsInv(batchSize, s, table, row);
      case Spawn(i) =>
        if i < |s.threads| && s.threads[i].Spawning? {
          MoveKeepsInv(batchSize, s, i, Waiting(s.threads[i].table));
        }
      case Take(i) =>
        if i < |s.threads| && s.threads[i].Waiting? {
          var table := s.threads[i].table;
          TakeKeepsInv(batchSize, s, i, table, if Buffer(s.batches, table) == [] then Done else Inserting(|s.taken|));
        }
      case Insert(i, fails) =>
        if i < |s.threads| && s.threads[i].Inserting? && s.threads[i].batch < |s.taken| {
          SettleKeepsInv(batchSize, s, i, fails, Done);
        }
      case TimerFires => StartKeepsInv(batchSize, s, false);
      case CallClose => StartKeepsInv(batchSize, s, true);
      case Snapshot(i, tables) =>
        if i < |s.threads| && s.threads[i].Snapshotting? && (set t | t in tables) == s.batches.Keys {
          SnapshotKeepsInv(batchSize, s, i, tables);
        }
      case SweepTake(i) =>
        if i < |s.threads| {
          SweepTakeKeepsInv(batchSize, s, i);
        }
      case SweepInsert(i, fails) =>
        if i < |s.threads| && s.threads[i].SweepInserting? && s.threads[i].batch < |s.taken| {
          var t := s.threads[i];
          assert SweepOk(s.history, s.taken, t);
          SettleKeepsInv(batchSize, s, i, fails, Sweeping(t.todo, t.closing, t.mark));
        }
      case Rearm(i) => RearmKeepsInv(batchSize, s, i);
      case Disconnect(i) => DisconnectKeepsInv(batchSize, s, i);
    }
  }

  lemma RearmKeepsInv(batchSize: int, s: State, i: nat)
    requires Inv(batchSize, s)
    ensures Inv(batchSize, Next(batchSize, s, Rearm(i)))
  {
    if i < |s.threads| && s.threads[i].Sweeping? && s.threads[i].todo == [] {
      var t := s.threads[i];
      assert SweepOk(s.history, s.taken, t);
      var t' := if t.closing then Disconnecting(t.mark) else Done;
      MoveKeepsInv(batchSize, s, i, t');
      Unaffected(batchSize, Moved(s, i, t'), Next(batchSize, s, Rearm(i)));
    }
  }

  lemma DisconnectKeepsInv(batchSize: int, s: State, i: nat)
    requires Inv(batchSize, s)
    ensures Inv(batchSize, Next(batchSize, s, Disconnect(i)))
  {
    if i < |s.threads| && s.threads[i].Disconnecting? {
      var t := s.threads[i];
      assert SweepOk(s.history, s.taken, t);
      MoveKeepsInv(batchSize, s, i, Done);
      var s1, s2 := Moved(s, i, Done), Next(batchSize, s, Disconnect(i));
      Unaffected(batchSize, s1, s2);
    }
  }

  /** The invariant does not look at the timer, and at the closing mark only as a mark. */
  lemma Unaffected(batchSize: int, s: State, s': State)
    requires Inv(batchSize, s)
    requires s' == s.(timerArmed := s'.timerArmed, closedAt := s'.closedAt)
    requires s'.closedAt == s.closedAt || (s'.closedAt.Some? && forall x :: Swept(s.history, s.taken, s'.closedAt.value, x))
    ensures Inv(batchSize, s')
  {
    forall x ensures TableOk(batchSize, s', x) {
      assert TableOk(batchSize, s, x);
    }
    forall j | 0 <= j < |s'.threads| ensures SweepOk(s'.history, s'.taken, s'.threads[j]) {
      assert SweepOk(s.history, s.taken, s.threads[j]);
    }
  }

  lemma {:induction false} RunKeepsInv(batchSize: int, acts: seq<Action>)
    ensures Inv(batchSize, Run(batchSize, acts))
  {
    if acts != [] {
      RunKeepsInv(batchSize, acts[..|acts| - 1]);
      StepKeepsInv(batchSize, Run(batchSize, acts[..|acts| - 1]), acts[|acts| - 1]);
    }
  }

  // ----- Theorems -----

  lemma {:induction false} OutcomesPartition(taken: seq<Batch>, table: string)
    ensures multiset(TakenFrom(taken, table))
            == RowsWith(taken, table, InFlight) + RowsWith(taken, table, Sent) + RowsWith(taken, table, Dropped)
  {
    if taken != [] {
      OutcomesPartition(taken[..|taken| - 1], table);
    }
  }

  /** For every table in every reachable state, the batches taken so far, in lock order,
      followed by the buffer are exactly the appends, in order; so every appended row is
      in the buffer, in flight, sent or dropped, each copy in exactly one of these. */
  lemma NothingLostOrDuplicated(batchSize: int, acts: seq<Action>, table: string)
    ensures var s := Run(batchSize, acts);
            && TakenFrom(s.taken, table) + Buffer(s.batches, table) == RowsOf(s.history, table)
            && multiset(RowsOf(s.history, table))
               == multiset(Buffer(s.batches, table))
                  + RowsWith(s.taken, table, InFlight) + RowsWith(s.taken, table, Sent) + RowsWith(s.taken, table, Dropped)
  {
    RunKeepsInv(batchSize, acts);
    var s := Run(batchSize, acts);
    assert TableOk(batchSize, s, table);
    OutcomesPartition(s.taken, table);
  }

  /** A batch, once taken, keeps its rows, and its outcome, once known, never changes. */
  lemma OutcomesAreFinal(batchSize: int, acts: seq<Action>, a: Action, k: nat)
    requires k < |Run(batchSize, acts).taken|
    ensures var s := Run(batchSize, acts);
            var s' := Next(batchSize, s, a);
            && k < |s'.taken| && s'.taken[k].table == s.taken[k].table && s'.taken[k].rows == s.taken[k].rows
            && (s.taken[k].outcome != InFlight ==> s'.taken[k].outcome == s.taken[k].outcome)
  {
    RunKeepsInv(batchSize, acts);
    StepFinal(batchSize, Run(batchSize, acts), a, k);
  }

  lemma StepFinal(batchSize: int, s: State, a: Action, k: nat)
    requires WorkOk(s) && k < |s.taken|
    ensures var s' := Next(batchSize, s, a);
            && k < |s'.taken| && s'.taken[k].table == s.taken[k].table && s'.taken[k].rows == s.taken[k].rows
            && (s.taken[k].outcome != InFlight ==> s'.taken[k].outcome == s.taken[k].outcome)
  {
    if (a.Insert? || a.SweepInsert?) && a.i < |s.threads| && Work(s.threads[a.i]).Some? {
      assert s.taken[Work(s.threads[a.i]).value].outcome.InFlight?;
    }
  }

  /** A buffer holds less than the threshold plus one row per threshold flush still to come;
      so a buffer at or above the threshold always has a flush on its way. */
  lemma BufferBound(batchSize: int, acts: seq<Action>, table: string)
    requires batchSize >= 1
    ensures var s := Run(batchSize, acts);
            && |Buffer(s.batches, table)| <= batchSize - 1 + Pending(s.threads, table)
            && (|Buffer(s.batches, table)| >= batchSize ==>
                  exists i :: 0 <= i < |s.threads| && IsPending(s.threads[i], table))
  {
    RunKeepsInv(batchSize, acts);
    var s := Run(batchSize, acts);
    assert TableOk(batchSize, s, table);
    if Pending(s.threads, table) > 0 {
      var i := SomePending(s.threads, table);
    }
  }

  lemma {:induction false} SomePending(threads: seq<Thread>, table: string) returns (i: nat)
    requires Pending(threads, table) > 0
    ensures i < |threads| && IsPending(threads[i], table)
  {
    var n := |threads| - 1;
    if IsPending(threads[n], table) {
      i := n;
    } else {
      i := SomePending(threads[..n], table);
    }
  }

  /** When Close has disconnected, every row appended before its flushAll listed the tables
      has left the buffers, in order. */
  lemma CloseTakesEverything(batchSize: int, acts: seq<Action>, table: string)
    requires Run(batchSize, acts).closedAt.Some?
    ensures var s := Run(batchSize, acts);
            s.closedAt.value <= |s.history| && RowsOf(s.history[..s.closedAt.value], table) <= TakenFrom(s.taken, table)
  {
    RunKeepsInv(batchSize, acts);
    var s := Run(batchSize, acts);
    assert TableOk(batchSize, s, table) && Swept(s.history, s.taken, s.closedAt.value, table);
    RowsOfPrefix(s.history, s.closedAt.value, table);
  }

  // ----- The timer -----

  lemma QuietStep(batchSize: int, s: State, a: Action)
    requires a.TimerFires? || a.CallClose? || (!s.timerArmed && !a.Rearm?)
    ensures !Next(batchSize, s, a).timerArmed
  {
  }

  lemma QuietTimer(batchSize: int, s: State)
    requires !s.timerArmed
    ensures Next(batchSize, s, TimerFires) == s
  {
  }

  /** A timer flush that has started, like a Close that has been called, keeps the timer quiet
      until some flush of all tables has finished and armed it again. */
  lemma {:induction false} TimerStaysQuiet(batchSize: int, before: seq<Action>, rest: seq<Action>)
    requires before != [] && (before[|before| - 1].TimerFires? || before[|before| - 1].CallClose?)
    requires forall i | 0 <= i < |rest| :: !rest[i].Rearm?
    ensures var s := Run(batchSize, before + rest); !s.timerArmed && Next(batchSize, s, TimerFires) == s
  {
    hide Next;
    if rest == [] {
      assert before + rest == before;
      QuietStep(batchSize, Run(batchSize, before[..|before| - 1]), before[|before| - 1]);
    } else {
      var n := |rest| - 1;
      TimerStaysQuiet(batchSize, before, rest[..n]);
      QuietStep(batchSize, Run(batchSize, before + rest[..n]), rest[n]);
      assert before + rest == before + rest[..n] + [rest[n]];
      var s := Advance(batchSize, before + rest[..n], rest[n]);
    }
    QuietTimer(batchSize, Run(batchSize, before + rest));
  }

  // ----- What Close loses -----

  predicate IsSent(s: State, k: nat) {
    k < |s.taken| && s.taken[k].outcome.Sent?
  }

  /** After the disconnect no batch becomes Sent, and none that was stops being so. */
  lemma StepAfterClose(batchSize: int, s: State, a: Action, k: nat)
    requires WorkOk(s) && s.closedAt.Some?
    ensures Next(batchSize, s, a).closedAt.Some?
    ensures IsSent(Next(batchSize, s, a), k) <==> IsSent(s, k)
  {
    if (a.Insert? || a.SweepInsert?) && a.i < |s.threads| && Work(s.threads[a.i]).Some? {
      assert s.taken[Work(s.threads[a.i]).value].outcome.InFlight?;
    }
  }

  lemma {:induction false} SentBeforeOrNever(batchSize: int, before: seq<Action>, rest: seq<Action>, k: nat)
    requires Run(batchSize, before).closedAt.Some?
    ensures Run(batchSize, before + rest).closedAt.Some?
    ensures IsSent(Run(batchSize, before + rest), k) <==> IsSent(Run(batchSize, before), k)
  {
    hide Next;
    if rest == [] {
      assert before + rest == before;
    } else {
      var n := |rest| - 1;
      SentBeforeOrNever(batchSize, before, rest[..n], k);
      OneStepLater(batchSize, before + rest[..n], rest[n], k);
      assert before + rest == before + rest[..n] + [rest[n]];
    }
  }

  lemma OneStepLater(batchSize: int, acts: seq<Action>, a: Action, k: nat)
    requires Run(batchSize, acts).closedAt.Some?
    ensures Run(batchSize, acts + [a]).closedAt.Some?
    ensures IsSent(Run(batchSize, acts + [a]), k) <==> IsSent(Run(batchSize, acts), k)
  {
    RunKeepsInv(batchSize, acts);
    StepAfterClose(batchSize, Run(batchSize, acts), a, k);
    var s := Advance(batchSize, acts, a);
  }

  /** The step ends the insert of batch k. */
  predicate Ends(s: State, a: Action, k: nat) {
    match a
    case Insert(i, _) => i < |s.threads| && s.threads[i] == Inserting(k)
    case SweepInsert(i, _) => i < |s.threads| && s.threads[i].SweepInserting? && s.threads[i].batch == k
    case _ => false
  }

  predicate EndsBadly(s: State, a: Action, k: nat) {
    Ends(s, a, k) && ((a.Insert? || a.SweepInsert?) && a.fails)
  }

  /** The insert of batch k has failed. */
  predicate InsertFailed(batchSize: int, acts: seq<Action>, k: nat) {
    acts != [] &&
    var n := |acts| - 1;
    InsertFailed(batchSize, acts[..n], k) || EndsBadly(Run(batchSize, acts[..n]), acts[n], k)
  }

  /** Some thread is inserting batch k. */
  ghost predicate BeingInserted(threads: seq<Thread>, k: nat) {
    exists i | 0 <= i < |threads| :: Work(threads[i]) == Some(k)
  }

  lemma StillInserted(threads: seq<Thread>, i: nat, t: Thread, k: nat)
    requires i < |threads| && Work(threads[i]) != Some(k)
    ensures BeingInserted(threads[i := t], k) <==> BeingInserted(threads, k) || Work(t) == Some(k)
  {
    assert threads[i := t][i] == t;
    forall j | 0 <= j < |threads| && Work(threads[j]) == Some(k) ensures BeingInserted(threads[i := t], k) {
      assert threads[i := t][j] == threads[j];
    }
  }

  lemma NoLongerInserted(threads: seq<Thread>, i: nat, t: Thread, k: nat)
    requires i < |threads| && Work(threads[i]) == Some(k) && Work(t) == None
    requires forall j | 0 <= j < |threads| && j != i :: Work(threads[j]) != Some(k)
    ensures !BeingInserted(threads[i := t], k)
  {
  }

  lemma OneMoreThread(threads: seq<Thread>, t: Thread, k: nat)
    requires Work(t) == None
    ensures BeingInserted(threads + [t], k) <==> BeingInserted(threads, k)
  {
    forall j | 0 <= j < |threads| && Work(threads[j]) == Some(k) ensures BeingInserted(threads + [t], k) {
      assert (threads + [t])[j] == threads[j];
    }
  }

  /** While connected, a batch is in flight exactly while a thread inserts it, and dropped
      exactly when its own insert failed. */
  ghost predicate OutcomeOk(s: State, failed: bool, k: nat) {
    if k >= |s.taken| then !failed && !BeingInserted(s.threads, k)
    else (s.taken[k].outcome.InFlight? <==> BeingInserted(s.threads, k)) && (s.taken[k].outcome.Dropped? <==> failed)
  }

  lemma SameKeepsOutcome(s: State, s': State, failed: bool, k: nat)
    requires OutcomeOk(s, failed, k) && s'.threads == s.threads && s'.taken == s.taken
    ensures OutcomeOk(s', failed, k)
  {
  }

  /** Thread i, which inserts nothing, moves on, and nothing new is taken. */
  lemma MoveKeepsOutcome(s: State, s': State, i: nat, t: Thread, failed: bool, k: nat)
    requires OutcomeOk(s, failed, k) && i < |s.threads| && Work(s.threads[i]) == None && Work(t) == None
    requires s'.threads == s.threads[i := t] && s'.taken == s.taken
    ensures OutcomeOk(s', failed, k)
  {
    StillInserted(s.threads, i, t, k);
  }

  lemma StartKeepsOutcome(s: State, s': State, t: Thread, failed: bool, k: nat)
    requires OutcomeOk(s, failed, k) && Work(t) == None
    requires s'.threads == s.threads + [t] && s'.taken == s.taken
    ensures OutcomeOk(s', failed, k)
  {
    OneMoreThread(s.threads, t, k);
  }

  /** Thread i takes a batch and goes on to insert it. */
  lemma TakeKeepsOutcome(s: State, s': State, i: nat, t: Thread, b: Batch, failed: bool, k: nat)
    requires OutcomeOk(s, failed, k) && i < |s.threads| && Work(s.threads[i]) == None
    requires Work(t) == Some(|s.taken|) && b.outcome.InFlight?
    requires s'.threads == s.threads[i := t] && s'.taken == s.taken + [b]
    ensures OutcomeOk(s', failed, k)
  {
    StillInserted(s.threads, i, t, k);
  }

  /** Thread i ends the insert of batch j. */
  lemma SettleKeepsOutcome(s: State, s': State, i: nat, t: Thread, j: nat, fails: bool, failed: bool, k: nat)
    requires WorkOk(s) && s.closedAt.None? && OutcomeOk(s, failed, k)
    requires i < |s.threads| && Work(s.threads[i]) == Some(j) && Work(t) == None && j < |s.taken|
    requires s'.threads == s.threads[i := t] && s'.taken == Settle(s, j, fails).taken
    ensures OutcomeOk(s', failed || (k == j && fails), k)
  {
    if k == j {
      forall x | 0 <= x < |s.threads| && x != i ensures Work(s.threads[x]) != Some(k) {
        assert x < i || i < x;
      }
      NoLongerInserted(s.threads, i, t, k);
    } else {
      StillInserted(s.threads, i, t, k);
    }
  }

  /** Take and SweepTake. */
  lemma TakingKeepsOutcome(batchSize: int, s: State, a: Action, failed: bool, k: nat)
    requires OutcomeOk(s, failed, k) && (a.Take? || a.SweepTake?)
    ensures OutcomeOk(Next(batchSize, s, a), failed, k)
  {
    var s' := Next(batchSize, s, a);
    if a.i < |s.threads| && s' != s {
      var t := s'.threads[a.i];
      if |s'.taken| == |s.taken| {
        MoveKeepsOutcome(s, s', a.i, t, failed, k);
      } else {
        TakeKeepsOutcome(s, s', a.i, t, s'.taken[|s.taken|], failed, k);
      }
    }
  }

  /** Insert and SweepInsert. */
  lemma EndingKeepsOutcome(batchSize: int, s: State, a: Action, failed: bool, k: nat)
    requires WorkOk(s) && s.closedAt.None? && OutcomeOk(s, failed, k) && (a.Insert? || a.SweepInsert?)
    ensures OutcomeOk(Next(batchSize, s, a), failed || EndsBadly(s, a, k), k)
  {
    if a.i < |s.threads| && Next(batchSize, s, a) != s {
      var t := s.threads[a.i];
      SettleKeepsOutcome(s, Next(batchSize, s, a), a.i, Next(batchSize, s, a).threads[a.i], t.batch, a.fails, failed, k);
    }
  }

  lemma OutcomeStep(batchSize: int, s: State, a: Action, failed: bool, k: nat)
    requires WorkOk(s) && s.closedAt.None? && OutcomeOk(s, failed, k)
    ensures OutcomeOk(Next(batchSize, s, a), failed || EndsBadly(s, a, k), k)
  {
    hide OutcomeOk, WorkOk;
    var s' := Next(batchSize, s, a);
    match a {
      case Append(table, _) =>
        if s'.threads != s.threads {
          StartKeepsOutcome(s, s', Spawning(table), failed, k);
        } else {
          SameKeepsOutcome(s, s', failed, k);
        }
      case TimerFires =>
        if s.timerArmed {
          StartKeepsOutcome(s, s', Snapshotting(false), failed, k);
        }
      case CallClose => StartKeepsOutcome(s, s', Snapshotting(true), failed, k);
      case Take(_) => TakingKeepsOutcome(batchSize, s, a, failed, k);
      case SweepTake(_) => TakingKeepsOutcome(batchSize, s, a, failed, k);
      case Insert(_, _) => EndingKeepsOutcome(batchSize, s, a, failed, k);
      case SweepInsert(_, _) => EndingKeepsOutcome(batchSize, s, a, failed, k);
      case _ =>
        if s' != s {
          MoveKeepsOutcome(s, s', a.i, s'.threads[a.i], failed, k);
        }
    }
  }

  lemma {:induction false} OutcomesWhileConnected(batchSize: int, acts: seq<Action>, k: nat)
    requires Run(batchSize, acts).closedAt.None?
    ensures OutcomeOk(Run(batchSize, acts), InsertFailed(batchSize, acts, k), k)
  {
    if acts != [] {
      var n := |acts| - 1;
      ConnectedBefore(batchSize, Run(batchSize, acts[..n]), acts[n]);
      OutcomesWhileConnected(batchSize, acts[..n], k);
      RunKeepsInv(batchSize, acts[..n]);
      OutcomeStep(batchSize, Run(batchSize, acts[..n]), acts[n], InsertFailed(batchSize, acts[..n], k), k);
    }
  }

  lemma ConnectedBefore(batchSize: int, s: State, a: Action)
    requires Next(batchSize, s, a).closedAt.None?
    ensures s.closedAt.None?
  {
  }

  /** What a Close costs: once Disconnect has happened, and whatever follows, a batch is sent
      if and only if it had been taken before, its insert had not failed, and it was not in
      flight at that moment. */
  lemma CloseSends(batchSize: int, before: seq<Action>, i: nat, rest: seq<Action>, k: nat)
    requires Run(batchSize, before).closedAt.None?
    requires Run(batchSize, before + [Disconnect(i)]).closedAt.Some?
    ensures var s := Run(batchSize, before);
            IsSent(Run(batchSize, before + [Disconnect(i)] + rest), k) <==>
            k < |s.taken| && !InsertFailed(batchSize, before, k) && !BeingInserted(s.threads, k)
  {
    hide Next, InsertFailed;
    SentBeforeOrNever(batchSize, before + [Disconnect(i)], rest, k);
    OutcomesWhileConnected(batchSize, before, k);
    DisconnectTakesNothing(batchSize, before, i);
  }

  lemma DisconnectTakesNothing(batchSize: int, before: seq<Action>, i: nat)
    ensures Run(batchSize, before + [Disconnect(i)]).taken == Run(batchSize, before).taken
  {
    var s := Advance(batchSize, before, Disconnect(i));
  }

  /** Batch k holds a row of the table before row n, in append order. */
  predicate Carries(taken: seq<Batch>, k: nat, table: string, n: nat) {
    k < |taken| && taken[k].table == table && |TakenFrom(taken[..k], table)| < n
  }

  /** Both lists begin with the same batches, up to their outcomes. */
  ghost predicate Extends(taken: seq<Batch>, later: seq<Batch>) {
    |taken| <= |later| &&
    forall k | 0 <= k < |taken| :: later[k].table == taken[k].table && later[k].rows == taken[k].rows
  }

  lemma {:induction false} SameRowsTaken(taken: seq<Batch>, later: seq<Batch>, k: nat, table: string)
    requires Extends(taken, later) && k <= |taken|
    ensures TakenFrom(later[..k], table) == TakenFrom(taken[..k], table)
  {
    if k > 0 {
      SameRowsTaken(taken, later, k - 1, table);
      assert later[..k][..k - 1] == later[..k - 1] && taken[..k][..k - 1] == taken[..k - 1];
    }
  }

  lemma {:induction false} TakenGrows(taken: seq<Batch>, j: nat, k: nat, table: string)
    requires j <= k <= |taken|
    ensures |TakenFrom(taken[..j], table)| <= |TakenFrom(taken[..k], table)|
  {
    if j < k {
      TakenGrows(taken, j, k - 1, table);
      assert taken[..k][..k - 1] == taken[..k - 1];
    }
  }

  lemma StepExtends(batchSize: int, s: State, a: Action)
    ensures Extends(s.taken, Next(batchSize, s, a).taken)
  {
  }

  lemma {:induction false} RunExtends(batchSize: int, before: seq<Action>, rest: seq<Action>)
    ensures Extends(Run(batchSize, before).taken, Run(batchSize, before + rest).taken)
  {
    if rest == [] {
      assert before + rest == before;
    } else {
      var n := |rest| - 1;
      RunExtends(batchSize, before, rest[..n]);
      StepExtends(batchSize, Run(batchSize, before + rest[..n]), rest[n]);
      assert before + rest == before + rest[..n] + [rest[n]];
      var s := Advance(batchSize, before + rest[..n], rest[n]);
    }
  }

  /** The batches of the first n rows of a table are settled by the time those rows are taken. */
  lemma CarriersAreEarly(taken: seq<Batch>, later: seq<Batch>, k: nat, table: string, n: nat)
    requires Extends(taken, later) && n <= |TakenFrom(taken, table)|
    ensures Carries(later, k, table, n) <==> Carries(taken, k, table, n)
  {
    assert taken[..|taken|] == taken;
    if k <= |taken| {
      SameRowsTaken(taken, later, k, table);
    } else if k < |later| {
      SameRowsTaken(taken, later, |taken|, table);
      TakenGrows(later, |taken|, k, table);
    }
  }

  /** So all rows of a table that were appended before Close listed the tables end up sent if
      and only if, when Close disconnects, the insert of none of their batches has failed and
      none of these is still in flight. */
  lemma CloseKeepsRows(batchSize: int, before: seq<Action>, i: nat, rest: seq<Action>, table: string)
    requires Run(batchSize, before).closedAt.None?
    requires Run(batchSize, before + [Disconnect(i)]).closedAt.Some?
    ensures var s := Run(batchSize, before);
            var mark := Run(batchSize, before + [Disconnect(i)]).closedAt.value;
            var later := Run(batchSize, before + [Disconnect(i)] + rest);
            && mark <= |s.history|
            && var n := |RowsOf(s.history[..mark], table)|;
            (forall k | Carries(later.taken, k, table, n) :: IsSent(later, k)) <==>
            (forall k | Carries(s.taken, k, table, n) ::
               !InsertFailed(batchSize, before, k) && !BeingInserted(s.threads, k))
  {
    hide Next, InsertFailed, BeingInserted, RowsOf;
    var s, later := Run(batchSize, before), Run(batchSize, before + [Disconnect(i)] + rest);
    var n := MarkSwept(batchSize, before, i, table);
    RunExtends(batchSize, before, [Disconnect(i)] + rest);
    assert before + ([Disconnect(i)] + rest) == before + [Disconnect(i)] + rest;
    forall k: nat ensures Carries(later.taken, k, table, n) <==> Carries(s.taken, k, table, n) {
      CarriersAreEarly(s.taken, later.taken, k, table, n);
    }
    forall k | Carries(s.taken, k, table, n)
      ensures IsSent(later, k) <==> !InsertFailed(batchSize, before, k) && !BeingInserted(s.threads, k)
    {
      CloseSends(batchSize, before, i, rest, k);
    }
  }

  lemma MarkSwept(batchSize: int, before: seq<Action>, i: nat, table: string) returns (n: nat)
    requires Run(batchSize, before).closedAt.None?
    requires Run(batchSize, before + [Disconnect(i)]).closedAt.Some?
    ensures var s := Run(batchSize, before);
            var mark := Run(batchSize, before + [Disconnect(i)]).closedAt.value;
            mark <= |s.history| && n == |RowsOf(s.history[..mark], table)| <= |TakenFrom(s.taken, table)|
  {
    var s' := Advance(batchSize, before, Disconnect(i));
    RunKeepsInv(batchSize, before + [Disconnect(i)]);
    assert Swept(s'.history, s'.taken, s'.closedAt.value, table);
    n := |RowsOf(s'.history[..s'.closedAt.value], table)|;
  }

  /** Taken is not sent: Close does not wait for spawned flushes. Here a row appended before
      Close was called is dropped although no insert ever failed on its own. And Close leaves
      the timer armed. */
  lemma CloseMayDropRows(table: string, row: Row)
    ensures var s := Run(1, [Append(table, row), Spawn(0), Take(0)]
                            + [CallClose, Snapshot(1, [table]), SweepTake(1), Rearm(1), Disconnect(1)] + [Insert(0, false)]);
            s.taken == [Batch(table, [row], Dropped)] && s.timerArmed
  {
    FlushStarts(table, row);
    var acts := [Append(table, row), Spawn(0), Take(0)];
    var s := CloseOvertakes(acts, table, row);
    var closing := [CallClose, Snapshot(1, [table]), SweepTake(1), Rearm(1), Disconnect(1)];
    var last := Advance(1, acts + closing, Insert(0, false));
  }

  lemma RowAppended(table: string, row: Row)
    ensures Run(1, [Append(table, row)]) == State(map[table := [row]], [Spawning(table)], [], [Entry(table, row)], true, None)
  {
    assert [] + [Append(table, row)] == [Append(table, row)];
    var s1 := Advance(1, [], Append(table, row));
    assert [] + [row] == [row];
  }

  lemma FlushSpawned(table: string, row: Row)
    ensures Run(1, [Append(table, row), Spawn(0)])
            == State(map[table := [row]], [Waiting(table)], [], [Entry(table, row)], true, None)
  {
    RowAppended(table, row);
    assert [Append(table, row)] + [Spawn(0)] == [Append(table, row), Spawn(0)];
    var s2 := Advance(1, [Append(table, row)], Spawn(0));
  }

  lemma FlushStarts(table: string, row: Row)
    ensures Run(1, [Append(table, row), Spawn(0), Take(0)])
            == State(map[table := []], [Inserting(0)], [Batch(table, [row], InFlight)], [Entry(table, row)], true, None)
  {
    FlushSpawned(table, row);
    var s3 := Advance(1, [Append(table, row), Spawn(0)], Take(0));
    assert [Append(table, row), Spawn(0)] + [Take(0)] == [Append(table, row), Spawn(0), Take(0)];
  }

  lemma CloseOvertakes(acts: seq<Action>, table: string, row: Row) returns (s: State)
    requires Run(1, acts) == State(map[table := []], [Inserting(0)], [Batch(table, [row], InFlight)], [Entry(table, row)], true, None)
    ensures s == Run(1, acts + [CallClose, Snapshot(1, [table]), SweepTake(1), Rearm(1), Disconnect(1)])
    ensures s == State(map[table := []], [Inserting(0), Done], [Batch(table, [row], InFlight)], [Entry(table, row)], true, Some(1))
  {
    var s2 := CloseStarts(acts, table, row);
    var s4 := CloseSweeps(acts + [CallClose, Snapshot(1, [table])], table, row);
    var acts4 := acts + [CallClose, Snapshot(1, [table])] + [SweepTake(1), Rearm(1)];
    s := Advance(1, acts4, Disconnect(1));
    assert acts4 + [Disconnect(1)] == acts + [CallClose, Snapshot(1, [table]), SweepTake(1), Rearm(1), Disconnect(1)];
  }

  lemma CloseSweeps(acts: seq<Action>, table: string, row: Row) returns (s: State)
    requires Run(1, acts) == State(map[table := []], [Inserting(0), Sweeping([table], true, 1)],
                                   [Batch(table, [row], InFlight)], [Entry(table, row)], false, None)
    ensures s == Run(1, acts + [SweepTake(1), Rearm(1)])
    ensures s == Run(1, acts).(timerArmed := true, threads := [Inserting(0), Disconnecting(1)])
  {
    var s1 := SweepsNothing(acts, table);
    s := Advance(1, acts + [SweepTake(1)], Rearm(1));
    assert acts + [SweepTake(1)] + [Rearm(1)] == acts + [SweepTake(1), Rearm(1)];
  }

  lemma SweepsNothing(acts: seq<Action>, table: string) returns (s: State)
    requires Run(1, acts).batches == map[table := []]
    requires |Run(1, acts).threads| == 2 && Run(1, acts).threads[1] == Sweeping([table], true, 1)
    ensures s == Run(1, acts + [SweepTake(1)])
    ensures s == Run(1, acts).(threads := [Run(1, acts).threads[0], Sweeping([], true, 1)])
  {
    s := Advance(1, acts, SweepTake(1));
    assert Emptied(Run(1, acts).batches, table) == Run(1, acts).batches;
    assert [table][1..] == [];
  }

  lemma CloseStarts(acts: seq<Action>, table: string, row: Row) returns (s: State)
    requires Run(1, acts) == State(map[table := []], [Inserting(0)], [Batch(table, [row], InFlight)], [Entry(table, row)], true, None)
    ensures s == Run(1, acts + [CallClose, Snapshot(1, [table])])
    ensures s == Run(1, acts).(timerArmed := false, threads := [Inserting(0), Sweeping([table], true, 1)])
  {
    var s1 := Advance(1, acts, CallClose);
    assert s1 == Run(1, acts).(timerArmed := false, threads := [Inserting(0), Snapshotting(true)]);
    assert (set t | t in [table]) == s1.batches.Keys;
    s := Advance(1, acts + [CallClose], Snapshot(1, [table]));
    assert acts + [CallClose] + [Snapshot(1, [table])] == acts + [CallClose, Snapshot(1, [table])];
  }

  lemma Advance(batchSize: int, acts: seq<Action>, a: Action) returns (s: State)
    ensures s == Run(batchSize, acts + [a]) == Next(batchSize, Run(batchSize, acts), a)
  {
    assert (acts + [a])[..|acts|] == acts;
    s := Run(batchSize, acts + [a]);
  }
}
