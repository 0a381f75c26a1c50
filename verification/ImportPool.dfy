/**
  The worker pool of client/mysqlimport.c: `main` with --use-threads, `worker_thread`, `safe_exit` and the start of
  `db_connect`, as steps of threads that interleave freely.
*/
module ImportPool {
  import opened Text

  datatype Thread = MainThread | WorkerThread(index: nat)

  /** Where `main` stands. */
  datatype MainPc =
    | AtLock         // about to lock counter_mutex for the next table
    | AtTest         // holds it, about to compare counter with the limit
    | AtWait         // in pthread_cond_timedwait, without the mutex
    | AtUnlock       // has counted the new thread, holds the mutex
    | AtCreate       // about to create the thread
    | AtUndoLock     // creation failed, about to lock
    | AtUndo         // holds the mutex, about to take the count back
    | AtUndoUnlock   // has taken it back, holds the mutex
    | AtLastLock     // all tables are started, about to lock
    | AtLastTest     // holds the mutex, about to test counter
    | AtLastWait
    | AtLastUnlock   // has seen counter at zero, holds the mutex
    | AtDestroyInit
    | AtDestroy
    | Done

  /** Where a worker stands. */
  datatype WorkerPc =
    | Starting
    | AtInitLock     // about to lock init_mutex
    | AtInit         // holds it, in mysql_init
    | Working        // connecting, loading its table
    | AtSignLock     // about to lock counter_mutex
    | AtSign         // holds it, about to count itself out
    | AtSignUnlock   // has counted itself out, holds the mutex
    | Ended
    | AtExitLock     // in safe_exit, about to lock counter_mutex
    | AtExit         // in safe_exit, about to end the process

  datatype Pool = Pool(
    limit: nat, tables: nat, started: nat, failed: nat, counter: int,
    main: MainPc, workers: seq<WorkerPc>,
    counterMutex: Option<Thread>, initMutex: Option<Thread>,
    initDestroyed: bool, counterDestroyed: bool, exited: bool)

  /** What the environment answers to the step: success, an error, or an error that ends the process. */
  datatype Answer = Succeeds | Fails | Dies

  datatype Move = Move(thread: Thread, answer: Answer)

  function NextTable(p: Pool): Pool {
    p.(main := if p.started < p.tables then AtLock else AtLastLock)
  }

  function Begin(limit: nat, tables: nat): Pool {
    NextTable(Pool(limit, tables, 0, 0, 0, AtLock, [], None, None, false, false, false))
  }

  /** A step that takes counter_mutex; the thread waits while another one holds it. */
  function MainTakes(p: Pool, pc: MainPc): Pool {
    if p.counterMutex.None? then p.(counterMutex := Some(MainThread), main := pc) else p
  }

  function MainStep(p: Pool, answer: Answer): Pool {
    match p.main
    case AtLock => MainTakes(p, AtTest)
    case AtTest =>
      if p.counter == p.limit then p.(counterMutex := None, main := AtWait)
      else p.(counter := p.counter + 1, main := AtUnlock)
    case AtWait => MainTakes(p, AtTest)  // a signal, the time limit or nothing at all
    case AtUnlock => p.(counterMutex := None, main := AtCreate)
    case AtCreate =>
      if answer.Succeeds? then NextTable(p.(workers := p.workers + [Starting], started := p.started + 1))
      else p.(main := AtUndoLock)
    case AtUndoLock => MainTakes(p, AtUndo)
    case AtUndo => p.(counter := p.counter - 1, main := AtUndoUnlock)
    case AtUndoUnlock => NextTable(p.(counterMutex := None, started := p.started + 1, failed := p.failed + 1))
    case AtLastLock => MainTakes(p, AtLastTest)
    case AtLastTest =>
      if p.counter != 0 then p.(counterMutex := None, main := AtLastWait) else p.(main := AtLastUnlock)
    case AtLastWait => MainTakes(p, AtLastTest)
    case AtLastUnlock => p.(counterMutex := None, main := AtDestroyInit)
    case AtDestroyInit => p.(initDestroyed := true, main := AtDestroy)
    case AtDestroy => p.(counterDestroyed := true, main := Done)
    case Done => p
  }

  function WorkerAt(p: Pool, i: nat, pc: WorkerPc): Pool
    requires i < |p.workers|
  {
    p.(workers := p.workers[i := pc])
  }

  function WorkerTakes(p: Pool, i: nat, pc: WorkerPc): Pool
    requires i < |p.workers|
  {
    if p.counterMutex.None? then WorkerAt(p, i, pc).(counterMutex := Some(WorkerThread(i))) else p
  }

  function WorkerStep(p: Pool, i: nat, answer: Answer): Pool
    requires i < |p.workers|
  {
    match p.workers[i]
    case Starting => WorkerAt(p, i, if answer.Succeeds? then AtInitLock else AtSignLock)
    case AtInitLock =>
      if p.initMutex.None? then WorkerAt(p, i, AtInit).(initMutex := Some(WorkerThread(i))) else p
    case AtInit => WorkerAt(p, i, if answer.Succeeds? then Working else AtSignLock).(initMutex := None)
    case Working =>
      if !answer.Dies? then WorkerAt(p, i, AtSignLock)
      else WorkerAt(p, i, if p.counter != 0 then AtExitLock else AtExit)
    case AtSignLock => WorkerTakes(p, i, AtSign)
    case AtSign => WorkerAt(p, i, AtSignUnlock).(counter := p.counter - 1)
    case AtSignUnlock => WorkerAt(p, i, Ended).(counterMutex := None)
    case Ended => p
    case AtExitLock => WorkerTakes(p, i, AtExit)
    case AtExit => p.(exited := true)
  }

  /** A step of one thread; a process that has ended takes no step. */
  function Step(p: Pool, move: Move): Pool {
    if p.exited then p
    else if move.thread.MainThread? then MainStep(p, move.answer)
    else if move.thread.index < |p.workers| then WorkerStep(p, move.thread.index, move.answer)
    else p
  }

  function Run(p: Pool, moves: seq<Move>): Pool {
    if moves == [] then p else Step(Run(p, moves[..|moves| - 1]), moves[|moves| - 1])
  }

  // --- Counting ---

  /** The worker has not signed off. */
  predicate Counted(w: WorkerPc) {
    !w.AtSignUnlock? && !w.Ended?
  }

  function CountedWorkers(workers: seq<WorkerPc>): nat {
    if workers == [] then 0
    else CountedWorkers(workers[..|workers| - 1]) + (if Counted(workers[|workers| - 1]) then 1 else 0)
  }

  lemma {:induction false} CountUpdate(workers: seq<WorkerPc>, i: nat, pc: WorkerPc)
    requires i < |workers|
    ensures CountedWorkers(workers[i := pc]) ==
            CountedWorkers(workers) - (if Counted(workers[i]) then 1 else 0) + (if Counted(pc) then 1 else 0)
  {
    var n := |workers| - 1;
    if i < n {
      CountUpdate(workers[..n], i, pc);
      assert workers[i := pc][..n] == workers[..n][i := pc];
    } else {
      assert workers[i := pc][..n] == workers[..n];
    }
  }

  lemma {:induction false} CountZero(workers: seq<WorkerPc>)
    ensures CountedWorkers(workers) == 0 <==> forall i :: 0 <= i < |workers| ==> !Counted(workers[i])
  {
    if workers != [] {
      var n := |workers| - 1;
      CountZero(workers[..n]);
      if CountedWorkers(workers) == 0 {
        forall i | 0 <= i < |workers| ensures !Counted(workers[i]) {
          if i < n { assert !Counted(workers[..n][i]); }
        }
      }
    }
  }

  // --- What every step keeps ---

  /** A thread that main has counted and not yet created. */
  predicate Creating(pc: MainPc) {
    pc.AtUnlock? || pc.AtCreate? || pc.AtUndoLock? || pc.AtUndo?
  }

  predicate MainHolds(pc: MainPc) {
    pc.AtTest? || pc.AtUnlock? || pc.AtUndo? || pc.AtUndoUnlock? || pc.AtLastTest? || pc.AtLastUnlock?
  }

  predicate WorkerHolds(w: WorkerPc) {
    w.AtSign? || w.AtSignUnlock? || w.AtExit?
  }

  /** Main is past its last look at the counter. */
  predicate Closing(pc: MainPc) {
    pc.AtLastUnlock? || pc.AtDestroyInit? || pc.AtDestroy? || pc.Done?
  }

  predicate Starts(pc: MainPc) {
    pc.AtLock? || pc.AtTest? || pc.AtWait? || pc.AtUndoUnlock? || Creating(pc)
  }

  /** A worker stands at a place that owns a mutex exactly when the mutex is its own. */
  ghost predicate Owns(p: Pool, i: nat)
    requires i < |p.workers|
  {
    && (WorkerHolds(p.workers[i]) <==> p.counterMutex == Some(WorkerThread(i)))
    && (p.workers[i].AtInit? <==> p.initMutex == Some(WorkerThread(i)))
  }

  ghost predicate Known(owner: Option<Thread>, workers: nat) {
    owner.Some? && owner.value.WorkerThread? ==> owner.value.index < workers
  }

  ghost predicate Mutexes(p: Pool) {
    && (MainHolds(p.main) <==> p.counterMutex == Some(MainThread))
    && (forall i :: 0 <= i < |p.workers| ==> Owns(p, i))
    && Known(p.counterMutex, |p.workers|) && Known(p.initMutex, |p.workers|)
    && p.initMutex != Some(MainThread)
  }

  ghost predicate AllEnded(workers: seq<WorkerPc>) {
    forall i :: 0 <= i < |workers| ==> workers[i].Ended?
  }

  ghost predicate Inv(p: Pool) {
    Mutexes(p) && Counts(p)
  }

  ghost predicate Counts(p: Pool) {
    && p.counter == CountedWorkers(p.workers) + (if Creating(p.main) then 1 else 0)
    && p.counter <= p.limit
    && |p.workers| + p.failed == p.started <= p.tables
    && (Starts(p.main) <==> p.started < p.tables)
    && (Closing(p.main) ==> AllEnded(p.workers))
    && (p.initDestroyed ==> p.main.AtDestroy? || p.main.Done?)
    && (p.counterDestroyed ==> p.main.Done?)
    && (p.exited ==> !Closing(p.main))
  }

  /** A mutex stays with its owner, or the thread takes it while it is free, or gives it back. */
  predicate Passes(before: Option<Thread>, after: Option<Thread>, thread: Thread) {
    || after == before
    || (before.None? && after == Some(thread))
    || (before == Some(thread) && after.None?)
  }

  lemma {:induction false} WorkersStillOwn(p: Pool, next: Pool, thread: Thread)
    requires Mutexes(p) && |p.workers| == |next.workers|
    requires Passes(p.counterMutex, next.counterMutex, thread) && Passes(p.initMutex, next.initMutex, thread)
    requires forall j :: 0 <= j < |p.workers| && thread != WorkerThread(j) ==> next.workers[j] == p.workers[j]
    ensures forall j :: 0 <= j < |p.workers| && thread != WorkerThread(j) ==> Owns(next, j)
  {
    forall j | 0 <= j < |p.workers| && thread != WorkerThread(j) ensures Owns(next, j) {
      assert Owns(p, j);
    }
  }

  lemma {:induction false} CreateKeeps(p: Pool, answer: Answer)
    requires Inv(p) && p.main.AtCreate? && answer.Succeeds?
    ensures Inv(MainStep(p, answer))
  {
    var next := MainStep(p, answer);
    assert next.workers[..|p.workers|] == p.workers;
    forall i | 0 <= i < |next.workers| ensures Owns(next, i) {
      if i < |p.workers| { assert Owns(p, i); }
    }
  }

  lemma {:induction false} LastTestSees(p: Pool)
    requires Inv(p) && p.main.AtLastTest? && p.counter == 0
    ensures AllEnded(p.workers)
  {
    CountZero(p.workers);
    forall i | 0 <= i < |p.workers| ensures p.workers[i].Ended? {
      assert Owns(p, i);
    }
  }

  /** Main takes or gives back the counter mutex, or leaves it, and touches neither the workers nor the other mutex. */
  ghost predicate MainPassed(p: Pool, next: Pool) {
    && next.workers == p.workers && next.initMutex == p.initMutex
    && Passes(p.counterMutex, next.counterMutex, MainThread)
    && (MainHolds(next.main) <==> next.counterMutex == Some(MainThread))
  }

  lemma {:induction false} HolderPasses(p: Pool, answer: Answer)
    requires MainHolds(p.main) && p.counterMutex == Some(MainThread)
    ensures MainPassed(p, MainStep(p, answer))
  {
  }

  lemma {:induction false} MainPasses(p: Pool, answer: Answer)
    requires MainHolds(p.main) <==> p.counterMutex == Some(MainThread)
    requires !(p.main.AtCreate? && answer.Succeeds?)
    ensures MainPassed(p, MainStep(p, answer))
  {
    if MainHolds(p.main) { HolderPasses(p, answer); }
  }

  lemma {:induction false} MutexesPass(p: Pool, next: Pool)
    requires Mutexes(p) && MainPassed(p, next)
    ensures Mutexes(next)
  {
    WorkersStillOwn(p, next, MainThread);
  }

  lemma {:induction false} StartKeepsCounts(p: Pool, answer: Answer)
    requires Counts(p) && !p.exited && Starts(p.main) && !(p.main.AtCreate? && answer.Succeeds?)
    ensures Counts(MainStep(p, answer))
  {
  }

  lemma {:induction false} EndKeepsCounts(p: Pool, answer: Answer)
    requires Counts(p) && !p.exited && !Starts(p.main)
    requires p.main.AtLastTest? && p.counter == 0 ==> AllEnded(p.workers)
    ensures Counts(MainStep(p, answer))
  {
  }

  lemma {:induction false} MainKeeps(p: Pool, answer: Answer)
    requires Inv(p) && !p.exited
    ensures Inv(MainStep(p, answer))
  {
    if p.main.AtCreate? && answer.Succeeds? {
      CreateKeeps(p, answer);
    } else {
      if p.main.AtLastTest? && p.counter == 0 {
        LastTestSees(p);
      }
      MainPasses(p, answer);
      MutexesPass(p, MainStep(p, answer));
      if Starts(p.main) { StartKeepsCounts(p, answer); } else { EndKeepsCounts(p, answer); }
    }
  }

  /** A worker that moves from one place to another, with the mutex that belongs to the place. */
  lemma {:induction false} WorkerMoves(p: Pool, i: nat, pc: WorkerPc, next: Pool)
    requires Inv(p) && i < |p.workers| && !p.workers[i].Ended? && next == WorkerAt(p, i, pc).
               (counter := next.counter, counterMutex := next.counterMutex, initMutex := next.initMutex)
    requires Passes(p.counterMutex, next.counterMutex, WorkerThread(i))
    requires Passes(p.initMutex, next.initMutex, WorkerThread(i))
    requires WorkerHolds(pc) <==> next.counterMutex == Some(WorkerThread(i))
    requires pc.AtInit? <==> next.initMutex == Some(WorkerThread(i))
    requires next.counter == p.counter - (if Counted(p.workers[i]) && !Counted(pc) then 1 else 0)
    requires Counted(pc) ==> Counted(p.workers[i])
    ensures Inv(next)
  {
    CountUpdate(p.workers, i, pc);
    WorkersStillOwn(p, next, WorkerThread(i));
    assert Owns(next, i);
    forall j | 0 <= j < |next.workers| ensures Owns(next, j) {
      if j != i { assert WorkerThread(i) != WorkerThread(j); }
    }
  }

  lemma {:induction false} ExitKeeps(p: Pool, i: nat)
    requires Inv(p) && i < |p.workers| && p.workers[i].AtExit?
    ensures Inv(p.(exited := true))
  {
    WorkersStillOwn(p, p.(exited := true), MainThread);
  }

  lemma {:induction false} WorkKeeps(p: Pool, i: nat, answer: Answer)
    requires Inv(p) && i < |p.workers|
    requires p.workers[i].Starting? || p.workers[i].AtInitLock? || p.workers[i].AtInit? || p.workers[i].Working?
    ensures Inv(WorkerStep(p, i, answer))
  {
    var next := WorkerStep(p, i, answer);
    assert Owns(p, i);
    CountZero(p.workers);
    if next != p {
      WorkerMoves(p, i, next.workers[i], next);
    }
  }

  lemma {:induction false} SignKeeps(p: Pool, i: nat, answer: Answer)
    requires Inv(p) && i < |p.workers|
    requires p.workers[i].AtSignLock? || p.workers[i].AtSign? || p.workers[i].AtSignUnlock? || p.workers[i].AtExitLock?
    ensures Inv(WorkerStep(p, i, answer))
  {
    var next := WorkerStep(p, i, answer);
    assert Owns(p, i);
    if next != p {
      WorkerMoves(p, i, next.workers[i], next);
    }
  }

  lemma {:induction false} WorkerKeeps(p: Pool, i: nat, answer: Answer)
    requires Inv(p) && i < |p.workers|
    ensures Inv(WorkerStep(p, i, answer))
  {
    match p.workers[i] {
      case Ended =>
      case AtExit => ExitKeeps(p, i);
      case AtSignLock => SignKeeps(p, i, answer);
      case AtSign => SignKeeps(p, i, answer);
      case AtSignUnlock => SignKeeps(p, i, answer);
      case AtExitLock => SignKeeps(p, i, answer);
      case _ => WorkKeeps(p, i, answer);
    }
  }

  lemma {:induction false} RunKeeps(limit: nat, tables: nat, moves: seq<Move>)
    ensures Inv(Run(Begin(limit, tables), moves))
  {
    if moves != [] {
      var before := moves[..|moves| - 1];
      RunKeeps(limit, tables, before);
      var p := Run(Begin(limit, tables), before);
      var move := moves[|moves| - 1];
      if !p.exited {
        if move.thread.MainThread? {
          MainKeeps(p, move.answer);
        } else if move.thread.index < |p.workers| {
          WorkerKeeps(p, move.thread.index, move.answer);
        }
      }
    }
  }

  /** The workers that run or have yet to sign off, and a thread being created. */
  function Outstanding(p: Pool): nat {
    CountedWorkers(p.workers) + if Creating(p.main) then 1 else 0
  }

  /** In every reachable state the counter is exact and within the limit. */
  lemma {:induction false} CounterIsExact(limit: nat, tables: nat, moves: seq<Move>)
    ensures var p := Run(Begin(limit, tables), moves);
            p.counter == Outstanding(p) <= limit
  {
    RunKeeps(limit, tables, moves);
    LimitStays(limit, tables, moves);
  }

  lemma {:induction false} MainLimit(p: Pool, answer: Answer)
    ensures MainStep(p, answer).limit == p.limit && MainStep(p, answer).tables == p.tables
  {
  }

  lemma {:induction false} StepLimit(p: Pool, move: Move)
    ensures Step(p, move).limit == p.limit && Step(p, move).tables == p.tables
  {
    MainLimit(p, move.answer);
  }

  lemma {:induction false} LimitStays(limit: nat, tables: nat, moves: seq<Move>)
    ensures var p := Run(Begin(limit, tables), moves); p.limit == limit && p.tables == tables
  {
    if moves != [] {
      LimitStays(limit, tables, moves[..|moves| - 1]);
      StepLimit(Run(Begin(limit, tables), moves[..|moves| - 1]), moves[|moves| - 1]);
    }
  }

  /**
    Once main is at the destruction of the mutexes, and ever after, every worker has ended: none holds one of
    them, and none will take one again.  Every table then had its worker, or its creation failed.
  */
  lemma {:induction false} DestroyedMutexesAreUnused(limit: nat, tables: nat, moves: seq<Move>)
    requires var p := Run(Begin(limit, tables), moves);
             p.initDestroyed || p.counterDestroyed || p.main.AtDestroyInit? || p.main.AtDestroy?
    ensures var p := Run(Begin(limit, tables), moves);
            && AllEnded(p.workers) && !p.exited
            && p.counterMutex.None? && p.initMutex.None?
            && |p.workers| + p.failed == tables
  {
    RunKeeps(limit, tables, moves);
    LimitStays(limit, tables, moves);
    ClosedPool(Run(Begin(limit, tables), moves));
  }

  lemma {:induction false} ClosedPool(p: Pool)
    requires Inv(p) && Closing(p.main) && !p.main.AtLastUnlock?
    ensures AllEnded(p.workers) && !p.exited && p.counterMutex.None? && p.initMutex.None?
    ensures |p.workers| + p.failed == p.tables
  {
    assert p.counterMutex.Some? ==> Owns(p, p.counterMutex.value.index);
    assert p.initMutex.Some? ==> Owns(p, p.initMutex.value.index);
  }

  // --- The pool can always finish ---

  /** How far a worker is from its end. */
  function WorkerRank(w: WorkerPc): nat {
    match w
    case Starting => 9
    case AtInitLock => 8
    case AtInit => 7
    case Working => 6
    case AtSignLock => 5
    case AtSign => 4
    case AtSignUnlock => 3
    case AtExitLock => 2
    case AtExit => 1
    case Ended => 0
  }

  function WorkersRank(workers: seq<WorkerPc>): nat {
    if workers == [] then 0 else WorkersRank(workers[..|workers| - 1]) + WorkerRank(workers[|workers| - 1])
  }

  lemma {:induction false} RankUpdate(workers: seq<WorkerPc>, i: nat, pc: WorkerPc)
    requires i < |workers|
    ensures WorkersRank(workers[i := pc]) == WorkersRank(workers) - WorkerRank(workers[i]) + WorkerRank(pc)
  {
    var n := |workers| - 1;
    if i < n {
      RankUpdate(workers[..n], i, pc);
      assert workers[i := pc][..n] == workers[..n][i := pc];
    } else {
      assert workers[i := pc][..n] == workers[..n];
    }
  }

  lemma {:induction false} RankZero(workers: seq<WorkerPc>) returns (i: nat)
    ensures WorkersRank(workers) == 0 <==> AllEnded(workers)
    ensures WorkersRank(workers) != 0 ==> i < |workers| && !workers[i].Ended?
  {
    i := 0;
    if workers != [] {
      var n := |workers| - 1;
      i := RankZero(workers[..n]);
      if !workers[n].Ended? { i := n; }
      assert AllEnded(workers[..n]) && workers[n].Ended? ==> AllEnded(workers) by {
        assert forall k :: 0 <= k < n ==> workers[..n][k] == workers[k];
      }
      assert AllEnded(workers) ==> AllEnded(workers[..n]);
    }
  }

  /** How far main is from its next table or its end; a wait counts as past the test only while workers run. */
  function MainRank(pc: MainPc, idle: bool): nat {
    match pc
    case AtLock => 20
    case AtTest => 19
    case AtWait => if idle then 20 else 18
    case AtUnlock => 18
    case AtCreate => 17
    case AtUndoLock => 16
    case AtUndo => 15
    case AtUndoUnlock => 14
    case AtLastLock => 13
    case AtLastTest => 12
    case AtLastWait => if idle then 13 else 11
    case AtLastUnlock => 10
    case AtDestroyInit => 9
    case AtDestroy => 8
    case Done => 0
  }

  function Rank(p: Pool): nat {
    MainRank(p.main, WorkersRank(p.workers) == 0)
  }

  function TablesLeft(p: Pool): nat {
    if p.started < p.tables then p.tables - p.started else 0
  }

  /** The state is nearer to the end. */
  ghost predicate Nearer(p: Pool, q: Pool) {
    || q.exited
    || TablesLeft(q) < TablesLeft(p)
    || (TablesLeft(q) == TablesLeft(p) && WorkersRank(q.workers) < WorkersRank(p.workers))
    || (TablesLeft(q) == TablesLeft(p) && WorkersRank(q.workers) == WorkersRank(p.workers) && Rank(q) < Rank(p))
  }

  lemma {:induction false} WorkerMovesOn(p: Pool, i: nat)
    requires i < |p.workers| && !p.workers[i].Ended? && !p.workers[i].AtExit?
    requires WorkerHolds(p.workers[i]) || p.counterMutex.None?
    requires p.workers[i].AtInitLock? ==> p.initMutex.None?
    ensures var q := WorkerStep(p, i, Succeeds);
            && |q.workers| == |p.workers| && q.workers == p.workers[i := q.workers[i]]
            && WorkerRank(q.workers[i]) < WorkerRank(p.workers[i]) && TablesLeft(q) == TablesLeft(p)
  {
    var q := WorkerStep(p, i, Succeeds);
    match p.workers[i] {
      case Starting => assert q == WorkerAt(p, i, AtInitLock);
      case AtInitLock => assert q.workers == p.workers[i := AtInit];
      case AtInit => assert q.workers == p.workers[i := Working];
      case Working => assert q == WorkerAt(p, i, AtSignLock);
      case AtSignLock => assert q.workers == p.workers[i := AtSign];
      case AtSign => assert q.workers == p.workers[i := AtSignUnlock];
      case AtSignUnlock => assert q.workers == p.workers[i := Ended];
      case AtExitLock => assert q.workers == p.workers[i := AtExit];
    }
  }

  /** A worker that no mutex stops comes nearer to its end. */
  lemma {:induction false} WorkerComesNearer(p: Pool, i: nat)
    requires i < |p.workers| && !p.workers[i].Ended? && !p.exited
    requires WorkerHolds(p.workers[i]) || p.counterMutex.None?
    requires p.workers[i].AtInitLock? ==> p.initMutex.None?
    ensures Nearer(p, WorkerStep(p, i, Succeeds))
  {
    if !p.workers[i].AtExit? {
      WorkerMovesOn(p, i);
      RankUpdate(p.workers, i, WorkerStep(p, i, Succeeds).workers[i]);
    }
  }

  lemma {:induction false} HolderComesNearer(p: Pool)
    requires Inv(p) && !p.exited && p.limit > 0 && MainHolds(p.main)
    ensures Nearer(p, MainStep(p, Succeeds))
  {
    var _ := RankZero(p.workers);
    CountZero(p.workers);
  }

  lemma {:induction false} MainComesNearer(p: Pool)
    requires Inv(p) && !p.exited && p.counterMutex.None? && AllEnded(p.workers) && !p.main.Done?
    ensures Nearer(p, MainStep(p, Succeeds))
  {
    var _ := RankZero(p.workers);
  }

  /** In every state some step leads nearer to the end. */
  lemma {:induction false} SomeStepComesNearer(p: Pool) returns (move: Move)
    requires Inv(p) && !p.exited && !p.main.Done? && p.limit > 0
    ensures Nearer(p, Step(p, move))
  {
    if p.counterMutex == Some(MainThread) {
      HolderComesNearer(p);
      move := Move(MainThread, Succeeds);
    } else if p.counterMutex.Some? {
      var i := p.counterMutex.value.index;
      assert Owns(p, i);
      WorkerComesNearer(p, i);
      move := Move(WorkerThread(i), Succeeds);
    } else {
      var i := RankZero(p.workers);
      if WorkersRank(p.workers) == 0 {
        MainComesNearer(p);
        move := Move(MainThread, Succeeds);
      } else {
        var j := if p.workers[i].AtInitLock? && p.initMutex.Some? then p.initMutex.value.index else i;
        assert Owns(p, i) && Owns(p, j);
        WorkerComesNearer(p, j);
        move := Move(WorkerThread(j), Succeeds);
      }
    }
  }

  lemma {:induction false} StepKeeps(p: Pool, move: Move)
    requires Inv(p)
    ensures Inv(Step(p, move))
  {
    if !p.exited {
      if move.thread.MainThread? {
        MainKeeps(p, move.answer);
      } else if move.thread.index < |p.workers| {
        WorkerKeeps(p, move.thread.index, move.answer);
      }
    }
  }

  lemma {:induction false} RunCons(p: Pool, move: Move, moves: seq<Move>)
    ensures Run(p, [move] + moves) == Run(Step(p, move), moves)
  {
    var all, n := [move] + moves, |moves|;
    if n == 0 {
      assert all[..0] == [] && Run(p, all[..0]) == p;
    } else {
      RunCons(p, move, moves[..n - 1]);
      assert all[..n] == [move] + moves[..n - 1];
    }
  }

  lemma {:induction false} FinishFrom(p: Pool) returns (moves: seq<Move>)
    requires Inv(p) && p.limit > 0
    ensures Run(p, moves).exited || Run(p, moves).main.Done?
    decreases !p.exited, TablesLeft(p), WorkersRank(p.workers), Rank(p)
  {
    if p.exited || p.main.Done? {
      moves := [];
    } else {
      var move := SomeStepComesNearer(p);
      StepKeeps(p, move);
      StepLimit(p, move);
      var rest := FinishFrom(Step(p, move));
      RunCons(p, move, rest);
      moves := [move] + rest;
    }
  }

  lemma {:induction false} RunConcat(p: Pool, a: seq<Move>, b: seq<Move>)
    ensures Run(p, a + b) == Run(Run(p, a), b)
  {
    if b == [] {
      assert a + b == a;
    } else {
      var n := |b| - 1;
      assert (a + b)[..|a + b| - 1] == a + b[..n];
      RunConcat(p, a, b[..n]);
    }
  }

  /** With at least one thread allowed, every run can be continued until the program or the process ends. */
  lemma {:induction false} CanAlwaysFinish(limit: nat, tables: nat, moves: seq<Move>) returns (more: seq<Move>)
    requires limit > 0
    ensures var p := Run(Begin(limit, tables), moves + more); p.exited || p.main.Done?
  {
    RunKeeps(limit, tables, moves);
    LimitStays(limit, tables, moves);
    more := FinishFrom(Run(Begin(limit, tables), moves));
    RunConcat(Begin(limit, tables), moves, more);
  }

  /** Without one, main waits for ever before the first table: no worker is ever started. */
  lemma {:induction false} NoThreadNoProgress(tables: nat, moves: seq<Move>)
    requires tables > 0
    ensures var p := Run(Begin(0, tables), moves);
            p.workers == [] && !p.exited && p.counter == 0 && (p.main.AtLock? || p.main.AtTest? || p.main.AtWait?)
  {
    if moves != [] {
      NoThreadNoProgress(tables, moves[..|moves| - 1]);
      LimitStays(0, tables, moves[..|moves| - 1]);
    }
  }
}
