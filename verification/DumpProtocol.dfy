/**
  The order in which mysqldump locks, flushes, starts its snapshot, names the binary log position, reads the tables
  and purges old logs (`main`, `get_options` and the dump functions of client/mysqldump.c), interleaved with the
  commits and log rotations of other clients.
*/
module DumpProtocol {
  import opened Text

  /** The options that decide about locks, transactions and logs. */
  datatype Options = Options(
    singleTransaction: bool, masterData: bool, slaveData: bool, lockAllTables: bool, lockTables: bool,
    flushLogs: bool, deleteMasterLogs: bool)

  /** The consistency rules at the end of `get_options`; None where it refuses the combination. */
  function Normalize(o: Options): Option<Options> {
    var o1 := if o.slaveData
              then o.(lockAllTables := !o.singleTransaction, masterData := false, deleteMasterLogs := false) else o;
    var o2 := if o1.deleteMasterLogs then o1.(masterData := true) else o1;
    if o2.singleTransaction && o2.lockAllTables then None
    else
      var o3 := if o2.masterData then o2.(lockAllTables := !o2.singleTransaction, slaveData := false) else o2;
      Some(if o3.singleTransaction || o3.lockAllTables then o3.(lockTables := false) else o3)
  }

  /** A place in the binary logs. */
  datatype Position = Position(file: nat, offset: nat)

  /**
    The server: transactions committed so far, for each log file how many were committed before it, and the
    oldest file kept.  Log file f holds the commits from starts[f] on.
  */
  datatype Server = Server(commits: nat, starts: seq<nat>, oldest: nat) {
    predicate Valid() {
      |starts| > 0 && starts[|starts| - 1] <= commits && oldest < |starts|
    }

    function Current(): Position
      requires Valid()
    {
      Position(|starts| - 1, commits - starts[|starts| - 1])
    }

    /** The number of commits in the logs up to a position. */
    function Prefix(p: Position): nat
      requires p.file < |starts|
    {
      starts[p.file] + p.offset
    }

    function Rotate(): Server {
      this.(starts := starts + [commits])
    }
  }

  /** The connection of mysqldump. */
  datatype Connection = Connection(
    readLock: bool,                // FLUSH TABLES WITH READ LOCK
    tableLocks: bool,              // LOCK TABLES
    snapshot: Option<nat>,         // the commits that the open snapshot transaction sees
    snapshotAt: Option<Position>)  // Binlog_snapshot_file and Binlog_snapshot_position

  datatype Statement =
    | FlushTables
    | FlushTablesWithReadLock
    | RefreshLog
    | StartSnapshot
    | LockTables
    | UnlockTables
    | Savepoint
    | RollbackToSavepoint
    | ReleaseSavepoint
    | Select
    | PurgeTo(file: nat)

  /** What the statements do to locks, transaction and logs; a commit by the server ends the snapshot. */
  function Execute(stmt: Statement, server: Server, c: Connection): (r: (Server, Connection))
    requires server.Valid()
    ensures r.0.Valid()
  {
    match stmt
    case FlushTablesWithReadLock => (server, c.(readLock := true))
    case RefreshLog => (server.Rotate(), c.(snapshot := None, snapshotAt := None))
    case StartSnapshot =>
      (server, c.(snapshot := Some(server.commits), snapshotAt := Some(server.Current()), tableLocks := false))
    case LockTables => (server, c.(tableLocks := true, snapshot := None, snapshotAt := None))
    case UnlockTables =>
      (server, if c.tableLocks then c.(readLock := false, tableLocks := false, snapshot := None, snapshotAt := None)
               else c.(readLock := false))
    case PurgeTo(file) =>
      (if server.oldest < file < |server.starts| then server.(oldest := file) else server, c)
    case _ => (server, c)
  }

  /** The state of the database that a SELECT sees: the number of commits in it. */
  function Sees(server: Server, c: Connection): nat {
    if c.snapshot.Some? then c.snapshot.value else server.commits
  }

  /** Where `main` stands. */
  datatype Pc =
    | AtProbe | AtFlushTables | AtReadLock | AtRefresh | AtLogName | AtStart | AtShow | AtUnlock
    | AtDump(todo: seq<Statement>) | AtPurge | Finished

  datatype Dump = Dump(
    o: Options, databases: seq<nat>,  // for each database to dump, its number of tables
    pc: Pc, server: Server, c: Connection,
    supportsSnapshotPosition: bool, consistent: bool,
    flushLogs: bool, logName: Option<nat>, named: Option<Position>, seen: seq<nat>)

  predicate NeedsReadLock(d: Dump) {
    d.o.lockAllTables || (d.o.masterData && !d.consistent) || (d.o.singleTransaction && d.flushLogs)
  }

  function Tables(o: Options, n: nat): seq<Statement> {
    if n == 0 then []
    else [Select] + (if o.singleTransaction then [RollbackToSavepoint] else []) + Tables(o, n - 1)
  }

  /** `dump_all_tables_in_db` and `dump_selected_tables`, with the events and routines of the database. */
  function Database(o: Options, flushLogs: bool, n: nat): seq<Statement> {
    (if o.lockTables then [LockTables] else []) +
    (if flushLogs then [RefreshLog] else []) +
    (if o.singleTransaction then [Savepoint] else []) +
    Tables(o, n) +
    (if o.singleTransaction then [ReleaseSavepoint] else []) +
    (if o.lockTables then [LockTables, UnlockTables, LockTables, UnlockTables, UnlockTables] else [])
  }

  function Databases(o: Options, flushLogs: bool, ns: seq<nat>): seq<Statement> {
    if ns == [] then [] else Database(o, flushLogs, ns[0]) + Databases(o, flushLogs, ns[1..])
  }

  function Perform(d: Dump, stmt: Statement, pc: Pc): (r: Dump)
    requires d.server.Valid()
    ensures r.server.Valid() && r.o == d.o
  {
    var (server, c) := Execute(stmt, d.server, d.c);
    d.(server := server, c := c, pc := pc)
  }

  /** The next step of `main`. */
  function Advance(d: Dump): (r: Dump)
    requires d.server.Valid()
    ensures r.server.Valid() && r.o == d.o
  {
    match d.pc
    case AtProbe =>
      d.(consistent := d.o.singleTransaction && d.o.masterData && d.supportsSnapshotPosition, pc := AtFlushTables)
    case AtFlushTables =>
      if NeedsReadLock(d) then Perform(d, FlushTables, AtReadLock) else d.(pc := AtRefresh)
    case AtReadLock => Perform(d, FlushTablesWithReadLock, AtRefresh)
    case AtRefresh =>
      if d.o.lockAllTables || d.o.masterData || (d.o.singleTransaction && d.flushLogs) || d.o.deleteMasterLogs then
        (if d.flushLogs || d.o.deleteMasterLogs then Perform(d, RefreshLog, AtLogName) else d.(pc := AtLogName))
        .(flushLogs := false)
      else d.(pc := AtLogName)
    case AtLogName =>
      if d.o.deleteMasterLogs then d.(logName := Some(d.server.Current().file), pc := AtStart) else d.(pc := AtStart)
    case AtStart => if d.o.singleTransaction then Perform(d, StartSnapshot, AtShow) else d.(pc := AtShow)
    case AtShow =>
      if !d.o.masterData then d.(pc := AtUnlock)
      else if d.consistent then d.(named := d.c.snapshotAt, pc := AtUnlock)
      else d.(named := Some(d.server.Current()), pc := AtUnlock)
    case AtUnlock =>
      var dump := AtDump(Databases(d.o, d.flushLogs, d.databases));
      if d.o.singleTransaction then Perform(d, UnlockTables, dump) else d.(pc := dump)
    case AtDump(todo) =>
      if todo == [] then d.(pc := AtPurge)
      else
        var next := Perform(d, todo[0], AtDump(todo[1..]));
        if todo[0].Select? then next.(seen := d.seen + [Sees(d.server, d.c)]) else next
    case AtPurge =>
      if d.logName.Some? then Perform(d, PurgeTo(d.logName.value), Finished) else d.(pc := Finished)
    case Finished => d
  }

  /** A move of the whole system: mysqldump, or another client that commits or rotates the log. */
  datatype Move = Mysqldump | Commit | OtherRotate

  /** The global read lock makes other clients wait with their commits. */
  function Apply(d: Dump, move: Move): (r: Dump)
    requires d.server.Valid()
    ensures r.server.Valid() && r.o == d.o
  {
    match move
    case Mysqldump => Advance(d)
    case Commit => if d.c.readLock then d else d.(server := d.server.(commits := d.server.commits + 1))
    case OtherRotate => d.(server := d.server.Rotate())
  }

  function Begin(o: Options, databases: seq<nat>, supports: bool, server: Server): Dump {
    Dump(o, databases, AtProbe, server, Connection(false, false, None, None), supports, false,
         o.flushLogs, None, None, [])
  }

  /** The system after a sequence of moves. */
  function Run(d: Dump, moves: seq<Move>): Dump
    requires d.server.Valid()
    decreases |moves|
  {
    if moves == [] then d
    else Run(Apply(d, moves[0]), moves[1..])
  }

  /** What the option rules guarantee. */
  predicate Coherent(o: Options) {
    && (o.masterData ==> o.lockAllTables == !o.singleTransaction)
    && (o.deleteMasterLogs ==> o.masterData)
    && (o.singleTransaction || o.lockAllTables ==> !o.lockTables)
    && !(o.singleTransaction && o.lockAllTables)
  }

  lemma {:induction false} NormalizeIsCoherent(o: Options)
    requires Normalize(o).Some?
    ensures Coherent(Normalize(o).value)
    ensures o.masterData && !o.slaveData ==> Normalize(o).value.masterData
  {
  }

  /** The dump reads one state: a snapshot, or everything under the global read lock. */
  predicate OneState(o: Options) {
    o.singleTransaction || o.lockAllTables
  }

  predicate Quiet(stmt: Statement) {
    stmt.Savepoint? || stmt.RollbackToSavepoint? || stmt.ReleaseSavepoint? || stmt.Select?
  }

  ghost predicate AllQuiet(stmts: seq<Statement>) {
    forall i :: 0 <= i < |stmts| ==> Quiet(stmts[i])
  }

  ghost predicate LogNamed(d: Dump) {
    (d.logName.Some? <==> d.o.deleteMasterLogs) && (d.logName.Some? ==> d.logName.value < |d.server.starts|)
  }

  /** The position stands for the commits that the reads will see, and for no purged log. */
  ghost predicate Names(d: Dump, p: Position, n: nat) {
    && p.file < |d.server.starts| && d.server.Prefix(p) == n
    && d.server.oldest <= p.file && (d.logName.Some? ==> d.logName.value <= p.file)
  }

  /** The state to be read is fixed. */
  ghost predicate Fixed(d: Dump) {
    && !d.c.tableLocks
    && (d.o.singleTransaction ==> d.c.snapshot.Some?)
    && (d.o.lockAllTables ==> d.c.snapshot.None? && d.c.readLock)
  }

  ghost predicate Ready(d: Dump) {
    && Fixed(d)
    && (d.o.masterData ==> d.named.Some? && Names(d, d.named.value, Sees(d.server, d.c)))
    && (forall i :: 0 <= i < |d.seen| ==> d.seen[i] == Sees(d.server, d.c))
  }

  ghost predicate Untouched(d: Dump) {
    d.c == Connection(false, false, None, None) && d.logName.None?
  }

  ghost predicate Locked(d: Dump) {
    && !d.c.tableLocks && d.c.snapshot.None?
    && (d.o.lockAllTables || (d.o.masterData && !d.consistent) ==> d.c.readLock)
  }

  /** Nothing is printed yet: no position and no row. */
  ghost predicate Silent(d: Dump) {
    d.named.None? && d.seen == []
  }

  /** What holds where `main` stands, whatever the other clients do. */
  ghost predicate Stage(d: Dump) {
    match d.pc
    case AtProbe => Untouched(d) && Silent(d)
    case AtFlushTables => Untouched(d) && Silent(d)
    case AtReadLock => Untouched(d) && NeedsReadLock(d) && Silent(d)
    case AtRefresh => Locked(d) && d.logName.None? && Silent(d)
    case AtLogName => Locked(d) && d.logName.None? && Silent(d) && !d.flushLogs
    case AtStart => Locked(d) && LogNamed(d) && Silent(d) && !d.flushLogs
    case AtShow =>
      && Fixed(d) && LogNamed(d) && Silent(d) && !d.flushLogs
      && (d.o.masterData && !d.consistent ==> d.c.readLock && Sees(d.server, d.c) == d.server.commits)
      && (d.consistent ==> d.c.snapshotAt.Some? && Names(d, d.c.snapshotAt.value, Sees(d.server, d.c)))
    case AtUnlock => Ready(d) && LogNamed(d) && d.seen == [] && !d.flushLogs
    case AtDump(todo) => Ready(d) && LogNamed(d) && AllQuiet(todo)
    case AtPurge => Ready(d) && LogNamed(d)
    case Finished => Ready(d) && LogNamed(d)
  }

  ghost predicate Inv(d: Dump) {
    && d.server.Valid() && Coherent(d.o) && OneState(d.o)
    && (d.consistent ==> d.o.singleTransaction && d.o.masterData)
    && Stage(d)
  }

  lemma {:induction false} TablesAreQuiet(o: Options, n: nat)
    ensures AllQuiet(Tables(o, n))
  {
    if n > 0 { TablesAreQuiet(o, n - 1); }
  }

  lemma {:induction false} DatabaseIsQuiet(o: Options, n: nat)
    requires !o.lockTables
    ensures AllQuiet(Database(o, false, n))
  {
    TablesAreQuiet(o, n);
  }

  lemma {:induction false} DatabasesAreQuiet(o: Options, ns: seq<nat>)
    requires !o.lockTables
    ensures AllQuiet(Databases(o, false, ns))
  {
    if ns != [] {
      DatabaseIsQuiet(o, ns[0]);
      DatabasesAreQuiet(o, ns[1..]);
    }
  }

  /** Another client's commit changes nothing that the dump relies on. */
  lemma {:induction false} CommitKeeps(d: Dump)
    requires Inv(d)
    ensures Inv(Apply(d, Commit))
  {
  }

  lemma {:induction false} RotateKeeps(d: Dump)
    requires Inv(d)
    ensures Inv(Apply(d, OtherRotate))
  {
  }

  lemma {:induction false} SetupKeeps(d: Dump)
    requires Inv(d) && (d.pc.AtProbe? || d.pc.AtFlushTables? || d.pc.AtReadLock? || d.pc.AtRefresh? || d.pc.AtLogName?)
    ensures Inv(Advance(d))
  {
  }

  lemma {:induction false} StartKeeps(d: Dump)
    requires Inv(d) && (d.pc.AtStart? || d.pc.AtShow?)
    ensures Inv(Advance(d))
  {
  }

  lemma {:induction false} UnlockKeeps(d: Dump)
    requires Inv(d) && d.pc.AtUnlock?
    ensures Inv(Advance(d))
  {
    DatabasesAreQuiet(d.o, d.databases);
  }

  lemma {:induction false} ReadKeeps(d: Dump)
    requires Inv(d) && d.pc.AtDump? && d.pc.todo != []
    ensures Inv(Advance(d))
  {
    assert Quiet(d.pc.todo[0]);
    assert Execute(d.pc.todo[0], d.server, d.c) == (d.server, d.c);
    assert AllQuiet(d.pc.todo[1..]);
  }

  lemma {:induction false} PurgeKeeps(d: Dump)
    requires Inv(d) && d.pc.AtPurge?
    ensures Inv(Advance(d))
  {
  }

  /** Every step of `main` keeps what the dump relies on. */
  lemma {:induction false} AdvanceKeeps(d: Dump)
    requires Inv(d)
    ensures Inv(Advance(d))
  {
    match d.pc {
      case AtStart => StartKeeps(d);
      case AtShow => StartKeeps(d);
      case AtUnlock => UnlockKeeps(d);
      case AtDump(todo) => if todo != [] { ReadKeeps(d); }
      case AtPurge => PurgeKeeps(d);
      case Finished =>
      case _ => SetupKeeps(d);
    }
  }

  lemma {:induction false} RunKeeps(d: Dump, moves: seq<Move>)
    requires Inv(d)
    ensures Inv(Run(d, moves))
    decreases |moves|
  {
    if moves != [] {
      match moves[0] {
        case Mysqldump => AdvanceKeeps(d);
        case Commit => CommitKeeps(d);
        case OtherRotate => RotateKeeps(d);
      }
      RunKeeps(Apply(d, moves[0]), moves[1..]);
    }
  }

  /**
    In every interleaving with other clients, from any server: a dump with a master position has read, at every
    moment, exactly the state after the commits that the named position stands for, the named log file is still
    kept, and no statement has ended the snapshot.
  */
  lemma {:induction false} MasterDataIsExact(given: Options, databases: seq<nat>, supports: bool, server: Server,
                                             moves: seq<Move>)
    requires server.Valid() && Normalize(given).Some? && Normalize(given).value.masterData
    ensures var d := Run(Begin(Normalize(given).value, databases, supports, server), moves);
            && (d.seen != [] ==> d.named.Some?)
            && (d.pc.Finished? ==> d.named.Some?)
            && (d.named.Some? ==>
                  && d.named.value.file < |d.server.starts|
                  && (forall i :: 0 <= i < |d.seen| ==> d.seen[i] == d.server.Prefix(d.named.value))
                  && d.server.oldest <= d.named.value.file)
            && (d.o.singleTransaction && (d.pc.AtDump? || d.pc.AtPurge? || d.pc.Finished?) ==> d.c.snapshot.Some?)
  {
    NormalizeIsCoherent(given);
    var o := Normalize(given).value;
    var d := Begin(o, databases, supports, server);
    RunKeeps(d, moves);
    RunOptions(d, moves);
  }

  lemma {:induction false} RunOptions(d: Dump, moves: seq<Move>)
    requires d.server.Valid()
    ensures Run(d, moves).o == d.o
    decreases |moves|
  {
    if moves != [] { RunOptions(Apply(d, moves[0]), moves[1..]); }
  }

  ghost predicate Uniform(seen: seq<nat>) {
    forall i, j :: 0 <= i < |seen| && 0 <= j < |seen| ==> seen[i] == seen[j]
  }

  lemma {:induction false} RunConcat(d: Dump, a: seq<Move>, b: seq<Move>)
    requires d.server.Valid()
    ensures Run(d, a).server.Valid() && Run(d, a + b) == Run(Run(d, a), b)
    decreases |a|
  {
    if a == [] {
      assert a + b == b;
    } else {
      assert (a + b)[1..] == a[1..] + b;
      RunConcat(Apply(d, a[0]), a[1..], b);
    }
  }

  /** The statements around the reads of a dump that locks one database after the other. */
  predicate Around(stmt: Statement) {
    stmt.LockTables? || stmt.UnlockTables? || stmt.RefreshLog?
  }

  /** Without a snapshot, a dump that is left alone comes to its next SELECT, which sees the commits so far. */
  lemma {:induction false} ReachSelect(d: Dump, before: seq<Statement>, rest: seq<Statement>) returns (moves: seq<Move>)
    requires d.server.Valid() && d.pc == AtDump(before + [Select] + rest) && d.c.snapshot.None? && !d.c.readLock
    requires forall i :: 0 <= i < |before| ==> Around(before[i])
    ensures var e := Run(d, moves);
            && e.server.Valid() && e.pc == AtDump(rest) && e.c.snapshot.None? && !e.c.readLock
            && e.seen == d.seen + [d.server.commits] && e.server.commits == d.server.commits
    decreases |before|
  {
    var todo := before + [Select] + rest;
    var next := Advance(d);
    if before == [] {
      assert todo[1..] == rest;
      assert Run(next, []) == next;
      moves := [Mysqldump];
    } else {
      assert Around(before[0]);
      assert todo[1..] == before[1..] + [Select] + rest;
      var others := ReachSelect(next, before[1..], rest);
      moves := [Mysqldump] + others;
      assert moves[1..] == others;
    }
  }

  /** Where neither holds, `main` comes to the reads without a snapshot or a global lock. */
  lemma {:induction false} ReachDump(d: Dump, n: nat) returns (moves: seq<Move>)
    requires d.server.Valid() && Coherent(d.o) && !OneState(d.o) && Silent(d) && d.c.snapshot.None? && !d.c.readLock
    requires n == match d.pc { case AtProbe => 6 case AtFlushTables => 5 case AtRefresh => 4 case AtLogName => 3
                               case AtStart => 2 case AtShow => 1 case AtUnlock => 0 case _ => 7 }
    requires n < 7
    ensures var e := Run(d, moves);
            && e.server.Valid() && e.c.snapshot.None? && !e.c.readLock && e.seen == []
            && e.pc == AtDump(Databases(d.o, d.flushLogs, d.databases))
    decreases n
  {
    var next := Advance(d);
    if n == 0 {
      assert Run(next, []) == next;
      moves := [Mysqldump];
    } else {
      var others := ReachDump(next, n - 1);
      moves := [Mysqldump] + others;
      assert moves[1..] == others;
    }
  }

  lemma {:induction false} TwoDatabases(o: Options, flushLogs: bool) returns (before: seq<Statement>, after: seq<Statement>)
    requires !o.singleTransaction
    ensures Databases(o, flushLogs, [1, 1]) == before + [Select] + (after + before + [Select] + after)
    ensures forall i :: 0 <= i < |before| ==> Around(before[i])
    ensures forall i :: 0 <= i < |after| ==> Around(after[i])
  {
    before := (if o.lockTables then [LockTables] else []) + (if flushLogs then [RefreshLog] else []);
    after := if o.lockTables then [LockTables, UnlockTables, LockTables, UnlockTables, UnlockTables] else [];
    OneDatabase(o, flushLogs, before, after);
    var one := Database(o, flushLogs, 1);
    assert [1, 1][1..] == [1];
    assert Databases(o, flushLogs, [1]) == one + [];
    assert Databases(o, flushLogs, [1, 1]) == one + one;
  }

  lemma {:induction false} OneDatabase(o: Options, flushLogs: bool, before: seq<Statement>, after: seq<Statement>)
    requires !o.singleTransaction
    requires before == (if o.lockTables then [LockTables] else []) + (if flushLogs then [RefreshLog] else [])
    requires after == if o.lockTables then [LockTables, UnlockTables, LockTables, UnlockTables, UnlockTables] else []
    ensures Database(o, flushLogs, 1) == before + [Select] + after
  {
    assert Tables(o, 1) == [Select];
  }

  /** A dump that locks at most one database at a time can read two states: a commit between two of them. */
  lemma {:induction false} TwoStatesAreRead(o: Options, supports: bool, server: Server) returns (moves: seq<Move>)
    requires server.Valid() && Coherent(o) && !OneState(o)
    ensures !Uniform(Run(Begin(o, [1, 1], supports, server), moves).seen)
  {
    var d := Begin(o, [1, 1], supports, server);
    var start := ReachDump(d, 6);
    var before, after := TwoDatabases(o, o.flushLogs);
    var e := Run(d, start);
    var first := ReachSelect(e, before, after + before + [Select] + after);
    var f := Run(e, first);
    var g := Apply(f, Commit);
    assert Run(f, [Commit]) == g;
    var second := ReachSelect(g, after + before, after);
    RunConcat(d, start, first);
    RunConcat(d, start + first, [Commit]);
    RunConcat(d, start + first + [Commit], second);
    moves := start + first + [Commit] + second;
    var seen := Run(d, moves).seen;
    assert seen[0] != seen[1];
  }

  /**
    Over every choice of databases and every interleaving, the dump reads one state of all tables if and only if
    it runs in one transaction or under the global read lock.
  */
  lemma {:induction false} OneStateIsReadIff(o: Options, supports: bool, server: Server)
    requires server.Valid() && Coherent(o)
    ensures OneState(o) <==>
            forall databases, moves :: Uniform(Run(Begin(o, databases, supports, server), moves).seen)
  {
    if OneState(o) {
      forall databases, moves ensures Uniform(Run(Begin(o, databases, supports, server), moves).seen) {
        RunKeeps(Begin(o, databases, supports, server), moves);
      }
    } else {
      var moves := TwoStatesAreRead(o, supports, server);
    }
  }
}
