/** `mysqlbinlog` (client/mysqlbinlog.cc): what one event does to the state of the replayer. */
module Binlog {
  import opened Text

  /** An event object is known by its identity; the rest is what the code looks at. */
  datatype Kind =
    | Query(db: Option<string>, transKeyword: bool)
    | CreateFile(fileId: nat, name: string, db: Option<string>, block: string)
    | AppendBlock(fileId: nat, block: string)
    | ExecLoad(fileId: nat)
    | FormatDescription(version: nat, inUse: bool)
    | BeginLoad(fileId: nat, block: string)
    | ExecuteLoadQuery(fileId: nat, db: Option<string>)
    | Annotate
    | TableMap(tableId: nat, db: Option<string>)
    | Rows(tableId: nat, stmtEnd: bool)
    | Rotate
    | Other

  datatype Event = Event(id: nat, when: nat, serverId: nat, kind: Kind)

  datatype Config = Config(
    database: Option<string>, skipAnnotate: bool, forceIfOpen: bool,
    serverId: nat, stopTime: nat, stopPosition: nat, directory: string)

  datatype Output =
    | Printed(id: nat)
    | PrintedRows(id: nat)
    | PrintedAnnotate(id: nat)
    | LoadData(file: string)

  datatype Status = Continue | Stop | Error

  /** An entry of `file_names` in use: the temporary file and, for a Create_file event, the event. */
  datatype Record = Record(fname: string, event: Option<nat>)

  datatype Description = Description(id: nat, version: nat, inUse: bool)

  datatype State = State(
    recCount: nat, offset: nat, startTime: nat,
    description: Description,
    annotate: Option<nat>,
    ignored: map<nat, nat>,      // m_table_map_ignored: table id to event
    loads: map<nat, Record>,     // file_names
    files: map<string, string>,  // the file system
    live: set<nat>,              // events allocated and not deleted
    faults: set<nat>,            // events deleted or used while not live
    out: seq<Output>)
  {
    function Free(id: nat): State {
      FreeAll({id})
    }

    function FreeAll(ids: set<nat>): State {
      this.(live := live - ids, faults := faults + (ids - live))
    }

    function Print(id: nat): State {
      this.(faults := faults + ({id} - live), out := out + [Printed(id)])
    }

    function PrintRows(id: nat): State {
      this.(faults := faults + ({id} - live), out := out + [PrintedRows(id)])
    }

    /** `free_annotate_event`. */
    function FreeAnnotate(): State {
      FreeAll(OptionSet(annotate)).(annotate := None)
    }

    /** `print_annotate_event`. */
    function PrintAnnotate(): State {
      FreeAnnotate().(out := out + if annotate.Some? then [PrintedAnnotate(annotate.value)] else [])
    }

    /** `clear_tables` of the ignored table maps. */
    function ClearIgnored(): State {
      this.(live := live - ignored.Values, ignored := map[],
            faults := faults + (ignored.Values - live) + Shared(ignored))
    }
  }

  function OptionSet(id: Option<nat>): set<nat> {
    if id.Some? then {id.value} else {}
  }

  /** The events that two table ids share: clearing the table would delete them twice. */
  function Shared(m: map<nat, nat>): set<nat> {
    set i, j | i in m && j in m && i != j && m[i] == m[j] :: m[i]
  }

  lemma {:induction false} FreeNone(s: State)
    ensures s.FreeAll({}) == s
  {
    assert s.live - {} == s.live && {} - s.live == {} && s.faults + {} == s.faults;
  }

  /** `shall_skip_database`. */
  predicate Skips(cfg: Config, db: Option<string>) {
    cfg.database.Some? && db.Some? && db != cfg.database
  }

  function HexDigit(d: nat): char
    requires d < 16
  {
    "0123456789abcdef"[d]
  }

  /** `%x`. */
  function Hex(n: nat): string {
    if n < 16 then [HexDigit(n)] else Hex(n / 16) + [HexDigit(n % 16)]
  }

  const VERSIONS: nat := 1000

  /** `create_unique_file`: the first version from `v` on whose file does not exist. */
  function UniqueName(files: map<string, string>, base: string, v: nat): (r: Option<string>)
    requires v <= VERSIONS
    ensures r.Some? ==> r.value !in files
    decreases VERSIONS - v
  {
    if v == VERSIONS then None
    else if base + "-" + Hex(v) !in files then Some(base + "-" + Hex(v))
    else UniqueName(files, base, v + 1)
  }

  /** `convert_path_to_forward_slashes`. */
  function Forward(fname: string): string {
    seq(|fname|, i requires 0 <= i < |fname| => if fname[i] == '\\' then '/' else fname[i])
  }

  function BaseName(cfg: Config, name: string, fileId: nat): string {
    cfg.directory + name + "-" + Hex(fileId)
  }

  /** `process_first_event`: registers a new temporary file that holds the first block. */
  function FirstEvent(cfg: Config, s: State, name: string, fileId: nat, block: string, event: Option<nat>)
    : (State, Status)
  {
    match UniqueName(s.files, BaseName(cfg, name, fileId), 0)
    case None => (s.FreeAll(OptionSet(event)), Error)
    case Some(fname) =>
      (s.(files := s.files[fname := block], loads := s.loads[fileId := Record(fname, event)]), Continue)
  }

  /** `Load_log_processor::process(Append_block_log_event *)`. */
  function AppendTo(s: State, fileId: nat, block: string): State {
    if fileId in s.loads && s.loads[fileId].fname in s.files then
      var fname := s.loads[fileId].fname;
      s.(files := s.files[fname := s.files[fname] + block])
    else s
  }

  /** `grab_event` and the LOAD DATA it leads to. */
  function Execute(s: State, fileId: nat): State {
    if fileId in s.loads && s.loads[fileId].event.Some? then
      var r := s.loads[fileId];
      var grabbed := s.(loads := s.loads - {fileId});
      grabbed.Free(r.event.value).(out := s.out + [LoadData(Forward(r.fname))])
    else s
  }

  /** `grab_fname` and the LOAD DATA it leads to, unless the database is filtered out. */
  function ExecuteQuery(cfg: Config, s: State, fileId: nat, db: Option<string>): State {
    if fileId in s.loads && s.loads[fileId].event.None? then
      var r := s.loads[fileId];
      var grabbed := s.(loads := s.loads - {fileId});
      if Skips(cfg, db) then grabbed else grabbed.(out := s.out + [LoadData(Forward(r.fname))])
    else s
  }

  function IgnoreMap(s: State, tableId: nat, id: nat): State {
    s.FreeAll(if tableId in s.ignored then {s.ignored[tableId]} else {}).(ignored := s.ignored[tableId := id])
  }

  function RowEvent(s: State, tableId: nat, stmtEnd: bool, id: nat): State {
    var skip := tableId in s.ignored;
    var ended := if stmtEnd then s.ClearIgnored().FreeAnnotate() else s;
    if skip then ended else ended.PrintRows(id)
  }

  predicate RowKind(kind: Kind) {
    kind.Annotate? || kind.TableMap? || kind.Rows?
  }

  predicate LoadKind(kind: Kind) {
    kind.CreateFile? || kind.AppendBlock? || kind.ExecLoad? || kind.BeginLoad? || kind.ExecuteLoadQuery?
  }

  /** The cases of the switch for LOAD DATA. */
  function ProcessLoad(cfg: Config, s: State, ev: Event): (State, Status, bool)
    requires LoadKind(ev.kind)
  {
    match ev.kind
    case CreateFile(fileId, name, db, block) =>
      if Skips(cfg, db) then (s, Continue, false)
      else if s.description.version < 3 then (s.Print(ev.id), Continue, false)
      else
        var (after, status) := FirstEvent(cfg, s.Print(ev.id), name, fileId, block, Some(ev.id));
        (after, status, true)
    case AppendBlock(fileId, block) => (AppendTo(s.Print(ev.id), fileId, block), Continue, false)
    case ExecLoad(fileId) => (Execute(s.Print(ev.id), fileId), Continue, false)
    case BeginLoad(fileId, block) =>
      var (after, status) := FirstEvent(cfg, s.Print(ev.id), "SQL_LOAD_MB", fileId, block, None);
      (after, status, false)
    case ExecuteLoadQuery(fileId, db) => (ExecuteQuery(cfg, s, fileId, db), Continue, false)
  }

  /** The cases of the switch for row events. */
  function ProcessRow(cfg: Config, s: State, ev: Event): (State, bool)
    requires RowKind(ev.kind)
  {
    match ev.kind
    case Annotate => if cfg.skipAnnotate then (s, false) else (s.FreeAnnotate().(annotate := Some(ev.id)), true)
    case TableMap(tableId, db) =>
      if Skips(cfg, db) then (IgnoreMap(s, tableId, ev.id), true) else (s.PrintAnnotate().Print(ev.id), false)
    case Rows(tableId, stmtEnd) => (RowEvent(s, tableId, stmtEnd, ev.id), false)
  }

  /** The other cases of the switch. */
  function ProcessPlain(cfg: Config, s: State, ev: Event): (State, Status, bool)
    requires !LoadKind(ev.kind) && !RowKind(ev.kind)
  {
    match ev.kind
    case Query(db, trans) => (if !trans && Skips(cfg, db) then s else s.Print(ev.id), Continue, false)
    case FormatDescription(version, inUse) =>
      (s.Free(s.description.id).(description := Description(ev.id, version, inUse)).Print(ev.id),
       if !cfg.forceIfOpen && inUse then Error else Continue, true)
    case Rotate => (s.Print(ev.id), Continue, false)
    case Other => (s.Print(ev.id), Continue, false)
  }

  /** The switch of `process_event`: the new state, the status, and whether the event has a new owner. */
  function Process(cfg: Config, s: State, ev: Event): (State, Status, bool) {
    if LoadKind(ev.kind) then ProcessLoad(cfg, s, ev)
    else if RowKind(ev.kind) then
      var (after, kept) := ProcessRow(cfg, s, ev);
      (after, Continue, kept)
    else ProcessPlain(cfg, s, ev)
  }

  lemma {:induction false} RowsFrame(cfg: Config, s: State, ev: Event)
    requires RowKind(ev.kind)
    ensures ProcessRow(cfg, s, ev).0.loads == s.loads && ProcessRow(cfg, s, ev).0.files == s.files
  {
  }

  /** Only the events of LOAD DATA change the load table and the files. */
  lemma {:induction false} LoadsFrame(cfg: Config, s: State, ev: Event)
    requires !LoadKind(ev.kind)
    ensures Process(cfg, s, ev).0.loads == s.loads && Process(cfg, s, ev).0.files == s.files
  {
    if RowKind(ev.kind) {
      RowsFrame(cfg, s, ev);
    } else {
      assert ProcessPlain(cfg, s, ev).0.loads == s.loads && ProcessPlain(cfg, s, ev).0.files == s.files;
    }
  }

  datatype Verdict = Skip | Halt | Take

  /** The window: --offset and --start-datetime until they are met once, the server filter, the stop bounds. */
  predicate Started(s: State, ev: Event) {
    (s.recCount >= s.offset && ev.when >= s.startTime) || ev.kind.FormatDescription?
  }

  predicate OtherServer(cfg: Config, ev: Event) {
    !ev.kind.FormatDescription? && !ev.kind.Rotate? && cfg.serverId != 0 && cfg.serverId != ev.serverId
  }

  predicate PastEnd(cfg: Config, ev: Event, pos: nat) {
    ev.when >= cfg.stopTime || pos >= cfg.stopPosition
  }

  function Decide(cfg: Config, s: State, ev: Event, pos: nat): Verdict {
    if !Started(s, ev) || OtherServer(cfg, ev) then Skip
    else if PastEnd(cfg, ev, pos) then Halt
    else Take
  }

  /** An event that starts the window keeps it open. */
  function Opened(s: State, ev: Event): State {
    if Started(s, ev) && !ev.kind.FormatDescription? then s.(startTime := 0, offset := 0) else s
  }

  /** The end of `process_event`: the event is counted and deleted unless it has a new owner. */
  function Done(s: State, ev: Event, kept: bool): State {
    s.FreeAll(if kept then {} else {ev.id}).(recCount := s.recCount + 1)
  }

  /** An event inside the window. */
  function Taken(cfg: Config, s: State, ev: Event): (State, Status) {
    var (after, status, kept) := Process(cfg, s, ev);
    if status.Error? && ev.kind.FormatDescription? then (after, Error) else (Done(after, ev, kept), status)
  }

  /** `process_event`. */
  function Step(cfg: Config, s: State, ev: Event, pos: nat): (State, Status) {
    match Decide(cfg, s, ev, pos)
    case Skip => (Done(Opened(s, ev), ev, false), Continue)
    case Halt => (Done(Opened(s, ev), ev, false), Stop)
    case Take => Taken(cfg, Opened(s, ev), ev)
  }

  /** `read_log_event`: a new event object. */
  function Read(s: State, ev: Event): State {
    s.(live := s.live + {ev.id})
  }

  datatype Item = Item(event: Event, pos: nat)

  /** The events of one log are read and processed until one stops the program. */
  function Run(cfg: Config, s: State, items: seq<Item>): (State, Status)
    decreases |items|
  {
    if items == [] then (s, Continue)
    else
      var (after, status) := Step(cfg, Read(s, items[0].event), items[0].event, items[0].pos);
      if status.Continue? then Run(cfg, after, items[1..]) else (after, status)
  }

  /** The events that pass the window, in order. */
  function Seen(cfg: Config, s: State, items: seq<Item>): seq<Event>
    decreases |items|
  {
    if items == [] then []
    else
      var begun := Read(s, items[0].event);
      var (after, status) := Step(cfg, begun, items[0].event, items[0].pos);
      (if Decide(cfg, begun, items[0].event, items[0].pos).Take? then [items[0].event] else []) +
      if status.Continue? then Seen(cfg, after, items[1..]) else []
  }

  /** The first event of a run. */
  lemma {:induction false} RunCons(cfg: Config, s: State, items: seq<Item>)
    returns (after: State, status: Status, took: bool)
    requires items != []
    ensures (after, status) == Step(cfg, Read(s, items[0].event), items[0].event, items[0].pos)
    ensures took == Decide(cfg, Read(s, items[0].event), items[0].event, items[0].pos).Take?
    ensures Run(cfg, s, items) == if status.Continue? then Run(cfg, after, items[1..]) else (after, status)
    ensures Seen(cfg, s, items)
         == (if took then [items[0].event] else []) + if status.Continue? then Seen(cfg, after, items[1..]) else []
  {
    var begun := Read(s, items[0].event);
    var r := Step(cfg, begun, items[0].event, items[0].pos);
    after, status := r.0, r.1;
    took := Decide(cfg, begun, items[0].event, items[0].pos).Take?;
  }

  /** A log: the description event made for it by `check_header`, and its events. */
  datatype Log = Log(description: nat, items: seq<Item>)

  /** The state in which the events of a log are read. */
  function Begun(s: State, log: Log): State {
    s.Free(s.description.id).(live := s.live - {s.description.id} + {log.description},
                              description := Description(log.description, 3, false))
  }

  /** `dump_log_entries`: a new description event, the events, and the end of the ignored table maps. */
  function RunLog(cfg: Config, s: State, log: Log): (State, Status) {
    var (after, status) := Run(cfg, Begun(s, log), log.items);
    (after.ClearIgnored(), status)
  }

  const NO_STOP: nat := 0xffff_ffff_ffff_ffff

  /** --stop-position applies to the last log only. */
  function For(cfg: Config, logs: seq<Log>): Config {
    if |logs| <= 1 then cfg else cfg.(stopPosition := NO_STOP)
  }

  function RunLogs(cfg: Config, s: State, logs: seq<Log>): State
    decreases |logs|
  {
    if logs == [] then s
    else
      var (after, status) := RunLog(For(cfg, logs), s, logs[0]);
      if status.Continue? then RunLogs(cfg, after, logs[1..]) else after
  }

  /** The Create_file events that `load_processor` holds. */
  function HeldEvents(loads: map<nat, Record>): set<nat> {
    set k | k in loads && loads[k].event.Some? :: loads[k].event.value
  }

  /** The events that two file ids share. */
  function SharedLoads(loads: map<nat, Record>): set<nat> {
    set i, j | i in loads && j in loads && i != j && loads[i].event.Some? && loads[i].event == loads[j].event ::
      loads[i].event.value
  }

  /** Program end: `cleanup`, `free_annotate_event`, `load_processor.destroy`. */
  function End(s: State): State {
    var freed := s.Free(s.description.id).FreeAnnotate();
    freed.(live := freed.live - HeldEvents(s.loads), loads := map[],
           faults := freed.faults + (HeldEvents(s.loads) - freed.live) + SharedLoads(s.loads))
  }
}
