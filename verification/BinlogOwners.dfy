/** Who owns the event objects of `mysqlbinlog`: no event is deleted twice or used after it was deleted. */
module BinlogOwners {
  import opened Text
  import opened Binlog

  /** Every owner but the current call. */
  function Owned(s: State): set<nat> {
    {s.description.id} + OptionSet(s.annotate) + s.ignored.Values + HeldEvents(s.loads)
  }

  /** Each event is owned in one place. */
  ghost predicate OneOwner(s: State) {
    && {s.description.id} !! OptionSet(s.annotate) !! s.ignored.Values !! HeldEvents(s.loads)
    && Shared(s.ignored) == {} && SharedLoads(s.loads) == {}
  }

  /** The live events are the owned ones, those of the current call, and those nobody owns any more. */
  ghost predicate Tidy(s: State, call: set<nat>, leaked: set<nat>) {
    && s.faults == {} && OneOwner(s)
    && s.live == Owned(s) + call + leaked
    && Owned(s) !! call !! leaked
  }

  /** The event that a new Begin or Create event pushes out of the load table. */
  function PushedOut(cfg: Config, s: State, ev: Event): set<nat> {
    var opens := ev.kind.BeginLoad? ||
                 (ev.kind.CreateFile? && !Skips(cfg, ev.kind.db) && s.description.version >= 3);
    if opens && ev.kind.fileId in s.loads &&
       UniqueName(s.files, BaseName(cfg, OpenName(ev.kind), ev.kind.fileId), 0).Some? then
      OptionSet(s.loads[ev.kind.fileId].event)
    else {}
  }

  function OpenName(kind: Kind): string {
    if kind.CreateFile? then kind.name else "SQL_LOAD_MB"
  }

  function Leak(cfg: Config, s: State, ev: Event, pos: nat): set<nat> {
    if Decide(cfg, s, ev, pos).Take? then PushedOut(cfg, Opened(s, ev), ev) else {}
  }

  lemma {:induction false} ValuesUpdated(m: map<nat, nat>, k: nat, v: nat)
    requires Shared(m) == {} && v !in m.Values
    ensures m[k := v].Values == m.Values - (if k in m then {m[k]} else {}) + {v}
    ensures Shared(m[k := v]) == {}
  {
    var m' := m[k := v];
    assert m'[k] == v;
    forall x | x in m.Values && (k in m ==> x != m[k])
      ensures x in m'.Values
    {
      var i :| i in m && m[i] == x;
      assert m'[i] == x;
    }
  }

  lemma {:induction false} HeldUpdated(loads: map<nat, Record>, k: nat, r: Record)
    requires SharedLoads(loads) == {} && (r.event.Some? ==> r.event.value !in HeldEvents(loads))
    ensures HeldEvents(loads[k := r])
         == HeldEvents(loads) - (if k in loads then OptionSet(loads[k].event) else {}) + OptionSet(r.event)
    ensures SharedLoads(loads[k := r]) == {}
  {
    var loads' := loads[k := r];
    assert loads'[k] == r;
    forall x | x in HeldEvents(loads) && (k in loads ==> Some(x) != loads[k].event)
      ensures x in HeldEvents(loads')
    {
      var i :| i in loads && loads[i].event == Some(x);
      assert loads'[i].event == Some(x);
    }
    forall x | x in HeldEvents(loads') && Some(x) != r.event
      ensures x in HeldEvents(loads) && (k in loads ==> Some(x) != loads[k].event)
    {
      var i :| i in loads' && loads'[i].event == Some(x);
      assert i != k && loads[i].event == Some(x);
      assert k in loads && loads[k].event == Some(x) ==> x in SharedLoads(loads);
    }
    forall i, j | i in loads' && j in loads' && i != j && loads'[i].event.Some?
      ensures loads'[i].event != loads'[j].event
    {
      var x := loads'[i].event.value;
      assert loads'[j].event == Some(x) && i != k && j != k ==> x in SharedLoads(loads);
      assert i != k ==> loads'[i] == loads[i] && loads[i].event.value in HeldEvents(loads);
      assert j != k ==> loads'[j] == loads[j] && (loads[j].event.Some? ==> loads[j].event.value in HeldEvents(loads));
    }
  }

  lemma {:induction false} HeldRemoved(loads: map<nat, Record>, k: nat)
    requires SharedLoads(loads) == {} && k in loads
    ensures HeldEvents(loads - {k}) == HeldEvents(loads) - OptionSet(loads[k].event)
    ensures SharedLoads(loads - {k}) == {}
  {
    var loads' := loads - {k};
    forall x | x in HeldEvents(loads) && Some(x) != loads[k].event
      ensures x in HeldEvents(loads')
    {
      var i :| i in loads && loads[i].event == Some(x);
      assert i in loads' && loads'[i].event == Some(x);
    }
    forall x | x in HeldEvents(loads')
      ensures x in HeldEvents(loads) && Some(x) != loads[k].event
    {
      var i :| i in loads' && loads'[i].event == Some(x);
      assert loads[i].event == Some(x) && i != k;
      assert loads[k].event == Some(x) ==> x in SharedLoads(loads);
    }
  }

  lemma {:induction false} PrintTidy(s: State, id: nat, call: set<nat>, leaked: set<nat>)
    requires Tidy(s, call, leaked) && id in s.live
    ensures Tidy(s.Print(id), call, leaked) && Tidy(s.PrintRows(id), call, leaked)
  {
  }

  lemma {:induction false} FreeAnnotateTidy(s: State, call: set<nat>, leaked: set<nat>)
    requires Tidy(s, call, leaked)
    ensures Tidy(s.FreeAnnotate(), call, leaked) && Tidy(s.PrintAnnotate(), call, leaked)
  {
  }

  lemma {:induction false} ClearIgnoredTidy(s: State, call: set<nat>, leaked: set<nat>)
    requires Tidy(s, call, leaked)
    ensures Tidy(s.ClearIgnored(), call, leaked)
  {
    assert s.ClearIgnored().ignored.Values == {};
  }

  lemma {:induction false} FirstEventTidy(cfg: Config, s: State, name: string, fileId: nat, block: string,
                                          event: Option<nat>, call: set<nat>, leaked: set<nat>)
    requires Tidy(s, call + OptionSet(event), leaked) && call !! OptionSet(event)
    ensures var (after, status) := FirstEvent(cfg, s, name, fileId, block, event);
            var pushed := if status.Continue? && fileId in s.loads then OptionSet(s.loads[fileId].event) else {};
            Tidy(after, call, leaked + pushed)
  {
    var found := UniqueName(s.files, BaseName(cfg, name, fileId), 0);
    if found.Some? {
      HeldUpdated(s.loads, fileId, Record(found.value, event));
      if fileId in s.loads && s.loads[fileId].event.Some? {
        assert s.loads[fileId].event.value in HeldEvents(s.loads);
      }
    }
  }

  lemma {:induction false} ExecuteTidy(cfg: Config, s: State, fileId: nat, db: Option<string>,
                                       call: set<nat>, leaked: set<nat>)
    requires Tidy(s, call, leaked)
    ensures Tidy(Execute(s, fileId), call, leaked) && Tidy(ExecuteQuery(cfg, s, fileId, db), call, leaked)
  {
    if fileId in s.loads {
      HeldRemoved(s.loads, fileId);
      if s.loads[fileId].event.Some? {
        assert s.loads[fileId].event.value in HeldEvents(s.loads);
      }
    }
  }

  lemma {:induction false} IgnoreMapTidy(s: State, tableId: nat, id: nat, leaked: set<nat>)
    requires Tidy(s, {id}, leaked)
    ensures Tidy(IgnoreMap(s, tableId, id), {}, leaked)
  {
    ValuesUpdated(s.ignored, tableId, id);
    if tableId in s.ignored {
      assert s.ignored[tableId] in s.ignored.Values;
    }
  }

  lemma {:induction false} RowEventTidy(s: State, tableId: nat, stmtEnd: bool, id: nat, leaked: set<nat>)
    requires Tidy(s, {id}, leaked)
    ensures Tidy(RowEvent(s, tableId, stmtEnd, id), {id}, leaked)
  {
    if stmtEnd {
      ClearIgnoredTidy(s, {id}, leaked);
      FreeAnnotateTidy(s.ClearIgnored(), {id}, leaked);
    }
  }

  /** What the switch of `process_event` is to keep. */
  ghost predicate KeepsOwners(cfg: Config, s: State, ev: Event, leaked: set<nat>) {
    var (after, _, kept) := Process(cfg, s, ev);
    Tidy(after, if kept then {} else {ev.id}, leaked + PushedOut(cfg, s, ev))
  }

  lemma {:induction false} OpenTidy(cfg: Config, s: State, ev: Event, leaked: set<nat>)
    requires Tidy(s, {ev.id}, leaked) && (ev.kind.CreateFile? || ev.kind.BeginLoad?)
    ensures KeepsOwners(cfg, s, ev, leaked)
  {
    assert leaked + {} == leaked;
    PrintTidy(s, ev.id, {ev.id}, leaked);
    if ev.kind.CreateFile? {
      assert {} + OptionSet(Some(ev.id)) == {ev.id};
      FirstEventTidy(cfg, s.Print(ev.id), ev.kind.name, ev.kind.fileId, ev.kind.block, Some(ev.id), {}, leaked);
    } else {
      assert {ev.id} + OptionSet(None) == {ev.id};
      FirstEventTidy(cfg, s.Print(ev.id), "SQL_LOAD_MB", ev.kind.fileId, ev.kind.block, None, {ev.id}, leaked);
    }
  }

  lemma {:induction false} RowTidy(cfg: Config, s: State, ev: Event, leaked: set<nat>)
    requires Tidy(s, {ev.id}, leaked) && (ev.kind.Annotate? || ev.kind.TableMap? || ev.kind.Rows?)
    ensures KeepsOwners(cfg, s, ev, leaked)
  {
    assert leaked + {} == leaked;
    match ev.kind {
      case Annotate => FreeAnnotateTidy(s, {ev.id}, leaked);
      case TableMap(tableId, db) =>
        if Skips(cfg, db) {
          IgnoreMapTidy(s, tableId, ev.id, leaked);
        } else {
          FreeAnnotateTidy(s, {ev.id}, leaked);
          PrintTidy(s.PrintAnnotate(), ev.id, {ev.id}, leaked);
        }
      case Rows(tableId, stmtEnd) => RowEventTidy(s, tableId, stmtEnd, ev.id, leaked);
    }
  }

  /** The switch of `process_event` keeps one owner for every event. */
  lemma {:induction false} ProcessTidy(cfg: Config, s: State, ev: Event, leaked: set<nat>)
    requires Tidy(s, {ev.id}, leaked)
    ensures KeepsOwners(cfg, s, ev, leaked)
  {
    if ev.kind.CreateFile? || ev.kind.BeginLoad? {
      OpenTidy(cfg, s, ev, leaked);
    } else if ev.kind.Annotate? || ev.kind.TableMap? || ev.kind.Rows? {
      RowTidy(cfg, s, ev, leaked);
    } else {
      assert leaked + {} == leaked;
      PrintTidy(s, ev.id, {ev.id}, leaked);
      if ev.kind.ExecLoad? {
        ExecuteTidy(cfg, s.Print(ev.id), ev.kind.fileId, None, {ev.id}, leaked);
      } else if ev.kind.ExecuteLoadQuery? {
        ExecuteTidy(cfg, s, ev.kind.fileId, ev.kind.db, {ev.id}, leaked);
      }
    }
  }

  lemma {:induction false} DoneTidy(s: State, ev: Event, kept: bool, leaked: set<nat>)
    requires Tidy(s, if kept then {} else {ev.id}, leaked)
    ensures Tidy(Done(s, ev, kept), {}, leaked)
  {
  }

  lemma {:induction false} TakeTidy(cfg: Config, s: State, ev: Event, pos: nat, leaked: set<nat>)
    requires Tidy(Opened(s, ev), {ev.id}, leaked) && Decide(cfg, s, ev, pos).Take?
    ensures Tidy(Step(cfg, s, ev, pos).0, {}, leaked + PushedOut(cfg, Opened(s, ev), ev))
  {
    ProcessTidy(cfg, Opened(s, ev), ev, leaked);
    var (after, status, kept) := Process(cfg, Opened(s, ev), ev);
    assert ev.kind.FormatDescription? ==> kept;
    DoneTidy(after, ev, kept, leaked + PushedOut(cfg, Opened(s, ev), ev));
  }

  /** One event: read, processed, and owned or deleted. */
  lemma {:induction false} StepTidy(cfg: Config, s: State, ev: Event, pos: nat, leaked: set<nat>)
    requires Tidy(s, {ev.id}, leaked)
    ensures Tidy(Step(cfg, s, ev, pos).0, {}, leaked + Leak(cfg, s, ev, pos))
  {
    assert Tidy(Opened(s, ev), {ev.id}, leaked);
    if Decide(cfg, s, ev, pos).Take? {
      TakeTidy(cfg, s, ev, pos, leaked);
    } else {
      DoneTidy(Opened(s, ev), ev, false, leaked);
      assert leaked + {} == leaked;
    }
  }

  /** A new event object never has the address of a live one. */
  ghost predicate FreshReads(cfg: Config, s: State, items: seq<Item>)
    decreases |items|
  {
    items == [] ||
    (&& items[0].event.id !in s.live
     && var (after, status) := Step(cfg, Read(s, items[0].event), items[0].event, items[0].pos);
     (status.Continue? ==> FreshReads(cfg, after, items[1..])))
  }

  /** Everything that a run leaves without an owner. */
  function Leaks(cfg: Config, s: State, items: seq<Item>): set<nat>
    decreases |items|
  {
    if items == [] then {}
    else
      var ev, pos := items[0].event, items[0].pos;
      var (after, status) := Step(cfg, Read(s, ev), ev, pos);
      Leak(cfg, Read(s, ev), ev, pos) + if status.Continue? then Leaks(cfg, after, items[1..]) else {}
  }

  /** In every state that a run over any events reaches, each event has one owner and none was misused. */
  lemma {:induction false} RunTidy(cfg: Config, s: State, items: seq<Item>, leaked: set<nat>)
    requires Tidy(s, {}, leaked) && FreshReads(cfg, s, items)
    ensures Tidy(Run(cfg, s, items).0, {}, leaked + Leaks(cfg, s, items))
    decreases |items|
  {
    if items == [] {
      assert leaked + {} == leaked;
    } else {
      var ev, pos := items[0].event, items[0].pos;
      var (after, status) := Step(cfg, Read(s, ev), ev, pos);
      var leak := Leak(cfg, Read(s, ev), ev, pos);
      StepTidy(cfg, Read(s, ev), ev, pos, leaked);
      if status.Continue? {
        RunTidy(cfg, after, items[1..], leaked + leak);
        assert leaked + leak + Leaks(cfg, after, items[1..]) == leaked + Leaks(cfg, s, items);
      } else {
        assert leaked + leak == leaked + Leaks(cfg, s, items);
      }
    }
  }

  /** At program end exactly the events without an owner are still allocated. */
  lemma {:induction false} EndFrees(s: State, leaked: set<nat>)
    requires Tidy(s, {}, leaked) && s.ignored == map[]
    ensures End(s).live == leaked && End(s).faults == {}
  {
    FreeAnnotateTidy(s, {}, leaked);
  }

  /** The file id that an event starts to use. */
  function OpenId(ev: Event): set<nat> {
    if ev.kind.CreateFile? || ev.kind.BeginLoad? then {ev.kind.fileId} else {}
  }

  /** The file ids started by a run, on top of those `used` before. */
  function UsedBy(items: seq<Item>, used: set<nat>): set<nat>
    decreases |items|
  {
    if items == [] then used else UsedBy(items[1..], used + OpenId(items[0].event))
  }

  /** No Begin or Create event has a file id that was used before. */
  predicate NeverReused(items: seq<Item>, used: set<nat>)
    decreases |items|
  {
    items == [] ||
    (OpenId(items[0].event) !! used && NeverReused(items[1..], used + OpenId(items[0].event)))
  }

  lemma {:induction false} ProcessLoads(cfg: Config, s: State, ev: Event)
    ensures Process(cfg, s, ev).0.loads.Keys <= s.loads.Keys + OpenId(ev)
  {
    match ev.kind {
      case CreateFile(_, _, _, _) =>
      case BeginLoad(_, _) =>
      case AppendBlock(_, _) =>
      case ExecLoad(_) =>
      case ExecuteLoadQuery(_, _) =>
      case _ => LoadsFrame(cfg, s, ev);
    }
  }

  lemma {:induction false} StepLoads(cfg: Config, s: State, ev: Event, pos: nat)
    ensures Step(cfg, s, ev, pos).0.loads.Keys <= s.loads.Keys + OpenId(ev)
  {
    ProcessLoads(cfg, Opened(s, ev), ev);
  }

  lemma {:induction false} RunLoads(cfg: Config, s: State, items: seq<Item>, used: set<nat>)
    requires s.loads.Keys <= used && NeverReused(items, used)
    ensures Leaks(cfg, s, items) == {}
    ensures Run(cfg, s, items).0.loads.Keys <= UsedBy(items, used)
    decreases |items|
  {
    UsedGrows(items, used);
    if items != [] {
      var ev, pos := items[0].event, items[0].pos;
      var (after, status) := Step(cfg, Read(s, ev), ev, pos);
      StepLoads(cfg, Read(s, ev), ev, pos);
      UsedGrows(items[1..], used + OpenId(ev));
      if status.Continue? {
        RunLoads(cfg, after, items[1..], used + OpenId(ev));
      }
    }
  }

  lemma {:induction false} UsedGrows(items: seq<Item>, used: set<nat>)
    ensures used <= UsedBy(items, used)
    decreases |items|
  {
    if items != [] { UsedGrows(items[1..], used + OpenId(items[0].event)); }
  }

  ghost predicate FreshLogs(cfg: Config, s: State, logs: seq<Log>)
    decreases |logs|
  {
    logs == [] ||
    (&& logs[0].description !in s.live - {s.description.id}
     && FreshReads(For(cfg, logs), Begun(s, logs[0]), logs[0].items)
     && var (after, status) := RunLog(For(cfg, logs), s, logs[0]);
     (status.Continue? ==> FreshLogs(cfg, after, logs[1..])))
  }

  function LeaksOfLogs(cfg: Config, s: State, logs: seq<Log>): set<nat>
    decreases |logs|
  {
    if logs == [] then {}
    else
      var (after, status) := RunLog(For(cfg, logs), s, logs[0]);
      Leaks(For(cfg, logs), Begun(s, logs[0]), logs[0].items) + if status.Continue? then LeaksOfLogs(cfg, after, logs[1..]) else {}
  }

  predicate NeverReusedInLogs(logs: seq<Log>, used: set<nat>)
    decreases |logs|
  {
    logs == [] ||
    (NeverReused(logs[0].items, used) && NeverReusedInLogs(logs[1..], UsedBy(logs[0].items, used)))
  }

  lemma {:induction false} LogTidy(cfg: Config, s: State, log: Log, leaked: set<nat>)
    requires Tidy(s, {}, leaked)
    requires log.description !in s.live - {s.description.id} && FreshReads(cfg, Begun(s, log), log.items)
    ensures var after := RunLog(cfg, s, log).0;
            Tidy(after, {}, leaked + Leaks(cfg, Begun(s, log), log.items)) && after.ignored == map[]
  {
    var leaked' := leaked + Leaks(cfg, Begun(s, log), log.items);
    assert Tidy(Begun(s, log), {}, leaked);
    RunTidy(cfg, Begun(s, log), log.items, leaked);
    ClearIgnoredTidy(Run(cfg, Begun(s, log), log.items).0, {}, leaked');
  }

  lemma {:induction false} LogsTidy(cfg: Config, s: State, logs: seq<Log>, leaked: set<nat>)
    requires Tidy(s, {}, leaked) && s.ignored == map[] && FreshLogs(cfg, s, logs)
    ensures var after := RunLogs(cfg, s, logs);
            Tidy(after, {}, leaked + LeaksOfLogs(cfg, s, logs)) && after.ignored == map[]
    decreases |logs|
  {
    if logs == [] {
      assert leaked + {} == leaked;
    } else {
      var (after, status) := RunLog(For(cfg, logs), s, logs[0]);
      var leak := Leaks(For(cfg, logs), Begun(s, logs[0]), logs[0].items);
      LogTidy(For(cfg, logs), s, logs[0], leaked);
      if status.Continue? {
        LogsTidy(cfg, after, logs[1..], leaked + leak);
        assert leaked + leak + LeaksOfLogs(cfg, after, logs[1..]) == leaked + LeaksOfLogs(cfg, s, logs);
      } else {
        assert leaked + leak == leaked + LeaksOfLogs(cfg, s, logs);
      }
    }
  }

  /**
    The whole program over any logs: no event is deleted twice or used after its deletion, and the events still
    allocated at the end are exactly those that a reused file id pushed out of the load table.
  */
  lemma {:induction false} ProgramFreesAllButPushedOut(cfg: Config, s: State, logs: seq<Log>)
    requires Tidy(s, {}, {}) && s.ignored == map[] && FreshLogs(cfg, s, logs)
    ensures var end := End(RunLogs(cfg, s, logs));
            end.faults == {} && end.live == LeaksOfLogs(cfg, s, logs)
  {
    LogsTidy(cfg, s, logs, {});
    assert {} + LeaksOfLogs(cfg, s, logs) == LeaksOfLogs(cfg, s, logs);
    EndFrees(RunLogs(cfg, s, logs), LeaksOfLogs(cfg, s, logs));
  }

  /** When file ids are not reused, nothing is pushed out. */
  lemma {:induction false} NothingPushedOut(cfg: Config, s: State, logs: seq<Log>, used: set<nat>)
    requires s.loads.Keys <= used && NeverReusedInLogs(logs, used)
    ensures LeaksOfLogs(cfg, s, logs) == {}
    decreases |logs|
  {
    if logs != [] {
      RunLoads(For(cfg, logs), Begun(s, logs[0]), logs[0].items, used);
      var (after, status) := RunLog(For(cfg, logs), s, logs[0]);
      if status.Continue? {
        NothingPushedOut(cfg, after, logs[1..], UsedBy(logs[0].items, used));
      }
    }
  }
}
