/** The replayer as an object: `process_event` and `Load_log_processor` with the fields they update. */
module BinlogReplayer {
  import opened Text
  import opened Binlog

  /** An element of the array `file_names`: all zero, or a file name and for a Create event the event. */
  datatype Slot = Cleared | InUse(fname: string, event: Option<nat>)

  /** The load table that the array stands for: the file ids whose records are in use. */
  function Loads(slots: seq<Slot>): map<nat, Record> {
    map k: nat | 0 <= k < |slots| && slots[k].InUse? :: Record(slots[k].fname, slots[k].event)
  }

  /** Growing the array by a cleared record changes nothing. */
  lemma {:induction false} LoadsGrow(slots: seq<Slot>)
    ensures Loads(slots + [Cleared]) == Loads(slots)
  {
    var grown := slots + [Cleared];
    assert forall k: nat :: k in Loads(grown) <==> k in Loads(slots);
  }

  lemma {:induction false} LoadsSet(slots: seq<Slot>, k: nat, slot: Slot)
    requires k < |slots|
    ensures Loads(slots[k := slot])
         == if slot.InUse? then Loads(slots)[k := Record(slot.fname, slot.event)] else Loads(slots) - {k}
  {
    var set' := slots[k := slot];
    assert forall i: nat :: i in Loads(set') <==> if i == k then slot.InUse? else i in Loads(slots);
  }

  function Held(slots: seq<Slot>): set<nat> {
    HeldEvents(Loads(slots))
  }

  lemma {:induction false} LoadsNext(slots: seq<Slot>, k: nat)
    requires k < |slots|
    ensures k !in Loads(slots[..k])
    ensures Loads(slots[..k + 1])
         == if slots[k].InUse? then Loads(slots[..k])[k := Record(slots[k].fname, slots[k].event)] else Loads(slots[..k])
  {
    var a, b := slots[..k], slots[..k + 1];
    assert forall i: nat :: i in Loads(b) <==> if i == k then slots[k].InUse? else i in Loads(a);
  }

  lemma {:induction false} HeldAdded(a: map<nat, Record>, k: nat, r: Record)
    requires k !in a
    ensures HeldEvents(a[k := r]) == HeldEvents(a) + OptionSet(r.event)
  {
    var b := a[k := r];
    forall x | x in HeldEvents(a) + OptionSet(r.event) ensures x in HeldEvents(b) {
      if x in HeldEvents(a) {
        var i :| i in a && a[i].event.Some? && a[i].event.value == x;
        assert b[i].event.value == x;
      } else {
        assert b[k].event.value == x;
      }
    }
  }

  lemma {:induction false} SharedAdded(a: map<nat, Record>, k: nat, r: Record)
    requires k !in a
    ensures SharedLoads(a[k := r]) == SharedLoads(a) + OptionSet(r.event) * HeldEvents(a)
  {
    var b := a[k := r];
    forall x | x in SharedLoads(b) ensures x in SharedLoads(a) + OptionSet(r.event) * HeldEvents(a) {
      var i, j :| i in b && j in b && i != j && b[i].event.Some? && b[i].event == b[j].event && b[i].event.value == x;
      if i != k && j != k {
        assert a[i].event == a[j].event;
      } else {
        var other := if i == k then j else i;
        assert a[other].event.value == x;
      }
    }
    forall x | x in SharedLoads(a) + OptionSet(r.event) * HeldEvents(a) ensures x in SharedLoads(b) {
      if x in SharedLoads(a) {
        var i, j :| i in a && j in a && i != j && a[i].event.Some? && a[i].event == a[j].event && a[i].event.value == x;
        assert b[i].event == b[j].event;
      } else {
        var i :| i in a && a[i].event.Some? && a[i].event.value == x;
        assert b[i].event == b[k].event && i != k;
      }
    }
  }

  /** The events of a record. */
  function EventOf(slot: Slot): set<nat> {
    if slot.InUse? then OptionSet(slot.event) else {}
  }

  /** One more record: its event is held, and shared exactly when it was held before. */
  lemma {:induction false} HeldNext(slots: seq<Slot>, k: nat)
    requires k < |slots|
    ensures Held(slots[..k + 1]) == Held(slots[..k]) + EventOf(slots[k])
    ensures SharedLoads(Loads(slots[..k + 1])) == SharedLoads(Loads(slots[..k])) + EventOf(slots[k]) * Held(slots[..k])
  {
    LoadsNext(slots, k);
    if slots[k].InUse? {
      HeldAdded(Loads(slots[..k]), k, Record(slots[k].fname, slots[k].event));
      SharedAdded(Loads(slots[..k]), k, Record(slots[k].fname, slots[k].event));
    }
  }

  /** Deleting one more object: it is a fault exactly when it was not live or was deleted before. */
  lemma {:induction false} DeleteNext(live: set<nat>, faults: set<nat>, held: set<nat>, shared: set<nat>, event: set<nat>)
    ensures live - held - event == live - (held + event)
    ensures faults + (held - live) + shared + (event - (live - held))
         == faults + (held + event - live) + (shared + event * held)
  {
  }

  class Replayer {
    const cfg: Config
    var recCount: nat
    var offset: nat
    var startTime: nat
    var description: Description
    var annotate: Option<nat>
    var ignored: map<nat, nat>
    var fileNames: seq<Slot>
    var files: map<string, string>
    var out: seq<Output>
    ghost var live: set<nat>
    ghost var faults: set<nat>

    constructor (cfg: Config, offset: nat, startTime: nat, description: Description, files: map<string, string>)
      ensures this.cfg == cfg
      ensures Snapshot() == State(0, offset, startTime, description, None, map[], map[], files, {description.id},
                                  {}, [])
    {
      this.cfg := cfg;
      recCount, this.offset, this.startTime := 0, offset, startTime;
      this.description, annotate, ignored, fileNames := description, None, map[], [];
      this.files, out, live, faults := files, [], {description.id}, {};
    }

    ghost function Snapshot(): State
      reads this
    {
      State(recCount, offset, startTime, description, annotate, ignored, Loads(fileNames), files, live, faults, out)
    }

    ghost method Delete(id: nat)
      modifies this`live, this`faults
      ensures Snapshot() == old(Snapshot()).Free(id)
    {
      faults := faults + ({id} - live);
      live := live - {id};
    }

    /** `delete` of a pointer that may be null. */
    ghost method DeleteAll(ids: set<nat>)
      modifies this`live, this`faults
      ensures live == old(live) - ids && faults == old(faults) + (ids - old(live))
    {
      faults := faults + (ids - live);
      live := live - ids;
    }

    method PrintEvent(id: nat)
      modifies this`out, this`faults
      ensures Snapshot() == old(Snapshot()).Print(id)
    {
      faults := faults + ({id} - live);
      out := out + [Printed(id)];
    }

    method FreeAnnotate()
      modifies this`annotate, this`live, this`faults
      ensures Snapshot() == old(Snapshot()).FreeAnnotate()
    {
      FreeNone(Snapshot());
      if annotate.Some? {
        Delete(annotate.value);
        annotate := None;
      }
    }

    method KeepAnnotate(id: nat)
      modifies this`annotate, this`live, this`faults
      ensures Snapshot() == old(Snapshot()).FreeAnnotate().(annotate := Some(id))
    {
      FreeAnnotate();
      annotate := Some(id);
    }

    method PrintAnnotate()
      modifies this`annotate, this`out, this`live, this`faults
      ensures Snapshot() == old(Snapshot()).PrintAnnotate()
    {
      if annotate.Some? {
        out := out + [PrintedAnnotate(annotate.value)];
        Delete(annotate.value);
        annotate := None;
      }
    }

    /** Tries version after version until a file can be created exclusively. */
    method CreateUniqueFile(base: string) returns (fname: Option<string>)
      modifies this`files
      ensures fname == UniqueName(old(files), base, 0)
      ensures files == if fname.Some? then old(files)[fname.value := ""] else old(files)
    {
      var version := 0;
      while version < VERSIONS
        invariant 0 <= version <= VERSIONS
        invariant files == old(files)
        invariant UniqueName(files, base, 0) == UniqueName(files, base, version)
      {
        var name := base + "-" + Hex(version);
        if name !in files {
          files := files[name := ""];
          return Some(name);
        }
        version := version + 1;
      }
      return None;
    }

    /** `set_dynamic`: grows the array by cleared records up to the index. */
    method SetDynamic(k: nat, slot: Slot)
      requires slot.InUse?
      modifies this`fileNames
      ensures Loads(fileNames) == Loads(old(fileNames))[k := Record(slot.fname, slot.event)]
      ensures |fileNames| == if k < |old(fileNames)| then |old(fileNames)| else k + 1
    {
      while |fileNames| <= k
        invariant |fileNames| == |old(fileNames)| || |fileNames| <= k + 1
        invariant |old(fileNames)| <= |fileNames|
        invariant Loads(fileNames) == Loads(old(fileNames))
      {
        LoadsGrow(fileNames);
        fileNames := fileNames + [Cleared];
      }
      LoadsSet(fileNames, k, slot);
      fileNames := fileNames[k := slot];
    }

    method ProcessFirstEvent(name: string, fileId: nat, block: string, event: Option<nat>) returns (status: Status)
      modifies this
      ensures (Snapshot(), status) == FirstEvent(cfg, old(Snapshot()), name, fileId, block, event)
    {
      var fname := CreateUniqueFile(BaseName(cfg, name, fileId));
      if fname.None? {
        FreeNone(Snapshot());
        if event.Some? {
          Delete(event.value);
        }
        return Error;
      }
      SetDynamic(fileId, InUse(fname.value, event));
      assert files[fname.value := block] == old(files)[fname.value := block];
      files := files[fname.value := block];
      return Continue;
    }

    /** A block is added to the file whose record has the id, whatever made the record; no other file changes. */
    method Append(fileId: nat, block: string)
      modifies this`files
      ensures Snapshot() == AppendTo(old(Snapshot()), fileId, block)
    {
      if fileId < |fileNames| && fileNames[fileId].InUse? {
        var fname := fileNames[fileId].fname;
        if fname in files {
          files := files[fname := files[fname] + block];
        }
      }
    }

    /** Takes the record of a Create event: a second call finds nothing. */
    method GrabEvent(fileId: nat) returns (r: Option<Record>)
      modifies this`fileNames
      ensures r == if fileId in Loads(old(fileNames)) && Loads(old(fileNames))[fileId].event.Some?
                   then Some(Loads(old(fileNames))[fileId]) else None
      ensures Loads(fileNames) == if r.Some? then Loads(old(fileNames)) - {fileId} else Loads(old(fileNames))
    {
      if fileId >= |fileNames| { return None; }
      var slot := fileNames[fileId];
      if slot.InUse? && slot.event.Some? {
        LoadsSet(fileNames, fileId, Cleared);
        fileNames := fileNames[fileId := Cleared];
        return Some(Record(slot.fname, slot.event));
      }
      return None;
    }

    /** Takes the file name of a Begin event; a record without an event is cleared even when it was clear. */
    method GrabFname(fileId: nat) returns (r: Option<string>)
      modifies this`fileNames
      ensures r == if fileId in Loads(old(fileNames)) && Loads(old(fileNames))[fileId].event.None?
                   then Some(Loads(old(fileNames))[fileId].fname) else None
      ensures Loads(fileNames) == if r.Some? then Loads(old(fileNames)) - {fileId} else Loads(old(fileNames))
    {
      if fileId >= |fileNames| { return None; }
      var slot := fileNames[fileId];
      r := None;
      if slot.Cleared? || slot.event.None? {
        if slot.InUse? { r := Some(slot.fname); }
        LoadsSet(fileNames, fileId, Cleared);
        fileNames := fileNames[fileId := Cleared];
        assert slot.Cleared? ==> Loads(old(fileNames)) - {fileId} == Loads(old(fileNames));
      }
    }

    method ExecLoad(fileId: nat)
      modifies this
      ensures Snapshot() == Execute(old(Snapshot()), fileId)
    {
      var ce := GrabEvent(fileId);
      if ce.Some? {
        out := out + [LoadData(Forward(ce.value.fname))];
        Delete(ce.value.event.value);
      }
    }

    method ExecLoadQuery(fileId: nat, db: Option<string>)
      modifies this
      ensures Snapshot() == ExecuteQuery(cfg, old(Snapshot()), fileId, db)
    {
      var fname := GrabFname(fileId);
      if !Skips(cfg, db) && fname.Some? {
        out := out + [LoadData(Forward(fname.value))];
      }
    }

    method SetIgnored(tableId: nat, id: nat)
      modifies this
      ensures Snapshot() == IgnoreMap(old(Snapshot()), tableId, id)
    {
      if tableId in ignored {
        Delete(ignored[tableId]);
      }
      ignored := ignored[tableId := id];
    }

    method PrintRowEvent(tableId: nat, stmtEnd: bool, id: nat)
      modifies this
      ensures Snapshot() == RowEvent(old(Snapshot()), tableId, stmtEnd, id)
    {
      var skip := tableId in ignored;
      if stmtEnd {
        faults := faults + (ignored.Values - live) + Shared(ignored);
        live := live - ignored.Values;
        ignored := map[];
        FreeAnnotate();
      }
      if !skip {
        faults := faults + ({id} - live);
        out := out + [PrintedRows(id)];
      }
    }

    method Dispatch(ev: Event) returns (status: Status, kept: bool)
      modifies this
      ensures (Snapshot(), status, kept) == Process(cfg, old(Snapshot()), ev)
    {
      status, kept := Continue, false;
      match ev.kind {
        case Query(db, trans) =>
          if trans || !Skips(cfg, db) { PrintEvent(ev.id); }
        case CreateFile(fileId, name, db, block) =>
          if !Skips(cfg, db) {
            PrintEvent(ev.id);
            if description.version >= 3 {
              kept := true;
              status := ProcessFirstEvent(name, fileId, block, Some(ev.id));
            }
          }
        case AppendBlock(fileId, block) =>
          PrintEvent(ev.id);
          Append(fileId, block);
        case ExecLoad(fileId) =>
          PrintEvent(ev.id);
          ExecLoad(fileId);
        case FormatDescription(version, inUse) =>
          Delete(description.id);
          description := Description(ev.id, version, inUse);
          PrintEvent(ev.id);
          kept := true;
          if !cfg.forceIfOpen && inUse { status := Error; }
        case BeginLoad(fileId, block) =>
          PrintEvent(ev.id);
          status := ProcessFirstEvent("SQL_LOAD_MB", fileId, block, None);
        case ExecuteLoadQuery(fileId, db) =>
          ExecLoadQuery(fileId, db);
        case Annotate =>
          if !cfg.skipAnnotate {
            KeepAnnotate(ev.id);
            kept := true;
          }
        case TableMap(tableId, db) =>
          if Skips(cfg, db) {
            SetIgnored(tableId, ev.id);
            kept := true;
          } else {
            PrintAnnotate();
            PrintEvent(ev.id);
          }
        case Rows(tableId, stmtEnd) =>
          PrintRowEvent(tableId, stmtEnd, ev.id);
        case Rotate =>
          PrintEvent(ev.id);
        case Other =>
          PrintEvent(ev.id);
      }
    }

    /** The window at the start of `process_event`. */
    method Admit(ev: Event, pos: nat) returns (verdict: Verdict)
      modifies this`startTime, this`offset
      ensures verdict == Decide(cfg, old(Snapshot()), ev, pos)
      ensures Snapshot() == Opened(old(Snapshot()), ev)
    {
      verdict := Skip;
      if (recCount >= offset && ev.when >= startTime) || ev.kind.FormatDescription? {
        if !ev.kind.FormatDescription? {
          startTime, offset := 0, 0;
          if !ev.kind.Rotate? && cfg.serverId != 0 && cfg.serverId != ev.serverId { return; }
        }
        verdict := if ev.when >= cfg.stopTime || pos >= cfg.stopPosition then Halt else Take;
      }
    }

    /** Counts the event and deletes it unless it has a new owner. */
    method Finish(ev: Event, kept: bool)
      modifies this
      ensures Snapshot() == Done(old(Snapshot()), ev, kept)
    {
      FreeNone(Snapshot());
      recCount := recCount + 1;
      if !kept {
        Delete(ev.id);
      }
    }

    method TakeEvent(ev: Event) returns (status: Status)
      modifies this
      ensures (Snapshot(), status) == Taken(cfg, old(Snapshot()), ev)
    {
      var kept;
      status, kept := Dispatch(ev);
      if status.Error? && ev.kind.FormatDescription? { return; }
      Finish(ev, kept);
    }

    /** `process_event`: the window, the switch, and the deletion of the event unless it has a new owner. */
    method ProcessEvent(ev: Event, pos: nat) returns (status: Status)
      modifies this
      ensures (Snapshot(), status) == Step(cfg, old(Snapshot()), ev, pos)
    {
      var verdict := Admit(ev, pos);
      if verdict.Take? {
        status := TakeEvent(ev);
      } else {
        Finish(ev, false);
        status := if verdict.Halt? then Stop else Continue;
      }
    }

    /** The event loop of one log. */
    method DumpEvents(items: seq<Item>) returns (status: Status)
      modifies this
      ensures (Snapshot(), status) == Run(cfg, old(Snapshot()), items)
    {
      status := Continue;
      var i := 0;
      while i < |items| && status.Continue?
        invariant 0 <= i <= |items|
        invariant Run(cfg, old(Snapshot()), items)
               == if status.Continue? then Run(cfg, Snapshot(), items[i..]) else (Snapshot(), status)
      {
        var item := items[i];
        assert items[i..][0] == item && items[i..][1..] == items[i + 1..];
        live := live + {item.event.id};
        status := ProcessEvent(item.event, item.pos);
        i := i + 1;
      }
    }

    /** A record in use is freed with its event. */
    method ClearRecord(k: nat)
      requires k < |fileNames|
      modifies this`fileNames, this`live, this`faults
      ensures fileNames == old(fileNames)[k := Cleared]
      ensures live == old(live) - EventOf(old(fileNames)[k])
      ensures faults == old(faults) + (EventOf(old(fileNames)[k]) - old(live))
    {
      if fileNames[k].InUse? {
        DeleteAll(OptionSet(fileNames[k].event));
        fileNames := fileNames[k := Cleared];
      } else {
        assert fileNames == fileNames[k := Cleared];
        assert faults + ({} - live) == faults && live - {} == live;
      }
    }

    /** `Load_log_processor::destroy`: every record in use is freed with its event. */
    method DestroyLoads()
      modifies this`fileNames, this`live, this`faults
      ensures Loads(fileNames) == map[]
      ensures live == old(live) - Held(old(fileNames))
      ensures faults == old(faults) + (Held(old(fileNames)) - old(live)) + SharedLoads(Loads(old(fileNames)))
    {
      var k := 0;
      ghost var slots, held, shared := fileNames, Held([]), SharedLoads(Loads([]));
      assert slots[..0] == [] && Loads([]) == map[];
      while k < |fileNames|
        invariant k <= |fileNames| == |slots|
        invariant forall i :: 0 <= i < |slots| ==> fileNames[i] == if i < k then Cleared else slots[i]
        invariant held == Held(slots[..k]) && shared == SharedLoads(Loads(slots[..k]))
        invariant live == old(live) - held
        invariant faults == old(faults) + (held - old(live)) + shared
      {
        HeldNext(slots, k);
        DeleteNext(old(live), old(faults), held, shared, EventOf(slots[k]));
        held, shared := held + EventOf(slots[k]), shared + EventOf(slots[k]) * held;
        ClearRecord(k);
        k := k + 1;
      }
      assert slots[..k] == slots;
    }

    /** Program end. */
    method EndProgram()
      modifies this
      ensures Snapshot() == End(old(Snapshot()))
    {
      Delete(description.id);
      FreeAnnotate();
      DestroyLoads();
    }
  }
}
