/** Which logs leave event objects behind: a rule over the processed events alone, and a log that does. */
module BinlogLeaks {
  import opened Text
  import opened Binlog
  import opened BinlogLoads
  import opened BinlogOwners

  /** The event opens a file: a Begin event, or a Create event that is not filtered away. */
  predicate Opens(cfg: Config, version: nat, kind: Kind) {
    kind.BeginLoad? || (kind.CreateFile? && !Skips(cfg, kind.db) && version >= 3)
  }

  /** It opens a file under an id whose Create event was not executed. */
  predicate Reopens(cfg: Config, version: nat, book: Book, kind: Kind) {
    Opens(cfg, version, kind) && kind.fileId in book && book[kind.fileId].create
  }

  function NextVersion(version: nat, kind: Kind): nat {
    if kind.FormatDescription? then kind.version else version
  }

  /** Somewhere in the stream an id is opened again before its Create event was executed. */
  predicate Reused(cfg: Config, version: nat, book: Book, evs: seq<Event>)
    decreases |evs|
  {
    evs != [] &&
    (Reopens(cfg, version, book, evs[0].kind) ||
     Reused(cfg, NextVersion(version, evs[0].kind), Note(cfg, version, book, evs[0].kind), evs[1..]))
  }

  /** The book after the stream. */
  function NoteAll(cfg: Config, version: nat, book: Book, evs: seq<Event>): Book
    decreases |evs|
  {
    if evs == [] then book
    else NoteAll(cfg, NextVersion(version, evs[0].kind), Note(cfg, version, book, evs[0].kind), evs[1..])
  }

  /** The events processed without an error: all that pass the window, but for one on which the program gives up. */
  function Succeeded(cfg: Config, s: State, items: seq<Item>): seq<Event> {
    DropLast(Seen(cfg, s, items), Run(cfg, s, items).1.Error?)
  }

  function DropLast(evs: seq<Event>, drop: bool): seq<Event> {
    if drop && evs != [] then evs[..|evs| - 1] else evs
  }

  lemma {:induction false} DropLastConcat(first: seq<Event>, rest: seq<Event>, drop: bool)
    requires drop ==> rest != []
    ensures DropLast(first + rest, drop) == first + DropLast(rest, drop)
  {
  }

  lemma {:induction false} VersionNext(cfg: Config, s: State, ev: Event)
    ensures Process(cfg, s, ev).0.description.version == NextVersion(s.description.version, ev.kind)
  {
    if LoadKind(ev.kind) {
      assert ProcessLoad(cfg, s, ev).0.description == s.description;
    } else if RowKind(ev.kind) {
      assert ProcessRow(cfg, s, ev).0.description == s.description;
    }
  }

  /** An event is pushed out exactly when an id is opened again and a file could be made for it. */
  lemma {:induction false} PushedOutIff(cfg: Config, s: State, book: Book, ev: Event)
    requires Agree(s, book)
    ensures PushedOut(cfg, s, ev) != {} <==>
              Reopens(cfg, s.description.version, book, ev.kind) && !Process(cfg, s, ev).1.Error?
  {
    if Opens(cfg, s.description.version, ev.kind) {
      assert Process(cfg, s, ev).1.Error? <==>
             UniqueName(s.files, BaseName(cfg, OpenName(ev.kind), ev.kind.fileId), 0).None?;
      if ev.kind.fileId in s.loads && s.loads[ev.kind.fileId].event.Some? {
        assert s.loads[ev.kind.fileId].event.value in OptionSet(s.loads[ev.kind.fileId].event);
      }
    }
  }

  /** The first event of a run: whether it leaves something behind, and the book and version after it. */
  lemma {:induction false} StepLeaks(cfg: Config, s: State, book: Book, ev: Event, pos: nat)
    requires Agree(s, book)
    ensures var begun := Read(s, ev);
            var (after, status) := Step(cfg, begun, ev, pos);
            var took := Decide(cfg, begun, ev, pos).Take?;
            && (Leak(cfg, begun, ev, pos) != {} <==>
                  took && !status.Error? && Reopens(cfg, s.description.version, book, ev.kind))
            && (status.Continue? ==>
                  Agree(after, if took then Note(cfg, s.description.version, book, ev.kind) else book))
            && (status.Continue? ==>
                  after.description.version ==
                  if took then NextVersion(s.description.version, ev.kind) else s.description.version)
  {
    var begun := Read(s, ev);
    assert Agree(begun, book) && Agree(Opened(begun, ev), book);
    if Decide(cfg, begun, ev, pos).Take? {
      PushedOutIff(cfg, Opened(begun, ev), book, ev);
      VersionNext(cfg, Opened(begun, ev), ev);
    }
    if Step(cfg, begun, ev, pos).1.Continue? {
      StepAgrees(cfg, begun, book, Item(ev, pos));
    }
  }

  lemma {:induction false} SucceededCons(cfg: Config, s: State, items: seq<Item>)
    returns (after: State, more: bool, first: seq<Event>)
    requires items != []
    ensures first == [] || first == [items[0].event]
    ensures Succeeded(cfg, s, items) == first + if more then Succeeded(cfg, after, items[1..]) else []
    ensures (Run(cfg, s, items).0, Run(cfg, s, items).1.Continue?)
         == if more then (Run(cfg, after, items[1..]).0, Run(cfg, after, items[1..]).1.Continue?) else (after, false)
    ensures Leaks(cfg, s, items)
         == Leak(cfg, Read(s, items[0].event), items[0].event, items[0].pos) +
            if more then Leaks(cfg, after, items[1..]) else {}
    ensures (after, more) == (Step(cfg, Read(s, items[0].event), items[0].event, items[0].pos).0,
                              Step(cfg, Read(s, items[0].event), items[0].event, items[0].pos).1.Continue?)
    ensures first != [] <==>
              Decide(cfg, Read(s, items[0].event), items[0].event, items[0].pos).Take? &&
              !Step(cfg, Read(s, items[0].event), items[0].event, items[0].pos).1.Error?
  {
    var status, took;
    after, status, took := RunCons(cfg, s, items);
    more := status.Continue?;
    first := if took && !status.Error? then [items[0].event] else [];
    if more {
      if Run(cfg, after, items[1..]).1.Error? { ErrorSees(cfg, after, items[1..]); }
      DropLastConcat(first, Seen(cfg, after, items[1..]), Run(cfg, after, items[1..]).1.Error?);
    }
  }

  /** A run that ends with an error does so at an event it processed. */
  lemma {:induction false} ErrorSees(cfg: Config, s: State, items: seq<Item>)
    requires Run(cfg, s, items).1.Error?
    ensures Seen(cfg, s, items) != []
    decreases |items|
  {
    var after, status, took := RunCons(cfg, s, items);
    if status.Continue? { ErrorSees(cfg, after, items[1..]); }
  }

  /** The first event of a run and what it leaves behind. */
  lemma {:induction false} UnrollLeaks(cfg: Config, s: State, book: Book, items: seq<Item>)
    returns (after: State, more: bool, first: seq<Event>, leak: set<nat>)
    requires items != [] && Agree(s, book)
    ensures first == [] || first == [items[0].event]
    ensures Succeeded(cfg, s, items) == first + if more then Succeeded(cfg, after, items[1..]) else []
    ensures Run(cfg, s, items).0 == if more then Run(cfg, after, items[1..]).0 else after
    ensures Run(cfg, s, items).1.Continue? <==> more && Run(cfg, after, items[1..]).1.Continue?
    ensures Leaks(cfg, s, items) == leak + if more then Leaks(cfg, after, items[1..]) else {}
    ensures leak != {} <==> Reused(cfg, s.description.version, book, first)
    ensures more ==> Agree(after, NoteAll(cfg, s.description.version, book, first))
    ensures more ==> after.description.version == VersionAfter(s.description.version, first)
  {
    after, more, first := SucceededCons(cfg, s, items);
    StepLeaks(cfg, s, book, items[0].event, items[0].pos);
    leak := Leak(cfg, Read(s, items[0].event), items[0].event, items[0].pos);
    assert !Reused(cfg, NextVersion(s.description.version, items[0].event.kind),
                   Note(cfg, s.description.version, book, items[0].event.kind), []);
  }

  function VersionAfter(version: nat, evs: seq<Event>): nat
    decreases |evs|
  {
    if evs == [] then version else VersionAfter(NextVersion(version, evs[0].kind), evs[1..])
  }

  lemma {:induction false} ReusedConcat(cfg: Config, version: nat, book: Book, a: seq<Event>, b: seq<Event>)
    ensures Reused(cfg, version, book, a + b) <==>
              Reused(cfg, version, book, a) || Reused(cfg, VersionAfter(version, a), NoteAll(cfg, version, book, a), b)
    ensures NoteAll(cfg, version, book, a + b) == NoteAll(cfg, VersionAfter(version, a), NoteAll(cfg, version, book, a), b)
    decreases |a|
  {
    if a == [] {
      assert a + b == b;
    } else {
      assert (a + b)[1..] == a[1..] + b;
      ReusedConcat(cfg, NextVersion(version, a[0].kind), Note(cfg, version, book, a[0].kind), a[1..], b);
    }
  }

  /** A run leaves something behind if and only if an id is opened again before its Create event was executed. */
  lemma {:induction false} RunLeaksIff(cfg: Config, s: State, book: Book, items: seq<Item>)
    requires Agree(s, book)
    ensures var evs := Succeeded(cfg, s, items);
            && (Leaks(cfg, s, items) != {} <==> Reused(cfg, s.description.version, book, evs))
            && (Run(cfg, s, items).1.Continue? ==>
                  Agree(Run(cfg, s, items).0, NoteAll(cfg, s.description.version, book, evs)))
    decreases |items|
  {
    if items != [] {
      var after, more, first, leak := UnrollLeaks(cfg, s, book, items);
      var version := s.description.version;
      var rest := if more then Succeeded(cfg, after, items[1..]) else [];
      ReusedConcat(cfg, version, book, first, rest);
      if more {
        RunLeaksIff(cfg, after, NoteAll(cfg, version, book, first), items[1..]);
      } else {
        assert !Reused(cfg, VersionAfter(version, first), NoteAll(cfg, version, book, first), []);
      }
    }
  }

  // --- All logs of the program ---

  function SucceededOfLogs(cfg: Config, s: State, logs: seq<Log>): seq<seq<Event>>
    decreases |logs|
  {
    if logs == [] then []
    else
      var (after, status) := RunLog(For(cfg, logs), s, logs[0]);
      [Succeeded(For(cfg, logs), Begun(s, logs[0]), logs[0].items)] +
      if status.Continue? then SucceededOfLogs(cfg, after, logs[1..]) else []
  }

  /** Each log starts with format version 3; the load table is that of the whole program. */
  predicate ReusedInLogs(cfg: Config, book: Book, evs: seq<seq<Event>>)
    decreases |evs|
  {
    evs != [] && (Reused(cfg, 3, book, evs[0]) || ReusedInLogs(cfg, NoteAll(cfg, 3, book, evs[0]), evs[1..]))
  }

  lemma {:induction false} SameDatabase(cfg: Config, c: Config, version: nat, book: Book, evs: seq<Event>)
    requires c.database == cfg.database
    ensures Reused(c, version, book, evs) <==> Reused(cfg, version, book, evs)
    ensures NoteAll(c, version, book, evs) == NoteAll(cfg, version, book, evs)
    decreases |evs|
  {
    if evs != [] {
      assert Note(c, version, book, evs[0].kind) == Note(cfg, version, book, evs[0].kind);
      SameDatabase(cfg, c, NextVersion(version, evs[0].kind), Note(cfg, version, book, evs[0].kind), evs[1..]);
    }
  }

  /** The first log. */
  lemma {:induction false} UnrollLogLeaks(cfg: Config, s: State, book: Book, logs: seq<Log>)
    returns (after: State, more: bool, first: seq<Event>, leak: set<nat>)
    requires logs != [] && Agree(s, book)
    ensures SucceededOfLogs(cfg, s, logs) == [first] + if more then SucceededOfLogs(cfg, after, logs[1..]) else []
    ensures LeaksOfLogs(cfg, s, logs) == leak + if more then LeaksOfLogs(cfg, after, logs[1..]) else {}
    ensures leak != {} <==> Reused(cfg, 3, book, first)
    ensures more ==> Agree(after, NoteAll(cfg, 3, book, first))
  {
    var c, begun := For(cfg, logs), Begun(s, logs[0]);
    assert Agree(begun, book);
    RunLeaksIff(c, begun, book, logs[0].items);
    first, leak := Succeeded(c, begun, logs[0].items), Leaks(c, begun, logs[0].items);
    after, more := RunLog(c, s, logs[0]).0, RunLog(c, s, logs[0]).1.Continue?;
    SameDatabase(cfg, c, 3, book, first);
  }

  lemma {:induction false} LogsLeakIff(cfg: Config, s: State, book: Book, logs: seq<Log>)
    requires Agree(s, book)
    ensures LeaksOfLogs(cfg, s, logs) != {} <==> ReusedInLogs(cfg, book, SucceededOfLogs(cfg, s, logs))
    decreases |logs|
  {
    if logs != [] {
      var after, more, first, leak := UnrollLogLeaks(cfg, s, book, logs);
      var rest := if more then SucceededOfLogs(cfg, after, logs[1..]) else [];
      if more { LogsLeakIff(cfg, after, NoteAll(cfg, 3, book, first), logs[1..]); }
      assert ([first] + rest)[1..] == rest;
    }
  }

  /**
    The whole program: every event object is freed if and only if no processed Begin or Create event opens a file id
    whose Create event was not executed.
  */
  lemma {:induction false} AllFreedIff(cfg: Config, s: State, logs: seq<Log>)
    requires Tidy(s, {}, {}) && s.ignored == map[] && s.loads == map[] && FreshLogs(cfg, s, logs)
    ensures End(RunLogs(cfg, s, logs)).live == {} <==> !ReusedInLogs(cfg, map[], SucceededOfLogs(cfg, s, logs))
  {
    ProgramFreesAllButPushedOut(cfg, s, logs);
    LogsLeakIff(cfg, s, map[], logs);
  }

  // --- A log that leaves an event behind ---

  /** Nothing keeps the event out, and it opens a file. */
  predicate TakesCreate(cfg: Config, s: State, item: Item) {
    && cfg.serverId == 0 && s.offset == 0 && s.startTime == 0
    && item.event.when < cfg.stopTime && item.pos < cfg.stopPosition
    && item.event.kind.CreateFile? && !Skips(cfg, item.event.kind.db) && s.description.version >= 3
  }

  lemma {:induction false} CreateStep(cfg: Config, s: State, item: Item)
    requires TakesCreate(cfg, s, item)
    requires BaseName(cfg, item.event.kind.name, item.event.kind.fileId) + "-" + Hex(0) !in s.files
    ensures var ev := item.event;
            var fname := BaseName(cfg, ev.kind.name, ev.kind.fileId) + "-" + Hex(0);
            var (after, status) := Step(cfg, Read(s, ev), ev, item.pos);
            && status.Continue? && after.offset == 0 && after.startTime == 0 && after.description == s.description
            && after.loads == s.loads[ev.kind.fileId := Record(fname, Some(ev.id))]
            && after.files.Keys == s.files.Keys + {fname}
            && Leak(cfg, Read(s, ev), ev, item.pos)
               == if ev.kind.fileId in s.loads then OptionSet(s.loads[ev.kind.fileId].event) else {}
  {
    var ev := item.event;
    var begun := Opened(Read(s, ev), ev);
    assert begun.files == s.files;
    assert UniqueName(s.files, BaseName(cfg, ev.kind.name, ev.kind.fileId), 0).Some?;
  }

  /** Two Create events on one file id: the first one is never freed. */
  lemma {:induction false} SecondCreateLeaks(cfg: Config, s: State, first: Item, second: Item)
    requires TakesCreate(cfg, s, first) && TakesCreate(cfg, s, second) && s.files == map[]
    requires first.event.kind.fileId == second.event.kind.fileId
    requires BaseName(cfg, first.event.kind.name, first.event.kind.fileId) + "-" + Hex(0) !=
             BaseName(cfg, second.event.kind.name, second.event.kind.fileId) + "-" + Hex(0)
    ensures first.event.id in Leaks(cfg, s, [first, second])
  {
    CreateStep(cfg, s, first);
    var items := [first, second];
    assert items[1..] == [second];
    var after := Step(cfg, Read(s, first.event), first.event, first.pos).0;
    CreateStep(cfg, after, second);
    assert Leaks(cfg, after, [second]) >= Leak(cfg, Read(after, second.event), second.event, second.pos);
  }

  lemma {:induction false} DifferentNames(cfg: Config, k: nat)
    ensures BaseName(cfg, "x", k) + "-" + Hex(0) != BaseName(cfg, "y", k) + "-" + Hex(0)
  {
    assert (BaseName(cfg, "x", k) + "-" + Hex(0))[|cfg.directory|] == 'x';
    assert (BaseName(cfg, "y", k) + "-" + Hex(0))[|cfg.directory|] == 'y';
  }

  /** Such a program run, in full: the first Create event is still allocated when the program ends. */
  lemma {:induction false} LeakingRun() returns (cfg: Config, s: State, first: Event, second: Event, logs: seq<Log>)
    ensures first.kind.CreateFile? && second.kind.CreateFile? && first.kind.fileId == second.kind.fileId
    ensures logs == [Log(1, [Item(first, 4), Item(second, 5)])]
    ensures End(RunLogs(cfg, s, logs)).faults == {} && first.id in End(RunLogs(cfg, s, logs)).live
  {
    cfg := Config(None, false, false, 0, 10, 10, "");
    s := State(0, 0, 0, Description(0, 3, false), None, map[], map[], map[], {0}, {}, []);
    first, second := Event(2, 0, 0, CreateFile(7, "x", None, "")), Event(3, 0, 0, CreateFile(7, "y", None, ""));
    var items := [Item(first, 4), Item(second, 5)];
    logs := [Log(1, items)];
    var begun := Begun(s, logs[0]);
    DifferentNames(cfg, 7);
    SecondCreateLeaks(cfg, begun, items[0], items[1]);
    FreshTwo(cfg, begun, items[0], items[1]);
    FreshOne(cfg, s, logs);
    LeakSurvives(cfg, s, logs, first.id);
  }

  lemma {:induction false} LeakSurvives(cfg: Config, s: State, logs: seq<Log>, id: nat)
    requires |logs| == 1 && Tidy(s, {}, {}) && s.ignored == map[] && FreshLogs(cfg, s, logs)
    requires id in Leaks(cfg, Begun(s, logs[0]), logs[0].items)
    ensures End(RunLogs(cfg, s, logs)).faults == {} && id in End(RunLogs(cfg, s, logs)).live
  {
    ProgramFreesAllButPushedOut(cfg, s, logs);
  }

  lemma {:induction false} FreshTwo(cfg: Config, s: State, first: Item, second: Item)
    requires first.event.id !in s.live && second.event.id !in s.live && first.event.id != second.event.id
    requires TakesCreate(cfg, s, first)
    ensures FreshReads(cfg, s, [first, second])
  {
    var items := [first, second];
    assert items[1..] == [second] && [second][1..] == [];
    var after := Step(cfg, Read(s, first.event), first.event, first.pos).0;
    assert second.event.id !in after.live;
    assert FreshReads(cfg, Step(cfg, Read(after, second.event), second.event, second.pos).0, []);
  }

  lemma {:induction false} FreshOne(cfg: Config, s: State, logs: seq<Log>)
    requires |logs| == 1 && logs[0].description !in s.live && FreshReads(cfg, Begun(s, logs[0]), logs[0].items)
    ensures FreshLogs(cfg, s, logs)
  {
    assert logs[1..] == [];
    assert FreshLogs(cfg, RunLog(cfg, s, logs[0]).0, []);
  }
}
