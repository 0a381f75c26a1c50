/**
  LOAD DATA in `mysqlbinlog`: every statement it prints names a temporary file, and at the end of the whole run
  that file holds exactly the blocks logged for the statement.
*/
module BinlogLoads {
  import opened Text
  import opened Binlog

  /** What was logged for a file id: whether by a Create event, and the data so far. */
  datatype Entry = Entry(create: bool, data: string)

  type Book = map<nat, Entry>

  /** The reference: blocks collected per file id, without files, names or event objects. */
  function Note(cfg: Config, version: nat, book: Book, kind: Kind): Book {
    match kind
    case CreateFile(k, _, db, block) => if Skips(cfg, db) || version < 3 then book else book[k := Entry(true, block)]
    case BeginLoad(k, block) => book[k := Entry(false, block)]
    case AppendBlock(k, block) => if k in book then book[k := Entry(book[k].create, book[k].data + block)] else book
    case ExecLoad(k) => if k in book && book[k].create then book - {k} else book
    case ExecuteLoadQuery(k, _) => if k in book && !book[k].create then book - {k} else book
    case _ => book
  }

  /** The data that a LOAD DATA printed for this event is to load. */
  function Due(cfg: Config, book: Book, kind: Kind): Option<string> {
    match kind
    case ExecLoad(k) => if k in book && book[k].create then Some(book[k].data) else None
    case ExecuteLoadQuery(k, db) =>
      if k in book && !book[k].create && !Skips(cfg, db) then Some(book[k].data) else None
    case _ => None
  }

  ghost predicate Active(s: State, f: string) {
    exists k :: k in s.loads && s.loads[k].fname == f
  }

  /** The files of the load table hold what the book says, each in a file of its own. */
  ghost predicate Agree(s: State, book: Book) {
    && s.loads.Keys == book.Keys
    && (forall k :: k in book ==>
          && s.loads[k].event.Some? == book[k].create
          && s.loads[k].fname in s.files && s.files[s.loads[k].fname] == book[k].data)
    && (forall i, j :: i in s.loads && j in s.loads && i != j ==> s.loads[i].fname != s.loads[j].fname)
  }

  /** The names in the printed LOAD DATA statements. */
  function LoadNames(out: seq<Output>): seq<string> {
    if out == [] then []
    else LoadNames(out[..|out| - 1]) + if out[|out| - 1].LoadData? then [out[|out| - 1].file] else []
  }

  /** A file that no record names stays as it is, and no record will name it. */
  ghost predicate Settled(s: State, f: string) {
    f in s.files && !Active(s, f)
  }

  lemma {:induction false} FirstEventAgrees(cfg: Config, s: State, book: Book, name: string, k: nat, block: string,
                                            event: Option<nat>)
    requires Agree(s, book) && FirstEvent(cfg, s, name, k, block, event).1.Continue?
    ensures Agree(FirstEvent(cfg, s, name, k, block, event).0, book[k := Entry(event.Some?, block)])
  {
    var found := UniqueName(s.files, BaseName(cfg, name, k), 0);
    assert found.Some? && found.value !in s.files;
  }

  lemma {:induction false} FirstEventSettles(cfg: Config, s: State, f: string, name: string, k: nat, block: string,
                                             event: Option<nat>)
    requires Settled(s, f)
    ensures var after := FirstEvent(cfg, s, name, k, block, event).0;
            Settled(after, f) && after.files[f] == s.files[f]
  {
    var found := UniqueName(s.files, BaseName(cfg, name, k), 0);
    if found.Some? {
      assert found.value !in s.files;
    }
  }

  lemma {:induction false} AppendAgrees(s: State, book: Book, k: nat, block: string)
    requires Agree(s, book)
    ensures Agree(AppendTo(s, k, block),
                  if k in book then book[k := Entry(book[k].create, book[k].data + block)] else book)
  {
  }

  lemma {:induction false} RemoveAgrees(s: State, book: Book, k: nat)
    requires Agree(s, book) && k in book
    ensures Agree(s.(loads := s.loads - {k}), book - {k})
    ensures Settled(s.(loads := s.loads - {k}), s.loads[k].fname)
  {
  }

  /** The switch of `process_event` keeps the files in step with the book. */
  lemma {:induction false} ProcessAgrees(cfg: Config, s: State, book: Book, ev: Event)
    requires Agree(s, book) && Process(cfg, s, ev).1.Continue?
    ensures Agree(Process(cfg, s, ev).0, Note(cfg, s.description.version, book, ev.kind))
  {
    assert Agree(s.Print(ev.id), book);
    match ev.kind {
      case CreateFile(k, name, db, block) =>
        if !Skips(cfg, db) && s.description.version >= 3 {
          FirstEventAgrees(cfg, s.Print(ev.id), book, name, k, block, Some(ev.id));
        }
      case BeginLoad(k, block) => FirstEventAgrees(cfg, s.Print(ev.id), book, "SQL_LOAD_MB", k, block, None);
      case AppendBlock(k, block) => AppendAgrees(s.Print(ev.id), book, k, block);
      case ExecLoad(k) => if k in book && book[k].create { RemoveAgrees(s.Print(ev.id), book, k); }
      case ExecuteLoadQuery(k, db) => if k in book && !book[k].create { RemoveAgrees(s, book, k); }
      case _ => LoadsFrame(cfg, s, ev);
    }
  }

  lemma {:induction false} ProcessSettles(cfg: Config, s: State, ev: Event, f: string)
    requires Settled(s, f)
    ensures var after := Process(cfg, s, ev).0;
            Settled(after, f) && after.files[f] == s.files[f]
  {
    assert Settled(s.Print(ev.id), f);
    match ev.kind {
      case CreateFile(k, name, db, block) =>
        FirstEventSettles(cfg, s.Print(ev.id), f, name, k, block, Some(ev.id));
      case BeginLoad(k, block) => FirstEventSettles(cfg, s.Print(ev.id), f, "SQL_LOAD_MB", k, block, None);
      case AppendBlock(k, block) =>
      case ExecLoad(k) =>
      case ExecuteLoadQuery(k, db) =>
      case _ => LoadsFrame(cfg, s, ev);
    }
  }

  lemma {:induction false} LoadNamesAppend(out: seq<Output>, o: Output)
    ensures LoadNames(out + [o]) == LoadNames(out) + if o.LoadData? then [o.file] else []
  {
    assert (out + [o])[..|out|] == out;
  }

  /** A LOAD DATA printed for an event: the file it means and the data due in it. */
  datatype Promise = Promise(file: string, data: string)

  function Promised(cfg: Config, s: State, book: Book, kind: Kind): Option<Promise> {
    if Due(cfg, book, kind).Some? && kind.fileId in s.loads then
      Some(Promise(s.loads[kind.fileId].fname, Due(cfg, book, kind).value))
    else None
  }

  lemma {:induction false} RowEventOut(s: State, tableId: nat, stmtEnd: bool, id: nat)
    ensures LoadNames(RowEvent(s, tableId, stmtEnd, id).out) == LoadNames(s.out)
  {
    LoadNamesAppend(s.out, PrintedRows(id));
  }

  lemma {:induction false} MapOut(s: State, id: nat)
    ensures LoadNames(s.PrintAnnotate().Print(id).out) == LoadNames(s.out)
  {
    var mid := s.PrintAnnotate().out;
    LoadNamesAppend(mid, Printed(id));
    if s.annotate.Some? {
      LoadNamesAppend(s.out, PrintedAnnotate(s.annotate.value));
    } else {
      assert mid == s.out;
    }
  }

  lemma {:induction false} OpenOut(cfg: Config, s: State, ev: Event)
    requires ev.kind.CreateFile? || ev.kind.BeginLoad? || ev.kind.AppendBlock?
    ensures LoadNames(ProcessLoad(cfg, s, ev).0.out) == LoadNames(s.out)
  {
    LoadNamesAppend(s.out, Printed(ev.id));
    assert ProcessLoad(cfg, s, ev).0.out == s.out || ProcessLoad(cfg, s, ev).0.out == s.out + [Printed(ev.id)];
  }

  lemma {:induction false} RowOut(cfg: Config, s: State, ev: Event)
    requires RowKind(ev.kind)
    ensures LoadNames(ProcessRow(cfg, s, ev).0.out) == LoadNames(s.out)
  {
    match ev.kind {
      case Annotate =>
      case TableMap(_, _) => MapOut(s, ev.id);
      case Rows(tableId, stmtEnd) => RowEventOut(s, tableId, stmtEnd, ev.id);
    }
  }

  lemma {:induction false} PlainOut(cfg: Config, s: State, ev: Event)
    requires !LoadKind(ev.kind) && !RowKind(ev.kind)
    ensures LoadNames(ProcessPlain(cfg, s, ev).0.out) == LoadNames(s.out)
  {
    LoadNamesAppend(s.out, Printed(ev.id));
  }

  /** No LOAD DATA is printed for other events. */
  lemma {:induction false} OthersPrintNone(cfg: Config, s: State, ev: Event)
    requires !ev.kind.ExecLoad? && !ev.kind.ExecuteLoadQuery?
    ensures LoadNames(Process(cfg, s, ev).0.out) == LoadNames(s.out)
  {
    if LoadKind(ev.kind) {
      OpenOut(cfg, s, ev);
    } else if RowKind(ev.kind) {
      RowOut(cfg, s, ev);
    } else {
      PlainOut(cfg, s, ev);
    }
  }

  /** A LOAD DATA is printed exactly when data is due; its file is then settled with that data. */
  lemma {:induction false} ProcessPromises(cfg: Config, s: State, book: Book, ev: Event)
    requires Agree(s, book)
    ensures var after := Process(cfg, s, ev).0;
            match Promised(cfg, s, book, ev.kind)
            case None => LoadNames(after.out) == LoadNames(s.out)
            case Some(p) =>
              && LoadNames(after.out) == LoadNames(s.out) + [Forward(p.file)]
              && Settled(after, p.file) && after.files[p.file] == p.data
  {
    if ev.kind.ExecLoad? {
      ExecLoadPromises(cfg, s, book, ev);
    } else if ev.kind.ExecuteLoadQuery? {
      var k := ev.kind.fileId;
      if k in book && !book[k].create {
        RemoveAgrees(s, book, k);
        LoadNamesAppend(s.out, LoadData(Forward(s.loads[k].fname)));
      }
    } else {
      OthersPrintNone(cfg, s, ev);
    }
  }

  lemma {:induction false} ExecLoadPromises(cfg: Config, s: State, book: Book, ev: Event)
    requires Agree(s, book) && ev.kind.ExecLoad?
    ensures var after := Process(cfg, s, ev).0;
            match Promised(cfg, s, book, ev.kind)
            case None => LoadNames(after.out) == LoadNames(s.out)
            case Some(p) =>
              && LoadNames(after.out) == LoadNames(s.out) + [Forward(p.file)]
              && Settled(after, p.file) && after.files[p.file] == p.data
  {
    LoadNamesAppend(s.out, Printed(ev.id));
    ExecutePromises(cfg, s.Print(ev.id), book, ev.kind.fileId);
  }

  lemma {:induction false} ExecutePromises(cfg: Config, s: State, book: Book, k: nat)
    requires Agree(s, book)
    ensures var after := Execute(s, k);
            match Promised(cfg, s, book, ExecLoad(k))
            case None => LoadNames(after.out) == LoadNames(s.out)
            case Some(p) =>
              && LoadNames(after.out) == LoadNames(s.out) + [Forward(p.file)]
              && Settled(after, p.file) && after.files[p.file] == p.data
  {
    if k in book && book[k].create {
      RemoveAgrees(s, book, k);
      LoadNamesAppend(s.out, LoadData(Forward(s.loads[k].fname)));
    }
  }

  /** The book after an event, which counts only if the window lets it through. */
  function NoteStep(cfg: Config, s: State, book: Book, item: Item): Book {
    if Decide(cfg, s, item.event, item.pos).Take? then Note(cfg, s.description.version, book, item.event.kind) else book
  }

  function PromisedStep(cfg: Config, s: State, book: Book, item: Item): Option<Promise> {
    if Decide(cfg, s, item.event, item.pos).Take? then Promised(cfg, s, book, item.event.kind) else None
  }

  /** What `process_event` does beyond its switch concerns neither the load table nor the output. */
  lemma {:induction false} StepIsProcess(cfg: Config, s: State, item: Item)
    ensures var (after, status) := Step(cfg, s, item.event, item.pos);
            if Decide(cfg, s, item.event, item.pos).Take? then
              var (done, result, _) := Process(cfg, Opened(s, item.event), item.event);
              status == result && after.loads == done.loads && after.files == done.files && after.out == done.out
            else after.loads == s.loads && after.files == s.files && after.out == s.out
  {
  }

  lemma {:induction false} StepAgrees(cfg: Config, s: State, book: Book, item: Item)
    requires Agree(s, book) && Step(cfg, s, item.event, item.pos).1.Continue?
    ensures Agree(Step(cfg, s, item.event, item.pos).0, NoteStep(cfg, s, book, item))
  {
    StepIsProcess(cfg, s, item);
    assert Agree(Opened(s, item.event), book);
    if Decide(cfg, s, item.event, item.pos).Take? {
      ProcessAgrees(cfg, Opened(s, item.event), book, item.event);
    }
  }

  lemma {:induction false} StepPromises(cfg: Config, s: State, book: Book, item: Item)
    requires Agree(s, book)
    ensures var after := Step(cfg, s, item.event, item.pos).0;
            match PromisedStep(cfg, s, book, item)
            case None => LoadNames(after.out) == LoadNames(s.out)
            case Some(p) =>
              && LoadNames(after.out) == LoadNames(s.out) + [Forward(p.file)]
              && Settled(after, p.file) && after.files[p.file] == p.data
  {
    StepIsProcess(cfg, s, item);
    assert Agree(Opened(s, item.event), book);
    if Decide(cfg, s, item.event, item.pos).Take? {
      ProcessPromises(cfg, Opened(s, item.event), book, item.event);
    }
  }

  lemma {:induction false} StepSettles(cfg: Config, s: State, item: Item, f: string)
    requires Settled(s, f)
    ensures var after := Step(cfg, s, item.event, item.pos).0;
            Settled(after, f) && after.files[f] == s.files[f]
  {
    StepIsProcess(cfg, s, item);
    assert Settled(Opened(s, item.event), f);
    ProcessSettles(cfg, Opened(s, item.event), item.event, f);
  }

  lemma {:induction false} RunSettles(cfg: Config, s: State, items: seq<Item>, f: string)
    requires Settled(s, f)
    ensures var after := Run(cfg, s, items).0;
            Settled(after, f) && after.files[f] == s.files[f]
    decreases |items|
  {
    if items != [] {
      var begun := Read(s, items[0].event);
      StepSettles(cfg, begun, items[0], f);
      var (after, status) := Step(cfg, begun, items[0].event, items[0].pos);
      if status.Continue? { RunSettles(cfg, after, items[1..], f); }
    }
  }

  /** The LOAD DATA statements of a run, with the data due in their files. */
  function Promises(cfg: Config, s: State, book: Book, items: seq<Item>): seq<Promise>
    decreases |items|
  {
    if items == [] then []
    else
      var begun := Read(s, items[0].event);
      var (after, status) := Step(cfg, begun, items[0].event, items[0].pos);
      var rest := if status.Continue? then Promises(cfg, after, NoteStep(cfg, begun, book, items[0]), items[1..]) else [];
      match PromisedStep(cfg, begun, book, items[0])
      case None => rest
      case Some(p) => [p] + rest
  }

  function PrintedNames(ps: seq<Promise>): seq<string> {
    if ps == [] then [] else [Forward(ps[0].file)] + PrintedNames(ps[1..])
  }

  ghost predicate Kept(s: State, ps: seq<Promise>) {
    forall i :: 0 <= i < |ps| ==> Settled(s, ps[i].file) && s.files[ps[i].file] == ps[i].data
  }

  /** The first event of a run. */
  lemma {:induction false} Unroll(cfg: Config, s: State, book: Book, items: seq<Item>)
    returns (after: State, more: bool, book': Book, p: Option<Promise>)
    requires items != [] && Agree(s, book)
    ensures Run(cfg, s, items).0 == if more then Run(cfg, after, items[1..]).0 else after
    ensures Promises(cfg, s, book, items)
         == (if p.Some? then [p.value] else []) + (if more then Promises(cfg, after, book', items[1..]) else [])
    ensures more ==> Agree(after, book')
    ensures match p
            case None => LoadNames(after.out) == LoadNames(s.out)
            case Some(p) =>
              && LoadNames(after.out) == LoadNames(s.out) + [Forward(p.file)]
              && Settled(after, p.file) && after.files[p.file] == p.data
  {
    var begun := Read(s, items[0].event);
    assert Agree(begun, book);
    StepPromises(cfg, begun, book, items[0]);
    after, more := Step(cfg, begun, items[0].event, items[0].pos).0,
                   Step(cfg, begun, items[0].event, items[0].pos).1.Continue?;
    book' := NoteStep(cfg, begun, book, items[0]);
    p := PromisedStep(cfg, begun, book, items[0]);
    if more { StepAgrees(cfg, begun, book, items[0]); }
  }

  lemma {:induction false} PrintedNamesCons(p: Option<Promise>, rest: seq<Promise>)
    ensures PrintedNames((if p.Some? then [p.value] else []) + rest)
         == (if p.Some? then [Forward(p.value.file)] else []) + PrintedNames(rest)
  {
    if p.Some? {
      assert ([p.value] + rest)[1..] == rest;
    } else {
      assert [] + rest == rest;
    }
  }

  lemma {:induction false} AddPromise(s: State, after: State, final: State, p: Option<Promise>, rest: seq<Promise>)
    requires LoadNames(after.out) == LoadNames(s.out) + if p.Some? then [Forward(p.value.file)] else []
    requires LoadNames(final.out) == LoadNames(after.out) + PrintedNames(rest) && Kept(final, rest)
    requires p.Some? ==> Settled(final, p.value.file) && final.files[p.value.file] == p.value.data
    ensures var ps := (if p.Some? then [p.value] else []) + rest;
            LoadNames(final.out) == LoadNames(s.out) + PrintedNames(ps) && Kept(final, ps)
  {
    PrintedNamesCons(p, rest);
  }

  /**
    Over every stream of events, with any options: the printed LOAD DATA statements are those due by the book, in
    order, and when the run ends the file of each one holds exactly the first block and the blocks appended up
    to its Execute event; nothing after that touched it.
  */
  lemma {:induction false} RunKeepsPromises(cfg: Config, s: State, book: Book, items: seq<Item>)
    requires Agree(s, book)
    ensures var after := Run(cfg, s, items).0;
            var ps := Promises(cfg, s, book, items);
            LoadNames(after.out) == LoadNames(s.out) + PrintedNames(ps) && Kept(after, ps)
    decreases |items|
  {
    if items == [] {
      assert LoadNames(s.out) + [] == LoadNames(s.out);
    } else {
      var after, more, book', p := Unroll(cfg, s, book, items);
      var final := Run(cfg, s, items).0;
      var rest := if more then Promises(cfg, after, book', items[1..]) else [];
      if more {
        RunKeepsPromises(cfg, after, book', items[1..]);
        if p.Some? { RunSettles(cfg, after, items[1..], p.value.file); }
      }
      AddPromise(s, after, final, p, rest);
    }
  }

  /** The book after the events of a run that does not stop. */
  function NoteRun(cfg: Config, s: State, book: Book, items: seq<Item>): Book
    decreases |items|
  {
    if items == [] then book
    else
      var begun := Read(s, items[0].event);
      NoteRun(cfg, Step(cfg, begun, items[0].event, items[0].pos).0, NoteStep(cfg, begun, book, items[0]), items[1..])
  }

  lemma {:induction false} RunAgrees(cfg: Config, s: State, book: Book, items: seq<Item>)
    requires Agree(s, book) && Run(cfg, s, items).1.Continue?
    ensures Agree(Run(cfg, s, items).0, NoteRun(cfg, s, book, items))
    decreases |items|
  {
    if items != [] {
      var begun := Read(s, items[0].event);
      assert Agree(begun, book);
      StepAgrees(cfg, begun, book, items[0]);
      RunAgrees(cfg, Step(cfg, begun, items[0].event, items[0].pos).0, NoteStep(cfg, begun, book, items[0]), items[1..]);
    }
  }

  function PromisesOfLogs(cfg: Config, s: State, book: Book, logs: seq<Log>): seq<Promise>
    decreases |logs|
  {
    if logs == [] then []
    else
      var c, begun := For(cfg, logs), Begun(s, logs[0]);
      var (after, status) := RunLog(c, s, logs[0]);
      Promises(c, begun, book, logs[0].items) +
      if status.Continue? then PromisesOfLogs(cfg, after, NoteRun(c, begun, book, logs[0].items), logs[1..]) else []
  }

  lemma {:induction false} LogsSettle(cfg: Config, s: State, logs: seq<Log>, f: string)
    requires Settled(s, f)
    ensures var after := RunLogs(cfg, s, logs);
            Settled(after, f) && after.files[f] == s.files[f]
    decreases |logs|
  {
    if logs != [] {
      assert Settled(Begun(s, logs[0]), f);
      RunSettles(For(cfg, logs), Begun(s, logs[0]), logs[0].items, f);
      var (after, status) := RunLog(For(cfg, logs), s, logs[0]);
      assert Settled(after, f);
      if status.Continue? { LogsSettle(cfg, after, logs[1..], f); }
    }
  }

  lemma {:induction false} PrintedNamesJoin(a: seq<Promise>, b: seq<Promise>)
    ensures PrintedNames(a + b) == PrintedNames(a) + PrintedNames(b)
  {
    if a == [] {
      assert a + b == b;
    } else {
      assert (a + b)[1..] == a[1..] + b;
      PrintedNamesJoin(a[1..], b);
    }
  }

  lemma {:induction false} LogsKeep(cfg: Config, s: State, logs: seq<Log>, ps: seq<Promise>)
    requires Kept(s, ps)
    ensures Kept(RunLogs(cfg, s, logs), ps)
  {
    forall i | 0 <= i < |ps|
      ensures Settled(RunLogs(cfg, s, logs), ps[i].file) && RunLogs(cfg, s, logs).files[ps[i].file] == ps[i].data
    {
      LogsSettle(cfg, s, logs, ps[i].file);
    }
  }

  /** One log of the program. */
  lemma {:induction false} UnrollLog(cfg: Config, s: State, book: Book, logs: seq<Log>)
    returns (after: State, more: bool, book': Book, first: seq<Promise>)
    requires logs != [] && Agree(s, book)
    ensures RunLogs(cfg, s, logs) == if more then RunLogs(cfg, after, logs[1..]) else after
    ensures PromisesOfLogs(cfg, s, book, logs)
         == first + if more then PromisesOfLogs(cfg, after, book', logs[1..]) else []
    ensures more ==> Agree(after, book')
    ensures LoadNames(after.out) == LoadNames(s.out) + PrintedNames(first) && Kept(after, first)
  {
    var c, begun := For(cfg, logs), Begun(s, logs[0]);
    first := Promises(c, begun, book, logs[0].items);
    assert Agree(begun, book);
    RunKeepsPromises(c, begun, book, logs[0].items);
    after, more := RunLog(c, s, logs[0]).0, RunLog(c, s, logs[0]).1.Continue?;
    book' := NoteRun(c, begun, book, logs[0].items);
    if more { RunAgrees(c, begun, book, logs[0].items); }
  }

  lemma {:induction false} AddPromises(s: State, after: State, final: State, first: seq<Promise>, rest: seq<Promise>)
    requires LoadNames(after.out) == LoadNames(s.out) + PrintedNames(first)
    requires LoadNames(final.out) == LoadNames(after.out) + PrintedNames(rest)
    requires Kept(final, first) && Kept(final, rest)
    ensures LoadNames(final.out) == LoadNames(s.out) + PrintedNames(first + rest) && Kept(final, first + rest)
  {
    PrintedNamesJoin(first, rest);
  }

  /** The same over all logs of the program: later logs do not touch the files of earlier statements either. */
  lemma {:induction false} LogsKeepPromises(cfg: Config, s: State, book: Book, logs: seq<Log>)
    requires Agree(s, book)
    ensures var after := RunLogs(cfg, s, logs);
            var ps := PromisesOfLogs(cfg, s, book, logs);
            LoadNames(after.out) == LoadNames(s.out) + PrintedNames(ps) && Kept(after, ps)
    decreases |logs|
  {
    if logs == [] {
      assert LoadNames(s.out) + [] == LoadNames(s.out);
    } else {
      var after, more, book', first := UnrollLog(cfg, s, book, logs);
      if more {
        LogsKeepPromises(cfg, after, book', logs[1..]);
        LogsKeep(cfg, after, logs[1..], first);
        AddPromises(s, after, RunLogs(cfg, after, logs[1..]), first, PromisesOfLogs(cfg, after, book', logs[1..]));
      } else {
        assert first + [] == first;
      }
    }
  }

  /** The printed name is the name of the file if and only if it holds no backslash. */
  lemma {:induction false} PrintedNameIff(fname: string)
    ensures Forward(fname) == fname <==> '\\' !in fname
  {
    if '\\' in fname {
      var i :| 0 <= i < |fname| && fname[i] == '\\';
      assert Forward(fname)[i] == '/';
    }
  }

  lemma {:induction false} HexIsPlain(n: nat)
    ensures '\\' !in Hex(n)
  {
    if n >= 16 { HexIsPlain(n / 16); }
  }

  /** So it is for every temporary file exactly when directory and base name hold no backslash. */
  lemma {:induction false} TemporaryNameIff(cfg: Config, files: map<string, string>, name: string, fileId: nat)
    requires UniqueName(files, BaseName(cfg, name, fileId), 0).Some?
    ensures var fname := UniqueName(files, BaseName(cfg, name, fileId), 0).value;
            Forward(fname) == fname <==> '\\' !in cfg.directory && '\\' !in name
  {
    var base := BaseName(cfg, name, fileId);
    var v := UniqueVersion(files, base, 0);
    HexIsPlain(fileId);
    HexIsPlain(v);
    PrintedNameIff(base + "-" + Hex(v));
  }

  lemma {:induction false} UniqueVersion(files: map<string, string>, base: string, v: nat) returns (w: nat)
    requires v <= VERSIONS && UniqueName(files, base, v).Some?
    ensures UniqueName(files, base, v).value == base + "-" + Hex(w)
    decreases VERSIONS - v
  {
    if base + "-" + Hex(v) !in files { w := v; } else { w := UniqueVersion(files, base, v + 1); }
  }
}
