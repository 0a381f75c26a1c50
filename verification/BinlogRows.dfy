/**
  Row events under --database: table maps of other databases and their rows are dropped, and an Annotate event
  waits until a table map that is printed shows that its statement is not filtered away.
*/
module BinlogRows {
  import opened Text
  import opened Binlog

  predicate EndsStatement(ev: Event) {
    ev.kind.Rows? && ev.kind.stmtEnd
  }

  predicate ShownMap(cfg: Config, ev: Event) {
    ev.kind.TableMap? && !Skips(cfg, ev.kind.db)
  }

  predicate SkippedMap(cfg: Config, ev: Event, tableId: nat) {
    ev.kind.TableMap? && ev.kind.tableId == tableId && Skips(cfg, ev.kind.db)
  }

  predicate KeptAnnotate(cfg: Config, ev: Event) {
    ev.kind.Annotate? && !cfg.skipAnnotate
  }

  /** Since the last end of a statement, a map of this table was dropped. */
  ghost predicate Dropped(cfg: Config, past: seq<Event>, tableId: nat) {
    exists i :: 0 <= i < |past| && SkippedMap(cfg, past[i], tableId) && SameStatement(past, i)
  }

  ghost predicate SameStatement(past: seq<Event>, i: nat) {
    forall k :: i < k < |past| ==> !EndsStatement(past[k])
  }

  /** After event `i`, nothing decided yet about its fate as an Annotate event. */
  ghost predicate Waiting(cfg: Config, past: seq<Event>, i: nat) {
    forall k :: i < k < |past| ==>
      !KeptAnnotate(cfg, past[k]) && !EndsStatement(past[k]) && !ShownMap(cfg, past[k])
  }

  /** The Annotate event that waits after the events `past`. */
  ghost predicate WaitsFor(cfg: Config, past: seq<Event>, i: nat) {
    i < |past| && KeptAnnotate(cfg, past[i]) && Waiting(cfg, past, i)
  }

  /** The table ids of the ignored maps after the events `past` of a log. */
  ghost predicate IgnoredAfter(cfg: Config, ignored: map<nat, nat>, past: seq<Event>) {
    forall t :: t in ignored <==> Dropped(cfg, past, t)
  }

  /** The kept Annotate event after the events `past`. */
  ghost predicate AnnotateAfter(cfg: Config, annotate: Option<nat>, past: seq<Event>) {
    && (forall i: nat :: WaitsFor(cfg, past, i) ==> annotate == Some(past[i].id))
    && (annotate.Some? ==> exists i: nat :: WaitsFor(cfg, past, i))
  }

  lemma {:induction false} DroppedNext(cfg: Config, past: seq<Event>, ev: Event, t: nat)
    ensures Dropped(cfg, past + [ev], t) <==>
              !EndsStatement(ev) && (SkippedMap(cfg, ev, t) || Dropped(cfg, past, t))
  {
    var next := past + [ev];
    if Dropped(cfg, next, t) {
      var i :| 0 <= i < |next| && SkippedMap(cfg, next[i], t) && SameStatement(next, i);
      if i < |past| {
        assert !EndsStatement(next[|past|]);
        assert SameStatement(past, i) by {
          assert forall k :: i < k < |past| ==> next[k] == past[k];
        }
      }
    }
    if !EndsStatement(ev) {
      if SkippedMap(cfg, ev, t) {
        assert SkippedMap(cfg, next[|past|], t) && SameStatement(next, |past|);
      } else if Dropped(cfg, past, t) {
        var i :| 0 <= i < |past| && SkippedMap(cfg, past[i], t) && SameStatement(past, i);
        assert SkippedMap(cfg, next[i], t) && SameStatement(next, i);
      }
    }
  }

  lemma {:induction false} WaitsNext(cfg: Config, past: seq<Event>, ev: Event, i: nat)
    ensures WaitsFor(cfg, past + [ev], i) <==>
              if i == |past| then KeptAnnotate(cfg, ev)
              else WaitsFor(cfg, past, i) && !KeptAnnotate(cfg, ev) && !EndsStatement(ev) && !ShownMap(cfg, ev)
  {
    var next := past + [ev];
    if i < |past| {
      assert next[i] == past[i];
      if WaitsFor(cfg, next, i) {
        assert !KeptAnnotate(cfg, next[|past|]);
        assert forall k :: i < k < |past| ==> next[k] == past[k];
      }
    }
  }

  /** The waiting Annotate event after one more event. */
  function NextAnnotate(cfg: Config, annotate: Option<nat>, ev: Event): Option<nat> {
    if KeptAnnotate(cfg, ev) then Some(ev.id)
    else if EndsStatement(ev) || ShownMap(cfg, ev) then None
    else annotate
  }

  lemma {:induction false} AnnotateNext(cfg: Config, annotate: Option<nat>, past: seq<Event>, ev: Event)
    requires AnnotateAfter(cfg, annotate, past)
    ensures AnnotateAfter(cfg, NextAnnotate(cfg, annotate, ev), past + [ev])
  {
    var next, annotate' := past + [ev], NextAnnotate(cfg, annotate, ev);
    forall i: nat | WaitsFor(cfg, next, i)
      ensures annotate' == Some(next[i].id)
    {
      WaitsNext(cfg, past, ev, i);
    }
    if annotate'.Some? {
      if KeptAnnotate(cfg, ev) {
        WaitsNext(cfg, past, ev, |past|);
      } else {
        var i: nat :| WaitsFor(cfg, past, i);
        WaitsNext(cfg, past, ev, i);
      }
    }
  }

  /** The ignored maps after one more event. */
  function NextIgnored(cfg: Config, ignored: map<nat, nat>, ev: Event): map<nat, nat> {
    if EndsStatement(ev) then map[]
    else if ev.kind.TableMap? && Skips(cfg, ev.kind.db) then ignored[ev.kind.tableId := ev.id]
    else ignored
  }

  lemma {:induction false} IgnoredNext(cfg: Config, ignored: map<nat, nat>, past: seq<Event>, ev: Event)
    requires IgnoredAfter(cfg, ignored, past)
    ensures IgnoredAfter(cfg, NextIgnored(cfg, ignored, ev), past + [ev])
  {
    forall t
      ensures t in NextIgnored(cfg, ignored, ev) <==> Dropped(cfg, past + [ev], t)
    {
      DroppedNext(cfg, past, ev, t);
    }
  }

  // --- What an event adds to the output ---

  /** The ids of the row events in an output, in order. */
  function RowIds(out: seq<Output>): seq<nat> {
    if out == [] then []
    else RowIds(out[..|out| - 1]) + if out[|out| - 1].PrintedRows? then [out[|out| - 1].id] else []
  }

  /** The ids of the Annotate events in an output, in order. */
  function AnnotateIds(out: seq<Output>): seq<nat> {
    if out == [] then []
    else AnnotateIds(out[..|out| - 1]) + if out[|out| - 1].PrintedAnnotate? then [out[|out| - 1].id] else []
  }

  lemma {:induction false} IdsAppend(out: seq<Output>, o: Output)
    ensures RowIds(out + [o]) == RowIds(out) + if o.PrintedRows? then [o.id] else []
    ensures AnnotateIds(out + [o]) == AnnotateIds(out) + if o.PrintedAnnotate? then [o.id] else []
  {
    assert (out + [o])[..|out|] == out;
  }

  function NextRows(ignored: map<nat, nat>, ev: Event): seq<nat> {
    if ev.kind.Rows? && ev.kind.tableId !in ignored then [ev.id] else []
  }

  function NextAnnotateOut(cfg: Config, annotate: Option<nat>, ev: Event): seq<nat> {
    if ShownMap(cfg, ev) && annotate.Some? then [annotate.value] else []
  }

  /** The part of the state that row events depend on, and what was printed of them. */
  datatype View = View(annotate: Option<nat>, ignored: map<nat, nat>, rows: seq<nat>, annotates: seq<nat>)

  function ViewOf(s: State): View {
    View(s.annotate, s.ignored, RowIds(s.out), AnnotateIds(s.out))
  }

  function NextView(cfg: Config, v: View, ev: Event): View {
    View(NextAnnotate(cfg, v.annotate, ev), NextIgnored(cfg, v.ignored, ev),
         v.rows + NextRows(v.ignored, ev), v.annotates + NextAnnotateOut(cfg, v.annotate, ev))
  }

  /** From s to s' the event ev was processed, as far as row events are concerned. */
  ghost predicate Took(cfg: Config, s: State, s': State, ev: Event) {
    ViewOf(s') == NextView(cfg, ViewOf(s), ev)
  }

  /** Nothing happened, as far as row events are concerned. */
  ghost predicate Same(s: State, s': State) {
    ViewOf(s') == ViewOf(s)
  }

  lemma {:induction false} OtherTook(cfg: Config, s: State, s': State, ev: Event)
    requires !RowKind(ev.kind) && Same(s, s')
    ensures Took(cfg, s, s', ev)
  {
  }

  lemma {:induction false} PrintSame(s: State, id: nat)
    ensures Same(s, s.Print(id))
  {
    IdsAppend(s.out, Printed(id));
  }

  lemma {:induction false} FirstEventSame(cfg: Config, s: State, name: string, fileId: nat, block: string, event: Option<nat>)
    ensures Same(s, FirstEvent(cfg, s, name, fileId, block, event).0)
  {
  }

  lemma {:induction false} ExecuteSame(cfg: Config, s: State, fileId: nat, db: Option<string>)
    ensures Same(s, Execute(s, fileId)) && Same(s, ExecuteQuery(cfg, s, fileId, db))
  {
    if fileId in s.loads {
      IdsAppend(s.out, LoadData(Forward(s.loads[fileId].fname)));
    }
  }

  lemma {:induction false} CreateSame(cfg: Config, s: State, ev: Event)
    requires ev.kind.CreateFile?
    ensures Same(s, ProcessLoad(cfg, s, ev).0)
  {
    PrintSame(s, ev.id);
    FirstEventSame(cfg, s.Print(ev.id), ev.kind.name, ev.kind.fileId, ev.kind.block, Some(ev.id));
  }

  lemma {:induction false} BeginSame(cfg: Config, s: State, ev: Event)
    requires ev.kind.BeginLoad?
    ensures Same(s, ProcessLoad(cfg, s, ev).0)
  {
    PrintSame(s, ev.id);
    FirstEventSame(cfg, s.Print(ev.id), "SQL_LOAD_MB", ev.kind.fileId, ev.kind.block, None);
  }

  lemma {:induction false} LoadSame(cfg: Config, s: State, ev: Event)
    requires LoadKind(ev.kind)
    ensures Same(s, ProcessLoad(cfg, s, ev).0)
  {
    if ev.kind.ExecLoad? {
      PrintSame(s, ev.id);
      ExecuteSame(cfg, s.Print(ev.id), ev.kind.fileId, None);
    } else if ev.kind.ExecuteLoadQuery? {
      ExecuteSame(cfg, s, ev.kind.fileId, ev.kind.db);
    } else if ev.kind.CreateFile? {
      CreateSame(cfg, s, ev);
    } else if ev.kind.BeginLoad? {
      BeginSame(cfg, s, ev);
    } else {
      PrintSame(s, ev.id);
    }
  }

  lemma {:induction false} PlainSame(cfg: Config, s: State, ev: Event)
    requires !LoadKind(ev.kind) && !RowKind(ev.kind)
    ensures Same(s, ProcessPlain(cfg, s, ev).0)
  {
    PrintSame(s, ev.id);
    assert ProcessPlain(cfg, s, ev).0.out == s.out || ProcessPlain(cfg, s, ev).0.out == s.Print(ev.id).out;
  }

  /** An Annotate event, if there is one, and a table map. */
  lemma {:induction false} MapIds(out: seq<Output>, annotate: Option<nat>, id: nat)
    ensures var all := out + (if annotate.Some? then [PrintedAnnotate(annotate.value)] else []) + [Printed(id)];
            && RowIds(all) == RowIds(out)
            && AnnotateIds(all) == AnnotateIds(out) + if annotate.Some? then [annotate.value] else []
  {
    var mid := out + if annotate.Some? then [PrintedAnnotate(annotate.value)] else [];
    IdsAppend(mid, Printed(id));
    if annotate.Some? {
      IdsAppend(out, PrintedAnnotate(annotate.value));
    } else {
      assert mid == out;
    }
  }

  lemma {:induction false} MapFields(cfg: Config, s: State, ev: Event)
    requires ShownMap(cfg, ev)
    ensures var after := ProcessRow(cfg, s, ev).0;
            && after.annotate.None? && after.ignored == s.ignored
            && after.out ==
               s.out + (if s.annotate.Some? then [PrintedAnnotate(s.annotate.value)] else []) + [Printed(ev.id)]
  {
  }

  lemma {:induction false} SkippedFields(cfg: Config, s: State, ev: Event)
    requires ev.kind.TableMap? && !ShownMap(cfg, ev)
    ensures var after := ProcessRow(cfg, s, ev).0;
            after.annotate == s.annotate && after.ignored == s.ignored[ev.kind.tableId := ev.id] && after.out == s.out
  {
  }

  lemma {:induction false} MapTook(cfg: Config, s: State, ev: Event)
    requires ev.kind.TableMap?
    ensures Took(cfg, s, ProcessRow(cfg, s, ev).0, ev)
  {
    if ShownMap(cfg, ev) {
      MapFields(cfg, s, ev);
      MapIds(s.out, s.annotate, ev.id);
    } else {
      SkippedFields(cfg, s, ev);
    }
  }

  lemma {:induction false} RowEventFields(s: State, tableId: nat, stmtEnd: bool, id: nat)
    ensures var after := RowEvent(s, tableId, stmtEnd, id);
            && after.out == (if tableId in s.ignored then s.out else s.out + [PrintedRows(id)])
            && after.annotate == (if stmtEnd then None else s.annotate)
            && after.ignored == (if stmtEnd then map[] else s.ignored)
  {
  }

  lemma {:induction false} RowOutIds(out: seq<Output>, shown: bool, id: nat)
    ensures var all := if shown then out + [PrintedRows(id)] else out;
            RowIds(all) == RowIds(out) + (if shown then [id] else []) && AnnotateIds(all) == AnnotateIds(out)
  {
    IdsAppend(out, PrintedRows(id));
  }

  lemma {:induction false} RowsNext(cfg: Config, s: State, after: State, ev: Event)
    requires ev.kind.Rows?
    requires after.out == (if ev.kind.tableId in s.ignored then s.out else s.out + [PrintedRows(ev.id)])
    requires after.annotate == (if ev.kind.stmtEnd then None else s.annotate)
    requires after.ignored == (if ev.kind.stmtEnd then map[] else s.ignored)
    ensures Took(cfg, s, after, ev)
  {
    RowOutIds(s.out, ev.kind.tableId !in s.ignored, ev.id);
    assert AnnotateIds(s.out) + [] == AnnotateIds(s.out);
  }

  lemma {:induction false} RowsTook(cfg: Config, s: State, ev: Event)
    requires ev.kind.Rows?
    ensures Took(cfg, s, RowEvent(s, ev.kind.tableId, ev.kind.stmtEnd, ev.id), ev)
  {
    RowEventFields(s, ev.kind.tableId, ev.kind.stmtEnd, ev.id);
    RowsNext(cfg, s, RowEvent(s, ev.kind.tableId, ev.kind.stmtEnd, ev.id), ev);
  }

  lemma {:induction false} ProcessTook(cfg: Config, s: State, ev: Event)
    ensures Took(cfg, s, Process(cfg, s, ev).0, ev)
  {
    if LoadKind(ev.kind) {
      LoadSame(cfg, s, ev);
      OtherTook(cfg, s, ProcessLoad(cfg, s, ev).0, ev);
    } else if RowKind(ev.kind) {
      if ev.kind.TableMap? {
        MapTook(cfg, s, ev);
      } else if ev.kind.Rows? {
        RowsTook(cfg, s, ev);
      }
    } else {
      PlainSame(cfg, s, ev);
      OtherTook(cfg, s, ProcessPlain(cfg, s, ev).0, ev);
    }
  }

  lemma {:induction false} TakenTook(cfg: Config, s: State, ev: Event)
    ensures Took(cfg, s, Taken(cfg, s, ev).0, ev)
  {
    ProcessTook(cfg, s, ev);
  }

  lemma {:induction false} StepTook(cfg: Config, s: State, ev: Event, pos: nat)
    ensures var after := Step(cfg, Read(s, ev), ev, pos).0;
            if Decide(cfg, Read(s, ev), ev, pos).Take? then Took(cfg, s, after, ev) else Same(s, after)
  {
    var begun := Opened(Read(s, ev), ev);
    assert ViewOf(begun) == ViewOf(s);
    if Decide(cfg, Read(s, ev), ev, pos).Take? {
      TakenTook(cfg, begun, ev);
    }
  }

  /** The view after some events. */
  function Fold(cfg: Config, v: View, evs: seq<Event>): View
    decreases |evs|
  {
    if evs == [] then v else Fold(cfg, NextView(cfg, v, evs[0]), evs[1..])
  }

  /** A run changes the view by the events it processes and by nothing else. */
  lemma {:induction false} RunIsFold(cfg: Config, s: State, items: seq<Item>)
    ensures ViewOf(Run(cfg, s, items).0) == Fold(cfg, ViewOf(s), Seen(cfg, s, items))
    decreases |items|
  {
    if items != [] {
      var after, status, took := RunCons(cfg, s, items);
      StepTook(cfg, s, items[0].event, items[0].pos);
      var rest := if status.Continue? then Seen(cfg, after, items[1..]) else [];
      if status.Continue? { RunIsFold(cfg, after, items[1..]); }
      FoldCons(cfg, ViewOf(s), ViewOf(after), items[0].event, took, rest);
    }
  }

  lemma {:induction false} FoldCons(cfg: Config, v: View, v': View, ev: Event, took: bool, rest: seq<Event>)
    requires v' == if took then NextView(cfg, v, ev) else v
    ensures Fold(cfg, v, (if took then [ev] else []) + rest) == Fold(cfg, v', rest)
  {
    if took {
      assert ([ev] + rest)[1..] == rest;
    } else {
      assert [] + rest == rest;
    }
  }

  // --- Row events of a run ---

  /** The ids of the row events from n on whose table has no dropped map in their statement. */
  ghost function ShownRows(cfg: Config, evs: seq<Event>, n: nat): seq<nat>
    requires n <= |evs|
    decreases |evs| - n
  {
    if n == |evs| then []
    else (if evs[n].kind.Rows? && !Dropped(cfg, evs[..n], evs[n].kind.tableId) then [evs[n].id] else []) +
         ShownRows(cfg, evs, n + 1)
  }

  lemma {:induction false} FirstRow(cfg: Config, ignored: map<nat, nat>, past: seq<Event>, ev: Event, rest: seq<Event>)
    requires IgnoredAfter(cfg, ignored, past)
    ensures ShownRows(cfg, past + [ev] + rest, |past|)
         == NextRows(ignored, ev) + ShownRows(cfg, past + [ev] + rest, |past| + 1)
  {
    assert (past + [ev] + rest)[..|past|] == past;
  }

  lemma {:induction false} FoldRows(cfg: Config, v: View, past: seq<Event>, evs: seq<Event>)
    requires IgnoredAfter(cfg, v.ignored, past)
    ensures Fold(cfg, v, evs).rows == v.rows + ShownRows(cfg, past + evs, |past|)
    decreases |evs|
  {
    if evs != [] {
      IgnoredNext(cfg, v.ignored, past, evs[0]);
      FirstRow(cfg, v.ignored, past, evs[0], evs[1..]);
      FoldRows(cfg, NextView(cfg, v, evs[0]), past + [evs[0]], evs[1..]);
      assert past + evs == past + [evs[0]] + evs[1..];
    }
  }

  /**
    Over every stream of events, the row events printed by a run are, in order, exactly those it processed whose
    table has no dropped map in their statement.
  */
  lemma {:induction false} RunPrintsRows(cfg: Config, s: State, items: seq<Item>)
    requires s.ignored == map[]
    ensures RowIds(Run(cfg, s, items).0.out) == RowIds(s.out) + ShownRows(cfg, Seen(cfg, s, items), 0)
  {
    RunIsFold(cfg, s, items);
    var evs := Seen(cfg, s, items);
    FoldRows(cfg, ViewOf(s), [], evs);
    assert [] + evs == evs;
  }

  /** A map of this table in the current statement is shown. */
  ghost predicate MapShown(cfg: Config, past: seq<Event>, tableId: nat) {
    exists m :: 0 <= m < |past| && MapOf(past, m, tableId) && !Skips(cfg, past[m].kind.db)
  }

  ghost predicate MapOf(past: seq<Event>, m: nat, tableId: nat)
    requires m < |past|
  {
    past[m].kind.TableMap? && past[m].kind.tableId == tableId && SameStatement(past, m)
  }

  /** The table was mapped in the current statement, and all its maps there fare alike. */
  ghost predicate Mapped(cfg: Config, past: seq<Event>, tableId: nat) {
    && (exists m :: 0 <= m < |past| && MapOf(past, m, tableId))
    && (forall i, j :: 0 <= i < |past| && 0 <= j < |past| && MapOf(past, i, tableId) && MapOf(past, j, tableId) ==>
          Skips(cfg, past[i].kind.db) == Skips(cfg, past[j].kind.db))
  }

  /** Each row event follows its table map within its statement. */
  ghost predicate AllMapped(cfg: Config, evs: seq<Event>) {
    forall n :: 0 <= n < |evs| && evs[n].kind.Rows? ==> Mapped(cfg, evs[..n], evs[n].kind.tableId)
  }

  lemma {:induction false} ShownIffNotDropped(cfg: Config, past: seq<Event>, t: nat)
    requires Mapped(cfg, past, t)
    ensures MapShown(cfg, past, t) <==> !Dropped(cfg, past, t)
  {
    var m :| 0 <= m < |past| && MapOf(past, m, t);
    if Skips(cfg, past[m].kind.db) {
      assert SkippedMap(cfg, past[m], t);
    } else {
      forall i | 0 <= i < |past| && SameStatement(past, i)
        ensures !SkippedMap(cfg, past[i], t)
      {
        assert past[i].kind.TableMap? && past[i].kind.tableId == t ==> MapOf(past, i, t);
      }
    }
  }

  /** The ids of the row events from n on whose map belongs to the database. */
  ghost function OwnRows(cfg: Config, evs: seq<Event>, n: nat): seq<nat>
    requires n <= |evs|
    decreases |evs| - n
  {
    if n == |evs| then []
    else (if evs[n].kind.Rows? && MapShown(cfg, evs[..n], evs[n].kind.tableId) then [evs[n].id] else []) +
         OwnRows(cfg, evs, n + 1)
  }

  lemma {:induction false} OwnIsShown(cfg: Config, evs: seq<Event>, n: nat)
    requires n <= |evs| && AllMapped(cfg, evs)
    ensures OwnRows(cfg, evs, n) == ShownRows(cfg, evs, n)
    decreases |evs| - n
  {
    if n < |evs| {
      OwnIsShown(cfg, evs, n + 1);
      if evs[n].kind.Rows? { ShownIffNotDropped(cfg, evs[..n], evs[n].kind.tableId); }
    }
  }

  /**
    When each processed row event follows its table map within its statement, a run prints exactly those row events
    whose map belongs to the database.
  */
  lemma {:induction false} RunPrintsOwnRows(cfg: Config, s: State, items: seq<Item>)
    requires s.ignored == map[] && AllMapped(cfg, Seen(cfg, s, items))
    ensures RowIds(Run(cfg, s, items).0.out) == RowIds(s.out) + OwnRows(cfg, Seen(cfg, s, items), 0)
  {
    RunPrintsRows(cfg, s, items);
    OwnIsShown(cfg, Seen(cfg, s, items), 0);
  }

  function Events(items: seq<Item>): seq<Event> {
    if items == [] then [] else [items[0].event] + Events(items[1..])
  }

  /** A row event that the options let through. */
  predicate Passes(cfg: Config, item: Item) {
    RowKind(item.event.kind) && item.event.when < cfg.stopTime && item.pos < cfg.stopPosition
  }

  lemma {:induction false} StepPasses(cfg: Config, s: State, item: Item)
    requires cfg.serverId == 0 && s.offset == 0 && s.startTime == 0 && Passes(cfg, item)
    ensures var begun := Read(s, item.event);
            var (after, status) := Step(cfg, begun, item.event, item.pos);
            && Decide(cfg, begun, item.event, item.pos).Take? && status.Continue?
            && after.offset == 0 && after.startTime == 0
  {
    var begun := Opened(Read(s, item.event), item.event);
    assert ProcessRow(cfg, begun, item.event).0.offset == 0 && ProcessRow(cfg, begun, item.event).0.startTime == 0;
  }

  lemma {:induction false} SeenPasses(cfg: Config, s: State, items: seq<Item>)
    requires cfg.serverId == 0 && s.offset == 0 && s.startTime == 0
    requires forall i :: 0 <= i < |items| ==> Passes(cfg, items[i])
    ensures Seen(cfg, s, items) == Events(items)
    decreases |items|
  {
    if items != [] {
      StepPasses(cfg, s, items[0]);
      var after, status, took := RunCons(cfg, s, items);
      SeenPasses(cfg, after, items[1..]);
    }
  }

  /** A run over a map of another database, a map of this one under the same table id, and a row event of the table. */
  ghost predicate Remapped(cfg: Config, items: seq<Item>) {
    && |items| == 3 && (forall i :: 0 <= i < |items| ==> Passes(cfg, items[i]))
    && items[2].event.kind.Rows?
    && SkippedMap(cfg, items[0].event, items[2].event.kind.tableId)
    && ShownMap(cfg, items[1].event) && items[1].event.kind.tableId == items[2].event.kind.tableId
  }

  /** The row event is lost, although the last map of its table belongs to the database. */
  lemma {:induction false} RemappedRowsAreLost(cfg: Config, s: State, items: seq<Item>)
    requires cfg.serverId == 0 && s.offset == 0 && s.startTime == 0 && s.ignored == map[] && Remapped(cfg, items)
    ensures items[2].event in Seen(cfg, s, items)
    ensures RowIds(Run(cfg, s, items).0.out) == RowIds(s.out)
  {
    SeenPasses(cfg, s, items);
    ThreeEvents(items);
    RunPrintsRows(cfg, s, items);
    RemappedShowsNone(cfg, items[0].event, items[1].event, items[2].event);
    assert RowIds(s.out) + [] == RowIds(s.out);
  }

  lemma {:induction false} ThreeEvents(items: seq<Item>)
    requires |items| == 3
    ensures Events(items) == [items[0].event, items[1].event, items[2].event]
  {
    assert items[1..][1..] == items[2..] && items[2..][1..] == [];
    assert Events(items[2..]) == [items[2].event];
    assert Events(items[1..]) == [items[1].event] + Events(items[2..]);
    assert Events(items) == [items[0].event] + Events(items[1..]);
  }

  lemma {:induction false} RemappedShowsNone(cfg: Config, other: Event, mine: Event, row: Event)
    requires row.kind.Rows? && SkippedMap(cfg, other, row.kind.tableId) && ShownMap(cfg, mine)
    ensures ShownRows(cfg, [other, mine, row], 0) == []
  {
    var evs := [other, mine, row];
    var past := evs[..2];
    assert SkippedMap(cfg, past[0], row.kind.tableId) && SameStatement(past, 0);
    assert ShownRows(cfg, evs, 3) == [] && ShownRows(cfg, evs, 2) == [] && ShownRows(cfg, evs, 1) == [];
  }

  /** Such a run: with --database=a, a table of database "b" and then one of "a" under the table id 7. */
  lemma {:induction false} RemappedRun() returns (cfg: Config, s: State, items: seq<Item>)
    ensures Remapped(cfg, items) && s.out == [] && RowIds(Run(cfg, s, items).0.out) == []
  {
    cfg := Config(Some("a"), false, false, 0, 10, 10, "");
    s := State(0, 0, 0, Description(0, 4, false), None, map[], map[], map[], {0}, {}, []);
    items := [Item(Event(1, 0, 0, TableMap(7, Some("b"))), 4), Item(Event(2, 0, 0, TableMap(7, Some("a"))), 5),
              Item(Event(3, 0, 0, Rows(7, true)), 6)];
    RemappedRowsAreLost(cfg, s, items);
  }

  // --- Annotate events of a run ---

  /** A table map that is shown follows before the next Annotate event and before the end of the statement. */
  ghost predicate FollowedByMap(cfg: Config, evs: seq<Event>, i: nat) {
    exists j :: i < j < |evs| && ShownMap(cfg, evs[j]) && Undisturbed(cfg, evs, i, j)
  }

  ghost predicate Undisturbed(cfg: Config, evs: seq<Event>, i: nat, j: nat)
    requires j <= |evs|
  {
    forall k :: i < k < j ==> !KeptAnnotate(cfg, evs[k]) && !EndsStatement(evs[k])
  }

  /** The ids of the Annotate events before n that a shown map follows in time. */
  ghost function FollowedIds(cfg: Config, evs: seq<Event>, n: nat): seq<nat>
    requires n <= |evs|
  {
    if n == 0 then []
    else FollowedIds(cfg, evs, n - 1) +
         if KeptAnnotate(cfg, evs[n - 1]) && FollowedByMap(cfg, evs, n - 1) then [evs[n - 1].id] else []
  }

  /** One more event decides only about the Annotate event that waits. */
  lemma {:induction false} FollowedNext(cfg: Config, past: seq<Event>, ev: Event, i: nat)
    requires i < |past| && KeptAnnotate(cfg, past[i])
    ensures FollowedByMap(cfg, past + [ev], i) <==>
              FollowedByMap(cfg, past, i) || (ShownMap(cfg, ev) && WaitsFor(cfg, past, i))
  {
    var next := past + [ev];
    if FollowedByMap(cfg, next, i) {
      var j :| i < j < |next| && ShownMap(cfg, next[j]) && Undisturbed(cfg, next, i, j);
      assert forall k :: i < k < j ==> next[k] == past[k];
      if j < |past| {
        assert Undisturbed(cfg, past, i, j);
      } else if !Waiting(cfg, past, i) {
        var k :| i < k < |past| && (KeptAnnotate(cfg, past[k]) || EndsStatement(past[k]) || ShownMap(cfg, past[k]));
        assert next[k] == past[k];
        assert Undisturbed(cfg, past, i, k);
      }
    }
    if FollowedByMap(cfg, past, i) {
      var j :| i < j < |past| && ShownMap(cfg, past[j]) && Undisturbed(cfg, past, i, j);
      assert next[j] == past[j] && Undisturbed(cfg, next, i, j);
    }
    if ShownMap(cfg, ev) && WaitsFor(cfg, past, i) {
      assert next[|past|] == ev && Undisturbed(cfg, next, i, |past|);
    }
  }

  /** At most one Annotate event waits. */
  lemma {:induction false} OneWaits(cfg: Config, past: seq<Event>, i: nat, j: nat)
    requires WaitsFor(cfg, past, i) && WaitsFor(cfg, past, j)
    ensures i == j
  {
  }

  lemma {:induction false} FollowedIdsNext(cfg: Config, past: seq<Event>, ev: Event, annotate: Option<nat>, n: nat)
    requires AnnotateAfter(cfg, annotate, past) && n <= |past|
    ensures FollowedIds(cfg, past + [ev], n)
         == FollowedIds(cfg, past, n) +
            if exists i: nat :: i < n && WaitsFor(cfg, past, i) then NextAnnotateOut(cfg, annotate, ev) else []
  {
    if n > 0 {
      var next, i := past + [ev], n - 1;
      assert next[i] == past[i];
      FollowedIdsNext(cfg, past, ev, annotate, i);
      if KeptAnnotate(cfg, past[i]) { FollowedNext(cfg, past, ev, i); }
      if WaitsFor(cfg, past, i) {
        assert annotate == Some(past[i].id);
        assert !FollowedByMap(cfg, past, i);
        forall k: nat | k < i ensures !WaitsFor(cfg, past, k) {
          if WaitsFor(cfg, past, k) { OneWaits(cfg, past, i, k); }
        }
      } else if exists k: nat :: k < n && WaitsFor(cfg, past, k) {
        var k: nat :| k < n && WaitsFor(cfg, past, k);
        assert k < i && !KeptAnnotate(cfg, past[i]);
      }
    }
  }

  lemma {:induction false} AnnotateTaken(cfg: Config, past: seq<Event>, ev: Event, annotate: Option<nat>)
    requires AnnotateAfter(cfg, annotate, past)
    ensures FollowedIds(cfg, past + [ev], |past| + 1)
         == FollowedIds(cfg, past, |past|) + NextAnnotateOut(cfg, annotate, ev)
  {
    FollowedIdsNext(cfg, past, ev, annotate, |past|);
    assert !FollowedByMap(cfg, past + [ev], |past|);
    if annotate.Some? {
      var i: nat :| WaitsFor(cfg, past, i);
      assert i < |past|;
    }
  }

  lemma {:induction false} FoldAnnotates(cfg: Config, v: View, past: seq<Event>, evs: seq<Event>)
    requires AnnotateAfter(cfg, v.annotate, past) && v.annotates == FollowedIds(cfg, past, |past|)
    ensures var all, after := past + evs, Fold(cfg, v, evs);
            after.annotates == FollowedIds(cfg, all, |all|) && AnnotateAfter(cfg, after.annotate, all)
    decreases |evs|
  {
    if evs == [] {
      assert past + [] == past;
    } else {
      AnnotateNext(cfg, v.annotate, past, evs[0]);
      AnnotateTaken(cfg, past, evs[0], v.annotate);
      FoldAnnotates(cfg, NextView(cfg, v, evs[0]), past + [evs[0]], evs[1..]);
      assert past + evs == past + [evs[0]] + evs[1..];
    }
  }

  /**
    Over every stream of events, the Annotate events printed by a run are, in order and each once, exactly those
    kept ones that a shown table map follows before the next Annotate event and before the end of the statement.
  */
  lemma {:induction false} RunPrintsAnnotates(cfg: Config, s: State, items: seq<Item>)
    requires s.annotate.None? && AnnotateIds(s.out) == []
    ensures var evs := Seen(cfg, s, items);
            AnnotateIds(Run(cfg, s, items).0.out) == FollowedIds(cfg, evs, |evs|)
  {
    RunIsFold(cfg, s, items);
    var evs := Seen(cfg, s, items);
    FoldAnnotates(cfg, ViewOf(s), [], evs);
    assert [] + evs == evs;
  }

  // --- All logs of the program ---

  /** The events processed in the logs, log after log. */
  function SeenOfLogs(cfg: Config, s: State, logs: seq<Log>): seq<seq<Event>>
    decreases |logs|
  {
    if logs == [] then []
    else
      var (after, status) := RunLog(For(cfg, logs), s, logs[0]);
      [Seen(For(cfg, logs), Begun(s, logs[0]), logs[0].items)] +
      if status.Continue? then SeenOfLogs(cfg, after, logs[1..]) else []
  }

  function Joined(evs: seq<seq<Event>>): seq<Event> {
    if evs == [] then [] else evs[0] + Joined(evs[1..])
  }

  ghost function ShownRowsOfLogs(cfg: Config, evs: seq<seq<Event>>): seq<nat> {
    if evs == [] then [] else ShownRows(cfg, evs[0], 0) + ShownRowsOfLogs(cfg, evs[1..])
  }

  /** The view after some logs: the ignored maps are cleared after each. */
  function FoldLogs(cfg: Config, v: View, evs: seq<seq<Event>>): View
    decreases |evs|
  {
    if evs == [] then v else FoldLogs(cfg, Fold(cfg, v, evs[0]).(ignored := map[]), evs[1..])
  }

  lemma {:induction false} FoldConfig(cfg: Config, c: Config, v: View, evs: seq<Event>)
    requires c.database == cfg.database && c.skipAnnotate == cfg.skipAnnotate
    ensures Fold(c, v, evs) == Fold(cfg, v, evs)
    decreases |evs|
  {
    if evs != [] {
      assert NextView(c, v, evs[0]) == NextView(cfg, v, evs[0]);
      FoldConfig(cfg, c, NextView(cfg, v, evs[0]), evs[1..]);
    }
  }

  lemma {:induction false} RunLogIsFold(cfg: Config, logs: seq<Log>, s: State)
    requires logs != []
    ensures ViewOf(RunLog(For(cfg, logs), s, logs[0]).0)
         == Fold(cfg, ViewOf(s), Seen(For(cfg, logs), Begun(s, logs[0]), logs[0].items)).(ignored := map[])
  {
    var c, begun := For(cfg, logs), Begun(s, logs[0]);
    RunIsFold(c, begun, logs[0].items);
    FoldConfig(cfg, c, ViewOf(s), Seen(c, begun, logs[0].items));
  }

  lemma {:induction false} RunLogsIsFold(cfg: Config, s: State, logs: seq<Log>)
    ensures ViewOf(RunLogs(cfg, s, logs)) == FoldLogs(cfg, ViewOf(s), SeenOfLogs(cfg, s, logs))
    decreases |logs|
  {
    if logs != [] {
      RunLogIsFold(cfg, logs, s);
      var (after, status) := RunLog(For(cfg, logs), s, logs[0]);
      var evs := Seen(For(cfg, logs), Begun(s, logs[0]), logs[0].items);
      if status.Continue? {
        RunLogsIsFold(cfg, after, logs[1..]);
        assert ([evs] + SeenOfLogs(cfg, after, logs[1..]))[1..] == SeenOfLogs(cfg, after, logs[1..]);
      } else {
        assert [evs][1..] == [] && [evs] + [] == [evs];
      }
    }
  }

  lemma {:induction false} FoldLogsRows(cfg: Config, v: View, evs: seq<seq<Event>>)
    requires v.ignored == map[]
    ensures FoldLogs(cfg, v, evs).rows == v.rows + ShownRowsOfLogs(cfg, evs)
    decreases |evs|
  {
    if evs != [] {
      FoldRows(cfg, v, [], evs[0]);
      assert [] + evs[0] == evs[0];
      FoldLogsRows(cfg, Fold(cfg, v, evs[0]).(ignored := map[]), evs[1..]);
    }
  }

  lemma {:induction false} FoldLogsAnnotates(cfg: Config, v: View, past: seq<Event>, evs: seq<seq<Event>>)
    requires AnnotateAfter(cfg, v.annotate, past) && v.annotates == FollowedIds(cfg, past, |past|)
    ensures var all := past + Joined(evs); FoldLogs(cfg, v, evs).annotates == FollowedIds(cfg, all, |all|)
    decreases |evs|
  {
    if evs == [] {
      assert past + [] == past;
    } else {
      FoldAnnotates(cfg, v, past, evs[0]);
      FoldLogsAnnotates(cfg, Fold(cfg, v, evs[0]).(ignored := map[]), past + evs[0], evs[1..]);
      assert past + (evs[0] + Joined(evs[1..])) == past + evs[0] + Joined(evs[1..]);
    }
  }

  /** The row events printed by the whole program. */
  lemma {:induction false} ProgramPrintsRows(cfg: Config, s: State, logs: seq<Log>)
    requires s.ignored == map[]
    ensures RowIds(RunLogs(cfg, s, logs).out) == RowIds(s.out) + ShownRowsOfLogs(cfg, SeenOfLogs(cfg, s, logs))
  {
    RunLogsIsFold(cfg, s, logs);
    FoldLogsRows(cfg, ViewOf(s), SeenOfLogs(cfg, s, logs));
  }

  /**
    The Annotate events printed by the whole program: an event that waits at the end of a log waits on in the next
    one, so the rule is that of one stream.
  */
  lemma {:induction false} ProgramPrintsAnnotates(cfg: Config, s: State, logs: seq<Log>)
    requires s.annotate.None? && AnnotateIds(s.out) == []
    ensures var evs := Joined(SeenOfLogs(cfg, s, logs));
            AnnotateIds(RunLogs(cfg, s, logs).out) == FollowedIds(cfg, evs, |evs|)
  {
    RunLogsIsFold(cfg, s, logs);
    var evs := SeenOfLogs(cfg, s, logs);
    FoldLogsAnnotates(cfg, ViewOf(s), [], evs);
    assert [] + Joined(evs) == Joined(evs);
  }
}
