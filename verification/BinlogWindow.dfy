/** Which events of a log pass --offset, --start-datetime, --server-id, --stop-datetime and --stop-position. */
module BinlogWindow {
  import opened Text
  import opened Binlog

  /** What the window still waits for: the number of events before, --offset and --start-datetime. */
  datatype Window = Window(count: nat, offset: nat, startTime: nat)

  function WindowOf(s: State): Window {
    Window(s.recCount, s.offset, s.startTime)
  }

  predicate Format(item: Item) {
    item.event.kind.FormatDescription?
  }

  /** The event opens the window: it is no format event and meets both bounds. */
  predicate Starts(w: Window, items: seq<Item>, h: nat)
    requires h < |items|
  {
    !Format(items[h]) && w.count + h >= w.offset && items[h].event.when >= w.startTime
  }

  ghost predicate Inside(w: Window, items: seq<Item>, i: nat)
    requires i < |items|
  {
    Format(items[i]) || exists h :: 0 <= h <= i && Starts(w, items, h)
  }

  /** The event survives the server filter inside the window. */
  ghost predicate Wanted(cfg: Config, w: Window, items: seq<Item>, i: nat)
    requires i < |items|
  {
    Inside(w, items, i) && !OtherServer(cfg, items[i].event)
  }

  ghost predicate Stops(cfg: Config, w: Window, items: seq<Item>, i: nat)
    requires i < |items|
  {
    Wanted(cfg, w, items, i) && PastEnd(cfg, items[i].event, items[i].pos)
  }

  /** The wanted events from `i` up to the first one that reaches a stop bound. */
  ghost function Range(cfg: Config, w: Window, items: seq<Item>, i: nat): seq<Event>
    requires i <= |items|
    decreases |items| - i
  {
    if i == |items| || Stops(cfg, w, items, i) then []
    else (if Wanted(cfg, w, items, i) then [items[i].event] else []) + Range(cfg, w, items, i + 1)
  }

  /** The window after the first event. */
  function Next(w: Window, items: seq<Item>): Window
    requires items != []
  {
    if Starts(w, items, 0) then Window(w.count + 1, 0, 0) else Window(w.count + 1, w.offset, w.startTime)
  }

  lemma {:induction false} InsideShift(w: Window, items: seq<Item>, i: nat)
    requires i + 1 < |items|
    ensures Inside(Next(w, items), items[1..], i) <==> Inside(w, items, i + 1)
  {
    var w', rest := Next(w, items), items[1..];
    assert rest[i] == items[i + 1];
    if !Format(items[i + 1]) {
      if Starts(w, items, 0) {
        assert Starts(w', rest, i);
      } else {
        assert forall h :: 0 <= h <= i ==> (Starts(w', rest, h) <==> Starts(w, items, h + 1));
        if Inside(w, items, i + 1) {
          var h :| 0 <= h <= i + 1 && Starts(w, items, h);
          assert Starts(w', rest, h - 1);
        }
        if Inside(w', rest, i) {
          var h :| 0 <= h <= i && Starts(w', rest, h);
          assert Starts(w, items, h + 1);
        }
      }
    }
  }

  lemma {:induction false} RangeShift(cfg: Config, w: Window, items: seq<Item>, i: nat)
    requires items != [] && i + 1 <= |items|
    ensures Range(cfg, Next(w, items), items[1..], i) == Range(cfg, w, items, i + 1)
    decreases |items| - i
  {
    if i + 1 < |items| {
      InsideShift(w, items, i);
      RangeShift(cfg, w, items, i + 1);
    }
  }

  /** What one event does to the window, and when it ends the run. */
  lemma {:induction false} StepWindow(cfg: Config, s: State, items: seq<Item>)
    requires items != []
    ensures var begun := Read(s, items[0].event);
            var item := items[0];
            && (Decide(cfg, begun, item.event, item.pos).Take? <==>
                  Wanted(cfg, WindowOf(s), items, 0) && !Stops(cfg, WindowOf(s), items, 0))
            && (Decide(cfg, begun, item.event, item.pos).Halt? <==> Stops(cfg, WindowOf(s), items, 0))
            && (Step(cfg, begun, item.event, item.pos).1.Continue? ==>
                  WindowOf(Step(cfg, begun, item.event, item.pos).0) == Next(WindowOf(s), items))
  {
    var begun := Read(s, items[0].event);
    assert Inside(WindowOf(s), items, 0) <==> Format(items[0]) || Starts(WindowOf(s), items, 0);
    if Decide(cfg, begun, items[0].event, items[0].pos).Take? {
      WindowKept(cfg, Opened(begun, items[0].event), items[0].event);
    }
  }

  lemma {:induction false} WindowKept(cfg: Config, s: State, ev: Event)
    ensures WindowOf(Process(cfg, s, ev).0) == WindowOf(s)
  {
    if LoadKind(ev.kind) {
      assert WindowOf(ProcessLoad(cfg, s, ev).0) == WindowOf(s);
    } else if RowKind(ev.kind) {
      assert WindowOf(ProcessRow(cfg, s, ev).0) == WindowOf(s);
    }
  }

  /**
    The events processed by a run are exactly the range of the options: the wanted events from the first one that
    meets both start bounds, format events always, up to the first wanted event that reaches a stop bound.
    The run ends with that event, unless processing failed before.
  */
  lemma {:induction false} SeenIsRange(cfg: Config, s: State, items: seq<Item>)
    requires !Run(cfg, s, items).1.Error?
    ensures Seen(cfg, s, items) == Range(cfg, WindowOf(s), items, 0)
    ensures Run(cfg, s, items).1.Stop? <==> exists i :: 0 <= i < |items| && Stops(cfg, WindowOf(s), items, i)
    decreases |items|
  {
    if items != [] {
      StepWindow(cfg, s, items);
      var begun := Read(s, items[0].event);
      var (after, status) := Step(cfg, begun, items[0].event, items[0].pos);
      if status.Continue? {
        SeenIsRange(cfg, after, items[1..]);
        RangeShift(cfg, WindowOf(s), items, 0);
        StopsShift(cfg, WindowOf(s), items);
      } else {
        assert Stops(cfg, WindowOf(s), items, 0);
      }
    }
  }

  lemma {:induction false} StopsShift(cfg: Config, w: Window, items: seq<Item>)
    requires items != [] && !Stops(cfg, w, items, 0)
    ensures (exists i :: 0 <= i < |items| && Stops(cfg, w, items, i)) <==>
            (exists i :: 0 <= i < |items[1..]| && Stops(cfg, Next(w, items), items[1..], i))
  {
    forall i | 0 <= i < |items[1..]|
      ensures Stops(cfg, Next(w, items), items[1..], i) <==> Stops(cfg, w, items, i + 1)
    {
      InsideShift(w, items, i);
    }
    if i :| 0 <= i < |items| && Stops(cfg, w, items, i) {
      assert Stops(cfg, Next(w, items), items[1..], i - 1);
    }
  }
}
