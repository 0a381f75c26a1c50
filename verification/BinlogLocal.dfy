/**
  Reading a local log (`dump_local_log_entries`, `check_header`) compared with reading it from a server: which of the
  log's own events the two select.
*/
module BinlogLocal {
  import opened Text
  import opened Binlog
  import opened BinlogReplayer
  import opened BinlogRemote
  import BinlogWindow

  /** A format event that becomes the description without being processed. */
  function Install(s: State, ev: Event): State
    requires ev.kind.FormatDescription?
  {
    s.Free(s.description.id).(description := Description(ev.id, ev.kind.version, ev.kind.inUse))
  }

  /**
    `check_header`: the format event in front of the start position is processed when the base64 mode is AUTO or
    ALWAYS, and only installed otherwise.  Rotate events there are read and deleted at once.
  */
  function CheckHeader(cfg: Config, processes: bool, s: State, log: seq<Packet>, off: nat, start: nat): (State, Status)
    decreases |log|
  {
    if log == [] || off >= start then (s, Continue)
    else
      var ev := log[0].event;
      if ev.kind.FormatDescription? then
        var (after, status) := if processes then Step(cfg, Read(s, ev), ev, off) else (Install(Read(s, ev), ev), Continue);
        if status.Continue? then CheckHeader(cfg, processes, after, log[1..], off + log[0].size, start)
        else (after, status)
      else if ev.kind.Rotate? then CheckHeader(cfg, processes, s, log[1..], off + log[0].size, start)
      else (s, Continue)
  }

  /** The local dump of a log whose part from the start position on is `log`. */
  function LocalRun(cfg: Config, processes: bool, s: State, prefix: seq<Packet>, log: seq<Packet>, start: nat)
    : (State, Status)
  {
    var (after, status) := CheckHeader(cfg, processes, s, prefix + log, HEADER, start);
    if status.Continue? then Run(cfg, after, Located(log, start)) else (after, status)
  }

  /** The log's own events from the start position on that the local dump selects. */
  function LocalOwn(cfg: Config, processes: bool, s: State, prefix: seq<Packet>, log: seq<Packet>, start: nat): seq<Event> {
    var (after, status) := CheckHeader(cfg, processes, s, prefix + log, HEADER, start);
    if status.Continue? then Seen(cfg, after, Located(log, start)) else []
  }

  /** What is selected behind the first event of a stream. */
  function SeenBehind(cfg: Config, s: State, items: seq<Item>): seq<Event>
    requires items != []
  {
    var (after, status) := Step(cfg, Read(s, items[0].event), items[0].event, items[0].pos);
    if status.Continue? then Seen(cfg, after, items[1..]) else []
  }

  /** The log's own events that the remote dump selects: all it selects but the server's copy of the format event. */
  function RemoteOwn(cfg: Config, s: State, packets: seq<Packet>, start: nat): seq<Event> {
    var items := Tracked(packets, start, false);
    if start == HEADER || items == [] then Seen(cfg, s, items) else SeenBehind(cfg, s, items)
  }

  /**
    A log and a request for it: the events in front of the start position, the format event the log begins with, and
    what the server sends around the log.
  */
  datatype Request = Request(prefix: seq<Packet>, start: nat, format: Packet, rotate: Packet, next: seq<Packet>) {
    /** Where the events behind the format event are read from. */
    function At(): nat {
      if start == HEADER then HEADER + format.size else start
    }

    /** The log from the start position on, of which `rest` is behind the format event. */
    function From(rest: seq<Packet>): seq<Packet> {
      if start == HEADER then [format] + rest else rest
    }

    ghost predicate Valid() {
      && RealLog(prefix, HEADER) && EndOf(prefix, HEADER) == start
      && format.event.kind.FormatDescription? && format.size >= EVENT_SIZE && (prefix != [] ==> prefix[0] == format)
      && FakeRotate(rotate) && rotate.ours && (next == [] || (FakeRotate(next[0]) && !next[0].ours))
    }

    function Stream(skip: bool, rest: seq<Packet>): seq<Packet> {
      Sent(skip, rotate, format, From(rest), start, next)
    }
  }

  lemma {:induction false} EndGrows(log: seq<Packet>, off: nat)
    requires RealLog(log, off)
    ensures EndOf(log, off) >= off && (log != [] ==> EndOf(log, off) >= off + log[0].size)
  {
    if log != [] { EndGrows(log[1..], off + log[0].size); }
  }

  /** Behind the format event `check_header` changes nothing. */
  lemma {:induction false} NothingMore(cfg: Config, processes: bool, s: State, log: seq<Packet>, rest: seq<Packet>,
                                       off: nat, start: nat)
    requires RealLog(log, off) && off > HEADER && EndOf(log, off) == start
    ensures CheckHeader(cfg, processes, s, log + rest, off, start) == (s, Continue)
    decreases |log|
  {
    if log != [] {
      assert (log + rest)[1..] == log[1..] + rest;
      NothingMore(cfg, processes, s, log[1..], rest, off + log[0].size, start);
    }
  }

  /** What `check_header` does to the format event of a log, when reading starts behind it. */
  function Headed(cfg: Config, processes: bool, s: State, ev: Event): (State, Status)
    requires ev.kind.FormatDescription?
  {
    if processes then Step(cfg, Read(s, ev), ev, HEADER) else (Install(Read(s, ev), ev), Continue)
  }

  lemma {:induction false} CheckHeaderIs(cfg: Config, processes: bool, s: State, prefix: seq<Packet>, log: seq<Packet>,
                                         start: nat)
    requires RealLog(prefix, HEADER) && EndOf(prefix, HEADER) == start
    requires prefix != [] ==> prefix[0].event.kind.FormatDescription?
    ensures CheckHeader(cfg, processes, s, prefix + log, HEADER, start)
         == if start == HEADER then (s, Continue) else Headed(cfg, processes, s, prefix[0].event)
  {
    EndGrows(prefix, HEADER);
    if start != HEADER {
      var (after, status) := Headed(cfg, processes, s, prefix[0].event);
      assert (prefix + log)[1..] == prefix[1..] + log;
      if status.Continue? {
        NothingMore(cfg, processes, after, prefix[1..], log, HEADER + prefix[0].size, start);
      }
    }
  }

  /** What the local dump selects behind the format event. */
  function LocalBehind(cfg: Config, processes: bool, s: State, format: Event, rest: seq<Packet>, at: nat): seq<Event>
    requires format.kind.FormatDescription?
  {
    var (after, status) := Headed(cfg, processes, s, format);
    if status.Continue? then Seen(cfg, after, Located(rest, at)) else []
  }

  /** What the remote dump selects behind the format event. */
  function RemoteBehind(cfg: Config, s: State, format: Event, start: nat, rest: seq<Packet>, at: nat): seq<Event> {
    var (after, status) := Step(cfg, Read(s, Closed(format)), Closed(format), start);
    if status.Continue? then Seen(cfg, after, Located(Wire(cfg.skipAnnotate, rest), at)) else []
  }

  /** Events as the server sends them. */
  function Shown(skip: bool, events: seq<Event>): seq<Event> {
    if events == [] then []
    else (if LeftOut(skip, events[0]) then [] else [Closed(events[0])]) + Shown(skip, events[1..])
  }

  /** The two dumps select the same of the log's own events, but for those that are not sent. */
  ghost predicate Agree(cfg: Config, processes: bool, s: State, q: Request, rest: seq<Packet>) {
    RemoteOwn(cfg, s, q.Stream(cfg.skipAnnotate, rest), q.start)
    == Shown(cfg.skipAnnotate, LocalOwn(cfg, processes, s, q.prefix, q.From(rest), q.start))
  }

  /** The format event at the front of a log is processed whatever the base64 mode. */
  predicate Processes(processes: bool, q: Request) {
    processes || q.start == HEADER
  }

  lemma {:induction false} RealFrom(q: Request, rest: seq<Packet>)
    requires q.Valid() && RealLog(rest, q.At())
    ensures RealLog(q.From(rest), q.start) && q.At() > HEADER && q.start <= q.At()
    ensures q.start == HEADER <==> q.prefix == []
  {
    EndGrows(q.prefix, HEADER);
    if q.start == HEADER { assert ([q.format] + rest)[1..] == rest; }
  }

  /** A format event is selected by its time and position alone. */
  lemma {:induction false} FirstSeen(cfg: Config, s: State, format: Event, off: nat, items: seq<Item>)
    requires format.kind.FormatDescription?
    ensures Seen(cfg, s, [Item(format, off)] + items)
         == (if PastEnd(cfg, format, off) then [] else [format]) + SeenBehind(cfg, s, [Item(format, off)] + items)
  {
    var all := [Item(format, off)] + items;
    var after, status, took := RunCons(cfg, s, all);
  }

  lemma {:induction false} BehindIs(cfg: Config, s: State, ev: Event, off: nat, items: seq<Item>)
    ensures SeenBehind(cfg, s, [Item(ev, off)] + items)
         == var (after, status) := Step(cfg, Read(s, ev), ev, off);
            if status.Continue? then Seen(cfg, after, items) else []
  {
    assert ([Item(ev, off)] + items)[1..] == items;
  }

  /** The remote stream is the format event and what is sent behind it. */
  lemma {:induction false} StreamTracked(skip: bool, q: Request, rest: seq<Packet>)
    requires q.Valid() && RealLog(rest, q.At())
    ensures Tracked(q.Stream(skip, rest), q.start, false)
         == [Item(Closed(q.format.event), q.start)] + Located(Wire(skip, rest), q.At())
  {
    RealFrom(q, rest);
    RemoteIsLocal(skip, q.rotate, q.format, q.From(rest), q.start, q.next);
    if q.start == HEADER {
      WireCons(skip, q.format, rest);
      LocatedCons(q.format.(event := Closed(q.format.event)), Wire(skip, rest), HEADER);
    }
  }

  lemma {:induction false} RemoteOwnIs(cfg: Config, s: State, q: Request, rest: seq<Packet>)
    requires q.Valid() && RealLog(rest, q.At())
    ensures RemoteOwn(cfg, s, q.Stream(cfg.skipAnnotate, rest), q.start)
         == (if q.start != HEADER || PastEnd(cfg, q.format.event, HEADER) then [] else [Closed(q.format.event)]) +
            RemoteBehind(cfg, s, q.format.event, q.start, rest, q.At())
  {
    var c, items := Closed(q.format.event), Located(Wire(cfg.skipAnnotate, rest), q.At());
    StreamTracked(cfg.skipAnnotate, q, rest);
    if q.start == HEADER { FirstSeen(cfg, s, c, HEADER, items); }
    BehindIs(cfg, s, c, q.start, items);
  }

  /** The local dump of the log. */
  lemma {:induction false} LocalOwnIs(cfg: Config, processes: bool, s: State, q: Request, rest: seq<Packet>)
    requires q.Valid() && RealLog(rest, q.At())
    ensures LocalOwn(cfg, processes, s, q.prefix, q.From(rest), q.start)
         == (if q.start != HEADER || PastEnd(cfg, q.format.event, HEADER) then [] else [q.format.event]) +
            LocalBehind(cfg, Processes(processes, q), s, q.format.event, rest, q.At())
  {
    RealFrom(q, rest);
    CheckHeaderIs(cfg, processes, s, q.prefix, q.From(rest), q.start);
    if q.start == HEADER {
      FrontSeen(cfg, s, q.format, rest);
    }
  }

  /** Reading from the front of a log. */
  lemma {:induction false} FrontSeen(cfg: Config, s: State, format: Packet, rest: seq<Packet>)
    requires format.event.kind.FormatDescription?
    ensures Seen(cfg, s, Located([format] + rest, HEADER))
         == (if PastEnd(cfg, format.event, HEADER) then [] else [format.event]) +
            LocalBehind(cfg, true, s, format.event, rest, HEADER + format.size)
  {
    var items := Located(rest, HEADER + format.size);
    LocatedCons(format, rest, HEADER);
    FirstSeen(cfg, s, format.event, HEADER, items);
    BehindIs(cfg, s, format.event, HEADER, items);
  }

  lemma {:induction false} ShownCons(skip: bool, ev: Event, events: seq<Event>)
    ensures Shown(skip, [ev] + events) == (if LeftOut(skip, ev) then [] else [Closed(ev)]) + Shown(skip, events)
  {
    assert ([ev] + events)[1..] == events;
  }

  /** The two dumps agree if and only if they do behind the format event. */
  lemma {:induction false} AgreeIs(cfg: Config, processes: bool, s: State, q: Request, rest: seq<Packet>)
    requires q.Valid() && RealLog(rest, q.At())
    ensures Agree(cfg, processes, s, q, rest) <==>
            RemoteBehind(cfg, s, q.format.event, q.start, rest, q.At()) ==
            Shown(cfg.skipAnnotate, LocalBehind(cfg, Processes(processes, q), s, q.format.event, rest, q.At()))
  {
    var skip, f := cfg.skipAnnotate, q.format.event;
    var remote := RemoteBehind(cfg, s, f, q.start, rest, q.At());
    var behind := LocalBehind(cfg, Processes(processes, q), s, f, rest, q.At());
    RemoteOwnIs(cfg, s, q, rest);
    LocalOwnIs(cfg, processes, s, q, rest);
    if q.start == HEADER && !PastEnd(cfg, f, HEADER) {
      ShownCons(skip, f, behind);
      assert ([Closed(f)] + remote)[1..] == remote && ([Closed(f)] + Shown(skip, behind))[1..] == Shown(skip, behind);
    } else {
      assert [] + remote == remote && [] + behind == behind;
    }
  }

  // --- When nothing can be selected ---

  /** How many more events must go by before --offset is met. */
  function Waits(s: State): nat {
    if s.recCount < s.offset then s.offset - s.recCount else 0
  }

  /** An event that meets --start-datetime reaches --stop-datetime too: only one of another server can open the window. */
  function Extra(cfg: Config, s: State): nat {
    if s.startTime < cfg.stopTime then 0 else 1
  }

  /** No event from this byte on can be selected, whatever the log holds there. */
  predicate NoRoom(cfg: Config, s: State, off: nat) {
    || cfg.stopTime == 0
    || (s.startTime >= cfg.stopTime && cfg.serverId == 0)
    || off + EVENT_SIZE * (Waits(s) + Extra(cfg, s)) >= cfg.stopPosition
  }

  /** An event that is not selected leaves no more room. */
  lemma {:induction false} NoRoomNext(cfg: Config, s: State, ev: Event, off: nat, size: nat)
    requires NoRoom(cfg, s, off) && !ev.kind.FormatDescription? && size >= EVENT_SIZE
    ensures var (after, status) := Step(cfg, Read(s, ev), ev, off);
            && !Decide(cfg, Read(s, ev), ev, off).Take?
            && (status.Continue? ==> NoRoom(cfg, after, off + size))
  {
  }

  lemma {:induction false} NoneSeen(cfg: Config, s: State, log: seq<Packet>, off: nat)
    requires RealLog(log, off) && off > HEADER && NoRoom(cfg, s, off)
    ensures Seen(cfg, s, Located(log, off)) == []
    decreases |log|
  {
    if log != [] {
      var items := Located(log, off);
      NoRoomNext(cfg, s, log[0].event, off, log[0].size);
      var after, status, took := RunCons(cfg, s, items);
      assert items[1..] == Located(log[1..], off + log[0].size);
      if status.Continue? { NoneSeen(cfg, after, log[1..], off + log[0].size); }
    }
  }

  // --- States that select alike ---

  /**
    Two states that differ in what was printed, counted and deleted, and in the in-use flag of the description; they
    count alike, or both are past --offset.
  */
  ghost predicate Alike(s: State, t: State) {
    && t == s.(recCount := t.recCount, offset := t.offset, out := t.out, live := t.live, faults := t.faults,
               description := t.description)
    && s.description.version == t.description.version
    && ((s.recCount == t.recCount && s.offset == t.offset) || (s.recCount >= s.offset && t.recCount >= t.offset))
  }

  lemma {:induction false} AlikeFirst(cfg: Config, s: State, t: State, name: string, fileId: nat, block: string,
                                      event: Option<nat>)
    requires Alike(s, t)
    ensures var (a, x) := FirstEvent(cfg, s, name, fileId, block, event);
            var (b, y) := FirstEvent(cfg, t, name, fileId, block, event);
            Alike(a, b) && x == y
  {
  }

  lemma {:induction false} AlikeLoad(cfg: Config, s: State, t: State, ev: Event)
    requires Alike(s, t) && LoadKind(ev.kind)
    ensures var (a, x, k) := ProcessLoad(cfg, s, ev);
            var (b, y, l) := ProcessLoad(cfg, t, ev);
            Alike(a, b) && x == y && k == l
  {
    var p, q := s.Print(ev.id), t.Print(ev.id);
    assert Alike(p, q);
    if ev.kind.CreateFile? {
      AlikeFirst(cfg, p, q, ev.kind.name, ev.kind.fileId, ev.kind.block, Some(ev.id));
    } else if ev.kind.BeginLoad? {
      AlikeFirst(cfg, p, q, "SQL_LOAD_MB", ev.kind.fileId, ev.kind.block, None);
    }
  }

  lemma {:induction false} AlikeRowEvent(s: State, t: State, tableId: nat, stmtEnd: bool, id: nat)
    requires Alike(s, t)
    ensures Alike(RowEvent(s, tableId, stmtEnd, id), RowEvent(t, tableId, stmtEnd, id))
  {
    assert Alike(s.ClearIgnored().FreeAnnotate(), t.ClearIgnored().FreeAnnotate());
  }

  lemma {:induction false} AlikeRow(cfg: Config, s: State, t: State, ev: Event)
    requires Alike(s, t) && RowKind(ev.kind)
    ensures Alike(ProcessRow(cfg, s, ev).0, ProcessRow(cfg, t, ev).0)
    ensures ProcessRow(cfg, s, ev).1 == ProcessRow(cfg, t, ev).1
  {
    if ev.kind.Rows? {
      AlikeRowEvent(s, t, ev.kind.tableId, ev.kind.stmtEnd, ev.id);
    } else if ev.kind.TableMap? {
      assert Alike(s.PrintAnnotate(), t.PrintAnnotate());
    }
  }

  lemma {:induction false} AlikePlain(cfg: Config, s: State, t: State, ev: Event)
    requires Alike(s, t) && !LoadKind(ev.kind) && !RowKind(ev.kind)
    ensures var (a, x, k) := ProcessPlain(cfg, s, ev);
            var (b, y, l) := ProcessPlain(cfg, t, ev);
            Alike(a, b) && x == y && k == l
  {
  }

  lemma {:induction false} AlikeProcess(cfg: Config, s: State, t: State, ev: Event)
    requires Alike(s, t)
    ensures var (a, x, k) := Process(cfg, s, ev);
            var (b, y, l) := Process(cfg, t, ev);
            Alike(a, b) && x == y && k == l
  {
    if LoadKind(ev.kind) {
      AlikeLoad(cfg, s, t, ev);
    } else if RowKind(ev.kind) {
      AlikeRow(cfg, s, t, ev);
    } else {
      AlikePlain(cfg, s, t, ev);
    }
  }

  lemma {:induction false} AlikeDone(s: State, t: State, ev: Event, kept: bool)
    requires Alike(s, t)
    ensures Alike(Done(s, ev, kept), Done(t, ev, kept))
  {
  }

  lemma {:induction false} AlikeTaken(cfg: Config, s: State, t: State, ev: Event)
    requires Alike(s, t)
    ensures var (a, x) := Taken(cfg, s, ev);
            var (b, y) := Taken(cfg, t, ev);
            Alike(a, b) && x == y
  {
    AlikeProcess(cfg, s, t, ev);
    var (a, x, k) := Process(cfg, s, ev);
    var (b, y, l) := Process(cfg, t, ev);
    AlikeDone(a, b, ev, k);
  }

  lemma {:induction false} AlikeOpened(cfg: Config, s: State, t: State, ev: Event, pos: nat)
    requires Alike(s, t)
    ensures Alike(Opened(s, ev), Opened(t, ev)) && Decide(cfg, s, ev, pos) == Decide(cfg, t, ev, pos)
  {
  }

  lemma {:induction false} AlikeStep(cfg: Config, s: State, t: State, ev: Event, pos: nat)
    requires Alike(s, t)
    ensures var (a, x) := Step(cfg, s, ev, pos);
            var (b, y) := Step(cfg, t, ev, pos);
            Alike(a, b) && x == y && Decide(cfg, s, ev, pos) == Decide(cfg, t, ev, pos)
  {
    var p, q := Opened(s, ev), Opened(t, ev);
    AlikeOpened(cfg, s, t, ev, pos);
    if Decide(cfg, s, ev, pos).Take? {
      AlikeTaken(cfg, p, q, ev);
    } else {
      AlikeDone(p, q, ev, false);
    }
  }

  lemma {:induction false} AlikeSeen(cfg: Config, s: State, t: State, items: seq<Item>)
    requires Alike(s, t)
    ensures Seen(cfg, s, items) == Seen(cfg, t, items)
    decreases |items|
  {
    if items != [] {
      assert Alike(Read(s, items[0].event), Read(t, items[0].event));
      AlikeStep(cfg, Read(s, items[0].event), Read(t, items[0].event), items[0].event, items[0].pos);
      var a, x, k := RunCons(cfg, s, items);
      var b, y, l := RunCons(cfg, t, items);
      if x.Continue? { AlikeSeen(cfg, a, b, items[1..]); }
    }
  }

  // --- Where local and remote dumps agree ---

  function Counted(s: State): State {
    s.(recCount := s.recCount + 1)
  }

  /** The local dump ends with an error at the format event of a log in use, which the server sends as closed. */
  predicate Refused(cfg: Config, processes: bool, format: Event)
    requires format.kind.FormatDescription?
  {
    processes && format.kind.inUse && !cfg.forceIfOpen
  }

  /** The remote dump selects nothing behind the format event, whatever the log holds there. */
  predicate RemoteMute(cfg: Config, s: State, format: Event, at: nat) {
    format.when >= cfg.stopTime || NoRoom(cfg, Counted(s), at)
  }

  /** The local dump selects nothing behind the format event, whatever the log holds there. */
  predicate LocalMute(cfg: Config, processes: bool, s: State, format: Event, at: nat)
    requires format.kind.FormatDescription?
  {
    if processes then Refused(cfg, processes, format) || RemoteMute(cfg, s, format, at) else NoRoom(cfg, s, at)
  }

  predicate BothMute(cfg: Config, processes: bool, s: State, format: Event, at: nat)
    requires format.kind.FormatDescription?
  {
    LocalMute(cfg, processes, s, format, at) && RemoteMute(cfg, s, format, at)
  }

  /**
    Both dumps get past the format event alike: processed on both sides, it is not refused; only installed locally, it
    does not end the remote dump and --offset does not have to count it.
  */
  predicate SameStart(cfg: Config, processes: bool, s: State, format: Event)
    requires format.kind.FormatDescription?
  {
    if processes then !Refused(cfg, processes, format) else format.when < cfg.stopTime && Waits(s) == 0
  }

  /** The format event in the remote dump. */
  lemma {:induction false} RemoteHead(cfg: Config, s: State, format: Event, start: nat)
    requires format.kind.FormatDescription?
    ensures var (after, status) := Step(cfg, Read(s, Closed(format)), Closed(format), start);
            && (status.Continue? <==> format.when < cfg.stopTime && start < cfg.stopPosition)
            && (status.Continue? ==>
                  && after.recCount == s.recCount + 1 && after.offset == s.offset && after.startTime == s.startTime
                  && after == s.(recCount := after.recCount, out := after.out, live := after.live,
                                 faults := after.faults, description := after.description)
                  && after.description.version == format.kind.version)
  {
    FreeNone(Process(cfg, Read(s, Closed(format)), Closed(format)).0);
  }

  /** The format event in the local dump. */
  lemma {:induction false} LocalHead(cfg: Config, processes: bool, s: State, format: Event)
    requires format.kind.FormatDescription?
    ensures var (after, status) := Headed(cfg, processes, s, format);
            && (status.Continue? <==>
                  !processes ||
                  (!Refused(cfg, processes, format) && format.when < cfg.stopTime && HEADER < cfg.stopPosition))
            && (status.Continue? ==>
                  && after.recCount == s.recCount + (if processes then 1 else 0)
                  && after.offset == s.offset && after.startTime == s.startTime
                  && after == s.(recCount := after.recCount, out := after.out, live := after.live,
                                 faults := after.faults, description := after.description)
                  && after.description.version == format.kind.version)
  {
    if processes { FreeNone(Process(cfg, Read(s, format), format).0); }
  }

  lemma {:induction false} RemoteMuteNone(cfg: Config, s: State, format: Event, start: nat, rest: seq<Packet>, at: nat)
    requires format.kind.FormatDescription? && at > HEADER && RealLog(rest, at) && RemoteMute(cfg, s, format, at)
    ensures RemoteBehind(cfg, s, format, start, rest, at) == []
  {
    RemoteHead(cfg, s, format, start);
    var (after, status) := Step(cfg, Read(s, Closed(format)), Closed(format), start);
    if status.Continue? {
      WireIsReal(cfg.skipAnnotate, rest, at, at);
      NoneSeen(cfg, after, Wire(cfg.skipAnnotate, rest), at);
    }
  }

  lemma {:induction false} LocalMuteNone(cfg: Config, processes: bool, s: State, format: Event, rest: seq<Packet>,
                                         at: nat)
    requires format.kind.FormatDescription? && at > HEADER && RealLog(rest, at)
    requires LocalMute(cfg, processes, s, format, at)
    ensures LocalBehind(cfg, processes, s, format, rest, at) == []
  {
    LocalHead(cfg, processes, s, format);
    var (after, status) := Headed(cfg, processes, s, format);
    if status.Continue? { NoneSeen(cfg, after, rest, at); }
  }

  /** Without holes what is sent behind the format event is the log itself. */
  lemma {:induction false} WireHoleFree(skip: bool, log: seq<Packet>, off: nat)
    requires RealLog(log, off) && off > HEADER && HoleFree(skip, log)
    ensures Wire(skip, log) == log
    decreases |log|
  {
    if log != [] {
      assert forall i :: 0 <= i < |log[1..]| ==> log[1..][i] == log[i + 1];
      WireHoleFree(skip, log[1..], off + log[0].size);
    }
  }

  lemma {:induction false} ShownHoleFree(cfg: Config, s: State, log: seq<Packet>, off: nat)
    requires RealLog(log, off) && off > HEADER && HoleFree(cfg.skipAnnotate, log)
    ensures Shown(cfg.skipAnnotate, Seen(cfg, s, Located(log, off))) == Seen(cfg, s, Located(log, off))
    decreases |log|
  {
    if log != [] {
      var items, rest := Located(log, off), Located(log[1..], off + log[0].size);
      var after, status, took := RunCons(cfg, s, items);
      assert items[1..] == rest;
      assert forall i :: 0 <= i < |log[1..]| ==> log[1..][i] == log[i + 1];
      ShownHoleFree(cfg, after, log[1..], off + log[0].size);
      var behind := if status.Continue? then Seen(cfg, after, rest) else [];
      ShownCons(cfg.skipAnnotate, log[0].event, behind);
      if !took { assert [] + behind == behind; }
    }
  }

  /** Past the format event the two dumps are in states that select alike. */
  lemma {:induction false} HeadsAlike(cfg: Config, processes: bool, s: State, format: Event, start: nat)
    requires format.kind.FormatDescription? && SameStart(cfg, processes, s, format)
    ensures var (a, x) := Headed(cfg, processes, s, format);
            var (b, y) := Step(cfg, Read(s, Closed(format)), Closed(format), start);
            x.Continue? && y.Continue? ==> Alike(a, b)
  {
    LocalHead(cfg, processes, s, format);
    RemoteHead(cfg, s, format, start);
  }

  /** When both get past the format event alike they agree on every log of which nothing is left out. */
  lemma {:induction false} SameStartAgrees(cfg: Config, processes: bool, s: State, format: Event, start: nat,
                                           rest: seq<Packet>, at: nat)
    requires format.kind.FormatDescription? && HEADER <= start <= at && at > HEADER && RealLog(rest, at)
    requires SameStart(cfg, processes, s, format) && HoleFree(cfg.skipAnnotate, rest)
    ensures RemoteBehind(cfg, s, format, start, rest, at) ==
            Shown(cfg.skipAnnotate, LocalBehind(cfg, processes, s, format, rest, at))
  {
    var (a, x) := Headed(cfg, processes, s, format);
    var (b, y) := Step(cfg, Read(s, Closed(format)), Closed(format), start);
    LocalHead(cfg, processes, s, format);
    RemoteHead(cfg, s, format, start);
    WireHoleFree(cfg.skipAnnotate, rest, at);
    if y.Continue? {
      HeadsAlike(cfg, processes, s, format, start);
      AlikeSeen(cfg, a, b, Located(rest, at));
      ShownHoleFree(cfg, a, rest, at);
    } else {
      LocalMuteNone(cfg, processes, s, format, rest, at);
    }
  }

  /** --offset and --start-datetime are met already. */
  predicate Begins(s: State) {
    Waits(s) == 0 && s.startTime == 0
  }

  /** The log ends before --stop-position, and its Annotate events are before --stop-datetime. */
  ghost predicate EndsLater(cfg: Config, log: seq<Packet>, off: nat) {
    && EndOf(log, off) <= cfg.stopPosition
    && forall i :: 0 <= i < |log| && log[i].event.kind.Annotate? ==> log[i].event.when < cfg.stopTime
  }

  /** An Annotate event that is not shown changes the count only. */
  lemma {:induction false} HoleStep(cfg: Config, s: State, t: State, ev: Event, pos: nat)
    requires LeftOut(cfg.skipAnnotate, ev) && Alike(s, t)
    requires Begins(s) && Begins(t) && !PastEnd(cfg, ev, pos)
    ensures var (after, status) := Step(cfg, Read(s, ev), ev, pos);
            status.Continue? && Alike(after, t) && Begins(after)
  {
  }

  /** An event that is sent goes through both dumps alike, though its positions differ. */
  lemma {:induction false} KeptStep(cfg: Config, s: State, t: State, ev: Event, pos: nat, at: nat)
    requires Alike(s, t) && Begins(s) && Begins(t)
    requires pos < cfg.stopPosition && at < cfg.stopPosition
    ensures var (a, x) := Step(cfg, Read(s, ev), ev, pos);
            var (b, y) := Step(cfg, Read(t, ev), ev, at);
            && x == y && Decide(cfg, Read(s, ev), ev, pos) == Decide(cfg, Read(t, ev), ev, at)
            && Alike(a, b) && Begins(a) && Begins(b)
  {
    assert Alike(Read(s, ev), Read(t, ev));
    AlikeStep(cfg, Read(s, ev), Read(t, ev), ev, pos);
    assert Step(cfg, Read(t, ev), ev, pos) == Step(cfg, Read(t, ev), ev, at);
    WindowStays(cfg, s, ev, pos);
    WindowStays(cfg, t, ev, pos);
  }

  lemma {:induction false} WindowStays(cfg: Config, s: State, ev: Event, pos: nat)
    requires Begins(s)
    ensures var (after, status) := Step(cfg, Read(s, ev), ev, pos);
            Begins(after)
  {
    BinlogWindow.WindowKept(cfg, Opened(Read(s, ev), ev), ev);
  }

  lemma {:induction false} ShownFirst(skip: bool, ev: Event, took: bool, events: seq<Event>)
    ensures Shown(skip, (if took then [ev] else []) + events)
         == (if took && !LeftOut(skip, ev) then [Closed(ev)] else []) + Shown(skip, events)
  {
    if took { ShownCons(skip, ev, events); } else { assert [] + events == events; }
  }

  /** The events read, and those of them that are sent; no bound of the options falls on the others. */
  ghost predicate Thinned(cfg: Config, items: seq<Item>, sent: seq<Item>)
    decreases |items|
  {
    if items == [] then sent == []
    else if LeftOut(cfg.skipAnnotate, items[0].event) then
      !PastEnd(cfg, items[0].event, items[0].pos) && Thinned(cfg, items[1..], sent)
    else
      && sent != [] && sent[0].event == items[0].event == Closed(items[0].event)
      && items[0].pos < cfg.stopPosition && sent[0].pos < cfg.stopPosition
      && Thinned(cfg, items[1..], sent[1..])
  }

  /** The events that are sent are selected alike from the two streams. */
  lemma {:induction false} ThinnedSeen(cfg: Config, s: State, t: State, items: seq<Item>, sent: seq<Item>)
    requires Alike(s, t) && Begins(s) && Begins(t) && Thinned(cfg, items, sent)
    ensures Seen(cfg, t, sent) == Shown(cfg.skipAnnotate, Seen(cfg, s, items))
    decreases |items|
  {
    if items != [] {
      var ev := items[0].event;
      var a, x, took := RunCons(cfg, s, items);
      var own := if x.Continue? then Seen(cfg, a, items[1..]) else [];
      ShownFirst(cfg.skipAnnotate, ev, took, own);
      if LeftOut(cfg.skipAnnotate, ev) {
        HoleStep(cfg, s, t, ev, items[0].pos);
        ThinnedSeen(cfg, a, t, items[1..], sent);
      } else {
        KeptStep(cfg, s, t, ev, items[0].pos, sent[0].pos);
        var b, y, k := RunCons(cfg, t, sent);
        if x.Continue? { ThinnedSeen(cfg, a, b, items[1..], sent[1..]); }
      }
    }
  }

  lemma {:induction false} EndsLaterRest(cfg: Config, log: seq<Packet>, off: nat)
    requires log != [] && RealLog(log, off) && EndsLater(cfg, log, off)
    ensures off < cfg.stopPosition && EndsLater(cfg, log[1..], off + log[0].size)
    ensures log[0].event.kind.Annotate? ==> log[0].event.when < cfg.stopTime
  {
    EndGrows(log[1..], off + log[0].size);
    assert forall i :: 0 <= i < |log[1..]| ==> log[1..][i] == log[i + 1];
  }

  lemma {:induction false} ThinnedCons(cfg: Config, ev: Event, off: nat, at: nat, items: seq<Item>, sent: seq<Item>)
    requires off < cfg.stopPosition && at < cfg.stopPosition && Thinned(cfg, items, sent)
    ensures !LeftOut(cfg.skipAnnotate, ev) && Closed(ev) == ev ==>
              Thinned(cfg, [Item(ev, off)] + items, [Item(ev, at)] + sent)
    ensures LeftOut(cfg.skipAnnotate, ev) && ev.when < cfg.stopTime ==> Thinned(cfg, [Item(ev, off)] + items, sent)
  {
    assert ([Item(ev, off)] + items)[1..] == items && ([Item(ev, at)] + sent)[1..] == sent;
  }

  lemma {:induction false} WireThinned(cfg: Config, log: seq<Packet>, off: nat, at: nat)
    requires RealLog(log, off) && HEADER < off && at <= off && EndsLater(cfg, log, off)
    ensures Thinned(cfg, Located(log, off), Located(Wire(cfg.skipAnnotate, log), at))
    decreases |log|
  {
    if log != [] {
      var skip, p, rest := cfg.skipAnnotate, log[0], log[1..];
      var next := if LeftOut(skip, p.event) then at else at + p.size;
      EndsLaterRest(cfg, log, off);
      assert log == [p] + rest;
      WireThinned(cfg, rest, off + p.size, next);
      ThinnedCons(cfg, p.event, off, at, Located(rest, off + p.size), Located(Wire(skip, rest), next));
      LocatedCons(p, rest, off);
      WireCons(skip, p, rest);
      LocatedCons(p, Wire(skip, rest), at);
      assert Wire(skip, log) == if LeftOut(skip, p.event) then Wire(skip, rest) else [p] + Wire(skip, rest);
    }
  }

  /** With holes they agree when no bound of the options falls on one. */
  lemma {:induction false} EndsLaterAgrees(cfg: Config, processes: bool, s: State, format: Event, start: nat,
                                           rest: seq<Packet>, at: nat)
    requires format.kind.FormatDescription? && HEADER <= start <= at && at > HEADER && RealLog(rest, at)
    requires SameStart(cfg, processes, s, format) && Begins(s) && EndsLater(cfg, rest, at)
    ensures RemoteBehind(cfg, s, format, start, rest, at) ==
            Shown(cfg.skipAnnotate, LocalBehind(cfg, processes, s, format, rest, at))
  {
    var (a, x) := Headed(cfg, processes, s, format);
    var (b, y) := Step(cfg, Read(s, Closed(format)), Closed(format), start);
    LocalHead(cfg, processes, s, format);
    RemoteHead(cfg, s, format, start);
    if y.Continue? {
      HeadsAlike(cfg, processes, s, format, start);
      WireThinned(cfg, rest, at, at);
      ThinnedSeen(cfg, a, b, Located(rest, at), Located(Wire(cfg.skipAnnotate, rest), at));
    } else {
      LocalMuteNone(cfg, processes, s, format, rest, at);
    }
  }

  /**
    For one log the two dumps agree when neither can select anything, or when both get past the format event alike
    and nothing of the log is left out or no bound of the options falls on what is.
  */
  lemma {:induction false} RemoteSelectsLocal(cfg: Config, processes: bool, s: State, q: Request, rest: seq<Packet>)
    requires q.Valid() && RealLog(rest, q.At())
    requires var mode := Processes(processes, q);
             || BothMute(cfg, mode, s, q.format.event, q.At())
             || (SameStart(cfg, mode, s, q.format.event) &&
                 (HoleFree(cfg.skipAnnotate, rest) || (Begins(s) && EndsLater(cfg, rest, q.At()))))
    ensures Agree(cfg, processes, s, q, rest)
  {
    var mode, f := Processes(processes, q), q.format.event;
    RealFrom(q, rest);
    AgreeIs(cfg, processes, s, q, rest);
    EndGrows(q.prefix, HEADER);
    if BothMute(cfg, mode, s, f, q.At()) {
      RemoteMuteNone(cfg, s, f, q.start, rest, q.At());
      LocalMuteNone(cfg, mode, s, f, rest, q.At());
    } else if HoleFree(cfg.skipAnnotate, rest) {
      SameStartAgrees(cfg, mode, s, f, q.start, rest, q.At());
    } else {
      EndsLaterAgrees(cfg, mode, s, f, q.start, rest, q.At());
    }
  }

  // --- Where they do not ---

  function Plain(when: nat, serverId: nat): Packet {
    Packet(Event(0, when, serverId, Other), EVENT_SIZE, false)
  }

  function Fillers(n: nat): seq<Packet> {
    seq(n, _ => Plain(0, 0))
  }

  /** As many events as must go by, one of another server where only that can open the window, and one to select. */
  function Witness(cfg: Config, s: State, n: nat): seq<Packet> {
    Fillers(n) +
    if s.startTime < cfg.stopTime then [Plain(s.startTime, cfg.serverId)]
    else [Plain(s.startTime, cfg.serverId + 1), Plain(0, cfg.serverId)]
  }

  /** Before --offset or before --start-datetime an event is only counted. */
  lemma {:induction false} SkipOne(cfg: Config, s: State, p: Packet, rest: seq<Packet>, off: nat) returns (after: State)
    requires !p.event.kind.FormatDescription? && (Waits(s) > 0 || p.event.when < s.startTime)
    ensures Seen(cfg, s, Located([p] + rest, off)) == Seen(cfg, after, Located(rest, off + p.size))
    ensures after.recCount == s.recCount + 1 && after.offset == s.offset && after.startTime == s.startTime
  {
    LocatedCons(p, rest, off);
    var status, took;
    after, status, took := RunCons(cfg, s, Located([p] + rest, off));
  }

  lemma {:induction false} FillersCons(n: nat, rest: seq<Packet>)
    requires n > 0
    ensures Fillers(n) + rest == [Plain(0, 0)] + (Fillers(n - 1) + rest)
  {
  }

  lemma {:induction false} FillersSkip(cfg: Config, s: State, n: nat, rest: seq<Packet>, off: nat, end: nat)
    returns (after: State)
    requires n <= Waits(s) && end == off + EVENT_SIZE * n
    ensures after.recCount == s.recCount + n && after.offset == s.offset && after.startTime == s.startTime
    ensures Seen(cfg, s, Located(Fillers(n) + rest, off)) == Seen(cfg, after, Located(rest, end))
    decreases n
  {
    if n == 0 {
      assert Fillers(0) + rest == rest;
      after := s;
    } else {
      FillersCons(n, rest);
      var one := SkipOne(cfg, s, Plain(0, 0), Fillers(n - 1) + rest, off);
      after := FillersSkip(cfg, one, n - 1, rest, off + EVENT_SIZE, end);
    }
  }

  lemma {:induction false} OneSeen(cfg: Config, s: State, ev: Event, off: nat)
    requires s.recCount >= s.offset && ev.when >= s.startTime && !OtherServer(cfg, ev) && !PastEnd(cfg, ev, off)
    ensures Seen(cfg, s, Located([Packet(ev, EVENT_SIZE, false)], off)) == [ev]
  {
    var p := Packet(ev, EVENT_SIZE, false);
    assert [p] + [] == [p];
    LocatedCons(p, [], off);
    var items := Located([p], off);
    assert items[1..] == [];
    var after, status, took := RunCons(cfg, s, items);
    assert Seen(cfg, after, []) == [];
  }

  /** An event of another server opens the window for the next one. */
  lemma {:induction false} TwoSeen(cfg: Config, s: State, other: Event, ev: Event, off: nat)
    requires s.recCount >= s.offset && other.when >= s.startTime && OtherServer(cfg, other)
    requires !OtherServer(cfg, ev) && !PastEnd(cfg, ev, off + EVENT_SIZE)
    ensures Seen(cfg, s, Located([Packet(other, EVENT_SIZE, false), Packet(ev, EVENT_SIZE, false)], off)) == [ev]
  {
    var log := [Packet(other, EVENT_SIZE, false), Packet(ev, EVENT_SIZE, false)];
    assert log == [log[0]] + [log[1]];
    LocatedCons(log[0], [log[1]], off);
    var after, status, took := RunCons(cfg, s, Located(log, off));
    OneSeen(cfg, after, ev, off + EVENT_SIZE);
  }

  /** Where there is room, the event of the witness is selected. */
  lemma {:induction false} WitnessSeen(cfg: Config, s: State, off: nat)
    requires !NoRoom(cfg, s, off)
    ensures Seen(cfg, s, Located(Witness(cfg, s, Waits(s)), off)) != []
  {
    var n := Waits(s);
    if s.startTime < cfg.stopTime {
      var rest := [Plain(s.startTime, cfg.serverId)];
      var after := FillersSkip(cfg, s, n, rest, off, off + EVENT_SIZE * n);
      OneSeen(cfg, after, rest[0].event, off + EVENT_SIZE * n);
    } else {
      var rest := [Plain(s.startTime, cfg.serverId + 1), Plain(0, cfg.serverId)];
      var after := FillersSkip(cfg, s, n, rest, off, off + EVENT_SIZE * n);
      TwoSeen(cfg, after, rest[0].event, rest[1].event, off + EVENT_SIZE * n);
    }
  }

  /** Events before --offset or before --start-datetime are not selected. */
  lemma {:induction false} UnstartedSeen(cfg: Config, s: State, log: seq<Packet>, off: nat)
    requires forall i :: 0 <= i < |log| ==>
               !log[i].event.kind.FormatDescription? && (i < Waits(s) || log[i].event.when < s.startTime)
    ensures Seen(cfg, s, Located(log, off)) == []
    decreases |log|
  {
    if log != [] {
      assert log == [log[0]] + log[1..];
      var after := SkipOne(cfg, s, log[0], log[1..], off);
      UnstartedSeen(cfg, after, log[1..], off + log[0].size);
    }
  }

  lemma {:induction false} WitnessIsReal(cfg: Config, s: State, n: nat, off: nat)
    requires off > HEADER
    ensures RealLog(Witness(cfg, s, n), off)
    decreases n
  {
    var log := Witness(cfg, s, n);
    if n > 0 {
      assert log[1..] == Witness(cfg, s, n - 1);
      WitnessIsReal(cfg, s, n - 1, off + EVENT_SIZE);
    } else {
      assert Fillers(0) == [];
      assert RealLog(log[1..], off + EVENT_SIZE) by {
        if |log| == 2 {
          assert log[1..][1..] == [];
          assert RealLog([], off + EVENT_SIZE + EVENT_SIZE);
        } else {
          assert log[1..] == [];
        }
      }
    }
  }

  lemma {:induction false} WitnessHoleFree(skip: bool, cfg: Config, s: State, n: nat)
    ensures HoleFree(skip, Witness(cfg, s, n))
  {
  }

  lemma {:induction false} RemoteSeesWitness(cfg: Config, s: State, format: Event, start: nat, at: nat)
    requires format.kind.FormatDescription? && start <= at && HEADER < at && !RemoteMute(cfg, s, format, at)
    ensures var (after, status) := Step(cfg, Read(s, Closed(format)), Closed(format), start);
            status.Continue? &&
            Seen(cfg, after, Located(Witness(cfg, s, Waits(Counted(s))), at)) != []
  {
    RemoteHead(cfg, s, format, start);
    var (after, status) := Step(cfg, Read(s, Closed(format)), Closed(format), start);
    WitnessSeen(cfg, after, at);
    assert Witness(cfg, s, Waits(after)) == Witness(cfg, after, Waits(after));
  }

  /** Where the two get past the format event differently, and one can select something, a log without holes shows it. */
  lemma {:induction false} StartDiffers(cfg: Config, processes: bool, s: State, format: Event, start: nat, at: nat)
    returns (rest: seq<Packet>)
    requires format.kind.FormatDescription? && start <= at && at > HEADER
    requires !SameStart(cfg, processes, s, format) && !BothMute(cfg, processes, s, format, at)
    ensures RealLog(rest, at) && HoleFree(cfg.skipAnnotate, rest)
    ensures RemoteBehind(cfg, s, format, start, rest, at) !=
            Shown(cfg.skipAnnotate, LocalBehind(cfg, processes, s, format, rest, at))
  {
    var skip := cfg.skipAnnotate;
    var n := if RemoteMute(cfg, s, format, at) then Waits(s) else Waits(Counted(s));
    rest := Witness(cfg, s, n);
    WitnessIsReal(cfg, s, n, at);
    WitnessHoleFree(skip, cfg, s, n);
    WireHoleFree(skip, rest, at);
    LocalHead(cfg, processes, s, format);
    var a := Headed(cfg, processes, s, format).0;
    if RemoteMute(cfg, s, format, at) {
      RemoteMuteNone(cfg, s, format, start, rest, at);
      WitnessSeen(cfg, a, at);
      assert rest == Witness(cfg, a, Waits(a));
      ShownHoleFree(cfg, a, rest, at);
    } else {
      RemoteSeesWitness(cfg, s, format, start, at);
      if !processes { UnstartedSeen(cfg, a, rest, at); }
    }
  }

  /** An Annotate event that ends the local dump. */
  function Hole(cfg: Config, s: State): Packet {
    Packet(Event(0, s.startTime + cfg.stopTime, cfg.serverId, Annotate), EVENT_SIZE, false)
  }

  /** Such an event in front of one that is selected when it is not there. */
  function Holed(cfg: Config, s: State, n: nat): seq<Packet> {
    Fillers(n) + ([Hole(cfg, s)] + Witness(cfg, s, 0))
  }

  lemma {:induction false} HoledWire(cfg: Config, s: State, n: nat, at: nat)
    requires cfg.skipAnnotate && at > HEADER
    ensures RealLog(Holed(cfg, s, n), at) && Wire(true, Holed(cfg, s, n)) == Witness(cfg, s, n)
    decreases n
  {
    var tail := Witness(cfg, s, 0);
    var hole := Hole(cfg, s);
    assert Fillers(0) == [];
    if n == 0 {
      assert Holed(cfg, s, 0) == [hole] + tail;
      WireCons(true, hole, tail);
      assert ([hole] + tail)[1..] == tail;
      WitnessIsReal(cfg, s, 0, at + EVENT_SIZE);
      WitnessHoleFree(true, cfg, s, 0);
      WireHoleFree(true, tail, at + EVENT_SIZE);
    } else {
      FillersCons(n, [hole] + tail);
      FillersCons(n, Witness(cfg, s, 0));
      var less := Holed(cfg, s, n - 1);
      HoledWire(cfg, s, n - 1, at + EVENT_SIZE);
      WireCons(true, Plain(0, 0), less);
      assert ([Plain(0, 0)] + less)[1..] == less;
      assert Witness(cfg, s, n) == [Plain(0, 0)] + Witness(cfg, s, n - 1);
    }
  }

  lemma {:induction false} HoleHalts(cfg: Config, s: State, p: Packet, rest: seq<Packet>, at: nat)
    requires p.event.kind.Annotate? && Waits(s) == 0 && p.event.when >= s.startTime && p.event.when >= cfg.stopTime
    requires p.event.serverId == cfg.serverId
    ensures Seen(cfg, s, Located([p] + rest, at)) == []
  {
    LocatedCons(p, rest, at);
    var after, status, took := RunCons(cfg, s, Located([p] + rest, at));
  }

  lemma {:induction false} HoledHalts(cfg: Config, s: State, n: nat, at: nat)
    requires n == Waits(s)
    ensures Seen(cfg, s, Located(Holed(cfg, s, n), at)) == []
  {
    var tail := Witness(cfg, s, 0);
    var after := FillersSkip(cfg, s, n, [Hole(cfg, s)] + tail, at, at + EVENT_SIZE * n);
    HoleHalts(cfg, after, Hole(cfg, s), tail, at + EVENT_SIZE * n);
  }

  lemma {:induction false} HoledLocal(cfg: Config, processes: bool, s: State, format: Event, at: nat)
    requires format.kind.FormatDescription? && SameStart(cfg, processes, s, format)
    ensures LocalBehind(cfg, processes, s, format, Holed(cfg, s, Waits(Counted(s))), at) == []
  {
    LocalHead(cfg, processes, s, format);
    var a, n := Headed(cfg, processes, s, format).0, Waits(Counted(s));
    if Headed(cfg, processes, s, format).1.Continue? {
      assert Holed(cfg, s, n) == Holed(cfg, a, n);
      HoledHalts(cfg, a, n, at);
    }
  }

  /** Where both get past the format event alike and can select something, a log with a hole shows a difference. */
  lemma {:induction false} HoleDiffers(cfg: Config, processes: bool, s: State, format: Event, start: nat, at: nat)
    returns (rest: seq<Packet>)
    requires cfg.skipAnnotate && format.kind.FormatDescription? && HEADER <= start <= at && at > HEADER
    requires SameStart(cfg, processes, s, format) && !BothMute(cfg, processes, s, format, at)
    ensures RealLog(rest, at)
    ensures RemoteBehind(cfg, s, format, start, rest, at) !=
            Shown(cfg.skipAnnotate, LocalBehind(cfg, processes, s, format, rest, at))
  {
    var n := Waits(Counted(s));
    rest := Holed(cfg, s, n);
    HoledWire(cfg, s, n, at);
    RemoteSeesWitness(cfg, s, format, start, at);
    HoledLocal(cfg, processes, s, format, at);
  }

  /**
    Of the logs of which nothing is left out, the two dumps agree on every one if and only if both get past the format
    event alike or neither can select anything. With --skip-annotate-row-events they agree on every log if and only if
    neither can select anything.
  */
  lemma {:induction false} AgreesIff(cfg: Config, processes: bool, s: State, q: Request)
    requires q.Valid()
    ensures var mode := Processes(processes, q);
            (SameStart(cfg, mode, s, q.format.event) || BothMute(cfg, mode, s, q.format.event, q.At())) <==>
            forall rest :: RealLog(rest, q.At()) && HoleFree(cfg.skipAnnotate, rest) ==> Agree(cfg, processes, s, q, rest)
    ensures cfg.skipAnnotate ==>
            (BothMute(cfg, Processes(processes, q), s, q.format.event, q.At()) <==>
             forall rest :: RealLog(rest, q.At()) ==> Agree(cfg, processes, s, q, rest))
  {
    var mode, f := Processes(processes, q), q.format.event;
    RealFrom(q, []);
    EndGrows(q.prefix, HEADER);
    if BothMute(cfg, mode, s, f, q.At()) {
      forall rest | RealLog(rest, q.At()) ensures Agree(cfg, processes, s, q, rest) {
        RemoteSelectsLocal(cfg, processes, s, q, rest);
      }
    } else if SameStart(cfg, mode, s, f) {
      forall rest | RealLog(rest, q.At()) && HoleFree(cfg.skipAnnotate, rest) ensures Agree(cfg, processes, s, q, rest) {
        RemoteSelectsLocal(cfg, processes, s, q, rest);
      }
      if cfg.skipAnnotate {
        var rest := HoleDiffers(cfg, mode, s, f, q.start, q.At());
        AgreeIs(cfg, processes, s, q, rest);
      }
    } else {
      var rest := StartDiffers(cfg, mode, s, f, q.start, q.At());
      AgreeIs(cfg, processes, s, q, rest);
    }
  }

  // --- Inputs on which they differ ---

  /** A log of a format event of 100 bytes and what is behind it, read from `start` on. */
  function Sample(inUse: bool, start: nat): Request
    requires start == HEADER || start == HEADER + 100
  {
    var format := Packet(Event(1, 0, 1, FormatDescription(4, inUse)), 100, false);
    Request(if start == HEADER then [] else [format], start, format, Packet(Event(2, 0, 1, Rotate), EVENT_SIZE, true), [])
  }

  const EVENT := Event(3, 5, 1, Other)
  const ANNOTATE := Event(4, 5, 1, Annotate)

  function Options(skip: bool, stopPosition: nat): Config {
    Config(None, skip, false, 0, 10, stopPosition, "")
  }

  function Waiting(offset: nat): State {
    State(0, offset, 0, Description(0, 3, false), None, map[], map[], map[], {0}, {}, [])
  }

  lemma {:induction false} SampleIsValid(inUse: bool, start: nat, rest: seq<Packet>)
    requires start == HEADER || start == HEADER + 100
    requires forall i :: 0 <= i < |rest| ==> rest[i].size >= EVENT_SIZE && rest[i].event in {EVENT, ANNOTATE}
    ensures Sample(inUse, start).Valid() && RealLog(rest, Sample(inUse, start).At())
  {
    var q := Sample(inUse, start);
    if q.prefix != [] {
      assert q.prefix[1..] == [];
      assert RealLog(q.prefix[1..], HEADER + 100) && EndOf(q.prefix[1..], HEADER + 100) == HEADER + 100;
    }
    SampleIsReal(rest, q.At());
  }

  lemma {:induction false} SampleIsReal(rest: seq<Packet>, off: nat)
    requires forall i :: 0 <= i < |rest| ==> rest[i].size >= EVENT_SIZE && rest[i].event in {EVENT, ANNOTATE}
    ensures RealLog(rest, off)
    decreases |rest|
  {
    if rest != [] {
      assert forall i :: 0 <= i < |rest[1..]| ==> rest[1..][i] == rest[i + 1];
      SampleIsReal(rest[1..], off + rest[0].size);
    }
  }

  /** With --offset=1 and the format event installed, the remote dump selects an event that the local one does not. */
  lemma {:induction false} OffsetDiffers() returns (cfg: Config, s: State, q: Request, rest: seq<Packet>)
    ensures q.Valid() && RealLog(rest, q.At()) && s.offset == 1 && |rest| == 1
    ensures LocalOwn(cfg, false, s, q.prefix, q.From(rest), q.start) == []
    ensures RemoteOwn(cfg, s, q.Stream(cfg.skipAnnotate, rest), q.start) == [rest[0].event]
  {
    cfg, s, q, rest := Options(false, 1000), Waiting(1), Sample(false, HEADER + 100), [Packet(EVENT, EVENT_SIZE, false)];
    var f := q.format.event;
    SampleIsValid(false, q.start, rest);
    LocalOwnIs(cfg, false, s, q, rest);
    RemoteOwnIs(cfg, s, q, rest);
    LocalHead(cfg, false, s, f);
    UnstartedSeen(cfg, Headed(cfg, false, s, f).0, rest, q.start);
    RemoteHead(cfg, s, f, q.start);
    WireHoleFree(false, rest, q.start);
    OneSeen(cfg, Step(cfg, Read(s, Closed(f)), Closed(f), q.start).0, EVENT, q.start);
  }

  /** A log in use: the local dump ends at its format event, the remote dump goes on behind it. */
  lemma {:induction false} InUseDiffers(start: nat) returns (cfg: Config, s: State, q: Request, rest: seq<Packet>)
    requires start == HEADER || start == HEADER + 100
    ensures q.Valid() && RealLog(rest, q.At()) && q.start == start && q.format.event.kind.inUse && |rest| == 1
    ensures LocalOwn(cfg, true, s, q.prefix, q.From(rest), start)
         == if start == HEADER then [q.format.event] else []
    ensures RemoteOwn(cfg, s, q.Stream(cfg.skipAnnotate, rest), start)
         == if start == HEADER then [Closed(q.format.event), rest[0].event] else [rest[0].event]
  {
    cfg, s, q, rest := Options(false, 1000), Waiting(0), Sample(true, start), [Packet(EVENT, EVENT_SIZE, false)];
    var f := q.format.event;
    SampleIsValid(true, start, rest);
    LocalOwnIs(cfg, true, s, q, rest);
    RemoteOwnIs(cfg, s, q, rest);
    LocalHead(cfg, true, s, f);
    RemoteHead(cfg, s, f, start);
    WireHoleFree(false, rest, q.At());
    OneSeen(cfg, Step(cfg, Read(s, Closed(f)), Closed(f), start).0, EVENT, HEADER + 100);
  }

  /** An Annotate event of 60 bytes in front of another event, both behind the format event. */
  function Annotated(): seq<Packet> {
    [Packet(ANNOTATE, 60, false), Packet(EVENT, EVENT_SIZE, false)]
  }

  lemma {:induction false} AnnotatedItems(off: nat)
    ensures Located(Annotated(), off) == [Item(ANNOTATE, off), Item(EVENT, off + 60)]
    ensures Wire(true, Annotated()) == [Packet(EVENT, EVENT_SIZE, false)]
    ensures Located(Wire(true, Annotated()), off) == [Item(EVENT, off)]
  {
    var p, e := Annotated()[0], Annotated()[1];
    assert Annotated() == [p] + [e] && [e] + [] == [e];
    LocatedCons(p, [e], off);
    LocatedCons(e, [], off + 60);
    LocatedCons(e, [], off);
    WireCons(true, p, [e]);
    WireCons(true, e, []);
  }

  /** Two events of which the first is counted, and selected if --offset is met. */
  lemma {:induction false} TwoItems(cfg: Config, s: State, off: nat)
    requires cfg.skipAnnotate && cfg.serverId == 0 && cfg.stopTime == 10 && s.startTime <= 5 && off < cfg.stopPosition
    ensures Seen(cfg, s, [Item(ANNOTATE, off), Item(EVENT, off + 60)])
         == (if Waits(s) == 0 then [ANNOTATE] else []) +
            if Waits(s) <= 1 && off + 60 < cfg.stopPosition then [EVENT] else []
  {
    var items := [Item(ANNOTATE, off), Item(EVENT, off + 60)];
    var a, x, k := RunCons(cfg, s, items);
    assert items[1..] == [Item(EVENT, off + 60)];
    OneItem(cfg, a, off + 60);
  }

  lemma {:induction false} OneItem(cfg: Config, s: State, off: nat)
    requires cfg.serverId == 0 && cfg.stopTime == 10 && s.startTime <= 5
    ensures Seen(cfg, s, [Item(EVENT, off)]) == if Waits(s) == 0 && off < cfg.stopPosition then [EVENT] else []
  {
    var a, x, k := RunCons(cfg, s, [Item(EVENT, off)]);
    assert [Item(EVENT, off)][1..] == [];
  }

  /** --skip-annotate-row-events on a log [format, annotate, event]: the event is at byte 164 and tracked at 104. */
  lemma {:induction false} AnnotateMoves() returns (q: Request, rest: seq<Packet>)
    ensures q.Valid() && RealLog(rest, q.At()) && q.start == HEADER
    ensures Located(q.From(rest), HEADER) == [Item(q.format.event, HEADER), Item(ANNOTATE, 104), Item(EVENT, 164)]
    ensures Tracked(q.Stream(true, rest), HEADER, false) == [Item(q.format.event, HEADER), Item(EVENT, 104)]
  {
    q, rest := Sample(false, HEADER), Annotated();
    SampleIsValid(false, HEADER, rest);
    AnnotatedItems(HEADER + 100);
    StreamTracked(true, q, rest);
    LocatedCons(q.format, rest, HEADER);
  }

  /** What the two dumps of that log select. */
  lemma {:induction false} AnnotatedSeen(cfg: Config, s: State) returns (q: Request, rest: seq<Packet>)
    requires cfg.skipAnnotate && cfg.serverId == 0 && cfg.stopTime == 10 && 104 < cfg.stopPosition && s.startTime <= 5
    ensures q.Valid() && RealLog(rest, q.At()) && q.start == HEADER
    ensures LocalOwn(cfg, true, s, q.prefix, q.From(rest), HEADER)
         == [q.format.event] + ((if Waits(s) <= 1 then [ANNOTATE] else []) +
                                if Waits(s) <= 2 && 164 < cfg.stopPosition then [EVENT] else [])
    ensures RemoteOwn(cfg, s, q.Stream(true, rest), HEADER) == [q.format.event] + if Waits(s) <= 1 then [EVENT] else []
  {
    q, rest := Sample(false, HEADER), Annotated();
    var f := q.format.event;
    SampleIsValid(false, HEADER, rest);
    LocalOwnIs(cfg, true, s, q, rest);
    RemoteOwnIs(cfg, s, q, rest);
    AnnotatedItems(HEADER + 100);
    LocalHead(cfg, true, s, f);
    RemoteHead(cfg, s, f, HEADER);
    TwoItems(cfg, Headed(cfg, true, s, f).0, HEADER + 100);
    OneItem(cfg, Step(cfg, Read(s, Closed(f)), Closed(f), HEADER).0, HEADER + 100);
  }

  lemma {:induction false} SkipOptions(stopPosition: nat, offset: nat) returns (cfg: Config, s: State)
    ensures cfg.skipAnnotate && cfg.serverId == 0 && cfg.stopTime == 10 && cfg.stopPosition == stopPosition
    ensures s.startTime == 0 && s.offset == offset && Waits(s) == offset
  {
    cfg, s := Options(true, stopPosition), Waiting(offset);
  }

  /** A --stop-position between the two positions ends the local dump in front of the event, the remote one not. */
  lemma {:induction false} StopDiffers() returns (cfg: Config, s: State, q: Request, rest: seq<Packet>)
    ensures cfg.skipAnnotate && cfg.stopPosition == 150 && s.offset == 0 && q.Valid() && RealLog(rest, q.At())
    ensures LocalOwn(cfg, true, s, q.prefix, q.From(rest), q.start) == [q.format.event, ANNOTATE]
    ensures RemoteOwn(cfg, s, q.Stream(true, rest), q.start) == [q.format.event, EVENT]
  {
    cfg, s := SkipOptions(150, 0);
    q, rest := AnnotatedSeen(cfg, s);
  }

  /** With --offset=2 the local dump has counted far enough at the event, the remote one not. */
  lemma {:induction false} CountDiffers() returns (cfg: Config, s: State, q: Request, rest: seq<Packet>)
    ensures cfg.skipAnnotate && s.offset == 2 && q.Valid() && RealLog(rest, q.At())
    ensures LocalOwn(cfg, true, s, q.prefix, q.From(rest), q.start) == [q.format.event, EVENT]
    ensures RemoteOwn(cfg, s, q.Stream(true, rest), q.start) == [q.format.event]
  {
    cfg, s := SkipOptions(1000, 2);
    q, rest := AnnotatedSeen(cfg, s);
  }

  // --- The program ---

  /** A format event in front of the start position. */
  method ReadFormat(r: Replayer, processes: bool, ev: Event, off: nat) returns (status: Status)
    requires ev.kind.FormatDescription?
    modifies r
    ensures (r.Snapshot(), status)
         == if processes then Step(r.cfg, Read(old(r.Snapshot()), ev), ev, off)
            else (Install(Read(old(r.Snapshot()), ev), ev), Continue)
  {
    r.live := r.live + {ev.id};
    if processes {
      status := r.ProcessEvent(ev, off);
    } else {
      status := Continue;
      r.Delete(r.description.id);
      r.description := Description(ev.id, ev.kind.version, ev.kind.inUse);
    }
  }

  /** `check_header`: the loop over the events in front of the start position. */
  method ReadHeader(r: Replayer, processes: bool, log: seq<Packet>, start: nat) returns (status: Status)
    modifies r
    ensures (r.Snapshot(), status) == CheckHeader(r.cfg, processes, old(r.Snapshot()), log, HEADER, start)
  {
    status := Continue;
    var i: nat, off: nat := 0, HEADER;
    ghost var whole := CheckHeader(r.cfg, processes, r.Snapshot(), log, off, start);
    while i < |log| && off < start
      invariant 0 <= i <= |log| && status.Continue?
      invariant whole == CheckHeader(r.cfg, processes, r.Snapshot(), log[i..], off, start)
    {
      var ev := log[i].event;
      assert log[i..][0] == log[i] && log[i..][1..] == log[i + 1..];
      if ev.kind.FormatDescription? {
        status := ReadFormat(r, processes, ev, off);
        if !status.Continue? { return; }
      } else if !ev.kind.Rotate? {
        return;
      }
      off := off + log[i].size;
      i := i + 1;
    }
  }

  /** The local dump: the header, and the events from the start position on. */
  method DumpLocal(r: Replayer, processes: bool, prefix: seq<Packet>, log: seq<Packet>, start: nat) returns (status: Status)
    modifies r
    ensures (r.Snapshot(), status) == LocalRun(r.cfg, processes, old(r.Snapshot()), prefix, log, start)
  {
    status := ReadHeader(r, processes, prefix + log, start);
    if status.Continue? {
      status := r.DumpEvents(Located(log, start));
    }
  }
}
