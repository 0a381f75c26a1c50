/** Reading a log from a server (`dump_remote_log_entries`, `handle_event_text_mode`): positions are tracked, not read. */
module BinlogRemote {
  import opened Text
  import opened Binlog
  import opened BinlogReplayer

  const HEADER: nat := 4       // BIN_LOG_HEADER_SIZE
  const EVENT_SIZE: nat := 19  // LOG_EVENT_HEADER_LEN: no event is shorter

  /** A packet: its event, the size of the event, and for a Rotate event whether it names the requested log. */
  datatype Packet = Packet(event: Event, size: nat, ours: bool)

  datatype Handling = Pass | Drop | EndOfLog

  predicate FakeRotate(p: Packet) {
    p.event.kind.Rotate? && p.event.when == 0
  }

  function Handle(p: Packet, toLast: bool): Handling {
    if !FakeRotate(p) || toLast then Pass else if p.ours then Drop else EndOfLog
  }

  /** How far the tracked position moves: not at all for events that are not in the log. */
  function Advance(p: Packet, off: nat): nat {
    if FakeRotate(p) || (p.event.kind.FormatDescription? && off != HEADER) then 0 else p.size
  }

  /** The events handed to `process_event`, with the positions tracked for them. */
  function Tracked(packets: seq<Packet>, off: nat, toLast: bool): seq<Item>
    decreases |packets|
  {
    if packets == [] then []
    else
      match Handle(packets[0], toLast)
      case EndOfLog => []
      case Drop => Tracked(packets[1..], off, toLast)
      case Pass => [Item(packets[0].event, off)] + Tracked(packets[1..], off + Advance(packets[0], off), toLast)
  }

  /** The first packet of a stream. */
  lemma {:induction false} TrackedCons(cfg: Config, s: State, packets: seq<Packet>, off: nat, toLast: bool)
    requires packets != [] && Handle(packets[0], toLast).Pass?
    ensures Run(cfg, s, Tracked(packets, off, toLast))
         == var (after, status) := Step(cfg, Read(s, packets[0].event), packets[0].event, off);
            if status.Continue? then Run(cfg, after, Tracked(packets[1..], off + Advance(packets[0], off), toLast))
            else (after, status)
  {
    var rest := Tracked(packets[1..], off + Advance(packets[0], off), toLast);
    var items := [Item(packets[0].event, off)] + rest;
    assert items[1..] == rest;
  }

  /** `handle_event_text_mode`: passes the event on, or drops it and tells whether the log has ended. */
  method HandleEvent(r: Replayer, p: Packet, off: nat, toLast: bool) returns (status: Status, next: nat, ended: bool)
    modifies r
    ensures ended <==> Handle(p, toLast).EndOfLog?
    ensures if Handle(p, toLast).Pass?
            then (r.Snapshot(), status) == Step(r.cfg, Read(old(r.Snapshot()), p.event), p.event, off) &&
                 next == off + Advance(p, off)
            else r.Snapshot() == old(r.Snapshot()) && status.Continue? && next == off
  {
    status, next, ended := Continue, off, false;
    if FakeRotate(p) && !toLast {
      ended := !p.ours;
    } else {
      r.live := r.live + {p.event.id};
      status := r.ProcessEvent(p.event, off);
      next := off + Advance(p, off);
    }
  }

  /** One turn of the loop: what is left to do after it. */
  method TakePacket(r: Replayer, packets: seq<Packet>, off: nat, toLast: bool, ghost whole: (State, Status))
    returns (status: Status, next: nat, ended: bool)
    requires packets != [] && whole == Run(r.cfg, r.Snapshot(), Tracked(packets, off, toLast))
    modifies r
    ensures whole == if status.Continue? && !ended then Run(r.cfg, r.Snapshot(), Tracked(packets[1..], next, toLast))
                     else (r.Snapshot(), status)
  {
    if Handle(packets[0], toLast).Pass? {
      TrackedCons(r.cfg, r.Snapshot(), packets, off, toLast);
    }
    status, next, ended := HandleEvent(r, packets[0], off, toLast);
  }

  method DumpRemote(r: Replayer, packets: seq<Packet>, start: nat, toLast: bool) returns (status: Status)
    modifies r
    ensures (r.Snapshot(), status) == Run(r.cfg, old(r.Snapshot()), Tracked(packets, start, toLast))
  {
    status := Continue;
    var oldOff: nat, i, ended := start, 0, false;
    ghost var whole := Run(r.cfg, r.Snapshot(), Tracked(packets, start, toLast));
    while i < |packets| && status.Continue? && !ended
      invariant 0 <= i <= |packets|
      invariant whole == if status.Continue? && !ended
                         then Run(r.cfg, r.Snapshot(), Tracked(packets[i..], oldOff, toLast))
                         else (r.Snapshot(), status)
    {
      assert packets[i..][1..] == packets[i + 1..];
      status, oldOff, ended := TakePacket(r, packets[i..], oldOff, toLast, whole);
      i := i + 1;
    }
  }

  /** The events of a log with their byte offsets, as a local read finds them. */
  function Located(log: seq<Packet>, off: nat): seq<Item> {
    if log == [] then [] else [Item(log[0].event, off)] + Located(log[1..], off + log[0].size)
  }

  function EndOf(log: seq<Packet>, off: nat): nat {
    if log == [] then off else EndOf(log[1..], off + log[0].size)
  }

  /** What a binary log holds: its format event is at its start, and its Rotate events carry their time. */
  ghost predicate RealLog(log: seq<Packet>, off: nat) {
    log == [] ||
    (!FakeRotate(log[0]) && (log[0].event.kind.FormatDescription? ==> off == HEADER) && log[0].size >= EVENT_SIZE &&
     RealLog(log[1..], off + log[0].size))
  }

  /** While real events arrive, the tracked position of each is its byte offset. */
  lemma {:induction false} RealEventsAreLocated(log: seq<Packet>, off: nat, rest: seq<Packet>, toLast: bool)
    requires RealLog(log, off)
    ensures Tracked(log + rest, off, toLast) == Located(log, off) + Tracked(rest, EndOf(log, off), toLast)
  {
    if log == [] {
      assert log + rest == rest;
    } else {
      assert (log + rest)[1..] == log[1..] + rest;
      RealEventsAreLocated(log[1..], off + log[0].size, rest, toLast);
    }
  }

  // --- What the server sends ---

  /** The server leaves out Annotate events that the client did not ask for, which tolerates the holes. */
  predicate LeftOut(skip: bool, ev: Event) {
    skip && ev.kind.Annotate?
  }

  /** The in-use flag of a format event is cleared before it is sent. */
  function Closed(ev: Event): Event {
    if ev.kind.FormatDescription? then ev.(kind := FormatDescription(ev.kind.version, false)) else ev
  }

  /** The events of a log as they are sent. */
  function Wire(skip: bool, log: seq<Packet>): seq<Packet> {
    if log == [] then []
    else (if LeftOut(skip, log[0].event) then [] else [log[0].(event := Closed(log[0].event))]) + Wire(skip, log[1..])
  }

  /** The bytes of the events left out. */
  function Missing(skip: bool, log: seq<Packet>): nat {
    if log == [] then 0 else (if LeftOut(skip, log[0].event) then log[0].size else 0) + Missing(skip, log[1..])
  }

  predicate HoleFree(skip: bool, log: seq<Packet>) {
    forall i :: 0 <= i < |log| ==> !LeftOut(skip, log[i].event)
  }

  function Lead(format: Packet, start: nat): seq<Packet> {
    if start != HEADER then [format.(event := Closed(format.event))] else []
  }

  /** What the server sends for one log from `start` on: the format event always comes first. */
  function Sent(skip: bool, rotate: Packet, format: Packet, log: seq<Packet>, start: nat, next: seq<Packet>)
    : seq<Packet>
  {
    [rotate] + (Lead(format, start) + (Wire(skip, log) + next))
  }

  lemma {:induction false} LocatedCons(p: Packet, rest: seq<Packet>, off: nat)
    ensures Located([p] + rest, off) == [Item(p.event, off)] + Located(rest, off + p.size)
    ensures Located([p] + rest, off)[1..] == Located(rest, off + p.size)
  {
    assert ([p] + rest)[1..] == rest;
  }

  lemma {:induction false} WireCons(skip: bool, p: Packet, rest: seq<Packet>)
    ensures Wire(skip, [p] + rest)
         == (if LeftOut(skip, p.event) then [] else [p.(event := Closed(p.event))]) + Wire(skip, rest)
    ensures Missing(skip, [p] + rest) == (if LeftOut(skip, p.event) then p.size else 0) + Missing(skip, rest)
  {
    assert ([p] + rest)[1..] == rest;
  }

  /** What is sent of a real log reads as a real log, at any later position. */
  lemma {:induction false} WireIsReal(skip: bool, log: seq<Packet>, off: nat, at: nat)
    requires RealLog(log, off) && (at == off || off > HEADER)
    ensures RealLog(Wire(skip, log), at)
    decreases |log|
  {
    if log != [] {
      var rest := Wire(skip, log[1..]);
      if LeftOut(skip, log[0].event) {
        assert Wire(skip, log) == rest;
        WireIsReal(skip, log[1..], off + log[0].size, at);
      } else {
        assert Wire(skip, log)[1..] == rest;
        WireIsReal(skip, log[1..], off + log[0].size, at + log[0].size);
      }
    }
  }

  lemma {:induction false} TrackedFirst(p: Packet, rest: seq<Packet>, off: nat)
    requires !FakeRotate(p) || p.ours
    ensures Tracked([p] + rest, off, false)
         == if FakeRotate(p) then Tracked(rest, off, false)
            else [Item(p.event, off)] + Tracked(rest, off + Advance(p, off), false)
  {
    assert ([p] + rest)[1..] == rest;
  }

  lemma {:induction false} StreamEnds(wire: seq<Packet>, start: nat, next: seq<Packet>)
    requires RealLog(wire, start)
    requires next == [] || (FakeRotate(next[0]) && !next[0].ours)
    ensures Tracked(wire + next, start, false) == Located(wire, start)
  {
    RealEventsAreLocated(wire, start, next, false);
    assert Tracked(next, EndOf(wire, start), false) == [];
  }

  lemma {:induction false} LeadTracked(format: Packet, stream: seq<Packet>, start: nat)
    requires format.event.kind.FormatDescription?
    ensures Tracked(Lead(format, start) + stream, start, false)
         == (if start != HEADER then [Item(Closed(format.event), start)] else []) + Tracked(stream, start, false)
  {
    if start != HEADER {
      TrackedFirst(format.(event := Closed(format.event)), stream, start);
    } else {
      assert Lead(format, start) + stream == stream;
    }
  }

  /**
    For one remote log the events processed are those sent, one behind the other from the start position on; when
    reading starts later the format event comes first and takes no room.
  */
  lemma {:induction false} RemoteIsLocal(skip: bool, rotate: Packet, format: Packet, log: seq<Packet>, start: nat,
                                         next: seq<Packet>)
    requires FakeRotate(rotate) && rotate.ours
    requires format.event.kind.FormatDescription?
    requires RealLog(log, start)
    requires next == [] || (FakeRotate(next[0]) && !next[0].ours)
    ensures Tracked(Sent(skip, rotate, format, log, start, next), start, false)
         == (if start != HEADER then [Item(Closed(format.event), start)] else []) + Located(Wire(skip, log), start)
  {
    var stream := Wire(skip, log) + next;
    WireIsReal(skip, log, start, start);
    StreamEnds(Wire(skip, log), start, next);
    TrackedFirst(rotate, Lead(format, start) + stream, start);
    LeadTracked(format, stream, start);
  }

  // --- Tracked positions ---

  lemma {:induction false} WireConcat(skip: bool, front: seq<Packet>, back: seq<Packet>)
    ensures Wire(skip, front + back) == Wire(skip, front) + Wire(skip, back)
    decreases |front|
  {
    if front == [] {
      assert front + back == back;
    } else {
      assert (front + back)[1..] == front[1..] + back;
      WireConcat(skip, front[1..], back);
    }
  }

  /** The bytes sent and the bytes left out make up the log. */
  lemma {:induction false} EndOfWire(skip: bool, log: seq<Packet>, off: nat, at: nat)
    ensures EndOf(Wire(skip, log), at) - at == EndOf(log, off) - off - Missing(skip, log)
    decreases |log|
  {
    if log != [] {
      var p, rest := log[0], Wire(skip, log[1..]);
      if LeftOut(skip, p.event) {
        assert Wire(skip, log) == rest;
        EndOfWire(skip, log[1..], off + p.size, at);
      } else {
        assert Wire(skip, log)[1..] == rest;
        EndOfWire(skip, log[1..], off + p.size, at + p.size);
      }
    }
  }

  lemma {:induction false} LocatedAt(log: seq<Packet>, off: nat, i: nat)
    requires i < |log|
    ensures |Located(log, off)| == |log| && Located(log, off)[i] == Item(log[i].event, EndOf(log[..i], off))
    decreases |log|
  {
    if |log| > 1 { LocatedAt(log[1..], off + log[0].size, if i == 0 then 0 else i - 1); }
    if i > 0 { assert log[..i][1..] == log[1..][..i - 1]; }
  }

  /** Where an event that is sent stands in the stream, and its position there. */
  lemma {:induction false} WirePosition(skip: bool, log: seq<Packet>, off: nat, i: nat)
    requires i < |log| && !LeftOut(skip, log[i].event)
    ensures |Wire(skip, log[..i])| < |Located(Wire(skip, log), off)| && |Located(log, off)| == |log|
    ensures var item := Located(Wire(skip, log), off)[|Wire(skip, log[..i])|];
            && item.event == Closed(log[i].event)
            && item.pos == Located(log, off)[i].pos - Missing(skip, log[..i])
  {
    var front, p, back := log[..i], log[i], log[i + 1..];
    var wire, k := Wire(skip, log), |Wire(skip, front)|;
    assert log == front + ([p] + back);
    WireConcat(skip, front, [p] + back);
    WireCons(skip, p, back);
    assert wire[k] == p.(event := Closed(p.event)) && wire[..k] == Wire(skip, front);
    LocatedAt(log, off, i);
    LocatedAt(wire, off, k);
    EndOfWire(skip, front, off, off);
  }

  lemma {:induction false} MissingNone(skip: bool, log: seq<Packet>)
    requires forall i :: 0 <= i < |log| ==> log[i].size > 0
    ensures Missing(skip, log) == 0 <==> HoleFree(skip, log)
  {
    if log != [] {
      MissingNone(skip, log[1..]);
      assert HoleFree(skip, log) ==> HoleFree(skip, log[1..]) by {
        if HoleFree(skip, log) {
          assert forall i :: 0 <= i < |log[1..]| ==> log[1..][i] == log[i + 1];
        }
      }
      assert HoleFree(skip, log[1..]) && !LeftOut(skip, log[0].event) ==> HoleFree(skip, log) by {
        assert forall i :: 0 < i < |log| ==> log[i] == log[1..][i - 1];
      }
    }
  }

  lemma {:induction false} RealSizes(log: seq<Packet>, off: nat)
    requires RealLog(log, off)
    ensures forall i :: 0 <= i < |log| ==> log[i].size >= EVENT_SIZE
  {
    if log != [] {
      RealSizes(log[1..], off + log[0].size);
      assert forall i :: 0 < i < |log| ==> log[i] == log[1..][i - 1];
    }
  }

  /**
    The position tracked for an event of the log is its byte offset less the sizes of the events left out in front of
    it. It is the byte offset if and only if none was left out.
  */
  lemma {:induction false} TrackedPosition(skip: bool, rotate: Packet, format: Packet, log: seq<Packet>, start: nat,
                                           next: seq<Packet>, i: nat)
    requires FakeRotate(rotate) && rotate.ours
    requires format.event.kind.FormatDescription?
    requires RealLog(log, start) && i < |log| && !LeftOut(skip, log[i].event)
    requires next == [] || (FakeRotate(next[0]) && !next[0].ours)
    ensures var items := Tracked(Sent(skip, rotate, format, log, start, next), start, false);
            var k := (if start != HEADER then 1 else 0) + |Wire(skip, log[..i])|;
            && k < |items| && |Located(log, start)| == |log|
            && items[k].event == Closed(log[i].event)
            && items[k].pos == Located(log, start)[i].pos - Missing(skip, log[..i])
            && (items[k].pos == Located(log, start)[i].pos <==> HoleFree(skip, log[..i]))
  {
    RemoteIsLocal(skip, rotate, format, log, start, next);
    WirePosition(skip, log, start, i);
    RealSizes(log, start);
    MissingNone(skip, log[..i]);
  }
}
