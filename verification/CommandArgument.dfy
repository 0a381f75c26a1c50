/** `get_arg` of client/mysql.cc: the argument of a client command such as USE or DELIMITER. */
module CommandArgument {
  import opened Text

  /** Where the argument starts: its offset, its quote (or NUL) and whether `\x` was used. */
  datatype Place = Place(start: nat, quote: char, short: bool)

  /** Number of leading characters of `s` that are not white space. */
  function WordLength(s: string): (n: nat)
    ensures n <= |s|
  {
    if s == "" || IsSpace(s[0]) then 0 else 1 + WordLength(s[1..])
  }

  /** A short command reaches `get_arg` together with its command character. */
  predicate WellFormed(line: string) {
    var lead := LeadingSpaces(line);
    At(line, lead) == '\\' ==> lead + 2 <= |line|
  }

  function Locate(line: string): (r: Option<Place>)
    requires WellFormed(line)
    ensures r.Some? ==> r.value.start <= |line|
    ensures r.Some? && r.value.quote != NUL ==> IsQuote(r.value.quote)
  {
    var lead := LeadingSpaces(line);
    var short := At(line, lead) == '\\';
    var afterCommand := if short then lead + 2 else lead + WordLength(line[lead..]);
    if afterCommand == |line| then None
    else
      var p := afterCommand + LeadingSpaces(line[afterCommand..]);
      if IsQuote(At(line, p)) then Some(Place(p + 1, line[p], short)) else Some(Place(p, NUL, short))
  }

  /** Does the text at the front of `s` stand for its second character? */
  predicate Escaped(s: string, quote: char, short: bool) {
    |s| >= 2 && (s[0] == '\\' || (!short && quote != NUL && s[0] == quote && s[1] == quote))
  }

  /** Does the argument end at the front of `s`? */
  predicate Ends(s: string, quote: char) {
    s != "" && s[0] == if quote != NUL then quote else ' '
  }

  /** The argument that starts at the front of `s`, and whether its quote, if any, was closed. */
  function Collect(s: string, quote: char, short: bool): (r: (string, bool))
    ensures |r.0| <= |s|
  {
    if s == "" then ("", quote == NUL)
    else if Escaped(s, quote, short) then
      var rest := Collect(s[2..], quote, short);
      ([s[1]] + rest.0, rest.1)
    else if Ends(s, quote) then ("", true)
    else
      var rest := Collect(s[1..], quote, short);
      ([s[0]] + rest.0, rest.1)
  }

  /** The argument of the command on `line`; None where the C code returns NullS. */
  function Argument(line: string): (r: Option<string>)
    requires WellFormed(line)
    ensures r.Some? ==> r.value != ""
  {
    match Locate(line)
    case None => None
    case Some(p) =>
      var (arg, closed) := Collect(line[p.start..], p.quote, p.short);
      if arg != "" && closed then Some(arg) else None
  }

  /** The scan of s when it has the text `done` already. */
  function Scan(done: string, s: string, quote: char, short: bool): (string, bool)
    decreases |s|
  {
    if s == "" then (done, quote == NUL)
    else if Escaped(s, quote, short) then Scan(done + [s[1]], s[2..], quote, short)
    else if Ends(s, quote) then (done, true)
    else Scan(done + [s[0]], s[1..], quote, short)
  }

  lemma {:induction false} ScanCollects(done: string, s: string, quote: char, short: bool)
    ensures Scan(done, s, quote, short) == (done + Collect(s, quote, short).0, Collect(s, quote, short).1)
    decreases |s|
  {
    assert done + "" == done;
    if s == "" {
    } else if Escaped(s, quote, short) {
      ScanCollects(done + [s[1]], s[2..], quote, short);
      var more := Collect(s[2..], quote, short).0;
      assert done + ([s[1]] + more) == (done + [s[1]]) + more;
    } else if !Ends(s, quote) {
      ScanCollects(done + [s[0]], s[1..], quote, short);
      var more := Collect(s[1..], quote, short).0;
      assert done + ([s[0]] + more) == (done + [s[0]]) + more;
    }
  }

  lemma {:induction false} ScanIsCollect(s: string, quote: char, short: bool)
    ensures Scan("", s, quote, short) == Collect(s, quote, short)
  {
    ScanCollects("", s, quote, short);
    assert "" + Collect(s, quote, short).0 == Collect(s, quote, short).0;
  }

  /** Check-only mode: walks the line and says whether there is an argument. */
  method Check(line: string) returns (found: bool)
    requires WellFormed(line)
    ensures found <==> Argument(line).Some?
  {
    var place := Locate(line);
    if place.None? { return false; }
    found := Walk(line[place.value.start..], place.value.quote, place.value.short);
    ScanIsCollect(line[place.value.start..], place.value.quote, place.value.short);
  }

  /** The loop of check-only mode over the rest of the line. */
  method Walk(s: string, quote: char, short: bool) returns (found: bool)
    ensures var all := Scan("", s, quote, short); found <==> all.0 != "" && all.1
  {
    ghost var done, rest := "", s;
    var ptr := 0;
    var open := quote;
    while ptr < |s|
      invariant ptr <= |s| && rest == s[ptr..]
      invariant open == quote
      invariant done == "" <==> ptr == 0
      invariant Scan("", s, quote, short) == Scan(done, rest, quote, short)
    {
      if (s[ptr] == '\\' && ptr + 1 < |s|) ||
         (!short && quote != NUL && s[ptr] == quote && At(s, ptr + 1) == quote)
      {
        done, rest := done + [rest[1]], rest[2..];
        ptr := ptr + 1;
      } else if s[ptr] == (if quote != NUL then quote else ' ') {
        open := NUL;
        break;
      } else {
        done, rest := done + [rest[0]], rest[1..];
      }
      ptr := ptr + 1;
    }
    found := ptr != 0 && open == NUL;
  }

  /** `strmov_overlapp(ptr, ptr + 1)` on a buffer whose terminator is at `len`. */
  method DropAt(line: array<char>, ptr: nat, len: nat)
    requires ptr < len < line.Length
    modifies line
    ensures forall k :: 0 <= k < ptr || len <= k < line.Length ==> line[k] == old(line[k])
    ensures forall k :: ptr <= k < len ==> line[k] == old(line[k + 1])
  {
    var i := ptr;
    while i < len
      invariant ptr <= i <= len
      invariant forall k :: ptr <= k < i ==> line[k] == old(line[k + 1])
      invariant forall k :: 0 <= k < ptr || i <= k < line.Length ==> line[k] == old(line[k])
    {
      line[i] := line[i + 1];
      i := i + 1;
    }
  }

  /** A buffer: what is done with, the text still to be read, and the terminator with what follows. */
  ghost predicate Parts(buffer: string, head: string, rest: string, tail: string) {
    buffer == head + rest + tail && tail != "" && tail[0] == NUL
  }

  /** Drops the first character of the text still to be read. */
  method DropFirst(line: array<char>, ptr: nat, len: nat, ghost head: string, ghost rest: string, ghost tail: string)
    requires Parts(line[..], head, rest, tail) && rest != "" && ptr == |head| && len == ptr + |rest|
    modifies line
    ensures Parts(line[..], head, rest[1..], [NUL] + tail)
  {
    ghost var was := line[..];
    DropAt(line, ptr, len);
    ghost var now := head + rest[1..] + ([NUL] + tail);
    forall i | 0 <= i < line.Length ensures line[i] == now[i] {
      assert line[i] == if ptr <= i < len then was[i + 1] else was[i];
    }
  }

  lemma {:induction false} SeeFirst(buffer: string, head: string, rest: string, tail: string)
    requires Parts(buffer, head, rest, tail) && rest != ""
    ensures |head| < |buffer| && buffer[|head|] == rest[0]
    ensures |rest| > 1 ==> |head| + 1 < |buffer| && buffer[|head| + 1] == rest[1]
    ensures buffer[|head| := NUL] == head + ([NUL] + rest[1..] + tail)
  {
  }

  lemma {:induction false} TakeFirst(buffer: string, front: string, done: string, rest: string, tail: string)
    requires Parts(buffer, front + done, rest, tail) && rest != ""
    ensures Parts(buffer, front + (done + [rest[0]]), rest[1..], tail)
    ensures |front + (done + [rest[0]])| == |front + done| + 1
  {
    assert front + done + rest + tail == front + (done + [rest[0]]) + rest[1..] + tail;
  }

  /** The in-place loop: squeezes the text at `line[start..]` until it ends; `ptr` is its new end. */
  method Squeeze(line: array<char>, start: nat, length: nat, quote: char, short: bool,
                 ghost front: string, ghost text: string, ghost behind: string)
    returns (ptr: nat, closed: bool, ghost after: string)
    requires Parts(line[..], front, text, behind) && start == |front| && length == start + |text|
    modifies line
    ensures start <= ptr <= length
    ensures line[..] == front + Scan("", text, quote, short).0 + after
    ensures closed == Scan("", text, quote, short).1
    ensures ptr == start + |Scan("", text, quote, short).0|
    ensures closed ==> after != "" && after[0] == NUL
  {
    ghost var done, rest, tail := "", text, behind;
    ptr := start;
    var len := length;
    closed := quote == NUL;
    while ptr < len
      invariant ptr == |front + done| && len == ptr + |rest| && len <= length
      invariant closed == (quote == NUL)
      invariant Parts(line[..], front + done, rest, tail)
      invariant Scan("", text, quote, short) == Scan(done, rest, quote, short)
      decreases len - ptr
    {
      SeeFirst(line[..], front + done, rest, tail);
      if ptr + 1 < len && (line[ptr] == '\\' || (!short && quote != NUL && line[ptr] == quote && line[ptr + 1] == quote)) {
        DropFirst(line, ptr, len, front + done, rest, tail);
        TakeFirst(line[..], front, done, rest[1..], [NUL] + tail);
        assert rest[1..][1..] == rest[2..];
        len := len - 1;
        done, rest, tail := done + [rest[1]], rest[2..], [NUL] + tail;
      } else if line[ptr] == (if quote != NUL then quote else ' ') {
        closed := true;
        ghost var was := line[..];
        line[ptr] := NUL;
        after := [NUL] + rest[1..] + tail;
        assert line[..] == was[ptr := NUL];
        return;
      } else {
        TakeFirst(line[..], front, done, rest, tail);
        done, rest := done + [rest[0]], rest[1..];
      }
      ptr := ptr + 1;
    }
    after := tail;
  }

  /**
    Mutating mode: squeezes the escapes out of the buffer and terminates the argument in place.
    The result is the offset of the argument's C string, or -1 for NullS.
  */
  method Get(line: array<char>, length: nat) returns (result: int)
    requires length < line.Length
    requires line[length] == NUL
    requires WellFormed(line[..length])
    modifies line
    ensures result == -1 <==> Argument(old(line[..length])).None?
    ensures result != -1 ==>
              var arg := Argument(old(line[..length])).value;
              && 0 <= result && result + |arg| <= length
              && line[result..result + |arg|] == arg
              && line[result + |arg|] == NUL
  {
    var place := Locate(line[..length]);
    if place.None? { return -1; }
    var start := place.value.start;
    ghost var text := line[..length][start..];
    assert Parts(line[..], line[..start], text, line[length..]);
    ScanIsCollect(text, place.value.quote, place.value.short);
    var ptr, closed, after :=
      Squeeze(line, start, length, place.value.quote, place.value.short, line[..start], text, line[length..]);
    result := if ptr != start && closed then start else -1;
  }
}
