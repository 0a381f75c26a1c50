/**
  The two `field_escape` functions, of client/mysqldump.c and client/mysqlimport.c, that turn a terminator given on
  the command line into a string literal, and `add_load_option`.
*/
module FieldEscape {
  import opened Text
  import opened SqlLiteral

  /** What the two loops write: `odd` is the parity of the backslashes just before. */
  function Body(s: string, odd: bool): string {
    if s == "" then (if odd then "\\" else "")
    else if s[0] == '\\' then "\\" + Body(s[1..], !odd)
    else if s[0] == '\'' && !odd then "''" + Body(s[1..], false)
    else [s[0]] + Body(s[1..], false)
  }

  /**
    What the user means: a backslash makes an escape with the character after it, a last backslash and a quote
    stand for themselves.
  */
  function Meaning(s: string): string {
    if s == "" then ""
    else if s[0] != '\\' then [s[0]] + Meaning(s[1..])
    else if |s| == 1 then "\\"
    else Escape(s[1]) + Meaning(s[2..])
  }

  /** The body is a complete literal that denotes what the user means. */
  lemma {:induction false} BodyDecodes(s: string)
    ensures Decode(Body(s, false)) == Some(Meaning(s))
    decreases |s|
  {
    var body := Body(s, false);
    if s == "" {
    } else if s[0] != '\\' {
      BodyDecodes(s[1..]);
      assert body == (if s[0] == '\'' then "''" else [s[0]]) + Body(s[1..], false);
      assert body[if s[0] == '\'' then 2 else 1..] == Body(s[1..], false);
    } else if |s| == 1 {
      assert Body(s[1..], true) == "\\";
      assert body == "\\\\" && body[2..] == "";
      assert Escape('\\') + "" == "\\";
    } else {
      BodyDecodes(s[2..]);
      assert s[1..][1..] == s[2..];
      assert Body(s[1..], true) == [s[1]] + Body(s[2..], false);
      assert body == ['\\', s[1]] + Body(s[2..], false);
      assert body[2..] == Body(s[2..], false);
    }
  }

  lemma {:induction false} BodyIsShort(s: string, odd: bool)
    ensures |Body(s, odd)| <= 2 * |s| + (if odd then 1 else 0)
  {
    if s != "" {
      BodyIsShort(s[1..], s[0] == '\\' && !odd);
    }
  }

  /** What is written after s is read, before the end: the body without the completing backslash. */
  function Written(s: string): (r: (string, bool)) {
    if s == "" then ("", false)
    else
      var n := |s| - 1;
      var (text, odd) := Written(s[..n]);
      if s[n] == '\\' then (text + "\\", !odd)
      else if s[n] == '\'' && !odd then (text + "''", false)
      else (text + [s[n]], false)
  }

  lemma {:induction false} WrittenThenBody(s: string, k: nat)
    requires k <= |s|
    ensures Written(s[..k]).0 + Body(s[k..], Written(s[..k]).1) == Body(s, false)
  {
    if k == 0 {
      assert s[0..] == s;
    } else {
      WrittenThenBody(s, k - 1);
      assert s[..k][..k - 1] == s[..k - 1];
      assert s[k - 1..][1..] == s[k..];
    }
  }

  /** The version of mysqldump, which appends to a string. */
  method AppendEscaped(text: string, from: string) returns (r: string)
    requires NoNul(from)
    ensures r == text + "'" + Body(from, false) + "'"
  {
    r := text + "'";
    var odd := false;
    var i := 0;
    while i < |from|
      invariant i <= |from|
      invariant r == text + "'" + Written(from[..i]).0 && odd == Written(from[..i]).1
    {
      assert from[..i + 1][..i] == from[..i];
      r := r + [from[i]];
      if from[i] == '\\' {
        odd := !odd;
      } else {
        if from[i] == '\'' && !odd {
          r := r + "'";
        }
        odd := false;
      }
      i := i + 1;
    }
    WrittenThenBody(from, i);
    if odd {
      r := r + "\\";
    }
    r := r + "'";
  }

  /** One character written at the end of what is written so far. */
  lemma {:induction false} PutChar(front: string, done: string, room: string, c: char)
    requires |done| < |room|
    ensures var buffer := front + done + room[|done|..];
            buffer[|front| + |done| := c] == front + (done + [c]) + room[|done| + 1..]
  {
  }

  /** The version of mysqlimport, which writes through a moving pointer into a buffer. */
  method EscapeInto(to: array<char>, start: nat, from: string, ghost front: string, ghost room: string)
    returns (end: nat)
    requires to[..] == front + room && start == |front| && 2 * |from| <= |room|
    modifies to
    ensures start <= end == start + |Body(from, false)| <= start + 2 * |from|
    ensures to[..] == front + Body(from, false) + room[end - start..]
  {
    ghost var done := "";
    end := start;
    var odd := false;
    var i := 0;
    assert room[0..] == room && front + "" == front;
    while i < |from|
      invariant i <= |from| && end == start + |done| && |done| + (if odd then 1 else 0) <= 2 * i
      invariant (done, odd) == Written(from[..i])
      invariant to[..] == front + done + room[|done|..]
    {
      assert from[..i + 1][..i] == from[..i];
      ghost var before := done;
      PutChar(front, done, room, from[i]);
      to[end] := from[i];
      end, done := end + 1, done + [from[i]];
      if from[i] == '\\' {
        odd := !odd;
      } else {
        if from[i] == '\'' && !odd {
          PutChar(front, done, room, from[i]);
          to[end] := from[i];
          end, done := end + 1, done + [from[i]];
          assert done == before + "''";
        }
        odd := false;
      }
      i := i + 1;
    }
    WrittenThenBody(from, i);
    if odd {
      PutChar(front, done, room, '\\');
      to[end] := '\\';
      end, done := end + 1, done + ['\\'];
    }
  }

  /** `strxmov`: a copy of s at the pointer. */
  method Put(to: array<char>, start: nat, s: string, ghost front: string, ghost room: string) returns (end: nat)
    requires to[..] == front + room && start == |front| && |s| <= |room|
    modifies to
    ensures end == start + |s| && to[..] == front + s + room[|s|..]
  {
    end := start;
    assert s[..0] == "" && front + "" == front && room[0..] == room;
    while end < start + |s|
      invariant start <= end <= start + |s|
      invariant to[..] == front + s[..end - start] + room[end - start..]
    {
      PutChar(front, s[..end - start], room, s[end - start]);
      assert s[..end - start] + [s[end - start]] == s[..end - start + 1];
      to[end] := s[end - start];
      end := end + 1;
    }
    assert s[..|s|] == s;
  }

  predicate IsHex(given: string) {
    At(given, 0) == '0' && (At(given, 1) == 'x' || At(given, 1) == 'X')
  }

  /** What `add_load_option` adds: a hexadecimal constant as it is, any other object as a literal. */
  function LoadOption(given: string, statement: string): string {
    if IsHex(given) then " " + statement + " " + given else " " + statement + " '" + Body(given, false) + "'"
  }

  /** The option is appended where the pointer stands, and nothing before or after it changes. */
  method AddLoadOption(to: array<char>, start: nat, given: string, statement: string,
                       ghost front: string, ghost room: string)
    returns (end: nat)
    requires NoNul(given)
    requires to[..] == front + room && start == |front| && |statement| + 2 * |given| + 4 <= |room|
    modifies to
    ensures end == start + |LoadOption(given, statement)| <= to.Length
    ensures to[..] == front + LoadOption(given, statement) + room[end - start..]
  {
    if IsHex(given) {
      end := Put(to, start, " " + statement + " " + given, front, room);
    } else {
      var before := " " + statement + " '";
      var middle := Put(to, start, before, front, room);
      end := EscapeInto(to, middle, given, front + before, room[|before|..]);
      CloseQuote(front, before, Body(given, false), room);
      ghost var was := to[..];
      to[end] := '\'';
      assert to[..] == was[end := '\''];
      end := end + 1;
    }
  }

  lemma {:induction false} CloseQuote(front: string, before: string, body: string, room: string)
    requires |before| + |body| < |room|
    ensures var buffer := (front + before) + body + room[|before|..][|body|..];
            && |front| + |before| + |body| < |buffer|
            && buffer[|front| + |before| + |body| := '\''] ==
               front + (before + body + "'") + room[|before + body + "'"|..]
  {
  }
}
