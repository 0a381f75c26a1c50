/**
  `add_line` as client/mysql.cc runs it: one pass over the line buffer with a read offset `pos` and a
  write offset `out` into the same array.  Every method is proved against the append-only `Scanner`.
*/
module LineEditor {
  import opened Text
  import opened Commands
  import opened Scanner

  /** From `pos` on the buffer still holds the input line and its terminator. */
  ghost predicate Intact(line: array<char>, text: string, pos: nat)
    reads line
  {
    && line.Length == |text| + 1 && pos <= |text|
    && forall i :: pos <= i <= |text| ==> line[i] == At(text, i)
  }

  /** `is_prefix(line + pos, t)` for a non-empty `t`. */
  method HasPrefix(line: array<char>, ghost text: string, pos: nat, t: string) returns (yes: bool)
    requires Intact(line, text, pos)
    requires NUL !in t
    ensures yes == PrefixAt(text, pos, t)
  {
    var i := 0;
    while i < |t|
      invariant 0 <= i <= |t| && pos + i <= |text|
      invariant t[..i] == text[pos..pos + i]
    {
      assert line[pos + i] == At(text, pos + i) && t[i] in t;
      assert t <= text[pos..] ==> text[pos..][i] == t[i];
      if line[pos + i] != t[i] {
        return false;
      }
      assert t[..i + 1] == t[..i] + [t[i]] == text[pos..pos + (i + 1)];
      i := i + 1;
    }
    assert t[..i] == t && text[pos..] == text[pos..pos + i] + text[pos + i..];
    return true;
  }

  /** Steps over characters until `mark` or the terminator. */
  method SkipTo(line: array<char>, ghost text: string, from: nat, mark: string) returns (q: nat)
    requires Intact(line, text, from) && NoNul(text)
    requires NUL !in mark
    ensures q == from + IndexOf(text[from..], mark)
  {
    q := from;
    while line[q] != NUL
      invariant from <= q <= |text|
      invariant IndexOf(text[from..], mark) == q - from + IndexOf(text[q..], mark)
      decreases |text| - q
    {
      var here := HasPrefix(line, text, q, mark);
      if here { return; }
      assert text[q..][1..] == text[q + 1..];
      q := q + 1;
    }
  }

  class Client {
    const cfg: Config
    var buffer: string
    var quote: char
    var mlComment: bool
    var session: Session
    var trace: seq<Action>
    var quit: bool

    constructor (cfg: Config, session: Session)
      ensures this.cfg == cfg
      ensures Carried() == State("", "", NUL, false, false, false, session, [], false)
    {
      this.cfg := cfg;
      buffer, quote, mlComment, this.session, trace, quit := "", NUL, false, session, [], false;
    }

    /** The scanner state this object stands for between two lines. */
    ghost function Carried(): State
      reads this
    {
      State(buffer, "", quote, mlComment, false, false, session, trace, quit)
    }

    /** The scanner state in the middle of a line. */
    ghost function Now(line: array<char>, out: nat, ss: bool, ns: bool): State
      requires out <= line.Length
      reads this, line
    {
      State(buffer, line[..out], quote, mlComment, ss, ns, session, trace, quit)
    }

    method Perform(action: Action)
      modifies this
      ensures Carried() == old(Carried()).Perform(cfg, action)
    {
      trace := trace + [action];
      var reply := cfg.host(trace);
      quit, buffer, session := reply.quit, reply.buffer, reply.session;
    }

    /** Moves the accepted characters to the statement buffer; the write offset starts over. */
    method Flush(line: array<char>, out: nat, ghost ss: bool, ghost ns: bool)
      requires out <= line.Length
      modifies this`buffer
      ensures Now(line, 0, ss, ns) == old(Now(line, out, ss, ns)).Flush()
    {
      if out != 0 {
        buffer := buffer + line[..out];
      }
    }

    /** An unknown letter after a backslash is reported and, unless that ends the client, kept. */
    method Report(c: char, ghost line: array<char>, ghost out: nat, ghost ss: bool, ghost ns: bool)
      requires out <= line.Length
      modifies this
      ensures Now(line, out, ss, ns) == (var st := old(Now(line, out, ss, ns));
                                        st.Perform(cfg, Unknown(c)).(buffer := st.buffer, session := st.session))
    {
      var before, modes := buffer, session;
      Perform(Unknown(c));
      buffer, session := before, modes;
    }

    method Backslash(line: array<char>, ghost text: string, pos: nat, out: nat, ss: bool, ghost ns: bool)
      returns (next: nat, to: nat, stop: bool)
      requires Intact(line, text, pos) && NoNul(text) && pos < |text| && out <= pos && (ns ==> out < pos)
      modifies this, line
      ensures Intact(line, text, next) && to <= next && (ns ==> to < next)
      ensures Scanner.Backslash(cfg, text, pos, old(Now(line, out, ss, ns)))
           == if stop then Stop(Now(line, to, ss, ns)) else Go(next, Now(line, to, ss, ns))
    {
      next, to, stop := pos + 1, out, false;
      var c := line[pos + 1];
      var found := cfg.commands.short(c);
      if c == NUL {
        stop := true;
      } else if quote != NUL || c == 'N' {
        next, to := Keep(line, text, pos, out, c);
      } else if found.None? {
        Report(c, line, out, ss, ns);
        stop := quit;
        if !quit {
          next, to := Keep(line, text, pos, out, c);
        }
      } else {
        Flush(line, out, ss, ns);
        assert line[pos..|text|] == text[pos..];
        Perform(Run(found.value, line[pos..line.Length - 1], buffer));
        next, to, stop := pos + 2, 0, quit;
        if !quit && found.value.takesParams {
          next := Parameters(line, text, pos, ss);
        }
      }
    }

    /** Accepts a backslash and the character after it. */
    method Keep(line: array<char>, ghost text: string, pos: nat, out: nat, c: char) returns (next: nat, to: nat)
      requires Intact(line, text, pos) && pos + 1 < |text| && out <= pos
      modifies line
      ensures next == pos + 2 && to == out + 2 && Intact(line, text, next)
      ensures line[..to] == old(line[..out]) + ['\\', c]
    {
      line[out] := '\\';
      line[out + 1] := c;
      next, to := pos + 2, out + 2;
    }

    /** Skips the parameters of the short command at `pos`. */
    method Parameters(line: array<char>, ghost text: string, pos: nat, ss: bool) returns (next: nat)
      requires Intact(line, text, pos) && NoNul(text) && pos + 2 <= |text|
      ensures next == AfterParameters(text, pos, ss, session.delimiter)
    {
      if ss {
        next := SkipTo(line, text, pos + 2, "*/");
      } else {
        next := SkipTo(line, text, pos + 2, session.delimiter);
        if line[next] != NUL {
          next := next + |session.delimiter|;
        }
      }
    }

    /** Sends the statement in the buffer, or runs it as a client command. */
    method Finish(ghost line: array<char>, ghost ss: bool, ghost ns: bool)
      modifies this
      ensures Now(line, 0, ss, ns) == Scanner.Finish(cfg, old(Now(line, 0, ss, ns)))
    {
      var found := cfg.commands.long(session.delimiter, buffer);
      Perform(if found.Some? then Run(found.value, buffer, buffer) else Send(buffer));
      if !quit {
        buffer := "";
      }
    }

    /** Accepts the white space at `pos`; used after a delimiter when comments are kept. */
    method CopySpaces(line: array<char>, ghost text: string, pos: nat, out: nat) returns (next: nat, to: nat)
      requires Intact(line, text, pos) && NoNul(text) && out < pos
      modifies line
      ensures next == pos + LeadingSpaces(text[pos..]) && to - out == next - pos
      ensures Intact(line, text, next)
      ensures line[..to] == old(line[..out]) + text[pos..next]
    {
      next, to := pos, out;
      while IsSpace(line[next])
        invariant pos <= next <= |text| && to - out == next - pos
        invariant LeadingSpaces(text[pos..]) == next - pos + LeadingSpaces(text[next..])
        invariant Intact(line, text, next)
        invariant line[..to] == old(line[..out]) + text[pos..next]
        decreases |text| - next
      {
        assert text[next..][1..] == text[next + 1..];
        line[to] := line[next];
        next, to := next + 1, to + 1;
      }
    }

    /** With comments kept, a single-line comment at `pos` goes with the finished statement. */
    method TakeTrailing(line: array<char>, ghost text: string, pos: nat) returns (next: nat)
      requires Intact(line, text, pos)
      modifies this`buffer
      ensures next == if cfg.preserveComments && TrailingComment(text, pos) then |text| else pos
      ensures buffer == old(buffer) + text[pos..next]
    {
      next := pos;
      if cfg.preserveComments &&
         (line[pos] == '#' || (line[pos] == '-' && line[pos + 1] == '-' && IsSpace(line[pos + 2])))
      {
        next := line.Length - 1;
        assert line[pos..next] == text[pos..next];
        buffer := buffer + line[pos..next];
      }
    }

    method Gather(line: array<char>, ghost text: string, pos: nat, out: nat, ghost ss: bool, ghost ns: bool)
      returns (next: nat)
      requires Intact(line, text, pos) && NoNul(text) && out < pos
      modifies this`buffer, line
      ensures pos <= next && Intact(line, text, next)
      ensures (Now(line, 0, ss, ns), next) == Scanner.Gather(cfg, text, pos, old(Now(line, out, ss, ns)))
    {
      var q, to := pos, out;
      if cfg.preserveComments {
        q, to := CopySpaces(line, text, pos, out);
      }
      assert line[..to] == old(line[..out]) + text[pos..q];
      Flush(line, to, ss, ns);
      next := TakeTrailing(line, text, q);
    }

    method Delimiter(line: array<char>, ghost text: string, pos: nat, out: nat, ghost ss: bool, ghost ns: bool)
      returns (next: nat, stop: bool)
      requires Intact(line, text, pos) && NoNul(text) && pos < |text| && out <= pos
      requires PrefixAt(text, pos, session.delimiter)
      modifies this, line
      ensures pos < next && Intact(line, text, next)
      ensures Scanner.Delimiter(cfg, text, pos, old(Now(line, out, ss, ns)))
           == if stop then Stop(Now(line, 0, ss, ns)) else Go(next, Now(line, 0, ss, ns))
    {
      ghost var was := Now(line, out, ss, ns);
      next := Gather(line, text, pos + |session.delimiter|, out, ss, ns);
      ghost var whole := Now(line, 0, ss, ns);
      assert (whole, next) == Scanner.Gather(cfg, text, pos + |was.session.delimiter|, was);
      Finish(line, ss, ns);
      assert Now(line, 0, ss, ns) == Scanner.Finish(cfg, whole);
      stop := quit;
    }

    method LineComment(line: array<char>, ghost text: string, pos: nat, out: nat, ghost ss: bool, ghost ns: bool)
      requires Intact(line, text, pos) && pos < |text| && out <= pos
      modifies this
      ensures Scanner.LineComment(cfg, text, pos, old(Now(line, out, ss, ns))) == Stop(Now(line, 0, ss, ns))
    {
      Flush(line, out, ss, ns);
      if cfg.preserveComments {
        var startedWithNothing := buffer == "";
        assert line[pos..line.Length - 1] == text[pos..];
        buffer := buffer + line[pos..line.Length - 1];
        if startedWithNothing {
          Perform(Send(buffer));
          if !quit {
            buffer := "";
          }
        }
      }
    }

    /** Opens or closes a block comment; its two mark characters are at `pos`. */
    method CommentMark(line: array<char>, ghost text: string, pos: nat, out: nat, opens: bool,
                       ghost ss: bool, ghost ns: bool)
      returns (next: nat)
      requires Intact(line, text, pos) && pos + 1 < |text| && out <= pos
      modifies this, line
      ensures next == pos + 2 && Intact(line, text, next)
      ensures Now(line, 0, ss, ns || !opens)
           == Scanner.CommentMark(cfg, text[pos..pos + 2], opens, old(Now(line, out, ss, ns)))
    {
      var to := out;
      if cfg.preserveComments {
        line[to] := line[pos];
        line[to + 1] := line[pos + 1];
        to := to + 2;
        assert line[..to] == old(line[..out]) + text[pos..pos + 2];
      }
      mlComment := opens;
      next := pos + 2;
      Flush(line, to, ss, ns || !opens);
    }

    /** Accepts one character, with the space owed after a comment before it. */
    method Append(line: array<char>, ghost text: string, pos: nat, out: nat, c: char, space: bool)
      returns (to: nat)
      requires Intact(line, text, pos) && pos < |text| && out <= pos && (space ==> out < pos)
      modifies line
      ensures to <= pos + 1 && Intact(line, text, pos + 1)
      ensures line[..to] == old(line[..out]) + if space then [' ', c] else [c]
    {
      to := out;
      if space {
        line[to] := ' ';
        to := to + 1;
      }
      line[to] := c;
      to := to + 1;
    }

    method Plain(line: array<char>, ghost text: string, pos: nat, out: nat, ss: bool, ns: bool)
      returns (to: nat, ss': bool, ns': bool)
      requires Intact(line, text, pos) && NoNul(text) && pos < |text| && out <= pos && (ns ==> out < pos)
      modifies this, line
      ensures to <= pos + 1 && (ns' ==> to < pos + 1) && Intact(line, text, pos + 1)
      ensures Now(line, to, ss', ns') == Scanner.Plain(cfg, text, pos, old(Now(line, out, ss, ns)))
    {
      to, ss', ns' := out, ss, ns;
      var c := line[pos];
      var c1 := line[pos + 1];
      if quote == NUL && c == '/' && c1 == '*' && line[pos + 2] == '!' {
        ss' := true;
      } else if quote == NUL && ss && c == '*' && c1 == '/' {
        ss' := false;
      }
      if c == quote {
        quote := NUL;
      } else if !mlComment && quote == NUL && IsQuote(c) {
        quote := c;
      }
      if !mlComment || cfg.preserveComments {
        to := Append(line, text, pos, out, c, ns && !IsSpace(c));
        ns' := false;
      }
    }

    method LineCommentAt(line: array<char>, ghost text: string, pos: nat, out: nat,
                         ghost ss: bool, ghost ns: bool)
      returns (yes: bool)
      requires Intact(line, text, pos) && pos < |text| && out <= pos
      ensures yes == LineCommentHere(text, pos, Now(line, out, ss, ns))
    {
      yes := line[pos] == '#' ||
             (line[pos] == '-' && line[pos + 1] == '-' &&
              (IsSpace(line[pos + 2]) || line[pos + 2] == NUL || (buffer == "" && out == 0)));
    }

    method OpensCommentAt(line: array<char>, ghost text: string, pos: nat) returns (yes: bool)
      requires Intact(line, text, pos) && pos < |text|
      ensures yes == OpensComment(text, pos)
    {
      yes := line[pos] == '/' && line[pos + 1] == '*' &&
             !(line[pos + 2] == '!' || (line[pos + 2] == 'M' && line[pos + 3] == '!'));
    }

    /** Comments and ordinary characters. */
    method StepMark(line: array<char>, ghost text: string, pos: nat, out: nat, ss: bool, ns: bool)
      returns (next: nat, to: nat, ss': bool, ns': bool, stop: bool)
      requires Intact(line, text, pos) && NoNul(text) && pos < |text| && out <= pos && (ns ==> out < pos)
      modifies this, line
      ensures Intact(line, text, next) && to <= next && (ns' ==> to < next)
      ensures Scanner.StepMark(cfg, text, pos, old(Now(line, out, ss, ns)))
           == if stop then Stop(Now(line, to, ss', ns')) else Go(next, Now(line, to, ss', ns'))
    {
      next, to, ss', ns', stop := pos + 1, out, ss, ns, false;
      var atLineComment := LineCommentAt(line, text, pos, out, ss, ns);
      var opens := OpensCommentAt(line, text, pos);
      if !mlComment && quote == NUL && atLineComment {
        LineComment(line, text, pos, out, ss, ns);
        to, stop := 0, true;
      } else if quote == NUL && opens {
        assert text[pos..pos + 2] == "/*";
        next := CommentMark(line, text, pos, out, true, ss, ns);
        to := 0;
      } else if mlComment && !ss && line[pos] == '*' && line[pos + 1] == '/' {
        assert text[pos..pos + 2] == "*/";
        next := CommentMark(line, text, pos, out, false, ss, ns);
        to, ns' := 0, true;
      } else {
        to, ss', ns' := Plain(line, text, pos, out, ss, ns);
      }
    }

    /** The body of the scanning loop. */
    method Step(line: array<char>, ghost text: string, pos: nat, out: nat, ss: bool, ns: bool)
      returns (next: nat, to: nat, ss': bool, ns': bool, stop: bool)
      requires Intact(line, text, pos) && NoNul(text) && pos < |text| && out <= pos && (ns ==> out < pos)
      modifies this, line
      ensures Intact(line, text, next) && to <= next && (ns' ==> to < next)
      ensures Scanner.Step(cfg, text, pos, old(Now(line, out, ss, ns)))
           == if stop then Stop(Now(line, to, ss', ns')) else Go(next, Now(line, to, ss', ns'))
    {
      next, to, ss', ns', stop := pos + 1, out, ss, ns, false;
      var c := line[pos];
      var atDelimiter := HasPrefix(line, text, pos, session.delimiter);
      if !cfg.preserveComments && IsSpace(c) && out == 0 && buffer == "" {
      } else if !mlComment && c == '\\' && quote != '`' && !(quote == '"' && session.ansiQuotes) &&
         !(quote != NUL && session.noBackslashEscapes)
      {
        next, to, stop := Backslash(line, text, pos, out, ss, ns);
      } else if !mlComment && quote == NUL && atDelimiter {
        next, stop := Delimiter(line, text, pos, out, ss, ns);
        to := 0;
      } else {
        next, to, ss', ns', stop := StepMark(line, text, pos, out, ss, ns);
      }
    }

    /** The tail of `add_line`; `out` may stand on the terminator, which the newline then replaces. */
    method EndLine(line: array<char>, out: nat, ss: bool, ns: bool, truncated: bool)
      requires out < line.Length
      modifies this, line
      ensures Carried() == Scanner.EndLine(cfg, truncated, old(Now(line, out, ss, ns))).Carried()
    {
      if out != 0 || buffer != "" {
        var length := out;
        if !truncated && (!IsDelimiterCommand(line[..out]) || quote != NUL || mlComment) {
          line[out] := '\n';
          length := length + 1;
          assert line[..length] == old(line[..out]) + "\n";
        }
        if !mlComment || cfg.preserveComments {
          buffer := buffer + line[..length];
        }
      }
    }

    /** The scanning loop: `out` stays behind `pos`, strictly so while a space is owed. */
    method Scan(line: array<char>, ghost text: string)
      returns (out: nat, ssComment: bool, needSpace: bool)
      requires Intact(line, text, 0) && NoNul(text)
      requires !quit
      modifies this, line
      ensures out < line.Length
      ensures Now(line, out, ssComment, needSpace) == ScanFrom(cfg, text, 0, old(Carried()))
    {
      var pos: nat, stopped := 0, false;
      out, ssComment, needSpace := 0, false, false;
      ghost var start := Carried();
      while pos < line.Length - 1 && !stopped
        invariant Intact(line, text, pos) && out <= pos && (needSpace ==> out < pos)
        invariant ScanFrom(cfg, text, 0, start)
               == if stopped then Now(line, out, ssComment, needSpace)
                  else ScanFrom(cfg, text, pos, Now(line, out, ssComment, needSpace))
        decreases !stopped, line.Length - pos
      {
        ghost var turn := Scanner.Step(cfg, text, pos, Now(line, out, ssComment, needSpace));
        ghost var at := pos;
        pos, out, ssComment, needSpace, stopped := Step(line, text, pos, out, ssComment, needSpace);
        assert turn.Go? ==> at < pos;
      }
    }

    /**
      Scans one line in place.  The line buffer holds `length` characters and a terminator; the result
      is true when the client is to stop.
    */
    method AddLine(line: array<char>, length: nat, truncated: bool) returns (stop: bool)
      requires line.Length == length + 1 && line[length] == NUL && NoNul(line[..length])
      requires !quit
      modifies this, line
      ensures Carried() == Scanner.AddLine(cfg, truncated, old(line[..length]), old(Carried()))
      ensures stop == quit
    {
      if line[0] == NUL && buffer == "" {
        return false;
      }
      var out, ssComment, needSpace := Scan(line, line[..length]);
      stop := quit;
      if !quit {
        EndLine(line, out, ssComment, needSpace, truncated);
      }
    }
  }
}
