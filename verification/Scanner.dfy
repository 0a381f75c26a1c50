/**
  The statement splitter of the `mysql` client (`add_line` of client/mysql.cc) as an append-only
  scanner: accepted characters are appended to `pending`, flushed text to `buffer`, and everything
  the client does for the user is appended to `trace`.
*/
module Scanner {
  import opened Text
  import opened Commands

  /** What the server and earlier commands decided about the text that follows. */
  datatype Modes = Modes(delimiter: string, ansiQuotes: bool, noBackslashEscapes: bool)
  type Session = m: Modes | m.delimiter != "" && NUL !in m.delimiter witness Modes(";", false, false)

  datatype Action =
    | Send(statement: string)
    | Run(command: Command, text: string, buffer: string)
    | Unknown(letter: char)

  /** What came of an action: whether to stop, the statement buffer it left, the modes from then on. */
  datatype Reply = Reply(quit: bool, buffer: string, session: Session)

  /** The rest of the world: any answer to the last action of any history. */
  type Host = seq<Action> -> Reply

  datatype Config = Config(host: Host, commands: Lookup, preserveComments: bool, namedCommands: bool)

  datatype State = State(
    buffer: string,       // glob_buffer
    pending: string,      // accepted characters of this line, not yet in the buffer
    quote: char,          // in_string, NUL outside strings
    mlComment: bool,
    ssComment: bool,      // local to the line
    needSpace: bool,      // local to the line
    session: Session,
    trace: seq<Action>,
    quit: bool)
  {
    function Flush(): State {
      this.(buffer := buffer + pending, pending := "")
    }

    /** Everything accepted for the current statement. */
    function Accepted(): string {
      buffer + pending
    }

    /** The part that outlives the line. */
    function Carried(): State {
      this.(pending := "", ssComment := false, needSpace := false)
    }

    /** Outside strings and block comments. */
    predicate Normal() {
      quote == NUL && !mlComment
    }

    function Perform(cfg: Config, action: Action): State {
      var reply := cfg.host(trace + [action]);
      this.(trace := trace + [action], quit := reply.quit, buffer := reply.buffer, session := reply.session)
    }
  }

  /** One turn of the scanning loop: go on at `pos`, or leave the loop. */
  datatype Turn = Go(pos: nat, st: State) | Stop(st: State)

  predicate EscapeHere(st: State, c: char) {
    && !st.mlComment && c == '\\' && st.quote != '`'
    && !(st.quote == '"' && st.session.ansiQuotes)
    && !(st.quote != NUL && st.session.noBackslashEscapes)
  }

  /** End of the parameters of a short command that started at `pos`. */
  function AfterParameters(line: string, pos: nat, ssComment: bool, delimiter: string): (q: nat)
    requires pos + 2 <= |line|
    requires delimiter != ""
    ensures pos + 2 <= q <= |line|
  {
    if ssComment then pos + 2 + IndexOf(line[pos + 2..], "*/")
    else
      var q := pos + 2 + IndexOf(line[pos + 2..], delimiter);
      if q == |line| then q else q + |delimiter|
  }

  function Backslash(cfg: Config, line: string, pos: nat, st: State): (t: Turn)
    requires pos < |line|
    ensures t.Go? ==> pos < t.pos <= |line|
  {
    if pos + 1 == |line| then Stop(st)
    else
      var c := line[pos + 1];
      if st.quote != NUL || c == 'N' then Go(pos + 2, st.(pending := st.pending + ['\\', c]))
      else
        match cfg.commands.short(c)
        case Some(com) =>
          var flushed := st.Flush();
          var after := flushed.Perform(cfg, Run(com, line[pos..], flushed.buffer));
          if after.quit then Stop(after)
          else if !com.takesParams then Go(pos + 2, after)
          else Go(AfterParameters(line, pos, st.ssComment, after.session.delimiter), after)
        case None =>
          var after := st.Perform(cfg, Unknown(c)).(buffer := st.buffer, session := st.session);
          if after.quit then Stop(after) else Go(pos + 2, after.(pending := st.pending + ['\\', c]))
  }

  /** A single-line comment that mysql keeps with the statement it follows. */
  predicate TrailingComment(line: string, pos: nat) {
    At(line, pos) == '#' ||
    (At(line, pos) == '-' && At(line, pos + 1) == '-' && IsSpace(At(line, pos + 2)))
  }

  /** Hands the finished statement in the buffer to a long command or to the server. */
  function Finish(cfg: Config, st: State): State {
    var action :=
      match cfg.commands.long(st.session.delimiter, st.buffer)
      case Some(com) => Run(com, st.buffer, st.buffer)
      case None => Send(st.buffer);
    var after := st.Perform(cfg, action);
    if after.quit then after else after.(buffer := "")
  }

  /** The finished statement after the delimiter that ends at `p`, and where scanning goes on. */
  function Gather(cfg: Config, line: string, p: nat, st: State): (r: (State, nat))
    requires p <= |line|
    ensures p <= r.1 <= |line|
  {
    var q := if cfg.preserveComments then p + LeadingSpaces(line[p..]) else p;
    var next := if cfg.preserveComments && TrailingComment(line, q) then |line| else q;
    (st.(buffer := st.buffer + (st.pending + line[p..q]) + line[q..next], pending := ""), next)
  }

  function Delimiter(cfg: Config, line: string, pos: nat, st: State): (t: Turn)
    requires pos < |line| && PrefixAt(line, pos, st.session.delimiter)
    ensures t.Go? ==> pos < t.pos <= |line|
  {
    var (whole, next) := Gather(cfg, line, pos + |st.session.delimiter|, st);
    var after := Finish(cfg, whole);
    if after.quit then Stop(after) else Go(next, after)
  }

  predicate LineCommentHere(line: string, pos: nat, st: State)
    requires pos < |line|
  {
    line[pos] == '#' ||
    (line[pos] == '-' && At(line, pos + 1) == '-' &&
     (IsSpace(At(line, pos + 2)) || At(line, pos + 2) == NUL || (st.buffer == "" && st.pending == "")))
  }

  function LineComment(cfg: Config, line: string, pos: nat, st: State): Turn
    requires pos < |line|
  {
    var flushed := st.Flush();
    if !cfg.preserveComments then Stop(flushed)
    else
      var whole := flushed.(buffer := flushed.buffer + line[pos..]);
      if flushed.buffer != "" then Stop(whole)
      else
        var after := whole.Perform(cfg, Send(whole.buffer));
        Stop(if after.quit then after else after.(buffer := ""))
  }

  predicate OpensComment(line: string, pos: nat)
    requires pos < |line|
  {
    line[pos] == '/' && At(line, pos + 1) == '*' &&
    !(At(line, pos + 2) == '!' || (At(line, pos + 2) == 'M' && At(line, pos + 3) == '!'))
  }

  predicate EndsComment(line: string, pos: nat)
    requires pos < |line|
  {
    line[pos] == '*' && At(line, pos + 1) == '/'
  }

  function CommentMark(cfg: Config, mark: string, opens: bool, st: State): State {
    var kept := if cfg.preserveComments then st.pending + mark else st.pending;
    st.(pending := kept, mlComment := opens, needSpace := st.needSpace || !opens).Flush()
  }

  /** An ordinary character: string and server-side comment bookkeeping, then append. */
  function Plain(cfg: Config, line: string, pos: nat, st: State): State
    requires pos < |line|
  {
    var c := line[pos];
    var ss :=
      if st.quote == NUL && c == '/' && At(line, pos + 1) == '*' && At(line, pos + 2) == '!' then true
      else if st.quote == NUL && st.ssComment && c == '*' && At(line, pos + 1) == '/' then false
      else st.ssComment;
    var quote :=
      if c == st.quote then NUL
      else if st.Normal() && IsQuote(c) then c
      else st.quote;
    var marked := st.(ssComment := ss, quote := quote);
    if st.mlComment && !cfg.preserveComments then marked
    else marked.(pending := st.pending + (if st.needSpace && !IsSpace(c) then [' ', c] else [c]), needSpace := false)
  }

  predicate SkippedSpace(cfg: Config, c: char, st: State) {
    !cfg.preserveComments && IsSpace(c) && st.pending == "" && st.buffer == ""
  }

  /** Comments and ordinary characters: what is neither an escape nor a delimiter. */
  function StepMark(cfg: Config, line: string, pos: nat, st: State): (t: Turn)
    requires pos < |line|
    ensures t.Go? ==> pos < t.pos <= |line|
  {
    if st.Normal() && LineCommentHere(line, pos, st) then LineComment(cfg, line, pos, st)
    else if st.quote == NUL && OpensComment(line, pos) then Go(pos + 2, CommentMark(cfg, "/*", true, st))
    else if st.mlComment && !st.ssComment && EndsComment(line, pos) then
      Go(pos + 2, CommentMark(cfg, "*/", false, st))
    else Go(pos + 1, Plain(cfg, line, pos, st))
  }

  /** The body of the scanning loop for the character at `pos`. */
  function Step(cfg: Config, line: string, pos: nat, st: State): (t: Turn)
    requires pos < |line|
    ensures t.Go? ==> pos < t.pos <= |line|
  {
    var c := line[pos];
    if SkippedSpace(cfg, c, st) then Go(pos + 1, st)
    else if EscapeHere(st, c) then Backslash(cfg, line, pos, st)
    else if st.Normal() && PrefixAt(line, pos, st.session.delimiter) then Delimiter(cfg, line, pos, st)
    else StepMark(cfg, line, pos, st)
  }

  /** The scanning loop from `pos` to the end of the line. */
  function ScanFrom(cfg: Config, line: string, pos: nat, st: State): State
    requires pos <= |line|
    decreases |line| - pos
  {
    if pos == |line| then st
    else
      match Step(cfg, line, pos, st)
      case Go(next, after) => ScanFrom(cfg, line, next, after)
      case Stop(after) => after
  }

  /** The tail of `add_line`: moves the rest of the line, with its newline, to the buffer. */
  function EndLine(cfg: Config, truncated: bool, st: State): State {
    if st.pending == "" && st.buffer == "" then st
    else
      var newline := !truncated && (!IsDelimiterCommand(st.pending) || !st.Normal());
      var text := if newline then st.pending + "\n" else st.pending;
      if st.mlComment && !cfg.preserveComments then st.(pending := "")
      else st.(buffer := st.buffer + text, pending := "")
  }

  /** `add_line`: what one input line does to the carried state. */
  function AddLine(cfg: Config, truncated: bool, line: string, st: State): State {
    if line == "" && st.buffer == "" then st.Carried()
    else
      var scanned := ScanFrom(cfg, line, 0, st.Carried());
      (if scanned.quit then scanned else EndLine(cfg, truncated, scanned)).Carried()
  }
}
