/**
  The DELIMITER command (`com_delimiter` of client/mysql.cc) and the whole block that mysqldump prints around an event
  body, with its two DELIMITER lines.
*/
module DelimiterCommand {
  import opened Text
  import opened Commands
  import opened Scanner
  import opened Reader
  import opened DelimiterBlock

  const BUFF: nat := 255   // the characters of the line that fit the local buffer
  const WIDTH: nat := 15   // the characters of a delimiter that fit the global one

  function Cut(s: string, n: nat): string {
    if |s| <= n then s else s[..n]
  }

  /** `com_delimiter`: the delimiter after the command; a missing argument or a backslash in it changes nothing. */
  function NewDelimiter(current: string, line: string): (r: string)
    requires CommandArgument.WellFormed(Cut(line, BUFF))
    ensures current != "" ==> r != ""
    ensures r == current || (|r| <= WIDTH && '\\' !in r)
  {
    match CommandArgument.Argument(Cut(line, BUFF))
    case None => current
    case Some(arg) => if '\\' in arg then current else Cut(arg, WIDTH)
  }

  // --- A line that sets the delimiter ---

  /** A character that has no meaning of its own on a command line. */
  predicate Simple(c: char) {
    !IsSpace(c) && !IsQuote(c) && c != '\\' && c != NUL
  }

  ghost predicate AllSimple(s: string) {
    s != "" && forall i :: 0 <= i < |s| ==> Simple(s[i])
  }

  lemma {:induction false} WordOf(word: string, rest: string)
    requires forall i :: 0 <= i < |word| ==> Simple(word[i])
    requires rest != "" && rest[0] == ' '
    ensures CommandArgument.WordLength(word + rest) == |word| && FirstWord(word + rest) == |word|
  {
    if word == "" {
      assert word + rest == rest;
    } else {
      assert (word + rest)[1..] == word[1..] + rest;
      WordOf(word[1..], rest);
    }
  }

  lemma {:induction false} CollectSimple(s: string)
    requires forall i :: 0 <= i < |s| ==> Simple(s[i])
    ensures CommandArgument.Collect(s, NUL, false) == (s, true)
  {
    if s != "" {
      CollectSimple(s[1..]);
      assert [s[0]] + s[1..] == s;
      assert Simple(s[0]);
    }
  }

  /** A command word and its argument with one blank between. */
  function CommandLine(word: string, arg: string): string {
    word + ([' '] + arg)
  }

  lemma {:induction false} ArgumentOf(word: string, arg: string)
    requires AllSimple(word) && AllSimple(arg)
    ensures LeadingSpaces(CommandLine(word, arg)) == 0
    ensures CommandArgument.WellFormed(CommandLine(word, arg))
    ensures CommandArgument.Argument(CommandLine(word, arg)) == Some(arg)
  {
    var line := CommandLine(word, arg);
    assert Simple(line[0]) && Simple(arg[0]);
    WordOf(word, [' '] + arg);
    assert line[0..] == line;
    assert line[|word|..] == [' '] + arg && ([' '] + arg)[1..] == arg;
    assert LeadingSpaces([' '] + arg) == 1;
    assert line[|word| + 1..] == arg;
    CollectSimple(arg);
  }

  lemma {:induction false} NoBackslash(line: string)
    requires forall i :: 0 <= i < |line| ==> line[i] != '\\'
    ensures !Contains(line, "\\g")
  {
    forall i | 0 <= i <= |line| ensures !PrefixAt(line, i, "\\g") {
      assert i < |line| ==> line[i..][0] == line[i];
    }
  }

  lemma {:induction false} ThirdEntry(name: string)
    requires HasArgument(name)
    ensures FirstNamed(0, DELIMITER.name, name, true) == Some(DELIMITER)
  {
    assert FirstNamed(3, DELIMITER.name, name, true) == Some(DELIMITER);
    assert FirstNamed(2, DELIMITER.name, name, true) == Some(DELIMITER);
    assert FirstNamed(1, DELIMITER.name, name, true) == Some(DELIMITER);
  }

  lemma {:induction false} DelimiterIsFound(binary: bool, delimiter: string, word: string, arg: string)
    requires AllSimple(word) && AllSimple(arg) && Lower(word) == DELIMITER.name
    ensures FindLong(binary, delimiter, CommandLine(word, arg)) == Some(DELIMITER)
  {
    var line := CommandLine(word, arg);
    ArgumentOf(word, arg);
    WordOf(word, [' '] + arg);
    assert line[0..] == line && line[..|word|] == word && word[..|word|] == word;
    assert line[|word|..] == [' '] + arg && ([' '] + arg)[1..] == arg;
    assert Simple(arg[0]);
    assert forall i :: 0 <= i < |line| ==> line[i] != '\\' by {
      assert forall i :: 0 <= i < |line| ==>
        line[i] == if i < |word| then word[i] else if i == |word| then ' ' else arg[i - |word| - 1];
    }
    NoBackslash(line);
    ThirdEntry(line);
  }

  // --- What the client knows of its session ---

  /** The modes after some actions: the last reply decides, but for an unknown command, whose reply only prints. */
  function SessionAfter(cfg: Config, initial: Session, trace: seq<Action>): Session {
    if trace == [] then initial
    else if trace[|trace| - 1].Unknown? then SessionAfter(cfg, initial, trace[..|trace| - 1])
    else cfg.host(trace).session
  }

  ghost predicate Honest(cfg: Config, initial: Session, st: State) {
    st.session == SessionAfter(cfg, initial, st.trace)
  }

  lemma {:induction false} PerformHonest(cfg: Config, initial: Session, st: State, action: Action)
    requires Honest(cfg, initial, st)
    ensures !action.Unknown? ==> Honest(cfg, initial, st.Perform(cfg, action))
    ensures action.Unknown? ==> Honest(cfg, initial, st.Perform(cfg, action).(session := st.session))
  {
    assert (st.trace + [action])[..|st.trace|] == st.trace;
  }

  lemma {:induction false} BackslashHonest(cfg: Config, initial: Session, line: string, pos: nat, st: State)
    requires Honest(cfg, initial, st) && pos < |line|
    ensures Honest(cfg, initial, Backslash(cfg, line, pos, st).st)
  {
    if pos + 1 < |line| && st.quote == NUL && line[pos + 1] != 'N' {
      var c := line[pos + 1];
      match cfg.commands.short(c) {
        case Some(com) => PerformHonest(cfg, initial, st.Flush(), Run(com, line[pos..], st.Flush().buffer));
        case None => PerformHonest(cfg, initial, st, Unknown(c));
      }
    }
  }

  lemma {:induction false} FinishHonest(cfg: Config, initial: Session, st: State)
    requires Honest(cfg, initial, st)
    ensures Honest(cfg, initial, Finish(cfg, st))
  {
    match cfg.commands.long(st.session.delimiter, st.buffer) {
      case Some(com) => PerformHonest(cfg, initial, st, Run(com, st.buffer, st.buffer));
      case None => PerformHonest(cfg, initial, st, Send(st.buffer));
    }
  }

  lemma {:induction false} LineCommentHonest(cfg: Config, initial: Session, line: string, pos: nat, st: State)
    requires Honest(cfg, initial, st) && pos < |line|
    ensures Honest(cfg, initial, LineComment(cfg, line, pos, st).st)
  {
    var whole := st.Flush().(buffer := st.Flush().buffer + line[pos..]);
    PerformHonest(cfg, initial, whole, Send(whole.buffer));
  }

  lemma {:induction false} DelimiterHonest(cfg: Config, initial: Session, line: string, pos: nat, st: State)
    requires Honest(cfg, initial, st) && pos < |line| && PrefixAt(line, pos, st.session.delimiter)
    ensures Honest(cfg, initial, Scanner.Delimiter(cfg, line, pos, st).st)
  {
    FinishHonest(cfg, initial, Gather(cfg, line, pos + |st.session.delimiter|, st).0);
  }

  lemma {:induction false} MarkHonest(cfg: Config, initial: Session, line: string, pos: nat, st: State)
    requires Honest(cfg, initial, st) && pos < |line|
    ensures Honest(cfg, initial, StepMark(cfg, line, pos, st).st)
  {
    if st.Normal() && LineCommentHere(line, pos, st) {
      LineCommentHonest(cfg, initial, line, pos, st);
    }
  }

  lemma {:induction false} StepHonest(cfg: Config, initial: Session, line: string, pos: nat, st: State)
    requires Honest(cfg, initial, st) && pos < |line|
    ensures Honest(cfg, initial, Step(cfg, line, pos, st).st)
  {
    if EscapeHere(st, line[pos]) {
      BackslashHonest(cfg, initial, line, pos, st);
    } else if st.Normal() && PrefixAt(line, pos, st.session.delimiter) {
      DelimiterHonest(cfg, initial, line, pos, st);
    } else {
      MarkHonest(cfg, initial, line, pos, st);
    }
  }

  lemma {:induction false} ScanHonest(cfg: Config, initial: Session, line: string, pos: nat, st: State)
    requires Honest(cfg, initial, st) && pos <= |line|
    ensures Honest(cfg, initial, ScanFrom(cfg, line, pos, st))
    decreases |line| - pos
  {
    if pos < |line| {
      StepHonest(cfg, initial, line, pos, st);
      var turn := Step(cfg, line, pos, st);
      if turn.Go? { ScanHonest(cfg, initial, line, turn.pos, turn.st); }
    }
  }

  /** Whatever the client reads, its modes are those of the last reply. */
  lemma {:induction false} LinesHonest(cfg: Config, initial: Session, st: State, lines: seq<string>)
    requires Honest(cfg, initial, st)
    ensures Honest(cfg, initial, TakeLines(cfg, st, lines))
    decreases |lines|
  {
    if !st.quit && lines != [] {
      LineHonest(cfg, initial, st, lines[0]);
      LinesHonest(cfg, initial, TakeLine(cfg, st, lines[0]), lines[1..]);
    }
  }

  lemma {:induction false} LineHonest(cfg: Config, initial: Session, st: State, line: string)
    requires Honest(cfg, initial, st)
    ensures Honest(cfg, initial, TakeLine(cfg, st, line))
  {
    var command :=
      if (cfg.namedCommands || st.buffer == "") && st.Normal() then cfg.commands.long(st.session.delimiter, line)
      else None;
    if command.Some? {
      PerformHonest(cfg, initial, st, Run(command.value, line, st.buffer));
    } else {
      ScanHonest(cfg, initial, line, 0, st.Carried());
    }
  }

  // --- The host runs `com_delimiter` ---

  /** The reply to a DELIMITER command: the statement buffer and the other modes stay, and the client goes on. */
  ghost predicate Replies(cfg: Config, initial: Session, trace: seq<Action>, text: string, buffer: string)
    requires CommandArgument.WellFormed(Cut(text, BUFF))
  {
    var before := SessionAfter(cfg, initial, trace);
    var reply := cfg.host(trace + [Run(DELIMITER, text, buffer)]);
    && !reply.quit && reply.buffer == buffer
    && reply.session.delimiter == NewDelimiter(before.delimiter, text)
    && reply.session.ansiQuotes == before.ansiQuotes && reply.session.noBackslashEscapes == before.noBackslashEscapes
  }

  ghost predicate RunsDelimiter(cfg: Config, initial: Session) {
    forall trace, text, buffer :: CommandArgument.WellFormed(Cut(text, BUFF)) && NoNul(text) ==>
                                    Replies(cfg, initial, trace, text, buffer)
  }

  /**
    Between statements, whatever the delimiter then is, the line DELIMITER d runs the delimiter command and nothing
    else, and from then on the delimiter is d.
  */
  lemma {:induction false} DelimiterLineIsRun(cfg: Config, binary: bool, initial: Session, st: State, word: string, d: string)
    requires StandardClient(cfg, binary) && RunsDelimiter(cfg, initial) && Honest(cfg, initial, st) && Idle(st)
    requires AllSimple(word) && AllSimple(d) && Lower(word) == DELIMITER.name && |d| <= WIDTH
    ensures var line := CommandLine(word, d);
            var after := TakeLine(cfg, st, line);
            && Idle(after) && Honest(cfg, initial, after)
            && after.trace == st.trace + [Run(DELIMITER, line, "")]
            && after.session == st.session.(delimiter := d)
  {
    var line := CommandLine(word, d);
    DelimiterIsFound(binary, st.session.delimiter, word, d);
    ArgumentOf(word, d);
    assert |word| == |DELIMITER.name| && Cut(line, BUFF) == line;
    SimpleLine(word, d);
    assert Replies(cfg, initial, st.trace, line, "");
    PerformHonest(cfg, initial, st, Run(DELIMITER, line, ""));
  }

  lemma {:induction false} SimpleLine(word: string, arg: string)
    requires AllSimple(word) && AllSimple(arg)
    ensures NoNul(CommandLine(word, arg)) && '\\' !in arg
    ensures '\n' !in CommandLine(word, arg) && '\r' !in CommandLine(word, arg)
  {
    var line := CommandLine(word, arg);
    forall i | 0 <= i < |line| ensures line[i] != NUL && line[i] != '\n' && line[i] != '\r' {
      assert line[i] == if i < |word| then word[i] else if i == |word| then ' ' else arg[i - |word| - 1];
      assert i < |word| ==> Simple(word[i]);
      assert i > |word| ==> Simple(arg[i - |word| - 1]);
    }
    assert forall i :: 0 <= i < |arg| ==> Simple(arg[i]);
  }

  /** A line without line ends, and what follows it. */
  lemma {:induction false} OneLine(binary: bool, line: string, after: string)
    requires '\n' !in line && '\r' !in line
    ensures ReadLines(binary, line + ("\n" + after)) == [line] + ReadLines(binary, after)
  {
    FirstOfLine(binary, line, after);
  }

  lemma {:induction false} FirstOfLine(binary: bool, line: string, after: string)
    requires '\n' !in line && '\r' !in line
    ensures FirstLine(binary, line + ("\n" + after)) == line && AfterLine(line + ("\n" + after)) == after
  {
    var text := "\n" + after;
    if line == "" {
      assert line + text == text && text[1..] == after;
    } else {
      FirstOfLine(binary, line[1..], after);
      assert line + text == [line[0]] + (line[1..] + text);
      LineCons(binary, line[0], line[1..] + text);
      assert [line[0]] + line[1..] == line;
    }
  }

  // --- The whole block ---

  const WORD := "DELIMITER"

  lemma {:induction false} WordIsDelimiter()
    ensures AllSimple(WORD) && Lower(WORD) == DELIMITER.name && AllSimple(";;") && AllSimple(";")
  {
  }

  function SetPair(): string {
    CommandLine(WORD, ";;")
  }

  function SetBack(): string {
    CommandLine(WORD, ";")
  }

  /** Version comments, each ended by the delimiter, and what follows. */
  function Comments(codes: seq<string>, after: string): string {
    if codes == [] then after else codes[0] + (TAIL + "\n" + Comments(codes[1..], after))
  }

  /** `cover_definer_clause`: the part between the cuts is put in a version comment of its own. */
  function Covered(body: string, cut: Option<(nat, nat)>): string
    requires cut.Some? ==> cut.value.0 <= cut.value.1 <= |body|
  {
    if cut.None? then body
    else
      var (i, j) := cut.value;
      body[..i] + ("*/ /*!50117" + (body[i..j] + ("*/ /*!50106" + body[j..])))
  }

  /**
    What mysqldump prints for an event body when `create_delimiter` returns two semicolons: the SET statements before
    and behind it are version comments too.
  */
  function Block(before: seq<string>, body: string, behind: seq<string>, after: string): string {
    SetPair() + ("\n" + Comments(before + [HEAD + body] + behind, SetBack() + ("\n" + after)))
  }

  lemma {:induction false} NoPairJoin(s: string, mark: string, t: string)
    requires NoPair(s) && NoPair(t) && NoPair(mark) && mark != "" && mark[0] != ';' && mark[|mark| - 1] != ';'
    ensures NoPair(s + (mark + t))
  {
  }

  /** Covering the definer clause puts no delimiter into the body. */
  lemma {:induction false} CoveredHasNoPair(body: string, cut: Option<(nat, nat)>)
    requires cut.Some? ==> cut.value.0 <= cut.value.1 <= |body|
    requires !Contains(body, ";;")
    ensures !Contains(Covered(body, cut), ";;")
  {
    if cut.Some? {
      var (i, j) := cut.value;
      NoPairIff(body);
      NoPairJoin(body[i..j], "*/ /*!50106", body[j..]);
      NoPairJoin(body[..i], "*/ /*!50117", body[i..j] + ("*/ /*!50106" + body[j..]));
      NoPairIff(Covered(body, cut));
    }
  }

  /** The delimiter is chosen for the body as it is and printed around the covered one, which does not hold it either. */
  method PrintBlock(before: seq<string>, body: string, cut: Option<(nat, nat)>, behind: seq<string>, maxSize: int,
                    turns: nat)
    returns (text: Option<string>)
    requires cut.Some? ==> cut.value.0 <= cut.value.1 <= |body|
    ensures text.Some? ==>
              text.value == Block(before, Covered(body, cut), behind, "") && !Contains(Covered(body, cut), ";;")
    ensures maxSize > 2 && turns > 0 ==> (text.Some? <==> !Contains(body, ";;"))
  {
    var d := CreateDelimiter(body, maxSize, turns);
    match d {
      case Delimiter(_) =>
        CoveredHasNoPair(body, cut);
        text := Some(Block(before, Covered(body, cut), behind, ""));
      case _ => text := None;
    }
  }

  /** The delimiter belongs to the client: the reply to a statement may change the other modes only. */
  ghost predicate KeepsDelimiter(cfg: Config, initial: Session) {
    forall trace, text ::
      cfg.host(trace + [Send(text)]).session.delimiter == SessionAfter(cfg, initial, trace).delimiter
  }

  ghost predicate Commented(code: string) {
    StartsVersionComment(code) && NoNul(code) && NoPair(code)
  }

  /** The client after the comments, each read in the modes that the replies so far left; None when one has no text. */
  function Follow(cfg: Config, binary: bool, st: State, codes: seq<string>): Option<State>
    decreases |codes|
  {
    if codes == [] || st.quit then Some(st)
    else
      match CommentText(cfg, binary, st.session, codes[0])
      case None => None
      case Some(text) => Follow(cfg, binary, Sent(cfg, st, text + " */ "), codes[1..])
  }

  /** One statement for each comment, up to the one at which the host stops the client. */
  function Statements(cfg: Config, binary: bool, st: State, codes: seq<string>): seq<Action>
    decreases |codes|
  {
    if codes == [] || st.quit then []
    else
      match CommentText(cfg, binary, st.session, codes[0])
      case None => []
      case Some(text) => [Send(text + " */ ")] + Statements(cfg, binary, Sent(cfg, st, text + " */ "), codes[1..])
  }

  /** What the reply to a statement leaves. */
  lemma {:induction false} SentKeeps(cfg: Config, initial: Session, st: State, statement: string)
    requires Honest(cfg, initial, st) && KeepsDelimiter(cfg, initial)
    ensures var sent := Sent(cfg, st, statement);
            && Honest(cfg, initial, sent) && sent.trace == st.trace + [Send(statement)]
            && sent.session.delimiter == st.session.delimiter && (!sent.quit ==> Idle(sent))
  {
    SentHonest(cfg, initial, st, statement);
    SentIsCarried(cfg, st, statement);
  }

  lemma {:induction false} FollowFirst(cfg: Config, binary: bool, st: State, codes: seq<string>)
    returns (statement: string)
    requires codes != [] && !st.quit && Follow(cfg, binary, st, codes).Some?
    ensures Follow(cfg, binary, st, codes) == Follow(cfg, binary, Sent(cfg, st, statement), codes[1..])
    ensures Statements(cfg, binary, st, codes)
         == [Send(statement)] + Statements(cfg, binary, Sent(cfg, st, statement), codes[1..])
  {
    statement := CommentText(cfg, binary, st.session, codes[0]).value + " */ ";
  }

  lemma {:induction false} Regroup(trace: seq<Action>, action: Action, more: seq<Action>)
    ensures trace + [action] + more == trace + ([action] + more)
  {
  }

  /** What is sent for comments in a row, and how the client is left. */
  lemma {:induction false} FollowTrace(cfg: Config, binary: bool, initial: Session, st: State, codes: seq<string>)
    requires KeepsDelimiter(cfg, initial) && Honest(cfg, initial, st) && (st.quit || Idle(st))
    requires Follow(cfg, binary, st, codes).Some?
    ensures var end := Follow(cfg, binary, st, codes).value;
            && end.trace == st.trace + Statements(cfg, binary, st, codes)
            && (!end.quit ==> Idle(end) && Honest(cfg, initial, end) && end.session.delimiter == st.session.delimiter &&
                              |Statements(cfg, binary, st, codes)| == |codes|)
    decreases |codes|
  {
    if codes != [] && !st.quit {
      var statement := FollowFirst(cfg, binary, st, codes);
      var sent := Sent(cfg, st, statement);
      SentKeeps(cfg, initial, st, statement);
      FollowTrace(cfg, binary, initial, sent, codes[1..]);
      Regroup(st.trace, Send(statement), Statements(cfg, binary, sent, codes[1..]));
    }
  }

  /** Version comments in a row are one statement each, whatever the replies do to the modes. */
  lemma {:induction false} CommentsAreRead(cfg: Config, binary: bool, initial: Session, st: State, codes: seq<string>,
                                           after: string)
    requires StandardClient(cfg, binary) && KeepsDelimiter(cfg, initial) && Honest(cfg, initial, st)
    requires (st.quit || Idle(st)) && st.session.delimiter == ";;"
    requires forall i :: 0 <= i < |codes| ==> Commented(codes[i])
    requires Follow(cfg, binary, st, codes).Some?
    ensures TakeLines(cfg, st, ReadLines(binary, Comments(codes, after)))
         == TakeLines(cfg, Follow(cfg, binary, st, codes).value, ReadLines(binary, after))
    decreases |codes|
  {
    if codes != [] && !st.quit {
      var statement := CommentText(cfg, binary, st.session, codes[0]).value + " */ ";
      var rest := Comments(codes[1..], after);
      SentKeeps(cfg, initial, st, statement);
      CommentIsOneStatement(cfg, binary, st, codes[0], TAIL + "\n" + rest, rest);
      assert forall i :: 0 <= i < |codes[1..]| ==> codes[1..][i] == codes[i + 1];
      CommentsAreRead(cfg, binary, initial, Sent(cfg, st, statement), codes[1..], after);
    }
  }

  /** The state in which the comments are read. */
  function Paired(cfg: Config, st: State): State {
    TakeLine(cfg, st, SetPair())
  }

  /**
    The block from any delimiter: the client runs DELIMITER, sends exactly one statement for each comment, with the text
    it keeps of it, runs DELIMITER again, and goes on between statements with the semicolon, unless the host stops it
    at a statement.
  */
  lemma {:induction false} BlockIsRead(cfg: Config, binary: bool, initial: Session, st: State, before: seq<string>,
                                       body: string, behind: seq<string>, after: string)
    returns (sent: State, back: State)
    requires StandardClient(cfg, binary) && RunsDelimiter(cfg, initial) && KeepsDelimiter(cfg, initial)
    requires Honest(cfg, initial, st) && Idle(st)
    requires NoNul(body) && !Contains(body, ";;")
    requires forall i :: 0 <= i < |before + behind| ==> Commented((before + behind)[i])
    requires Follow(cfg, binary, Paired(cfg, st), before + [HEAD + body] + behind).Some?
    ensures var codes := before + [HEAD + body] + behind;
            && sent == Follow(cfg, binary, Paired(cfg, st), codes).value
            && sent.trace == st.trace + [Run(DELIMITER, SetPair(), "")] + Statements(cfg, binary, Paired(cfg, st), codes)
            && Paired(cfg, st).session == st.session.(delimiter := ";;")
            && (!sent.quit ==> |Statements(cfg, binary, Paired(cfg, st), codes)| == |codes|)
            && TakeLines(cfg, st, ReadLines(binary, Block(before, body, behind, after)))
               == if sent.quit then sent else TakeLines(cfg, back, ReadLines(binary, after))
    ensures !sent.quit ==> Idle(back) && Honest(cfg, initial, back) && back.session.delimiter == ";" &&
                           back.trace == sent.trace + [Run(DELIMITER, SetBack(), "")]
  {
    var codes, rest := before + [HEAD + body] + behind, SetBack() + ("\n" + after);
    var base := Paired(cfg, st);
    BlockStarts(cfg, binary, initial, st, Comments(codes, rest));
    AllCommented(before, body, behind);
    CommentsAreRead(cfg, binary, initial, base, codes, rest);
    FollowTrace(cfg, binary, initial, base, codes);
    sent := Follow(cfg, binary, base, codes).value;
    back := sent;
    if !sent.quit { back := BlockEnds(cfg, binary, initial, sent, after); }
  }

  lemma {:induction false} AllCommented(before: seq<string>, body: string, behind: seq<string>)
    requires NoNul(body) && !Contains(body, ";;")
    requires forall i :: 0 <= i < |before + behind| ==> Commented((before + behind)[i])
    ensures var codes := before + [HEAD + body] + behind; forall i :: 0 <= i < |codes| ==> Commented(codes[i])
  {
    HeadedBody(body);
    var codes := before + [HEAD + body] + behind;
    forall i | 0 <= i < |codes| ensures Commented(codes[i]) {
      if i < |before| { assert codes[i] == (before + behind)[i]; }
      if i > |before| { assert codes[i] == (before + behind)[i - 1]; }
    }
  }

  /** The first line of the block. */
  lemma {:induction false} BlockStarts(cfg: Config, binary: bool, initial: Session, st: State, rest: string)
    requires StandardClient(cfg, binary) && RunsDelimiter(cfg, initial) && Honest(cfg, initial, st) && Idle(st)
    ensures var base := Paired(cfg, st);
            && Idle(base) && Honest(cfg, initial, base) && base.session == st.session.(delimiter := ";;")
            && base.trace == st.trace + [Run(DELIMITER, SetPair(), "")]
            && TakeLines(cfg, st, ReadLines(binary, SetPair() + ("\n" + rest)))
               == TakeLines(cfg, base, ReadLines(binary, rest))
  {
    WordIsDelimiter();
    SimpleLine(WORD, ";;");
    DelimiterLineIsRun(cfg, binary, initial, st, WORD, ";;");
    OneLine(binary, SetPair(), rest);
    assert ([SetPair()] + ReadLines(binary, rest))[1..] == ReadLines(binary, rest);
  }

  /** The last line of the block. */
  lemma {:induction false} BlockEnds(cfg: Config, binary: bool, initial: Session, st: State, after: string)
    returns (back: State)
    requires StandardClient(cfg, binary) && RunsDelimiter(cfg, initial) && Honest(cfg, initial, st) && Idle(st)
    ensures Idle(back) && Honest(cfg, initial, back) && back.session.delimiter == ";"
    ensures back.trace == st.trace + [Run(DELIMITER, SetBack(), "")]
    ensures TakeLines(cfg, st, ReadLines(binary, SetBack() + ("\n" + after)))
         == TakeLines(cfg, back, ReadLines(binary, after))
  {
    WordIsDelimiter();
    SimpleLine(WORD, ";");
    DelimiterLineIsRun(cfg, binary, initial, st, WORD, ";");
    OneLine(binary, SetBack(), after);
    back := TakeLine(cfg, st, SetBack());
    assert ([SetBack()] + ReadLines(binary, after))[1..] == ReadLines(binary, after);
  }

  lemma {:induction false} SentHonest(cfg: Config, initial: Session, base: State, statement: string)
    requires Honest(cfg, initial, base)
    ensures Honest(cfg, initial, Sent(cfg, base, statement))
  {
    PerformHonest(cfg, initial, State(statement, "", NUL, false, false, false, base.session, base.trace, false), Send(statement));
  }

  // --- The SET statements ---

  const SET := "/*!50003 SET "

  /** A SET statement in a version comment: a variable and its new value, which may be a quoted text. */
  function SetComment(name: string, value: Option<string>): string {
    SET + name + if value.Some? then "'" + value.value + "'" else ""
  }

  /** A character that opens no string, comment or command and is no part of a delimiter. */
  predicate Tame(c: char) {
    !IsQuote(c) && c !in "\\#-/*;\n" && c != NUL
  }

  predicate InQuotes(c: char) {
    c !in "'\\;\n" && c != NUL
  }

  /** The rest of a quoted text that ends with the line. */
  lemma {:induction false} LexQuoted(keep: bool, modes: Session, line: string, pos: nat, x: Lexer)
    requires pos < |line| && x.quote == '\'' && !x.mlComment && !x.owed && line[|line| - 1] == '\''
    requires forall i :: pos <= i < |line| - 1 ==> InQuotes(line[i])
    ensures var (end, y) := Lex(keep, modes, line, pos, x);
            end.AtEnd? && y.Normal() && y.done == x.done && y.open == x.open + line[pos..]
    decreases |line| - pos
  {
    assert pos < |line| - 1 ==> InQuotes(line[pos]);
    var y := LexPlain(keep, line, pos, x);
    assert LexStep(keep, modes, line, pos, x) == LexGo(pos + 1, y);
    assert line[pos..] == [line[pos]] + line[pos + 1..];
    if pos + 1 < |line| { LexQuoted(keep, modes, line, pos + 1, y); }
  }

  /** Tame characters up to the end of the line or to a quoted text that ends it. */
  lemma {:induction false} LexTame(keep: bool, modes: Session, line: string, pos: nat, n: nat, x: Lexer)
    requires pos <= n <= |line| && x.Normal() && !x.owed
    requires forall i :: pos <= i < n ==> Tame(line[i])
    requires n < |line| ==> n + 1 < |line| && line[n] == '\'' && line[|line| - 1] == '\'' &&
                            forall i :: n < i < |line| - 1 ==> InQuotes(line[i])
    ensures var (end, y) := Lex(keep, modes, line, pos, x);
            end.AtEnd? && y.Normal() && y.done == x.done && y.open == x.open + line[pos..]
    decreases |line| - pos
  {
    if pos < |line| {
      assert pos < n ==> Tame(line[pos]);
      var y := LexPlain(keep, line, pos, x);
      assert LexStep(keep, modes, line, pos, x) == LexGo(pos + 1, y);
      assert line[pos..] == [line[pos]] + line[pos + 1..];
      if pos < n { LexTame(keep, modes, line, pos + 1, n, y); } else { LexQuoted(keep, modes, line, pos + 1, y); }
    }
  }

  /** The first three characters of a version comment. */
  lemma {:induction false} LexMark3(keep: bool, modes: Session, line: string)
    requires StartsVersionComment(line)
    ensures Lex(keep, modes, line, 0, EMPTY) == Lex(keep, modes, line, 3, Lexer(NUL, false, true, false, "", "/*!"))
  {
    var one, two := Lexer(NUL, false, true, false, "", "/"), Lexer(NUL, false, true, false, "", "/*");
    assert LexStep(keep, modes, line, 0, EMPTY) == LexGo(1, one);
    assert LexStep(keep, modes, line, 1, one) == LexGo(2, two);
    assert LexStep(keep, modes, line, 2, two) == LexGo(3, Lexer(NUL, false, true, false, "", "/*!"));
    assert Lex(keep, modes, line, 0, EMPTY) == Lex(keep, modes, line, 1, one) == Lex(keep, modes, line, 2, two);
  }

  lemma {:induction false} SetShape(name: string, value: Option<string>)
    requires forall i :: 0 <= i < |name| ==> Tame(name[i])
    requires value.Some? ==> forall i :: 0 <= i < |value.value| ==> InQuotes(value.value[i])
    ensures var code, n := SetComment(name, value), |SET| + |name|;
            && n <= |code| && (forall i :: 3 <= i < n ==> Tame(code[i]))
            && (n < |code| ==> n + 1 < |code| && code[n] == '\'' && code[|code| - 1] == '\'' &&
                               forall i :: n < i < |code| - 1 ==> InQuotes(code[i]))
            && StartsVersionComment(code) && code[..3] == "/*!"
  {
    var code, n := SetComment(name, value), |SET| + |name|;
    forall i | 3 <= i < n ensures Tame(code[i]) {
      if i < |SET| { assert Tame(SET[i]); } else { assert Tame(name[i - |SET|]); }
    }
    if value.Some? {
      forall i | n < i < |code| - 1 ensures InQuotes(code[i]) { assert InQuotes(value.value[i - n - 1]); }
    }
  }

  /** A SET statement is sent as it is printed, whatever the modes. */
  lemma {:induction false} SetIsVerbatim(cfg: Config, binary: bool, modes: Session, name: string, value: Option<string>)
    requires forall i :: 0 <= i < |name| ==> Tame(name[i])
    requires value.Some? ==> forall i :: 0 <= i < |value.value| ==> InQuotes(value.value[i])
    ensures Commented(SetComment(name, value))
    ensures CommentText(cfg, binary, modes, SetComment(name, value)) == Some(SetComment(name, value))
  {
    var code, n := SetComment(name, value), |SET| + |name|;
    SetShape(name, value);
    PlainShape(code, n);
    LexMark3(cfg.preserveComments, modes, code);
    LexTame(cfg.preserveComments, modes, code, 3, n, Lexer(NUL, false, true, false, "", "/*!"));
    var y := Lex(cfg.preserveComments, modes, code, 0, EMPTY).1;
    assert y.Text() == code by { assert code[..3] + code[3..] == code; }
  }

  lemma {:induction false} PlainShape(code: string, n: nat)
    requires StartsVersionComment(code) && 3 <= n <= |code| && forall i :: 3 <= i < n ==> Tame(code[i])
    requires n < |code| ==> code[n] == '\'' && code[|code| - 1] == '\'' &&
                            forall i :: n < i < |code| - 1 ==> InQuotes(code[i])
    ensures Commented(code) && '\n' !in code
  {
    forall i | 0 <= i < |code| ensures code[i] != NUL && code[i] != ';' && code[i] != '\n' {
      if 3 <= i < n { assert Tame(code[i]); }
      if n < i < |code| - 1 { assert InQuotes(code[i]); }
    }
  }

  // --- A host that runs `com_delimiter` ---

  lemma {:induction false} CollectNoNul(s: string, quote: char, short: bool)
    requires NUL !in s
    ensures NUL !in CommandArgument.Collect(s, quote, short).0
    decreases |s|
  {
    if s != "" {
      if CommandArgument.Escaped(s, quote, short) {
        CollectNoNul(s[2..], quote, short);
      } else if !CommandArgument.Ends(s, quote) {
        CollectNoNul(s[1..], quote, short);
      }
    }
  }

  lemma {:induction false} NewDelimiterNoNul(current: string, line: string)
    requires CommandArgument.WellFormed(Cut(line, BUFF)) && NUL !in line && NUL !in current
    ensures NUL !in NewDelimiter(current, line)
  {
    var buff := Cut(line, BUFF);
    var place := CommandArgument.Locate(buff);
    if place.Some? {
      CollectNoNul(buff[place.value.start..], place.value.quote, place.value.short);
    }
  }

  /** The modes after some actions when only DELIMITER changes them. */
  function ModesAfter(initial: Session, trace: seq<Action>): Session {
    if trace == [] then initial
    else
      var before, last := ModesAfter(initial, trace[..|trace| - 1]), trace[|trace| - 1];
      if last.Run? && last.command == DELIMITER && NUL !in last.text && CommandArgument.WellFormed(Cut(last.text, BUFF)) then
        NewDelimiterNoNul(before.delimiter, last.text);
        before.(delimiter := NewDelimiter(before.delimiter, last.text))
      else before
  }

  function Reply0(initial: Session, trace: seq<Action>): Reply {
    Reply(false, if trace != [] && trace[|trace| - 1].Run? then trace[|trace| - 1].buffer else "", ModesAfter(initial, trace))
  }

  lemma {:induction false} ModesAre(cfg: Config, initial: Session, trace: seq<Action>)
    requires forall t :: cfg.host(t) == Reply0(initial, t)
    ensures SessionAfter(cfg, initial, trace) == ModesAfter(initial, trace)
  {
    if trace != [] { ModesAre(cfg, initial, trace[..|trace| - 1]); }
  }

  /** The contract of the host can be met. */
  lemma {:induction false} SomeHost(initial: Session, binary: bool, keep: bool) returns (cfg: Config)
    ensures RunsDelimiter(cfg, initial) && KeepsDelimiter(cfg, initial)
    ensures StandardClient(cfg, binary) && cfg.preserveComments == keep
  {
    cfg := Config(trace => Reply0(initial, trace), TableLookup(binary), keep, false);
    forall trace, text, buffer | CommandArgument.WellFormed(Cut(text, BUFF)) && NoNul(text)
      ensures Replies(cfg, initial, trace, text, buffer)
    {
      ModesAre(cfg, initial, trace);
      assert (trace + [Run(DELIMITER, text, buffer)])[..|trace|] == trace;
      assert NUL !in text;
    }
    forall trace, text
      ensures cfg.host(trace + [Send(text)]).session.delimiter == SessionAfter(cfg, initial, trace).delimiter
    {
      ModesAre(cfg, initial, trace);
      assert (trace + [Send(text)])[..|trace|] == trace;
    }
  }
}
