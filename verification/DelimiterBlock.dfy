/**
  Event and routine bodies in a dump: `create_delimiter` picks a delimiter for the body, the body is printed
  between a version comment and that delimiter, and the `mysql` client splits it off again.
*/
module DelimiterBlock {
  import opened Text
  import opened Commands
  import opened Scanner
  import opened Reader

  /** The outcome of `create_delimiter` so far. */
  datatype Outcome = Delimiter(text: string) | NoRoom | Looping

  /** No two adjacent semicolons. */
  ghost predicate NoPair(s: string) {
    forall i {:trigger s[i]} :: 0 <= i && i + 1 < |s| ==> !(s[i] == ';' && s[i + 1] == ';')
  }

  lemma {:induction false} NoPairIff(s: string)
    ensures NoPair(s) <==> !Contains(s, ";;")
  {
    forall i | 0 <= i <= |s|
      ensures PrefixAt(s, i, ";;") <==> i + 1 < |s| && s[i] == ';' && s[i + 1] == ';'
    {
      assert PrefixAt(s, i, ";;") ==> s[i..][0] == ';' && s[i..][1] == ';';
      assert i + 1 < |s| ==> s[i..][..2] == [s[i], s[i + 1]];
    }
    if !NoPair(s) {
      var i :| 0 <= i && i + 1 < |s| && s[i] == ';' && s[i + 1] == ';';
      assert PrefixAt(s, i, ";;");
    }
    if Contains(s, ";;") {
      var i :| 0 <= i <= |s| && PrefixAt(s, i, ";;");
      assert s[i] == ';';
    }
  }

  /**
    `create_delimiter`, stopped after at most `turns` turns of its loop.  The loop steps its bound and not the
    proposed length, so it returns two semicolons when the body does not hold them and goes on otherwise.
  */
  method CreateDelimiter(query: string, maxSize: int, turns: nat) returns (r: Outcome)
    ensures maxSize <= 2 ==> r == NoRoom
    ensures maxSize > 2 && turns > 0 && !Contains(query, ";;") ==> r == Delimiter(";;")
    ensures maxSize > 2 && Contains(query, ";;") ==> r == Looping
    ensures r.Delimiter? ==> !Contains(query, r.text)
  {
    var buff := [';'];
    var proposedLength, bound, turn := 2, maxSize, 0;
    while proposedLength < bound
      invariant proposedLength == 2 && bound == maxSize + turn && |buff| >= 1 && buff[0] == ';'
      invariant 0 <= turn <= turns && (turn > 0 ==> maxSize > 2)
      invariant turn > 0 ==> Contains(query, ";;")
      decreases turns - turn
    {
      if turn == turns { return Looping; }
      buff := buff[..proposedLength - 1] + [';'];
      assert buff == ";;";
      if !Contains(query, buff) { return Delimiter(buff); }
      bound, turn := bound + 1, turn + 1;
    }
    return NoRoom;
  }

  // --- A lexer for strings and comments ---

  /** How the client gets to the end of a line of text that holds no delimiter. */
  datatype End =
    | AtEnd
    | InLineComment
    | Cut        // a backslash outside strings is the last character
    | AtCommand  // a backslash command

  /** The place in strings and comments, and the text kept so far: before and since the last comment mark of the line. */
  datatype Lexer = Lexer(quote: char, mlComment: bool, ssComment: bool, owed: bool, done: string, open: string) {
    predicate Normal() {
      quote == NUL && !mlComment
    }

    function Text(): string {
      done + open
    }
  }

  datatype LexTurn = LexGo(pos: nat, x: Lexer) | LexStop(end: End, x: Lexer)

  /** A backslash escape, given the quote around it. */
  predicate Escapes(quote: char, modes: Session) {
    quote != '`' && !(quote == '"' && modes.ansiQuotes) && !(quote != NUL && modes.noBackslashEscapes)
  }

  predicate LineCommentAt(line: string, pos: nat)
    requires pos < |line|
  {
    line[pos] == '#' ||
    (line[pos] == '-' && At(line, pos + 1) == '-' && (IsSpace(At(line, pos + 2)) || At(line, pos + 2) == NUL))
  }

  /** A comment mark, which is kept only with --comments. */
  function LexMark(keep: bool, mark: string, opens: bool, x: Lexer): Lexer {
    x.(done := x.done + (x.open + if keep then mark else ""), open := "", mlComment := opens, owed := x.owed || !opens)
  }

  /** Any other character; a blank is owed for a comment that was dropped. */
  function LexPlain(keep: bool, line: string, pos: nat, x: Lexer): Lexer
    requires pos < |line|
  {
    var c := line[pos];
    var ss :=
      if x.quote == NUL && c == '/' && At(line, pos + 1) == '*' && At(line, pos + 2) == '!' then true
      else if x.quote == NUL && x.ssComment && EndsComment(line, pos) then false
      else x.ssComment;
    var quote := if c == x.quote then NUL else if x.Normal() && IsQuote(c) then c else x.quote;
    if x.mlComment && !keep then x.(ssComment := ss, quote := quote)
    else x.(ssComment := ss, quote := quote, owed := false,
            open := x.open + if x.owed && !IsSpace(c) then [' ', c] else [c])
  }

  function LexStep(keep: bool, modes: Session, line: string, pos: nat, x: Lexer): (t: LexTurn)
    requires pos < |line|
    ensures t.LexGo? ==> pos < t.pos <= |line|
  {
    if !x.mlComment && line[pos] == '\\' && Escapes(x.quote, modes) then
      if pos + 1 == |line| then LexStop(if x.quote == NUL then Cut else AtEnd, x)
      else if x.quote != NUL || line[pos + 1] == 'N' then LexGo(pos + 2, x.(open := x.open + ['\\', line[pos + 1]]))
      else LexStop(AtCommand, x)
    else if x.Normal() && LineCommentAt(line, pos) then
      LexStop(InLineComment, x.(done := x.done + x.open + (if keep then line[pos..] else ""), open := ""))
    else if x.quote == NUL && OpensComment(line, pos) then LexGo(pos + 2, LexMark(keep, "/*", true, x))
    else if x.mlComment && !x.ssComment && EndsComment(line, pos) then LexGo(pos + 2, LexMark(keep, "*/", false, x))
    else LexGo(pos + 1, LexPlain(keep, line, pos, x))
  }

  /** Strings and comments of a line from `pos` on. */
  function Lex(keep: bool, modes: Session, line: string, pos: nat, x: Lexer): (End, Lexer)
    requires pos <= |line|
    decreases |line| - pos
  {
    if pos == |line| then (AtEnd, x)
    else
      match LexStep(keep, modes, line, pos, x)
      case LexGo(next, y) => Lex(keep, modes, line, next, y)
      case LexStop(end, y) => (end, y)
  }

  // --- The scanner follows the lexer ---

  /** The client in the statement whose text and place the lexer gives. */
  function With(base: State, x: Lexer): State {
    base.(buffer := x.done, pending := x.open, quote := x.quote, mlComment := x.mlComment,
          ssComment := x.ssComment, needSpace := x.owed)
  }

  /** In the middle of a statement that ends at two semicolons. */
  ghost predicate Ready(cfg: Config, base: State, x: Lexer) {
    && !base.quit && x.Text() != "" && base.session.delimiter == ";;"
    && (x.mlComment ==> x.quote == NUL && (x.open == "" || cfg.preserveComments))
  }

  /** What follows the body on its last line starts with a blank, so it never completes a token of the body. */
  predicate Tail(suffix: string) {
    suffix == "" || suffix[0] == ' '
  }

  /** The tail changes nothing the scanner looks at within the body. */
  lemma {:induction false} TailIsNeutral(line: string, suffix: string, pos: nat, st: State)
    requires pos < |line| && Tail(suffix) && NoPair(line) && st.Accepted() != ""
    ensures !PrefixAt(line + suffix, pos, ";;")
    ensures LineCommentHere(line + suffix, pos, st) == LineCommentAt(line, pos)
    ensures OpensComment(line + suffix, pos) == OpensComment(line, pos)
    ensures EndsComment(line + suffix, pos) == EndsComment(line, pos)
    ensures (At(line + suffix, pos + 1) == '*' && At(line + suffix, pos + 2) == '!')
         == (At(line, pos + 1) == '*' && At(line, pos + 2) == '!')
  {
    assert (line + suffix)[pos..][0] == line[pos];
    assert pos + 1 < |line + suffix| ==> (line + suffix)[pos..][1] == (line + suffix)[pos + 1];
  }

  /** The step of the scanner is that of the lexer. */
  ghost predicate Follows(cfg: Config, base: State, turn: LexTurn, t: Turn) {
    match turn
    case LexGo(next, y) => t == Go(next, With(base, y)) && Ready(cfg, base, y)
    case LexStop(_, y) => t == Stop(With(base, y)) && Ready(cfg, base, y)
  }

  lemma {:induction false} PlainFollows(cfg: Config, line: string, suffix: string, pos: nat, base: State, x: Lexer)
    requires pos < |line| && Tail(suffix) && NoPair(line) && NoNul(line) && Ready(cfg, base, x)
    ensures Plain(cfg, line + suffix, pos, With(base, x)) == With(base, LexPlain(cfg.preserveComments, line, pos, x))
    ensures Ready(cfg, base, LexPlain(cfg.preserveComments, line, pos, x))
  {
    TailIsNeutral(line, suffix, pos, With(base, x));
  }

  lemma {:induction false} MarkFollows(cfg: Config, mark: string, opens: bool, base: State, x: Lexer)
    requires Ready(cfg, base, x) && x.quote == NUL
    ensures CommentMark(cfg, mark, opens, With(base, x)) == With(base, LexMark(cfg.preserveComments, mark, opens, x))
    ensures Ready(cfg, base, LexMark(cfg.preserveComments, mark, opens, x))
  {
    assert x.open + "" == x.open;
  }

  lemma {:induction false} LineCommentFollows(cfg: Config, line: string, pos: nat, base: State, x: Lexer)
    requires pos < |line| && Ready(cfg, base, x) && x.Normal()
    ensures var y := x.(done := x.done + x.open + (if cfg.preserveComments then line[pos..] else ""), open := "");
            LineComment(cfg, line, pos, With(base, x)) == Stop(With(base, y)) && Ready(cfg, base, y)
  {
    assert x.done + x.open + "" == x.done + x.open;
  }

  /** Away from delimiters and commands, one scanner step is one lexer step. */
  lemma {:induction false} StepFollows(cfg: Config, line: string, suffix: string, pos: nat, base: State, x: Lexer)
    requires pos < |line| && Tail(suffix) && NoPair(line) && NoNul(line) && Ready(cfg, base, x)
    requires var turn := LexStep(cfg.preserveComments, base.session, line, pos, x);
             turn.LexGo? || (suffix == "" && !turn.end.AtCommand?)
    ensures Follows(cfg, base, LexStep(cfg.preserveComments, base.session, line, pos, x),
                    Step(cfg, line + suffix, pos, With(base, x)))
  {
    var st := With(base, x);
    TailIsNeutral(line, suffix, pos, st);
    if EscapeHere(st, line[pos]) {
    } else if x.Normal() && LineCommentAt(line, pos) {
      assert line + "" == line;
      LineCommentFollows(cfg, line, pos, base, x);
    } else if x.quote == NUL && OpensComment(line, pos) {
      MarkFollows(cfg, "/*", true, base, x);
    } else if x.mlComment && !x.ssComment && EndsComment(line, pos) {
      MarkFollows(cfg, "*/", false, base, x);
    } else {
      PlainFollows(cfg, line, suffix, pos, base, x);
    }
  }

  /** Scanning a line of the body follows the lexer to the end of the body on that line. */
  lemma {:induction false} FollowLine(cfg: Config, line: string, suffix: string, pos: nat, base: State, x: Lexer)
    requires pos <= |line| && Tail(suffix) && NoPair(line) && NoNul(line) && Ready(cfg, base, x)
    requires var (end, y) := Lex(cfg.preserveComments, base.session, line, pos, x);
             if suffix == "" then !end.AtCommand? else end.AtEnd? && y.Normal()
    ensures var (_, y) := Lex(cfg.preserveComments, base.session, line, pos, x);
            && Ready(cfg, base, y)
            && ScanFrom(cfg, line + suffix, pos, With(base, x))
               == if suffix == "" then With(base, y) else ScanFrom(cfg, line + suffix, |line|, With(base, y))
    decreases |line| - pos
  {
    assert line + "" == line;
    if pos < |line| {
      var turn := LexStep(cfg.preserveComments, base.session, line, pos, x);
      StepFollows(cfg, line, suffix, pos, base, x);
      if turn.LexGo? {
        FollowLine(cfg, line, suffix, turn.pos, base, turn.x);
      }
    }
  }

  // --- The lines of a body ---

  const TAIL := " */ ;;"

  /** The client has sent `statement` and is between statements, unless the host made it stop. */
  function Sent(cfg: Config, st: State, statement: string): State {
    var after := State(statement, "", NUL, false, false, false, st.session, st.trace, false)
                 .Perform(cfg, Send(statement));
    if after.quit then after else after.(buffer := "")
  }

  /** A blank, star or slash that starts no token is accepted as it is. */
  lemma {:induction false} ScanOrdinary(cfg: Config, line: string, pos: nat, base: State, x: Lexer)
    requires pos + 1 < |line| && Ready(cfg, base, x) && x.Normal()
    requires line[pos] == ' ' || (!x.owed && (line[pos] == '*' || (line[pos] == '/' && line[pos + 1] == ' ')))
    ensures var y := x.(open := x.open + [line[pos]], owed := false, ssComment := x.ssComment && !EndsComment(line, pos));
            ScanFrom(cfg, line, pos, With(base, x)) == ScanFrom(cfg, line, pos + 1, With(base, y)) && Ready(cfg, base, y)
  {
    assert line[pos..][0] == line[pos];
  }

  /** Four ordinary characters end the version comment. */
  lemma {:induction false} ScanTail(cfg: Config, line: string, base: State, x: Lexer)
    requires Ready(cfg, base, x) && x.Normal()
    ensures var y := x.(open := x.open + " */ ", ssComment := false, owed := false);
            && Ready(cfg, base, y)
            && ScanFrom(cfg, line + TAIL, |line|, With(base, x)) == ScanFrom(cfg, line + TAIL, |line| + 4, With(base, y))
  {
    var full, n := line + TAIL, |line|;
    assert full[n] == ' ' && full[n + 1] == '*' && full[n + 2] == '/' && full[n + 3] == ' ' && full[n + 4] == ';';
    ScanFour(cfg, full, n, base, x);
    assert x.open + " " + "*" + "/" + " " == x.open + " */ ";
  }

  lemma {:induction false} ScanFour(cfg: Config, full: string, n: nat, base: State, x: Lexer)
    requires Ready(cfg, base, x) && x.Normal() && n + 4 < |full|
    requires full[n] == ' ' && full[n + 1] == '*' && full[n + 2] == '/' && full[n + 3] == ' '
    ensures var y := x.(open := x.open + " " + "*" + "/" + " ", ssComment := false, owed := false);
            ScanFrom(cfg, full, n, With(base, x)) == ScanFrom(cfg, full, n + 4, With(base, y)) && Ready(cfg, base, y)
  {
    var x1 := x.(open := x.open + " ", owed := false);
    var x2 := x1.(open := x1.open + "*", ssComment := false);
    var x3 := x2.(open := x2.open + "/");
    ScanOrdinary(cfg, full, n, base, x);
    ScanOrdinary(cfg, full, n + 1, base, x1);
    ScanOrdinary(cfg, full, n + 2, base, x2);
    ScanOrdinary(cfg, full, n + 3, base, x3);
  }

  /** Two semicolons at the end of the line send what was accepted. */
  lemma {:induction false} ScanDelimiter(cfg: Config, line: string, pos: nat, base: State, x: Lexer)
    requires pos + 2 == |line| && line[pos..] == ";;"
    requires Ready(cfg, base, x) && x.Normal() && !x.ssComment && !x.owed
    requires cfg.commands.long(";;", x.Text()).None?
    ensures ScanFrom(cfg, line, pos, With(base, x)) == Sent(cfg, base, x.Text())
  {
    assert line[pos] == ';';
    var st := With(base, x);
    var whole := st.Flush();
    assert st.buffer + (st.pending + line[|line|..|line|]) + line[|line|..|line|] == whole.buffer;
    assert Gather(cfg, line, pos + 2, st) == (whole, |line|);
    assert whole == State(x.Text(), "", NUL, false, false, false, base.session, base.trace, false);
    assert Finish(cfg, whole) == Sent(cfg, base, x.Text());
  }

  /** A line that ends within the text is the same with more text behind it. */
  lemma {:induction false} FirstLineWithin(binary: bool, code: string, rest: string)
    requires '\n' in code
    ensures FirstLine(binary, code + rest) == FirstLine(binary, code)
    ensures AfterLine(code + rest) == AfterLine(code) + rest
  {
    if code[0] == '\n' {
      assert (code + rest)[1..] == code[1..] + rest;
    } else {
      assert '\n' in code[1..];
      assert (code + rest)[1..] == code[1..] + rest;
      FirstLineWithin(binary, code[1..], rest);
    }
  }

  /** The last line of the body goes on with the end of the version comment and the delimiter. */
  lemma {:induction false} LastLine(binary: bool, code: string, after: string)
    requires '\n' !in code
    ensures FirstLine(binary, code + (TAIL + "\n" + after)) == code + TAIL
    ensures AfterLine(code + (TAIL + "\n" + after)) == after
  {
    var text := TAIL + "\n" + after;
    if code == "" {
      TailLine(binary, after);
      assert code + text == text && code + TAIL == TAIL;
    } else {
      LastLine(binary, code[1..], after);
      assert code + text == [code[0]] + (code[1..] + text);
      LineCons(binary, code[0], code[1..] + text);
      assert [code[0]] + (code[1..] + TAIL) == code + TAIL;
    }
  }

  lemma {:induction false} TailLine(binary: bool, after: string)
    ensures FirstLine(binary, TAIL + "\n" + after) == TAIL
    ensures AfterLine(TAIL + "\n" + after) == after
  {
    var t0 := "\n" + after;
    var t1 := ";" + t0;
    var t2 := ";" + t1;
    var t3 := " " + t2;
    var t4 := "/" + t3;
    var t5 := "*" + t4;
    assert FirstLine(binary, t0) == "" && AfterLine(t0) == after by { assert t0[1..] == after; }
    LineCons(binary, ';', t0);
    LineCons(binary, ';', t1);
    LineCons(binary, ' ', t2);
    LineCons(binary, '/', t3);
    LineCons(binary, '*', t4);
    LineCons(binary, ' ', t5);
    assert TAIL + "\n" + after == " " + t5;
  }

  lemma {:induction false} LineParts(binary: bool, code: string)
    requires NoPair(code) && NoNul(code)
    ensures FirstLine(binary, code) <= code
    ensures NoPair(FirstLine(binary, code)) && NoNul(FirstLine(binary, code))
    ensures NoPair(AfterLine(code)) && NoNul(AfterLine(code))
  {
    if code != "" {
      LineParts(binary, code[1..]);
    }
  }

  /** The first line of the body as the line reader hands it on. */
  function LineOf(binary: bool, code: string): string {
    if '\n' in code then FirstLine(binary, code) else code
  }

  /** The lexer at the start of the next line: the newline is not kept behind a line that reads as a DELIMITER command. */
  function NextLine(keep: bool, x: Lexer): Lexer {
    var newline := if !IsDelimiterCommand(x.open) || !x.Normal() then "\n" else "";
    Lexer(x.quote, x.mlComment, false, false, if x.mlComment && !keep then x.done else x.done + (x.open + newline), "")
  }

  /**
    The text that the client keeps of a body; None when the body has a backslash command outside strings or ends
    inside a string or a comment.
  */
  function BodyText(keep: bool, modes: Session, binary: bool, code: string, pos: nat, x: Lexer): Option<string>
    requires pos <= |LineOf(binary, code)|
    decreases |code|
  {
    var (end, y) := Lex(keep, modes, LineOf(binary, code), pos, x);
    if '\n' !in code then (if end.AtEnd? && y.Normal() then Some(y.Text()) else None)
    else if end.AtCommand? then None
    else BodyText(keep, modes, binary, AfterLine(code), 0, NextLine(keep, y))
  }

  /** The client knows the commands of the table and accepts them only at the start of a statement. */
  ghost predicate StandardClient(cfg: Config, binary: bool) {
    cfg.commands == TableLookup(binary) && !cfg.namedCommands
  }

  /** The end of a body line keeps the statement open. */
  lemma {:induction false} EndLineFollows(cfg: Config, base: State, x: Lexer)
    requires Ready(cfg, base, x)
    ensures var y := NextLine(cfg.preserveComments, x);
            && EndLine(cfg, false, With(base, x)).Carried() == With(base, y) == With(base, y).Carried()
            && Ready(cfg, base, y) && y.done != ""
  {
  }

  /** The client stands at `pos` on the first line of `text`. */
  function ReadingAt(cfg: Config, binary: bool, st: State, text: string, pos: nat): State {
    var line := FirstLine(binary, text);
    if pos <= |line| then Resume(cfg, binary, line, pos, st, AfterLine(text)) else st
  }

  lemma {:induction false} SentIsCarried(cfg: Config, st: State, statement: string)
    ensures var sent := Sent(cfg, st, statement);
            sent.Carried() == sent && (!sent.quit ==> EndLine(cfg, false, sent) == sent)
  {
  }

  /** From the end of the body, the rest of its last line sends the statement. */
  lemma {:induction false} LastScan(cfg: Config, binary: bool, code: string, base: State, x: Lexer)
    requires StandardClient(cfg, binary) && Ready(cfg, base, x) && x.Normal() && x.Text()[0] == '/'
    ensures ScanFrom(cfg, code + TAIL, |code|, With(base, x)) == Sent(cfg, base, x.Text() + " */ ")
  {
    ScanTail(cfg, code, base, x);
    var y := x.(open := x.open + " */ ", ssComment := false, owed := false);
    assert y.Text() == x.Text() + " */ ";
    NotACommand(binary, ";;", y.Text());
    assert (code + TAIL)[|code| + 4..] == ";;";
    ScanDelimiter(cfg, code + TAIL, |code| + 4, base, y);
  }

  /** Reading on from `pos` on the last line of the body: the comment ends and the delimiter sends the statement. */
  lemma {:induction false} ReadLast(cfg: Config, binary: bool, base: State, x: Lexer, code: string, pos: nat, after: string)
    requires StandardClient(cfg, binary) && Ready(cfg, base, x) && x.Text()[0] == '/'
    requires '\n' !in code && pos <= |code| && NoPair(code) && NoNul(code)
    requires var (end, y) := Lex(cfg.preserveComments, base.session, code, pos, x); end.AtEnd? && y.Normal()
    ensures var y := Lex(cfg.preserveComments, base.session, code, pos, x).1;
            ReadingAt(cfg, binary, With(base, x), code + (TAIL + "\n" + after), pos)
            == TakeLines(cfg, Sent(cfg, base, y.Text() + " */ "), ReadLines(binary, after))
  {
    LastLine(binary, code, after);
    FollowLine(cfg, code, TAIL, pos, base, x);
    LexGrows(cfg.preserveComments, base.session, code, pos, x);
    var y := Lex(cfg.preserveComments, base.session, code, pos, x).1;
    LastScan(cfg, binary, code, base, y);
    SentIsCarried(cfg, base, y.Text() + " */ ");
  }

  /** The text kept only grows. */
  lemma {:induction false} LexGrows(keep: bool, modes: Session, line: string, pos: nat, x: Lexer)
    requires pos <= |line|
    ensures x.Text() <= Lex(keep, modes, line, pos, x).1.Text()
    decreases |line| - pos
  {
    if pos < |line| {
      var turn := LexStep(keep, modes, line, pos, x);
      LexStepGrows(keep, modes, line, pos, x);
      if turn.LexGo? { LexGrows(keep, modes, line, turn.pos, turn.x); }
    }
  }

  lemma {:induction false} LexStepGrows(keep: bool, modes: Session, line: string, pos: nat, x: Lexer)
    requires pos < |line|
    ensures x.Text() <= LexStep(keep, modes, line, pos, x).x.Text()
  {
  }

  /** Reading on from `pos` on a line that ends within the body. */
  lemma {:induction false} ReadInner(cfg: Config, binary: bool, base: State, x: Lexer, code: string, pos: nat, rest: string)
    returns (y: Lexer)
    requires !cfg.namedCommands && Ready(cfg, base, x) && pos <= |FirstLine(binary, code)|
    requires NoPair(code) && NoNul(code) && '\n' in code && rest != ""
    requires !Lex(cfg.preserveComments, base.session, FirstLine(binary, code), pos, x).0.AtCommand?
    ensures y == NextLine(cfg.preserveComments, Lex(cfg.preserveComments, base.session, FirstLine(binary, code), pos, x).1)
    ensures Ready(cfg, base, y) && x.Text() <= y.Text()
    ensures ReadingAt(cfg, binary, With(base, x), code + rest, pos)
         == ReadingAt(cfg, binary, With(base, y), AfterLine(code) + rest, 0)
  {
    var line := FirstLine(binary, code);
    FirstLineWithin(binary, code, rest);
    LineParts(binary, code);
    assert line + "" == line;
    FollowLine(cfg, line, "", pos, base, x);
    LexGrows(cfg.preserveComments, base.session, line, pos, x);
    var z := Lex(cfg.preserveComments, base.session, line, pos, x).1;
    EndLineFollows(cfg, base, z);
    y := NextLine(cfg.preserveComments, z);
    ResumeAtLineStart(cfg, binary, With(base, y), AfterLine(code) + rest);
  }

  /** The body from the next line on. */
  lemma {:induction false} BodyInner(cfg: Config, binary: bool, base: State, x: Lexer, code: string, pos: nat, rest: string)
    returns (y: Lexer)
    requires !cfg.namedCommands && Ready(cfg, base, x) && x.Text()[0] == '/'
    requires pos <= |LineOf(binary, code)| && NoPair(code) && NoNul(code) && '\n' in code && rest != ""
    requires BodyText(cfg.preserveComments, base.session, binary, code, pos, x).Some?
    ensures Ready(cfg, base, y) && y.Text()[0] == '/' && NoPair(AfterLine(code)) && NoNul(AfterLine(code))
    ensures BodyText(cfg.preserveComments, base.session, binary, code, pos, x)
         == BodyText(cfg.preserveComments, base.session, binary, AfterLine(code), 0, y)
    ensures ReadingAt(cfg, binary, With(base, x), code + rest, pos)
         == ReadingAt(cfg, binary, With(base, y), AfterLine(code) + rest, 0)
  {
    y := ReadInner(cfg, binary, base, x, code, pos, rest);
    LineParts(binary, code);
  }

  /** Reading on from `pos` on the first line of `code`, inside the statement: the text of the body is sent. */
  lemma {:induction false} BodyIsSent(cfg: Config, binary: bool, base: State, x: Lexer, code: string, pos: nat,
                                      rest: string, after: string)
    requires StandardClient(cfg, binary) && Ready(cfg, base, x) && x.Text()[0] == '/'
    requires pos <= |LineOf(binary, code)| && NoPair(code) && NoNul(code)
    requires rest == TAIL + "\n" + after
    requires BodyText(cfg.preserveComments, base.session, binary, code, pos, x).Some?
    ensures var text := BodyText(cfg.preserveComments, base.session, binary, code, pos, x).value;
            ReadingAt(cfg, binary, With(base, x), code + rest, pos)
            == TakeLines(cfg, Sent(cfg, base, text + " */ "), ReadLines(binary, after))
    decreases |code|
  {
    if '\n' in code {
      var y := BodyInner(cfg, binary, base, x, code, pos, rest);
      BodyIsSent(cfg, binary, base, y, AfterLine(code), 0, rest, after);
    } else {
      ReadLast(cfg, binary, base, x, code, pos, after);
    }
  }

  // --- The block ---

  const HEAD := "/*!50106 "

  predicate StartsVersionComment(s: string) {
    |s| >= 3 && s[0] == '/' && s[1] == '*' && s[2] == '!'
  }

  lemma {:induction false} HeadLine(binary: bool, text: string)
    requires StartsVersionComment(text)
    ensures StartsVersionComment(FirstLine(binary, text))
  {
    var t := text[1..][1..];
    assert t == text[2..];
    assert FirstLine(binary, t) == [text[2]] + FirstLine(binary, t[1..]);
    assert FirstLine(binary, text[1..]) == ['*'] + FirstLine(binary, t);
    assert FirstLine(binary, text) == ['/'] + FirstLine(binary, text[1..]);
  }

  /** The lexer between statements. */
  const EMPTY := Lexer(NUL, false, false, false, "", "")
  const SLASH := Lexer(NUL, false, true, false, "", "/")

  /** The client and the lexer take the first character of a version comment. */
  lemma {:induction false} FirstStep(cfg: Config, line: string, base: State)
    requires StartsVersionComment(line) && base.session.delimiter == ";;"
    ensures ScanFrom(cfg, line, 0, With(base, EMPTY)) == ScanFrom(cfg, line, 1, With(base, SLASH))
    ensures Lex(cfg.preserveComments, base.session, line, 0, EMPTY) == Lex(cfg.preserveComments, base.session, line, 1, SLASH)
  {
    assert line[0..][0] == '/';
    assert "" + "/" == "/";
  }

  /** Between statements. */
  ghost predicate Idle(st: State) {
    st.Carried() == st && st.Normal() && !st.quit && st.buffer == ""
  }

  /** Between statements, a line that starts a version comment goes to the scanner. */
  lemma {:induction false} FirstRead(cfg: Config, binary: bool, st: State, text: string)
    requires StandardClient(cfg, binary) && StartsVersionComment(text) && Idle(st) && st.session.delimiter == ";;"
    ensures TakeLines(cfg, st, ReadLines(binary, text)) == ReadingAt(cfg, binary, With(st, SLASH), text, 1)
  {
    var line := FirstLine(binary, text);
    HeadLine(binary, text);
    NotACommand(binary, ";;", line);
    assert With(st, EMPTY) == st;
    FirstStep(cfg, line, st);
    var lines := ReadLines(binary, text);
    assert lines[0] == line && lines[1..] == ReadLines(binary, AfterLine(text));
  }

  lemma {:induction false} FirstText(cfg: Config, binary: bool, base: State, code: string)
    requires StartsVersionComment(code) && base.session.delimiter == ";;"
    ensures |LineOf(binary, code)| >= 1
    ensures BodyText(cfg.preserveComments, base.session, binary, code, 0, EMPTY)
         == BodyText(cfg.preserveComments, base.session, binary, code, 1, SLASH)
  {
    HeadLine(binary, code);
    FirstStep(cfg, LineOf(binary, code), base);
  }

  /** The text that the client keeps of a version comment, up to its end. */
  function CommentText(cfg: Config, binary: bool, modes: Session, code: string): Option<string> {
    BodyText(cfg.preserveComments, modes, binary, code, 0, EMPTY)
  }

  /** A version comment and the delimiter, read between statements, are one statement. */
  lemma {:induction false} CommentIsOneStatement(cfg: Config, binary: bool, st: State, code: string,
                                                 rest: string, after: string)
    requires StandardClient(cfg, binary) && Idle(st) && st.session.delimiter == ";;"
    requires StartsVersionComment(code) && NoNul(code) && NoPair(code) && rest == TAIL + "\n" + after
    requires CommentText(cfg, binary, st.session, code).Some?
    ensures var text := CommentText(cfg, binary, st.session, code).value;
            TakeLines(cfg, st, ReadLines(binary, code + rest))
            == TakeLines(cfg, Sent(cfg, st, text + " */ "), ReadLines(binary, after))
  {
    FirstRead(cfg, binary, st, code + rest);
    FirstText(cfg, binary, st, code);
    BodyIsSent(cfg, binary, st, SLASH, code, 1, rest, after);
  }

  lemma {:induction false} HeadedBody(body: string)
    requires NoNul(body) && !Contains(body, ";;")
    ensures StartsVersionComment(HEAD + body) && NoNul(HEAD + body) && NoPair(HEAD + body)
  {
    NoPairIff(body);
  }

  /**
    The version comment that mysqldump prints around an event body and the two semicolons that `create_delimiter`
    chose: exactly one statement is sent, with the text that the client keeps of the body, and the client goes on
    between statements.  The body must not hold the delimiter, must end outside quotes and comments and must hold no
    backslash command outside strings.
  */
  lemma {:induction false} BlockIsOneStatement(cfg: Config, binary: bool, st: State, body: string, after: string)
    requires StandardClient(cfg, binary) && Idle(st) && st.session.delimiter == ";;"
    requires NoNul(body) && !Contains(body, ";;")
    requires CommentText(cfg, binary, st.session, HEAD + body).Some?
    ensures var text := CommentText(cfg, binary, st.session, HEAD + body).value;
            TakeLines(cfg, st, ReadLines(binary, HEAD + body + (TAIL + "\n" + after)))
            == TakeLines(cfg, Sent(cfg, st, text + " */ "), ReadLines(binary, after))
  {
    HeadedBody(body);
    CommentIsOneStatement(cfg, binary, st, HEAD + body, TAIL + "\n" + after, after);
  }

  // --- Bodies whose text is sent as it is ---

  /** No comment, no lost backslash: the rest of the line is kept as it is. */
  predicate Verbatim(modes: Session, line: string, pos: nat, x: Lexer)
    requires pos <= |line|
    decreases |line| - pos
  {
    pos == |line| ||
    (match LexStep(false, modes, line, pos, x)
     case LexStop(_, _) => false
     case LexGo(next, y) => !x.mlComment && !y.mlComment && !x.owed && Verbatim(modes, line, next, y))
  }

  lemma {:induction false} VerbatimStep(keep: bool, modes: Session, line: string, pos: nat, x: Lexer)
    requires pos < |line| && LexStep(false, modes, line, pos, x).LexGo? && !x.mlComment && !x.owed
    requires !LexStep(false, modes, line, pos, x).x.mlComment
    ensures var turn := LexStep(false, modes, line, pos, x);
            turn == LexStep(keep, modes, line, pos, x) && turn.x.done == x.done && !turn.x.owed &&
            turn.x.open == x.open + line[pos..turn.pos]
  {
  }

  lemma {:induction false} VerbatimLine(keep: bool, modes: Session, line: string, pos: nat, x: Lexer)
    requires pos <= |line| && Verbatim(modes, line, pos, x)
    ensures var (end, y) := Lex(keep, modes, line, pos, x);
            end.AtEnd? && y.done == x.done && y.open == x.open + line[pos..] && (x.mlComment == y.mlComment) && (x.owed == y.owed)
    decreases |line| - pos
  {
    if pos < |line| {
      VerbatimStep(keep, modes, line, pos, x);
      var turn := LexStep(keep, modes, line, pos, x);
      VerbatimLine(keep, modes, line, turn.pos, turn.x);
      assert line[pos..] == line[pos..turn.pos] + line[turn.pos..];
    }
  }

  /** The text of the body as the line reader hands it on. */
  function Joined(binary: bool, code: string): string
    decreases |code|
  {
    if '\n' !in code then code else FirstLine(binary, code) + "\n" + Joined(binary, AfterLine(code))
  }

  /** Every line of the body is kept as it is, and none reads as a DELIMITER command. */
  predicate VerbatimBody(modes: Session, binary: bool, code: string, x: Lexer)
    decreases |code|
  {
    var line := LineOf(binary, code);
    && Verbatim(modes, line, 0, x) && !x.mlComment && !x.owed && x.open == ""
    && ('\n' in code ==>
          !IsDelimiterCommand(line) &&
          VerbatimBody(modes, binary, AfterLine(code), NextLine(false, Lex(false, modes, line, 0, x).1)))
  }

  /** The lexer behind such a line. */
  lemma {:induction false} VerbatimNext(keep: bool, modes: Session, line: string, x: Lexer) returns (z: Lexer)
    requires Verbatim(modes, line, 0, x) && !x.mlComment && !x.owed && x.open == "" && !IsDelimiterCommand(line)
    ensures Lex(keep, modes, line, 0, x).0.AtEnd?
    ensures z == NextLine(keep, Lex(keep, modes, line, 0, x).1) == NextLine(false, Lex(false, modes, line, 0, x).1)
    ensures z.done == x.done + (line + "\n")
  {
    VerbatimLine(keep, modes, line, 0, x);
    VerbatimSame(keep, modes, line, 0, x);
    assert "" + line[0..] == line;
    z := NextLine(keep, Lex(keep, modes, line, 0, x).1);
  }

  /** The text sent for such a body is the printed text. */
  lemma {:induction false} VerbatimText(keep: bool, modes: Session, binary: bool, code: string, x: Lexer)
    requires VerbatimBody(modes, binary, code, x)
    requires BodyText(keep, modes, binary, code, 0, x).Some?
    ensures BodyText(keep, modes, binary, code, 0, x) == Some(x.done + Joined(binary, code))
    decreases |code|
  {
    var line := LineOf(binary, code);
    if '\n' in code {
      var z := VerbatimNext(keep, modes, line, x);
      VerbatimText(keep, modes, binary, AfterLine(code), z);
      JoinLine(x.done, line, Joined(binary, AfterLine(code)));
    } else {
      VerbatimLine(keep, modes, line, 0, x);
      assert "" + line[0..] == line;
    }
  }

  lemma {:induction false} JoinLine(before: string, line: string, rest: string)
    ensures before + (line + "\n") + rest == before + (line + "\n" + rest)
  {
  }

  lemma {:induction false} VerbatimSame(keep: bool, modes: Session, line: string, pos: nat, x: Lexer)
    requires pos <= |line| && Verbatim(modes, line, pos, x)
    ensures Lex(keep, modes, line, pos, x) == Lex(false, modes, line, pos, x)
    decreases |line| - pos
  {
    if pos < |line| {
      VerbatimStep(keep, modes, line, pos, x);
      var turn := LexStep(keep, modes, line, pos, x);
      VerbatimSame(keep, modes, line, turn.pos, turn.x);
    }
  }
}
