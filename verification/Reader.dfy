/** Where lines come from (`batch_readline`, client/readline.cc) and where they go (`read_and_execute`). */
module Reader {
  import opened Text
  import opened Commands
  import opened Scanner
  import LineEditor

  /** The first line of `text`, without its newline and, outside binary mode, a carriage return before it. */
  function FirstLine(binary: bool, text: string): (line: string)
    ensures |line| <= |text|
  {
    if text == "" || text[0] == '\n' then ""
    else if !binary && |text| > 1 && text[0] == '\r' && text[1] == '\n' then ""
    else [text[0]] + FirstLine(binary, text[1..])
  }

  /** What follows the first line. */
  function AfterLine(text: string): (rest: string)
    ensures text != "" ==> |rest| < |text|
  {
    if text == "" then "" else if text[0] == '\n' then text[1..] else AfterLine(text[1..])
  }

  /** A character that is part of its line. */
  lemma {:induction false} LineCons(binary: bool, c: char, text: string)
    requires c != '\n' && (binary || c != '\r' || text == "" || text[0] != '\n')
    ensures FirstLine(binary, [c] + text) == [c] + FirstLine(binary, text)
    ensures AfterLine([c] + text) == AfterLine(text)
  {
    assert ([c] + text)[1..] == text;
  }

  function ReadLines(binary: bool, text: string): seq<string>
    decreases |text|
  {
    if text == "" then [] else [FirstLine(binary, text)] + ReadLines(binary, AfterLine(text))
  }

  /** One turn of `read_and_execute`: a command line, or a line for the scanner. */
  function TakeLine(cfg: Config, st: State, line: string): State {
    var command :=
      if (cfg.namedCommands || st.buffer == "") && st.Normal() then cfg.commands.long(st.session.delimiter, line)
      else None;
    match command
    case Some(com) =>
      var after := st.Perform(cfg, Run(com, line, st.buffer));
      if !after.quit && after.buffer == "" then after.(quote := NUL) else after
    case None => AddLine(cfg, false, line, st)
  }

  function TakeLines(cfg: Config, st: State, lines: seq<string>): State
    decreases |lines|
  {
    if st.quit || lines == [] then st else TakeLines(cfg, TakeLine(cfg, st, lines[0]), lines[1..])
  }

  /** The client in the middle of a line: it scans on from `pos`, then reads the lines of `rest`. */
  function Resume(cfg: Config, binary: bool, line: string, pos: nat, st: State, rest: string): State
    requires pos <= |line|
  {
    var scanned := ScanFrom(cfg, line, pos, st);
    if scanned.quit then scanned.Carried()
    else TakeLines(cfg, EndLine(cfg, false, scanned).Carried(), ReadLines(binary, rest))
  }

  /** A line the scanner takes: reading it is scanning from its start. */
  lemma {:induction false} ResumeAtLineStart(cfg: Config, binary: bool, st: State, text: string)
    requires !st.quit && text != "" && st.Carried() == st
    requires st.buffer != "" && (!cfg.namedCommands || !st.Normal())
    ensures TakeLines(cfg, st, ReadLines(binary, text))
         == Resume(cfg, binary, FirstLine(binary, text), 0, st, AfterLine(text))
  {
    var lines := ReadLines(binary, text);
    assert lines[0] == FirstLine(binary, text) && lines[1..] == ReadLines(binary, AfterLine(text));
  }

  /** The byte order mark of UTF-8 in front of the first line is skipped. */
  function SkipMark(line: string): string {
    if |line| >= 3 && line[0] == 0xEF as char && line[1] == 0xBB as char && line[2] == 0xBF as char then line[3..] else line
  }

  /** The lines that are executed: reading stops before a line with an embedded NUL, except in binary mode. */
  function Batch(binary: bool, lines: seq<string>, first: bool): seq<string>
    decreases |lines|
  {
    if lines == [] || (!binary && NUL in lines[0]) then []
    else [if first then SkipMark(lines[0]) else lines[0]] + Batch(binary, lines[1..], false)
  }

  /** Reads the lines one after the other through the in-place scanner. */
  method ReadAndExecute(client: LineEditor.Client, binary: bool, lines: seq<string>)
    requires binary ==> forall i :: 0 <= i < |lines| ==> NoNul(lines[i])
    modifies client
    ensures client.Carried() == TakeLines(client.cfg, old(client.Carried()), Batch(binary, lines, true))
  {
    var lineNumber := 0;
    while lineNumber < |lines| && !client.quit
      invariant 0 <= lineNumber <= |lines|
      invariant TakeLines(client.cfg, old(client.Carried()), Batch(binary, lines, true))
             == TakeLines(client.cfg, client.Carried(), Batch(binary, lines[lineNumber..], lineNumber == 0))
    {
      var line := lines[lineNumber];
      assert lines[lineNumber..][0] == line && lines[lineNumber..][1..] == lines[lineNumber + 1..];
      if !binary && NUL in line { break; }
      if lineNumber == 0 { line := SkipMark(line); }
      TakeOne(client, line);
      lineNumber := lineNumber + 1;
    }
  }

  method TakeOne(client: LineEditor.Client, line: string)
    requires !client.quit && NoNul(line)
    modifies client
    ensures client.Carried() == TakeLine(client.cfg, old(client.Carried()), line)
  {
    if (client.cfg.namedCommands || client.buffer == "") && !client.mlComment && client.quote == NUL {
      var com := client.cfg.commands.long(client.session.delimiter, line);
      if com.Some? {
        client.Perform(Run(com.value, line, client.buffer));
        if !client.quit && client.buffer == "" {
          client.quote := NUL;
        }
        return;
      }
    }
    var buff := new char[|line| + 1](i requires 0 <= i <= |line| => At(line, i));
    assert buff[..|line|] == line;
    var stop := client.AddLine(buff, |line|, false);
  }
}
