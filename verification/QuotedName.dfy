/**
  Identifiers as mysqldump prints them (`quote_name`, client/mysqldump.c) and as the `mysql` client reads
  them back: through its line reader, its statement splitter and the argument parser of USE.
*/
module QuotedName {
  import opened Text
  import opened Scanner
  import opened Reader
  import CommandArgument

  /** Every quote character doubled. */
  function Double(q: char, name: string): (r: string)
    ensures |r| <= 2 * |name|
    ensures name != "" ==> r != ""
  {
    if name == "" then ""
    else if name[0] == q then [q, q] + Double(q, name[1..])
    else [name[0]] + Double(q, name[1..])
  }

  function Quote(q: char, name: string): string {
    [q] + Double(q, name) + [q]
  }

  /** The server's reading of a quoted identifier at the front of `s`: the name and the rest. */
  function Unquote(q: char, s: string): (r: Option<(string, string)>)
    decreases |s|
  {
    if s == "" then None
    else if s[0] != q then
      match Unquote(q, s[1..])
      case Some((name, rest)) => Some(([s[0]] + name, rest))
      case None => None
    else if |s| > 1 && s[1] == q then
      match Unquote(q, s[2..])
      case Some((name, rest)) => Some(([q] + name, rest))
      case None => None
    else Some(("", s[1..]))
  }

  /** The server gets back exactly the name that was quoted, whatever follows it. */
  lemma {:induction false} UnquoteInvertsQuote(q: char, name: string, after: string)
    requires after == "" || after[0] != q
    ensures Unquote(q, Quote(q, name)[1..] + after) == Some((name, after))
    decreases |name|
  {
    var s := Double(q, name) + [q] + after;
    assert Quote(q, name)[1..] + after == s;
    if name == "" {
      assert s == [q] + after && s[1..] == after;
    } else {
      var tail := Double(q, name[1..]) + [q] + after;
      UnquoteInvertsQuote(q, name[1..], after);
      assert Quote(q, name[1..])[1..] + after == tail;
      if name[0] == q {
        assert s[2..] == tail;
      } else {
        assert s[1..] == tail;
      }
      assert [name[0]] + name[1..] == name;
    }
  }

  predicate IsVariableChar(c: char) {
    'a' <= c <= 'z' || 'A' <= c <= 'Z' || '0' <= c <= '9' || c == '_' || c == '$'
  }

  /** `quote_name`: quotes when forced or needed; the result fits the callers' buffers. */
  method QuoteName(name: string, ansi: bool, force: bool) returns (buff: string)
    ensures !force && (forall i :: 0 <= i < |name| ==> IsVariableChar(name[i])) ==> buff == name
    ensures force || (exists i :: 0 <= i < |name| && !IsVariableChar(name[i])) ==>
              buff == Quote(if ansi then '"' else '`', name) && |buff| <= 2 * |name| + 2
  {
    var q := if ansi then '"' else '`';
    if !force && forall i :: 0 <= i < |name| ==> IsVariableChar(name[i]) {
      return name;
    }
    buff := [q];
    var i := 0;
    while i < |name|
      invariant 0 <= i <= |name|
      invariant [q] + Double(q, name) == buff + Double(q, name[i..])
    {
      assert name[i..][0] == name[i] && name[i..][1..] == name[i + 1..];
      if name[i] == q {
        buff := buff + [q];
      }
      buff := buff + [name[i]];
      i := i + 1;
    }
    assert Double(q, name[i..]) == "";
    buff := buff + [q];
  }

  /** What the line reader leaves of a name: carriage returns before newlines go, except in binary mode. */
  function Kept(binary: bool, name: string): string {
    if name == "" then ""
    else if !binary && |name| > 1 && name[0] == '\r' && name[1] == '\n' then Kept(binary, name[1..])
    else [name[0]] + Kept(binary, name[1..])
  }

  lemma {:induction false} KeptLength(binary: bool, name: string)
    ensures |Kept(binary, name)| <= |name|
  {
    if name != "" { KeptLength(binary, name[1..]); }
  }

  /** A name survives the line reader if and only if binary mode is on or it holds no CR LF pair. */
  lemma {:induction false} KeptIff(binary: bool, name: string)
    ensures Kept(binary, name) == name <==> binary || !Contains(name, "\r\n")
    decreases |name|
  {
    if name == "" {
    } else if !binary && PrefixAt(name, 0, "\r\n") {
      assert name[0..][0] == '\r' && name[0..][1] == '\n';
      KeptLength(binary, name[1..]);
    } else {
      KeptIff(binary, name[1..]);
      assert name == [name[0]] + name[1..];
      forall i | 0 <= i < |name|
        ensures PrefixAt(name, i + 1, "\r\n") == PrefixAt(name[1..], i, "\r\n")
      {
        assert name[i + 1..] == name[1..][i..];
      }
      if Contains(name, "\r\n") {
        var i :| 0 <= i <= |name| && PrefixAt(name, i, "\r\n");
        assert i == 0 || PrefixAt(name[1..], i - 1, "\r\n");
        assert i == 0 ==> name[0] == '\r' && name[1] == '\n';
      }
      if Contains(name[1..], "\r\n") {
        var i :| 0 <= i <= |name[1..]| && PrefixAt(name[1..], i, "\r\n");
        assert PrefixAt(name, i + 1, "\r\n");
      }
    }
  }

  /** Scanning on from inside or just before a backtick-quoted name: what was accepted, and the line so far. */
  datatype Progress = Progress(prefix: string, st: State) {
    function Accept(s: string): Progress {
      Progress(prefix + s, st.(pending := st.pending + s))
    }

    /** The line ends inside the string: its text and a newline move to the buffer. */
    function Newline(): Progress {
      Progress("", st.(buffer := st.buffer + (st.pending + "\n"), pending := "").Carried())
    }
  }

  /** Inside a name: nothing but the characters of the name is ever accepted, and nothing else happens. */
  ghost predicate Inside(p: Progress) {
    p.st.quote == '`' && !p.st.mlComment && !p.st.needSpace && !p.st.quit && p.st.session.delimiter[0] != '`' &&
    (p.st.buffer != "" || p.st.pending != "")
  }

  /** Where the client stands after the rest of a name and its closing backtick. */
  function Through(binary: bool, p: Progress, name: string): Progress
    decreases |name|
  {
    if name == "" then var done := p.Accept("`"); done.(st := done.st.(quote := NUL))
    else if name[0] == '\n' then Through(binary, p.Newline(), name[1..])
    else if !binary && |name| > 1 && name[0] == '\r' && name[1] == '\n' then Through(binary, p, name[1..])
    else if name[0] == '`' then Through(binary, p.Accept("``"), name[1..])
    else Through(binary, p.Accept([name[0]]), name[1..])
  }

  /** The client stands after `p.prefix` on its line, and `text` is still to be read. */
  function Reading(cfg: Config, binary: bool, p: Progress, text: string): State {
    Resume(cfg, binary, p.prefix + FirstLine(binary, text), |p.prefix|, p.st, AfterLine(text))
  }

  /** A character inside a string is accepted as it is; a backtick leaves the string. */
  lemma {:induction false} StepInside(cfg: Config, line: string, pos: nat, st: State)
    requires pos < |line| && Inside(Progress("", st))
    ensures Step(cfg, line, pos, st)
         == Go(pos + 1, st.(pending := st.pending + [line[pos]],
                            quote := if line[pos] == '`' then NUL else '`'))
  {
  }

  /** A backtick outside strings and comments opens a string. */
  lemma {:induction false} StepOpen(cfg: Config, line: string, pos: nat, st: State)
    requires pos < |line| && line[pos] == '`' && st.Normal() && st.session.delimiter[0] != '`'
    ensures Step(cfg, line, pos, st)
         == Go(pos + 1, st.(pending := st.pending + (if st.needSpace then " `" else "`"), quote := '`',
                            needSpace := false))
  {
  }

  /** An ordinary character of the name. */
  lemma {:induction false} ReadOne(cfg: Config, binary: bool, p: Progress, c: char, text: string)
    requires Inside(p) && c != '\n' && c != '`'
    requires binary || c != '\r' || text == "" || text[0] != '\n'
    ensures Reading(cfg, binary, p, [c] + text) == Reading(cfg, binary, p.Accept([c]), text)
  {
    LineCons(binary, c, text);
    var line := p.prefix + FirstLine(binary, [c] + text);
    assert line == (p.prefix + [c]) + FirstLine(binary, text);
    StepInside(cfg, line, |p.prefix|, p.st);
  }

  /** A doubled backtick leaves the string and enters it again. */
  lemma {:induction false} ScanDoubled(cfg: Config, line: string, pos: nat, st: State)
    requires pos + 1 < |line| && line[pos] == line[pos + 1] == '`' && Inside(Progress("", st))
    ensures ScanFrom(cfg, line, pos, st) == ScanFrom(cfg, line, pos + 2, st.(pending := st.pending + "``"))
  {
    var between := st.(pending := st.pending + "`", quote := NUL);
    StepInside(cfg, line, pos, st);
    StepOpen(cfg, line, pos + 1, between);
    assert between.pending + "`" == st.pending + "``";
    assert ScanFrom(cfg, line, pos, st) == ScanFrom(cfg, line, pos + 1, between);
  }

  lemma {:induction false} ReadDoubled(cfg: Config, binary: bool, p: Progress, text: string)
    requires Inside(p)
    ensures Reading(cfg, binary, p, "``" + text) == Reading(cfg, binary, p.Accept("``"), text)
  {
    LineCons(binary, '`', text);
    LineCons(binary, '`', "`" + text);
    assert "``" + text == "`" + ("`" + text);
    var line := p.prefix + FirstLine(binary, "``" + text);
    assert line == (p.prefix + "``") + FirstLine(binary, text);
    assert line[|p.prefix|] == line[|p.prefix| + 1] == '`';
    ScanDoubled(cfg, line, |p.prefix|, p.st);
  }

  /** A newline inside the name: the line ends within the string and reading goes on with the next one. */
  lemma {:induction false} ReadNewline(cfg: Config, binary: bool, p: Progress, text: string)
    requires Inside(p) && text != ""
    ensures Inside(p.Newline())
    ensures Resume(cfg, binary, p.prefix, |p.prefix|, p.st, text) == Reading(cfg, binary, p.Newline(), text)
  {
    var next := EndLine(cfg, false, p.st).Carried();
    assert next == p.Newline().st;
    ResumeAtLineStart(cfg, binary, next, text);
    assert "" + FirstLine(binary, text) == FirstLine(binary, text);
  }

  lemma {:induction false} ReadThrough(cfg: Config, binary: bool, p: Progress, name: string, after: string)
    requires Inside(p)
    ensures Reading(cfg, binary, p, Double('`', name) + ("`" + after))
         == Reading(cfg, binary, Through(binary, p, name), after)
    decreases |name|
  {
    var closing := "`" + after;
    var text := Double('`', name) + closing;
    if name == "" {
      assert text == closing;
      LineCons(binary, '`', after);
      var line := p.prefix + FirstLine(binary, text);
      assert line == (p.prefix + "`") + FirstLine(binary, after);
      StepInside(cfg, line, |p.prefix|, p.st);
    } else {
      var rest := Double('`', name[1..]) + closing;
      if name[0] == '`' {
        assert text == "``" + rest;
        ReadDoubled(cfg, binary, p, rest);
        ReadThrough(cfg, binary, p.Accept("``"), name[1..], after);
      } else {
        assert text == [name[0]] + rest && text[1..] == rest;
        if name[0] == '\n' {
          assert p.prefix + "" == p.prefix;
          ReadNewline(cfg, binary, p, rest);
          ReadThrough(cfg, binary, p.Newline(), name[1..], after);
        } else if !binary && |name| > 1 && name[0] == '\r' && name[1] == '\n' {
          assert rest[0] == '\n';
          assert FirstLine(binary, text) == "" == FirstLine(binary, rest);
          assert AfterLine(text) == AfterLine(rest);
          ReadThrough(cfg, binary, p, name[1..], after);
        } else {
          assert !binary && name[0] == '\r' ==> rest[0] != '\n';
          ReadOne(cfg, binary, p, name[0], rest);
          ReadThrough(cfg, binary, p.Accept([name[0]]), name[1..], after);
        }
      }
    }
  }

  /** Reading the rest of a name changes nothing but the accepted text and leaves the string. */
  lemma {:induction false} ThroughIsQuiet(binary: bool, p: Progress, name: string)
    requires Inside(p)
    ensures var r := Through(binary, p, name).st;
            r.trace == p.st.trace && r.session == p.st.session && r.Normal() && !r.quit && !r.needSpace
    decreases |name|
  {
    if name == "" {
    } else if name[0] == '\n' {
      ThroughIsQuiet(binary, p.Newline(), name[1..]);
    } else if !binary && |name| > 1 && name[0] == '\r' && name[1] == '\n' {
      ThroughIsQuiet(binary, p, name[1..]);
    } else if name[0] == '`' {
      ThroughIsQuiet(binary, p.Accept("``"), name[1..]);
    } else {
      ThroughIsQuiet(binary, p.Accept([name[0]]), name[1..]);
    }
  }

  lemma {:induction false} AcceptedAfter(p: Progress, s: string, tail: string)
    ensures p.Accept(s).st.Accepted() + tail == p.st.Accepted() + (s + tail)
    ensures p.Newline().st.Accepted() + tail == p.st.Accepted() + ("\n" + tail)
  {
  }

  /** Reading the rest of a name accepts exactly what the line reader kept of it. */
  lemma {:induction false} ThroughAccepts(binary: bool, p: Progress, name: string)
    ensures Through(binary, p, name).st.Accepted() == p.st.Accepted() + (Double('`', Kept(binary, name)) + "`")
    decreases |name|
  {
    var kept := Double('`', Kept(binary, name)) + "`";
    if name == "" {
      AcceptedAfter(p, "`", "");
    } else {
      var tail := Double('`', Kept(binary, name[1..])) + "`";
      if name[0] == '\n' {
        ThroughAccepts(binary, p.Newline(), name[1..]);
        AcceptedAfter(p, "", tail);
        DoubleKept(binary, name);
      } else if !binary && |name| > 1 && name[0] == '\r' && name[1] == '\n' {
        ThroughAccepts(binary, p, name[1..]);
      } else {
        var s := if name[0] == '`' then "``" else [name[0]];
        ThroughAccepts(binary, p.Accept(s), name[1..]);
        AcceptedAfter(p, s, tail);
        DoubleKept(binary, name);
      }
    }
  }

  lemma {:induction false} DoubleKept(binary: bool, name: string)
    requires name != "" && !(!binary && |name| > 1 && name[0] == '\r' && name[1] == '\n')
    ensures Double('`', Kept(binary, name)) + "`"
         == (if name[0] == '`' then "``" else [name[0]]) + (Double('`', Kept(binary, name[1..])) + "`")
  {
    assert ([name[0]] + Kept(binary, name[1..]))[1..] == Kept(binary, name[1..]);
  }

  /** The opening backtick. */
  function Opened(p: Progress): Progress {
    Progress(p.prefix + "`", p.st.(pending := p.st.pending + (if p.st.needSpace then " `" else "`"), quote := '`',
                                   needSpace := false))
  }

  lemma {:induction false} ReadOpen(cfg: Config, binary: bool, p: Progress, text: string)
    requires p.st.Normal() && p.st.session.delimiter[0] != '`'
    ensures Reading(cfg, binary, p, "`" + text) == Reading(cfg, binary, Opened(p), text)
  {
    LineCons(binary, '`', text);
    var line := p.prefix + FirstLine(binary, "`" + text);
    assert line == Opened(p).prefix + FirstLine(binary, text);
    StepOpen(cfg, line, |p.prefix|, p.st);
  }

  lemma {:induction false} OpenedAccepts(p: Progress, kept: string)
    ensures Opened(p).st.Accepted() + (Double('`', kept) + "`")
         == p.st.Accepted() + (if p.st.needSpace then " " else "") + Quote('`', kept)
  {
  }

  /**
    A printed identifier passes through the client: from any place outside strings and block comments,
    for every delimiter that does not start with a backtick, reading the quoted name and then `after` is
    reading `after` from a state that has accepted the quoted name, has done nothing else and is again
    outside any string.  The name read back is what the line reader kept of it.  No NUL is on its lines.
  */
  lemma {:induction false} QuotedNamePasses(cfg: Config, binary: bool, p: Progress, name: string, after: string)
    returns (r: Progress)
    requires p.st.Normal() && !p.st.quit && p.st.session.delimiter[0] != '`'
    requires NoNul(name) && NoNul(FirstLine(binary, after))
    ensures Reading(cfg, binary, p, Quote('`', name) + after) == Reading(cfg, binary, r, after)
    ensures r.st.Accepted() == p.st.Accepted() + (if p.st.needSpace then " " else "") + Quote('`', Kept(binary, name))
    ensures r.st.trace == p.st.trace && r.st.session == p.st.session
    ensures r.st.Normal() && !r.st.quit
  {
    var open := Opened(p);
    r := Through(binary, open, name);
    var rest := Double('`', name) + ("`" + after);
    assert Quote('`', name) + after == "`" + rest;
    ReadOpen(cfg, binary, p, rest);
    ReadThrough(cfg, binary, open, name, after);
    ThroughIsQuiet(binary, open, name);
    ThroughAccepts(binary, open, name);
    OpenedAccepts(p, Kept(binary, name));
  }

  /** The client reads the printed identifier unchanged if and only if binary mode is on or it holds no CR LF pair. */
  lemma {:induction false} PrintedNameUnchangedIff(binary: bool, name: string)
    ensures Quote('`', Kept(binary, name)) == Quote('`', name) <==> binary || !Contains(name, "\r\n")
  {
    KeptIff(binary, name);
    UnquoteInvertsQuote('`', name, "");
    UnquoteInvertsQuote('`', Kept(binary, name), "");
  }

  /** Outside binary mode the name CR LF is read back as LF. */
  lemma {:induction false} CarriageReturnIsLost()
    ensures Kept(false, "\r\n") == "\n"
  {
    assert "\r\n"[1..] == "\n" && Kept(false, "\n"[1..]) == "";
  }

  /** Twice the number of characters a text can stand for: a backtick counts half. */
  function Weight(s: string): nat {
    if s == "" then 0 else (if s[0] == '`' then 1 else 2) + Weight(s[1..])
  }

  /** An argument is never longer than the weight of its text. */
  lemma {:induction false} CollectWeight(s: string)
    ensures var (arg, closed) := CommandArgument.Collect(s, '`', false);
            2 * |arg| + (if closed then 1 else 0) <= Weight(s)
    decreases |s|
  {
    if s == "" {
    } else if CommandArgument.Escaped(s, '`', false) {
      assert s[1..][1..] == s[2..];
      CollectWeight(s[2..]);
    } else if !CommandArgument.Ends(s, '`') {
      CollectWeight(s[1..]);
    }
  }

  function Closing(name: string): string {
    Double('`', name) + "`"
  }

  lemma {:induction false} ClosingCons(name: string)
    requires name != ""
    ensures Closing(name) == (if name[0] == '`' then "``" else [name[0]]) + Closing(name[1..])
  {
  }

  lemma {:induction false} ClosingWeight(name: string)
    ensures Weight(Closing(name)) == 2 * |name| + 1
  {
    if name == "" {
      assert Closing(name)[1..] == "";
    } else {
      ClosingCons(name);
      ClosingWeight(name[1..]);
      if name[0] == '`' {
        assert Closing(name)[1..] == "`" + Closing(name[1..]);
        assert Closing(name)[1..][1..] == Closing(name[1..]);
      } else {
        assert Closing(name)[1..] == Closing(name[1..]);
      }
    }
  }

  /** One character of the name that is no backslash is read back as itself. */
  lemma {:induction false} CollectCons(name: string)
    requires name != "" && name[0] != '\\'
    ensures var (arg, closed) := CommandArgument.Collect(Closing(name[1..]), '`', false);
            CommandArgument.Collect(Closing(name), '`', false) == ([name[0]] + arg, closed)
  {
    ClosingCons(name);
    if name[0] == '`' {
      assert Closing(name)[2..] == Closing(name[1..]);
    } else {
      assert Closing(name)[1..] == Closing(name[1..]);
    }
  }

  lemma {:induction false} CollectName(name: string)
    requires '\\' !in name
    ensures CommandArgument.Collect(Closing(name), '`', false) == (name, true)
  {
    if name == "" {
    } else {
      CollectCons(name);
      CollectName(name[1..]);
      assert [name[0]] + name[1..] == name;
    }
  }

  /** A backslash in the name costs the argument a character. */
  lemma {:induction false} CollectLoses(name: string)
    requires '\\' in name
    ensures var (arg, closed) := CommandArgument.Collect(Closing(name), '`', false);
            2 * |arg| + (if closed then 1 else 0) <= 2 * |name|
  {
    if name[0] == '\\' {
      var rest := Closing(name[1..]);
      ClosingCons(name);
      ClosingWeight(name[1..]);
      assert Closing(name)[1] == rest[0] && Closing(name)[2..] == rest[1..];
      CollectWeight(rest[1..]);
    } else {
      CollectCons(name);
      CollectLoses(name[1..]);
    }
  }

  /** Where `get_arg` finds the argument of a USE command. */
  lemma {:induction false} LocateUse(name: string)
    ensures var line := "USE " + Quote('`', name);
            && CommandArgument.WellFormed(line)
            && CommandArgument.Locate(line) == Some(CommandArgument.Place(5, '`', false))
            && line[5..] == Closing(name)
  {
    var line := "USE " + Quote('`', name);
    assert LeadingSpaces(line) == 0;
    assert line[0..] == line;
    assert CommandArgument.WordLength(line[3..]) == 0;
    assert line[1..][1..][1..] == line[3..];
    assert CommandArgument.WordLength(line[1..][1..]) == 1;
    assert CommandArgument.WordLength(line) == 3;
    assert line[3..][1..] == line[4..];
    assert LeadingSpaces(line[4..]) == 0;
    assert LeadingSpaces(line[3..]) == 1;
  }

  /** USE with a quoted name selects that name if and only if it is not empty and holds no backslash. */
  lemma {:induction false} UseRoundTrip(name: string)
    ensures CommandArgument.WellFormed("USE " + Quote('`', name))
    ensures CommandArgument.Argument("USE " + Quote('`', name)) == Some(name) <==> name != "" && '\\' !in name
  {
    LocateUse(name);
    if '\\' in name {
      CollectLoses(name);
    } else {
      CollectName(name);
    }
  }
}
