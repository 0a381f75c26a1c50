/** `print_xml_cdata` of client/mysqldump.c, and a reader of CDATA sections by section 2.7 of XML 1.0. */
module Cdata {
  import opened Text

  const OPEN := "<![CDATA["

  /** The text starts with "]]>". */
  predicate Closes(text: string) {
    |text| >= 3 && text[0] == ']' && text[1] == ']' && text[2] == '>'
  }

  /** The joined contents of adjacent sections and the text after the last of them. */
  datatype Reading = Reading(content: string, rest: string)

  function Prepend(c: char, r: Option<Reading>): Option<Reading> {
    if r.Some? then Some(r.value.(content := [c] + r.value.content)) else None
  }

  /** A section ends at the first "]]>"; a section that does not end is not well formed. */
  function Inside(text: string): Option<Reading>
    decreases |text|
  {
    if Closes(text) then Outside(text[3..])
    else if text == "" then None
    else Prepend(text[0], Inside(text[1..]))
  }

  function Outside(text: string): Option<Reading>
    decreases |text|
  {
    if OPEN <= text then Inside(text[9..]) else Some(Reading("", text))
  }

  /** A "]]>" is divided between two sections: "]]]]><![CDATA[>". */
  function Break(rest: string): string {
    [']'] + ([']'] + ([']', ']', '>'] + (OPEN + (['>'] + rest))))
  }

  lemma {:induction false} BreakText(rest: string)
    ensures Break(rest) == "]]]]><![CDATA[>" + rest
  {
  }

  /** What the loop prints for s. */
  function Body(s: string): string {
    if s == "" then ""
    else if Closes(s) then Break(Body(s[3..]))
    else [s[0]] + Body(s[1..])
  }

  /** The first character printed is the first of s, and a break starts with three brackets. */
  lemma {:induction false} BodyStarts(s: string, after: string)
    requires s != ""
    ensures var text := Body(s) + after;
            if Closes(s) then |text| >= 2 && text[0] == ']' && text[1] == ']'
            else text == [s[0]] + (Body(s[1..]) + after)
  {
  }

  /** No "]]>" arises where the loop prints a character as it is. */
  lemma {:induction false} NoClose(s: string, after: string)
    requires s != "" && !Closes(s)
    requires after != "" && after[0] == '\n'
    ensures !Closes(Body(s) + after)
  {
    BodyStarts(s, after);
    if s[0] == ']' && s[1..] != "" {
      BodyStarts(s[1..], after);
      if !Closes(s[1..]) && s[1] == ']' && s[1..][1..] != "" {
        BodyStarts(s[1..][1..], after);
        assert s[1..][1..][0] == s[2];
      }
    }
  }

  lemma {:induction false} CharReads(c: char, text: string)
    requires !Closes([c] + text)
    ensures Inside([c] + text) == Prepend(c, Inside(text))
  {
    assert ([c] + text)[1..] == text;
  }

  lemma {:induction false} CloseOpenReads(text: string)
    ensures Inside([']', ']', '>'] + (OPEN + text)) == Inside(text)
  {
    assert ([']', ']', '>'] + (OPEN + text))[3..] == OPEN + text;
    assert (OPEN + text)[9..] == text;
  }

  lemma {:induction false} BracketsRead(text: string)
    requires |text| >= 2 && text[0] == ']' && text[1] == ']'
    ensures Inside([']'] + ([']'] + text)) == Prepend(']', Prepend(']', Inside(text)))
  {
    assert ([']'] + text)[2] == ']';
    CharReads(']', text);
    assert ([']'] + ([']'] + text))[2] == ']';
    CharReads(']', [']'] + text);
  }

  lemma {:induction false} BreakReads(rest: string)
    ensures Inside(Break(rest)) == Prepend(']', Prepend(']', Prepend('>', Inside(rest))))
  {
    CharReads('>', rest);
    CloseOpenReads(['>'] + rest);
    var three := [']', ']', '>'] + (OPEN + (['>'] + rest));
    BracketsRead(three);
  }

  lemma {:induction false} BreakIsRead(s: string, rest: string, tail: string, end: Reading)
    requires s == [']', ']', '>'] + tail
    requires Inside(rest) == Some(Reading(tail + end.content, end.rest))
    ensures Inside(Break(rest)) == Some(Reading(s + end.content, end.rest))
  {
    BreakReads(rest);
    assert s + end.content == [']'] + ([']'] + (['>'] + (tail + end.content)));
  }

  lemma {:induction false} CharIsRead(c: char, tail: string, rest: string, end: Reading)
    requires !Closes([c] + rest) && Inside(rest) == Some(Reading(tail + end.content, end.rest))
    ensures Inside([c] + rest) == Some(Reading([c] + tail + end.content, end.rest))
  {
    CharReads(c, rest);
    assert [c] + tail + end.content == [c] + (tail + end.content);
  }

  lemma {:induction false} BodyReads(s: string, after: string, end: Reading)
    requires after != "" && after[0] == '\n' && Inside(after) == Some(end)
    ensures Inside(Body(s) + after) == Some(Reading(s + end.content, end.rest))
    decreases |s|
  {
    if s == "" {
      assert Body(s) + after == after;
      assert s + end.content == end.content;
    } else if Closes(s) {
      var tail := s[3..];
      BodyReads(tail, after, end);
      assert s == [']', ']', '>'] + tail;
      BreakIsRead(s, Body(tail) + after, tail, end);
      assert Body(s) + after == Break(Body(tail) + after);
    } else {
      BodyReads(s[1..], after, end);
      NoClose(s, after);
      BodyStarts(s, after);
      CharIsRead(s[0], s[1..], Body(s[1..]) + after, end);
      assert [s[0]] + s[1..] == s;
    }
  }

  lemma {:induction false} EndReads()
    ensures Inside("\n]]>\n") == Some(Reading("\n", "\n"))
  {
    assert "\n]]>\n"[1..] == "]]>\n";
    assert "]]>\n"[3..] == "\n";
    assert Outside("\n") == Some(Reading("", "\n"));
    assert ['\n'] + "" == "\n";
  }

  /** Reading the printed sections gives back the string between two newlines, for every string. */
  method PrintXmlCdata(str: string) returns (file: string)
    ensures Outside(file) == Some(Reading("\n" + str + "\n", "\n"))
  {
    file := "<![CDATA[\n";
    var i := 0;
    while i != |str|
      invariant i <= |str|
      invariant file + Body(str[i..]) == "<![CDATA[\n" + Body(str)
      decreases |str| - i
    {
      if str[i] == ']' && At(str, i + 1) == ']' && At(str, i + 2) == '>' {
        assert str[i..][3..] == str[i + 3..];
        BreakText(Body(str[i + 3..]));
        file := file + "]]]]><![CDATA[>";
        i := i + 3;
      } else {
        assert str[i..][1..] == str[i + 1..];
        file := file + [str[i]];
        i := i + 1;
      }
    }
    file := file + "\n]]>\n";
    Whole(str, file);
  }

  lemma {:induction false} OpenReads(text: string)
    ensures Outside(OPEN + text) == Inside(text)
  {
    assert (OPEN + text)[9..] == text;
  }

  lemma {:induction false} FileText(body: string, after: string)
    ensures "<![CDATA[\n" + body + after == OPEN + (['\n'] + (body + after))
  {
    assert "<![CDATA[\n" == OPEN + ['\n'];
  }

  lemma {:induction false} Whole(str: string, file: string)
    requires file == "<![CDATA[\n" + Body(str) + "\n]]>\n"
    ensures Outside(file) == Some(Reading("\n" + str + "\n", "\n"))
  {
    var after := "\n]]>\n";
    EndReads();
    BodyReads(str, after, Reading("\n", "\n"));
    var text := Body(str) + after;
    FileText(Body(str), after);
    OpenReads(['\n'] + text);
    CharReads('\n', text);
    assert ['\n'] + (str + "\n") == "\n" + str + "\n";
  }
}
