/** How the SQL parser of the server reads the text between the quotes of a string literal 'abc'. */
module SqlLiteral {
  import opened Text

  /** The character that a backslash and c stand for. */
  function Unescape(c: char): char {
    match c
    case 'n' => '\n'
    case 't' => '\t'
    case 'r' => '\r'
    case 'b' => 8 as char
    case '0' => NUL
    case 'Z' => 26 as char
    case _ => c
  }

  /** A backslash before a wildcard stays in the string, for LIKE to see. */
  function Escape(c: char): string {
    if c == '_' || c == '%' then ['\\', c] else [Unescape(c)]
  }

  function Prepend(s: string, rest: Option<string>): Option<string> {
    if rest.Some? then Some(s + rest.value) else None
  }

  /** The string that a literal body denotes; None when a lone quote ends it early or a backslash dangles. */
  function Decode(body: string): Option<string> {
    if body == "" then Some("")
    else if body[0] == '\\' then
      if |body| == 1 then None else Prepend(Escape(body[1]), Decode(body[2..]))
    else if body[0] == '\'' then
      if |body| == 1 || body[1] != '\'' then None else Prepend("'", Decode(body[2..]))
    else Prepend([body[0]], Decode(body[1..]))
  }

  lemma {:induction false} DecodeEscape(c: char, rest: string)
    ensures Decode(['\\', c] + rest) == Prepend(Escape(c), Decode(rest))
  {
    assert (['\\', c] + rest)[2..] == rest;
  }

  lemma {:induction false} DecodeChar(c: char, rest: string)
    requires c != '\\' && c != '\''
    ensures Decode([c] + rest) == Prepend([c], Decode(rest))
  {
    assert ([c] + rest)[1..] == rest;
  }
}
