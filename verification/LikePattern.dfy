/** `quote_for_like` of client/mysqldump.c: a table name as a pattern for SHOW TABLES LIKE. */
module LikePattern {
  import opened Text
  import opened SqlLiteral

  /** Whether a string matches a LIKE pattern: % any run, _ any character, backslash makes the next one literal. */
  predicate Like(pattern: string, s: string)
    decreases |pattern|, |s|
  {
    if pattern == "" then s == ""
    else if pattern[0] == '%' then Like(pattern[1..], s) || (s != "" && Like(pattern, s[1..]))
    else if s == "" then false
    else if pattern[0] == '_' then Like(pattern[1..], s[1..])
    else if pattern[0] == '\\' && |pattern| > 1 then s[0] == pattern[1] && Like(pattern[2..], s[1..])
    else s[0] == pattern[0] && Like(pattern[1..], s[1..])
  }

  /** What the loop writes for one character of the name. */
  function Quoted(c: char): string {
    if c == '\\' then "\\\\\\\\" else if c == '\'' || c == '_' || c == '%' then ['\\', c] else [c]
  }

  function Body(name: string): string {
    if name == "" then "" else Quoted(name[0]) + Body(name[1..])
  }

  /** A pattern for one character. */
  function Wild(c: char): string {
    if c == '\\' || c == '_' || c == '%' then ['\\', c] else [c]
  }

  /** The pattern that the parser makes of the body. */
  function Pattern(name: string): string {
    if name == "" then ""
    else Wild(name[0]) + Pattern(name[1..])
  }

  lemma {:induction false} QuotedDecodes(c: char, rest: string, pattern: string)
    requires Decode(rest) == Some(pattern)
    ensures Decode(Quoted(c) + rest) == Some(Wild(c) + pattern)
  {
    if c == '\\' {
      DecodeEscape('\\', rest);
      DecodeEscape('\\', ['\\', '\\'] + rest);
      assert Quoted(c) + rest == ['\\', '\\'] + (['\\', '\\'] + rest);
      assert ['\\'] + (['\\'] + pattern) == Wild(c) + pattern;
    } else if c == '\'' || c == '_' || c == '%' {
      DecodeEscape(c, rest);
    } else {
      DecodeChar(c, rest);
    }
  }

  lemma {:induction false} BodyDecodes(name: string)
    ensures Decode(Body(name)) == Some(Pattern(name))
  {
    if name != "" {
      BodyDecodes(name[1..]);
      QuotedDecodes(name[0], Body(name[1..]), Pattern(name[1..]));
    }
  }

  lemma {:induction false} PatternMatchesName(name: string, s: string)
    ensures Like(Pattern(name), s) <==> s == name
  {
    if name != "" {
      var pattern := Pattern(name);
      var rest := Pattern(name[1..]);
      assert pattern == ['\\', name[0]] + rest ==> pattern[2..] == rest;
      assert pattern == [name[0]] + rest ==> pattern[1..] == rest;
      if s != "" {
        PatternMatchesName(name[1..], s[1..]);
        assert s == [s[0]] + s[1..] && name == [name[0]] + name[1..];
      }
    }
  }

  /** The text between the two quotes. */
  function Inner(literal: string): string
    requires |literal| >= 2
  {
    literal[1..|literal| - 1]
  }

  lemma {:induction false} BodyAppend(name: string, c: char)
    ensures Body(name + [c]) == Body(name) + Quoted(c)
  {
    if name == "" {
      assert ([c])[1..] == "";
    } else {
      assert (name + [c])[1..] == name[1..] + [c];
      BodyAppend(name[1..], c);
    }
  }

  /** One turn of the loop: the character is appended as it is quoted. */
  lemma {:induction false} QuoteStep(buff: string, name: string, i: nat)
    requires i < |name| && buff == "'" + Body(name[..i])
    ensures buff + Quoted(name[i]) == "'" + Body(name[..i + 1])
  {
    assert name[..i + 1] == name[..i] + [name[i]];
    BodyAppend(name[..i], name[i]);
  }

  /** What the server makes of the text between the quotes. */
  lemma {:induction false} BodyMatchesName(name: string)
    ensures Decode(Body(name)).Some? && forall s :: Like(Decode(Body(name)).value, s) <==> s == name
  {
    BodyDecodes(name);
    forall s ensures Like(Decode(Body(name)).value, s) <==> s == name {
      PatternMatchesName(name, s);
    }
  }

  /**
    The quoted name is one complete SQL literal, and as a LIKE pattern it matches the name and no other string.
    Between the quotes it takes at most four characters for each one of the name.
  */
  method QuoteForLike(name: string) returns (buff: string)
    requires NoNul(name)
    ensures 2 <= |buff| <= 4 * |name| + 2 && buff[0] == '\'' && buff[|buff| - 1] == '\''
    ensures Decode(Inner(buff)).Some?
    ensures forall s :: Like(Decode(Inner(buff)).value, s) <==> s == name
  {
    buff := "'";
    var i := 0;
    while i < |name|
      invariant i <= |name| && |buff| <= 4 * i + 1
      invariant buff == "'" + Body(name[..i])
    {
      QuoteStep(buff, name, i);
      ghost var done := buff;
      if name[i] == '\\' {
        buff := buff + ['\\'];
        buff := buff + ['\\'];
        buff := buff + ['\\'];
      } else if name[i] == '\'' || name[i] == '_' || name[i] == '%' {
        buff := buff + ['\\'];
      }
      buff := buff + [name[i]];
      assert buff == done + Quoted(name[i]);
      i := i + 1;
    }
    buff := buff + "'";
    assert name[..i] == name;
    assert Inner(buff) == Body(name);
    BodyMatchesName(name);
  }
}
