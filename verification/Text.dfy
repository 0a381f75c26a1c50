/** Byte strings as the client tools see them: NUL-terminated, one character per byte. */
module Text {

  const NUL: char := '\0'

  datatype Option<+T> = None | Some(value: T)

  /** The character a C pointer into `s` sees at offset `i`; the terminator past the end. */
  function At(s: string, i: nat): char {
    if i < |s| then s[i] else NUL
  }

  /** A C string holds no terminator inside. */
  ghost predicate NoNul(s: string) {
    forall i :: 0 <= i < |s| ==> s[i] != NUL
  }

  /** `my_isspace` for the ASCII range. */
  predicate IsSpace(c: char) {
    c == ' ' || c == '\t' || c == '\n' || c == '\r' || c == 11 as char || c == 12 as char
  }

  predicate IsQuote(c: char) {
    c == '\'' || c == '"' || c == '`'
  }

  /** `is_prefix(s + i, t)`. */
  predicate PrefixAt(s: string, i: nat, t: string)
    requires i <= |s|
  {
    t <= s[i..]
  }

  /** Number of leading white-space characters of `s`. */
  function LeadingSpaces(s: string): (n: nat)
    ensures n <= |s|
  {
    if s == "" || !IsSpace(s[0]) then 0 else 1 + LeadingSpaces(s[1..])
  }

  /** First offset at which `t` occurs in `s`, or `|s|` when it does not (`strstr`). */
  function IndexOf(s: string, t: string): (n: nat)
    ensures n <= |s|
    ensures n < |s| ==> n + |t| <= |s|
  {
    if s == "" || t <= s then 0 else 1 + IndexOf(s[1..], t)
  }

  /** `strstr(s, t) != NULL` for a non-empty `t`. */
  predicate Contains(s: string, t: string) {
    exists i :: 0 <= i <= |s| && PrefixAt(s, i, t)
  }

  function ToLower(c: char): char {
    if 'A' <= c <= 'Z' then ((c as int) + 32) as char else c
  }

  function Lower(s: string): (r: string)
    ensures |r| == |s|
    ensures forall i :: 0 <= i < |s| ==> r[i] == ToLower(s[i])
  {
    seq(|s|, i requires 0 <= i < |s| => ToLower(s[i]))
  }
}
