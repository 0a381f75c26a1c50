/** The client commands of `mysql` and the two `find_command` functions of client/mysql.cc. */
module Commands {
  import opened Text
  import CommandArgument

  datatype Command = Command(name: string, short: char, takesParams: bool)

  const DELIMITER := Command("delimiter", 'd', true)
  const CHARSET := Command("charset", 'C', true)

  const COUNT: nat := 24

  /** The `commands` table. */
  function Entry(i: nat): Command
    requires i < COUNT
  {
    match i
    case 0 => Command("?", '?', true)
    case 1 => Command("clear", 'c', false)
    case 2 => Command("connect", 'r', true)
    case 3 => DELIMITER
    case 4 => Command("edit", 'e', false)
    case 5 => Command("ego", 'G', false)
    case 6 => Command("exit", 'q', false)
    case 7 => Command("go", 'g', false)
    case 8 => Command("help", 'h', true)
    case 9 => Command("nopager", 'n', false)
    case 10 => Command("notee", 't', false)
    case 11 => Command("pager", 'P', true)
    case 12 => Command("print", 'p', false)
    case 13 => Command("prompt", 'R', true)
    case 14 => Command("quit", 'q', false)
    case 15 => Command("rehash", '#', false)
    case 16 => Command("source", '.', true)
    case 17 => Command("status", 's', false)
    case 18 => Command("system", '!', true)
    case 19 => Command("tee", 'T', true)
    case 20 => Command("use", 'u', true)
    case 21 => CHARSET
    case 22 => Command("warnings", 'W', false)
    case 23 => Command("nowarning", 'w', false)
  }

  function FirstShort(i: nat, c: char): Option<Command>
    requires i <= COUNT
    decreases COUNT - i
  {
    if i == COUNT then None
    else if Entry(i).short == c then Some(Entry(i))
    else FirstShort(i + 1, c)
  }

  /** `find_command(char)`: binary mode knows only `\C`. */
  function FindShort(binary: bool, c: char): Option<Command> {
    if binary then (if c == 'C' then Some(CHARSET) else None) else FirstShort(0, c)
  }

  /** `is_delimiter_command(name, len)` where `name` has at least `len` characters. */
  predicate IsDelimiterCommand(name: string) {
    |name| >= |DELIMITER.name| && Lower(name[..|DELIMITER.name|]) == DELIMITER.name
  }

  /** Length of the first word: up to the first blank or tab. */
  function FirstWord(name: string): (n: nat)
    ensures n <= |name|
  {
    if name == "" || name[0] == ' ' || name[0] == '\t' then 0 else 1 + FirstWord(name[1..])
  }

  predicate HasArgument(name: string) {
    CommandArgument.WellFormed(name) && CommandArgument.Argument(name).Some?
  }

  /** The first table entry from `i` on whose name is the word `word` and that can take what follows it. */
  function FirstNamed(i: nat, word: string, name: string, hasRest: bool): Option<Command>
    requires i <= COUNT
    decreases COUNT - i
  {
    if i == COUNT then None
    else if Entry(i).name == word && (!hasRest || (Entry(i).takesParams && HasArgument(name))) then Some(Entry(i))
    else FirstNamed(i + 1, word, name, hasRest)
  }

  /** `find_command(char *)`: the long command a line or a statement stands for, if any. */
  function FindLong(binary: bool, delimiter: string, text: string): (r: Option<Command>) {
    var name := text[LeadingSpaces(text)..];
    if (!binary && Contains(name, "\\g")) || (Contains(name, delimiter) && !IsDelimiterCommand(name)) then None
    else
      var len := FirstWord(name);
      if binary then (if IsDelimiterCommand(name[..len]) then Some(DELIMITER) else None)
      else
        var hasRest := LeadingSpaces(name[len..]) < |name| - len;
        FirstNamed(0, Lower(name[..len]), name, hasRest)
  }

  /** How the client finds commands: by letter after a backslash, by delimiter and text otherwise. */
  datatype Lookup = Lookup(short: char -> Option<Command>, long: (string, string) -> Option<Command>)

  /** The lookup that `find_command` performs over the `commands` table. */
  function TableLookup(binary: bool): Lookup {
    Lookup(c => FindShort(binary, c), (delimiter, text) => FindLong(binary, delimiter, text))
  }

  lemma {:induction false} NoneNamed(i: nat, word: string, name: string, hasRest: bool)
    requires i <= COUNT
    requires word != "" && (word[0] == '/' || word[0] == '`')
    ensures FirstNamed(i, word, name, hasRest).None?
    decreases COUNT - i
  {
    if i < COUNT {
      assert Entry(i).name != "" && Entry(i).name[0] != '/' && Entry(i).name[0] != '`';
      NoneNamed(i + 1, word, name, hasRest);
    }
  }

  /** No client command starts with a slash or a backtick. */
  lemma {:induction false} NotACommand(binary: bool, delimiter: string, text: string)
    requires text != "" && (text[0] == '/' || text[0] == '`')
    ensures FindLong(binary, delimiter, text).None?
  {
    assert text[LeadingSpaces(text)..] == text;
    var len := FirstWord(text);
    if binary {
      assert |text[..len]| >= 9 ==> Lower(text[..len][..9])[0] == text[0];
    } else {
      assert Lower(text[..len])[0] == text[0];
      NoneNamed(0, Lower(text[..len]), text, LeadingSpaces(text[len..]) < |text| - len);
    }
  }
}
