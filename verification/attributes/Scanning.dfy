/** Reading attribute text character by character: quotes, escapes and nested delimiters. */
module AttributeScanning {
  import opened Options

  /** The closers still expected, innermost last, and whether inside a quotation or after a backslash. */
  datatype Scan = Scan(stack: seq<char>, quoted: bool, escaped: bool)

  const START := Scan([], false, false)

  predicate Opens(c: char) {
    c == '(' || c == '[' || c == '{' || c == '<'
  }

  predicate Closes(c: char) {
    c == ')' || c == ']' || c == '}' || c == '>'
  }

  function CloserOf(c: char): char
    requires Opens(c)
  {
    match c
    case '(' => ')'
    case '[' => ']'
    case '{' => '}'
    case _ => '>'
  }

  /** One character inside a quotation. */
  function Quoted(s: Scan, c: char): Scan {
    if s.escaped then s.(escaped := false)
    else if c == '\\' then s.(escaped := true)
    else if c == '"' then s.(quoted := false)
    else s
  }

  /** One character; none when it closes what is not open. */
  function Advance(s: Scan, c: char): Option<Scan> {
    if s.quoted then Some(Quoted(s, c))
    else if c == '"' then Some(s.(quoted := true))
    else if Opens(c) then Some(s.(stack := s.stack + [CloserOf(c)]))
    else if Closes(c) then
      if s.stack == [] || s.stack[|s.stack| - 1] != c then None else Some(s.(stack := s.stack[..|s.stack| - 1]))
    else Some(s)
  }

  /** Outside all quotations and delimiters. */
  predicate AtTop(s: Scan) {
    !s.quoted && s.stack == []
  }

  /** The state after a text that contains no top-level comma; none when it does, or is mismatched. */
  function Read(s: Scan, text: string): Option<Scan>
    decreases |text|
  {
    if text == "" then Some(s)
    else if AtTop(s) && text[0] == ',' then None
    else
      match Advance(s, text[0])
      case None => None
      case Some(t) => Read(t, text[1..])
  }

  /** Delimiters and quotations are balanced, and no comma is at the top level. */
  predicate Balanced(text: string) {
    Read(START, text) == Some(START)
  }

  /** Backslashes matter only inside quotations. */
  predicate Regular(s: Scan) {
    s.escaped ==> s.quoted
  }

  lemma AdvanceRegular(s: Scan, c: char)
    requires Regular(s) && Advance(s, c).Some?
    ensures Regular(Advance(s, c).value)
  {
  }
}
