/** A grammar of attribute entries that knows nothing of scanning: plain characters, quotations in which a
    backslash protects the next character, and groups between one of four pairs of delimiters. */
module AttributeGrammar {
  import opened Options
  import opened AttributeScanning

  /** What a quotation contains: a character, or one behind a backslash. */
  datatype Sign = Letter(c: char) | Escape(c: char)

  datatype Kind = Round | Square | Curly | Angle

  datatype Tree =
    | Nothing
    | Plain(c: char, rest: Tree)
    | Quotation(signs: seq<Sign>, rest: Tree)
    | Group(kind: Kind, body: Tree, rest: Tree)

  function Left(k: Kind): char {
    match k
    case Round => '('
    case Square => '['
    case Curly => '{'
    case Angle => '<'
  }

  function Right(k: Kind): char {
    match k
    case Round => ')'
    case Square => ']'
    case Curly => '}'
    case Angle => '>'
  }

  function OneSign(s: Sign): string {
    match s
    case Letter(c) => [c]
    case Escape(c) => ['\\', c]
  }

  function SignText(signs: seq<Sign>): string {
    if signs == [] then ""
    else OneSign(signs[0]) + SignText(signs[1..])
  }

  function Text(t: Tree): string {
    match t
    case Nothing => ""
    case Plain(c, rest) => [c] + Text(rest)
    case Quotation(signs, rest) => ['"'] + SignText(signs) + ['"'] + Text(rest)
    case Group(kind, body, rest) => [Left(kind)] + Text(body) + [Right(kind)] + Text(rest)
  }

  predicate ProperSign(s: Sign) {
    s.Letter? ==> s.c != '"' && s.c != '\\'
  }

  /** Plain characters are neither quotes nor delimiters; commas occur only inside groups and quotations. */
  predicate Proper(t: Tree, inside: bool) {
    match t
    case Nothing => true
    case Plain(c, rest) => c !in ['"', '(', ')', '[', ']', '{', '}', '<', '>'] && (c == ',' ==> inside) && Proper(rest, inside)
    case Quotation(signs, rest) => (forall k :: 0 <= k < |signs| ==> ProperSign(signs[k])) && Proper(rest, inside)
    case Group(kind, body, rest) => Proper(body, true) && Proper(rest, inside)
  }

  /** The text is what some entry of the grammar is written as. */
  ghost predicate Written(text: string) {
    exists t: Tree :: Proper(t, false) && Text(t) == text
  }

  // ---- what the grammar writes, the scanner reads ----

  lemma Associates(a: string, b: string, c: string)
    ensures (a + b) + c == a + (b + c)
  {
  }

  lemma ReadOne(s: Scan, c: char, tail: string)
    requires !(AtTop(s) && c == ',') && Advance(s, c).Some?
    ensures Read(s, [c] + tail) == Read(Advance(s, c).value, tail)
  {
    assert ([c] + tail)[1..] == tail;
  }

  lemma ReadSign(s: Scan, sign: Sign, after: string)
    requires s.quoted && !s.escaped && ProperSign(sign)
    ensures Read(s, OneSign(sign) + after) == Read(s, after)
  {
    match sign
    case Letter(c) => ReadOne(s, c, after);
    case Escape(c) =>
      assert OneSign(sign) + after == ['\\'] + ([c] + after);
      ReadOne(s, '\\', [c] + after);
      ReadOne(s.(escaped := true), c, after);
  }

  lemma {:induction false} ReadSigns(s: Scan, signs: seq<Sign>, tail: string)
    requires s.quoted && !s.escaped && forall k :: 0 <= k < |signs| ==> ProperSign(signs[k])
    ensures Read(s, SignText(signs) + (['"'] + tail)) == Read(s.(quoted := false), tail)
    decreases |signs|
  {
    var end := ['"'] + tail;
    if signs == [] {
      assert SignText(signs) + end == end;
      ReadOne(s, '"', tail);
    } else {
      ReadSigns(s, signs[1..], tail);
      Associates(OneSign(signs[0]), SignText(signs[1..]), end);
      ReadSign(s, signs[0], SignText(signs[1..]) + end);
    }
  }

  lemma KindOpens(k: Kind)
    ensures Opens(Left(k)) && CloserOf(Left(k)) == Right(k) && Closes(Right(k)) && !Opens(Right(k))
    ensures Left(k) != '"' && Right(k) != '"' && Left(k) != ',' && Right(k) != ','
  {
  }

  lemma {:induction false} ReadTree(s: Scan, t: Tree, tail: string)
    requires !s.quoted && !s.escaped && Proper(t, s.stack != [])
    ensures Read(s, Text(t) + tail) == Read(s, tail)
    decreases t
  {
    match t
    case Nothing =>
      assert Text(t) + tail == tail;
    case Plain(c, rest) =>
      Associates([c], Text(rest), tail);
      ReadOne(s, c, Text(rest) + tail);
      ReadTree(s, rest, tail);
    case Quotation(signs, rest) =>
      ReadQuotation(s, signs, Text(rest) + tail);
      QuotationText(signs, Text(rest), tail);
      ReadTree(s, rest, tail);
    case Group(kind, body, rest) =>
      ReadGroup(s, kind, Text(body), Text(rest) + tail);
      GroupText([Left(kind)], Text(body), [Right(kind)], Text(rest), tail);
      ReadTree(s.(stack := s.stack + [Right(kind)]), body, [Right(kind)] + (Text(rest) + tail));
      ReadTree(s, rest, tail);
  }

  lemma GroupText(left: string, body: string, right: string, rest: string, tail: string)
    ensures (left + body + right + rest) + tail == left + (body + (right + (rest + tail)))
  {
  }

  lemma QuotationText(signs: seq<Sign>, rest: string, tail: string)
    ensures (['"'] + SignText(signs) + ['"'] + rest) + tail == ['"'] + (SignText(signs) + (['"'] + (rest + tail)))
  {
    GroupText(['"'], SignText(signs), ['"'], rest, tail);
  }

  lemma ReadQuotation(s: Scan, signs: seq<Sign>, after: string)
    requires !s.quoted && !s.escaped && forall k :: 0 <= k < |signs| ==> ProperSign(signs[k])
    ensures Read(s, ['"'] + (SignText(signs) + (['"'] + after))) == Read(s, after)
  {
    ReadOne(s, '"', SignText(signs) + (['"'] + after));
    ReadSigns(s.(quoted := true), signs, after);
    assert s.(quoted := true).(quoted := false) == s;
  }

  /** The delimiters of a group open and close one level. */
  lemma ReadGroup(s: Scan, kind: Kind, body: string, after: string)
    requires !s.quoted && !s.escaped
    ensures var inner := s.(stack := s.stack + [Right(kind)]);
            && Read(s, [Left(kind)] + (body + ([Right(kind)] + after))) == Read(inner, body + ([Right(kind)] + after))
            && Read(inner, [Right(kind)] + after) == Read(s, after)
  {
    KindOpens(kind);
    var inner := s.(stack := s.stack + [Right(kind)]);
    assert inner.stack[..|inner.stack| - 1] == s.stack;
    ReadOne(s, Left(kind), body + ([Right(kind)] + after));
    ReadOne(inner, Right(kind), after);
  }

  // ---- what the scanner reads, the grammar writes ----

  lemma {:induction false} SignsOf(s: Scan, text: string) returns (signs: seq<Sign>, after: string)
    requires s.quoted && !s.escaped && Read(s, text) == Some(START)
    ensures forall k :: 0 <= k < |signs| ==> ProperSign(signs[k])
    ensures text == SignText(signs) + (['"'] + after) && Read(s.(quoted := false), after) == Some(START)
    decreases |text|
  {
    var c := text[0];
    assert text == [c] + text[1..];
    if c == '"' {
      signs, after := [], text[1..];
    } else if c == '\\' {
      var escaped := s.(escaped := true);
      assert Read(escaped, text[1..]) == Some(START);
      var d := text[1];
      assert text[1..] == [d] + text[2..] && text[1..][1..] == text[2..];
      var rest;
      rest, after := SignsOf(s, text[2..]);
      signs := [Escape(d)] + rest;
      assert signs[1..] == rest;
    } else {
      var rest;
      rest, after := SignsOf(s, text[1..]);
      signs := [Letter(c)] + rest;
      assert signs[1..] == rest;
    }
  }

  function KindOf(c: char): (k: Kind)
    requires Opens(c)
    ensures Left(k) == c && Right(k) == CloserOf(c)
  {
    match c
    case '(' => Round
    case '[' => Square
    case '{' => Curly
    case _ => Angle
  }

  /** The entry that is read from s up to the closer expected there, or to the end. */
  ghost predicate Parsed(s: Scan, text: string, t: Tree, rest: string) {
    && Proper(t, s.stack != [])
    && if s.stack == [] then text == Text(t) && rest == ""
       else
         && text == Text(t) + ([s.stack[|s.stack| - 1]] + rest)
         && Read(s.(stack := s.stack[..|s.stack| - 1]), rest) == Some(START)
  }

  lemma {:induction false} TreeOf(s: Scan, text: string) returns (t: Tree, rest: string)
    requires !s.quoted && !s.escaped && Read(s, text) == Some(START)
    ensures Parsed(s, text, t, rest)
    decreases |text|
  {
    if text == "" {
      t, rest := Nothing, "";
    } else {
      var c, tail := text[0], text[1..];
      assert text == [c] + tail;
      if c == '"' {
        var signs, after := SignsOf(s.(quoted := true), tail);
        assert s.(quoted := true).(quoted := false) == s;
        var more;
        more, rest := TreeOf(s, after);
        t := Quotation(signs, more);
        var quotation := ['"'] + SignText(signs) + ['"'];
        assert text == quotation + after;
        AfterPrefix(s, quotation, after, more, rest, t);
      } else if Opens(c) {
        t, rest := GroupOf(s, text);
      } else if Closes(c) {
        t, rest := Nothing, tail;
      } else {
        var more;
        more, rest := TreeOf(s, tail);
        t := Plain(c, more);
        AfterPrefix(s, [c], tail, more, rest, t);
      }
    }
  }

  /** What is written before an entry belongs to it. */
  lemma AfterPrefix(s: Scan, prefix: string, after: string, more: Tree, rest: string, t: Tree)
    requires Parsed(s, after, more, rest) && Proper(t, s.stack != []) && Text(t) == prefix + Text(more)
    ensures Parsed(s, prefix + after, t, rest)
  {
    if s.stack != [] {
      Associates(prefix, Text(more), [s.stack[|s.stack| - 1]] + rest);
    }
  }

  lemma {:induction false} GroupOf(s: Scan, text: string) returns (t: Tree, rest: string)
    requires !s.quoted && !s.escaped && Read(s, text) == Some(START) && text != "" && Opens(text[0])
    ensures Parsed(s, text, t, rest)
    decreases |text|, 0
  {
    var k := KindOf(text[0]);
    var inner := s.(stack := s.stack + [Right(k)]);
    var body, after := TreeOf(inner, text[1..]);
    assert inner.stack[..|inner.stack| - 1] == s.stack && s.(stack := s.stack) == s;
    GroupText([Left(k)], Text(body), [Right(k)], after, "");
    assert text == [Left(k)] + text[1..] && after + "" == after;
    var more;
    more, rest := TreeOf(s, after);
    t := Group(k, body, more);
    var group := [Left(k)] + Text(body) + [Right(k)];
    assert text == group + after;
    AfterPrefix(s, group, after, more, rest, t);
  }

  /** The scanner accepts a text as one entry exactly when the grammar writes it. */
  lemma BalancedIsWritten(text: string)
    ensures Balanced(text) <==> Written(text)
  {
    if Balanced(text) {
      var t, rest := TreeOf(START, text);
    }
    if t: Tree :| Proper(t, false) && Text(t) == text {
      ReadTree(START, t, "");
      assert Text(t) + "" == text;
    }
  }
}
