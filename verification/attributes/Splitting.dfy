/** Splitting attribute text at its top-level commas, and why splitting undoes joining. */
module AttributeSplitting {
  import opened Options
  import opened AttributeScanning

  // ---- joining ----

  /** Pieces separated by commas. */
  function Join(pieces: seq<string>): string
    requires pieces != []
  {
    if |pieces| == 1 then pieces[0] else pieces[0] + "," + Join(pieces[1..])
  }

  predicate AllBalanced(pieces: seq<string>) {
    forall i :: 0 <= i < |pieces| ==> Balanced(pieces[i])
  }

  // ---- cutting ----

  /** The pieces of a text between its top-level commas, the first one begun in state s. */
  function Cut(s: Scan, text: string): (r: Option<seq<string>>)
    ensures r.Some? ==> r.value != []
    decreases |text|
  {
    if text == "" then if s.quoted || s.stack != [] then None else Some([""])
    else if AtTop(s) && text[0] == ',' then
      match Cut(START, text[1..])
      case None => None
      case Some(rest) => Some([""] + rest)
    else
      match Advance(s, text[0])
      case None => None
      case Some(t) =>
        match Cut(t, text[1..])
        case None => None
        case Some(rest) => Some([[text[0]] + rest[0]] + rest[1..])
  }

  /** Text put before the first piece. */
  function Before(prefix: string, pieces: Option<seq<string>>): Option<seq<string>>
    requires pieces.Some? ==> pieces.value != []
  {
    match pieces
    case None => None
    case Some(ps) => Some([prefix + ps[0]] + ps[1..])
  }

  /** Text without a top-level comma goes into the first piece. */
  lemma {:induction false} CutBefore(s: Scan, prefix: string, rest: string)
    requires Read(s, prefix).Some?
    ensures Cut(s, prefix + rest) == Before(prefix, Cut(Read(s, prefix).value, rest))
    decreases |prefix|
  {
    if prefix == "" {
      assert prefix + rest == rest;
      var r := Cut(s, rest);
      if r.Some? {
        assert prefix + r.value[0] == r.value[0];
        assert [r.value[0]] + r.value[1..] == r.value;
      }
    } else {
      var t := Advance(s, prefix[0]).value;
      CutBefore(t, prefix[1..], rest);
      assert (prefix + rest)[1..] == prefix[1..] + rest;
      var r := Cut(Read(s, prefix).value, rest);
      if r.Some? {
        assert [prefix[0]] + (prefix[1..] + r.value[0]) == prefix + r.value[0];
      }
    }
  }

  /** Cutting a join gives back the pieces. */
  lemma {:induction false} CutJoin(pieces: seq<string>)
    requires pieces != [] && AllBalanced(pieces)
    ensures Cut(START, Join(pieces)) == Some(pieces)
    decreases |pieces|
  {
    if |pieces| == 1 {
      CutBefore(START, pieces[0], "");
      assert pieces[0] + "" == pieces[0];
      assert Cut(START, "") == Some([""]);
      assert [pieces[0] + ""] + [""][1..] == pieces;
    } else {
      CutJoin(pieces[1..]);
      CutBefore(START, pieces[0], "," + Join(pieces[1..]));
      assert ("," + Join(pieces[1..]))[1..] == Join(pieces[1..]);
      assert Join(pieces) == pieces[0] + ("," + Join(pieces[1..]));
      assert Cut(START, "," + Join(pieces[1..])) == Some([""] + pieces[1..]);
      assert pieces[0] + "" == pieces[0];
      assert [pieces[0]] + pieces[1..] == pieces;
    }
  }

  /** What is cut joins to the text again, and every piece is balanced. */
  lemma {:induction false} CutSound(s: Scan, text: string)
    requires Regular(s) && Cut(s, text).Some?
    ensures var ps := Cut(s, text).value;
            Join(ps) == text && Read(s, ps[0]) == Some(START) && forall i :: 1 <= i < |ps| ==> Balanced(ps[i])
    decreases |text|
  {
    if text == "" {
      assert s == START;
    } else if AtTop(s) && text[0] == ',' {
      CutSound(START, text[1..]);
      var rest := Cut(START, text[1..]).value;
      assert ([""] + rest)[1..] == rest;
      assert text == "," + text[1..];
      assert s == START;
    } else {
      var t := Advance(s, text[0]).value;
      AdvanceRegular(s, text[0]);
      CutSound(t, text[1..]);
      var rest := Cut(t, text[1..]).value;
      var ps := Cut(s, text).value;
      JoinFirst(text[0], rest);
      assert ps[0][0] == text[0] && ps[0][1..] == rest[0];
      assert text == [text[0]] + text[1..];
    }
  }

  lemma JoinFirst(c: char, ps: seq<string>)
    requires ps != []
    ensures Join([[c] + ps[0]] + ps[1..]) == [c] + Join(ps)
  {
    var qs := [[c] + ps[0]] + ps[1..];
    if |ps| > 1 {
      assert qs[1..] == ps[1..];
    }
  }

  // ---- entries ----

  /** Python's str.strip, for any notion of white space. */
  function StripLeft(space: char -> bool, s: string): string {
    if s != "" && space(s[0]) then StripLeft(space, s[1..]) else s
  }

  function StripRight(space: char -> bool, s: string): string {
    if s != "" && space(s[|s| - 1]) then StripRight(space, s[..|s| - 1]) else s
  }

  function Strip(space: char -> bool, s: string): string {
    StripRight(space, StripLeft(space, s))
  }

  predicate Blank(space: char -> bool, s: string) {
    forall i :: 0 <= i < |s| ==> space(s[i])
  }

  /** Nonempty, and neither beginning nor ending with white space. */
  predicate Trimmed(space: char -> bool, s: string) {
    s != "" && !space(s[0]) && !space(s[|s| - 1])
  }

  lemma {:induction false} StripLeftPadded(space: char -> bool, left: string, s: string, right: string)
    requires Blank(space, left) && Trimmed(space, s)
    ensures StripLeft(space, left + s + right) == s + right
    decreases |left|
  {
    if left == "" {
      assert left + s + right == s + right;
      assert (s + right)[0] == s[0];
    } else {
      assert (left + s + right)[1..] == left[1..] + s + right;
      StripLeftPadded(space, left[1..], s, right);
    }
  }

  lemma {:induction false} StripRightPadded(space: char -> bool, s: string, right: string)
    requires Blank(space, right) && Trimmed(space, s)
    ensures StripRight(space, s + right) == s
    decreases |right|
  {
    if right == "" {
      assert s + right == s;
    } else {
      assert (s + right)[..|s + right| - 1] == s + right[..|right| - 1];
      StripRightPadded(space, s, right[..|right| - 1]);
    }
  }

  /** Stripping removes any white space around a trimmed entry, and nothing else. */
  lemma StripPadded(space: char -> bool, left: string, s: string, right: string)
    requires Blank(space, left) && Blank(space, right) && Trimmed(space, s)
    ensures Strip(space, left + s + right) == s
  {
    StripLeftPadded(space, left, s, right);
    StripRightPadded(space, s, right);
  }

  function StripAll(space: char -> bool, pieces: seq<string>): (r: seq<string>)
    ensures |r| == |pieces| && forall i :: 0 <= i < |r| ==> r[i] == Strip(space, pieces[i])
  {
    if pieces == [] then [] else StripAll(space, pieces[..|pieces| - 1]) + [Strip(space, pieces[|pieces| - 1])]
  }

  datatype SplitError = Mismatched | Unterminated | TrailingComma

  datatype Entries = Split(entries: seq<string>) | Malformed(error: SplitError)

  /** The text is a join of balanced pieces; their stripped forms are the entries. A text of white space
      alone has no entries, and otherwise the last piece must not be blank. */
  ghost predicate SplitsInto(space: char -> bool, text: string, entries: seq<string>) {
    exists pieces {:trigger Join(pieces)} :: pieces != [] && SplitBy(space, text, entries, pieces)
  }

  predicate SplitBy(space: char -> bool, text: string, entries: seq<string>, pieces: seq<string>)
    requires pieces != []
  {
    && text == Join(pieces) && AllBalanced(pieces)
    && var last := Strip(space, pieces[|pieces| - 1]);
       if last == "" then |pieces| == 1 && entries == [] else entries == StripAll(space, pieces)
  }

  // ---- the loop ----

  /** The pieces of the whole text, from those finished, the piece begun, and what follows. */
  function Whole(finished: seq<string>, begun: string, s: Scan, rest: string): Option<seq<string>> {
    match Cut(s, rest)
    case None => None
    case Some(ps) => Some(finished + [begun + ps[0]] + ps[1..])
  }

  lemma WholeComma(finished: seq<string>, begun: string, s: Scan, rest: string)
    requires rest != "" && AtTop(s) && rest[0] == ','
    ensures Whole(finished, begun, s, rest) == Whole(finished + [begun], "", START, rest[1..])
  {
    var r := Cut(START, rest[1..]);
    if r.Some? {
      var ps := [""] + r.value;
      assert begun + "" == begun;
      assert "" + r.value[0] == r.value[0];
      assert finished + [begun + ps[0]] + ps[1..] == finished + [begun] + ["" + r.value[0]] + r.value[1..];
    }
  }

  lemma WholeMore(finished: seq<string>, begun: string, s: Scan, rest: string)
    requires rest != "" && !(AtTop(s) && rest[0] == ',')
    ensures Advance(s, rest[0]).None? ==> Whole(finished, begun, s, rest).None?
    ensures Advance(s, rest[0]).Some? ==>
              Whole(finished, begun, s, rest) == Whole(finished, begun + [rest[0]], Advance(s, rest[0]).value, rest[1..])
  {
    if Advance(s, rest[0]).Some? {
      var r := Cut(Advance(s, rest[0]).value, rest[1..]);
      if r.Some? {
        assert begun + ([rest[0]] + r.value[0]) == begun + [rest[0]] + r.value[0];
      }
    }
  }

  /** Where the loop stands before character `index`. */
  ghost predicate Standing(text: string, pieces: seq<string>, start: nat, index: nat, s: Scan) {
    start <= index <= |text| && Whole(pieces, text[start..index], s, text[index..]) == Cut(START, text)
  }

  lemma StandingComma(text: string, pieces: seq<string>, start: nat, index: nat, s: Scan)
    requires index < |text| && Standing(text, pieces, start, index, s) && AtTop(s) && text[index] == ','
    ensures Standing(text, pieces + [text[start..index]], index + 1, index + 1, START)
  {
    WholeComma(pieces, text[start..index], s, text[index..]);
    assert text[index..][1..] == text[index + 1..];
    assert text[index + 1..index + 1] == "";
  }

  lemma StandingMore(text: string, pieces: seq<string>, start: nat, index: nat, s: Scan)
    requires index < |text| && Standing(text, pieces, start, index, s) && !(AtTop(s) && text[index] == ',')
    ensures Advance(s, text[index]).None? ==> Cut(START, text).None?
    ensures Advance(s, text[index]).Some? ==> Standing(text, pieces, start, index + 1, Advance(s, text[index]).value)
  {
    WholeMore(pieces, text[start..index], s, text[index..]);
    assert text[index..][1..] == text[index + 1..];
    assert text[start..index] + [text[index]] == text[start..index + 1];
  }

  lemma StandingEnd(text: string, pieces: seq<string>, start: nat, s: Scan)
    requires Standing(text, pieces, start, |text|, s)
    ensures s.quoted || s.stack != [] ==> Cut(START, text).None?
    ensures !s.quoted && s.stack == [] ==> Cut(START, text) == Some(pieces + [text[start..]])
  {
    assert text[|text|..] == "" && text[start..|text|] == text[start..];
    assert text[start..] + "" == text[start..];
    assert [""][1..] == [];
    assert pieces + [text[start..]] + [] == pieces + [text[start..]];
  }

  lemma StripMore(space: char -> bool, pieces: seq<string>, piece: string)
    ensures StripAll(space, pieces + [piece]) == StripAll(space, pieces) + [Strip(space, piece)]
  {
    assert (pieces + [piece])[..|pieces|] == pieces;
  }

  /** The loop over the characters, with the pieces kept beside the entries made of them. */
  method CutText(space: char -> bool, text: string) returns (error: Option<SplitError>, entries: seq<string>, start: nat, ghost pieces: seq<string>)
    ensures error.Some? ==> Cut(START, text).None? && error.value != TrailingComma
    ensures error.None? ==> start <= |text| && Cut(START, text) == Some(pieces + [text[start..]]) && entries == StripAll(space, pieces)
  {
    entries, start, pieces := [], 0, [];
    var s := START;
    assert text[0..0] == "" && text[0..] == text;
    WholeStart(text);
    for index := 0 to |text|
      invariant Standing(text, pieces, start, index, s) && entries == StripAll(space, pieces)
    {
      var character := text[index];
      if AtTop(s) && character == ',' {
        StandingComma(text, pieces, start, index, s);
        StripMore(space, pieces, text[start..index]);
        entries := entries + [Strip(space, text[start..index])];
        pieces := pieces + [text[start..index]];
        start, s := index + 1, START;
      } else {
        StandingMore(text, pieces, start, index, s);
        match Advance(s, character) {
          case None => return Some(Mismatched), entries, start, pieces;
          case Some(next) => s := next;
        }
      }
    }
    StandingEnd(text, pieces, start, s);
    if s.quoted || s.stack != [] {
      return Some(Unterminated), entries, start, pieces;
    }
    return None, entries, start, pieces;
  }

  lemma WholeStart(text: string)
    ensures Whole([], "", START, text) == Cut(START, text)
  {
    var r := Cut(START, text);
    if r.Some? {
      assert "" + r.value[0] == r.value[0];
      assert [] + ["" + r.value[0]] + r.value[1..] == r.value;
    }
  }

  /** There is one way to cut a text. */
  lemma OnlyCut(space: char -> bool, text: string, entries: seq<string>)
    requires SplitsInto(space, text, entries)
    ensures Cut(START, text).Some? && SplitBy(space, text, entries, Cut(START, text).value)
  {
    var pieces: seq<string> :| pieces != [] && SplitBy(space, text, entries, pieces);
    assert SplitBy(space, text, entries, pieces);
    assert text == Join(pieces);
    assert AllBalanced(pieces);
    CutJoin(pieces);
  }

  lemma CutSplits(space: char -> bool, text: string, entries: seq<string>)
    requires Cut(START, text).Some? && SplitBy(space, text, entries, Cut(START, text).value)
    ensures SplitsInto(space, text, entries)
  {
    var pieces := Cut(START, text).value;
    assert text == Join(pieces);
  }

  lemma NoCutNoSplit(space: char -> bool, text: string)
    requires Cut(START, text).None?
    ensures forall entries :: !SplitsInto(space, text, entries)
  {
    forall entries ensures !SplitsInto(space, text, entries) {
      if SplitsInto(space, text, entries) { OnlyCut(space, text, entries); }
    }
  }

  /** A blank last piece after others: a trailing comma. */
  lemma TrailingNoSplit(space: char -> bool, text: string, pieces: seq<string>, last: string)
    requires Cut(START, text) == Some(pieces + [last]) && pieces != [] && Strip(space, last) == ""
    ensures forall entries :: !SplitsInto(space, text, entries)
  {
    forall entries ensures !SplitsInto(space, text, entries) {
      if SplitsInto(space, text, entries) { OnlyCut(space, text, entries); }
    }
  }

  lemma LastPieceSplits(space: char -> bool, text: string, pieces: seq<string>, last: string)
    requires Cut(START, text) == Some(pieces + [last]) && (Strip(space, last) != "" || pieces == [])
    ensures SplitsInto(space, text, if Strip(space, last) == "" then [] else StripAll(space, pieces) + [Strip(space, last)])
  {
    CutSound(START, text);
    StripMore(space, pieces, last);
    AllOfCut(text);
    CutSplits(space, text, if Strip(space, last) == "" then [] else StripAll(space, pieces) + [Strip(space, last)]);
  }

  lemma AllOfCut(text: string)
    requires Cut(START, text).Some?
    ensures AllBalanced(Cut(START, text).value) && Join(Cut(START, text).value) == text
  {
    CutSound(START, text);
  }

  /** Splits a text exactly when it is such a join, into the entries of the join. */
  method SplitTopLevel(space: char -> bool, text: string) returns (r: Entries)
    ensures r.Split? ==> SplitsInto(space, text, r.entries)
    ensures r.Malformed? ==> forall entries :: !SplitsInto(space, text, entries)
    ensures r.Malformed? && r.error == TrailingComma ==> Cut(START, text).Some?
  {
    var error, entries, start;
    ghost var pieces;
    error, entries, start, pieces := CutText(space, text);
    match error {
      case Some(e) =>
        NoCutNoSplit(space, text);
        return Malformed(e);
      case None =>
    }
    var last := Strip(space, text[start..]);
    if last != "" {
      LastPieceSplits(space, text, pieces, text[start..]);
      return Split(entries + [last]);
    }
    if entries != [] {
      TrailingNoSplit(space, text, pieces, text[start..]);
      return Malformed(TrailingComma);
    }
    LastPieceSplits(space, text, pieces, text[start..]);
    return Split([]);
  }

  /** Splitting undoes joining: trimmed, balanced entries without top-level commas come back exactly, and
      the join has no other reading. */
  lemma SplitUndoesJoin(space: char -> bool, entries: seq<string>)
    requires entries != [] && AllBalanced(entries) && forall i :: 0 <= i < |entries| ==> Trimmed(space, entries[i])
    ensures SplitsInto(space, Join(entries), entries)
    ensures forall other :: SplitsInto(space, Join(entries), other) ==> other == entries
  {
    forall i | 0 <= i < |entries| ensures Strip(space, entries[i]) == entries[i] {
      StripIsPadded(space, entries[i], entries[i], 0);
    }
    SplitUndoesPaddedJoin(space, entries, entries);
  }

  predicate IsPadded(space: char -> bool, piece: string, entry: string, left: nat)
  {
    left + |entry| <= |piece| && Blank(space, piece[..left]) && piece[left..left + |entry|] == entry && Blank(space, piece[left + |entry|..])
  }

  lemma StripIsPadded(space: char -> bool, piece: string, entry: string, left: nat)
    requires IsPadded(space, piece, entry, left) && Trimmed(space, entry)
    ensures Strip(space, piece) == entry
  {
    StripPadded(space, piece[..left], entry, piece[left + |entry|..]);
    assert piece[..left] + entry + piece[left + |entry|..] == piece;
  }

  /** The entries are the pieces without the white space around them. */
  predicate ArePadded(space: char -> bool, pieces: seq<string>, entries: seq<string>) {
    |pieces| == |entries| && forall i :: 0 <= i < |pieces| ==> Trimmed(space, entries[i]) && Strip(space, pieces[i]) == entries[i]
  }

  /** White space around the entries does not matter. */
  lemma SplitUndoesPaddedJoin(space: char -> bool, pieces: seq<string>, entries: seq<string>)
    requires pieces != [] && AllBalanced(pieces) && ArePadded(space, pieces, entries)
    ensures SplitsInto(space, Join(pieces), entries)
    ensures forall other :: SplitsInto(space, Join(pieces), other) ==> other == entries
  {
    assert StripAll(space, pieces) == entries;
    CutJoin(pieces);
    CutSplits(space, Join(pieces), entries);
    forall other | SplitsInto(space, Join(pieces), other) ensures other == entries {
      OnlyCut(space, Join(pieces), other);
    }
  }
}
