/** Attribute bodies: a body that splits is a body whose closer is found, so that an attribute written as
    a delimited join of entries is read back. */
module AttributeBodies {
  import opened Options
  import opened AttributeScanning
  import opened AttributeSplitting
  import opened AttributeMatching

  /** The scan after a whole text, top-level commas included. */
  function Through(s: Scan, text: string): Option<Scan>
    decreases |text|
  {
    if text == "" then Some(s)
    else
      match Through(s, text[..|text| - 1])
      case None => None
      case Some(t) => Advance(t, text[|text| - 1])
  }

  function Then(s: Option<Scan>, text: string): Option<Scan> {
    match s
    case None => None
    case Some(t) => Through(t, text)
  }

  lemma {:induction false} ThroughFirst(s: Scan, text: string)
    requires text != ""
    ensures Through(s, text) == Then(Advance(s, text[0]), text[1..])
    decreases |text|
  {
    var n := |text| - 1;
    if n == 0 {
      assert text[..0] == "" && text[1..] == "";
    } else {
      ThroughFirst(s, text[..n]);
      assert text[..n][1..] == text[1..][..n - 1];
    }
  }

  /** A text that can be cut is read through to the end without a mismatch, back to the start state. */
  lemma {:induction false} CutIsThrough(s: Scan, text: string)
    requires Regular(s) && Cut(s, text).Some?
    ensures Through(s, text) == Some(START)
    decreases |text|
  {
    if text == "" {
      assert s == START;
    } else {
      ThroughFirst(s, text);
      if AtTop(s) && text[0] == ',' {
        assert s == START;
        CutIsThrough(START, text[1..]);
      } else {
        AdvanceRegular(s, text[0]);
        CutIsThrough(Advance(s, text[0]).value, text[1..]);
      }
    }
  }

  function Occurrences(stack: seq<char>, c: char): nat {
    if stack == [] then 0 else Occurrences(stack[..|stack| - 1], c) + if stack[|stack| - 1] == c then 1 else 0
  }

  /** The depth counts the closers of one kind still expected. */
  ghost predicate Agrees(s: Scan, n: Nest, closer: char) {
    n.quoted == s.quoted && n.escaped == s.escaped && n.depth == Occurrences(s.stack, closer)
  }

  lemma StepAgrees(s: Scan, n: Nest, c: char, opener: char)
    requires Opens(opener) && Agrees(s, n, CloserOf(opener)) && Advance(s, c).Some?
    ensures Agrees(Advance(s, c).value, Next(n, c, opener, CloserOf(opener)), CloserOf(opener))
  {
    if !s.quoted && Opens(c) {
      assert (s.stack + [CloserOf(c)])[..|s.stack|] == s.stack;
    }
  }

  lemma {:induction false} TextAgrees(text: string, opener: char)
    requires Opens(opener) && Through(START, text).Some?
    ensures Agrees(Through(START, text).value, After(OUTSIDE, text, opener, CloserOf(opener)), CloserOf(opener))
    decreases |text|
  {
    if text != "" {
      var init := text[..|text| - 1];
      TextAgrees(init, opener);
      StepAgrees(Through(START, init).value, After(OUTSIDE, init, opener, CloserOf(opener)), text[|text| - 1], opener);
    }
  }

  lemma {:induction false} PrefixThrough(text: string, k: nat)
    requires Through(START, text).Some? && k <= |text|
    ensures Through(START, text[..k]).Some?
    decreases |text|
  {
    if k == |text| {
      assert text[..k] == text;
    } else {
      PrefixThrough(text[..|text| - 1], k);
      assert text[..|text| - 1][..k] == text[..k];
    }
  }

  /** A text that can be split is self-contained for every kind of delimiter. */
  lemma CutIsSelfContained(text: string, opener: char)
    requires Cut(START, text).Some? && Opens(opener)
    ensures SelfContained(text, opener, CloserOf(opener))
  {
    CutIsThrough(START, text);
    TextAgrees(text, opener);
    forall k | 0 <= k <= |text| ensures After(OUTSIDE, text[..k], opener, CloserOf(opener)).depth >= 0 {
      PrefixThrough(text, k);
      TextAgrees(text[..k], opener);
    }
  }

  /** Entries joined by commas and put between delimiters: the closer that was put there closes the body,
      and no other place does, whatever surrounds the attribute, and the text between splits into the
      entries. */
  lemma AttributeRoundTrip(space: char -> bool, entries: seq<string>, opener: char, left: string, right: string)
    requires entries != [] && AllBalanced(entries) && Opens(opener) && forall i :: 0 <= i < |entries| ==> Trimmed(space, entries[i])
    ensures var body := Join(entries); var text := left + [opener] + body + [CloserOf(opener)] + right; var end := |left| + 1 + |body|;
            && ClosesAt(text, |left|, end, opener, CloserOf(opener)) && text[|left| + 1..end] == body
            && (forall other: nat :: ClosesAt(text, |left|, other, opener, CloserOf(opener)) ==> other == end)
            && SplitsInto(space, body, entries) && forall other :: SplitsInto(space, body, other) ==> other == entries
  {
    CutJoin(entries);
    CutIsSelfContained(Join(entries), opener);
    OwnCloser(left, Join(entries), right, opener, CloserOf(opener));
    SplitUndoesJoin(space, entries);
    var text := left + [opener] + Join(entries) + [CloserOf(opener)] + right;
    forall other: nat | ClosesAt(text, |left|, other, opener, CloserOf(opener)) ensures other == |left| + 1 + |Join(entries)| {
      OneCloser(text, |left|, |left| + 1 + |Join(entries)|, other, opener, CloserOf(opener));
    }
  }
}
