/** Finding the closer of an opened body, and why a balanced body returns its own. */
module AttributeMatching {

  /** Depth of one kind of delimiter, and whether inside a quotation or after a backslash. */
  datatype Nest = Nest(depth: int, quoted: bool, escaped: bool)

  const OUTSIDE := Nest(0, false, false)

  function Next(n: Nest, c: char, opener: char, closer: char): Nest {
    if n.quoted then
      if n.escaped then n.(escaped := false)
      else if c == '\\' then n.(escaped := true)
      else if c == '"' then n.(quoted := false)
      else n
    else if c == '"' then n.(quoted := true)
    else if c == opener then n.(depth := n.depth + 1)
    else if c == closer then n.(depth := n.depth - 1)
    else n
  }

  /** The state after a text. */
  function After(n: Nest, text: string, opener: char, closer: char): Nest {
    if text == "" then n else Next(After(n, text[..|text| - 1], opener, closer), text[|text| - 1], opener, closer)
  }

  /** The depth after the first k characters from `start`. */
  function DepthAt(text: string, start: nat, k: nat, opener: char, closer: char): int
    requires start + k <= |text|
  {
    After(OUTSIDE, text[start..start + k], opener, closer).depth
  }

  /** The first place from `start` on where the depth comes back to zero lies at `end`. */
  predicate ClosesAt(text: string, start: nat, end: nat, opener: char, closer: char) {
    && start < end < |text| && DepthAt(text, start, end - start + 1, opener, closer) == 0
    && forall k :: 1 <= k <= end - start ==> DepthAt(text, start, k, opener, closer) > 0
  }

  datatype MatchResult = Found(end: nat) | NotOpened | NotClosed

  method MatchingEnd(text: string, start: nat, opener: char, closer: char) returns (r: MatchResult)
    requires opener != closer && opener != '"' && closer != '"'
    ensures r.NotOpened? <==> start >= |text| || text[start] != opener
    ensures r.Found? ==> ClosesAt(text, start, r.end, opener, closer)
    ensures r.Found? ==> forall end: nat :: ClosesAt(text, start, end, opener, closer) ==> end == r.end
    ensures r.NotClosed? ==> forall end :: !ClosesAt(text, start, end, opener, closer)
  {
    if start >= |text| || text[start] != opener { return NotOpened; }
    var n := OUTSIDE;
    assert text[start..start] == "";
    for index := start to |text|
      invariant n == After(OUTSIDE, text[start..index], opener, closer)
      invariant forall k :: 1 <= k <= index - start ==> DepthAt(text, start, k, opener, closer) > 0
    {
      OneMore(text, start, index, opener, closer);
      var character := text[index];
      var before := n;
      n := Next(n, character, opener, closer);
      if index == start {
        assert n.depth == 1;
      }
      if !before.quoted && character == closer && n.depth == 0 {
        forall end: nat | ClosesAt(text, start, end, opener, closer) ensures end == index {
          OneCloser(text, start, index, end, opener, closer);
        }
        return Found(index);
      }
      StaysOpen(before, character, opener, closer);
      assert index > start ==> DepthAt(text, start, index - start, opener, closer) > 0;
      assert DepthAt(text, start, index - start + 1, opener, closer) == n.depth;
    }
    return NotClosed;
  }

  lemma OneMore(text: string, start: nat, index: nat, opener: char, closer: char)
    requires start <= index < |text|
    ensures After(OUTSIDE, text[start..index + 1], opener, closer) == Next(After(OUTSIDE, text[start..index], opener, closer), text[index], opener, closer)
  {
    assert text[start..index + 1][..index - start] == text[start..index];
  }

  /** The depth falls only at an unquoted closer. */
  lemma StaysOpen(n: Nest, c: char, opener: char, closer: char)
    ensures n.quoted || c != closer || Next(n, c, opener, closer).depth != 0 ==> n.depth > 0 ==> Next(n, c, opener, closer).depth > 0
  {
  }

  // ---- bodies ----

  /** A body that opens and closes on its own, outside quotations at its end. */
  predicate SelfContained(body: string, opener: char, closer: char) {
    && After(OUTSIDE, body, opener, closer) == OUTSIDE
    && forall k :: 0 <= k <= |body| ==> After(OUTSIDE, body[..k], opener, closer).depth >= 0
  }

  lemma {:induction false} Deeper(body: string, k: nat, opener: char, closer: char)
    requires k <= |body| && opener != '"'
    ensures After(OUTSIDE, [opener] + body[..k], opener, closer)
         == After(OUTSIDE, body[..k], opener, closer).(depth := After(OUTSIDE, body[..k], opener, closer).depth + 1)
    decreases k
  {
    if k == 0 {
      assert [opener] + body[..0] == [opener];
      assert [opener][..0] == "";
    } else {
      Deeper(body, k - 1, opener, closer);
      assert body[..k][..k - 1] == body[..k - 1];
      assert ([opener] + body[..k])[..k] == [opener] + body[..k - 1];
    }
  }

  /** Around such a body the closer found is its own, whatever stands before and behind. */
  lemma OwnCloser(left: string, body: string, right: string, opener: char, closer: char)
    requires opener != closer && opener != '"' && closer != '"' && SelfContained(body, opener, closer)
    ensures ClosesAt(left + [opener] + body + [closer] + right, |left|, |left| + 1 + |body|, opener, closer)
  {
    var text := left + [opener] + body + [closer] + right;
    var n := |body|;
    forall k | 1 <= k <= n + 1 ensures DepthAt(text, |left|, k, opener, closer) > 0 {
      Deeper(body, k - 1, opener, closer);
      assert text[|left|..|left| + k] == [opener] + body[..k - 1];
    }
    Deeper(body, n, opener, closer);
    assert body[..n] == body;
    assert text[|left|..|left| + n + 2] == [opener] + body + [closer];
    assert ([opener] + body + [closer])[..n + 1] == [opener] + body;
  }

  lemma OpenBefore(text: string, start: nat, end: nat, k: int, opener: char, closer: char)
    requires ClosesAt(text, start, end, opener, closer) && 1 <= k <= end - start
    ensures DepthAt(text, start, k, opener, closer) > 0
  {
  }

  /** There is one such place. */
  lemma OneCloser(text: string, start: nat, end: nat, other: nat, opener: char, closer: char)
    requires ClosesAt(text, start, end, opener, closer) && ClosesAt(text, start, other, opener, closer)
    ensures end == other
  {
    if end < other {
      OpenBefore(text, start, other, end - start + 1, opener, closer);
    } else if other < end {
      OpenBefore(text, start, end, other - start + 1, opener, closer);
    }
  }
}
