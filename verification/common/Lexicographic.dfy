/** The order of lists and tuples of integers. */
module LexicographicOrder {

  /** How lists compare. */
  predicate Lexicographic(a: seq<int>, b: seq<int>) {
    b != [] && (a == [] || a[0] < b[0] || (a[0] == b[0] && Lexicographic(a[1..], b[1..])))
  }

  /** The lists agree before place k, where a ends first or has the lesser number. */
  ghost predicate DiffersAt(a: seq<int>, b: seq<int>, k: nat) {
    k <= |a| && k < |b| && a[..k] == b[..k] && (k == |a| || a[k] < b[k])
  }

  /** The first difference decides. */
  lemma {:induction false} FirstDifferenceDecides(a: seq<int>, b: seq<int>)
    ensures Lexicographic(a, b) <==> exists k: nat :: DiffersAt(a, b, k)
    decreases |a|
  {
    if Lexicographic(a, b) {
      var k := FirstDifference(a, b);
    }
    if k: nat :| DiffersAt(a, b, k) {
      DifferenceDecides(a, b, k);
    }
  }

  lemma {:induction false} FirstDifference(a: seq<int>, b: seq<int>) returns (k: nat)
    requires Lexicographic(a, b)
    ensures DiffersAt(a, b, k)
    decreases |a|
  {
    if a == [] || a[0] < b[0] {
      k := 0;
    } else {
      var l := FirstDifference(a[1..], b[1..]);
      k := l + 1;
      assert a[..k] == [a[0]] + a[1..][..l] && b[..k] == [b[0]] + b[1..][..l];
    }
  }

  lemma {:induction false} DifferenceDecides(a: seq<int>, b: seq<int>, k: nat)
    requires DiffersAt(a, b, k)
    ensures Lexicographic(a, b)
    decreases k
  {
    if k > 0 {
      assert a[0] == a[..k][0] == b[..k][0] == b[0];
      assert a[1..][..k - 1] == a[..k][1..] && b[1..][..k - 1] == b[..k][1..];
      DifferenceDecides(a[1..], b[1..], k - 1);
    }
  }

  lemma {:induction false} LexicographicTrans(a: seq<int>, b: seq<int>, c: seq<int>)
    requires Lexicographic(a, b) && Lexicographic(b, c)
    ensures Lexicographic(a, c)
    decreases |a|
  {
    if a != [] && a[0] == b[0] == c[0] {
      LexicographicTrans(a[1..], b[1..], c[1..]);
    }
  }

  lemma {:induction false} LexicographicIrreflexive(a: seq<int>)
    ensures !Lexicographic(a, a)
    decreases |a|
  {
    if a != [] {
      LexicographicIrreflexive(a[1..]);
    }
  }

  lemma {:induction false} LexicographicTotal(a: seq<int>, b: seq<int>)
    requires |a| == |b| && a != b
    ensures Lexicographic(a, b) || Lexicographic(b, a)
    decreases |a|
  {
    assert a == [a[0]] + a[1..] && b == [b[0]] + b[1..];
    if a[0] == b[0] {
      LexicographicTotal(a[1..], b[1..]);
    }
  }
}
