/** The order in which components are reported. */
module ComponentListing {
  import opened LexicographicOrder
  import opened SortedSets

  /** Longer components first, equally long ones as their lists compare. */
  predicate Precedes(a: seq<int>, b: seq<int>) {
    |a| > |b| || (|a| == |b| && Lexicographic(a, b))
  }

  lemma PrecedesTrans(a: seq<int>, b: seq<int>, c: seq<int>)
    requires Precedes(a, b) && Precedes(b, c)
    ensures Precedes(a, c)
  {
    if |a| == |b| == |c| {
      LexicographicTrans(a, b, c);
    }
  }

  predicate Listed(r: seq<seq<int>>) {
    forall i, j :: 0 <= i < j < |r| ==> Precedes(r[i], r[j])
  }

  predicate Disjoint(r: seq<seq<int>>) {
    forall i, j :: 0 <= i < j < |r| ==> Elements(r[i]) !! Elements(r[j])
  }

  /** Nonempty and sharing no node with any list of r. */
  predicate Apart(r: seq<seq<int>>, c: seq<int>) {
    c != [] && forall i :: 0 <= i < |r| ==> r[i] != [] && Elements(c) !! Elements(r[i])
  }

  lemma PrecedesTotal(a: seq<int>, b: seq<int>)
    requires a != [] && b != [] && Elements(a) !! Elements(b)
    ensures Precedes(a, b) || Precedes(b, a)
  {
    assert a[0] in Elements(a) && b[0] in Elements(b);
  }

  function Inserted(r: seq<seq<int>>, c: seq<int>, p: nat): seq<seq<int>>
    requires p <= |r|
  {
    r[..p] + [c] + r[p..]
  }

  lemma InsertedMembers(r: seq<seq<int>>, c: seq<int>, p: nat)
    requires p <= |r|
    ensures forall d :: d in Inserted(r, c, p) <==> d in r || d == c
  {
    assert r == r[..p] + r[p..];
  }

  lemma InsertedListed(r: seq<seq<int>>, c: seq<int>, p: nat)
    requires p <= |r| && Listed(r)
    requires forall i :: 0 <= i < p ==> Precedes(r[i], c)
    requires p < |r| ==> Precedes(c, r[p])
    ensures Listed(Inserted(r, c, p))
  {
    var s := Inserted(r, c, p);
    forall i, j | 0 <= i < j < |s| ensures Precedes(s[i], s[j]) {
      if i == p && j > p + 1 {
        PrecedesTrans(c, r[p], s[j]);
      }
    }
  }

  lemma InsertedDisjoint(r: seq<seq<int>>, c: seq<int>, p: nat)
    requires p <= |r| && Disjoint(r) && Apart(r, c)
    ensures Disjoint(Inserted(r, c, p))
  {
    var s := Inserted(r, c, p);
    forall i, j | 0 <= i < j < |s| ensures Elements(s[i]) !! Elements(s[j]) {
      if i < p { assert s[i] == r[i]; }
      if i > p { assert s[i] == r[i - 1]; }
      if j < p { assert s[j] == r[j]; }
      if j > p { assert s[j] == r[j - 1]; }
    }
  }

  /** Puts c where it belongs in a listing. */
  method Place(r: seq<seq<int>>, c: seq<int>) returns (s: seq<seq<int>>)
    requires Listed(r) && Disjoint(r) && Apart(r, c)
    ensures Listed(s) && Disjoint(s)
    ensures forall d :: d in s <==> d in r || d == c
  {
    var p := 0;
    while p < |r| && !Precedes(c, r[p])
      invariant 0 <= p <= |r|
      invariant forall i :: 0 <= i < p ==> Precedes(r[i], c)
    {
      PrecedesTotal(r[p], c);
      p := p + 1;
    }
    s := Inserted(r, c, p);
    InsertedMembers(r, c, p);
    InsertedListed(r, c, p);
    InsertedDisjoint(r, c, p);
  }
}
