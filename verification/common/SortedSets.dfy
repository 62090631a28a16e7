/** Finite sets of integers and the increasing lists of their elements. */
module SortedSets {

  function Elements(s: seq<int>): set<int> {
    set u | u in s
  }

  lemma Member<T>(s: set<T>) returns (u: T)
    requires s != {}
    ensures u in s
  {
    u :| u in s;
  }

  /** Strictly increasing, hence without repetition. */
  predicate Increasing(s: seq<int>) {
    forall i, j :: 0 <= i < j < |s| ==> s[i] < s[j]
  }

  lemma {:induction false} DistinctSize(s: seq<int>)
    requires forall i, j :: 0 <= i < j < |s| ==> s[i] != s[j]
    ensures |Elements(s)| == |s|
    decreases |s|
  {
    if s == [] {
      assert Elements(s) == {};
    } else {
      var t := s[..|s| - 1];
      DistinctSize(t);
      assert Elements(s) == Elements(t) + {s[|s| - 1]};
    }
  }

  lemma IncreasingSize(s: seq<int>)
    requires Increasing(s)
    ensures |Elements(s)| == |s|
  {
    DistinctSize(s);
  }

  /** Any element. */
  method Pick<T>(s: set<T>) returns (x: T)
    requires s != {}
    ensures x in s
  {
    x :| x in s;
  }

  method Minimum(nodes: set<int>) returns (least: int)
    requires nodes != {}
    ensures least in nodes && forall v :: v in nodes ==> least <= v
  {
    ghost var some := Member(nodes);
    least :| least in nodes;
    var others := nodes - {least};
    while others != {}
      invariant least in nodes && others <= nodes
      invariant forall v :: v in nodes && v !in others ==> least <= v
      decreases others
    {
      ghost var other := Member(others);
      var v :| v in others;
      if v < least { least := v; }
      others := others - {v};
    }
  }

  /** The nodes of a set in increasing order. */
  method Sorted(nodes: set<int>) returns (r: seq<int>)
    ensures Increasing(r) && Elements(r) == nodes
  {
    r := [];
    var rest := nodes;
    while rest != {}
      invariant Increasing(r)
      invariant rest + Elements(r) == nodes
      invariant forall u, v :: u in Elements(r) && v in rest ==> u < v
      decreases rest
    {
      var least := Minimum(rest);
      forall i | 0 <= i < |r| ensures r[i] < least {
        assert r[i] in Elements(r);
      }
      ghost var before := r;
      r, rest := r + [least], rest - {least};
      assert Elements(r) == Elements(before) + {least};
    }
  }
}
