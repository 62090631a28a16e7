/** Sums of integers over finite sets. */
module Sums {
  import opened SortedSets

  ghost function Sum<T>(s: set<T>, f: T -> int): int {
    if s == {} then 0
    else
      var x :| x in s;
      f(x) + Sum(s - {x}, f)
  }

  /** The order of summation does not matter. */
  lemma {:induction false} SumTake<T>(s: set<T>, f: T -> int, x: T)
    requires x in s
    ensures Sum(s, f) == f(x) + Sum(s - {x}, f)
    decreases s
  {
    var y :| y in s && Sum(s, f) == f(y) + Sum(s - {y}, f);
    if y != x {
      SumTake(s - {y}, f, x);
      SumTake(s - {x}, f, y);
      assert s - {y} - {x} == s - {x} - {y};
    }
  }

  lemma SumAdd<T>(s: set<T>, f: T -> int, x: T)
    requires x !in s
    ensures Sum(s + {x}, f) == Sum(s, f) + f(x)
  {
    SumTake(s + {x}, f, x);
    assert s + {x} - {x} == s;
  }

  lemma SumOne<T>(f: T -> int, x: T)
    ensures Sum({x}, f) == f(x)
  {
    SumTake({x}, f, x);
    assert {x} - {x} == {};
  }

  lemma {:induction false} SumUnion<T>(s: set<T>, t: set<T>, f: T -> int)
    requires s !! t
    ensures Sum(s + t, f) == Sum(s, f) + Sum(t, f)
    decreases t
  {
    if t == {} {
      assert s + t == s;
    } else {
      var x := Member(t);
      SumUnion(s, t - {x}, f);
      SumTake(t, f, x);
      SumAdd(s + (t - {x}), f, x);
      assert s + t == s + (t - {x}) + {x};
    }
  }

  lemma {:induction false} SumLeast<T>(s: set<T>, f: T -> int, least: int)
    requires forall x :: x in s ==> f(x) >= least
    ensures Sum(s, f) >= |s| * least
    decreases s
  {
    if s != {} {
      var x := Member(s);
      SumTake(s, f, x);
      SumLeast(s - {x}, f, least);
      assert |s| * least == (|s| - 1) * least + least;
    }
  }

  lemma SumNonNegative<T>(s: set<T>, f: T -> int)
    requires forall x :: x in s ==> f(x) >= 0
    ensures Sum(s, f) >= 0
  {
    SumLeast(s, f, 0);
  }

  /** A set in some order. */
  ghost predicate Lists<T>(items: seq<T>, s: set<T>) {
    && (forall i :: 0 <= i < |items| ==> items[i] in s) && (forall x :: x in s ==> x in items)
    && forall i, j :: 0 <= i < j < |items| ==> items[i] != items[j]
  }

  /** The sum in the order of a list. */
  function SumOver<T>(items: seq<T>, f: T -> int): int {
    if items == [] then 0 else SumOver(items[..|items| - 1], f) + f(items[|items| - 1])
  }

  lemma NextItem<T>(items: seq<T>, k: nat, f: T -> int)
    requires k < |items|
    ensures SumOver(items[..k + 1], f) == SumOver(items[..k], f) + f(items[k])
  {
    assert items[..k + 1][..k] == items[..k];
  }

  lemma {:induction false} SumListed<T>(items: seq<T>, s: set<T>, f: T -> int)
    requires Lists(items, s)
    ensures SumOver(items, f) == Sum(s, f)
    decreases |items|
  {
    if items == [] {
      assert s == {};
    } else {
      var init, last := items[..|items| - 1], items[|items| - 1];
      assert items == init + [last];
      assert Lists(init, s - {last});
      SumListed(init, s - {last}, f);
      SumTake(s, f, last);
    }
  }

  lemma AllItems<T>(items: seq<T>, s: set<T>, f: T -> int)
    requires Lists(items, s)
    ensures SumOver(items[..|items|], f) == Sum(s, f)
  {
    assert items[..|items|] == items;
    SumListed(items, s, f);
  }

  /** The elements of a set, in any order. */
  method ListOf<T(==)>(s: set<T>) returns (items: seq<T>)
    ensures Lists(items, s)
  {
    items := [];
    var rest := s;
    while rest != {}
      invariant rest <= s && Lists(items, s - rest)
      decreases rest
    {
      var x := Pick(rest);
      OneMoreListed(items, s - rest, x);
      assert s - rest + {x} == s - (rest - {x});
      items, rest := items + [x], rest - {x};
    }
    assert s - rest == s;
  }

  lemma OneMoreListed<T>(items: seq<T>, s: set<T>, x: T)
    requires Lists(items, s) && x !in s
    ensures Lists(items + [x], s + {x})
  {
  }

  /** A part weighs no more than the whole. */
  lemma SumPart<T>(s: set<T>, t: set<T>, f: T -> int)
    requires s <= t && forall x :: x in t ==> f(x) >= 0
    ensures Sum(s, f) <= Sum(t, f)
  {
    SumUnion(s, t - s, f);
    assert s + (t - s) == t;
    SumNonNegative(t - s, f);
  }

  lemma {:induction false} SumSame<T>(s: set<T>, f: T -> int, g: T -> int)
    requires forall x :: x in s ==> f(x) == g(x)
    ensures Sum(s, f) == Sum(s, g)
    decreases s
  {
    if s != {} {
      var x := Member(s);
      SumTake(s, f, x);
      SumTake(s, g, x);
      SumSame(s - {x}, f, g);
    }
  }

  /** Renaming the elements one to one. */
  lemma {:induction false} SumRenamed<S, T>(s: set<S>, t: set<T>, name: S -> T, f: S -> int, g: T -> int)
    requires forall x :: x in s ==> name(x) in t && g(name(x)) == f(x)
    requires forall x, y :: x in s && y in s && x != y ==> name(x) != name(y)
    requires forall z :: z in t ==> exists x :: x in s && name(x) == z
    ensures Sum(s, f) == Sum(t, g)
    decreases s
  {
    if s == {} {
      assert t == {};
    } else {
      var x := Member(s);
      SumTake(s, f, x);
      SumTake(t, g, name(x));
      forall z | z in t - {name(x)} ensures exists y :: y in s - {x} && name(y) == z {
        var y :| y in s && name(y) == z;
        assert y in s - {x};
      }
      SumRenamed(s - {x}, t - {name(x)}, name, f, g);
    }
  }

  lemma {:induction false} SubsetSize<T>(s: set<T>, t: set<T>)
    requires s <= t
    ensures |s| <= |t|
  {
    assert t == s + (t - s);
    assert |s + (t - s)| == |s| + |t - s|;
  }

  /** The numbers below n. */
  function Below(n: nat): (s: set<int>)
    ensures forall i :: i in s <==> 0 <= i < n
    ensures |s| == n
  {
    if n == 0 then {} else Below(n - 1) + {n - 1}
  }
}
