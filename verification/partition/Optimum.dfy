/** What the local searches look for, said of assignments alone: cut, loads and active tiles of the
    partition after a change, all computed from scratch. A settled partition is a local optimum. */
module Optimum {
  import opened LexicographicOrder
  import opened Options
  import opened SortedSets
  import opened GreedyPlacement
  import opened Cuts
  import opened Balance
  import opened LptPartition
  import opened Moves
  import opened Swaps
  import opened SwapSearch

  /** The thread keeps an active tile if it had one. */
  ghost predicate StaysActive(a: seq<int>, b: seq<int>, active: set<int>, t: int) {
    (exists i :: 0 <= i < |a| && i in active && a[i] == t) ==> exists i :: 0 <= i < |b| && i in active && b[i] == t
  }

  ghost predicate WithinLoad(p: Problem, b: seq<int>, t: int)
    requires |b| == |p.weights|
  {
    (Load(b, p.weights, |b|, t) as real) <= p.maximumLoad
  }

  // ---- single moves ----

  lemma AfterMoving(p: Problem, s: Partition, tile: int, d: int)
    requires WellFormed(p) && Consistent(p, s) && 0 <= tile < |s.assignments| && 0 <= d < |s.loads| && d != s.assignments[tile]
    ensures var b := s.assignments[tile := d];
            && Load(b, p.weights, |b|, d) == s.loads[d] + p.weights[tile]
            && (StaysActive(s.assignments, b, p.active, s.assignments[tile])
                <==> !(tile in p.active && s.activeCounts[s.assignments[tile]] == 1))
  {
    var a := s.assignments;
    var source := a[tile];
    MovedConsistent(p, s, tile, d);
    var u := Moved(p, s, tile, d);
    CountIsHasActive(p, s, source);
    CountIsHasActive(p, u, source);
  }

  /** A move that the search may make: to the thread of a neighbor, lowering the cut, under the cap, and
      leaving an active tile behind. */
  ghost predicate MoveHelps(p: Problem, a: seq<int>, tile: int, d: int)
    requires |a| == |p.weights| == |p.adjacency| && 0 <= tile < |a|
  {
    var b := a[tile := d];
    && d != a[tile] && (exists j :: j in p.adjacency[tile] && 0 <= j < |a| && a[j] == d)
    && Cut(b, p.edges) < Cut(a, p.edges)
    && WithinLoad(p, b, d) && StaysActive(a, b, p.active, a[tile])
  }

  lemma MoveMeans(p: Problem, s: Partition, tile: int, d: int)
    requires WellFormed(p) && Consistent(p, s) && 0 <= tile < |s.assignments|
    ensures CanMove(p, s, tile, d) <==> MoveHelps(p, s.assignments, tile, d)
  {
    var a := s.assignments;
    if j :| j in p.adjacency[tile] && 0 <= j < |a| && a[j] == d && d != a[tile] {
      assert 0 <= d < |s.loads|;
      AfterMoving(p, s, tile, d);
      assert d in Destinations(p, s, tile);
    }
  }

  /** When the first search ends settled, no single move helps. */
  lemma SettledMeans(p: Problem, s: Partition)
    requires WellFormed(p) && Consistent(p, s)
    ensures Settled(p, s)
       <==> forall tile, d :: 0 <= tile < |s.assignments| ==> !MoveHelps(p, s.assignments, tile, d)
  {
    forall tile, d | 0 <= tile < |s.assignments| ensures CanMove(p, s, tile, d) <==> MoveHelps(p, s.assignments, tile, d) {
      MoveMeans(p, s, tile, d);
    }
    if Settled(p, s) {
      forall tile, d | 0 <= tile < |s.assignments| ensures !MoveHelps(p, s.assignments, tile, d) {
        assert NoMove(p, s, tile) && !CanMove(p, s, tile, d);
      }
    } else {
      var tile :| 0 <= tile < |s.assignments| && !NoMove(p, s, tile);
      var d :| CanMove(p, s, tile, d);
    }
  }

  /** Keys that count from another zero compare alike. */
  lemma Shifted(x: int, y: int, c: int, xs: seq<int>, ys: seq<int>)
    ensures Lexicographic([x - c] + xs, [y - c] + ys) <==> Lexicographic([x] + xs, [y] + ys)
  {
    assert ([x - c] + xs)[1..] == xs == ([x] + xs)[1..];
    assert ([y - c] + ys)[1..] == ys == ([y] + ys)[1..];
  }

  /** The score counts its first key from c. */
  ghost predicate CountsFrom(score: seq<int>, keys: seq<int>, c: int) {
    |keys| > 0 && score == [keys[0] - c] + keys[1..]
  }

  lemma SameOrder(x: seq<int>, y: seq<int>, c: int, score: seq<int>, other: seq<int>)
    requires CountsFrom(score, x, c) && CountsFrom(other, y, c)
    ensures Lexicographic(score, other) <==> Lexicographic(x, y)
  {
    Shifted(x[0], y[0], c, x[1..], y[1..]);
    assert [x[0]] + x[1..] == x && [y[0]] + y[1..] == y;
  }

  /** The keys of a move: the cut and the load of the receiving thread afterwards, and the thread. */
  ghost function MoveKeys(p: Problem, a: seq<int>, tile: int, d: int): seq<int>
    requires |a| == |p.weights| && 0 <= tile < |a|
  {
    var b := a[tile := d];
    [Cut(b, p.edges), Load(b, p.weights, |b|, d), d]
  }

  lemma MoveKeysMean(p: Problem, s: Partition, tile: int, d: int)
    requires WellFormed(p) && Consistent(p, s) && 0 <= tile < |s.assignments| && 0 <= d < |s.loads| && d != s.assignments[tile]
    ensures CountsFrom(MoveScore(p, s, tile, d), MoveKeys(p, s.assignments, tile, d), Cut(s.assignments, p.edges))
  {
    AfterMoving(p, s, tile, d);
  }

  /** A tile that moves takes the helpful move with the lowest keys. */
  lemma BestMoveMeans(p: Problem, s: Partition, tile: int, d: int, t: Partition)
    requires MakesBestMove(p, s, tile, d, t)
    ensures t.assignments == s.assignments[tile := d] && Consistent(p, t) && MoveHelps(p, s.assignments, tile, d)
    ensures forall e :: MoveHelps(p, s.assignments, tile, e) ==>
              !Lexicographic(MoveKeys(p, s.assignments, tile, e), MoveKeys(p, s.assignments, tile, d))
  {
    MoveMeans(p, s, tile, d);
    MovedConsistent(p, s, tile, d);
    MoveKeysMean(p, s, tile, d);
    forall e | MoveHelps(p, s.assignments, tile, e)
      ensures !Lexicographic(MoveKeys(p, s.assignments, tile, e), MoveKeys(p, s.assignments, tile, d))
    {
      NotAhead(p, s, tile, d, e);
    }
  }

  lemma NotAhead(p: Problem, s: Partition, tile: int, d: int, e: int)
    requires WellFormed(p) && Consistent(p, s) && 0 <= tile < |s.assignments|
    requires BestMove(p, s, tile, Destinations(p, s, tile), Some(d)) && MoveHelps(p, s.assignments, tile, e)
    ensures !Lexicographic(MoveKeys(p, s.assignments, tile, e), MoveKeys(p, s.assignments, tile, d))
  {
    MoveMeans(p, s, tile, e);
    MoveKeysMean(p, s, tile, d);
    MoveKeysMean(p, s, tile, e);
    SameOrder(MoveKeys(p, s.assignments, tile, e), MoveKeys(p, s.assignments, tile, d), Cut(s.assignments, p.edges),
              MoveScore(p, s, tile, e), MoveScore(p, s, tile, d));
  }

  // ---- exchanges ----

  lemma SwapLoads(p: Problem, s: Partition, first: int, second: int)
    requires Exchangeable(p, s, first, second)
    ensures var b := Swapped(s.assignments, first, second);
            && Load(b, p.weights, |b|, s.assignments[first]) == SourceLoad(p, s, first, second)
            && Load(b, p.weights, |b|, s.assignments[second]) == SourceLoad(p, s, second, first)
  {
    LoadSwapped(s.assignments, p.weights, first, second, s.assignments[first]);
    LoadSwapped(s.assignments, p.weights, first, second, s.assignments[second]);
  }

  lemma SwapActive(p: Problem, s: Partition, first: int, second: int)
    requires Exchangeable(p, s, first, second)
    ensures StaysActive(s.assignments, Swapped(s.assignments, first, second), p.active, s.assignments[first])
       <==> !(first in p.active && second !in p.active && s.activeCounts[s.assignments[first]] == 1)
    ensures StaysActive(s.assignments, Swapped(s.assignments, first, second), p.active, s.assignments[second])
       <==> !(second in p.active && first !in p.active && s.activeCounts[s.assignments[second]] == 1)
  {
    ExchangedConsistent(p, s, first, second);
    var u := Exchanged(p, s, first, second);
    CountIsHasActive(p, s, s.assignments[first]);
    CountIsHasActive(p, u, s.assignments[first]);
    CountIsHasActive(p, s, s.assignments[second]);
    CountIsHasActive(p, u, s.assignments[second]);
  }

  /** Two tiles of different threads whose exchange keeps both threads under the cap and active. */
  ghost predicate SwapFits(p: Problem, a: seq<int>, first: int, second: int)
    requires |a| == |p.weights|
  {
    && 0 <= first < |a| && 0 <= second < |a| && a[first] != a[second]
    && var b := a[first := a[second]][second := a[first]];
       && WithinLoad(p, b, a[first]) && WithinLoad(p, b, a[second])
       && StaysActive(a, b, p.active, a[first]) && StaysActive(a, b, p.active, a[second])
  }

  lemma FitsMeans(p: Problem, s: Partition, first: int, second: int)
    requires WellFormed(p) && Consistent(p, s)
    ensures SwapFits(p, s.assignments, first, second)
       <==> Exchangeable(p, s, first, second) && Fits(p, s, first, second)
  {
    if Exchangeable(p, s, first, second) {
      SwapLoads(p, s, first, second);
      SwapActive(p, s, first, second);
    }
  }

  /** How far apart the weights of two tiles are. */
  function Gap(w: seq<nat>, i: int, j: int): nat
    requires 0 <= i < |w| && 0 <= j < |w|
  {
    if w[i] < w[j] then w[j] - w[i] else w[i] - w[j]
  }

  /** The exchange lowers the cut; `first` has an edge of weight above one to the thread of `second`, and
      there fewer than 24 tiles are closer to it in weight, or as close with a lower number. */
  ghost predicate SwapHelps(p: Problem, a: seq<int>, first: int, second: int)
    requires |a| == |p.weights| == |p.edges|
  {
    && SwapFits(p, a, first, second)
    && Cut(a[first := a[second]][second := a[first]], p.edges) < Cut(a, p.edges)
    && (exists k :: k in p.edges[first] && p.edges[first][k] > 1 && 0 <= k < |a| && a[k] == a[second])
    && |set i | 0 <= i < |a| && a[i] == a[second]
                && (Gap(p.weights, i, first) < Gap(p.weights, second, first)
                    || (Gap(p.weights, i, first) == Gap(p.weights, second, first) && i < second))| < 24
  }

  lemma NearMeans(w: seq<nat>, a: seq<int>, first: int, second: int)
    requires |a| == |w| && 0 <= first < |a| && 0 <= second < |a|
    ensures NearerOnes(w, first, (set i | 0 <= i < |a| && a[i] == a[second]), second)
         == set i | 0 <= i < |a| && a[i] == a[second]
                    && (Gap(w, i, first) < Gap(w, second, first) || (Gap(w, i, first) == Gap(w, second, first) && i < second))
  {
  }

  lemma SwapMeans(p: Problem, s: Partition, first: int, second: int)
    requires WellFormed(p) && Consistent(p, s)
    ensures SwapHelps(p, s.assignments, first, second) <==> Candidate(p, s, first, second) && CanSwap(p, s, first, second)
  {
    var a := s.assignments;
    FitsMeans(p, s, first, second);
    if InRange(s, first, second) && a[first] != a[second] {
      NearMeans(p.weights, a, first, second);
      assert ThreadMembers(s, a[second]) == set i | 0 <= i < |a| && a[i] == a[second];
      assert a[second] in HeavyThreads(p, s, first)
        <==> exists k :: k in p.edges[first] && p.edges[first][k] > 1 && 0 <= k < |a| && a[k] == a[second];
    }
  }

  /** When the second search finds nothing more, no exchange helps. */
  lemma NoSwapMeans(p: Problem, s: Partition)
    requires WellFormed(p) && Consistent(p, s)
    ensures NoSwap(p, s) <==> forall first, second :: !SwapHelps(p, s.assignments, first, second)
  {
    forall first, second
      ensures SwapHelps(p, s.assignments, first, second) <==> Candidate(p, s, first, second) && CanSwap(p, s, first, second)
    {
      SwapMeans(p, s, first, second);
    }
  }

  /** The keys of an exchange: the cut, the larger of the two loads and their difference afterwards, and the
      two tiles. */
  ghost function SwapKeys(p: Problem, a: seq<int>, first: int, second: int): seq<int>
    requires |a| == |p.weights| && 0 <= first < |a| && 0 <= second < |a|
  {
    var b := a[first := a[second]][second := a[first]];
    var x, y := Load(b, p.weights, |b|, a[first]), Load(b, p.weights, |b|, a[second]);
    [Cut(b, p.edges), if x < y then y else x, if x < y then y - x else x - y, first, second]
  }

  lemma SwapKeysMean(p: Problem, s: Partition, first: int, second: int)
    requires Exchangeable(p, s, first, second)
    ensures CountsFrom(SwapScore(p, s, first, second), SwapKeys(p, s.assignments, first, second), Cut(s.assignments, p.edges))
  {
    SwapLoads(p, s, first, second);
    KeysFrom(p, s, first, second, SourceLoad(p, s, first, second), SourceLoad(p, s, second, first));
  }

  lemma KeysFrom(p: Problem, s: Partition, first: int, second: int, x: int, y: int)
    requires InRange(s, first, second) && |s.assignments| == |p.weights|
    requires var b := Swapped(s.assignments, first, second);
             Load(b, p.weights, |b|, s.assignments[first]) == x && Load(b, p.weights, |b|, s.assignments[second]) == y
    ensures SwapKeys(p, s.assignments, first, second)
         == [Cut(Swapped(s.assignments, first, second), p.edges), Larger(x, y), Apart(x, y), first, second]
  {
  }

  lemma BeatsMeans(p: Problem, s: Partition, e: (int, int), f: (int, int))
    requires Exchangeable(p, s, e.0, e.1) && Exchangeable(p, s, f.0, f.1)
    ensures Beats(p, s, f, e)
       <==> Lexicographic(SwapKeys(p, s.assignments, f.0, f.1), SwapKeys(p, s.assignments, e.0, e.1))
  {
    SwapKeysMean(p, s, e.0, e.1);
    SwapKeysMean(p, s, f.0, f.1);
    var x, y := SwapKeys(p, s.assignments, f.0, f.1), SwapKeys(p, s.assignments, e.0, e.1);
    SameOrder(x, y, Cut(s.assignments, p.edges), SwapScore(p, s, f.0, f.1), SwapScore(p, s, e.0, e.1));
  }

  lemma NotBetter(p: Problem, s: Partition, e: (int, int), f: (int, int))
    requires WellFormed(p) && Consistent(p, s) && BestSwap(p, s, AllPairs(p, s), Some(e))
    requires SwapHelps(p, s.assignments, f.0, f.1) && Exchangeable(p, s, e.0, e.1)
    ensures !Lexicographic(SwapKeys(p, s.assignments, f.0, f.1), SwapKeys(p, s.assignments, e.0, e.1))
  {
    SwapMeans(p, s, f.0, f.1);
    assert f in AllPairs(p, s);
    BeatsMeans(p, s, e, f);
  }

  /** Each step of the second search is the helpful exchange with the lowest keys. */
  lemma BestSwapMeans(p: Problem, s: Partition, t: Partition) returns (e: (int, int))
    requires WellFormed(p) && Consistent(p, s) && Steps(p, s, t)
    ensures SwapHelps(p, s.assignments, e.0, e.1) && Consistent(p, t)
    ensures t.assignments == s.assignments[e.0 := s.assignments[e.1]][e.1 := s.assignments[e.0]]
    ensures forall first, second :: SwapHelps(p, s.assignments, first, second) ==>
              !Lexicographic(SwapKeys(p, s.assignments, first, second), SwapKeys(p, s.assignments, e.0, e.1))
  {
    e :| BestSwap(p, s, AllPairs(p, s), Some(e)) && AfterExchange(p, s, e, t);
    SwapMeans(p, s, e.0, e.1);
    ExchangedConsistent(p, s, e.0, e.1);
    forall first, second | SwapHelps(p, s.assignments, first, second)
      ensures !Lexicographic(SwapKeys(p, s.assignments, first, second), SwapKeys(p, s.assignments, e.0, e.1))
    {
      NotBetter(p, s, e, (first, second));
    }
  }
}
