/** Exchanging the threads of two tiles: what it does to the running totals, and the second local
    search, which exchanges tiles of similar weight. */
module Swaps {
  import opened LexicographicOrder
  import opened Options
  import opened SortedSets
  import S = Sums
  import opened GreedyPlacement
  import opened Cuts
  import opened Balance

  ghost predicate InRange(s: Partition, first: int, second: int) {
    0 <= first < |s.assignments| && 0 <= second < |s.assignments|
  }

  /** The partition after the exchange. */
  function Exchanged(p: Problem, s: Partition, first: int, second: int): Partition
    requires InRange(s, first, second) && |s.assignments| == |p.weights| && |s.loads| == |s.activeCounts|
    requires var source, destination := s.assignments[first], s.assignments[second];
             && 0 <= source < |s.loads| && 0 <= destination < |s.loads| && source != destination
             && s.loads[source] >= p.weights[first] && s.loads[destination] >= p.weights[second]
             && s.activeCounts[source] >= One(p.active, first) && s.activeCounts[destination] >= One(p.active, second)
  {
    var source, destination := s.assignments[first], s.assignments[second];
    Partition(
      Swapped(s.assignments, first, second),
      s.loads[source := s.loads[source] - p.weights[first] + p.weights[second]]
             [destination := s.loads[destination] - p.weights[second] + p.weights[first]],
      s.activeCounts[source := s.activeCounts[source] - One(p.active, first) + One(p.active, second)]
                    [destination := s.activeCounts[destination] - One(p.active, second) + One(p.active, first)])
  }

  /** Two tiles of different threads. */
  ghost predicate Exchangeable(p: Problem, s: Partition, first: int, second: int) {
    WellFormed(p) && Consistent(p, s) && InRange(s, first, second) && s.assignments[first] != s.assignments[second]
  }

  lemma TileCounts(p: Problem, s: Partition, tile: int)
    requires WellFormed(p) && Consistent(p, s) && 0 <= tile < |s.assignments|
    ensures s.loads[s.assignments[tile]] >= p.weights[tile]
    ensures s.activeCounts[s.assignments[tile]] >= One(p.active, tile)
  {
    LoadHolds(p, s, tile);
    CountWithout(s.assignments, p.active, tile, s.assignments[tile]);
  }

  lemma CanExchange(p: Problem, s: Partition, first: int, second: int)
    requires Exchangeable(p, s, first, second)
    ensures var source, destination := s.assignments[first], s.assignments[second];
            && s.loads[source] >= p.weights[first] && s.loads[destination] >= p.weights[second]
            && s.activeCounts[source] >= One(p.active, first) && s.activeCounts[destination] >= One(p.active, second)
  {
    TileCounts(p, s, first);
    TileCounts(p, s, second);
  }

  lemma LoadSwapped(a: seq<int>, w: seq<nat>, first: int, second: int, t: int)
    requires |a| == |w| && 0 <= first < |a| && 0 <= second < |a| && a[first] != a[second]
    ensures Load(Swapped(a, first, second), w, |a|, t)
         == Load(a, w, |a|, t) - Share(a[first], t, w[first]) + Share(a[second], t, w[first])
            - Share(a[second], t, w[second]) + Share(a[first], t, w[second])
  {
    LoadReassigned(a, w, first, a[second], t);
    LoadReassigned(a[first := a[second]], w, second, a[first], t);
  }

  lemma CountSwapped(a: seq<int>, active: set<int>, first: int, second: int, t: int)
    requires 0 <= first < |a| && 0 <= second < |a| && a[first] != a[second]
    ensures |ActiveOn(Swapped(a, first, second), active, t)|
         == |ActiveOn(a, active, t)| - Share(a[first], t, One(active, first)) + Share(a[second], t, One(active, first))
            - Share(a[second], t, One(active, second)) + Share(a[first], t, One(active, second))
  {
    CountReassigned(a, active, first, a[second], t);
    CountReassigned(a[first := a[second]], active, second, a[first], t);
  }

  /** The totals after an exchange are those of the new assignment. */
  lemma ExchangedConsistent(p: Problem, s: Partition, first: int, second: int)
    requires Exchangeable(p, s, first, second)
    ensures var source, destination := s.assignments[first], s.assignments[second];
            && s.loads[source] >= p.weights[first] && s.loads[destination] >= p.weights[second]
            && s.activeCounts[source] >= One(p.active, first) && s.activeCounts[destination] >= One(p.active, second)
    ensures Consistent(p, Exchanged(p, s, first, second))
  {
    CanExchange(p, s, first, second);
    var u := Exchanged(p, s, first, second);
    forall t | 0 <= t < |u.loads|
      ensures u.loads[t] == Load(u.assignments, p.weights, |p.weights|, t)
      ensures u.activeCounts[t] == |ActiveOn(u.assignments, p.active, t)|
    {
      LoadSwapped(s.assignments, p.weights, first, second, t);
      CountSwapped(s.assignments, p.active, first, second, t);
    }
  }

  // ---- admissible exchanges ----

  ghost function CutAfterSwap(p: Problem, s: Partition, first: int, second: int): int
    requires InRange(s, first, second)
  {
    Cut(Swapped(s.assignments, first, second), p.edges) - Cut(s.assignments, p.edges)
  }

  function SourceLoad(p: Problem, s: Partition, first: int, second: int): int
    requires 0 <= first < |s.assignments| == |p.weights| && 0 <= second < |p.weights| && 0 <= s.assignments[first] < |s.loads|
  {
    s.loads[s.assignments[first]] as int - p.weights[first] + p.weights[second]
  }

  /** Both threads stay under the cap and keep an active tile. */
  predicate Fits(p: Problem, s: Partition, first: int, second: int)
    requires 0 <= first < |s.assignments| == |p.weights| && 0 <= second < |p.weights| && |s.loads| == |s.activeCounts|
    requires 0 <= s.assignments[first] < |s.loads| && 0 <= s.assignments[second] < |s.loads|
  {
    && (SourceLoad(p, s, first, second) as real) <= p.maximumLoad
    && (SourceLoad(p, s, second, first) as real) <= p.maximumLoad
    && !(first in p.active && second !in p.active && s.activeCounts[s.assignments[first]] == 1)
    && !(second in p.active && first !in p.active && s.activeCounts[s.assignments[second]] == 1)
  }

  /** An exchange that fits is safe, whatever it does to the cut. */
  lemma ExchangeSafe(p: Problem, s: Partition, first: int, second: int)
    requires Exchangeable(p, s, first, second) && Fits(p, s, first, second)
    ensures var source, destination := s.assignments[first], s.assignments[second];
            && s.loads[source] >= p.weights[first] && s.loads[destination] >= p.weights[second]
            && s.activeCounts[source] >= One(p.active, first) && s.activeCounts[destination] >= One(p.active, second)
    ensures Consistent(p, Exchanged(p, s, first, second)) && Safe(p, s, Exchanged(p, s, first, second))
  {
    ExchangedConsistent(p, s, first, second);
    StaysPinned(p, s, Exchanged(p, s, first, second));
  }

  /** Carries out the exchange on the lists of totals. */
  method Exchange(p: Problem, s: Partition, first: int, second: int) returns (t: Partition)
    requires Exchangeable(p, s, first, second)
    ensures var source, destination := s.assignments[first], s.assignments[second];
            && s.loads[source] >= p.weights[first] && s.loads[destination] >= p.weights[second]
            && s.activeCounts[source] >= One(p.active, first) && s.activeCounts[destination] >= One(p.active, second)
    ensures t == Exchanged(p, s, first, second) && Consistent(p, t)
  {
    ExchangedConsistent(p, s, first, second);
    var source, destination := s.assignments[first], s.assignments[second];
    var loads, counts := s.loads, s.activeCounts;
    var gain: int := p.weights[second] as int - p.weights[first];
    loads := loads[source := loads[source] + gain];
    loads := loads[destination := loads[destination] - gain];
    var difference: int := One(p.active, second) - One(p.active, first);
    counts := counts[source := counts[source] + difference];
    counts := counts[destination := counts[destination] - difference];
    t := Partition(s.assignments[first := destination][second := source], loads, counts);
  }

  // ---- the pairs examined ----

  /** Partners are sorted by distance of weight, then by number. */
  predicate Nearer(w: seq<nat>, first: int, i: int, j: int)
    requires 0 <= first < |w| && 0 <= i < |w| && 0 <= j < |w|
  {
    Distance(w, first, i) < Distance(w, first, j) || (Distance(w, first, i) == Distance(w, first, j) && i < j)
  }

  function Distance(w: seq<nat>, i: int, j: int): nat
    requires 0 <= i < |w| && 0 <= j < |w|
  {
    if w[i] <= w[j] then w[j] - w[i] else w[i] - w[j]
  }

  ghost function NearerOnes(w: seq<nat>, first: int, members: set<int>, j: int): set<int>
    requires 0 <= first < |w| && 0 <= j < |w|
  {
    set i | i in members && 0 <= i < |w| && Nearer(w, first, i, j)
  }

  const PARTNERS := 24

  /** One of the 24 members nearest to `first`. */
  ghost predicate Near(w: seq<nat>, first: int, members: set<int>, j: int)
    requires 0 <= first < |w| && 0 <= j < |w|
  {
    j in members && |NearerOnes(w, first, members, j)| < PARTNERS
  }

  ghost predicate Ranked(w: seq<nat>, first: int, r: seq<int>)
    requires 0 <= first < |w|
  {
    && (forall i :: 0 <= i < |r| ==> 0 <= r[i] < |w|)
    && forall i, j :: 0 <= i < j < |r| ==> Nearer(w, first, r[i], r[j])
  }

  method Nearest(w: seq<nat>, first: int, members: set<int>) returns (nearest: int)
    requires members != {} && 0 <= first < |w| && forall i :: i in members ==> 0 <= i < |w|
    ensures nearest in members && forall i :: i in members && i != nearest ==> Nearer(w, first, nearest, i)
  {
    ghost var some := Member(members);
    nearest :| nearest in members;
    var others := members - {nearest};
    while others != {}
      invariant nearest in members && others <= members && nearest !in others
      invariant forall i :: i in members && i !in others && i != nearest ==> Nearer(w, first, nearest, i)
      decreases others
    {
      ghost var other := Member(others);
      var i :| i in others;
      others := others - {i};
      if Nearer(w, first, i, nearest) { nearest := i; }
    }
  }

  method SortedByDistance(w: seq<nat>, first: int, members: set<int>) returns (r: seq<int>)
    requires 0 <= first < |w| && forall i :: i in members ==> 0 <= i < |w|
    ensures Ranked(w, first, r) && Elements(r) == members
  {
    r := [];
    var rest := members;
    while rest != {}
      invariant Ranked(w, first, r) && rest + Elements(r) == members
      invariant forall i, j :: i in Elements(r) && j in rest ==> 0 <= i < |w| && Nearer(w, first, i, j)
      decreases rest
    {
      var next := Nearest(w, first, rest);
      forall i | 0 <= i < |r| ensures Nearer(w, first, r[i], next) {
        assert r[i] in Elements(r);
      }
      ghost var before := r;
      r, rest := r + [next], rest - {next};
      assert Elements(r) == Elements(before) + {next};
    }
  }

  /** In the sorted list as many members are nearer as stand before. */
  lemma RankIsPosition(w: seq<nat>, first: int, members: set<int>, r: seq<int>, k: nat)
    requires 0 <= first < |w| && Ranked(w, first, r) && Elements(r) == members && k < |r|
    ensures |NearerOnes(w, first, members, r[k])| == k
  {
    var s := NearerOnes(w, first, members, r[k]);
    forall i ensures i in s <==> i in Elements(r[..k]) {
      if i in s {
        assert i in Elements(r);
        var x :| 0 <= x < |r| && r[x] == i;
        assert x < k;
        assert r[..k][x] == i;
      }
      if i in Elements(r[..k]) {
        var x :| 0 <= x < k && r[..k][x] == i;
        assert r[x] in Elements(r);
      }
    }
    assert s == Elements(r[..k]);
    DistinctSize(r[..k]);
  }

  method Partners(w: seq<nat>, first: int, members: set<int>) returns (r: seq<int>)
    requires 0 <= first < |w| && forall i :: i in members ==> 0 <= i < |w|
    ensures forall j :: 0 <= j < |w| ==> (j in r <==> Near(w, first, members, j))
    ensures forall j :: j in r ==> 0 <= j < |w| && j in members
  {
    var sorted := SortedByDistance(w, first, members);
    r := sorted[..if |sorted| < PARTNERS then |sorted| else PARTNERS];
    forall j | 0 <= j < |w| ensures j in r <==> Near(w, first, members, j) {
      if j in members {
        assert j in Elements(sorted);
        var x :| 0 <= x < |sorted| && sorted[x] == j;
        RankIsPosition(w, first, members, sorted, x);
        if x < |r| { assert r[x] == j; }
      }
      if j in r {
        var x :| 0 <= x < |r| && r[x] == j;
        assert sorted[x] in Elements(sorted);
        RankIsPosition(w, first, members, sorted, x);
      }
    }
    forall j | j in r ensures j in members {
      var x :| 0 <= x < |r| && r[x] == j;
      assert sorted[x] in Elements(sorted);
    }
  }

  // ---- the second search ----

  function ThreadMembers(s: Partition, thread: int): set<int> {
    set i | 0 <= i < |s.assignments| && s.assignments[i] == thread
  }

  /** Threads that a tile is joined to by an edge of weight above one, other than its own. */
  function HeavyThreads(p: Problem, s: Partition, first: int): set<int>
    requires 0 <= first < |s.assignments| && first < |p.edges|
  {
    set j | j in p.edges[first] && p.edges[first][j] > 1 && 0 <= j < |s.assignments| && s.assignments[j] != s.assignments[first] :: s.assignments[j]
  }

  /** The pairs that the search looks at. */
  ghost predicate Candidate(p: Problem, s: Partition, first: int, second: int) {
    && InRange(s, first, second) && |s.assignments| == |p.weights| == |p.edges|
    && s.assignments[second] in HeavyThreads(p, s, first)
    && Near(p.weights, first, ThreadMembers(s, s.assignments[second]), second)
  }

  /** The exchange fits and lowers the cut. */
  ghost predicate CanSwap(p: Problem, s: Partition, first: int, second: int) {
    && Exchangeable(p, s, first, second) && Fits(p, s, first, second)
    && CutAfterSwap(p, s, first, second) < 0
  }

  function Larger(x: int, y: int): int {
    if x < y then y else x
  }

  function Apart(x: int, y: int): int {
    if x < y then y - x else x - y
  }

  /** Exchanges compare by cut, by the larger and by the difference of the two loads, and by tiles. */
  ghost function SwapScore(p: Problem, s: Partition, first: int, second: int): seq<int>
    requires Exchangeable(p, s, first, second)
  {
    var x, y := SourceLoad(p, s, first, second), SourceLoad(p, s, second, first);
    [CutAfterSwap(p, s, first, second), Larger(x, y), Apart(x, y), first, second]
  }

  ghost predicate Beats(p: Problem, s: Partition, e: (int, int), f: (int, int))
    requires Exchangeable(p, s, e.0, e.1) && Exchangeable(p, s, f.0, f.1)
  {
    Lexicographic(SwapScore(p, s, e.0, e.1), SwapScore(p, s, f.0, f.1))
  }

  /** Among the pairs in `some`, the best admissible one. */
  ghost predicate BestSwap(p: Problem, s: Partition, some: set<(int, int)>, best: Option<(int, int)>) {
    match best
    case None => forall e :: e in some ==> !CanSwap(p, s, e.0, e.1)
    case Some(b) =>
      && b in some && CanSwap(p, s, b.0, b.1)
      && forall e :: e in some && CanSwap(p, s, e.0, e.1) ==> !Beats(p, s, e, b)
  }

  lemma BestSwapOfMore(p: Problem, s: Partition, some: set<(int, int)>, best: Option<(int, int)>, e: (int, int))
    requires BestSwap(p, s, some, best)
    ensures !CanSwap(p, s, e.0, e.1) ==> BestSwap(p, s, some + {e}, best)
    ensures CanSwap(p, s, e.0, e.1) && best.None? ==> BestSwap(p, s, some + {e}, Some(e))
    ensures CanSwap(p, s, e.0, e.1) && best.Some? && !Beats(p, s, e, best.value) ==> BestSwap(p, s, some + {e}, best)
    ensures CanSwap(p, s, e.0, e.1) && best.Some? && Beats(p, s, e, best.value) ==> BestSwap(p, s, some + {e}, Some(e))
  {
    if CanSwap(p, s, e.0, e.1) {
      LexicographicIrreflexive(SwapScore(p, s, e.0, e.1));
      if best.Some? && Beats(p, s, e, best.value) {
        var b := best.value;
        forall f | f in some && CanSwap(p, s, f.0, f.1) ensures !Beats(p, s, f, e) {
          if Beats(p, s, f, e) {
            LexicographicTrans(SwapScore(p, s, f.0, f.1), SwapScore(p, s, e.0, e.1), SwapScore(p, s, b.0, b.1));
          }
        }
      }
    }
  }

  /** The score names the pair: there is only one best. */
  lemma BestSwapUnique(p: Problem, s: Partition, some: set<(int, int)>, b: Option<(int, int)>, c: Option<(int, int)>)
    requires BestSwap(p, s, some, b) && BestSwap(p, s, some, c)
    ensures b == c
  {
    if b.Some? && c.Some? && b != c {
      var x, y := SwapScore(p, s, b.value.0, b.value.1), SwapScore(p, s, c.value.0, c.value.1);
      assert (x[3], x[4]) == b.value && (y[3], y[4]) == c.value;
      LexicographicTotal(x, y);
    }
  }

  /** Evaluates one pair. */
  method EvaluateSwap(p: Problem, s: Partition, first: int, second: int) returns (admissible: bool, score: seq<int>)
    requires Exchangeable(p, s, first, second)
    ensures admissible == CanSwap(p, s, first, second)
    ensures admissible ==> score == SwapScore(p, s, first, second)
  {
    score := [];
    if !Fits(p, s, first, second) { return false, score; }
    var cutDelta := SwapCutDelta(s.assignments, p.edges, first, second);
    if cutDelta >= 0 { return false, score; }
    var sourceLoad, destinationLoad := SourceLoad(p, s, first, second), SourceLoad(p, s, second, first);
    return true, [cutDelta, Larger(sourceLoad, destinationLoad), Apart(sourceLoad, destinationLoad), first, second];
  }

  ghost predicate Tracked(p: Problem, s: Partition, some: set<(int, int)>, best: Option<(int, int)>, score: seq<int>) {
    && WellFormed(p) && Consistent(p, s) && BestSwap(p, s, some, best)
    && (best.Some? ==> score == SwapScore(p, s, best.value.0, best.value.1))
  }

  /** Takes one more pair into account. */
  method ConsiderSwap(p: Problem, s: Partition, first: int, second: int, best: Option<(int, int)>, score: seq<int>,
                      ghost some: set<(int, int)>)
    returns (better: Option<(int, int)>, betterScore: seq<int>)
    requires Tracked(p, s, some, best, score) && Exchangeable(p, s, first, second)
    ensures Tracked(p, s, some + {(first, second)}, better, betterScore)
  {
    better, betterScore := best, score;
    BestSwapOfMore(p, s, some, best, (first, second));
    var admissible, candidate := EvaluateSwap(p, s, first, second);
    if admissible && (best.None? || Lexicographic(candidate, score)) {
      better, betterScore := Some((first, second)), candidate;
    }
  }

  ghost function PairsTo(p: Problem, s: Partition, first: int, thread: int): set<(int, int)> {
    set j | 0 <= j < |s.assignments| && s.assignments[j] == thread && Candidate(p, s, first, j) :: (first, j)
  }

  ghost function PairsFrom(p: Problem, s: Partition, first: int): set<(int, int)> {
    set j | 0 <= j < |s.assignments| && Candidate(p, s, first, j) :: (first, j)
  }

  ghost function AllPairs(p: Problem, s: Partition): set<(int, int)> {
    set i, j | 0 <= i < |s.assignments| && 0 <= j < |s.assignments| && Candidate(p, s, i, j) :: (i, j)
  }

  ghost function PairsWith(first: int, partners: seq<int>): set<(int, int)> {
    set j | j in partners :: (first, j)
  }

  lemma OneMorePartner(first: int, partners: seq<int>, k: nat)
    requires k < |partners|
    ensures PairsWith(first, partners[..k + 1]) == PairsWith(first, partners[..k]) + {(first, partners[k])}
  {
    forall j ensures j in partners[..k + 1] <==> j in partners[..k] || j == partners[k] {
      assert partners[..k + 1] == partners[..k] + [partners[k]];
    }
    forall e ensures e in PairsWith(first, partners[..k + 1]) <==> e in PairsWith(first, partners[..k]) + {(first, partners[k])} {
      assert e.1 in partners[..k + 1] <==> e.1 in partners[..k] || e.1 == partners[k];
    }
  }

  lemma AllPartners(p: Problem, s: Partition, first: int, thread: int, partners: seq<int>)
    requires WellFormed(p) && Consistent(p, s) && 0 <= first < |s.assignments| && thread in HeavyThreads(p, s, first)
    requires forall j :: 0 <= j < |p.weights| ==> (j in partners <==> Near(p.weights, first, ThreadMembers(s, thread), j))
    requires forall j :: j in partners ==> j in ThreadMembers(s, thread)
    ensures PairsWith(first, partners[..|partners|]) == PairsTo(p, s, first, thread)
  {
    assert partners[..|partners|] == partners;
    forall j
      ensures j in partners <==> 0 <= j < |s.assignments| && s.assignments[j] == thread && Candidate(p, s, first, j)
    {
      if 0 <= j < |s.assignments| && s.assignments[j] == thread {
        assert Near(p.weights, first, ThreadMembers(s, thread), j) <==> Candidate(p, s, first, j);
      }
    }
    forall e ensures e in PairsWith(first, partners) <==> e in PairsTo(p, s, first, thread) {
      assert e.1 in partners <==> 0 <= e.1 < |s.assignments| && s.assignments[e.1] == thread && Candidate(p, s, first, e.1);
    }
  }

  /** The partners of `first` on one thread. */
  method ScanThread(p: Problem, s: Partition, first: int, thread: int, best: Option<(int, int)>, score: seq<int>,
                    ghost some: set<(int, int)>)
    returns (better: Option<(int, int)>, betterScore: seq<int>)
    requires Tracked(p, s, some, best, score) && 0 <= first < |s.assignments| && thread in HeavyThreads(p, s, first)
    ensures Tracked(p, s, some + PairsTo(p, s, first, thread), better, betterScore)
  {
    better, betterScore := best, score;
    var partners := Partners(p.weights, first, ThreadMembers(s, thread));
    ghost var seen: set<(int, int)> := {};
    assert some + seen == some;
    for k := 0 to |partners|
      invariant seen == PairsWith(first, partners[..k])
      invariant Tracked(p, s, some + seen, better, betterScore)
    {
      var second := partners[k];
      assert second in partners;
      better, betterScore := ConsiderSwap(p, s, first, second, better, betterScore, some + seen);
      OneMorePartner(first, partners, k);
      assert some + seen + {(first, second)} == some + (seen + {(first, second)});
      seen := seen + {(first, second)};
    }
    AllPartners(p, s, first, thread, partners);
  }
}
