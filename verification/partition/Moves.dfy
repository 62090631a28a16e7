/** The first local search: single tiles move to the thread of a neighbor. */
module Moves {
  import opened LexicographicOrder
  import opened Options
  import opened SortedSets
  import S = Sums
  import opened GreedyPlacement
  import opened Cuts
  import opened Balance
  import opened LptPartition

  /** The partition after the tile has moved to the thread. */
  function Moved(p: Problem, s: Partition, tile: int, thread: int): Partition
    requires 0 <= tile < |s.assignments| == |p.weights|
    requires 0 <= s.assignments[tile] < |s.loads| == |s.activeCounts| && 0 <= thread < |s.loads|
    requires s.loads[s.assignments[tile]] >= p.weights[tile]
    requires s.activeCounts[s.assignments[tile]] >= One(p.active, tile)
  {
    var source := s.assignments[tile];
    var w, n := p.weights[tile], One(p.active, tile);
    var loads := s.loads[source := s.loads[source] - w];
    var counts := s.activeCounts[source := s.activeCounts[source] - n];
    Partition(s.assignments[tile := thread], loads[thread := loads[thread] + w], counts[thread := counts[thread] + n])
  }

  lemma CanLeave(p: Problem, s: Partition, tile: int)
    requires WellFormed(p) && Consistent(p, s) && 0 <= tile < |s.assignments|
    ensures s.loads[s.assignments[tile]] >= p.weights[tile]
    ensures s.activeCounts[s.assignments[tile]] >= One(p.active, tile)
  {
    var t := s.assignments[tile];
    LoadWithout(s.assignments, p.weights, tile, t);
    S.SumNonNegative(Jobs(s.assignments, |s.assignments|, t) - {tile}, Weigh(p.weights));
    CountWithout(s.assignments, p.active, tile, t);
  }

  /** The totals after a move are those of the new assignment. */
  lemma MovedConsistent(p: Problem, s: Partition, tile: int, thread: int)
    requires WellFormed(p) && Consistent(p, s) && 0 <= tile < |s.assignments| && 0 <= thread < |s.loads|
    ensures s.loads[s.assignments[tile]] >= p.weights[tile]
    ensures s.activeCounts[s.assignments[tile]] >= One(p.active, tile)
    ensures Consistent(p, Moved(p, s, tile, thread))
  {
    CanLeave(p, s, tile);
    var u := Moved(p, s, tile, thread);
    forall t | 0 <= t < |u.loads|
      ensures u.loads[t] == Load(u.assignments, p.weights, |p.weights|, t)
      ensures u.activeCounts[t] == |ActiveOn(u.assignments, p.active, t)|
    {
      LoadReassigned(s.assignments, p.weights, tile, thread, t);
      CountReassigned(s.assignments, p.active, tile, thread, t);
    }
  }

  // ---- the choice of a move ----

  /** The threads of the neighbors, other than the tile's own. */
  function Destinations(p: Problem, s: Partition, tile: int): set<int>
    requires 0 <= tile < |p.adjacency|
  {
    (set j | j in p.adjacency[tile] && 0 <= j < |s.assignments| :: s.assignments[j])
    - (if tile < |s.assignments| then {s.assignments[tile]} else {})
  }

  ghost function CutAfterMove(p: Problem, s: Partition, tile: int, thread: int): int
    requires 0 <= tile < |s.assignments|
  {
    Cut(s.assignments[tile := thread], p.edges) - Cut(s.assignments, p.edges)
  }

  /** The move lowers the cut, fits under the load cap and leaves no thread without an active tile. */
  ghost predicate CanMove(p: Problem, s: Partition, tile: int, thread: int)
    requires 0 <= tile < |s.assignments| == |p.weights| == |p.adjacency|
    requires 0 <= s.assignments[tile] < |s.loads| == |s.activeCounts|
  {
    && thread in Destinations(p, s, tile) && 0 <= thread < |s.loads|
    && CutAfterMove(p, s, tile, thread) < 0
    && ((s.loads[thread] + p.weights[tile]) as real) <= p.maximumLoad
    && !(tile in p.active && s.activeCounts[s.assignments[tile]] == 1)
  }

  /** Moves compare by cut, then by the load of the receiving thread, then by thread. */
  ghost function MoveScore(p: Problem, s: Partition, tile: int, thread: int): seq<int>
    requires 0 <= tile < |s.assignments| == |p.weights| && 0 <= thread < |s.loads|
  {
    [CutAfterMove(p, s, tile, thread), s.loads[thread] + p.weights[tile], thread]
  }

  /** Among the threads in `some`, the best admissible one. */
  ghost predicate BestMove(p: Problem, s: Partition, tile: int, some: set<int>, best: Option<int>)
    requires 0 <= tile < |s.assignments| == |p.weights| == |p.adjacency|
    requires 0 <= s.assignments[tile] < |s.loads| == |s.activeCounts|
  {
    match best
    case None => forall d :: d in some ==> !CanMove(p, s, tile, d)
    case Some(b) =>
      && b in some && CanMove(p, s, tile, b)
      && forall d :: d in some && CanMove(p, s, tile, d) ==> !Lexicographic(MoveScore(p, s, tile, d), MoveScore(p, s, tile, b))
  }

  lemma BestOfMore(p: Problem, s: Partition, tile: int, some: set<int>, best: Option<int>, d: int)
    requires WellFormed(p) && Consistent(p, s) && 0 <= tile < |s.assignments|
    requires BestMove(p, s, tile, some, best) && 0 <= d < |s.loads|
    ensures !CanMove(p, s, tile, d) ==> BestMove(p, s, tile, some + {d}, best)
    ensures CanMove(p, s, tile, d) && best.None? ==> BestMove(p, s, tile, some + {d}, Some(d))
    ensures CanMove(p, s, tile, d) && best.Some? && !Lexicographic(MoveScore(p, s, tile, d), MoveScore(p, s, tile, best.value)) ==>
              BestMove(p, s, tile, some + {d}, best)
    ensures CanMove(p, s, tile, d) && best.Some? && Lexicographic(MoveScore(p, s, tile, d), MoveScore(p, s, tile, best.value)) ==>
              BestMove(p, s, tile, some + {d}, Some(d))
  {
    LexicographicIrreflexive(MoveScore(p, s, tile, d));
    if CanMove(p, s, tile, d) && best.Some? && Lexicographic(MoveScore(p, s, tile, d), MoveScore(p, s, tile, best.value)) {
      forall e | e in some && CanMove(p, s, tile, e) ensures !Lexicographic(MoveScore(p, s, tile, e), MoveScore(p, s, tile, d)) {
        if Lexicographic(MoveScore(p, s, tile, e), MoveScore(p, s, tile, d)) {
          LexicographicTrans(MoveScore(p, s, tile, e), MoveScore(p, s, tile, d), MoveScore(p, s, tile, best.value));
        }
      }
    }
  }

  lemma CutByNeighbors(p: Problem, s: Partition, tile: int, thread: int)
    requires WellFormed(p) && Consistent(p, s) && 0 <= tile < |s.assignments|
    ensures CutAfterMove(p, s, tile, thread)
         == NeighborWeight(s.assignments, p.edges, tile, s.assignments[tile]) - NeighborWeight(s.assignments, p.edges, tile, thread)
  {
    MoveCutDelta(s.assignments, p.edges, tile, thread);
  }

  /** Evaluates one destination. */
  method Evaluate(p: Problem, s: Partition, tile: int, sourceNeighbors: int, destination: int) returns (admissible: bool, score: seq<int>)
    requires WellFormed(p) && Consistent(p, s) && 0 <= tile < |s.assignments| && destination in Destinations(p, s, tile)
    requires 0 <= destination < |s.loads|
    requires sourceNeighbors == NeighborWeight(s.assignments, p.edges, tile, s.assignments[tile])
    ensures admissible == CanMove(p, s, tile, destination)
    ensures admissible ==> score == MoveScore(p, s, tile, destination)
  {
    var towards := SumNeighbors(s.assignments, p.edges, tile, destination);
    CutByNeighbors(p, s, tile, destination);
    admissible, score := Judge(p, s, tile, destination, sourceNeighbors - towards);
  }

  method Judge(p: Problem, s: Partition, tile: int, destination: int, cutDelta: int) returns (admissible: bool, score: seq<int>)
    requires 0 <= tile < |s.assignments| == |p.weights| == |p.adjacency| && destination in Destinations(p, s, tile)
    requires 0 <= s.assignments[tile] < |s.loads| == |s.activeCounts| && 0 <= destination < |s.loads|
    requires cutDelta == CutAfterMove(p, s, tile, destination)
    ensures admissible == CanMove(p, s, tile, destination)
    ensures admissible ==> score == MoveScore(p, s, tile, destination)
  {
    score := [];
    if cutDelta >= 0 { return false, score; }
    if ((s.loads[destination] + p.weights[tile]) as real) > p.maximumLoad { return false, score; }
    if tile in p.active && s.activeCounts[s.assignments[tile]] == 1 { return false, score; }
    return true, [cutDelta, s.loads[destination] + p.weights[tile], destination];
  }

  lemma DestinationsInRange(p: Problem, s: Partition, tile: int)
    requires WellFormed(p) && Consistent(p, s) && 0 <= tile < |s.assignments|
    ensures forall d :: d in Destinations(p, s, tile) ==> 0 <= d < |s.loads| && d != s.assignments[tile]
  {
  }

  method ChooseMove(p: Problem, s: Partition, tile: int) returns (best: Option<int>)
    requires WellFormed(p) && Consistent(p, s) && 0 <= tile < |s.assignments|
    ensures BestMove(p, s, tile, Destinations(p, s, tile), best)
  {
    DestinationsInRange(p, s, tile);
    var sourceNeighbors := SumNeighbors(s.assignments, p.edges, tile, s.assignments[tile]);
    var order := Sorted(Destinations(p, s, tile));
    var bestScore: seq<int> := [];
    best := None;
    ghost var seen: set<int> := {};
    for i := 0 to |order|
      invariant seen == Elements(order[..i])
      invariant BestMove(p, s, tile, seen, best)
      invariant best.Some? ==> 0 <= best.value < |s.loads| && bestScore == MoveScore(p, s, tile, best.value)
    {
      var destination := order[i];
      assert destination in Elements(order);
      var admissible, score := Evaluate(p, s, tile, sourceNeighbors, destination);
      BestOfMore(p, s, tile, seen, best, destination);
      if admissible && (best.None? || Lexicographic(score, bestScore)) {
        best, bestScore := Some(destination), score;
      }
      seen := seen + {destination};
      assert order[..i + 1] == order[..i] + [destination];
    }
    assert order[..|order|] == order;
  }

  // ---- one tile, one round, the whole search ----

  /** What every step of the search keeps: exact totals, the load cap and the active tiles. */
  ghost predicate Kept(p: Problem, s: Partition, t: Partition) {
    Consistent(p, t) && Safe(p, s, t)
  }

  lemma MoveSafe(p: Problem, s: Partition, tile: int, thread: int)
    requires WellFormed(p) && Consistent(p, s) && 0 <= tile < |s.assignments| && CanMove(p, s, tile, thread)
    ensures s.loads[s.assignments[tile]] >= p.weights[tile]
    ensures s.activeCounts[s.assignments[tile]] >= One(p.active, tile)
    ensures Kept(p, s, Moved(p, s, tile, thread))
    ensures Cut(Moved(p, s, tile, thread).assignments, p.edges) < Cut(s.assignments, p.edges)
  {
    DestinationsInRange(p, s, tile);
    MovedConsistent(p, s, tile, thread);
    MovePinned(p, s, Moved(p, s, tile, thread), tile, thread);
    MoveKeeps(p, s, Moved(p, s, tile, thread), tile, thread);
  }

  lemma MovePinned(p: Problem, s: Partition, t: Partition, tile: int, thread: int)
    requires Consistent(p, s) && Consistent(p, t) && 0 <= tile < |s.assignments| && 0 <= thread < |s.loads| == |t.loads|
    requires t.assignments == s.assignments[tile := thread] && (t.loads[thread] as real) <= p.maximumLoad
    ensures Pinned(p, s.assignments, t.assignments)
  {
    StaysPinned(p, s, t);
  }

  /** The totals of the two threads change, and those of no other. */
  lemma MoveKeeps(p: Problem, s: Partition, t: Partition, tile: int, thread: int)
    requires 0 <= tile < |s.assignments| == |p.weights| && 0 <= s.assignments[tile] < |s.loads| == |s.activeCounts|
    requires s.loads[s.assignments[tile]] >= p.weights[tile] && s.activeCounts[s.assignments[tile]] >= One(p.active, tile)
    requires 0 <= thread < |s.loads| && thread != s.assignments[tile] && t == Moved(p, s, tile, thread)
    requires (t.loads[thread] as real) <= p.maximumLoad && !(tile in p.active && s.activeCounts[s.assignments[tile]] == 1)
    requires Pinned(p, s.assignments, t.assignments)
    ensures Safe(p, s, t)
  {
  }

  method MoveTo(p: Problem, s: Partition, tile: int, destination: int) returns (t: Partition)
    requires 0 <= tile < |s.assignments| == |p.weights| && 0 <= s.assignments[tile] < |s.loads| == |s.activeCounts|
    requires s.loads[s.assignments[tile]] >= p.weights[tile] && s.activeCounts[s.assignments[tile]] >= One(p.active, tile)
    requires 0 <= destination < |s.loads|
    ensures t == Moved(p, s, tile, destination)
  {
    var source := s.assignments[tile];
    var loads := s.loads[source := s.loads[source] - p.weights[tile]];
    loads := loads[destination := loads[destination] + p.weights[tile]];
    var counts := s.activeCounts;
    if tile in p.active {
      counts := counts[source := counts[source] - 1];
      counts := counts[destination := counts[destination] + 1];
    }
    t := Partition(s.assignments[tile := destination], loads, counts);
  }

  lemma NoneCanMove(p: Problem, s: Partition, tile: int)
    requires 0 <= tile < |s.assignments| == |p.weights| == |p.adjacency|
    requires 0 <= s.assignments[tile] < |s.loads| == |s.activeCounts|
    requires BestMove(p, s, tile, Destinations(p, s, tile), None)
    ensures forall d :: !CanMove(p, s, tile, d)
  {
  }

  ghost predicate AfterMove(p: Problem, s: Partition, tile: int, thread: int, t: Partition) {
    && WellFormed(p) && Consistent(p, s) && 0 <= tile < |s.assignments| && 0 <= thread < |s.loads|
    && (CanLeave(p, s, tile); t == Moved(p, s, tile, thread))
  }

  ghost predicate MakesBestMove(p: Problem, s: Partition, tile: int, thread: int, t: Partition) {
    AfterMove(p, s, tile, thread, t) && BestMove(p, s, tile, Destinations(p, s, tile), Some(thread))
  }

  /** The tile has made its best admissible move, or stays because it has none. */
  ghost predicate TileSteps(p: Problem, s: Partition, tile: int, t: Partition) {
    (NoMove(p, s, tile) && t == s) || exists d :: MakesBestMove(p, s, tile, d, t)
  }

  /** The tile makes its best admissible move, if it has one. */
  method MoveTile(p: Problem, s: Partition, tile: int) returns (t: Partition, changed: bool)
    requires WellFormed(p) && Consistent(p, s) && 0 <= tile < |s.assignments|
    ensures Kept(p, s, t) && TileSteps(p, s, tile, t)
    ensures changed ==> Cut(t.assignments, p.edges) < Cut(s.assignments, p.edges)
    ensures !changed ==> t == s && NoMove(p, s, tile)
  {
    var best := ChooseMove(p, s, tile);
    if best.None? {
      NoneCanMove(p, s, tile);
      SafeAlready(p, s);
      return s, false;
    }
    MoveSafe(p, s, tile, best.value);
    t := MoveTo(p, s, tile, best.value);
    changed := true;
    DestinationsInRange(p, s, tile);
    assert MakesBestMove(p, s, tile, best.value, t);
  }

  lemma SafeAlready(p: Problem, s: Partition)
    requires Consistent(p, s)
    ensures Safe(p, s, s)
  {
  }

  ghost predicate NoMove(p: Problem, s: Partition, tile: int) {
    && 0 <= tile < |s.assignments| == |p.weights| == |p.adjacency|
    && 0 <= s.assignments[tile] < |s.loads| == |s.activeCounts|
    && forall d :: !CanMove(p, s, tile, d)
  }

  /** No tile has an admissible move left. */
  ghost predicate Settled(p: Problem, s: Partition) {
    forall tile :: 0 <= tile < |s.assignments| ==> NoMove(p, s, tile)
  }

  ghost predicate LastTile(p: Problem, s: Partition, order: seq<int>, t: Partition) {
    order != [] && TileSteps(p, s, order[|order| - 1], t)
  }

  /** t is what the tiles make of s, one after the other in the given order. */
  ghost predicate RoundSteps(p: Problem, s: Partition, order: seq<int>, t: Partition) {
    if order == [] then t == s
    else exists u :: RoundSteps(p, s, order[..|order| - 1], u) && LastTile(p, u, order, t)
  }

  lemma NextTile(p: Problem, s: Partition, order: seq<int>, k: nat, u: Partition, t: Partition)
    requires k < |order| && RoundSteps(p, s, order[..k], u) && TileSteps(p, u, order[k], t)
    ensures RoundSteps(p, s, order[..k + 1], t)
  {
    assert order[..k + 1][..k] == order[..k];
    assert LastTile(p, u, order[..k + 1], t);
  }

  /** Each tile once, in the given order. */
  method MoveRound(p: Problem, s: Partition, order: seq<int>) returns (t: Partition, changed: bool)
    requires WellFormed(p) && Consistent(p, s) && IsPermutation(order, |p.weights|)
    ensures Kept(p, s, t) && RoundSteps(p, s, order, t)
    ensures changed ==> Cut(t.assignments, p.edges) < Cut(s.assignments, p.edges)
    ensures !changed ==> t == s && Settled(p, s)
  {
    t, changed := s, false;
    for k := 0 to |order|
      invariant Kept(p, s, t) && RoundSteps(p, s, order[..k], t)
      invariant changed ==> Cut(t.assignments, p.edges) < Cut(s.assignments, p.edges)
      invariant !changed ==> t == s && forall j :: 0 <= j < k ==> NoMove(p, s, order[j])
    {
      ghost var u := t;
      var moved: bool;
      t, moved := MoveTile(p, t, order[k]);
      SafeTrans(p, s, u, t);
      NextTile(p, s, order, k, u, t);
      changed := changed || moved;
    }
    assert order[..|order|] == order;
    if !changed {
      forall tile | 0 <= tile < |s.assignments| ensures NoMove(p, s, tile) {
        PermutationCovers(order, |p.weights|, tile);
        var j :| 0 <= j < |order| && order[j] == tile;
      }
    }
  }

  ghost predicate LastRound(p: Problem, shuffle: nat -> seq<int>, s: Partition, t: Partition, n: nat) {
    n > 0 && RoundSteps(p, s, shuffle(n - 1), t)
  }

  /** t is what n rounds make of s, in the orders shuffle(0), shuffle(1) and so on. */
  ghost predicate Rounds(p: Problem, shuffle: nat -> seq<int>, s: Partition, t: Partition, n: nat)
    decreases n
  {
    if n == 0 then t == s
    else exists u :: Rounds(p, shuffle, s, u, n - 1) && LastRound(p, shuffle, u, t, n)
  }

  lemma {:induction false} SettledRound(p: Problem, s: Partition, order: seq<int>)
    requires Settled(p, s) && forall i :: 0 <= i < |order| ==> 0 <= order[i] < |s.assignments|
    ensures RoundSteps(p, s, order, s)
    decreases |order|
  {
    if order != [] {
      SettledRound(p, s, order[..|order| - 1]);
      assert NoMove(p, s, order[|order| - 1]);
      assert LastTile(p, s, order, s);
    }
  }

  /** Stopping at a settled partition loses nothing: further rounds would leave it as it is. */
  lemma {:induction false} SettledRounds(p: Problem, shuffle: nat -> seq<int>, s: Partition, t: Partition, k: nat, n: nat)
    requires Settled(p, t) && |t.assignments| == |p.weights| && Rounds(p, shuffle, s, t, k) && k <= n
    requires forall i :: IsPermutation(shuffle(i), |p.weights|)
    ensures Rounds(p, shuffle, s, t, n)
    decreases n
  {
    if k < n {
      SettledRounds(p, shuffle, s, t, k, n - 1);
      assert IsPermutation(shuffle(n - 1), |p.weights|);
      SettledRound(p, t, shuffle(n - 1));
      assert LastRound(p, shuffle, t, t, n);
    }
  }

  // ---- the outcome is determined ----

  lemma MakesBestMoveUnique(p: Problem, s: Partition, tile: int, d: int, e: int, t: Partition, u: Partition)
    requires MakesBestMove(p, s, tile, d, t) && MakesBestMove(p, s, tile, e, u)
    ensures t == u
  {
    var x, y := MoveScore(p, s, tile, d), MoveScore(p, s, tile, e);
    assert x[2] == d && y[2] == e;
    if d != e { LexicographicTotal(x, y); }
  }

  lemma TileStepsUnique(p: Problem, s: Partition, tile: int, t: Partition, u: Partition)
    requires TileSteps(p, s, tile, t) && TileSteps(p, s, tile, u)
    ensures t == u
  {
    if d, e :| MakesBestMove(p, s, tile, d, t) && MakesBestMove(p, s, tile, e, u) {
      MakesBestMoveUnique(p, s, tile, d, e, t, u);
    }
  }

  lemma {:induction false} RoundStepsUnique(p: Problem, s: Partition, order: seq<int>, t: Partition, u: Partition)
    requires RoundSteps(p, s, order, t) && RoundSteps(p, s, order, u)
    ensures t == u
    decreases |order|
  {
    if order != [] {
      var n := |order| - 1;
      var x :| RoundSteps(p, s, order[..n], x) && LastTile(p, x, order, t);
      var y :| RoundSteps(p, s, order[..n], y) && LastTile(p, y, order, u);
      RoundStepsUnique(p, s, order[..n], x, y);
      TileStepsUnique(p, x, order[n], t, u);
    }
  }

  /** The start and the orders determine what the rounds make of it. */
  lemma {:induction false} RoundsUnique(p: Problem, shuffle: nat -> seq<int>, s: Partition, t: Partition, u: Partition, n: nat)
    requires Rounds(p, shuffle, s, t, n) && Rounds(p, shuffle, s, u, n)
    ensures t == u
    decreases n
  {
    if n > 0 {
      var x :| Rounds(p, shuffle, s, x, n - 1) && LastRound(p, shuffle, x, t, n);
      var y :| Rounds(p, shuffle, s, y, n - 1) && LastRound(p, shuffle, y, u, n);
      RoundsUnique(p, shuffle, s, x, y, n - 1);
      RoundStepsUnique(p, x, shuffle(n - 1), t, u);
    }
  }

  /** After k rounds from s, each of which changed something. */
  ghost predicate Running(p: Problem, shuffle: nat -> seq<int>, s: Partition, t: Partition, k: nat) {
    && Kept(p, s, t) && Rounds(p, shuffle, s, t, k)
    && Cut(t.assignments, p.edges) + k <= Cut(s.assignments, p.edges)
    && (t == s || Cut(t.assignments, p.edges) < Cut(s.assignments, p.edges))
  }

  lemma AnotherRound(p: Problem, shuffle: nat -> seq<int>, s: Partition, t: Partition, u: Partition, k: nat)
    requires Running(p, shuffle, s, t, k) && Kept(p, t, u) && RoundSteps(p, t, shuffle(k), u)
    requires Cut(u.assignments, p.edges) < Cut(t.assignments, p.edges)
    ensures Running(p, shuffle, s, u, k + 1)
  {
    SafeTrans(p, s, t, u);
    assert LastRound(p, shuffle, t, u, k + 1);
  }

  /** What the search hands back. */
  ghost predicate Refined(p: Problem, shuffle: nat -> seq<int>, s: Partition, t: Partition) {
    && Kept(p, s, t) && Rounds(p, shuffle, s, t, 100)
    && (Settled(p, t) || Cut(t.assignments, p.edges) + 100 <= Cut(s.assignments, p.edges))
    && (t == s || Cut(t.assignments, p.edges) < Cut(s.assignments, p.edges))
  }

  lemma StopsAt(p: Problem, shuffle: nat -> seq<int>, s: Partition, t: Partition, k: nat)
    requires Running(p, shuffle, s, t, k) && k <= 100 && (k == 100 || Settled(p, t))
    requires forall i :: IsPermutation(shuffle(i), |p.weights|)
    ensures Refined(p, shuffle, s, t)
  {
    if k < 100 { SettledRounds(p, shuffle, s, t, k, 100); }
  }

  method NextRound(p: Problem, s: Partition, t: Partition, shuffle: nat -> seq<int>, k: nat)
    returns (u: Partition, changed: bool)
    requires WellFormed(p) && Running(p, shuffle, s, t, k) && k < 100
    requires forall i :: IsPermutation(shuffle(i), |p.weights|)
    ensures changed ==> Running(p, shuffle, s, u, k + 1)
    ensures !changed ==> Refined(p, shuffle, s, u)
  {
    u, changed := MoveRound(p, t, shuffle(k));
    if changed {
      AnotherRound(p, shuffle, s, t, u, k);
    } else {
      StopsAt(p, shuffle, s, t, k);
    }
  }

  /** Rounds until nothing changes, at most a hundred; each round lowers the cut. */
  method MoveRounds(p: Problem, s: Partition, shuffle: nat -> seq<int>) returns (t: Partition)
    requires WellFormed(p) && Consistent(p, s) && forall k :: IsPermutation(shuffle(k), |p.weights|)
    ensures Refined(p, shuffle, s, t)
  {
    t := s;
    SafeAlready(p, s);
    for k := 0 to 100
      invariant Running(p, shuffle, s, t, k)
    {
      var changed;
      t, changed := NextRound(p, s, t, shuffle, k);
      if !changed { return t; }
    }
    StopsAt(p, shuffle, s, t, 100);
  }

  /** Exactly what a hundred rounds make of the start, found by stopping at the first round that changes
      nothing. The orders are those of the random generator: any permutations. */
  method RefinePartition(p: Problem, assignments: seq<int>, loads: seq<nat>, shuffle: nat -> seq<int>)
    returns (t: Partition, ghost s: Partition)
    requires WellFormed(p) && |assignments| == |p.weights| && Placed(assignments, |assignments|, |loads|)
    requires forall i :: 0 <= i < |loads| ==> loads[i] == Load(assignments, p.weights, |assignments|, i)
    requires forall k :: IsPermutation(shuffle(k), |p.weights|)
    ensures s.assignments == assignments && s.loads == loads && Consistent(p, s)
    ensures Refined(p, shuffle, s, t)
  {
    var counts := CountActive(assignments, p.active, |loads|);
    s := Partition(assignments, loads, counts);
    t := MoveRounds(p, Partition(assignments, loads, counts), shuffle);
  }
}
