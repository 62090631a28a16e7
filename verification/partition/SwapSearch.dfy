/** The rounds of the second local search. */
module SwapSearch {
  import opened Iteration
  import opened Options
  import opened SortedSets
  import opened GreedyPlacement
  import opened Cuts
  import opened Balance
  import opened LptPartition
  import opened Swaps

  method ScanTile(p: Problem, s: Partition, first: int, best: Option<(int, int)>, score: seq<int>, ghost some: set<(int, int)>)
    returns (better: Option<(int, int)>, betterScore: seq<int>)
    requires Tracked(p, s, some, best, score) && 0 <= first < |s.assignments|
    ensures Tracked(p, s, some + PairsFrom(p, s, first), better, betterScore)
  {
    better, betterScore := best, score;
    var threads := Sorted(HeavyThreads(p, s, first));
    ghost var seen: set<(int, int)> := {};
    for k := 0 to |threads|
      invariant seen == PairsOnThreads(p, s, first, threads[..k])
      invariant Tracked(p, s, some + seen, better, betterScore)
    {
      var thread := threads[k];
      assert thread in Elements(threads);
      better, betterScore := ScanThread(p, s, first, thread, better, betterScore, some + seen);
      OneMoreThread(p, s, first, threads, k);
      assert some + seen + PairsTo(p, s, first, thread) == some + (seen + PairsTo(p, s, first, thread));
      seen := seen + PairsTo(p, s, first, thread);
    }
    AllThreads(p, s, first, threads);
  }

  ghost function PairsOnThreads(p: Problem, s: Partition, first: int, threads: seq<int>): set<(int, int)> {
    set e | e in PairsFrom(p, s, first) && s.assignments[e.1] in threads
  }

  lemma OneMoreThread(p: Problem, s: Partition, first: int, threads: seq<int>, k: nat)
    requires k < |threads|
    ensures PairsOnThreads(p, s, first, threads[..k + 1]) == PairsOnThreads(p, s, first, threads[..k]) + PairsTo(p, s, first, threads[k])
  {
    assert threads[..k + 1] == threads[..k] + [threads[k]];
  }

  lemma AllThreads(p: Problem, s: Partition, first: int, threads: seq<int>)
    requires 0 <= first < |s.assignments| && |p.edges| == |s.assignments| && Elements(threads) == HeavyThreads(p, s, first)
    ensures PairsOnThreads(p, s, first, threads[..|threads|]) == PairsFrom(p, s, first)
  {
    assert threads[..|threads|] == threads;
    assert forall e :: e in PairsFrom(p, s, first) ==> s.assignments[e.1] in Elements(threads);
  }

  ghost function PairsFromFirst(p: Problem, s: Partition, order: seq<int>, k: nat): set<(int, int)>
    requires k <= |order|
  {
    set e | e in AllPairs(p, s) && e.0 in order[..k]
  }

  /** Looks at every candidate pair, in the order given. */
  method FindBestSwap(p: Problem, s: Partition, order: seq<int>) returns (best: Option<(int, int)>)
    requires WellFormed(p) && Consistent(p, s) && IsPermutation(order, |p.weights|)
    ensures BestSwap(p, s, AllPairs(p, s), best)
  {
    best := None;
    var score: seq<int> := [];
    for k := 0 to |order|
      invariant Tracked(p, s, PairsFromFirst(p, s, order, k), best, score)
    {
      best, score := ScanTile(p, s, order[k], best, score, PairsFromFirst(p, s, order, k));
      assert order[..k + 1] == order[..k] + [order[k]];
      assert PairsFromFirst(p, s, order, k + 1) == PairsFromFirst(p, s, order, k) + PairsFrom(p, s, order[k]);
    }
    forall e | e in AllPairs(p, s) ensures e.0 in order[..|order|] {
      PermutationCovers(order, |p.weights|, e.0);
    }
    assert PairsFromFirst(p, s, order, |order|) == AllPairs(p, s);
  }

  /** No candidate pair is admissible. */
  ghost predicate NoSwap(p: Problem, s: Partition) {
    forall first, second :: Candidate(p, s, first, second) ==> !CanSwap(p, s, first, second)
  }

  ghost predicate AfterExchange(p: Problem, s: Partition, e: (int, int), u: Partition) {
    && Exchangeable(p, s, e.0, e.1)
    && (CanExchange(p, s, e.0, e.1); u == Exchanged(p, s, e.0, e.1))
  }

  /** u is s after its best exchange. */
  ghost predicate Steps(p: Problem, s: Partition, u: Partition) {
    exists e :: BestSwap(p, s, AllPairs(p, s), Some(e)) && AfterExchange(p, s, e, u)
  }

  ghost function Step(p: Problem): (Partition, Partition) -> bool {
    (s: Partition, u: Partition) => Steps(p, s, u)
  }

  ghost function Halts(p: Problem): Partition -> bool {
    (s: Partition) => NoSwap(p, s)
  }

  /** t is what n rounds of best exchanges make of s, ending early when there is none. */
  ghost predicate Exchanges(p: Problem, s: Partition, t: Partition, n: nat) {
    Iterates(Step(p), Halts(p), s, t, n)
  }

  lemma NoneIsNoSwap(p: Problem, s: Partition)
    ensures BestSwap(p, s, AllPairs(p, s), None) <==> NoSwap(p, s)
  {
    if BestSwap(p, s, AllPairs(p, s), None) {
      forall first, second | Candidate(p, s, first, second) ensures !CanSwap(p, s, first, second) {
        assert (first, second) in AllPairs(p, s);
      }
    }
  }

  lemma StepsUnique(p: Problem, s: Partition, u: Partition, v: Partition)
    requires Steps(p, s, u) && Steps(p, s, v)
    ensures u == v
  {
    var e :| BestSwap(p, s, AllPairs(p, s), Some(e)) && AfterExchange(p, s, e, u);
    var f :| BestSwap(p, s, AllPairs(p, s), Some(f)) && AfterExchange(p, s, f, v);
    BestSwapUnique(p, s, AllPairs(p, s), Some(e), Some(f));
  }

  lemma NotBoth(p: Problem, s: Partition, u: Partition)
    requires Steps(p, s, u)
    ensures !NoSwap(p, s)
  {
    var e :| BestSwap(p, s, AllPairs(p, s), Some(e)) && AfterExchange(p, s, e, u);
    assert Candidate(p, s, e.0, e.1);
  }

  /** The outcome depends on the problem and the start alone, not on the order of the search. */
  lemma ExchangesUnique(p: Problem, s: Partition, t: Partition, u: Partition, n: nat)
    requires Exchanges(p, s, t, n) && Exchanges(p, s, u, n)
    ensures t == u
  {
    forall a, b, c | Step(p)(a, b) && Step(p)(a, c) ensures b == c {
      StepsUnique(p, a, b, c);
    }
    forall a, b | Step(p)(a, b) ensures !Halts(p)(a) {
      NotBoth(p, a, b);
    }
    IteratesUnique(Step(p), Halts(p), s, t, u, n);
  }

  /** `step` holds of every best exchange and `halts` of every state without one. */
  ghost predicate Covers(p: Problem, step: (Partition, Partition) -> bool, halts: Partition -> bool) {
    && (forall s, u :: Steps(p, s, u) ==> step(s, u))
    && forall s :: NoSwap(p, s) ==> halts(s)
  }

  /** A round that finds an exchange carries out the best one. */
  method SwapRound(p: Problem, s: Partition, order: seq<int>, ghost step: (Partition, Partition) -> bool,
                   ghost halts: Partition -> bool)
    returns (t: Partition, changed: bool)
    requires WellFormed(p) && Consistent(p, s) && IsPermutation(order, |p.weights|) && Covers(p, step, halts)
    ensures Consistent(p, t) && Safe(p, s, t)
    ensures changed ==> step(s, t) && Cut(t.assignments, p.edges) < Cut(s.assignments, p.edges)
    ensures !changed ==> t == s && halts(s)
  {
    var best := FindBestSwap(p, s, order);
    NoneIsNoSwap(p, s);
    if best.None? {
      return s, false;
    }
    var e := best.value;
    ExchangeSafe(p, s, e.0, e.1);
    t := Exchange(p, s, e.0, e.1);
    assert AfterExchange(p, s, e, t);
    changed := true;
  }

  /** After k exchanges from s. */
  ghost predicate Running(p: Problem, step: (Partition, Partition) -> bool, s: Partition, t: Partition, k: nat) {
    && Consistent(p, t) && Safe(p, s, t) && Trail(step, s, t, k)
    && Cut(t.assignments, p.edges) + k <= Cut(s.assignments, p.edges)
    && (t == s || Cut(t.assignments, p.edges) < Cut(s.assignments, p.edges))
  }

  lemma AnotherRound(p: Problem, step: (Partition, Partition) -> bool, s: Partition, t: Partition, u: Partition, k: nat)
    requires Running(p, step, s, t, k) && Consistent(p, u) && Safe(p, t, u) && step(t, u)
    requires Cut(u.assignments, p.edges) < Cut(t.assignments, p.edges)
    ensures Running(p, step, s, u, k + 1)
  {
    SafeTrans(p, s, t, u);
    OneMoreStep(step, s, t, u, k);
  }

  method SwapRounds(p: Problem, s: Partition, shuffle: nat -> seq<int>, ghost step: (Partition, Partition) -> bool,
                    ghost halts: Partition -> bool)
    returns (t: Partition)
    requires WellFormed(p) && Consistent(p, s) && Covers(p, step, halts)
    requires forall k :: IsPermutation(shuffle(k), |p.weights|)
    ensures Consistent(p, t) && Safe(p, s, t) && Iterates(step, halts, s, t, 200)
    ensures halts(t) || Cut(t.assignments, p.edges) + 200 <= Cut(s.assignments, p.edges)
    ensures t == s || Cut(t.assignments, p.edges) < Cut(s.assignments, p.edges)
  {
    t := s;
    for k := 0 to 200
      invariant Running(p, step, s, t, k)
    {
      var u, changed := SwapRound(p, t, shuffle(k), step, halts);
      if !changed {
        TrailEnds(step, halts, s, t, k, 200);
        return t;
      }
      AnotherRound(p, step, s, t, u, k);
      t := u;
    }
    TrailEnds(step, halts, s, t, 200, 200);
  }

  /** At most two hundred exchanges, each lowering the cut. The orders are those of the random generator:
      any permutations, and the result does not depend on them. */
  method RefinePartitionSwaps(p: Problem, assignments: seq<int>, loads: seq<nat>, shuffle: nat -> seq<int>)
    returns (t: Partition, ghost s: Partition)
    requires WellFormed(p) && |assignments| == |p.weights| && Placed(assignments, |assignments|, |loads|)
    requires forall i :: 0 <= i < |loads| ==> loads[i] == Load(assignments, p.weights, |assignments|, i)
    requires forall k :: IsPermutation(shuffle(k), |p.weights|)
    ensures s.assignments == assignments && s.loads == loads && Consistent(p, s)
    ensures Consistent(p, t) && Safe(p, s, t) && Exchanges(p, s, t, 200)
    ensures NoSwap(p, t) || Cut(t.assignments, p.edges) + 200 <= Cut(assignments, p.edges)
    ensures t == s || Cut(t.assignments, p.edges) < Cut(assignments, p.edges)
  {
    var counts := CountActive(assignments, p.active, |loads|);
    s := Partition(assignments, loads, counts);
    t := SwapRounds(p, Partition(assignments, loads, counts), shuffle, Step(p), Halts(p));
  }
}
