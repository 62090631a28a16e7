/** The third local search: exchanges that lower the sum over the phases of the busiest thread's work,
    under a cap on the cut. */
module PhaseSearch {
  import opened Iteration
  import opened LexicographicOrder
  import opened Options
  import opened GreedyPlacement
  import opened Cuts
  import opened Balance
  import opened Swaps
  import opened Phases
  import opened PhaseTables

  const THRESHOLD := -0.000000001

  /** What the phase search adds to the problem. */
  datatype PhaseProblem = PhaseProblem(problem: Problem, vectors: Vectors, maximumCut: real)

  /** The table computed from scratch. */
  ghost function TableOf(a: seq<int>, pv: Vectors, phases: nat, m: nat): Table {
    seq(phases, ph requires 0 <= ph => seq(m, t => PhaseLoad(a, pv, ph, t, |a|)))
  }

  /** The critical load computed from scratch. */
  ghost function CriticalOf(a: seq<int>, pv: Vectors, phases: nat, m: nat): real
    requires m > 0
  {
    Critical(TableOf(a, pv, phases, m))
  }

  lemma TableFromScratch(a: seq<int>, pv: Vectors, pl: Table, m: nat)
    requires IsTable(a, pv, pl, m)
    ensures pl == TableOf(a, pv, |pl|, m)
  {
    var r := TableOf(a, pv, |pl|, m);
    forall ph | 0 <= ph < |pl| ensures pl[ph] == r[ph] {
      assert |r[ph]| == m;
      forall t | 0 <= t < m ensures pl[ph][t] == r[ph][t] {}
    }
  }

  ghost predicate PhaseSound(q: PhaseProblem, s: Partition, pl: Table, cut: int) {
    && WellFormed(q.problem) && Consistent(q.problem, s) && |s.loads| > 0
    && IsTable(s.assignments, q.vectors, pl, |s.loads|)
    && cut == Cut(s.assignments, q.problem.edges)
  }

  ghost function CriticalChangeOf(q: PhaseProblem, s: Partition, phases: nat, first: int, second: int): real
    requires InRange(s, first, second) && |s.loads| > 0
  {
    CriticalOf(Swapped(s.assignments, first, second), q.vectors, phases, |s.loads|)
    - CriticalOf(s.assignments, q.vectors, phases, |s.loads|)
  }

  /** The exchange fits, lowers the critical load by more than the threshold and keeps the cut capped. */
  ghost predicate CanPhaseSwap(q: PhaseProblem, s: Partition, phases: nat, first: int, second: int) {
    && Exchangeable(q.problem, s, first, second) && |s.loads| > 0 && first < second && Fits(q.problem, s, first, second)
    && CriticalChangeOf(q, s, phases, first, second) < THRESHOLD
    && (Cut(Swapped(s.assignments, first, second), q.problem.edges) as real) <= q.maximumCut
  }

  datatype PhaseScore = PhaseScore(delta: real, rest: seq<int>)

  predicate Better(x: PhaseScore, y: PhaseScore) {
    x.delta < y.delta || (x.delta == y.delta && Lexicographic(x.rest, y.rest))
  }

  /** Exchanges compare by critical load, then cut, then the larger load, then tiles. */
  ghost function ScoreOf(q: PhaseProblem, s: Partition, phases: nat, first: int, second: int): PhaseScore
    requires Exchangeable(q.problem, s, first, second) && |s.loads| > 0
  {
    PhaseScore(CriticalChangeOf(q, s, phases, first, second),
               [CutAfterSwap(q.problem, s, first, second),
                Larger(SourceLoad(q.problem, s, first, second), SourceLoad(q.problem, s, second, first)), first, second])
  }

  ghost predicate Tops(q: PhaseProblem, s: Partition, phases: nat, e: (int, int), f: (int, int))
    requires Exchangeable(q.problem, s, e.0, e.1) && Exchangeable(q.problem, s, f.0, f.1) && |s.loads| > 0
  {
    Better(ScoreOf(q, s, phases, e.0, e.1), ScoreOf(q, s, phases, f.0, f.1))
  }

  ghost predicate BestPhaseSwap(q: PhaseProblem, s: Partition, phases: nat, some: set<(int, int)>, best: Option<(int, int)>) {
    match best
    case None => forall e :: e in some ==> !CanPhaseSwap(q, s, phases, e.0, e.1)
    case Some(b) =>
      && b in some && CanPhaseSwap(q, s, phases, b.0, b.1)
      && forall e :: e in some && CanPhaseSwap(q, s, phases, e.0, e.1) ==> !Tops(q, s, phases, e, b)
  }

  lemma BetterTrans(x: PhaseScore, y: PhaseScore, z: PhaseScore)
    requires Better(x, y) && Better(y, z)
    ensures Better(x, z)
  {
    if x.delta == y.delta == z.delta {
      LexicographicTrans(x.rest, y.rest, z.rest);
    }
  }

  lemma BestOfMore(q: PhaseProblem, s: Partition, phases: nat, some: set<(int, int)>, best: Option<(int, int)>, e: (int, int))
    requires BestPhaseSwap(q, s, phases, some, best)
    ensures !CanPhaseSwap(q, s, phases, e.0, e.1) ==> BestPhaseSwap(q, s, phases, some + {e}, best)
    ensures CanPhaseSwap(q, s, phases, e.0, e.1) && best.None? ==> BestPhaseSwap(q, s, phases, some + {e}, Some(e))
    ensures CanPhaseSwap(q, s, phases, e.0, e.1) && best.Some? && !Tops(q, s, phases, e, best.value) ==>
              BestPhaseSwap(q, s, phases, some + {e}, best)
    ensures CanPhaseSwap(q, s, phases, e.0, e.1) && best.Some? && Tops(q, s, phases, e, best.value) ==>
              BestPhaseSwap(q, s, phases, some + {e}, Some(e))
  {
    if CanPhaseSwap(q, s, phases, e.0, e.1) {
      var x := ScoreOf(q, s, phases, e.0, e.1);
      LexicographicIrreflexive(x.rest);
      if best.Some? && Tops(q, s, phases, e, best.value) {
        var y := ScoreOf(q, s, phases, best.value.0, best.value.1);
        forall f | f in some && CanPhaseSwap(q, s, phases, f.0, f.1) ensures !Tops(q, s, phases, f, e) {
          if Tops(q, s, phases, f, e) {
            BetterTrans(ScoreOf(q, s, phases, f.0, f.1), x, y);
          }
        }
      }
    }
  }

  /** Evaluates one pair of tiles. */
  method EvaluatePair(q: PhaseProblem, s: Partition, pl: Table, cut: int, first: int, second: int) returns (admissible: bool, score: PhaseScore)
    requires PhaseSound(q, s, pl, cut) && InRange(s, first, second) && first < second
    ensures admissible == CanPhaseSwap(q, s, |pl|, first, second)
    ensures admissible ==> score == ScoreOf(q, s, |pl|, first, second)
  {
    score := PhaseScore(0.0, []);
    if s.assignments[first] == s.assignments[second] { return false, score; }
    if !Fits(q.problem, s, first, second) { return false, score; }
    var delta := ExactDelta(q, s, pl, cut, first, second);
    if delta >= THRESHOLD { return false, score; }
    var cutDelta := SwapCutDelta(s.assignments, q.problem.edges, first, second);
    if ((cut + cutDelta) as real) > q.maximumCut { return false, score; }
    var sourceLoad, destinationLoad := SourceLoad(q.problem, s, first, second), SourceLoad(q.problem, s, second, first);
    return true, PhaseScore(delta, [cutDelta, Larger(sourceLoad, destinationLoad), first, second]);
  }

  /** The change accumulated over the affected phases is the change of the critical load recomputed. */
  method ExactDelta(q: PhaseProblem, s: Partition, pl: Table, cut: int, first: int, second: int) returns (delta: real)
    requires PhaseSound(q, s, pl, cut) && Exchangeable(q.problem, s, first, second)
    ensures delta == CriticalChangeOf(q, s, |pl|, first, second)
  {
    ghost var after: Table;
    delta, after := PhaseDelta(pl, s.assignments, q.vectors, |s.loads|, first, second);
    TableFromScratch(s.assignments, q.vectors, pl, |s.loads|);
    TableFromScratch(Swapped(s.assignments, first, second), q.vectors, after, |s.loads|);
  }

  ghost predicate TrackedPhase(q: PhaseProblem, s: Partition, phases: nat, some: set<(int, int)>, best: Option<(int, int)>, score: PhaseScore) {
    && BestPhaseSwap(q, s, phases, some, best)
    && (best.Some? ==> score == ScoreOf(q, s, phases, best.value.0, best.value.1))
  }

  method ConsiderPair(q: PhaseProblem, s: Partition, pl: Table, cut: int, first: int, second: int,
                      best: Option<(int, int)>, score: PhaseScore, ghost some: set<(int, int)>)
    returns (better: Option<(int, int)>, betterScore: PhaseScore)
    requires PhaseSound(q, s, pl, cut) && InRange(s, first, second) && first < second
    requires TrackedPhase(q, s, |pl|, some, best, score)
    ensures TrackedPhase(q, s, |pl|, some + {(first, second)}, better, betterScore)
  {
    better, betterScore := best, score;
    BestOfMore(q, s, |pl|, some, best, (first, second));
    var admissible, candidate := EvaluatePair(q, s, pl, cut, first, second);
    if admissible && (best.None? || Better(candidate, score)) {
      better, betterScore := Some((first, second)), candidate;
    }
  }

  ghost predicate Earlier(e: (int, int), n: nat, first: int, second: int) {
    0 <= e.0 < e.1 < n && (e.0 < first || (e.0 == first && e.1 < second))
  }

  /** The pairs looked at before (first, second). */
  ghost function PairsBefore(n: nat, first: int, second: int): set<(int, int)> {
    set i, j | 0 <= i < n && 0 <= j < n && Earlier((i, j), n, first, second) :: (i, j)
  }

  ghost function OrderedPairs(n: nat): set<(int, int)> {
    set i, j | 0 <= i < n && 0 <= j < n && Earlier((i, j), n, n, 0) :: (i, j)
  }

  lemma PairsGrow(n: nat, first: int, second: int)
    requires 0 <= first < second < n
    ensures PairsBefore(n, first, second + 1) == PairsBefore(n, first, second) + {(first, second)}
  {
    forall e ensures e in PairsBefore(n, first, second + 1) <==> e in PairsBefore(n, first, second) + {(first, second)} {}
  }

  lemma NextRow(n: nat, first: int)
    requires 0 <= first < n
    ensures PairsBefore(n, first, n) == PairsBefore(n, first + 1, first + 2)
  {
    forall e ensures e in PairsBefore(n, first, n) <==> e in PairsBefore(n, first + 1, first + 2) {}
  }

  /** The pairs of one tile with the later ones. */
  method ScanFrom(q: PhaseProblem, s: Partition, pl: Table, cut: int, first: nat, best: Option<(int, int)>, score: PhaseScore)
    returns (better: Option<(int, int)>, betterScore: PhaseScore)
    requires PhaseSound(q, s, pl, cut) && first < |s.assignments|
    requires TrackedPhase(q, s, |pl|, PairsBefore(|s.assignments|, first, first + 1), best, score)
    ensures TrackedPhase(q, s, |pl|, PairsBefore(|s.assignments|, first + 1, first + 2), better, betterScore)
  {
    better, betterScore := best, score;
    var n := |s.assignments|;
    ghost var seen := PairsBefore(n, first, first + 1);
    for second := first + 1 to n
      invariant seen == PairsBefore(n, first, second)
      invariant TrackedPhase(q, s, |pl|, seen, better, betterScore)
    {
      better, betterScore := ConsiderPair(q, s, pl, cut, first, second, better, betterScore, seen);
      PairsGrow(n, first, second);
      seen := seen + {(first, second)};
    }
    NextRow(n, first);
  }

  lemma AllOrdered(n: nat)
    ensures OrderedPairs(n) == PairsBefore(n, n, n + 1)
  {
    forall e ensures e in OrderedPairs(n) <==> e in PairsBefore(n, n, n + 1) {}
  }

  lemma NothingBefore(n: nat)
    ensures PairsBefore(n, 0, 1) == {}
  {
    forall e ensures e !in PairsBefore(n, 0, 1) {}
  }

  /** Looks at every pair of tiles. */
  method FindBestPair(q: PhaseProblem, s: Partition, pl: Table, cut: int) returns (best: Option<(int, int)>)
    requires PhaseSound(q, s, pl, cut)
    ensures BestPhaseSwap(q, s, |pl|, OrderedPairs(|s.assignments|), best)
  {
    best := None;
    var score := PhaseScore(0.0, []);
    var n := |s.assignments|;
    NothingBefore(n);
    for first := 0 to n
      invariant TrackedPhase(q, s, |pl|, PairsBefore(n, first, first + 1), best, score)
    {
      best, score := ScanFrom(q, s, pl, cut, first, best, score);
    }
    AllOrdered(n);
  }

  /** No exchange is admissible. */
  ghost predicate NoPhaseSwap(q: PhaseProblem, s: Partition, phases: nat) {
    forall first, second :: 0 <= first < second < |s.assignments| ==> !CanPhaseSwap(q, s, phases, first, second)
  }

  lemma NoneIsNoPhaseSwap(q: PhaseProblem, s: Partition, phases: nat)
    requires BestPhaseSwap(q, s, phases, OrderedPairs(|s.assignments|), None)
    ensures NoPhaseSwap(q, s, phases)
  {
    forall first, second | 0 <= first < second < |s.assignments| ensures !CanPhaseSwap(q, s, phases, first, second) {
      assert (first, second) in OrderedPairs(|s.assignments|);
    }
  }

  /** What the search hands back after k exchanges: everything as recomputed from scratch. */
  ghost predicate Improved(q: PhaseProblem, s: Partition, t: Partition, pl: Table, cut: int, k: nat) {
    && PhaseSound(q, t, pl, cut) && Safe(q.problem, s, t) && |s.loads| > 0
    && CriticalOf(t.assignments, q.vectors, |pl|, |t.loads|)
       <= CriticalOf(s.assignments, q.vectors, |pl|, |s.loads|) + THRESHOLD * (k as real)
    && (k > 0 ==> (cut as real) <= q.maximumCut)
    && (k == 0 ==> t == s)
  }

  /** Carries out one exchange on all running totals. */
  method ApplyPair(q: PhaseProblem, s: Partition, pl: Table, cut: int, first: int, second: int)
    returns (t: Partition, ql: Table, newCut: int)
    requires PhaseSound(q, s, pl, cut) && CanPhaseSwap(q, s, |pl|, first, second)
    ensures PhaseSound(q, t, ql, newCut) && |ql| == |pl| && Safe(q.problem, s, t)
    ensures AfterPhaseExchange(q, s, first, second, t)
  {
    ExchangeSafe(q.problem, s, first, second);
    t := Exchange(q.problem, s, first, second);
    ql := ExchangeRows(pl, s.assignments, q.vectors, |s.loads|, first, second);
    var delta := SwapCutDelta(s.assignments, q.problem.edges, first, second);
    newCut := cut + delta;
  }

  ghost predicate AfterPhaseExchange(q: PhaseProblem, s: Partition, first: int, second: int, t: Partition) {
    && Exchangeable(q.problem, s, first, second)
    && (CanExchange(q.problem, s, first, second); t == Exchanged(q.problem, s, first, second))
  }

  ghost predicate MakesBestExchange(q: PhaseProblem, phases: nat, s: Partition, e: (int, int), t: Partition) {
    BestPhaseSwap(q, s, phases, OrderedPairs(|s.assignments|), Some(e)) && AfterPhaseExchange(q, s, e.0, e.1, t)
  }

  /** t is s after its best exchange. */
  ghost predicate PhaseSteps(q: PhaseProblem, phases: nat, s: Partition, t: Partition) {
    exists e :: MakesBestExchange(q, phases, s, e, t)
  }

  ghost function PhaseStep(q: PhaseProblem, phases: nat): (Partition, Partition) -> bool {
    (s: Partition, t: Partition) => PhaseSteps(q, phases, s, t)
  }

  /** t is s after k best exchanges, one after the other. */
  ghost predicate PhaseExchanges(q: PhaseProblem, phases: nat, s: Partition, t: Partition, k: nat) {
    Trail(PhaseStep(q, phases), s, t, k)
  }

  lemma BetterTotal(x: PhaseScore, y: PhaseScore)
    requires |x.rest| == |y.rest| && x.rest != y.rest
    ensures Better(x, y) || Better(y, x)
  {
    LexicographicTotal(x.rest, y.rest);
  }

  /** The score names the pair: of two admissible pairs one is better. */
  lemma OneTops(q: PhaseProblem, s: Partition, phases: nat, e: (int, int), f: (int, int))
    requires Exchangeable(q.problem, s, e.0, e.1) && Exchangeable(q.problem, s, f.0, f.1) && |s.loads| > 0 && e != f
    ensures Tops(q, s, phases, e, f) || Tops(q, s, phases, f, e)
  {
    var x, y := ScoreOf(q, s, phases, e.0, e.1), ScoreOf(q, s, phases, f.0, f.1);
    assert (x.rest[2], x.rest[3]) == e && (y.rest[2], y.rest[3]) == f;
    BetterTotal(x, y);
  }

  lemma BestPairUnique(q: PhaseProblem, s: Partition, phases: nat, some: set<(int, int)>, e: (int, int), f: (int, int))
    requires BestPhaseSwap(q, s, phases, some, Some(e)) && BestPhaseSwap(q, s, phases, some, Some(f))
    ensures e == f
  {
    if e != f {
      OneTops(q, s, phases, e, f);
    }
  }

  lemma PhaseStepsUnique(q: PhaseProblem, phases: nat, s: Partition, t: Partition, u: Partition)
    requires PhaseSteps(q, phases, s, t) && PhaseSteps(q, phases, s, u)
    ensures t == u
  {
    var e :| MakesBestExchange(q, phases, s, e, t);
    var f :| MakesBestExchange(q, phases, s, f, u);
    BestPairUnique(q, s, phases, OrderedPairs(|s.assignments|), e, f);
  }

  /** The start and the number of exchanges determine the outcome. */
  lemma PhaseExchangesUnique(q: PhaseProblem, phases: nat, s: Partition, t: Partition, u: Partition, k: nat)
    requires PhaseExchanges(q, phases, s, t, k) && PhaseExchanges(q, phases, s, u, k)
    ensures t == u
  {
    forall a, b, c | PhaseStep(q, phases)(a, b) && PhaseStep(q, phases)(a, c) ensures b == c {
      PhaseStepsUnique(q, phases, a, b, c);
    }
    TrailUnique(PhaseStep(q, phases), s, t, u, k);
  }

  lemma OneMoreImproved(q: PhaseProblem, s: Partition, t: Partition, u: Partition, pl: Table, ql: Table, cut: int, newCut: int,
                        first: int, second: int, k: nat)
    requires Improved(q, s, t, pl, cut, k) && CanPhaseSwap(q, t, |pl|, first, second)
    requires PhaseSound(q, u, ql, newCut) && |ql| == |pl| && Safe(q.problem, t, u)
    requires u.assignments == Swapped(t.assignments, first, second)
    ensures Improved(q, s, u, ql, newCut, k + 1)
  {
    SafeTrans(q.problem, s, t, u);
    assert THRESHOLD * ((k + 1) as real) == THRESHOLD * (k as real) + THRESHOLD;
  }

  /** `step` holds of every best exchange. */
  ghost predicate CoversPhase(q: PhaseProblem, phases: nat, step: (Partition, Partition) -> bool) {
    forall s, t :: PhaseSteps(q, phases, s, t) ==> step(s, t)
  }

  /** After k best exchanges from s. */
  ghost predicate PhaseRunning(q: PhaseProblem, step: (Partition, Partition) -> bool, s: Partition, t: Partition, pl: Table,
                               cut: int, k: nat) {
    Improved(q, s, t, pl, cut, k) && Trail(step, s, t, k)
  }

  /** One more best exchange, or none because none is admissible. */
  method NextExchange(q: PhaseProblem, ghost step: (Partition, Partition) -> bool, ghost s: Partition, t: Partition, pl: Table,
                      cut: int, ghost k: nat)
    returns (u: Partition, ql: Table, newCut: int, found: bool)
    requires PhaseRunning(q, step, s, t, pl, cut, k) && CoversPhase(q, |pl|, step)
    ensures |ql| == |pl|
    ensures found ==> PhaseRunning(q, step, s, u, ql, newCut, k + 1)
    ensures !found ==> u == t && ql == pl && newCut == cut && NoPhaseSwap(q, t, |pl|)
  {
    var best := FindBestPair(q, t, pl, cut);
    if best.None? {
      NoneIsNoPhaseSwap(q, t, |pl|);
      return t, pl, cut, false;
    }
    var e := best.value;
    u, ql, newCut := ApplyPair(q, t, pl, cut, e.0, e.1);
    found := true;
    OneMoreImproved(q, s, t, u, pl, ql, cut, newCut, e.0, e.1, k);
    assert MakesBestExchange(q, |pl|, t, e, u);
    assert PhaseSteps(q, |pl|, t, u);
    OneMoreStep(step, s, t, u, k);
  }

  method PhaseRounds(q: PhaseProblem, ghost step: (Partition, Partition) -> bool, s: Partition, table: Table, uncut: int,
                     maximumSwaps: nat)
    returns (t: Partition, pl: Table, completed: nat, cut: int)
    requires PhaseRunning(q, step, s, s, table, uncut, 0) && CoversPhase(q, |table|, step)
    ensures PhaseRunning(q, step, s, t, pl, cut, completed) && |pl| == |table| && completed <= maximumSwaps
    ensures completed < maximumSwaps ==> NoPhaseSwap(q, t, |pl|)
  {
    t, pl, cut, completed := s, table, uncut, 0;
    for k := 0 to maximumSwaps
      invariant completed == k && |pl| == |table| && PhaseRunning(q, step, s, t, pl, cut, k)
    {
      var found;
      t, pl, cut, found := NextExchange(q, step, s, t, pl, cut, k);
      if !found { return; }
      completed := completed + 1;
    }
  }

  /** At most `maximumSwaps` best exchanges, fewer only when none is admissible any more. */
  method RefinePartitionPhaseSwaps(q: PhaseProblem, assignments: seq<int>, loads: seq<nat>, phaseCount: nat, maximumSwaps: nat)
    returns (t: Partition, pl: Table, completed: nat, cut: int, ghost s: Partition)
    requires WellFormed(q.problem) && |assignments| == |q.problem.weights| && |loads| > 0
    requires Placed(assignments, |assignments|, |loads|)
    requires forall i :: 0 <= i < |loads| ==> loads[i] == Load(assignments, q.problem.weights, |assignments|, i)
    requires |q.vectors| == |assignments| && NonNegative(q.vectors)
    requires forall i, ph {:trigger ph in q.vectors[i]} :: 0 <= i < |q.vectors| && ph in q.vectors[i] ==> ph < phaseCount
    ensures s.assignments == assignments && s.loads == loads && Consistent(q.problem, s)
    ensures Improved(q, s, t, pl, cut, completed) && |pl| == phaseCount
    ensures PhaseExchanges(q, phaseCount, s, t, completed) && completed <= maximumSwaps
    ensures completed < maximumSwaps ==> NoPhaseSwap(q, t, phaseCount)
  {
    var counts := CountActive(assignments, q.problem.active, |loads|);
    var start := Partition(assignments, loads, counts);
    s := start;
    pl := PhaseLoadsForPartition(assignments, q.vectors, |loads|, phaseCount);
    cut := WeightedEdgeCut(assignments, q.problem.edges);
    t, pl, completed, cut := PhaseRounds(q, PhaseStep(q, phaseCount), start, pl, cut, maximumSwaps);
  }
}
