/** What the phase search looks for, said of assignments alone, and what a whole trial ends with. */
module PhaseOptimum {
  import opened Iteration
  import opened LexicographicOrder
  import opened Options
  import opened SortedSets
  import opened GreedyPlacement
  import opened Cuts
  import opened Balance
  import opened LptPartition
  import opened Swaps
  import opened Phases
  import opened PhaseTables
  import opened PhaseSearch
  import opened Optimum
  import opened Trial
  import Moves
  import Sums
  import SwapSearch

  // ---- the critical load ----

  /** The work of the chosen threads, one for each phase. */
  ghost function ChosenWork(a: seq<int>, pv: Vectors, chosen: seq<int>): real {
    if chosen == [] then 0.0
    else ChosenWork(a, pv, chosen[..|chosen| - 1]) + PhaseLoad(a, pv, |chosen| - 1, chosen[|chosen| - 1], |a|)
  }

  ghost predicate Choice(chosen: seq<int>, phases: nat, m: nat) {
    |chosen| == phases && forall ph :: 0 <= ph < phases ==> 0 <= chosen[ph] < m
  }

  lemma OnePhaseMore(a: seq<int>, pv: Vectors, phases: nat, m: nat)
    requires m > 0 && phases > 0
    ensures CriticalOf(a, pv, phases, m) == CriticalOf(a, pv, phases - 1, m) + MaxOf(TableOf(a, pv, phases, m)[phases - 1])
  {
    assert TableOf(a, pv, phases, m)[..phases - 1] == TableOf(a, pv, phases - 1, m);
  }

  /** No choice of a thread for each phase has more work than the critical load, and one has as much. */
  lemma {:induction false} CriticalIsGreatest(a: seq<int>, pv: Vectors, phases: nat, m: nat, chosen: seq<int>) returns (busiest: seq<int>)
    requires m > 0 && Choice(chosen, phases, m)
    ensures ChosenWork(a, pv, chosen) <= CriticalOf(a, pv, phases, m)
    ensures Choice(busiest, phases, m) && ChosenWork(a, pv, busiest) == CriticalOf(a, pv, phases, m)
    decreases phases
  {
    busiest := [];
    if phases > 0 {
      var before := CriticalIsGreatest(a, pv, phases - 1, m, chosen[..phases - 1]);
      OnePhaseMore(a, pv, phases, m);
      var row := TableOf(a, pv, phases, m)[phases - 1];
      assert row[chosen[phases - 1]] <= MaxOf(row);
      var t :| 0 <= t < |row| && row[t] == MaxOf(row);
      busiest := before + [t];
      assert busiest[..phases - 1] == before;
    }
  }

  // ---- exchanges for the phases ----

  /** The exchange fits, lowers the critical load by more than a billionth and keeps the cut capped. */
  ghost predicate PhaseHelps(p: Problem, pv: Vectors, phases: nat, maximumCut: real, a: seq<int>, m: nat, first: int, second: int)
    requires |a| == |p.weights|
  {
    && first < second && SwapFits(p, a, first, second) && m > 0
    && var b := a[first := a[second]][second := a[first]];
       && CriticalOf(b, pv, phases, m) - CriticalOf(a, pv, phases, m) < -0.000000001
       && (Cut(b, p.edges) as real) <= maximumCut
  }

  lemma PhaseMeans(q: PhaseProblem, s: Partition, phases: nat, first: int, second: int)
    requires WellFormed(q.problem) && Consistent(q.problem, s)
    ensures CanPhaseSwap(q, s, phases, first, second)
       <==> PhaseHelps(q.problem, q.vectors, phases, q.maximumCut, s.assignments, |s.loads|, first, second)
  {
    FitsMeans(q.problem, s, first, second);
  }

  /** When the phase search finds nothing more, no exchange helps. */
  lemma NoPhaseSwapMeans(q: PhaseProblem, s: Partition, phases: nat)
    requires WellFormed(q.problem) && Consistent(q.problem, s)
    ensures NoPhaseSwap(q, s, phases)
       <==> forall first, second :: !PhaseHelps(q.problem, q.vectors, phases, q.maximumCut, s.assignments, |s.loads|, first, second)
  {
    forall first, second
      ensures CanPhaseSwap(q, s, phases, first, second)
         <==> PhaseHelps(q.problem, q.vectors, phases, q.maximumCut, s.assignments, |s.loads|, first, second)
    {
      PhaseMeans(q, s, phases, first, second);
    }
  }

  /** The keys of an exchange after the critical load: the cut and the larger of the two loads afterwards,
      and the two tiles. */
  ghost function PhaseKeys(p: Problem, a: seq<int>, first: int, second: int): seq<int>
    requires |a| == |p.weights| && 0 <= first < |a| && 0 <= second < |a|
  {
    var b := a[first := a[second]][second := a[first]];
    var x, y := Load(b, p.weights, |b|, a[first]), Load(b, p.weights, |b|, a[second]);
    [Cut(b, p.edges), if x < y then y else x, first, second]
  }

  /** The first exchange comes before the second: a lower critical load, or lower keys. */
  ghost predicate Ahead(p: Problem, pv: Vectors, phases: nat, a: seq<int>, m: nat, e: (int, int), f: (int, int))
    requires |a| == |p.weights| && m > 0 && 0 <= e.0 < |a| && 0 <= e.1 < |a| && 0 <= f.0 < |a| && 0 <= f.1 < |a|
  {
    var x := CriticalOf(a[e.0 := a[e.1]][e.1 := a[e.0]], pv, phases, m);
    var y := CriticalOf(a[f.0 := a[f.1]][f.1 := a[f.0]], pv, phases, m);
    x < y || (x == y && Lexicographic(PhaseKeys(p, a, e.0, e.1), PhaseKeys(p, a, f.0, f.1)))
  }

  lemma PhaseKeysMean(q: PhaseProblem, s: Partition, phases: nat, first: int, second: int)
    requires Exchangeable(q.problem, s, first, second) && |s.loads| > 0
    ensures CountsFrom(ScoreOf(q, s, phases, first, second).rest, PhaseKeys(q.problem, s.assignments, first, second),
                       Cut(s.assignments, q.problem.edges))
  {
    SwapLoads(q.problem, s, first, second);
    PhaseKeysFrom(q.problem, s, first, second, SourceLoad(q.problem, s, first, second), SourceLoad(q.problem, s, second, first));
  }

  lemma PhaseKeysFrom(p: Problem, s: Partition, first: int, second: int, x: int, y: int)
    requires InRange(s, first, second) && |s.assignments| == |p.weights|
    requires var b := Swapped(s.assignments, first, second);
             Load(b, p.weights, |b|, s.assignments[first]) == x && Load(b, p.weights, |b|, s.assignments[second]) == y
    ensures PhaseKeys(p, s.assignments, first, second)
         == [Cut(Swapped(s.assignments, first, second), p.edges), Larger(x, y), first, second]
  {
  }

  lemma TopsMeans(q: PhaseProblem, s: Partition, phases: nat, e: (int, int), f: (int, int))
    requires Exchangeable(q.problem, s, e.0, e.1) && Exchangeable(q.problem, s, f.0, f.1) && |s.loads| > 0
    ensures Tops(q, s, phases, f, e) <==> Ahead(q.problem, q.vectors, phases, s.assignments, |s.loads|, f, e)
  {
    PhaseKeysMean(q, s, phases, e.0, e.1);
    PhaseKeysMean(q, s, phases, f.0, f.1);
    var x, y := PhaseKeys(q.problem, s.assignments, f.0, f.1), PhaseKeys(q.problem, s.assignments, e.0, e.1);
    SameOrder(x, y, Cut(s.assignments, q.problem.edges), ScoreOf(q, s, phases, f.0, f.1).rest, ScoreOf(q, s, phases, e.0, e.1).rest);
  }

  lemma NotAheadOf(q: PhaseProblem, s: Partition, phases: nat, e: (int, int), f: (int, int))
    requires WellFormed(q.problem) && Consistent(q.problem, s) && Exchangeable(q.problem, s, e.0, e.1)
    requires BestPhaseSwap(q, s, phases, OrderedPairs(|s.assignments|), Some(e))
    requires PhaseHelps(q.problem, q.vectors, phases, q.maximumCut, s.assignments, |s.loads|, f.0, f.1)
    ensures !Ahead(q.problem, q.vectors, phases, s.assignments, |s.loads|, f, e)
  {
    PhaseMeans(q, s, phases, f.0, f.1);
    assert f in OrderedPairs(|s.assignments|);
    TopsMeans(q, s, phases, e, f);
  }

  /** Each step of the phase search is the helpful exchange that comes before all others. */
  lemma BestPhaseSwapMeans(q: PhaseProblem, s: Partition, phases: nat, t: Partition) returns (e: (int, int))
    requires WellFormed(q.problem) && Consistent(q.problem, s) && PhaseSteps(q, phases, s, t)
    ensures PhaseHelps(q.problem, q.vectors, phases, q.maximumCut, s.assignments, |s.loads|, e.0, e.1)
    ensures t.assignments == s.assignments[e.0 := s.assignments[e.1]][e.1 := s.assignments[e.0]] && Consistent(q.problem, t)
    ensures forall first, second ::
              PhaseHelps(q.problem, q.vectors, phases, q.maximumCut, s.assignments, |s.loads|, first, second) ==>
              !Ahead(q.problem, q.vectors, phases, s.assignments, |s.loads|, (first, second), e)
  {
    e :| MakesBestExchange(q, phases, s, e, t);
    PhaseMeans(q, s, phases, e.0, e.1);
    ExchangedConsistent(q.problem, s, e.0, e.1);
    forall first, second | PhaseHelps(q.problem, q.vectors, phases, q.maximumCut, s.assignments, |s.loads|, first, second)
      ensures !Ahead(q.problem, q.vectors, phases, s.assignments, |s.loads|, (first, second), e)
    {
      NotAheadOf(q, s, phases, e, (first, second));
    }
  }

  // ---- a whole trial ----

  /** No single move helps. */
  ghost predicate MoveOptimal(p: Problem, a: seq<int>)
    requires |a| == |p.weights| == |p.adjacency|
  {
    forall tile, d :: 0 <= tile < |a| ==> !MoveHelps(p, a, tile, d)
  }

  /** No exchange of similar tiles helps. */
  ghost predicate SwapOptimal(p: Problem, a: seq<int>)
    requires |a| == |p.weights| == |p.edges|
  {
    forall first, second :: !SwapHelps(p, a, first, second)
  }

  /** No exchange helps the phases. */
  ghost predicate PhaseOptimal(p: Problem, pv: Vectors, phases: nat, maximumCut: real, a: seq<int>, m: nat)
    requires |a| == |p.weights|
  {
    forall first, second :: !PhaseHelps(p, pv, phases, maximumCut, a, m, first, second)
  }

  /** The load cap is the average load of a thread times the factor. */
  lemma CapMeans(r: Request)
    requires r.threads > 0
    ensures CapOf(r) * (r.threads as real) == (Load(seq(|r.weights|, _ => 0), r.weights, |r.weights|, 0) as real) * r.factor
  {
    var a := seq(|r.weights|, _ => 0);
    assert Jobs(a, |a|, 0) == Sums.Below(|r.weights|);
    Divides(Load(a, r.weights, |r.weights|, 0), r.threads, r.factor);
  }

  lemma Divides(total: int, m: nat, factor: real)
    requires m > 0
    ensures CapFor(total, m, factor) * (m as real) == (total as real) * factor
  {
    var average := total as real / m as real;
    assert average * m as real == total as real;
    assert average * factor * m as real == average * m as real * factor;
  }

  ghost predicate MovesEnded(p: Problem, a: seq<int>, u: seq<int>) {
    && |u| == |p.weights| == |p.adjacency|
    && (MoveOptimal(p, u) || Cut(u, p.edges) + 100 <= Cut(a, p.edges))
  }

  ghost predicate SwapsEnded(p: Problem, u: seq<int>, v: seq<int>) {
    && |v| == |p.weights| == |p.edges|
    && (SwapOptimal(p, v) || Cut(v, p.edges) + 200 <= Cut(u, p.edges))
  }

  ghost predicate PhasesEnded(p: Problem, q: PhaseRequest, maximumCut: real, v: seq<int>, t: seq<int>, m: nat, completed: nat) {
    && |t| == |p.weights| && m > 0 && completed <= q.maximumSwaps
    && CriticalOf(t, q.vectors, q.phaseCount, m) <= CriticalOf(v, q.vectors, q.phaseCount, m) - 0.000000001 * (completed as real)
    && (completed == q.maximumSwaps || PhaseOptimal(p, q.vectors, q.phaseCount, maximumCut, t, m))
  }

  /** The moves end at a local optimum, or after a hundred rounds that each lowered the cut. */
  lemma MovesEnd(p: Problem, a: seq<int>, loads: seq<nat>, moves: nat -> seq<int>, s: Partition, u: Partition)
    requires WellFormed(p) && Moves100(p, a, loads, moves, s, u)
    ensures MovesEnded(p, a, u.assignments)
  {
    SettledMeans(p, u);
  }

  /** The exchanges end at a local optimum, or after two hundred that each lowered the cut. */
  lemma SwapsEnd(p: Problem, u: Partition, v: Partition)
    requires WellFormed(p) && Swaps200(p, u, v)
    ensures SwapsEnded(p, u.assignments, v.assignments)
  {
    NoSwapMeans(p, v);
  }

  /** The exchanges for the phases end at a local optimum, or after as many as are allowed; each lowers the
      critical load by more than a billionth. */
  lemma PhasesEnd(p: Problem, q: PhaseRequest, maximumCut: real, v: Partition, t: Partition, completed: nat)
    requires WellFormed(p) && PhaseSwaps(p, q, maximumCut, v, t, completed)
    ensures PhasesEnded(p, q, maximumCut, v.assignments, t.assignments, |t.loads|, completed)
  {
    NoPhaseSwapMeans(PhaseProblem(p, q.vectors, maximumCut), t, q.phaseCount);
  }

  // ---- the outcome of a trial is determined ----

  lemma PhaseSwapsUnique(p: Problem, q: PhaseRequest, maximumCut: real, v: Partition, t: Partition, completed: nat, w: Partition,
                         other: nat)
    requires PhaseSwaps(p, q, maximumCut, v, t, completed) && PhaseSwaps(p, q, maximumCut, v, w, other)
    ensures t == w
  {
    var problem := PhaseProblem(p, q.vectors, maximumCut);
    var step := PhaseStep(problem, q.phaseCount);
    var halts := (x: Partition) => NoPhaseSwap(problem, x, q.phaseCount);
    TrailEnds(step, halts, v, t, completed, q.maximumSwaps);
    TrailEnds(step, halts, v, w, other, q.maximumSwaps);
    forall x, y, z | step(x, y) && step(x, z) ensures y == z {
      PhaseStepsUnique(problem, q.phaseCount, x, y, z);
    }
    forall x, y | step(x, y) ensures !halts(x) {
      StepIsPhaseSwap(problem, q.phaseCount, x, y);
    }
    IteratesUnique(step, halts, v, t, w, q.maximumSwaps);
  }

  lemma StepIsPhaseSwap(q: PhaseProblem, phases: nat, s: Partition, t: Partition)
    requires PhaseSteps(q, phases, s, t)
    ensures !NoPhaseSwap(q, s, phases)
  {
    var e :| MakesBestExchange(q, phases, s, e, t);
    assert CanPhaseSwap(q, s, phases, e.0, e.1);
  }

  /** The request and the orders of the moves determine the result: the orders in which exchanges are looked
      at make no difference. */
  lemma TrialUnique(r: Request, cap: real, a: seq<int>, loads: seq<nat>, moves: nat -> seq<int>, u: Partition, v: Partition,
                    t: Partition, completed: nat, x: Partition, y: Partition, z: Partition, other: nat)
    requires Found(r, cap, a, loads, moves, u, v, t, completed) && Found(r, cap, a, loads, moves, x, y, z, other)
    ensures u == x && v == y && t == z
  {
    var p := ProblemOf(r, cap);
    var s :| Moves100(p, a, loads, moves, s, u);
    var s' :| Moves100(p, a, loads, moves, s', x);
    SameStart(p, s, s');
    Moves.RoundsUnique(p, moves, s, u, x, 100);
    SwapSearch.ExchangesUnique(p, u, v, y, 200);
    if r.phases.Some? {
      PhaseSwapsUnique(p, r.phases.value, Grown(Cut(v.assignments, r.edges), r.phases.value.growth), v, t, completed, z, other);
    }
  }

  /** With the initial placement determined by the weights, the whole trial is: whatever the order of the
      exchange searches, the request and the orders of the moves give one partition. */
  lemma OutcomeUnique(r: Request, moves: nat -> seq<int>,
                      a: seq<int>, loads: seq<nat>, order: seq<int>, u: Partition, v: Partition, t: Partition, completed: nat,
                      b: seq<int>, others: seq<nat>, another: seq<int>, x: Partition, y: Partition, z: Partition, other: nat)
    requires r.threads > 0 && IsLpt(r.weights, r.threads, a, order) && IsLpt(r.weights, r.threads, b, another)
    requires |loads| == |others| == r.threads
    requires forall i :: 0 <= i < r.threads ==> loads[i] == Load(a, r.weights, |a|, i) && others[i] == Load(b, r.weights, |b|, i)
    requires Found(r, CapOf(r), a, loads, moves, u, v, t, completed) && Found(r, CapOf(r), b, others, moves, x, y, z, other)
    ensures t == z
  {
    LptUnique(r.weights, r.threads, a, order, b, another);
    assert loads == others;
    TrialUnique(r, CapOf(r), a, loads, moves, u, v, t, completed, x, y, z, other);
  }
}
