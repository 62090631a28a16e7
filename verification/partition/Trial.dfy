/** One trial of the partitioner: initial placement, the local searches and the final check. */
module Trial {
  import opened Mesh
  import opened Sums
  import opened Arithmetic
  import opened Options
  import opened SortedSets
  import opened GreedyPlacement
  import opened Cuts
  import opened Balance
  import opened LptPartition
  import Moves
  import SwapSearch
  import opened Phases
  import opened PhaseTables
  import opened PhaseSearch

  /** The phase-aware part of the request. */
  datatype PhaseRequest = PhaseRequest(vectors: Vectors, phaseCount: nat, growth: real, maximumSwaps: nat)

  datatype Request = Request(weights: seq<nat>, active: set<int>, adjacency: seq<seq<int>>, edges: Weights, threads: nat,
                             factor: real, phases: Option<PhaseRequest>)

  ghost predicate Usable(q: PhaseRequest, tiles: nat) {
    && |q.vectors| == tiles && NonNegative(q.vectors) && q.growth >= 1.0
    && forall i, ph {:trigger ph in q.vectors[i]} :: 0 <= i < |q.vectors| && ph in q.vectors[i] ==> ph < q.phaseCount
  }

  ghost predicate Accepted(r: Request) {
    && WellFormed(Problem(r.weights, r.active, r.adjacency, r.edges, 0.0)) && r.threads > 0 && r.factor >= 1.0
    && (r.phases.Some? ==> Usable(r.phases.value, |r.weights|))
  }

  /** A request over a mesh is well formed, whatever traffic the routers report. */
  lemma MeshRequest(rows: nat, columns: nat, records: seq<Record>, r: Request)
    requires columns > 0 && IsAdjacency(rows, columns, r.adjacency) && IsMeshEdges(rows, columns, records, r.edges)
    requires |r.weights| == rows * columns && (forall i :: i in r.active ==> 0 <= i < |r.weights|)
    requires r.threads > 0 && r.factor >= 1.0 && (r.phases.Some? ==> Usable(r.phases.value, |r.weights|))
    ensures Accepted(r)
  {
    MeshIsSymmetric(rows, columns, records, r.edges);
    forall i, j | 0 <= i < |r.adjacency| && j in r.adjacency[i] ensures 0 <= j < |r.weights| {
      assert IsNeighbor(rows, columns, i, j);
    }
  }

  /** No list of the final partition deviates from the initial one beyond the cap. */
  ghost predicate WithinCap(lpt: seq<nat>, loads: seq<nat>, cap: real) {
    |loads| == |lpt| && forall i :: 0 <= i < |lpt| ==> loads[i] <= lpt[i] || (loads[i] as real) <= cap
  }

  ghost predicate KeepsActive(a: seq<int>, b: seq<int>, active: set<int>, threads: nat) {
    forall i :: 0 <= i < threads ==> HasActive(a, active, i) ==> HasActive(b, active, i)
  }

  function ProblemOf(r: Request, cap: real): Problem {
    Problem(r.weights, r.active, r.adjacency, r.edges, cap)
  }

  lemma SafeKeepsActive(p: Problem, s: Partition, t: Partition)
    requires WellFormed(p) && Consistent(p, s) && Consistent(p, t) && Safe(p, s, t)
    ensures KeepsActive(s.assignments, t.assignments, p.active, |s.loads|)
  {
    forall i | 0 <= i < |s.loads| ensures HasActive(s.assignments, p.active, i) ==> HasActive(t.assignments, p.active, i) {
      CountIsHasActive(p, s, i);
      CountIsHasActive(p, t, i);
    }
  }

  /** s is the partition with the given threads and loads; u is what a hundred rounds of moves make of it,
      ending settled unless each round lowered the cut. */
  ghost predicate Moves100(p: Problem, assignments: seq<int>, loads: seq<nat>, moves: nat -> seq<int>, s: Partition, u: Partition) {
    && s.assignments == assignments && s.loads == loads && Consistent(p, s)
    && Consistent(p, u) && Moves.Rounds(p, moves, s, u, 100)
    && (Moves.Settled(p, u) || Cut(u.assignments, p.edges) + 100 <= Cut(assignments, p.edges))
  }

  /** t is what at most two hundred best exchanges make of u, ending with none admissible unless each
      lowered the cut. */
  ghost predicate Swaps200(p: Problem, u: Partition, t: Partition) {
    && Consistent(p, u) && Consistent(p, t) && SwapSearch.Exchanges(p, u, t, 200)
    && (SwapSearch.NoSwap(p, t) || Cut(t.assignments, p.edges) + 200 <= Cut(u.assignments, p.edges))
  }

  method MakeMoves(p: Problem, assignments: seq<int>, loads: seq<nat>, moves: nat -> seq<int>)
    returns (u: Partition, ghost s: Partition)
    requires WellFormed(p) && |assignments| == |p.weights| && Placed(assignments, |assignments|, |loads|)
    requires forall i :: 0 <= i < |loads| ==> loads[i] == Load(assignments, p.weights, |assignments|, i)
    requires forall k :: IsPermutation(moves(k), |p.weights|)
    ensures Moves100(p, assignments, loads, moves, s, u) && Safe(p, s, u)
    ensures Cut(u.assignments, p.edges) <= Cut(assignments, p.edges)
  {
    u, s := Moves.RefinePartition(p, assignments, loads, moves);
  }

  method MakeSwaps(p: Problem, u: Partition, swaps: nat -> seq<int>) returns (t: Partition)
    requires WellFormed(p) && Consistent(p, u) && forall k :: IsPermutation(swaps(k), |p.weights|)
    ensures Swaps200(p, u, t) && Safe(p, u, t)
    ensures Cut(t.assignments, p.edges) <= Cut(u.assignments, p.edges)
  {
    ghost var s: Partition;
    t, s := SwapSearch.RefinePartitionSwaps(p, u.assignments, u.loads, swaps);
    SameStart(p, u, s);
  }

  /** The searches without phases: moves, then exchanges. */
  method Refine(p: Problem, assignments: seq<int>, loads: seq<nat>, moves: nat -> seq<int>, swaps: nat -> seq<int>)
    returns (t: Partition, ghost s: Partition, ghost u: Partition)
    requires WellFormed(p) && |assignments| == |p.weights| && Placed(assignments, |assignments|, |loads|)
    requires forall i :: 0 <= i < |loads| ==> loads[i] == Load(assignments, p.weights, |assignments|, i)
    requires forall k :: IsPermutation(moves(k), |p.weights|) && IsPermutation(swaps(k), |p.weights|)
    ensures Moves100(p, assignments, loads, moves, s, u) && Swaps200(p, u, t)
    ensures Consistent(p, t) && WithinCap(loads, t.loads, p.maximumLoad)
    ensures KeepsActive(assignments, t.assignments, p.active, |loads|) && Pinned(p, assignments, t.assignments)
    ensures Cut(t.assignments, p.edges) <= Cut(assignments, p.edges)
  {
    var middle;
    middle, s := MakeMoves(p, assignments, loads, moves);
    u := middle;
    t := MakeSwaps(p, middle, swaps);
    SafeTrans(p, s, u, t);
    SafeKeepsActive(p, s, t);
  }

  /** t is u after the given number of best exchanges, each lowering the critical load by more than the
      threshold, and none is admissible any more unless all that are allowed were made. */
  ghost predicate PhaseSwaps(p: Problem, q: PhaseRequest, maximumCut: real, u: Partition, t: Partition, completed: nat) {
    var problem := PhaseProblem(p, q.vectors, maximumCut);
    && |u.loads| == |t.loads| > 0 && Consistent(p, u) && Consistent(p, t)
    && PhaseExchanges(problem, q.phaseCount, u, t, completed) && completed <= q.maximumSwaps
    && (completed == q.maximumSwaps || NoPhaseSwap(problem, t, q.phaseCount))
    && CriticalOf(t.assignments, q.vectors, q.phaseCount, |t.loads|)
       <= CriticalOf(u.assignments, q.vectors, q.phaseCount, |u.loads|) + THRESHOLD * (completed as real)
  }

  /** The phase search on top; the cut may grow by the given factor. */
  method RefinePhases(p: Problem, q: PhaseRequest, u: Partition) returns (t: Partition, pl: Table, completed: nat)
    requires WellFormed(p) && Consistent(p, u) && |u.loads| > 0 && Usable(q, |p.weights|)
    ensures PhaseSwaps(p, q, Grown(Cut(u.assignments, p.edges), q.growth), u, t, completed)
    ensures Consistent(p, t) && Safe(p, u, t) && IsTable(t.assignments, q.vectors, pl, |t.loads|)
    ensures KeepsActive(u.assignments, t.assignments, p.active, |u.loads|)
    ensures (Cut(t.assignments, p.edges) as real) <= Grown(Cut(u.assignments, p.edges), q.growth)
    ensures |pl| == q.phaseCount
  {
    var before := WeightedEdgeCut(u.assignments, p.edges);
    CutNonNegative(u.assignments, p.edges);
    GrowthAllows(before, q.growth);
    var maximumCut := MaximumCut(before, q.growth);
    t, pl, completed := RefineUnder(p, q, u, maximumCut);
  }

  /** The cut grown by the factor, one unit at a time. */
  function Grown(cut: int, growth: real): real
    decreases cut
  {
    if cut <= 0 then 0.0 else Grown(cut - 1, growth) + growth
  }

  lemma {:induction false} GrownIs(cut: int, growth: real)
    requires cut >= 0
    ensures Grown(cut, growth) == (cut as real) * growth
    decreases cut
  {
    if cut > 0 {
      GrownIs(cut - 1, growth);
      assert (cut as real) * growth == ((cut - 1) as real) * growth + growth;
    }
  }

  lemma {:induction false} GrowthAllows(cut: int, growth: real)
    requires cut >= 0 && growth >= 1.0
    ensures (cut as real) <= Grown(cut, growth)
    decreases cut
  {
    if cut > 0 { GrowthAllows(cut - 1, growth); }
  }

  method MaximumCut(cut: int, growth: real) returns (r: real)
    requires cut >= 0
    ensures r == Grown(cut, growth)
  {
    GrownIs(cut, growth);
    r := (cut as real) * growth;
  }

  method RefineUnder(p: Problem, q: PhaseRequest, u: Partition, maximumCut: real)
    returns (t: Partition, pl: Table, completed: nat)
    requires WellFormed(p) && Consistent(p, u) && |u.loads| > 0 && Usable(q, |p.weights|)
    requires (Cut(u.assignments, p.edges) as real) <= maximumCut
    ensures PhaseSwaps(p, q, maximumCut, u, t, completed)
    ensures Consistent(p, t) && Safe(p, u, t) && IsTable(t.assignments, q.vectors, pl, |t.loads|)
    ensures KeepsActive(u.assignments, t.assignments, p.active, |u.loads|)
    ensures (Cut(t.assignments, p.edges) as real) <= maximumCut && |pl| == q.phaseCount
  {
    var problem := PhaseProblem(p, q.vectors, maximumCut);
    ghost var s: Partition;
    var cut;
    t, pl, completed, cut, s := RefinePartitionPhaseSwaps(problem, u.assignments, u.loads, q.phaseCount, q.maximumSwaps);
    SameStart(p, u, s);
    ImprovedKeeps(problem, s, t, pl, cut, completed);
    SafeKeepsActive(p, s, t);
  }

  lemma ImprovedKeeps(q: PhaseProblem, s: Partition, t: Partition, pl: Table, cut: int, completed: nat)
    requires Improved(q, s, t, pl, cut, completed) && (Cut(s.assignments, q.problem.edges) as real) <= q.maximumCut
    ensures Consistent(q.problem, t) && Safe(q.problem, s, t) && IsTable(t.assignments, q.vectors, pl, |t.loads|)
    ensures (Cut(t.assignments, q.problem.edges) as real) <= q.maximumCut
    ensures CriticalOf(t.assignments, q.vectors, |pl|, |t.loads|)
         <= CriticalOf(s.assignments, q.vectors, |pl|, |s.loads|) + THRESHOLD * (completed as real)
  {
  }

  /** The totals of an assignment are determined by it. */
  lemma SameStart(p: Problem, s: Partition, t: Partition)
    requires Consistent(p, s) && Consistent(p, t) && s.assignments == t.assignments && s.loads == t.loads
    ensures s == t
  {
    assert s.activeCounts == t.activeCounts;
  }

  /** Whether the generated partition passes the final check of active tiles. */
  method EveryThreadActive(a: seq<int>, active: set<int>, threads: nat) returns (ok: bool)
    requires Placed(a, |a|, threads) && forall i :: i in active ==> 0 <= i < |a|
    ensures ok <==> forall t :: 0 <= t < threads ==> HasActive(a, active, t)
  {
    var counts := CountActive(a, active, threads);
    forall t | 0 <= t < threads ensures counts[t] > 0 <==> HasActive(a, active, t) {
      ActiveOnIsHasActive(a, active, t);
    }
    ok := true;
    for t := 0 to threads
      invariant ok <==> forall u :: 0 <= u < t ==> HasActive(a, active, u)
    {
      if counts[t] == 0 { ok := false; }
    }
  }

  lemma ActiveOnIsHasActive(a: seq<int>, active: set<int>, t: int)
    ensures |ActiveOn(a, active, t)| > 0 <==> HasActive(a, active, t)
  {
    var on := ActiveOn(a, active, t);
    if on != {} {
      var i := Member(on);
    }
    if i :| 0 <= i < |a| && i in active && a[i] == t {
      assert i in on;
    }
  }

  /** What all searches together do to the initial partition. */
  ghost predicate Searched(r: Request, a: seq<int>, loads: seq<nat>, cap: real, t: Partition) {
    && loads != [] && Consistent(ProblemOf(r, 0.0), t) && |t.loads| == |loads|
    && WithinCap(loads, t.loads, cap)
    && KeepsActive(a, t.assignments, r.active, |loads|)
    && Pinned(ProblemOf(r, cap), a, t.assignments)
    && match r.phases
       case None => Cut(t.assignments, r.edges) <= Cut(a, r.edges)
       case Some(q) => (Cut(t.assignments, r.edges) as real) <= (Cut(a, r.edges) as real) * q.growth
  }

  lemma ScaledCut(x: int, y: int, growth: real)
    requires x <= y && growth >= 1.0
    ensures (x as real) * growth <= (y as real) * growth
  {
  }

  lemma CutGrows(after: int, middle: int, before: int, growth: real)
    requires 0 <= middle <= before && growth >= 1.0 && after as real <= Grown(middle, growth)
    ensures after as real <= before as real * growth
  {
    GrownIs(middle, growth);
    ScaledCut(middle, before, growth);
  }

  lemma CutGrown(edges: Weights, a: seq<int>, u: seq<int>, t: seq<int>, growth: real)
    requires Cut(u, edges) <= Cut(a, edges) && growth >= 1.0 && (Cut(t, edges) as real) <= Grown(Cut(u, edges), growth)
    ensures (Cut(t, edges) as real) <= (Cut(a, edges) as real) * growth
  {
    CutNonNegative(u, edges);
    CutGrows(Cut(t, edges), Cut(u, edges), Cut(a, edges), growth);
  }

  lemma PhasesKeep(p: Problem, a: seq<int>, loads: seq<nat>, u: Partition, t: Partition)
    requires WithinCap(loads, u.loads, p.maximumLoad) && Safe(p, u, t)
    requires KeepsActive(a, u.assignments, p.active, |loads|) && KeepsActive(u.assignments, t.assignments, p.active, |u.loads|)
    ensures WithinCap(loads, t.loads, p.maximumLoad) && KeepsActive(a, t.assignments, p.active, |loads|)
  {
  }

  lemma AnyCap(r: Request, cap: real, t: Partition)
    ensures Consistent(ProblemOf(r, cap), t) <==> Consistent(ProblemOf(r, 0.0), t)
    ensures WellFormed(ProblemOf(r, cap)) <==> WellFormed(ProblemOf(r, 0.0))
  {
  }

  /** What the phase search adds to what the other searches did. */
  lemma PhasesSearched(r: Request, p: Problem, a: seq<int>, loads: seq<nat>, u: Partition, t: Partition)
    requires r.phases.Some? && r.phases.value.growth >= 1.0 && loads != [] && p == ProblemOf(r, p.maximumLoad)
    requires WithinCap(loads, u.loads, p.maximumLoad) && KeepsActive(a, u.assignments, p.active, |loads|)
    requires Cut(u.assignments, p.edges) <= Cut(a, p.edges) && Pinned(p, a, u.assignments)
    requires Consistent(p, t) && Safe(p, u, t) && KeepsActive(u.assignments, t.assignments, p.active, |u.loads|)
    requires (Cut(t.assignments, p.edges) as real) <= Grown(Cut(u.assignments, p.edges), r.phases.value.growth)
    ensures Searched(r, a, loads, p.maximumLoad, t)
  {
    assert p.edges == r.edges && p.active == r.active;
    CutGrown(p.edges, a, u.assignments, t.assignments, r.phases.value.growth);
    PhasesKeep(p, a, loads, u, t);
    PinnedTrans(p, a, u.assignments, t.assignments);
    AnyCap(r, p.maximumLoad, t);
  }

  method SearchPhases(r: Request, p: Problem, assignments: seq<int>, loads: seq<nat>, u: Partition)
    returns (t: Partition, completed: nat)
    requires Accepted(r) && r.phases.Some? && loads != [] && p == ProblemOf(r, p.maximumLoad)
    requires WellFormed(p) && Consistent(p, u) && WithinCap(loads, u.loads, p.maximumLoad)
    requires KeepsActive(assignments, u.assignments, p.active, |loads|) && Pinned(p, assignments, u.assignments)
    requires Cut(u.assignments, p.edges) <= Cut(assignments, p.edges)
    ensures Searched(r, assignments, loads, p.maximumLoad, t)
    ensures PhaseSwaps(p, r.phases.value, Grown(Cut(u.assignments, p.edges), r.phases.value.growth), u, t, completed)
  {
    var pl;
    t, pl, completed := RefinePhases(p, r.phases.value, u);
    PhasesSearched(r, p, assignments, loads, u, t);
  }

  /** The partitions between the searches: u after the moves, v after the exchanges, t at the end, after
      the given number of exchanges for the phases. */
  ghost predicate Found(r: Request, cap: real, a: seq<int>, loads: seq<nat>, moves: nat -> seq<int>, u: Partition, v: Partition,
                        t: Partition, completed: nat) {
    && (exists s :: Moves100(ProblemOf(r, cap), a, loads, moves, s, u))
    && Swaps200(ProblemOf(r, cap), u, v)
    && match r.phases
       case None => t == v && completed == 0
       case Some(q) => PhaseSwaps(ProblemOf(r, cap), q, Grown(Cut(v.assignments, r.edges), q.growth), v, t, completed)
  }

  method SearchUnder(r: Request, p: Problem, assignments: seq<int>, loads: seq<nat>, moves: nat -> seq<int>, swaps: nat -> seq<int>)
    returns (t: Partition, completed: nat, ghost u: Partition, ghost v: Partition)
    requires Accepted(r) && p == ProblemOf(r, p.maximumLoad) && |assignments| == |r.weights| && |loads| == r.threads
    requires Placed(assignments, |assignments|, |loads|)
    requires forall i :: 0 <= i < |loads| ==> loads[i] == Load(assignments, r.weights, |assignments|, i)
    requires forall k :: IsPermutation(moves(k), |r.weights|) && IsPermutation(swaps(k), |r.weights|)
    ensures Searched(r, assignments, loads, p.maximumLoad, t)
    ensures Found(r, p.maximumLoad, assignments, loads, moves, u, v, t, completed)
  {
    AnyCap(r, p.maximumLoad, Partition(assignments, loads, []));
    ghost var s: Partition;
    t, s, u := Refine(p, assignments, loads, moves, swaps);
    v := t;
    completed := 0;
    AnyCap(r, p.maximumLoad, t);
    if r.phases.Some? {
      t, completed := SearchPhases(r, p, assignments, loads, t);
    }
  }

  function CapFor(total: int, threads: nat, factor: real): real
    requires threads > 0
  {
    total as real / threads as real * factor
  }

  /** The load cap: the average load of a thread times the factor. */
  ghost function CapOf(r: Request): real
    requires r.threads > 0
  {
    CapFor(Sum(Below(|r.weights|), Weigh(r.weights)), r.threads, r.factor)
  }

  method Search(r: Request, assignments: seq<int>, loads: seq<nat>, moves: nat -> seq<int>, swaps: nat -> seq<int>)
    returns (t: Partition, completed: nat, ghost u: Partition, ghost v: Partition)
    requires Accepted(r) && |assignments| == |r.weights| && |loads| == r.threads
    requires Placed(assignments, |assignments|, |loads|)
    requires forall i :: 0 <= i < |loads| ==> loads[i] == Load(assignments, r.weights, |assignments|, i)
    requires forall k :: IsPermutation(moves(k), |r.weights|) && IsPermutation(swaps(k), |r.weights|)
    ensures Searched(r, assignments, loads, CapOf(r), t)
    ensures Found(r, CapOf(r), assignments, loads, moves, u, v, t, completed)
  {
    LoadsAddUp(assignments, r.weights, loads);
    var cap := CapFor(Total(loads), |loads|, r.factor);
    t, completed, u, v := SearchUnder(r, ProblemOf(r, cap), assignments, loads, moves, swaps);
  }

  // ---- when the final check passes ----

  /** A tile that the searches cannot move, and that gives its thread nothing active. */
  ghost predicate Stuck(r: Request, x: int)
    requires r.threads > 0
  {
    0 <= x < |r.weights| && x !in r.active && (r.weights[x] as real) > CapOf(r)
  }

  lemma AboveAverage(weight: nat, total: int, m: nat, factor: real)
    requires m > 0 && total >= 0 && factor >= 1.0 && weight as real > CapFor(total, m, factor)
    ensures m * weight > total
  {
    var average := total as real / m as real;
    assert average * factor >= average;
    assert weight as real > average;
    assert (m * weight) as real == m as real * weight as real;
    assert m as real * average == total as real;
  }

  lemma AboveCap(r: Request, x: int)
    requires r.threads > 0 && r.factor >= 1.0 && Stuck(r, x)
    ensures r.threads * r.weights[x] > Sum(Below(|r.weights|), Weigh(r.weights))
  {
    SumNonNegative(Below(|r.weights|), Weigh(r.weights));
    AboveAverage(r.weights[x], Sum(Below(|r.weights|), Weigh(r.weights)), r.threads, r.factor);
  }

  /** The thread of such a tile has no active tile, before the searches and after. */
  lemma StuckStaysAlone(r: Request, lpt: seq<int>, order: seq<int>, loads: seq<nat>, t: Partition, x: int)
    requires r.threads > 0 && r.factor >= 1.0 && IsLpt(r.weights, r.threads, lpt, order)
    requires Searched(r, lpt, loads, CapOf(r), t) && Stuck(r, x)
    ensures !HasActive(t.assignments, r.active, lpt[x])
  {
    AboveCap(r, x);
    forall y | 0 <= y < |t.assignments| && t.assignments[y] == lpt[x] ensures y == x {
      PinnedAt(ProblemOf(r, CapOf(r)), lpt, t.assignments, x, y);
      if y != x { OverweightAlone(r.weights, r.threads, lpt, order, x, y); }
    }
  }

  lemma PinnedAt(p: Problem, a: seq<int>, b: seq<int>, x: int, y: int)
    requires Pinned(p, a, b) && 0 <= x < |a| && 0 <= y < |b| && (p.weights[x] as real) > p.maximumLoad
    ensures b[y] == a[x] ==> a[y] == a[x]
  {
  }

  /** When the initial placement or the weights give every thread an active tile, so does the result. */
  lemma AllActive(r: Request, lpt: seq<int>, order: seq<int>, loads: seq<nat>, t: Partition)
    requires r.threads > 0 && IsLpt(r.weights, r.threads, lpt, order) && HeaviestActive(r.weights, order, r.active, r.threads)
    requires Searched(r, lpt, loads, CapOf(r), t) && |loads| == r.threads
    ensures forall i :: 0 <= i < r.threads ==> HasActive(t.assignments, r.active, i)
  {
    forall i | 0 <= i < r.threads ensures HasActive(t.assignments, r.active, i) {
      LptReachesActive(r.weights, r.threads, lpt, order, r.active, i);
    }
  }

  /** One trial. The final check passes when the heaviest tiles are active, and so with weights derived
      from the audit, or when the initial placement reaches every thread; it fails whenever an inactive
      tile is heavier than the load cap. */
  method Generate(r: Request, moves: nat -> seq<int>, swaps: nat -> seq<int>)
    returns (t: Partition, completed: nat, passed: bool, ghost lpt: seq<int>, ghost lptLoads: seq<nat>, ghost order: seq<int>,
             ghost u: Partition, ghost v: Partition)
    requires Accepted(r)
    requires forall k :: IsPermutation(moves(k), |r.weights|) && IsPermutation(swaps(k), |r.weights|)
    ensures IsLpt(r.weights, r.threads, lpt, order) && |lptLoads| == r.threads
    ensures forall i :: 0 <= i < r.threads ==> lptLoads[i] == Load(lpt, r.weights, |lpt|, i)
    ensures Searched(r, lpt, lptLoads, CapOf(r), t)
    ensures Found(r, CapOf(r), lpt, lptLoads, moves, u, v, t, completed)
    ensures passed <==> forall i :: 0 <= i < r.threads ==> HasActive(t.assignments, r.active, i)
    ensures ActiveWeights(r.weights, r.active, r.threads) ==> passed
    ensures HeaviestActive(r.weights, order, r.active, r.threads) ==> passed
    ensures (forall i :: 0 <= i < r.threads ==> HasActive(lpt, r.active, i)) ==> passed
    ensures (exists x :: Stuck(r, x)) ==> !passed
  {
    var assignments, loads;
    assignments, loads, order := InitialLptPartition(r.weights, r.threads);
    lpt, lptLoads := assignments, loads;
    t, completed, u, v := Search(r, assignments, loads, moves, swaps);
    passed := EveryThreadActive(t.assignments, r.active, r.threads);
    if ActiveWeights(r.weights, r.active, r.threads) {
      AuditHeaviest(r.weights, order, r.active, r.threads);
    }
    if HeaviestActive(r.weights, order, r.active, r.threads) {
      AllActive(r, lpt, order, lptLoads, t);
    }
    if x :| Stuck(r, x) {
      StuckStaysAlone(r, lpt, order, lptLoads, t, x);
    }
  }

  /** Three tiles in a row for two threads, with the default load factor: as many active tiles as
      threads, but a profile found the inactive one to be the busiest. */
  function ProfileRequest(): Request {
    Request([1, 1, 10], {0, 1}, [[1], [0, 2], [1]], [map[1 := 1], map[0 := 1, 2 := 1], map[1 := 1]], 2, 1.02, None)
  }

  lemma ProfileWeights()
    ensures Sum(Below(3), Weigh([1, 1, 10])) == 12
  {
    var f := Weigh([1, 1, 10]);
    SumOne(f, 0);
    SumAdd({0}, f, 1);
    SumAdd({0} + {1}, f, 2);
    assert Below(3) == {0} + {1} + {2};
  }

  lemma ProfileStuck()
    ensures Stuck(ProfileRequest(), 2)
  {
    ProfileWeights();
    assert CapOf(ProfileRequest()) == CapFor(12, 2, 1.02) == 6.12;
  }

  lemma ProfileAccepted()
    ensures Accepted(ProfileRequest()) && |ProfileRequest().active| == 2
  {
  }

  /** Then the generator fails, in every trial: whatever the searches do, the inactive tile keeps a
      thread for itself. */
  lemma ProfileWeightsFail(lpt: seq<int>, order: seq<int>, loads: seq<nat>, t: Partition)
    requires IsLpt([1, 1, 10], 2, lpt, order) && Placed(lpt, 3, 2)
    requires Searched(ProfileRequest(), lpt, loads, CapOf(ProfileRequest()), t)
    ensures Accepted(ProfileRequest()) && |ProfileRequest().active| == ProfileRequest().threads
    ensures exists i :: 0 <= i < ProfileRequest().threads && !HasActive(t.assignments, ProfileRequest().active, i)
  {
    ProfileStuck();
    ProfileAccepted();
    StuckStaysAlone(ProfileRequest(), lpt, order, loads, t, 2);
  }

  // ---- how good the result is ----

  lemma CapAtMost(total: int, m: nat, factor: real, opt: int)
    requires m > 0 && total <= m * opt && factor >= 0.0
    ensures CapFor(total, m, factor) <= factor * opt as real
  {
    var average := total as real / m as real;
    assert (m * opt) as real == m as real * opt as real;
    assert average <= opt as real;
    ScaledReal(average, opt as real, factor);
  }

  lemma ScaledReal(x: real, y: real, factor: real)
    requires x <= y && factor >= 0.0
    ensures x * factor <= factor * y
  {
  }

  /** The cap is at most the factor times the maximum load of any assignment. */
  lemma CapBelow(r: Request, b: seq<int>, opt: int)
    requires r.threads > 0 && r.factor >= 1.0 && |b| == |r.weights| && Placed(b, |b|, r.threads)
    requires forall k :: 0 <= k < r.threads ==> Load(b, r.weights, |b|, k) <= opt
    ensures CapOf(r) <= r.factor * opt as real
  {
    TotalBelow(r.weights, b, r.threads, opt);
    CapAtMost(Sum(Below(|r.weights|), Weigh(r.weights)), r.threads, r.factor, opt);
  }

  lemma TotalBelow(w: seq<nat>, b: seq<int>, m: nat, opt: int)
    requires |b| == |w| && Placed(b, |b|, m) && forall k :: 0 <= k < m ==> Load(b, w, |b|, k) <= opt
    ensures Sum(Below(|w|), Weigh(w)) <= m * opt
  {
    TotalAtMost(b, w, |b|, m, opt);
    AllPlaced(b, |b|, m);
  }

  /** Whatever the searches did, no thread of the final partition exceeds the best possible maximum
      load by more than the greater of 4/3 - 1/(3m) and the load factor. */
  lemma FinalBound(r: Request, lpt: seq<int>, order: seq<int>, loads: seq<nat>, t: Partition, b: seq<int>, opt: int, i: int)
    requires Accepted(r) && IsLpt(r.weights, r.threads, lpt, order) && |loads| == r.threads
    requires forall k :: 0 <= k < r.threads ==> loads[k] == Load(lpt, r.weights, |lpt|, k)
    requires Searched(r, lpt, loads, CapOf(r), t)
    requires |b| == |r.weights| && Placed(b, |b|, r.threads)
    requires forall k :: 0 <= k < r.threads ==> Load(b, r.weights, |b|, k) <= opt
    requires 0 <= i < r.threads
    ensures 3 * r.threads * t.loads[i] <= (4 * r.threads - 1) * opt || (t.loads[i] as real) <= r.factor * opt as real
  {
    CapBelow(r, b, opt);
    if t.loads[i] <= loads[i] {
      LptBound(r.weights, r.threads, lpt, order, b, opt, i);
      Monotone(t.loads[i], loads[i], 3 * r.threads);
    }
  }
}
