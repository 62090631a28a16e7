/** The running totals that the local searches keep, and what moving a tile does to them. */
module Balance {
  import opened SortedSets
  import opened Sums
  import opened GreedyPlacement
  import opened Cuts

  datatype Problem = Problem(weights: seq<nat>, active: set<int>, adjacency: seq<seq<int>>, edges: Weights, maximumLoad: real)

  /** Threads of the tiles, and load and number of active tiles of each thread. */
  datatype Partition = Partition(assignments: seq<int>, loads: seq<nat>, activeCounts: seq<nat>)

  ghost predicate WellFormed(p: Problem) {
    && |p.weights| == |p.edges| == |p.adjacency| && Symmetric(p.edges)
    && (forall i :: i in p.active ==> 0 <= i < |p.weights|)
    && (forall i, j :: 0 <= i < |p.adjacency| && j in p.adjacency[i] ==> 0 <= j < |p.weights|)
  }

  ghost function ActiveOn(a: seq<int>, active: set<int>, t: int): set<int> {
    set i | i in active && 0 <= i < |a| && a[i] == t
  }

  /** The totals are those of the assignment. */
  ghost predicate Consistent(p: Problem, s: Partition) {
    && |s.assignments| == |p.weights| && |s.activeCounts| == |s.loads|
    && Placed(s.assignments, |p.weights|, |s.loads|)
    && forall t :: 0 <= t < |s.loads| ==>
         s.loads[t] == Load(s.assignments, p.weights, |p.weights|, t) && s.activeCounts[t] == |ActiveOn(s.assignments, p.active, t)|
  }

  // ---- reassigning a tile ----

  function Share(at: int, t: int, amount: nat): nat {
    if at == t then amount else 0
  }

  lemma LoadWithout(a: seq<int>, w: seq<nat>, tile: int, t: int)
    requires |a| == |w| && 0 <= tile < |a|
    ensures Load(a, w, |a|, t) == Sum(Jobs(a, |a|, t) - {tile}, Weigh(w)) + Share(a[tile], t, w[tile])
  {
    if a[tile] == t {
      SumTake(Jobs(a, |a|, t), Weigh(w), tile);
    } else {
      assert Jobs(a, |a|, t) - {tile} == Jobs(a, |a|, t);
    }
  }

  /** The weight of the tile leaves its thread for the new one. */
  lemma LoadReassigned(a: seq<int>, w: seq<nat>, tile: int, thread: int, t: int)
    requires |a| == |w| && 0 <= tile < |a|
    ensures Load(a[tile := thread], w, |a|, t) == Load(a, w, |a|, t) - Share(a[tile], t, w[tile]) + Share(thread, t, w[tile])
  {
    var b := a[tile := thread];
    LoadWithout(a, w, tile, t);
    LoadWithout(b, w, tile, t);
    assert Jobs(a, |a|, t) - {tile} == Jobs(b, |a|, t) - {tile};
  }

  function One(active: set<int>, tile: int): nat {
    if tile in active then 1 else 0
  }

  lemma CountWithout(a: seq<int>, active: set<int>, tile: int, t: int)
    requires 0 <= tile < |a|
    ensures |ActiveOn(a, active, t)| == |ActiveOn(a, active, t) - {tile}| + Share(a[tile], t, One(active, tile))
  {
    var s := ActiveOn(a, active, t);
    if tile in s {
      assert s == s - {tile} + {tile};
    } else {
      assert s - {tile} == s;
    }
  }

  lemma CountReassigned(a: seq<int>, active: set<int>, tile: int, thread: int, t: int)
    requires 0 <= tile < |a|
    ensures |ActiveOn(a[tile := thread], active, t)|
         == |ActiveOn(a, active, t)| - Share(a[tile], t, One(active, tile)) + Share(thread, t, One(active, tile))
  {
    var b := a[tile := thread];
    CountWithout(a, active, tile, t);
    CountWithout(b, active, tile, t);
    assert ActiveOn(a, active, t) - {tile} == ActiveOn(b, active, t) - {tile};
  }

  // ---- what the searches keep ----

  /** Tiles heavier than the cap stay where they are, and nothing joins them. */
  ghost predicate Pinned(p: Problem, a: seq<int>, b: seq<int>) {
    && |a| == |b| == |p.weights|
    && forall x, y :: 0 <= x < |a| && 0 <= y < |a| && (p.weights[x] as real) > p.maximumLoad ==>
         b[x] == a[x] && (b[y] == b[x] ==> a[y] == a[x])
  }

  /** From s to t no thread exceeds both its load in s and the cap, none loses its last active tile, and
      tiles heavier than the cap are left alone. */
  ghost predicate Safe(p: Problem, s: Partition, t: Partition) {
    && |t.loads| == |s.loads| && |t.activeCounts| == |s.activeCounts| == |s.loads|
    && (forall i :: 0 <= i < |s.loads| ==> t.loads[i] <= s.loads[i] || (t.loads[i] as real) <= p.maximumLoad)
    && (forall i :: 0 <= i < |s.loads| ==> s.activeCounts[i] > 0 ==> t.activeCounts[i] > 0)
    && Pinned(p, s.assignments, t.assignments)
  }

  lemma PinnedTrans(p: Problem, a: seq<int>, b: seq<int>, c: seq<int>)
    requires Pinned(p, a, b) && Pinned(p, b, c)
    ensures Pinned(p, a, c)
  {
    forall x, y | 0 <= x < |a| && 0 <= y < |a| && (p.weights[x] as real) > p.maximumLoad
      ensures c[x] == a[x] && (c[y] == c[x] ==> a[y] == a[x])
    {
      assert b[x] == a[x] && (b[y] == b[x] ==> a[y] == a[x]);
      assert c[x] == b[x] && (c[y] == c[x] ==> b[y] == b[x]);
    }
  }

  lemma SafeTrans(p: Problem, s: Partition, t: Partition, u: Partition)
    requires Safe(p, s, t) && Safe(p, t, u)
    ensures Safe(p, s, u)
  {
    PinnedTrans(p, s.assignments, t.assignments, u.assignments);
  }

  /** A thread carries at least any tile on it. */
  lemma LoadHolds(p: Problem, s: Partition, tile: int)
    requires Consistent(p, s) && 0 <= tile < |s.assignments|
    ensures s.loads[s.assignments[tile]] >= p.weights[tile]
  {
    LoadWithout(s.assignments, p.weights, tile, s.assignments[tile]);
    SumNonNegative(Jobs(s.assignments, |s.assignments|, s.assignments[tile]) - {tile}, Weigh(p.weights));
  }

  /** Threads that receive a tile stay under the cap. */
  ghost predicate ReceivesUnderCap(p: Problem, s: Partition, t: Partition)
    requires Consistent(p, s) && Consistent(p, t)
  {
    forall y :: 0 <= y < |p.weights| && t.assignments[y] != s.assignments[y] ==> (t.loads[t.assignments[y]] as real) <= p.maximumLoad
  }

  lemma StaysPinned(p: Problem, s: Partition, t: Partition)
    requires Consistent(p, s) && Consistent(p, t) && ReceivesUnderCap(p, s, t)
    ensures Pinned(p, s.assignments, t.assignments)
  {
    forall x, y | 0 <= x < |p.weights| && 0 <= y < |p.weights| && (p.weights[x] as real) > p.maximumLoad
      ensures t.assignments[x] == s.assignments[x]
      ensures t.assignments[y] == t.assignments[x] ==> s.assignments[y] == s.assignments[x]
    {
      LoadHolds(p, t, x);
    }
  }

  /** What the threads carry together. */
  function Total(loads: seq<nat>): nat {
    if loads == [] then 0 else Total(loads[..|loads| - 1]) + loads[|loads| - 1]
  }

  lemma {:induction false} TotalOfFirst(a: seq<int>, w: seq<nat>, loads: seq<nat>, m: nat)
    requires |a| == |w| && m <= |loads|
    requires forall t :: 0 <= t < |loads| ==> loads[t] == Load(a, w, |a|, t)
    ensures Total(loads[..m]) == Sum(JobsBelow(a, |a|, m), Weigh(w))
    decreases m
  {
    if m == 0 {
      assert JobsBelow(a, |a|, 0) == {};
    } else {
      TotalOfFirst(a, w, loads, m - 1);
      JobsSplit(a, w, |a|, m - 1);
      assert loads[..m][..m - 1] == loads[..m - 1];
    }
  }

  lemma LoadsAddUp(a: seq<int>, w: seq<nat>, loads: seq<nat>)
    requires |a| == |w| && Placed(a, |a|, |loads|) && forall t :: 0 <= t < |loads| ==> loads[t] == Load(a, w, |a|, t)
    ensures Total(loads) == Sum(Below(|w|), Weigh(w))
  {
    TotalOfFirst(a, w, loads, |loads|);
    assert loads[..|loads|] == loads;
    AllPlaced(a, |a|, |loads|);
  }

  /** Whatever the assignment, the loads add up to the weight of all tiles. */
  lemma LoadConserved(p: Problem, s: Partition)
    requires Consistent(p, s)
    ensures Total(s.loads) == Sum(Below(|p.weights|), Weigh(p.weights))
  {
    LoadsAddUp(s.assignments, p.weights, s.loads);
  }

  lemma CountIsHasActive(p: Problem, s: Partition, t: int)
    requires WellFormed(p) && Consistent(p, s) && 0 <= t < |s.loads|
    ensures s.activeCounts[t] > 0 <==> exists i :: 0 <= i < |s.assignments| && i in p.active && s.assignments[i] == t
  {
    var on := ActiveOn(s.assignments, p.active, t);
    if on != {} {
      var i := Member(on);
    }
    if i :| 0 <= i < |s.assignments| && i in p.active && s.assignments[i] == t {
      assert i in on;
    }
  }

  /** Counts the active tiles of every thread. */
  method CountActive(a: seq<int>, active: set<int>, threads: nat) returns (counts: seq<nat>)
    requires Placed(a, |a|, threads) && forall i :: i in active ==> 0 <= i < |a|
    ensures |counts| == threads && forall t :: 0 <= t < threads ==> counts[t] == |ActiveOn(a, active, t)|
  {
    counts := seq(threads, _ => 0);
    var rest, done: set<int> := active, {};
    assert forall t :: ActiveOn(a, {}, t) == {};
    while rest != {}
      invariant rest + done == active && rest !! done && |counts| == threads
      invariant forall t :: 0 <= t < threads ==> counts[t] == |ActiveOn(a, done, t)|
      decreases rest
    {
      ghost var some := Member(rest);
      var tile :| tile in rest;
      assert tile in active;
      forall t | 0 <= t < threads ensures |ActiveOn(a, done + {tile}, t)| == |ActiveOn(a, done, t)| + Share(a[tile], t, 1) {
        OneMoreActive(a, done, tile, t);
      }
      counts := counts[a[tile] := counts[a[tile]] + 1];
      rest, done := rest - {tile}, done + {tile};
    }
    assert done == active;
  }

  lemma OneMoreActive(a: seq<int>, done: set<int>, tile: int, t: int)
    requires 0 <= tile < |a| && tile !in done
    ensures |ActiveOn(a, done + {tile}, t)| == |ActiveOn(a, done, t)| + Share(a[tile], t, 1)
  {
    if a[tile] == t {
      assert ActiveOn(a, done + {tile}, t) == ActiveOn(a, done, t) + {tile};
    } else {
      assert ActiveOn(a, done + {tile}, t) == ActiveOn(a, done, t);
    }
  }
}
