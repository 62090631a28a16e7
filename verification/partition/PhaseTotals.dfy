/** How the work of a tile is divided among the phases, and what that means for loads and for the best
    critical load possible. */
module PhaseTotals {
  import opened SortedSets
  import opened Sums
  import opened GreedyPlacement
  import opened Phases
  import opened PhaseTables

  function Count(raw: map<nat, nat>): nat -> int {
    (ph: nat) => if ph in raw then raw[ph] else 0
  }

  ghost function RawTotal(raw: map<nat, nat>): int {
    Sum(raw.Keys, Count(raw))
  }

  method SumValues(raw: map<nat, nat>) returns (total: nat)
    ensures total == RawTotal(raw)
  {
    total := 0;
    var rest := raw.Keys;
    ghost var done: set<nat> := {};
    while rest != {}
      invariant rest + done == raw.Keys && rest !! done
      invariant total == Sum(done, Count(raw))
      decreases rest
    {
      ghost var some := Member(rest);
      var phase :| phase in rest;
      SumAdd(done, Count(raw), phase);
      total := total + raw[phase];
      rest, done := rest - {phase}, done + {phase};
    }
    assert done == raw.Keys;
  }

  ghost predicate Above(raw: map<nat, nat>, n: nat) {
    n > 0 && forall ph :: ph in raw ==> ph < n
  }

  /** Whatever the number of phases, the vector adds up to the weight. */
  ghost predicate Divides(v: map<nat, real>, raw: map<nat, nat>, weight: nat) {
    forall n {:trigger VectorTotal(v, n)} :: Above(raw, n) ==> VectorTotal(v, n) == weight as real
  }

  /** The vector of one tile: its weight divided in proportion to its task counts; all of it startup
      work when it has no tasks; none when it has no weight. */
  method Normalize(raw: map<nat, nat>, weight: nat) returns (v: map<nat, real>)
    ensures forall ph :: ph in v ==> v[ph] >= 0.0 && (ph in raw || ph == 0)
    ensures Divides(v, raw, weight)
    ensures weight == 0 ==> v == map[]
    ensures weight > 0 && RawTotal(raw) == 0 ==> v == map[0 := weight as real]
    ensures weight > 0 && RawTotal(raw) != 0 ==>
              v.Keys == raw.Keys && forall ph :: ph in raw ==> v[ph] * RawTotal(raw) as real == (weight * raw[ph]) as real
  {
    if weight == 0 {
      v := map[];
      forall n: nat ensures VectorTotal(v, n) == 0.0 { EmptyTotal(n); }
      return;
    }
    var total := SumValues(raw);
    if total == 0 {
      v := map[0 := weight as real];
      forall n: nat | Above(raw, n) ensures VectorTotal(v, n) == weight as real { StartupTotal(weight as real, n); }
      return;
    }
    v := map ph | ph in raw :: (weight * raw[ph]) as real / total as real;
    forall n: nat | Above(raw, n) ensures VectorTotal(v, n) == weight as real {
      ProportionalTotal(raw, v, weight, total, n);
      RawUpToAll(raw, n);
      Cancel(weight, total);
    }
    forall ph | ph in raw ensures v[ph] * total as real == (weight * raw[ph]) as real {
      QuotientTimes((weight * raw[ph]) as real, total as real);
    }
  }

  lemma QuotientTimes(x: real, t: real)
    requires t != 0.0
    ensures x / t * t == x
  {
  }

  lemma Cancel(weight: nat, total: nat)
    requires total > 0
    ensures (weight * total) as real / total as real == weight as real
  {
    assert (weight * total) as real == weight as real * total as real;
  }

  lemma AddQuotients(x: real, y: real, t: real)
    requires t != 0.0
    ensures x / t + y / t == (x + y) / t
  {
  }

  /** The entries below n, added up. */
  function VectorTotal(v: map<nat, real>, n: nat): real {
    if n == 0 then 0.0 else VectorTotal(v, n - 1) + if n - 1 in v then v[n - 1] else 0.0
  }

  lemma {:induction false} EmptyTotal(n: nat)
    ensures VectorTotal(map[], n) == 0.0
  {
    if n > 0 { EmptyTotal(n - 1); }
  }

  lemma {:induction false} StartupTotal(w: real, n: nat)
    requires n > 0
    ensures VectorTotal(map[0 := w], n) == w
  {
    if n > 1 { StartupTotal(w, n - 1); }
  }

  ghost function RawUpTo(raw: map<nat, nat>, n: nat): int {
    if n == 0 then 0 else RawUpTo(raw, n - 1) + Count(raw)(n - 1)
  }

  ghost function PhasesUpTo(raw: map<nat, nat>, n: nat): set<nat> {
    set ph | ph in raw && ph < n
  }

  lemma {:induction false} RawUpToSum(raw: map<nat, nat>, n: nat)
    ensures RawUpTo(raw, n) == Sum(PhasesUpTo(raw, n), Count(raw))
  {
    var below := PhasesUpTo(raw, n);
    if n == 0 {
      assert below == {};
    } else {
      RawUpToSum(raw, n - 1);
      var fewer := PhasesUpTo(raw, n - 1);
      if n - 1 in raw {
        var last: nat := n - 1;
        SumAdd<nat>(fewer, Count(raw), last);
        assert below == fewer + {last};
      } else {
        assert below == fewer;
      }
    }
  }

  lemma RawUpToAll(raw: map<nat, nat>, n: nat)
    requires forall ph :: ph in raw ==> ph < n
    ensures RawUpTo(raw, n) == RawTotal(raw)
  {
    RawUpToSum(raw, n);
    assert PhasesUpTo(raw, n) == raw.Keys;
  }

  lemma {:induction false} ProportionalTotal(raw: map<nat, nat>, v: map<nat, real>, weight: nat, total: nat, n: nat)
    requires total > 0 && v == map ph | ph in raw :: (weight * raw[ph]) as real / total as real
    ensures VectorTotal(v, n) == (weight * RawUpTo(raw, n)) as real / total as real
  {
    if n > 0 {
      ProportionalTotal(raw, v, weight, total, n - 1);
      NextQuotient(weight, RawUpTo(raw, n - 1), Count(raw)(n - 1), total);
      assert n - 1 !in raw ==> (weight * 0) as real / total as real == 0.0;
    }
  }

  lemma NextQuotient(weight: nat, x: int, y: int, total: nat)
    requires total > 0
    ensures (weight * (x + y)) as real / total as real == (weight * x) as real / total as real + (weight * y) as real / total as real
  {
    assert weight * (x + y) == weight * x + weight * y;
    AddQuotients((weight * x) as real, (weight * y) as real, total as real);
  }

  // ---- conservation ----

  /** Each tile's vector adds up to its weight. */
  ghost predicate Normalized(pv: Vectors, w: seq<nat>, phases: nat) {
    |pv| == |w| && forall i :: 0 <= i < |pv| ==> VectorTotal(pv[i], phases) == w[i] as real
  }

  /** The work of thread t over the first n phases. */
  ghost function OverPhases(a: seq<int>, pv: Vectors, t: int, n: nat, tiles: nat): real
    requires tiles <= |a|
  {
    if n == 0 then 0.0 else OverPhases(a, pv, t, n - 1, tiles) + PhaseLoad(a, pv, n - 1, t, tiles)
  }

  lemma {:induction false} OneTileOverPhases(a: seq<int>, pv: Vectors, t: int, n: nat, tiles: nat)
    requires tiles < |a| == |pv|
    ensures OverPhases(a, pv, t, n, tiles + 1) == OverPhases(a, pv, t, n, tiles) + ShareOf(a[tiles], t, VectorTotal(pv[tiles], n))
  {
    if n > 0 { OneTileOverPhases(a, pv, t, n - 1, tiles); }
  }

  lemma {:induction false} NoTilesNoWork(a: seq<int>, pv: Vectors, t: int, n: nat)
    ensures OverPhases(a, pv, t, n, 0) == 0.0
  {
    if n > 0 { NoTilesNoWork(a, pv, t, n - 1); }
  }

  lemma {:induction false} PhasesAddUpTo(a: seq<int>, pv: Vectors, w: seq<nat>, t: int, phases: nat, tiles: nat)
    requires tiles <= |a| == |pv| && Normalized(pv, w, phases)
    ensures OverPhases(a, pv, t, phases, tiles) == Load(a, w, tiles, t) as real
  {
    if tiles == 0 {
      NoTilesNoWork(a, pv, t, phases);
      assert Jobs(a, 0, t) == {};
    } else {
      PhasesAddUpTo(a, pv, w, t, phases, tiles - 1);
      OneTileOverPhases(a, pv, t, phases, tiles - 1);
      LoadStep(a, w, tiles - 1, t);
    }
  }

  /** Over all phases a thread does exactly its load. */
  lemma PhasesAddUp(a: seq<int>, pv: Vectors, w: seq<nat>, t: int, phases: nat)
    requires |a| == |pv| && Normalized(pv, w, phases)
    ensures OverPhases(a, pv, t, phases, |a|) == Load(a, w, |a|, t) as real
  {
    PhasesAddUpTo(a, pv, w, t, phases, |a|);
  }

  // ---- the ideal lower bound ----

  function RowSum(row: seq<real>): real {
    if row == [] then 0.0 else RowSum(row[..|row| - 1]) + row[|row| - 1]
  }

  /** The sum over the phases of the average over the threads. */
  function Ideal(pl: Table, m: nat): real
    requires m > 0
  {
    if pl == [] then 0.0 else Ideal(pl[..|pl| - 1], m) + RowSum(pl[|pl| - 1]) / m as real
  }

  /** The work in a phase of the first n tiles, wherever they are. */
  ghost function WorkOf(pv: Vectors, ph: nat, n: nat): real {
    if n == 0 then 0.0 else WorkOf(pv, ph, n - 1) + WorkIn(pv, n - 1, ph)
  }

  /** The work of the threads below m. */
  ghost function ThreadsBelow(a: seq<int>, pv: Vectors, ph: nat, m: nat, n: nat): real
    requires n <= |a|
  {
    if m == 0 then 0.0 else ThreadsBelow(a, pv, ph, m - 1, n) + PhaseLoad(a, pv, ph, m - 1, n)
  }

  lemma {:induction false} OneTileBelow(a: seq<int>, pv: Vectors, ph: nat, m: nat, n: nat)
    requires n < |a|
    ensures ThreadsBelow(a, pv, ph, m, n + 1)
         == ThreadsBelow(a, pv, ph, m, n) + if 0 <= a[n] < m then WorkIn(pv, n, ph) else 0.0
  {
    if m > 0 { OneTileBelow(a, pv, ph, m - 1, n); }
  }

  lemma {:induction false} NoTilesBelow(a: seq<int>, pv: Vectors, ph: nat, m: nat)
    ensures ThreadsBelow(a, pv, ph, m, 0) == 0.0
  {
    if m > 0 { NoTilesBelow(a, pv, ph, m - 1); }
  }

  lemma {:induction false} PhaseWorkConserved(a: seq<int>, pv: Vectors, ph: nat, m: nat, n: nat)
    requires n <= |a| && Placed(a, n, m)
    ensures ThreadsBelow(a, pv, ph, m, n) == WorkOf(pv, ph, n)
  {
    if n == 0 {
      NoTilesBelow(a, pv, ph, m);
    } else {
      PhaseWorkConserved(a, pv, ph, m, n - 1);
      OneTileBelow(a, pv, ph, m, n - 1);
    }
  }

  lemma {:induction false} RowIsThreads(a: seq<int>, pv: Vectors, ph: nat, row: seq<real>)
    requires forall t :: 0 <= t < |row| ==> row[t] == PhaseLoad(a, pv, ph, t, |a|)
    ensures RowSum(row) == ThreadsBelow(a, pv, ph, |row|, |a|)
  {
    if row != [] {
      RowIsThreads(a, pv, ph, row[..|row| - 1]);
    }
  }

  lemma {:induction false} AverageBelowMax(row: seq<real>, max: real)
    requires forall k :: 0 <= k < |row| ==> row[k] <= max
    ensures RowSum(row) <= max * |row| as real
  {
    if row != [] {
      AverageBelowMax(row[..|row| - 1], max);
      assert max * |row| as real == max * (|row| - 1) as real + max;
    }
  }

  lemma RowConserved(a: seq<int>, b: seq<int>, pv: Vectors, ph: nat, row: seq<real>, other: seq<real>, m: nat)
    requires |a| == |b| && Placed(a, |a|, m) && Placed(b, |b|, m) && |row| == |other| == m
    requires forall t :: 0 <= t < m ==> row[t] == PhaseLoad(a, pv, ph, t, |a|) && other[t] == PhaseLoad(b, pv, ph, t, |b|)
    ensures RowSum(row) == RowSum(other)
  {
    RowIsThreads(a, pv, ph, row);
    RowIsThreads(b, pv, ph, other);
    PhaseWorkConserved(a, pv, ph, m, |a|);
    PhaseWorkConserved(b, pv, ph, m, |b|);
  }

  lemma RowBound(a: seq<int>, b: seq<int>, pv: Vectors, ph: nat, row: seq<real>, other: seq<real>, m: nat)
    requires m > 0 && |a| == |b| && Placed(a, |a|, m) && Placed(b, |b|, m) && |row| == |other| == m
    requires forall t :: 0 <= t < m ==> row[t] == PhaseLoad(a, pv, ph, t, |a|) && other[t] == PhaseLoad(b, pv, ph, t, |b|)
    ensures RowSum(row) / m as real <= MaxOf(other)
  {
    RowConserved(a, b, pv, ph, row, other, m);
    SumBelowMax(other, RowSum(other), m);
  }

  lemma SumBelowMax(other: seq<real>, sum: real, m: nat)
    requires m > 0 && |other| == m && sum == RowSum(other)
    ensures sum / m as real <= MaxOf(other)
  {
    AverageBelowMax(other, MaxOf(other));
    QuotientBelow(sum, MaxOf(other), m as real);
  }

  lemma QuotientBelow(x: real, y: real, t: real)
    requires t > 0.0 && x <= y * t
    ensures x / t <= y
  {
  }

  /** The two tables are those of two assignments, as far as they go. */
  ghost predicate Tables(a: seq<int>, b: seq<int>, pv: Vectors, pl: Table, other: Table, m: nat) {
    && |pl| == |other|
    && (forall ph :: 0 <= ph < |pl| ==> |pl[ph]| == m && forall t :: 0 <= t < m ==> pl[ph][t] == PhaseLoad(a, pv, ph, t, |a|))
    && forall ph :: 0 <= ph < |other| ==> |other[ph]| == m && forall t :: 0 <= t < m ==> other[ph][t] == PhaseLoad(b, pv, ph, t, |b|)
  }

  lemma {:induction false} IdealBelow(a: seq<int>, b: seq<int>, pv: Vectors, pl: Table, other: Table, m: nat)
    requires m > 0 && |a| == |b| && Placed(a, |a|, m) && Placed(b, |b|, m) && Tables(a, b, pv, pl, other, m)
    ensures Filled(other) && Ideal(pl, m) <= Critical(other)
    decreases |pl|
  {
    if pl != [] {
      var n := |pl| - 1;
      IdealBelow(a, b, pv, pl[..n], other[..n], m);
      RowBound(a, b, pv, n, pl[n], other[n], m);
    }
  }

  /** All work of the table. */
  function TableSum(pl: Table): real {
    if pl == [] then 0.0 else TableSum(pl[..|pl| - 1]) + RowSum(pl[|pl| - 1])
  }

  lemma {:induction false} IdealTimes(pl: Table, m: nat)
    requires m > 0
    ensures Ideal(pl, m) * m as real == TableSum(pl)
    decreases |pl|
  {
    if pl != [] {
      var init := pl[..|pl| - 1];
      IdealTimes(init, m);
      QuotientTimes(RowSum(pl[|pl| - 1]), m as real);
      assert (Ideal(init, m) + RowSum(pl[|pl| - 1]) / m as real) * m as real
          == Ideal(init, m) * m as real + RowSum(pl[|pl| - 1]) / m as real * m as real;
    }
  }

  /** The work of the first n tiles over the first k phases. */
  ghost function WorkOver(pv: Vectors, k: nat, n: nat): real {
    if k == 0 then 0.0 else WorkOver(pv, k - 1, n) + WorkOf(pv, k - 1, n)
  }

  lemma {:induction false} OneTileOver(pv: Vectors, k: nat, n: nat)
    requires n < |pv|
    ensures WorkOver(pv, k, n + 1) == WorkOver(pv, k, n) + VectorTotal(pv[n], k)
  {
    if k > 0 { OneTileOver(pv, k - 1, n); }
  }

  lemma {:induction false} NoTilesOver(pv: Vectors, k: nat)
    ensures WorkOver(pv, k, 0) == 0.0
  {
    if k > 0 { NoTilesOver(pv, k - 1); }
  }

  lemma OneWeight(w: seq<nat>, n: nat)
    requires n < |w|
    ensures Sum(Below(n + 1), Weigh(w)) as real == Sum(Below(n), Weigh(w)) as real + w[n] as real
  {
    assert Below(n + 1) == Below(n) + {n};
    SumAdd(Below(n), Weigh(w), n);
  }

  lemma {:induction false} WeightsOver(pv: Vectors, w: seq<nat>, k: nat, n: nat)
    requires |pv| == |w| && (forall i :: 0 <= i < |pv| ==> VectorTotal(pv[i], k) == w[i] as real) && n <= |w|
    ensures WorkOver(pv, k, n) == Sum(Below(n), Weigh(w)) as real
  {
    if n == 0 {
      NoTilesOver(pv, k);
      assert Below(0) == {};
    } else {
      WeightsOver(pv, w, k, n - 1);
      OneTileOver(pv, k, n - 1);
      OneWeight(w, n - 1);
    }
  }

  lemma {:induction false} TableIsWork(a: seq<int>, pv: Vectors, pl: Table, m: nat)
    requires Placed(a, |a|, m) && forall ph :: 0 <= ph < |pl| ==> |pl[ph]| == m && forall t :: 0 <= t < m ==> pl[ph][t] == PhaseLoad(a, pv, ph, t, |a|)
    ensures TableSum(pl) == WorkOver(pv, |pl|, |a|)
    decreases |pl|
  {
    if pl != [] {
      var n := |pl| - 1;
      TableIsWork(a, pv, pl[..n], m);
      RowIsThreads(a, pv, n, pl[n]);
      PhaseWorkConserved(a, pv, n, m, |a|);
    }
  }

  /** The reported ideal is the average load of a thread. */
  lemma IdealIsAverage(a: seq<int>, pv: Vectors, w: seq<nat>, pl: Table, m: nat)
    requires m > 0 && IsTable(a, pv, pl, m) && Normalized(pv, w, |pl|)
    ensures Ideal(pl, m) * m as real == Sum(Below(|w|), Weigh(w)) as real
  {
    IdealTimes(pl, m);
    TableIsWork(a, pv, pl, m);
    WeightsOver(pv, w, |pl|, |w|);
  }

  /** The reported ideal is a lower bound of the critical load of every assignment. */
  lemma IdealIsLowerBound(a: seq<int>, b: seq<int>, pv: Vectors, pl: Table, other: Table, m: nat)
    requires m > 0 && IsTable(a, pv, pl, m) && IsTable(b, pv, other, m) && |pl| == |other|
    ensures Filled(other) && Ideal(pl, m) <= Critical(other)
  {
    IdealBelow(a, b, pv, pl, other, m);
  }
}
