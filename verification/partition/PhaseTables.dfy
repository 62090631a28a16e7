/** The table of phase loads: built from an assignment, changed by an exchange, and what the change of
    its critical load is. */
module PhaseTables {
  import opened SortedSets
  import opened Cuts
  import opened GreedyPlacement
  import opened Phases

  type Table = seq<seq<real>>

  /** The table holds the phase loads of the assignment. */
  ghost predicate IsTable(a: seq<int>, pv: Vectors, pl: Table, m: nat) {
    && |pv| == |a| && Placed(a, |a|, m) && NonNegative(pv)
    && (forall i, ph {:trigger ph in pv[i]} :: 0 <= i < |pv| && ph in pv[i] ==> ph < |pl|)
    && forall ph :: 0 <= ph < |pl| ==> |pl[ph]| == m && forall t :: 0 <= t < m ==> pl[ph][t] == PhaseLoad(a, pv, ph, t, |a|)
  }

  // ---- building ----

  /** Adds the work of one tile to the table. */
  method AddTile(pl: Table, a: seq<int>, pv: Vectors, tile: nat, m: nat) returns (r: Table)
    requires |pv| == |a| && tile < |a| && Placed(a, |a|, m)
    requires forall ph :: ph in pv[tile] ==> ph < |pl|
    requires forall ph :: 0 <= ph < |pl| ==> |pl[ph]| == m && forall t :: 0 <= t < m ==> pl[ph][t] == PhaseLoad(a, pv, ph, t, tile)
    ensures |r| == |pl|
    ensures forall ph :: 0 <= ph < |r| ==> |r[ph]| == m && forall t :: 0 <= t < m ==> r[ph][t] == PhaseLoad(a, pv, ph, t, tile + 1)
  {
    r := pl;
    var rest := pv[tile].Keys;
    var thread := a[tile];
    while rest != {}
      invariant rest <= pv[tile].Keys && |r| == |pl|
      invariant forall ph :: 0 <= ph < |r| ==> |r[ph]| == m
      invariant forall ph, t :: 0 <= ph < |r| && 0 <= t < m ==>
                  r[ph][t] == if ph in rest then pl[ph][t] else pl[ph][t] + ShareOf(thread, t, WorkIn(pv, tile, ph))
      decreases rest
    {
      ghost var some := Member(rest);
      var phase :| phase in rest;
      assert phase in pv[tile];
      r := r[phase := r[phase][thread := r[phase][thread] + pv[tile][phase]]];
      rest := rest - {phase};
    }
  }

  method PhaseLoadsForPartition(a: seq<int>, pv: Vectors, threads: nat, phaseCount: nat) returns (pl: Table)
    requires |pv| == |a| && Placed(a, |a|, threads) && NonNegative(pv)
    requires forall i, ph {:trigger ph in pv[i]} :: 0 <= i < |pv| && ph in pv[i] ==> ph < phaseCount
    ensures |pl| == phaseCount && IsTable(a, pv, pl, threads)
  {
    pl := seq(phaseCount, _ => seq(threads, _ => 0.0));
    for tile := 0 to |a|
      invariant |pl| == phaseCount
      invariant forall ph :: 0 <= ph < |pl| ==> |pl[ph]| == threads && forall t :: 0 <= t < threads ==> pl[ph][t] == PhaseLoad(a, pv, ph, t, tile)
    {
      pl := AddTile(pl, a, pv, tile, threads);
    }
  }

  method PhaseCriticalLoad(pl: Table) returns (critical: real)
    requires Filled(pl)
    ensures critical == Critical(pl)
  {
    critical := 0.0;
    for ph := 0 to |pl|
      invariant critical == Critical(pl[..ph])
    {
      critical := critical + MaxOf(pl[ph]);
      assert pl[..ph + 1][..ph] == pl[..ph];
    }
    assert pl[..|pl|] == pl;
  }

  // ---- an exchange ----

  /** A row after `first`, on thread i, and `second`, on thread j, have traded places. */
  function SwappedRow(row: seq<real>, pv: Vectors, ph: nat, i: int, j: int, first: int, second: int): (r: seq<real>)
    requires 0 <= i < |row| && 0 <= j < |row|
    ensures |r| == |row|
  {
    var x, y := WorkIn(pv, first, ph), WorkIn(pv, second, ph);
    row[i := row[i] - x + y][j := row[j] - y + x]
  }

  ghost predicate RowIsSwapped(row: seq<real>, r: seq<real>, pv: Vectors, ph: nat, i: int, j: int, first: int, second: int) {
    0 <= i < |row| && 0 <= j < |row| && r == SwappedRow(row, pv, ph, i, j, first, second)
  }

  /** The table after the exchange, the same in phases in which neither tile has work. */
  ghost predicate IsSwapped(pl: Table, r: Table, pv: Vectors, i: int, j: int, first: int, second: int) {
    |r| == |pl| && forall ph :: 0 <= ph < |pl| ==> RowIsSwapped(pl[ph], r[ph], pv, ph, i, j, first, second)
  }

  lemma SwappedIsTable(a: seq<int>, pv: Vectors, pl: Table, r: Table, m: nat, first: int, second: int)
    requires IsTable(a, pv, pl, m) && 0 <= first < |a| && 0 <= second < |a| && a[first] != a[second]
    requires IsSwapped(pl, r, pv, a[first], a[second], first, second)
    ensures IsTable(Swapped(a, first, second), pv, r, m)
  {
    forall ph, t | 0 <= ph < |r| && 0 <= t < m
      ensures r[ph][t] == PhaseLoad(Swapped(a, first, second), pv, ph, t, |a|)
    {
      PhaseLoadSwapped(a, pv, ph, t, first, second);
    }
  }

  /** Neither new value of a row is negative: they are phase loads of the new assignment. */
  lemma NewValues(a: seq<int>, pv: Vectors, pl: Table, m: nat, ph: nat, first: int, second: int)
    requires IsTable(a, pv, pl, m) && 0 <= first < |a| && 0 <= second < |a| && a[first] != a[second] && ph < |pl|
    ensures pl[ph][a[first]] - WorkIn(pv, first, ph) + WorkIn(pv, second, ph) >= 0.0
    ensures pl[ph][a[second]] - WorkIn(pv, second, ph) + WorkIn(pv, first, ph) >= 0.0
  {
    var b := Swapped(a, first, second);
    PhaseLoadSwapped(a, pv, ph, a[first], first, second);
    PhaseLoadSwapped(a, pv, ph, a[second], first, second);
    PhaseLoadNonNegative(b, pv, ph, a[first], |a|);
    PhaseLoadNonNegative(b, pv, ph, a[second], |a|);
  }

  /** The table in which the rows of `done` have been exchanged. */
  ghost predicate Partly(pl: Table, r: Table, done: set<nat>, pv: Vectors, i: int, j: int, first: int, second: int) {
    |r| == |pl| && forall ph :: 0 <= ph < |pl| ==> RowDone(pl[ph], r[ph], ph in done, pv, ph, i, j, first, second)
  }

  ghost predicate RowDone(row: seq<real>, r: seq<real>, done: bool, pv: Vectors, ph: nat, i: int, j: int, first: int, second: int) {
    0 <= i < |row| && 0 <= j < |row| && r == if done then SwappedRow(row, pv, ph, i, j, first, second) else row
  }

  function AffectedPhases(pv: Vectors, first: int, second: int): set<nat>
    requires 0 <= first < |pv| && 0 <= second < |pv|
  {
    pv[first].Keys + pv[second].Keys
  }

  lemma AllAffectedDone(pl: Table, r: Table, pv: Vectors, i: int, j: int, first: int, second: int)
    requires 0 <= first < |pv| && 0 <= second < |pv| && i != j
    requires Partly(pl, r, AffectedPhases(pv, first, second), pv, i, j, first, second)
    ensures IsSwapped(pl, r, pv, i, j, first, second)
  {
    var affected := AffectedPhases(pv, first, second);
    forall ph | 0 <= ph < |pl| ensures RowIsSwapped(pl[ph], r[ph], pv, ph, i, j, first, second) {
      assert RowDone(pl[ph], r[ph], ph in affected, pv, ph, i, j, first, second);
      if ph !in affected {
        assert ph !in pv[first] && ph !in pv[second];
        RowUntouched(pl[ph], pv, ph, i, j, first, second);
      }
    }
  }

  lemma RowUntouched(row: seq<real>, pv: Vectors, ph: nat, i: int, j: int, first: int, second: int)
    requires 0 <= i < |row| && 0 <= j < |row| && i != j && WorkIn(pv, first, ph) == 0.0 && WorkIn(pv, second, ph) == 0.0
    ensures SwappedRow(row, pv, ph, i, j, first, second) == row
  {
  }

  lemma PartlyMore(pl: Table, r: Table, done: set<nat>, pv: Vectors, i: int, j: int, first: int, second: int, ph: nat)
    requires Partly(pl, r, done, pv, i, j, first, second) && ph < |pl| && ph !in done
    ensures r[ph] == pl[ph] && 0 <= i < |pl[ph]| && 0 <= j < |pl[ph]|
    ensures Partly(pl, r[ph := SwappedRow(pl[ph], pv, ph, i, j, first, second)], done + {ph}, pv, i, j, first, second)
  {
  }

  lemma RowByDifference(row: seq<real>, pv: Vectors, ph: nat, i: int, j: int, first: int, second: int)
    requires 0 <= i < |row| && 0 <= j < |row| && i != j
    ensures var d := WorkIn(pv, second, ph) - WorkIn(pv, first, ph);
            row[i := row[i] + d][j := row[i := row[i] + d][j] - d] == SwappedRow(row, pv, ph, i, j, first, second)
  {
  }

  lemma AffectedInTable(a: seq<int>, pv: Vectors, pl: Table, m: nat, first: int, second: int)
    requires IsTable(a, pv, pl, m) && 0 <= first < |a| && 0 <= second < |a|
    ensures forall ph :: ph in AffectedPhases(pv, first, second) ==> ph < |pl|
    ensures 0 <= a[first] < m && 0 <= a[second] < m
    ensures Partly(pl, pl, {}, pv, a[first], a[second], first, second) && Filled(pl)
  {
    forall ph | ph in AffectedPhases(pv, first, second) ensures ph < |pl| {
      assert ph in pv[first] || ph in pv[second];
    }
  }

  /** Exchanges the rows of the affected phases. */
  method ExchangeRows(pl: Table, a: seq<int>, pv: Vectors, m: nat, first: int, second: int) returns (r: Table)
    requires IsTable(a, pv, pl, m) && 0 <= first < |a| && 0 <= second < |a| && a[first] != a[second]
    ensures IsSwapped(pl, r, pv, a[first], a[second], first, second)
    ensures IsTable(Swapped(a, first, second), pv, r, m)
  {
    AffectedInTable(a, pv, pl, m, first, second);
    r := RowsExchanged(pl, pv, a[first], a[second], first, second);
    SwappedIsTable(a, pv, pl, r, m, first, second);
  }

  method ExchangeRow(row: seq<real>, pv: Vectors, phase: nat, source: int, destination: int, first: int, second: int) returns (r: seq<real>)
    requires 0 <= source < |row| && 0 <= destination < |row| && source != destination
    ensures r == SwappedRow(row, pv, phase, source, destination, first, second)
  {
    RowByDifference(row, pv, phase, source, destination, first, second);
    var difference := WorkIn(pv, second, phase) - WorkIn(pv, first, phase);
    r := row[source := row[source] + difference];
    r := r[destination := r[destination] - difference];
  }

  method RowsExchanged(pl: Table, pv: Vectors, source: int, destination: int, first: int, second: int) returns (r: Table)
    requires 0 <= first < |pv| && 0 <= second < |pv| && source != destination
    requires forall ph :: ph in AffectedPhases(pv, first, second) ==> ph < |pl|
    requires Partly(pl, pl, {}, pv, source, destination, first, second)
    ensures IsSwapped(pl, r, pv, source, destination, first, second)
  {
    r := pl;
    var rest := AffectedPhases(pv, first, second);
    ghost var done: set<nat> := {};
    while rest != {}
      invariant rest + done == AffectedPhases(pv, first, second) && rest !! done
      invariant Partly(pl, r, done, pv, source, destination, first, second)
      decreases rest
    {
      ghost var some := Member(rest);
      var phase :| phase in rest;
      PartlyMore(pl, r, done, pv, source, destination, first, second, phase);
      var row := ExchangeRow(r[phase], pv, phase, source, destination, first, second);
      r := r[phase := row];
      rest, done := rest - {phase}, done + {phase};
    }
    assert done == AffectedPhases(pv, first, second);
    AllAffectedDone(pl, r, pv, source, destination, first, second);
  }

  function MaximumAfter(row: seq<real>, pv: Vectors, ph: nat, i: int, j: int, first: int, second: int): real
    requires 0 <= i < |row| && 0 <= j < |row|
  {
    var x, y := WorkIn(pv, first, ph), WorkIn(pv, second, ph);
    Max3(UnaffectedMax(row, i, j), row[i] - x + y, row[j] - y + x)
  }

  lemma RowMaximum(row: seq<real>, pv: Vectors, ph: nat, i: int, j: int, first: int, second: int)
    requires 0 <= i < |row| && 0 <= j < |row| && i != j
    requires row[i] - WorkIn(pv, first, ph) + WorkIn(pv, second, ph) >= 0.0
    requires row[j] - WorkIn(pv, second, ph) + WorkIn(pv, first, ph) >= 0.0
    ensures MaxOf(SwappedRow(row, pv, ph, i, j, first, second)) == MaximumAfter(row, pv, ph, i, j, first, second)
  {
    var x, y := WorkIn(pv, first, ph), WorkIn(pv, second, ph);
    var newSource, newDestination := row[i] - x + y, row[j] - y + x;
    assert SwappedRow(row, pv, ph, i, j, first, second) == row[i := newSource][j := newDestination];
    MaxAfterChange(row, i, j, newSource, newDestination);
  }

  /** In every phase both threads can give up their tile's work. */
  ghost predicate Affordable(pl: Table, pv: Vectors, i: int, j: int, first: int, second: int) {
    forall ph :: 0 <= ph < |pl| ==>
      && 0 <= i < |pl[ph]| && 0 <= j < |pl[ph]|
      && pl[ph][i] - WorkIn(pv, first, ph) + WorkIn(pv, second, ph) >= 0.0
      && pl[ph][j] - WorkIn(pv, second, ph) + WorkIn(pv, first, ph) >= 0.0
  }

  lemma TableAffordable(a: seq<int>, pv: Vectors, pl: Table, m: nat, first: int, second: int)
    requires IsTable(a, pv, pl, m) && 0 <= first < |a| && 0 <= second < |a| && a[first] != a[second]
    ensures Affordable(pl, pv, a[first], a[second], first, second)
  {
    forall ph | 0 <= ph < |pl|
      ensures pl[ph][a[first]] - WorkIn(pv, first, ph) + WorkIn(pv, second, ph) >= 0.0
      ensures pl[ph][a[second]] - WorkIn(pv, second, ph) + WorkIn(pv, first, ph) >= 0.0
    {
      NewValues(a, pv, pl, m, ph, first, second);
    }
  }

  lemma OneRow(pl: Table, rows: Table, done: set<nat>, pv: Vectors, i: int, j: int, ph: nat, first: int, second: int)
    requires Affordable(pl, pv, i, j, first, second) && i != j && ph < |pl| && ph !in done
    requires Partly(pl, rows, done, pv, i, j, first, second) && Filled(rows)
    ensures var after := rows[ph := SwappedRow(pl[ph], pv, ph, i, j, first, second)];
            && Filled(after)
            && Critical(after) == Critical(rows) - MaxOf(pl[ph]) + MaximumAfter(pl[ph], pv, ph, i, j, first, second)
  {
    RowMaximum(pl[ph], pv, ph, i, j, first, second);
    CriticalChange(rows, ph, SwappedRow(pl[ph], pv, ph, i, j, first, second));
  }

  /** The rows of `done` have been exchanged, at a change of `delta` in the critical load. */
  ghost predicate DeltaSoFar(pl: Table, after: Table, done: set<nat>, pv: Vectors, i: int, j: int, first: int, second: int, delta: real) {
    && Filled(pl) && Filled(after) && delta == Critical(after) - Critical(pl)
    && Partly(pl, after, done, pv, i, j, first, second)
  }

  lemma DeltaMore(pl: Table, rows: Table, done: set<nat>, pv: Vectors, i: int, j: int, ph: nat, first: int, second: int, delta: real)
    returns (after: Table)
    requires Affordable(pl, pv, i, j, first, second) && i != j && ph < |pl| && ph !in done
    requires DeltaSoFar(pl, rows, done, pv, i, j, first, second, delta)
    ensures pl[ph] != [] && 0 <= i < |pl[ph]| && 0 <= j < |pl[ph]|
    ensures DeltaSoFar(pl, after, done + {ph}, pv, i, j, first, second,
                       delta + (MaximumAfter(pl[ph], pv, ph, i, j, first, second) - MaxOf(pl[ph])))
  {
    PartlyMore(pl, rows, done, pv, i, j, first, second, ph);
    OneRow(pl, rows, done, pv, i, j, ph, first, second);
    after := rows[ph := SwappedRow(pl[ph], pv, ph, i, j, first, second)];
  }

  /** The change of the critical load, from the affected phases alone. */
  method DeltaOfRows(pl: Table, pv: Vectors, source: int, destination: int, first: int, second: int)
    returns (delta: real, ghost after: Table)
    requires 0 <= first < |pv| && 0 <= second < |pv| && source != destination
    requires forall ph :: ph in AffectedPhases(pv, first, second) ==> ph < |pl|
    requires Partly(pl, pl, {}, pv, source, destination, first, second) && Filled(pl)
    requires Affordable(pl, pv, source, destination, first, second)
    ensures IsSwapped(pl, after, pv, source, destination, first, second)
    ensures Filled(after) && delta == Critical(after) - Critical(pl)
  {
    delta := 0.0;
    after := pl;
    var affected := AffectedPhases(pv, first, second);
    var rest := affected;
    ghost var done: set<nat> := {};
    while rest != {}
      invariant done <= affected && rest == affected - done
      invariant DeltaSoFar(pl, after, done, pv, source, destination, first, second, delta)
      decreases rest
    {
      var phase := Pick(rest);
      after := DeltaMore(pl, after, done, pv, source, destination, phase, first, second, delta);
      delta := delta + (MaximumAfter(pl[phase], pv, phase, source, destination, first, second) - MaxOf(pl[phase]));
      rest, done := rest - {phase}, done + {phase};
    }
    assert done == affected;
    AllAffectedDone(pl, after, pv, source, destination, first, second);
  }

  method PhaseDelta(pl: Table, a: seq<int>, pv: Vectors, m: nat, first: int, second: int) returns (delta: real, ghost after: Table)
    requires IsTable(a, pv, pl, m) && 0 <= first < |a| && 0 <= second < |a| && a[first] != a[second]
    ensures IsSwapped(pl, after, pv, a[first], a[second], first, second) && IsTable(Swapped(a, first, second), pv, after, m)
    ensures Filled(pl) && Filled(after) && delta == Critical(after) - Critical(pl)
  {
    AffectedInTable(a, pv, pl, m, first, second);
    TableAffordable(a, pv, pl, m, first, second);
    delta, after := DeltaOfRows(pl, pv, a[first], a[second], first, second);
    SwappedIsTable(a, pv, pl, after, m, first, second);
  }
}
