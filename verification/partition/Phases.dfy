/** Work per synchronization phase and thread, over the reals, and how an exchange changes it. */
module Phases {
  import opened Cuts

  /** For each tile its work in each phase it takes part in. */
  type Vectors = seq<map<nat, real>>

  ghost predicate NonNegative(pv: Vectors) {
    forall i, ph {:trigger ph in pv[i]} :: 0 <= i < |pv| && ph in pv[i] ==> pv[i][ph] >= 0.0
  }

  function WorkIn(pv: Vectors, tile: int, ph: nat): real {
    if 0 <= tile < |pv| && ph in pv[tile] then pv[tile][ph] else 0.0
  }

  function ShareOf(at: int, t: int, amount: real): real {
    if at == t then amount else 0.0
  }

  /** The work in a phase of the tiles among the first n that are on thread t. */
  function PhaseLoad(a: seq<int>, pv: Vectors, ph: nat, t: int, n: nat): real
    requires n <= |a|
  {
    if n == 0 then 0.0 else PhaseLoad(a, pv, ph, t, n - 1) + ShareOf(a[n - 1], t, WorkIn(pv, n - 1, ph))
  }

  lemma {:induction false} PhaseLoadNonNegative(a: seq<int>, pv: Vectors, ph: nat, t: int, n: nat)
    requires n <= |a| && NonNegative(pv)
    ensures PhaseLoad(a, pv, ph, t, n) >= 0.0
  {
    if n > 0 { PhaseLoadNonNegative(a, pv, ph, t, n - 1); }
  }

  lemma {:induction false} PhaseLoadReassigned(a: seq<int>, pv: Vectors, ph: nat, t: int, n: nat, tile: int, thread: int)
    requires n <= |a| && 0 <= tile < |a|
    ensures PhaseLoad(a[tile := thread], pv, ph, t, n)
         == PhaseLoad(a, pv, ph, t, n)
            - (if tile < n then ShareOf(a[tile], t, WorkIn(pv, tile, ph)) else 0.0)
            + (if tile < n then ShareOf(thread, t, WorkIn(pv, tile, ph)) else 0.0)
  {
    if n > 0 { PhaseLoadReassigned(a, pv, ph, t, n - 1, tile, thread); }
  }

  /** The work of the two tiles trades places. */
  lemma PhaseLoadSwapped(a: seq<int>, pv: Vectors, ph: nat, t: int, first: int, second: int)
    requires 0 <= first < |a| && 0 <= second < |a| && a[first] != a[second]
    ensures PhaseLoad(Swapped(a, first, second), pv, ph, t, |a|)
         == PhaseLoad(a, pv, ph, t, |a|) + ShareOf(a[first], t, WorkIn(pv, second, ph) - WorkIn(pv, first, ph))
            - ShareOf(a[second], t, WorkIn(pv, second, ph) - WorkIn(pv, first, ph))
  {
    PhaseLoadReassigned(a, pv, ph, t, |a|, first, a[second]);
    PhaseLoadReassigned(a[first := a[second]], pv, ph, t, |a|, second, a[first]);
  }

  // ---- maxima ----

  function MaxOf(s: seq<real>): (r: real)
    requires s != []
    ensures (forall k :: 0 <= k < |s| ==> s[k] <= r) && exists k :: 0 <= k < |s| && s[k] == r
  {
    if |s| == 1 then s[0]
    else
      var m := MaxOf(s[..|s| - 1]);
      if m < s[|s| - 1] then s[|s| - 1] else m
  }

  /** The values of the threads other than i and j, among the first n. */
  function Others(row: seq<real>, i: int, j: int, n: nat): (r: seq<real>)
    requires n <= |row|
    ensures forall k :: 0 <= k < n && k != i && k != j ==> row[k] in r
    ensures forall x :: x in r ==> exists k :: 0 <= k < n && k != i && k != j && row[k] == x
  {
    if n == 0 then []
    else
      var r := Others(row, i, j, n - 1);
      if n - 1 == i || n - 1 == j then r else r + [row[n - 1]]
  }

  /** The greatest value of the threads that an exchange does not touch; zero when there is none. */
  function UnaffectedMax(row: seq<real>, i: int, j: int): real {
    var others := Others(row, i, j, |row|);
    if others == [] then 0.0 else MaxOf(others)
  }

  function Max3(x: real, y: real, z: real): real {
    var m := if x < y then y else x;
    if m < z then z else m
  }

  /** The maximum after two threads have changed, from the other threads and the two new values. */
  lemma MaxAfterChange(row: seq<real>, i: int, j: int, x: real, y: real)
    requires 0 <= i < |row| && 0 <= j < |row| && i != j && x >= 0.0 && y >= 0.0
    ensures MaxOf(row[i := x][j := y]) == Max3(UnaffectedMax(row, i, j), x, y)
  {
    var after := row[i := x][j := y];
    var m := Max3(UnaffectedMax(row, i, j), x, y);
    var others := Others(row, i, j, |row|);
    forall k | 0 <= k < |after| ensures after[k] <= m {
      if k != i && k != j {
        assert row[k] in others;
        var z :| 0 <= z < |others| && others[z] == row[k];
      }
    }
    if m == x { assert after[i] == m; }
    else if m == y { assert after[j] == m; }
    else {
      var k := WhereMax(row, i, j);
      assert after[k] == m;
    }
  }

  lemma WhereMax(row: seq<real>, i: int, j: int) returns (k: int)
    requires UnaffectedMax(row, i, j) != 0.0
    ensures 0 <= k < |row| && k != i && k != j && row[k] == UnaffectedMax(row, i, j)
  {
    var others := Others(row, i, j, |row|);
    var z :| 0 <= z < |others| && others[z] == MaxOf(others);
    assert others[z] in others;
    k :| 0 <= k < |row| && k != i && k != j && row[k] == others[z];
  }

  // ---- the critical load ----

  predicate Filled(pl: seq<seq<real>>) {
    forall ph :: 0 <= ph < |pl| ==> pl[ph] != []
  }

  /** The sum over the phases of what the busiest thread does. */
  function Critical(pl: seq<seq<real>>): real
    requires Filled(pl)
  {
    if pl == [] then 0.0 else Critical(pl[..|pl| - 1]) + MaxOf(pl[|pl| - 1])
  }

  lemma {:induction false} CriticalChange(pl: seq<seq<real>>, ph: nat, row: seq<real>)
    requires Filled(pl) && ph < |pl| && row != []
    ensures Critical(pl[ph := row]) == Critical(pl) - MaxOf(pl[ph]) + MaxOf(row)
    decreases |pl|
  {
    var n := |pl| - 1;
    if ph == n {
      assert pl[ph := row][..n] == pl[..n];
    } else {
      CriticalChange(pl[..n], ph, row);
      assert pl[ph := row][..n] == pl[..n][ph := row];
    }
  }
}
