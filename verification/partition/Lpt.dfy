/** The initial partition: tiles in order of decreasing weight, each to the least loaded thread. */
module LptPartition {
  import opened Arithmetic
  import opened Sums
  import opened GreedyPlacement

  // ---- permutations ----

  predicate IsPermutation(order: seq<int>, n: nat) {
    && |order| == n && (forall i :: 0 <= i < n ==> 0 <= order[i] < n)
    && forall i, j :: 0 <= i < j < n ==> order[i] != order[j]
  }

  lemma {:induction false} PermutationCovers(order: seq<int>, n: nat, x: int)
    requires IsPermutation(order, n) && 0 <= x < n
    ensures x in order
  {
    UsedSize(order, 0, n);
    if x !in order {
      forall i | 0 <= i < n ensures order[i] in Below(n) - {x} {}
      SubsetSize(Used(order, 0, n), Below(n) - {x});
    }
  }

  /** Entry i of a list, zero outside. */
  function At(order: seq<int>): int -> int {
    (i: int) => if 0 <= i < |order| then order[i] else 0
  }

  function Permuted<T>(order: seq<int>, s: seq<T>): (r: seq<T>)
    requires IsPermutation(order, |s|)
    ensures |r| == |s| && forall i :: 0 <= i < |s| ==> r[i] == s[order[i]]
  {
    seq(|s|, i requires 0 <= i < |s| => s[order[i]])
  }

  /** Renaming the tiles does not change the loads. */
  lemma Reordered(order: seq<int>, a: seq<int>, w: seq<nat>, t: int)
    requires |a| == |w| && IsPermutation(order, |a|)
    ensures Load(Permuted(order, a), Permuted(order, w), |a|, t) == Load(a, w, |a|, t)
  {
    var q, p := Permuted(order, a), Permuted(order, w);
    var s, u := Jobs(q, |a|, t), Jobs(a, |a|, t);
    forall z | z in u ensures exists x :: x in s && At(order)(x) == z {
      PermutationCovers(order, |a|, z);
      var x :| 0 <= x < |order| && order[x] == z;
      assert x in s && At(order)(x) == z;
    }
    SumRenamed(s, u, At(order), Weigh(p), Weigh(w));
  }

  // ---- the sorted order ----

  /** Heavier tiles first, of equally heavy ones the one with the greater number. */
  predicate Before(w: seq<nat>, a: int, b: int)
    requires 0 <= a < |w| && 0 <= b < |w|
  {
    w[a] > w[b] || (w[a] == w[b] && a > b)
  }

  ghost predicate Arranged(w: seq<nat>, order: seq<int>) {
    && (forall i :: 0 <= i < |order| ==> 0 <= order[i] < |w|)
    && forall i, j :: 0 <= i < j < |order| ==> Before(w, order[i], order[j])
  }

  lemma InsertedArranged(w: seq<nat>, order: seq<int>, k: nat, p: nat)
    requires k < |w| && IsPermutation(order, k) && Arranged(w, order) && p <= k
    requires forall i :: 0 <= i < p ==> Before(w, order[i], k)
    requires p < k ==> Before(w, k, order[p])
    ensures var r := order[..p] + [k] + order[p..]; IsPermutation(r, k + 1) && Arranged(w, r)
  {
    var r := order[..p] + [k] + order[p..];
    forall i, j | 0 <= i < j < |r| ensures r[i] != r[j] && Before(w, r[i], r[j]) {
      if i == p && j > p + 1 {
        assert Before(w, order[p], order[j - 1]);
      }
    }
  }

  method SortedTiles(w: seq<nat>) returns (order: seq<int>)
    ensures IsPermutation(order, |w|) && Arranged(w, order)
  {
    order := [];
    for k := 0 to |w|
      invariant IsPermutation(order, k) && Arranged(w, order)
    {
      var p := 0;
      while p < k && Before(w, order[p], k)
        invariant 0 <= p <= k
        invariant forall i :: 0 <= i < p ==> Before(w, order[i], k)
      {
        p := p + 1;
      }
      InsertedArranged(w, order, k, p);
      order := order[..p] + [k] + order[p..];
    }
  }

  lemma SortedWeights(w: seq<nat>, order: seq<int>)
    requires IsPermutation(order, |w|) && Arranged(w, order)
    ensures Decreasing(Permuted(order, w))
  {
    forall i, j | 0 <= i <= j < |w| ensures w[order[i]] >= w[order[j]] {
      WeightOrder(w, order, i, j);
    }
  }

  lemma WeightOrder(w: seq<nat>, order: seq<int>, i: nat, j: nat)
    requires Arranged(w, order) && i < |order| && j < |order|
    ensures i <= j ==> w[order[i]] >= w[order[j]]
  {
    if i < j { assert Before(w, order[i], order[j]); }
  }

  // ---- placing the tiles ----

  /** The first thread of least load. */
  method LeastLoaded(loads: seq<nat>) returns (thread: nat)
    requires loads != []
    ensures thread < |loads| && forall t :: 0 <= t < |loads| ==> loads[thread] <= loads[t]
    ensures forall t :: 0 <= t < thread ==> loads[thread] < loads[t]
  {
    thread := 0;
    for t := 1 to |loads|
      invariant thread < |loads| && forall u :: 0 <= u < t ==> loads[thread] <= loads[u]
      invariant thread < t && forall u :: 0 <= u < thread ==> loads[thread] < loads[u]
    {
      if loads[t] < loads[thread] { thread := t; }
    }
  }

  lemma LoadPrefix(q: seq<int>, r: seq<int>, p: seq<nat>, n: nat, t: int)
    requires n <= |q| && n <= |r| && forall i :: 0 <= i < n ==> q[i] == r[i]
    ensures Load(q, p, n, t) == Load(r, p, n, t)
  {
    assert Jobs(q, n, t) == Jobs(r, n, t);
  }

  /** Every job goes to the first of the threads that carry least at that time. */
  ghost predicate FirstGreedy(q: seq<int>, p: seq<nat>, m: nat) {
    && Greedy(q, p, m)
    && forall i, t {:trigger Load(q, p, i, t)} :: 0 <= i < |q| && 0 <= t < q[i] ==> Load(q, p, i, q[i]) < Load(q, p, i, t)
  }

  /** The greedy run extended by one job. */
  lemma OneMoreJob(q: seq<int>, p: seq<nat>, m: nat, thread: nat)
    requires FirstGreedy(q, p, m) && |q| < |p| && thread < m
    requires forall t :: 0 <= t < m ==> Load(q, p, |q|, thread) <= Load(q, p, |q|, t)
    requires forall t :: 0 <= t < thread ==> Load(q, p, |q|, thread) < Load(q, p, |q|, t)
    ensures FirstGreedy(q + [thread], p, m)
  {
    var r := q + [thread];
    forall i, t {:trigger Load(r, p, i, t)} | 0 <= i < |r| && 0 <= t < m
      ensures Load(r, p, i, r[i]) <= Load(r, p, i, t) && (t < r[i] ==> Load(r, p, i, r[i]) < Load(r, p, i, t))
    {
      LoadPrefix(q, r, p, i, t);
      LoadPrefix(q, r, p, i, r[i]);
    }
  }

  /** The load of each thread after one more job. */
  lemma OneMoreLoad(q: seq<int>, p: seq<nat>, thread: nat, t: int)
    requires |q| < |p|
    ensures Load(q + [thread], p, |q| + 1, t) == Load(q, p, |q|, t) + if t == thread then p[|q|] else 0
  {
    var r := q + [thread];
    LoadPrefix(q, r, p, |q|, t);
    if thread == t {
      SumAdd(Jobs(r, |q|, t), Weigh(p), |q|);
      assert Jobs(r, |q| + 1, t) == Jobs(r, |q|, t) + {|q|};
    } else {
      assert Jobs(r, |q| + 1, t) == Jobs(r, |q|, t);
    }
  }

  ghost predicate Recorded(q: seq<int>, p: seq<nat>, loads: seq<nat>) {
    |q| <= |p| && forall t :: 0 <= t < |loads| ==> loads[t] == Load(q, p, |q|, t)
  }

  lemma RecordedMore(q: seq<int>, p: seq<nat>, loads: seq<nat>, thread: nat)
    requires Recorded(q, p, loads) && thread < |loads| && |q| < |p|
    ensures Recorded(q + [thread], p, loads[thread := loads[thread] + p[|q|]])
  {
    var more := loads[thread := loads[thread] + p[|q|]];
    forall t | 0 <= t < |more| ensures more[t] == Load(q + [thread], p, |q| + 1, t) {
      OneMoreLoad(q, p, thread, t);
    }
  }

  /** The placement seen in the order in which the tiles were placed. */
  ghost predicate IsLpt(w: seq<nat>, m: nat, a: seq<int>, order: seq<int>) {
    && |a| == |w| && IsPermutation(order, |w|) && Arranged(w, order)
    && FirstGreedy(Permuted(order, a), Permuted(order, w), m)
  }

  method InitialLptPartition(weights: seq<nat>, threads: nat) returns (assignments: seq<int>, loads: seq<nat>, ghost order: seq<int>)
    requires threads > 0
    ensures IsLpt(weights, threads, assignments, order)
    ensures Placed(assignments, |weights|, threads) && |loads| == threads
    ensures forall t :: 0 <= t < threads ==> loads[t] == Load(assignments, weights, |weights|, t)
  {
    assignments, loads := seq(|weights|, _ => -1), seq(threads, _ => 0);
    var tiles := SortedTiles(weights);
    order := tiles;
    ghost var p := Permuted(tiles, weights);
    ghost var q: seq<int> := [];
    forall t | 0 <= t < threads ensures loads[t] == Load(q, p, 0, t) {
      assert Jobs(q, 0, t) == {};
    }
    for k := 0 to |tiles|
      invariant |assignments| == |weights| && |q| == k && |loads| == threads
      invariant forall j :: 0 <= j < k ==> assignments[tiles[j]] == q[j]
      invariant FirstGreedy(q, p, threads) && Recorded(q, p, loads)
    {
      var tile := tiles[k];
      var thread := LeastLoaded(loads);
      OneMoreJob(q, p, threads, thread);
      RecordedMore(q, p, loads, thread);
      assignments := assignments[tile := thread];
      loads := loads[thread := loads[thread] + weights[tile]];
      q := q + [thread];
    }
    assert q == Permuted(tiles, assignments);
    forall i | 0 <= i < |weights| ensures 0 <= assignments[i] < threads {
      PermutationCovers(tiles, |weights|, i);
      var x :| 0 <= x < |tiles| && tiles[x] == i;
      assert q[x] == assignments[i];
    }
    forall t | 0 <= t < threads ensures loads[t] == Load(assignments, weights, |weights|, t) {
      Reordered(tiles, assignments, weights, t);
    }
  }

  // ---- the initial partition, said of the tiles ----

  /** What thread t carries of the first k tiles in the order. */
  function Carried(w: seq<nat>, a: seq<int>, order: seq<int>, k: nat, t: int): nat
    requires |a| == |w| && k <= |order| && forall i :: 0 <= i < |order| ==> 0 <= order[i] < |w|
  {
    if k == 0 then 0
    else Carried(w, a, order, k - 1, t) + if a[order[k - 1]] == t then w[order[k - 1]] else 0
  }

  lemma {:induction false} CarriedIs(w: seq<nat>, a: seq<int>, order: seq<int>, k: nat, t: int)
    requires |a| == |w| && IsPermutation(order, |w|) && k <= |w|
    ensures Carried(w, a, order, k, t) == Load(Permuted(order, a), Permuted(order, w), k, t)
    decreases k
  {
    var q, p := Permuted(order, a), Permuted(order, w);
    if k == 0 {
      assert Jobs(q, 0, t) == {};
    } else {
      CarriedIs(w, a, order, k - 1, t);
      LoadStep(q, p, k - 1, t);
    }
  }

  /** The k-th tile in the order is on the first of the threads that carry least of the tiles before it. */
  ghost predicate OnFirstLeast(w: seq<nat>, m: nat, a: seq<int>, order: seq<int>, k: nat)
    requires |a| == |w| && k < |order| && forall i :: 0 <= i < |order| ==> 0 <= order[i] < |w|
  {
    var thread := a[order[k]];
    && 0 <= thread < m
    && (forall t :: 0 <= t < m ==> Carried(w, a, order, k, thread) <= Carried(w, a, order, k, t))
    && forall t :: 0 <= t < thread ==> Carried(w, a, order, k, thread) < Carried(w, a, order, k, t)
  }

  lemma FirstLeastOf(w: seq<nat>, m: nat, a: seq<int>, order: seq<int>, k: nat)
    requires IsLpt(w, m, a, order) && k < |w|
    ensures OnFirstLeast(w, m, a, order, k)
  {
    var q, p := Permuted(order, a), Permuted(order, w);
    forall t | 0 <= t < m
      ensures Carried(w, a, order, k, a[order[k]]) <= Carried(w, a, order, k, t)
      ensures t < a[order[k]] ==> Carried(w, a, order, k, a[order[k]]) < Carried(w, a, order, k, t)
    {
      CarriedIs(w, a, order, k, t);
      CarriedIs(w, a, order, k, a[order[k]]);
      assert q[k] == a[order[k]];
    }
  }

  /** The tiles in the order of falling weight, equally heavy ones of falling number, each on the first of
      the threads that carry least at that time. */
  lemma LptMeans(w: seq<nat>, m: nat, a: seq<int>, order: seq<int>)
    requires IsLpt(w, m, a, order)
    ensures |a| == |order| == |w| && (forall x :: 0 <= x < |w| ==> x in order)
    ensures forall i, j :: 0 <= i < j < |w| ==>
              0 <= order[i] < |w| && 0 <= order[j] < |w|
              && (w[order[i]] > w[order[j]] || (w[order[i]] == w[order[j]] && order[i] > order[j]))
    ensures forall k: nat :: k < |w| ==> OnFirstLeast(w, m, a, order, k)
  {
    forall x | 0 <= x < |w| ensures x in order { PermutationCovers(order, |w|, x); }
    forall i, j | 0 <= i < j < |w|
      ensures 0 <= order[i] < |w| && 0 <= order[j] < |w|
              && (w[order[i]] > w[order[j]] || (w[order[i]] == w[order[j]] && order[i] > order[j]))
    {
      assert Before(w, order[i], order[j]);
    }
    forall k: nat | k < |w| ensures OnFirstLeast(w, m, a, order, k) { FirstLeastOf(w, m, a, order, k); }
  }

  lemma OrderUnique(w: seq<nat>, p: seq<int>, q: seq<int>, k: nat)
    requires IsPermutation(p, |w|) && IsPermutation(q, |w|) && Arranged(w, p) && Arranged(w, q) && k < |w|
    requires forall i :: 0 <= i < k ==> p[i] == q[i]
    ensures p[k] == q[k]
  {
    NotLater(w, p, q, k);
    NotLater(w, q, p, k);
  }

  /** What one order has at place k comes no later in the other. */
  lemma NotLater(w: seq<nat>, p: seq<int>, q: seq<int>, k: nat)
    requires IsPermutation(p, |w|) && IsPermutation(q, |w|) && Arranged(w, p) && Arranged(w, q) && k < |w|
    requires forall i :: 0 <= i < k ==> p[i] == q[i]
    ensures p[k] == q[k] || Before(w, q[k], p[k])
  {
    PermutationCovers(q, |w|, p[k]);
    var j :| 0 <= j < |q| && q[j] == p[k];
    if j > k { assert Before(w, q[k], q[j]); }
  }

  lemma {:induction false} OrdersAgree(w: seq<nat>, p: seq<int>, q: seq<int>, k: nat)
    requires IsPermutation(p, |w|) && IsPermutation(q, |w|) && Arranged(w, p) && Arranged(w, q) && k <= |w|
    ensures forall i :: 0 <= i < k ==> p[i] == q[i]
    decreases k
  {
    if k > 0 {
      OrdersAgree(w, p, q, k - 1);
      OrderUnique(w, p, q, k - 1);
    }
  }

  lemma {:induction false} SameCarried(w: seq<nat>, m: nat, a: seq<int>, b: seq<int>, order: seq<int>, k: nat)
    requires IsLpt(w, m, a, order) && IsLpt(w, m, b, order) && k <= |w|
    ensures forall t :: Carried(w, a, order, k, t) == Carried(w, b, order, k, t)
    ensures forall j :: 0 <= j < k ==> a[order[j]] == b[order[j]]
    decreases k
  {
    if k > 0 {
      SameCarried(w, m, a, b, order, k - 1);
      FirstLeastOf(w, m, a, order, k - 1);
      FirstLeastOf(w, m, b, order, k - 1);
    }
  }

  /** The weights determine the initial partition. */
  lemma LptUnique(w: seq<nat>, m: nat, a: seq<int>, order: seq<int>, b: seq<int>, other: seq<int>)
    requires IsLpt(w, m, a, order) && IsLpt(w, m, b, other)
    ensures order == other && a == b
  {
    OrdersAgree(w, order, other, |w|);
    assert order == other;
    SameCarried(w, m, a, b, order, |w|);
    forall i | 0 <= i < |w| ensures a[i] == b[i] {
      PermutationCovers(order, |w|, i);
      var x :| 0 <= x < |order| && order[x] == i;
    }
  }

  // ---- what the initial partition is worth ----

  /** No thread carries more than 4/3 - 1/(3m) times the maximum load `opt` of any other assignment of
      the same tiles to m threads. */
  lemma LptBound(w: seq<nat>, m: nat, a: seq<int>, order: seq<int>, b: seq<int>, opt: int, t: int)
    requires IsLpt(w, m, a, order) && m > 0 && |b| == |w| && Placed(b, |b|, m)
    requires forall s :: 0 <= s < m ==> Load(b, w, |b|, s) <= opt
    requires 0 <= t < m
    ensures 3 * m * Load(a, w, |a|, t) <= (4 * m - 1) * opt
  {
    var q, p := Permuted(order, a), Permuted(order, w);
    SortedWeights(w, order);
    forall s | 0 <= s < m ensures Load(Permuted(order, b), p, |b|, s) <= opt {
      Reordered(order, b, w, s);
    }
    GreedyBound(q, Permuted(order, b), p, m, t, opt);
    Reordered(order, a, w, t);
  }

  /** Exactly the active tiles have weight, and there are enough of them. */
  ghost predicate ActiveWeights(w: seq<nat>, active: set<int>, m: nat) {
    && (forall i :: i in active ==> 0 <= i < |w|)
    && (forall i :: 0 <= i < |w| ==> (w[i] > 0 <==> i in active))
    && m <= |active|
  }

  lemma HeavyFirst(w: seq<nat>, order: seq<int>, active: set<int>, m: nat, k: nat)
    requires IsPermutation(order, |w|) && Arranged(w, order) && ActiveWeights(w, active, m) && k < m
    ensures k < |w| && order[k] in active
  {
    SubsetSize(active, Below(|w|));
    if order[k] !in active {
      forall i | i in active ensures i in Used(order, 0, k) {
        PermutationCovers(order, |w|, i);
        var x :| 0 <= x < |order| && order[x] == i;
        WeightOrder(w, order, k, x);
      }
      SubsetSize(active, Used(order, 0, k));
      UsedSize(order, 0, k);
    }
  }

  ghost predicate HasActive(a: seq<int>, active: set<int>, t: int) {
    exists i :: 0 <= i < |a| && i in active && a[i] == t
  }

  /** As many of the heaviest tiles as there are threads are active and have weight. */
  ghost predicate HeaviestActive(w: seq<nat>, order: seq<int>, active: set<int>, m: nat) {
    m <= |order| && forall k :: 0 <= k < m ==> order[k] in active && 0 <= order[k] < |w| && w[order[k]] > 0
  }

  /** When the heaviest tiles are active, wherever the weights come from, every thread starts with an
      active tile. */
  lemma LptReachesActive(w: seq<nat>, m: nat, a: seq<int>, order: seq<int>, active: set<int>, t: int)
    requires IsLpt(w, m, a, order) && HeaviestActive(w, order, active, m) && 0 <= t < m
    ensures HasActive(a, active, t)
  {
    var q, p := Permuted(order, a), Permuted(order, w);
    forall i, j | 0 <= i < j < m ensures q[i] != q[j] {
      Spread(q, p, m, i, j);
    }
    UsedSize(q, 0, m);
    if t !in Used(q, 0, m) {
      SubsetSize(Used(q, 0, m), Below(m) - {t});
    }
    var i :| 0 <= i < m && q[i] == t;
    assert a[order[i]] == t;
  }

  lemma AuditHeaviest(w: seq<nat>, order: seq<int>, active: set<int>, m: nat)
    requires IsPermutation(order, |w|) && Arranged(w, order) && ActiveWeights(w, active, m)
    ensures HeaviestActive(w, order, active, m)
  {
    forall k | 0 <= k < m ensures k < |w| && order[k] in active {
      HeavyFirst(w, order, active, m, k);
    }
    if m > 0 { HeavyFirst(w, order, active, m, m - 1); }
  }

  /** With weights derived from the audit every thread starts with an active tile. */
  lemma LptReachesAll(w: seq<nat>, m: nat, a: seq<int>, order: seq<int>, active: set<int>, t: int)
    requires IsLpt(w, m, a, order) && ActiveWeights(w, active, m) && 0 <= t < m
    ensures HasActive(a, active, t)
  {
    AuditHeaviest(w, order, active, m);
    LptReachesActive(w, m, a, order, active, t);
  }

  lemma PermutedTotal(order: seq<int>, w: seq<nat>)
    requires IsPermutation(order, |w|)
    ensures Sum(Below(|w|), Weigh(Permuted(order, w))) == Sum(Below(|w|), Weigh(w))
  {
    var a: seq<int> := seq(|w|, _ => 0);
    Reordered(order, a, w, 0);
    assert Jobs(a, |w|, 0) == Below(|w|) == Jobs(Permuted(order, a), |w|, 0);
  }

  /** A tile heavier than the average load of a thread gets a thread of its own. */
  lemma OverweightAlone(w: seq<nat>, m: nat, a: seq<int>, order: seq<int>, x: int, y: int)
    requires IsLpt(w, m, a, order) && 0 <= x < |w| && 0 <= y < |w| && x != y
    requires m * w[x] > Sum(Below(|w|), Weigh(w))
    ensures a[x] != a[y]
  {
    var q, p := Permuted(order, a), Permuted(order, w);
    PermutationCovers(order, |w|, x);
    PermutationCovers(order, |w|, y);
    var i :| 0 <= i < |order| && order[i] == x;
    var j :| 0 <= j < |order| && order[j] == y;
    PermutedTotal(order, w);
    if a[x] == a[y] {
      if i < j {
        SharedIsLight(q, p, m, i, j);
      } else {
        SharedIsLight(q, p, m, j, i);
        WeightOrder(w, order, j, i);
        Monotone(w[x], w[y], m);
      }
    }
  }

  lemma ThreeJobs(q: seq<int>, p: seq<nat>, t: int)
    requires |q| == |p| == 3
    ensures Load(q, p, 0, t) == 0
    ensures Load(q, p, 1, t) == if q[0] == t then p[0] else 0
    ensures Load(q, p, 2, t) == Load(q, p, 1, t) + if q[1] == t then p[1] else 0
  {
    assert Jobs(q, 0, t) == {};
    LoadStep(q, p, 0, t);
    LoadStep(q, p, 1, t);
  }

  /** Weights measured by a profile give inactive tiles weight too; then a thread may start with an
      inactive tile alone, although there are enough active tiles. */
  lemma ProfileWeightsMayMiss(w: seq<nat>, a: seq<int>, order: seq<int>, active: set<int>)
    requires w == [1, 1, 10] && a == [1, 1, 0] && order == [2, 1, 0] && active == {0, 1}
    ensures IsLpt(w, 2, a, order) && |active| == 2 && !HasActive(a, active, 0)
  {
    var q, p := Permuted(order, a), Permuted(order, w);
    assert q == [0, 1, 1] && p == [10, 1, 1];
    forall i, t {:trigger Load(q, p, i, t)} | 0 <= i < |q| && 0 <= t < 2
      ensures Load(q, p, i, q[i]) <= Load(q, p, i, t) && (t < q[i] ==> Load(q, p, i, q[i]) < Load(q, p, i, t))
    {
      ThreeJobs(q, p, t);
      ThreeJobs(q, p, q[i]);
    }
  }
}
