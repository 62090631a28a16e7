/** Greedy placement of jobs in order of decreasing weight, and how close it comes to the best
    possible maximum load. */
module GreedyPlacement {
  import opened Arithmetic
  import opened SortedSets
  import opened Sums

  /** Job weights as a function, zero outside the list. */
  function Weigh(p: seq<nat>): int -> int {
    (i: int) => if 0 <= i < |p| then p[i] else 0
  }

  /** The jobs among the first n that q puts on thread t. */
  ghost function Jobs(q: seq<int>, n: nat, t: int): set<int>
    requires n <= |q|
  {
    set i | 0 <= i < n && q[i] == t
  }

  ghost function Load(q: seq<int>, p: seq<nat>, n: nat, t: int): int
    requires n <= |q|
  {
    Sum(Jobs(q, n, t), Weigh(p))
  }

  ghost predicate Placed(q: seq<int>, n: nat, m: nat) {
    n <= |q| && forall i :: 0 <= i < n ==> 0 <= q[i] < m
  }

  ghost predicate Decreasing(p: seq<nat>) {
    forall i, j :: 0 <= i <= j < |p| ==> p[i] >= p[j]
  }

  /** Every job goes to a thread that carries least at that time. */
  ghost predicate Greedy(q: seq<int>, p: seq<nat>, m: nat) {
    && |q| <= |p| && Placed(q, |q|, m)
    && forall i, t {:trigger Load(q, p, i, t)} :: 0 <= i < |q| && 0 <= t < m ==> Load(q, p, i, q[i]) <= Load(q, p, i, t)
  }

  // ---- averages ----

  ghost function JobsBelow(q: seq<int>, n: nat, m: nat): set<int>
    requires n <= |q|
  {
    set i | 0 <= i < n && 0 <= q[i] < m
  }

  lemma JobsSplit(q: seq<int>, p: seq<nat>, n: nat, m: nat)
    requires n <= |q|
    ensures Sum(JobsBelow(q, n, m + 1), Weigh(p)) == Sum(JobsBelow(q, n, m), Weigh(p)) + Load(q, p, n, m)
  {
    SumUnion(JobsBelow(q, n, m), Jobs(q, n, m), Weigh(p));
    assert JobsBelow(q, n, m + 1) == JobsBelow(q, n, m) + Jobs(q, n, m);
  }

  lemma {:induction false} TotalAtLeast(q: seq<int>, p: seq<nat>, n: nat, m: nat, c: int)
    requires n <= |q| && forall t :: 0 <= t < m ==> Load(q, p, n, t) >= c
    ensures Sum(JobsBelow(q, n, m), Weigh(p)) >= m * c
    decreases m
  {
    if m == 0 {
      assert JobsBelow(q, n, 0) == {};
    } else {
      TotalAtLeast(q, p, n, m - 1, c);
      JobsSplit(q, p, n, m - 1);
      assert m * c == (m - 1) * c + c;
    }
  }

  lemma {:induction false} TotalAtMost(q: seq<int>, p: seq<nat>, n: nat, m: nat, c: int)
    requires n <= |q| && forall t :: 0 <= t < m ==> Load(q, p, n, t) <= c
    ensures Sum(JobsBelow(q, n, m), Weigh(p)) <= m * c
    decreases m
  {
    if m == 0 {
      assert JobsBelow(q, n, 0) == {};
    } else {
      TotalAtMost(q, p, n, m - 1, c);
      JobsSplit(q, p, n, m - 1);
      assert m * c == (m - 1) * c + c;
    }
  }

  /** What all jobs weigh together does not depend on where they are. */
  lemma AllPlaced(q: seq<int>, n: nat, m: nat)
    requires Placed(q, n, m)
    ensures JobsBelow(q, n, m) == Below(n)
  {
  }

  lemma LoadStep(q: seq<int>, p: seq<nat>, n: nat, t: int)
    requires n < |q| == |p|
    ensures Load(q, p, n + 1, t) == Load(q, p, n, t) + if q[n] == t then p[n] else 0
  {
    if q[n] == t {
      SumAdd(Jobs(q, n, t), Weigh(p), n);
      assert Jobs(q, n + 1, t) == Jobs(q, n, t) + {n};
    } else {
      assert Jobs(q, n + 1, t) == Jobs(q, n, t);
    }
  }

  /** Distinct jobs on one thread weigh no more than its load. */
  lemma SomeOnThread(q: seq<int>, p: seq<nat>, n: nat, t: int, some: set<int>)
    requires n <= |q| && some <= Jobs(q, n, t)
    ensures Sum(some, Weigh(p)) <= Load(q, p, n, t)
  {
    SumPart(some, Jobs(q, n, t), Weigh(p));
  }

  /** The least loaded thread carries no more than the average of any placement, less the weight of
      the job that comes next. */
  lemma LeastBelowAverage(q: seq<int>, b: seq<int>, p: seq<nat>, l: nat, m: nat, t: int, opt: int)
    requires |b| == |q| == |p| && l < |q| && Placed(q, l, m) && Placed(b, |b|, m)
    requires forall s :: 0 <= s < m ==> Load(q, p, l, t) <= Load(q, p, l, s)
    requires forall s :: 0 <= s < m ==> Load(b, p, |b|, s) <= opt
    ensures m * Load(q, p, l, t) + p[l] <= m * opt
  {
    TotalAtLeast(q, p, l, m, Load(q, p, l, t));
    TotalAtMost(b, p, |b|, m, opt);
    AllPlaced(q, l, m);
    AllPlaced(b, |b|, m);
    NextJob(p, l);
  }

  /** A job and all before it weigh no more than all jobs. */
  lemma NextJob(p: seq<nat>, l: nat)
    requires l < |p|
    ensures Sum(Below(l), Weigh(p)) + p[l] <= Sum(Below(|p|), Weigh(p))
  {
    SumAdd(Below(l), Weigh(p), l);
    assert Below(l) + {l} == Below(l + 1);
    SumPart(Below(l + 1), Below(|p|), Weigh(p));
  }

  // ---- heavy jobs ----

  lemma FreeThread(used: set<int>, m: nat) returns (t: int)
    requires |used| < m
    ensures 0 <= t < m && t !in used
  {
    if Below(m) <= used { SubsetSize(Below(m), used); }
    t :| t in Below(m) && t !in used;
  }

  ghost function Used(q: seq<int>, lo: nat, hi: nat): set<int>
    requires lo <= hi <= |q|
  {
    set i | lo <= i < hi :: q[i]
  }

  lemma {:induction false} UsedSize(q: seq<int>, lo: nat, hi: nat)
    requires lo <= hi <= |q|
    ensures |Used(q, lo, hi)| <= hi - lo
    ensures (forall i, j :: lo <= i < j < hi ==> q[i] != q[j]) ==> |Used(q, lo, hi)| == hi - lo
    decreases hi - lo
  {
    if lo == hi {
      assert Used(q, lo, hi) == {};
    } else {
      UsedSize(q, lo, hi - 1);
      assert Used(q, lo, hi) == Used(q, lo, hi - 1) + {q[hi - 1]};
      if forall i, j :: lo <= i < j < hi ==> q[i] != q[j] {
        assert q[hi - 1] !in Used(q, lo, hi - 1);
      }
    }
  }

  /** While a thread is empty a job of weight goes to an empty thread: the first m jobs spread out. */
  lemma Spread(q: seq<int>, p: seq<nat>, m: nat, i: nat, j: nat)
    requires Greedy(q, p, m) && i < j < |q| && j < m && p[i] > 0
    ensures q[i] != q[j]
  {
    UsedSize(q, 0, j);
    var free := FreeThread(Used(q, 0, j), m);
    assert Jobs(q, j, free) == {} by {
      forall k | 0 <= k < j ensures q[k] != free { assert q[k] in Used(q, 0, j); }
    }
    assert Load(q, p, j, free) == 0;
    if q[i] == q[j] {
      SumOne(Weigh(p), i);
      SomeOnThread(q, p, j, q[j], {i});
    }
  }

  /** A thread that is empty when job l comes. */
  lemma EmptyThread(q: seq<int>, p: seq<nat>, m: nat, l: nat)
    requires Greedy(q, p, m) && l < |q| && l < m
    ensures Load(q, p, l, q[l]) <= 0
  {
    UsedSize(q, 0, l);
    var free := FreeThread(Used(q, 0, l), m);
    assert Jobs(q, l, free) == {} by {
      forall k | 0 <= k < l ensures q[k] != free { assert q[k] in Used(q, 0, l); }
    }
    assert Load(q, p, l, free) == 0;
  }

  lemma UntouchedJob(q: seq<int>, m: nat, l: nat, k: nat) returns (i: nat)
    requires m <= l < |q| && k == l + 1 - m && 0 < k <= m
    requires forall a, b :: 0 <= a < b < m ==> q[a] != q[b]
    ensures m - k <= i < m && forall j :: m <= j < l ==> q[j] != q[i]
  {
    var first, later := Used(q, m - k, m), Used(q, m, l);
    UsedSize(q, m - k, m);
    UsedSize(q, m, l);
    if first <= later { SubsetSize(first, later); }
    var t :| t in first && t !in later;
    i :| m - k <= i < m && q[i] == t;
    forall j | m <= j < l ensures q[j] != q[i] {
      assert q[j] in later;
    }
  }

  lemma OnlyJob(q: seq<int>, m: nat, l: nat, i: nat)
    requires i < m <= l <= |q|
    requires forall a, b :: 0 <= a < b < m ==> q[a] != q[b]
    requires forall j :: m <= j < l ==> q[j] != q[i]
    ensures Jobs(q, l, q[i]) == {i as int}
  {
  }

  /** One of the threads of jobs m-k .. m-1 has received nothing since. */
  lemma UntouchedThread(q: seq<int>, p: seq<nat>, m: nat, l: nat, k: nat) returns (i: nat)
    requires Greedy(q, p, m) && Decreasing(p) && m <= l < |q| && k == l + 1 - m && 0 < k <= m && p[l] > 0
    ensures m - k <= i < m && Load(q, p, l, q[i]) == p[i]
  {
    forall a, b | 0 <= a < b < m ensures q[a] != q[b] { Spread(q, p, m, a, b); }
    i := UntouchedJob(q, m, l, k);
    OnlyJob(q, m, l, i);
    SumOne(Weigh(p), i as int);
  }

  /** No three of the jobs share a thread. */
  ghost predicate Paired(b: seq<int>, jobs: set<int>) {
    && (forall j :: j in jobs ==> 0 <= j < |b|)
    && forall i, j, k :: i in jobs && j in jobs && k in jobs && i != j && j != k && i != k ==> !(b[i] == b[j] == b[k])
  }

  /** Two jobs that share a thread: the weight of all jobs is at least the later one and, for every
      thread, the earlier one. */
  lemma SharedIsLight(q: seq<int>, p: seq<nat>, m: nat, k: nat, l: nat)
    requires Greedy(q, p, m) && k < l < |q| == |p| && q[k] == q[l]
    ensures m * p[k] + p[l] <= Sum(Below(|p|), Weigh(p))
  {
    SumOne(Weigh(p), k);
    SomeOnThread(q, p, l, q[l], {k as int});
    TotalAtLeast(q, p, l, m, Load(q, p, l, q[l]));
    AllPlaced(q, l, m);
    NextJob(p, l);
    Monotone(p[k], Load(q, p, l, q[l]), m);
  }

  /** Threads with at most two jobs each hold at most twice as many jobs as there are threads. */
  lemma {:induction false} AtMostTwo(b: seq<int>, jobs: set<int>, threads: set<int>)
    requires Paired(b, jobs) && forall j :: j in jobs ==> b[j] in threads
    ensures |jobs| <= 2 * |threads|
    decreases threads
  {
    if threads == {} {
      assert jobs == {};
    } else {
      var t := Member(threads);
      var here := set j | j in jobs && b[j] == t;
      TwoAtMost(b, here, t);
      AtMostTwo(b, jobs - here, threads - {t});
    }
  }

  lemma TwoAtMost(b: seq<int>, here: set<int>, t: int)
    requires Paired(b, here) && forall j :: j in here ==> b[j] == t
    ensures |here| <= 2
  {
    if |here| > 2 {
      var i := Member(here);
      assert |here - {i}| == |here| - 1;
      var j := Member(here - {i});
      assert |here - {i} - {j}| == |here| - 2;
      var k := Member(here - {i} - {j});
    }
  }

  /** No thread of b holds three of the jobs up to l, when three of the lightest exceed its load. */
  lemma NoThree(b: seq<int>, p: seq<nat>, l: nat, opt: int, i: int, j: int, k: int)
    requires |b| == |p| && l < |p| && Decreasing(p) && opt < 3 * p[l]
    requires 0 <= i <= l && 0 <= j <= l && 0 <= k <= l && i != j && j != k && i != k
    requires Load(b, p, |b|, b[i]) <= opt
    ensures !(b[i] == b[j] == b[k])
  {
    if b[i] == b[j] == b[k] {
      SumOne(Weigh(p), i);
      SumAdd({i}, Weigh(p), j);
      SumAdd({i} + {j}, Weigh(p), k);
      SomeOnThread(b, p, |b|, b[i], {i} + {j} + {k});
    }
  }

  /** Each of the first n jobs is the only one among the jobs up to l on its thread. */
  ghost predicate Alone(b: seq<int>, n: nat, l: nat)
    requires n <= l + 1 <= |b|
  {
    forall x, y :: 0 <= x < n && 0 <= y <= l && x != y ==> b[x] != b[y]
  }

  lemma RestElsewhere(b: seq<int>, m: nat, l: nat, n: nat)
    requires n <= l + 1 <= |b| && Placed(b, |b|, m) && Alone(b, n, l)
    ensures forall x :: x in Below(l + 1) - Below(n) ==> b[x] in Below(m) - Used(b, 0, n)
  {
  }

  /** The other jobs share the other threads. */
  lemma RestIsFew(b: seq<int>, m: nat, l: nat, n: nat)
    requires n <= l + 1 <= |b| && Placed(b, |b|, m) && Alone(b, n, l) && Paired(b, Below(l + 1))
    ensures l + 1 - n <= 2 * (m - n)
  {
    UsedSize(b, 0, n);
    RestElsewhere(b, m, l, n);
    SubtractSize(Below(l + 1), Below(n));
    SubtractSize(Below(m), Used(b, 0, n));
    PairedPart(b, Below(l + 1), Below(l + 1) - Below(n));
    AtMostTwo(b, Below(l + 1) - Below(n), Below(m) - Used(b, 0, n));
  }

  lemma PairedPart(b: seq<int>, jobs: set<int>, part: set<int>)
    requires Paired(b, jobs) && part <= jobs
    ensures Paired(b, part)
  {
  }

  /** Of m+k jobs, at most two on a thread, one of the m-k+1 heaviest shares its thread. */
  lemma SharedThread(b: seq<int>, m: nat, l: nat, k: nat) returns (i: nat, j: nat)
    requires m <= l < |b| && k == l + 1 - m && 0 < k <= m && Placed(b, |b|, m) && Paired(b, Below(l + 1))
    ensures i <= m - k && j <= l && i != j && b[i] == b[j]
  {
    if Alone(b, m - k + 1, l) {
      RestIsFew(b, m, l, m - k + 1);
    }
    i, j :| 0 <= i <= m - k && 0 <= j <= l && i != j && b[i] == b[j];
  }

  lemma SubtractSize<T>(s: set<T>, t: set<T>)
    requires t <= s
    ensures |s - t| == |s| - |t|
  {
    assert s == t + (s - t);
  }

  lemma HeavyPaired(b: seq<int>, p: seq<nat>, m: nat, l: nat, opt: int)
    requires Decreasing(p) && |b| == |p| && Placed(b, |b|, m) && l < |p| && opt < 3 * p[l]
    requires forall t :: 0 <= t < m ==> Load(b, p, |b|, t) <= opt
    ensures Paired(b, Below(l + 1)) && l + 1 <= 2 * m
  {
    forall x, y, z | 0 <= x <= l && 0 <= y <= l && 0 <= z <= l && x != y && y != z && x != z ensures !(b[x] == b[y] == b[z]) {
      NoThree(b, p, l, opt, x, y, z);
    }
    AtMostTwo(b, Below(l + 1), Below(m));
  }

  lemma TwoTogether(b: seq<int>, p: seq<nat>, x: int, y: int)
    requires |b| == |p| && 0 <= x < |b| && 0 <= y < |b| && x != y && b[x] == b[y]
    ensures p[x] + p[y] <= Load(b, p, |b|, b[x])
  {
    SumOne(Weigh(p), x);
    SumAdd({x}, Weigh(p), y);
    SomeOnThread(b, p, |b|, b[x], {x} + {y});
  }

  /** With at most two heavy jobs on each thread of b, the greedy placement of job l is as good. */
  lemma HeavyJob(q: seq<int>, b: seq<int>, p: seq<nat>, m: nat, l: nat, opt: int)
    requires Greedy(q, p, m) && Decreasing(p) && |b| == |q| == |p| && Placed(b, |b|, m) && l < |q|
    requires forall t :: 0 <= t < m ==> Load(b, p, |b|, t) <= opt
    requires 0 <= opt < 3 * p[l]
    ensures Load(q, p, l, q[l]) + p[l] <= opt
  {
    if l < m {
      EmptyThread(q, p, m, l);
      SumOne(Weigh(p), l);
      SomeOnThread(b, p, |b|, b[l], {l});
    } else {
      HeavyPaired(b, p, m, l, opt);
      var k := l + 1 - m;
      var i := UntouchedThread(q, p, m, l, k);
      var x, y := SharedThread(b, m, l, k);
      assert Load(q, p, l, q[l]) <= Load(q, p, l, q[i]);
      TwoTogether(b, p, x, y);
    }
  }

  // ---- the bound ----

  /** The load of a thread is what its last job found there, and that job. */
  lemma {:induction false} LastJob(q: seq<int>, p: seq<nat>, n: nat, t: int) returns (l: int)
    requires n <= |q| == |p|
    ensures l == -1 ==> Load(q, p, n, t) == 0
    ensures l != -1 ==> 0 <= l < n && q[l] == t && Load(q, p, n, t) == Load(q, p, l, t) + p[l]
  {
    if n == 0 {
      assert Jobs(q, 0, t) == {};
      l := -1;
    } else {
      LoadStep(q, p, n - 1, t);
      if q[n - 1] == t {
        l := n - 1;
      } else {
        l := LastJob(q, p, n - 1, t);
      }
    }
  }

  lemma LightJob(m: nat, load: int, weight: int, opt: int)
    requires m * load + weight <= m * opt && 3 * weight <= opt && m > 0
    ensures 3 * m * (load + weight) <= (4 * m - 1) * opt
  {
    var a, b, c := m * load, m * weight, m * opt;
    Monotone(3 * weight, opt, m - 1);
    assert (m - 1) * (3 * weight) == 3 * b - 3 * weight;
    assert (m - 1) * opt == c - opt;
    assert 3 * m * (load + weight) == 3 * a + 3 * b;
    assert (4 * m - 1) * opt == 4 * c - opt;
  }

  lemma NoWorse(m: nat, load: int, opt: int)
    requires load <= opt && opt >= 0 && m > 0
    ensures 3 * m * load <= (4 * m - 1) * opt
  {
    Monotone(load, opt, 3 * m);
    assert (4 * m - 1) * opt == 3 * m * opt + (m - 1) * opt;
  }

  /** Graham's bound: no thread carries more than 4/3 - 1/(3m) times the maximum load of any other
      placement of the same jobs on m threads. */
  lemma GreedyBound(q: seq<int>, b: seq<int>, p: seq<nat>, m: nat, t: int, opt: int)
    requires Greedy(q, p, m) && Decreasing(p) && m > 0 && |b| == |q| == |p| && Placed(b, |b|, m)
    requires forall s :: 0 <= s < m ==> Load(b, p, |b|, s) <= opt
    requires 0 <= t < m
    ensures 3 * m * Load(q, p, |q|, t) <= (4 * m - 1) * opt
  {
    SumNonNegative(Jobs(b, |b|, 0), Weigh(p));
    assert Load(b, p, |b|, 0) <= opt;
    var l := LastJob(q, p, |q|, t);
    if l != -1 {
      if 3 * p[l] <= opt {
        LeastBelowAverage(q, b, p, l, m, t, opt);
        LightJob(m, Load(q, p, l, t), p[l], opt);
      } else {
        HeavyJob(q, b, p, m, l, opt);
        NoWorse(m, Load(q, p, |q|, t), opt);
      }
    } else {
      NoWorse(m, 0, opt);
    }
  }
}
