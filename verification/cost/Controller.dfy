/** The memory controller's service time: what a request costs, what merging saves, and the bound over
    parallel channels. */
module ControllerCost {
  import opened Arithmetic
  import opened Sums
  import opened GreedyPlacement
  import opened Histograms

  datatype Controller = Controller(burstBytes: nat, bytesPerCycle: nat, setupCycles: nat, fixedLatencyCycles: nat, channels: nat)

  predicate Configured(c: Controller) {
    c.burstBytes > 0 && c.bytesPerCycle > 0 && c.channels > 0
  }

  function ServiceCycles(size: nat, c: Controller): nat
    requires Configured(c)
  {
    c.setupCycles + CeilDiv(size, c.burstBytes) * c.fixedLatencyCycles + CeilDiv(size, c.bytesPerCycle)
  }

  /** A request that needs b bursts and d cycles on the data bus is served in the setup, b times the
      fixed latency, and d cycles. */
  lemma ServiceIs(size: nat, c: Controller, b: nat, d: nat)
    requires Configured(c)
    requires (b - 1) * c.burstBytes < size <= b * c.burstBytes && (d - 1) * c.bytesPerCycle < size <= d * c.bytesPerCycle
    ensures ServiceCycles(size, c) == c.setupCycles + b * c.fixedLatencyCycles + d
  {
    CeilExact(size, c.burstBytes, b);
    CeilExact(size, c.bytesPerCycle, d);
  }

  // ---- rounding up ----

  lemma CeilSum(x: nat, y: nat, d: nat)
    requires d > 0
    ensures CeilDiv(x + y, d) <= CeilDiv(x, d) + CeilDiv(y, d)
  {
    CeilBounds(x, d);
    CeilBounds(y, d);
    var p, q := CeilDiv(x, d), CeilDiv(y, d);
    assert (p + q) * d == p * d + q * d;
    CeilLeast(x + y, d, p + q);
  }

  /** Carrying two requests out as one saves at least the setup of one. */
  lemma MergeSaves(x: nat, y: nat, c: Controller)
    requires Configured(c)
    ensures ServiceCycles(x + y, c) + c.setupCycles <= ServiceCycles(x, c) + ServiceCycles(y, c)
  {
    CeilSum(x, y, c.burstBytes);
    CeilSum(x, y, c.bytesPerCycle);
    var p, q, r := CeilDiv(x, c.burstBytes), CeilDiv(y, c.burstBytes), CeilDiv(x + y, c.burstBytes);
    Monotone(r, p + q, c.fixedLatencyCycles);
    assert (p + q) * c.fixedLatencyCycles == p * c.fixedLatencyCycles + q * c.fixedLatencyCycles;
  }

  /** Merging n equal requests saves n - 1 setups. */
  lemma {:induction false} MergeMany(size: nat, n: nat, c: Controller)
    requires Configured(c) && n > 0
    ensures ServiceCycles(n * size, c) + (n - 1) * c.setupCycles <= n * ServiceCycles(size, c)
  {
    if n == 1 {
      assert 1 * size == size;
    } else {
      MergeMany(size, n - 1, c);
      MergeSaves((n - 1) * size, size, c);
      assert (n - 1) * size + size == n * size;
      Steps(n, c.setupCycles);
      Steps(n, ServiceCycles(size, c));
    }
  }

  lemma Steps(n: nat, x: nat)
    requires n > 1
    ensures n * x == (n - 1) * x + x && (n - 1) * x == (n - 2) * x + x
  {
  }

  // ---- service of batches ----

  /** What a request of each size costs. */
  type Tariff = int -> nat

  function TariffOf(c: Controller): Tariff
    requires Configured(c)
  {
    (z: int) => if z >= 0 then ServiceCycles(z, c) else 0
  }

  function Service(bs: seq<Batch>, f: Tariff): nat {
    if bs == [] then 0 else Service(bs[..|bs| - 1], f) + f(bs[|bs| - 1].size) * bs[|bs| - 1].count
  }

  lemma OneMoreService(bs: seq<Batch>, b: Batch, f: Tariff)
    ensures Service(bs + [b], f) == Service(bs, f) + f(b.size) * b.count
  {
    assert (bs + [b])[..|bs|] == bs;
  }

  lemma {:induction false} ServiceJoin(a: seq<Batch>, b: seq<Batch>, f: Tariff)
    ensures Service(a + b, f) == Service(a, f) + Service(b, f)
    decreases |b|
  {
    if b == [] {
      assert a + b == a;
    } else {
      var init, last := b[..|b| - 1], b[|b| - 1];
      ServiceJoin(a, init, f);
      OneMoreService(a + init, last, f);
      assert a + b == a + init + [last];
    }
  }

  lemma {:induction false} ServiceRepeated(bs: seq<Batch>, times: nat, f: Tariff)
    ensures Service(Repeated(bs, times), f) == times * Service(bs, f)
  {
    if bs != [] {
      var init, last := bs[..|bs| - 1], bs[|bs| - 1];
      ServiceRepeated(init, times, f);
      OneMoreService(Repeated(init, times), Batch(last.size, times * last.count), f);
      Distribute(times, Service(init, f), f(last.size) * last.count);
      Exchange(times, f(last.size), last.count);
    }
  }

  // ---- service by size ----

  function ServiceAt(h: Histogram, f: Tariff): int -> int {
    (z: int) => Times(Get(h, z), f(z))
  }

  function ServiceCountOf(bs: seq<Batch>, f: Tariff): int -> int {
    (z: int) => Times(CountOf(bs, z), f(z))
  }

  lemma {:induction false} ServiceBySize(bs: seq<Batch>, s: set<int>, f: Tariff)
    requires SizesIn(bs, s)
    ensures Sum(s, ServiceCountOf(bs, f)) == Service(bs, f)
    decreases |bs|
  {
    if bs == [] {
      ZeroSum(s, ServiceCountOf(bs, f));
    } else {
      var init, last := bs[..|bs| - 1], bs[|bs| - 1];
      ServiceBySize(init, s, f);
      TimesSplit(CountOf(init, last.size), last.count, f(last.size));
      TimesIs(last.count, f(last.size));
      OneTermMore(s, ServiceCountOf(init, f), ServiceCountOf(bs, f), last.size, Times(last.count, f(last.size)));
    }
  }

  lemma ServiceAbsent(h: Histogram, f: Tariff)
    ensures Vanishes(h.Keys, ServiceAt(h, f))
  {
    forall z | z !in h.Keys ensures ServiceAt(h, f)(z) == 0 {
      NoTimes(Get(h, z), f(z));
    }
  }

  /** The service time computed from a histogram is that of the requests it counts. */
  lemma ServiceTotal(h: Histogram, bs: seq<Batch>, f: Tariff)
    requires Describes(h, bs)
    ensures Sum(h.Keys, ServiceAt(h, f)) == Service(bs, f)
  {
    var s := h.Keys + Sizes(bs);
    ServiceBySize(bs, s, f);
    forall z ensures ServiceCountOf(bs, f)(z) == ServiceAt(h, f)(z) {
      assert Get(h, z) == CountOf(bs, z);
    }
    ServiceAbsent(h, f);
    SumSame(s, ServiceCountOf(bs, f), ServiceAt(h, f));
    KeysSuffice(h.Keys, s, ServiceAt(h, f));
  }

  // ---- parallel channels ----

  /** Requests one by one. */
  predicate Singles(bs: seq<Batch>) {
    forall i :: 0 <= i < |bs| ==> bs[i].count == 1
  }

  function ServiceTimes(bs: seq<Batch>, f: Tariff): (r: seq<nat>)
    ensures |r| == |bs| && forall i :: 0 <= i < |bs| ==> r[i] == f(bs[i].size)
  {
    seq(|bs|, i requires 0 <= i < |bs| => f(bs[i].size))
  }

  lemma {:induction false} ServiceOfFirst(bs: seq<Batch>, f: Tariff, n: nat)
    requires Singles(bs) && n <= |bs|
    ensures Sum(Below(n), Weigh(ServiceTimes(bs, f))) == Service(bs[..n], f)
  {
    if n > 0 {
      ServiceOfFirst(bs, f, n - 1);
      SumAdd(Below(n - 1), Weigh(ServiceTimes(bs, f)), n - 1);
      assert Below(n) == Below(n - 1) + {n - 1};
      assert bs[..n][..n - 1] == bs[..n - 1];
    } else {
      assert Below(0) == {};
    }
  }

  /** However the requests are assigned to the channels, some channel is busy for at least the total
      service time divided by the number of channels, rounded up. */
  lemma ParallelLowerBound(h: Histogram, bs: seq<Batch>, f: Tariff, channels: nat, channel: seq<int>, total: nat, busiest: nat)
    requires channels > 0 && Singles(bs) && Describes(h, bs) && total == Sum(h.Keys, ServiceAt(h, f))
    requires |channel| == |bs| && Placed(channel, |bs|, channels)
    requires forall k :: 0 <= k < channels ==> Load(channel, ServiceTimes(bs, f), |bs|, k) <= busiest
    ensures CeilDiv(total, channels) <= busiest
  {
    ServiceTotal(h, bs, f);
    assert bs[..|bs|] == bs;
    ServiceOfFirst(bs, f, |bs|);
    TotalAtMost(channel, ServiceTimes(bs, f), |bs|, channels, busiest);
    AllPlaced(channel, |bs|, channels);
    CeilLeast(total, channels, busiest);
  }
}
