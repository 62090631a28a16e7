/** Summaries of the traffic in one direction, and their combination. */
module CostSummaries {
  import opened Arithmetic
  import opened Options
  import opened SortedSets
  import opened Sums
  import opened Histograms
  import opened ControllerCost

  datatype Counters = Counters(descriptors: nat, requests: nat, bytes: nat)

  datatype ComparisonError = HistogramRequests | HistogramBytes | EmptyTraffic | EmptyDescriptors

  datatype Summary = Summary(counters: Counters, histogram: Histogram, serviceCycles: nat, lowerBound: nat)

  /** The counters agree with the histogram and with each other about empty traffic. */
  ghost predicate Agree(k: Counters, h: Histogram) {
    && k.requests == Sum(h.Keys, Amount(h)) && k.bytes == Sum(h.Keys, Volume(h))
    && (k.requests == 0 <==> k.bytes == 0) && (k.descriptors == 0 <==> k.requests == 0)
  }

  method AddUp(h: Histogram, f: Tariff) returns (requests: nat, bytes: int, service: nat)
    ensures requests == Sum(h.Keys, Amount(h)) && bytes == Sum(h.Keys, Volume(h)) && service == Sum(h.Keys, ServiceAt(h, f))
  {
    requests, bytes, service := 0, 0, 0;
    var sizes := ListOf(h.Keys);
    for k := 0 to |sizes|
      invariant requests == SumOver(sizes[..k], Amount(h)) && bytes == SumOver(sizes[..k], Volume(h))
      invariant service == SumOver(sizes[..k], ServiceAt(h, f))
    {
      var size := sizes[k];
      assert size in h;
      BatchBytesIs(Batch(size, h[size]));
      TimesIs(h[size], f(size));
      NextItem(sizes, k, Amount(h));
      NextItem(sizes, k, Volume(h));
      NextItem(sizes, k, ServiceAt(h, f));
      requests, bytes, service := requests + h[size], bytes + size * h[size], service + f(size) * h[size];
    }
    AllItems(sizes, h.Keys, Amount(h));
    AllItems(sizes, h.Keys, Volume(h));
    AllItems(sizes, h.Keys, ServiceAt(h, f));
  }

  /** The service time is that of the histogram, and the lower bound divides it among the channels. */
  ghost predicate IsSummary(x: Summary, c: Controller) {
    && Configured(c)
    && x.serviceCycles == Sum(x.histogram.Keys, ServiceAt(x.histogram, TariffOf(c)))
    && x.lowerBound == CeilDiv(x.serviceCycles, c.channels)
  }

  /** How many bursts, or bus cycles, of so many bytes a request of each size takes. */
  ghost predicate Takes(h: Histogram, parts: int -> nat, bytes: nat) {
    forall z :: z in h.Keys ==> (parts(z) - 1) * bytes < z <= parts(z) * bytes
  }

  /** Setup, bursts and bus cycles of all requests of a size. */
  function CyclesAt(h: Histogram, c: Controller, bursts: int -> nat, beats: int -> nat): int -> int {
    (z: int) => Get(h, z) * (c.setupCycles + bursts(z) * c.fixedLatencyCycles + beats(z))
  }

  /** What a summary says about service, in the terms of the controller: every request of a size pays the
      setup, the fixed latency for each of its bursts and its cycles on the bus; and the lower bound is
      the least number of cycles that all channels together need. */
  lemma SummaryMeans(x: Summary, c: Controller, bursts: int -> nat, beats: int -> nat)
    requires IsSummary(x, c) && forall z :: z in x.histogram.Keys ==> z >= 0
    requires Takes(x.histogram, bursts, c.burstBytes) && Takes(x.histogram, beats, c.bytesPerCycle)
    ensures x.serviceCycles == Sum(x.histogram.Keys, CyclesAt(x.histogram, c, bursts, beats))
    ensures (x.lowerBound - 1) * c.channels < x.serviceCycles <= x.lowerBound * c.channels
  {
    var h := x.histogram;
    forall z | z in h.Keys ensures ServiceAt(h, TariffOf(c))(z) == CyclesAt(h, c, bursts, beats)(z) {
      ServiceIs(z, c, bursts(z), beats(z));
      TimesIs(Get(h, z), TariffOf(c)(z));
    }
    SumSame(h.Keys, ServiceAt(h, TariffOf(c)), CyclesAt(h, c, bursts, beats));
    BoundMeans(x.serviceCycles, c.channels);
  }

  lemma BoundMeans(cycles: nat, channels: nat)
    requires channels > 0
    ensures (CeilDiv(cycles, channels) - 1) * channels < cycles <= CeilDiv(cycles, channels) * channels
  {
    CeilBounds(cycles, channels);
  }

  /** Totals of one direction; the controller enters with its tariff and its number of channels. */
  method SummarizeDirection(k: Counters, h: Histogram, c: Controller) returns (error: Option<ComparisonError>, summary: Summary)
    requires Configured(c)
    ensures error.None? <==> Agree(k, h)
    ensures summary.counters == k && summary.histogram == h && IsSummary(summary, c)
  {
    var requests, bytes, service := AddUp(h, TariffOf(c));
    summary := Summary(k, h, service, CeilDiv(service, c.channels));
    if requests != k.requests { return Some(HistogramRequests), summary; }
    if bytes != k.bytes { return Some(HistogramBytes), summary; }
    if (k.requests == 0) != (k.bytes == 0) { return Some(EmptyTraffic), summary; }
    if (k.descriptors == 0) != (k.requests == 0) { return Some(EmptyDescriptors), summary; }
    error := None;
  }

  /** Size by size the sum of the two. */
  ghost predicate IsCombination(left: Histogram, right: Histogram, r: Histogram) {
    && (forall z :: z in r.Keys <==> z in left.Keys || z in right.Keys)
    && forall z {:trigger Get(r, z)} :: Get(r, z) == Get(left, z) + Get(right, z)
  }

  /** The second histogram added to a copy of the first. */
  method CombineHistograms(left: Histogram, right: Histogram) returns (r: Histogram)
    ensures IsCombination(left, right, r)
  {
    r := left;
    var rest := right.Keys;
    while rest != {}
      invariant rest <= right.Keys && r.Keys == left.Keys + (right.Keys - rest)
      invariant forall z :: Get(r, z) == Get(left, z) + if z in rest then 0 else Get(right, z)
      decreases rest
    {
      var size := Pick(rest);
      r := AddHistogramCount(r, size, right[size]);
      rest := rest - {size};
    }
  }

  lemma {:induction false} SumPlus(s: set<int>, f: int -> int, g: int -> int, h: int -> int)
    requires forall z :: z in s ==> h(z) == f(z) + g(z)
    ensures Sum(s, h) == Sum(s, f) + Sum(s, g)
    decreases s
  {
    if s != {} {
      var z := Member(s);
      SumTake(s, f, z);
      SumTake(s, g, z);
      SumTake(s, h, z);
      SumPlus(s - {z}, f, g, h);
    }
  }

  ghost predicate Adds(f: int -> int, g: int -> int, h: int -> int) {
    forall z :: h(z) == f(z) + g(z)
  }

  /** A total over the combined sizes is the sum of the totals. */
  lemma CombinedTotal(left: set<int>, right: set<int>, both: set<int>, f: int -> int, g: int -> int, h: int -> int)
    requires forall z :: z in both <==> z in left || z in right
    requires Adds(f, g, h) && Vanishes(left, f) && Vanishes(right, g)
    ensures Sum(both, h) == Sum(left, f) + Sum(right, g)
  {
    SumPlus(both, f, g, h);
    forall z | z in left ensures z in both {}
    forall z | z in right ensures z in both {}
    KeysSuffice(left, both, f);
    KeysSuffice(right, both, g);
  }

  lemma AmountsAdd(left: Histogram, right: Histogram, r: Histogram)
    requires IsCombination(left, right, r)
    ensures Adds(Amount(left), Amount(right), Amount(r)) && Vanishes(left.Keys, Amount(left)) && Vanishes(right.Keys, Amount(right))
  {
    forall z ensures Amount(r)(z) == Amount(left)(z) + Amount(right)(z) {
      assert Get(r, z) == Get(left, z) + Get(right, z);
    }
  }

  lemma CombinedAmount(left: Histogram, right: Histogram, r: Histogram)
    requires IsCombination(left, right, r)
    ensures Sum(r.Keys, Amount(r)) == Sum(left.Keys, Amount(left)) + Sum(right.Keys, Amount(right))
  {
    AmountsAdd(left, right, r);
    CombinedTotal(left.Keys, right.Keys, r.Keys, Amount(left), Amount(right), Amount(r));
  }

  lemma VolumeAbsent(h: Histogram)
    ensures Vanishes(h.Keys, Volume(h))
  {
    forall z | z !in h.Keys ensures Volume(h)(z) == 0 { assert Get(h, z) == 0; }
  }

  lemma VolumesAdd(left: Histogram, right: Histogram, r: Histogram)
    requires IsCombination(left, right, r)
    ensures Adds(Volume(left), Volume(right), Volume(r))
  {
    forall z ensures Volume(r)(z) == Volume(left)(z) + Volume(right)(z) {
      assert Get(r, z) == Get(left, z) + Get(right, z);
      BatchBytesSplit(z, Get(left, z), Get(right, z));
    }
  }

  lemma CombinedVolume(left: Histogram, right: Histogram, r: Histogram)
    requires IsCombination(left, right, r)
    ensures Sum(r.Keys, Volume(r)) == Sum(left.Keys, Volume(left)) + Sum(right.Keys, Volume(right))
  {
    VolumesAdd(left, right, r);
    VolumeAbsent(left);
    VolumeAbsent(right);
    CombinedTotal(left.Keys, right.Keys, r.Keys, Volume(left), Volume(right), Volume(r));
  }

  lemma ServiceAdds(left: Histogram, right: Histogram, r: Histogram, f: Tariff, z: int)
    requires Get(r, z) == Get(left, z) + Get(right, z)
    ensures ServiceAt(r, f)(z) == ServiceAt(left, f)(z) + ServiceAt(right, f)(z)
  {
    TimesSplit(Get(left, z), Get(right, z), f(z));
  }

  lemma ServicesAdd(left: Histogram, right: Histogram, r: Histogram, f: Tariff)
    requires IsCombination(left, right, r)
    ensures Adds(ServiceAt(left, f), ServiceAt(right, f), ServiceAt(r, f))
  {
    forall z ensures ServiceAt(r, f)(z) == ServiceAt(left, f)(z) + ServiceAt(right, f)(z) {
      assert Get(r, z) == Get(left, z) + Get(right, z);
      ServiceAdds(left, right, r, f, z);
    }
  }

  lemma CombinedService(left: Histogram, right: Histogram, r: Histogram, f: Tariff)
    requires IsCombination(left, right, r)
    ensures Sum(r.Keys, ServiceAt(r, f)) == Sum(left.Keys, ServiceAt(left, f)) + Sum(right.Keys, ServiceAt(right, f))
  {
    ServicesAdd(left, right, r, f);
    ServiceAbsent(left, f);
    ServiceAbsent(right, f);
    CombinedTotal(left.Keys, right.Keys, r.Keys, ServiceAt(left, f), ServiceAt(right, f), ServiceAt(r, f));
  }

  function Plus(k: Counters, l: Counters): Counters {
    Counters(k.descriptors + l.descriptors, k.requests + l.requests, k.bytes + l.bytes)
  }

  /** When both directions agree with their histograms, so do the sums with the combination. */
  lemma CombinedAgree(input: Counters, output: Counters, left: Histogram, right: Histogram, r: Histogram)
    requires Agree(input, left) && Agree(output, right)
    requires IsCombination(left, right, r)
    ensures Agree(Plus(input, output), r)
  {
    CombinedAmount(left, right, r);
    CombinedVolume(left, right, r);
    PlusAgrees(input, output, Sum(left.Keys, Amount(left)), Sum(right.Keys, Amount(right)),
               Sum(left.Keys, Volume(left)), Sum(right.Keys, Volume(right)));
  }

  lemma PlusAgrees(k: Counters, l: Counters, requests: int, moreRequests: int, bytes: int, moreBytes: int)
    requires k.requests == requests && l.requests == moreRequests && k.bytes == bytes && l.bytes == moreBytes
    requires (k.requests == 0 <==> k.bytes == 0) && (k.descriptors == 0 <==> k.requests == 0)
    requires (l.requests == 0 <==> l.bytes == 0) && (l.descriptors == 0 <==> l.requests == 0)
    ensures var p := Plus(k, l);
            && p.requests == requests + moreRequests && p.bytes == bytes + moreBytes
            && (p.requests == 0 <==> p.bytes == 0) && (p.descriptors == 0 <==> p.requests == 0)
  {
  }

  /** The combination of two directions that agree: no error can be raised. */
  method SummarizeCombined(left: Summary, right: Summary, c: Controller) returns (error: Option<ComparisonError>, combined: Summary)
    requires Configured(c) && Agree(left.counters, left.histogram) && Agree(right.counters, right.histogram)
    ensures error.None? && combined.counters == Plus(left.counters, right.counters)
    ensures IsCombination(left.histogram, right.histogram, combined.histogram) && IsSummary(combined, c)
  {
    var histogram := CombineHistograms(left.histogram, right.histogram);
    CombinedAgree(left.counters, right.counters, left.histogram, right.histogram, histogram);
    error, combined := SummarizeDirection(Plus(left.counters, right.counters), histogram, c);
  }

  /** Input, output and combined summaries of one audit. When the two directions agree with their
      histograms, so does the combination. */
  method SummarizeAudit(input: Counters, output: Counters, inputHistogram: Histogram, outputHistogram: Histogram, c: Controller)
    returns (error: Option<ComparisonError>, left: Summary, right: Summary, combined: Summary)
    requires Configured(c)
    ensures error.None? <==> Agree(input, inputHistogram) && Agree(output, outputHistogram)
    ensures error.None? ==> IsSummary(left, c) && IsSummary(right, c) && IsSummary(combined, c)
    ensures error.None? ==> left.counters == input && right.counters == output && combined.counters == Plus(input, output)
    ensures error.None? ==> left.histogram == inputHistogram && right.histogram == outputHistogram
    ensures error.None? ==> IsCombination(inputHistogram, outputHistogram, combined.histogram)
  {
    error, left := SummarizeDirection(input, inputHistogram, c);
    right, combined := left, left;
    if error.Some? { return; }
    error, right := SummarizeDirection(output, outputHistogram, c);
    if error.Some? { return; }
    error, combined := SummarizeCombined(left, right, c);
  }

  lemma ServiceCombines(left: Summary, right: Summary, combined: Summary, c: Controller)
    requires IsSummary(left, c) && IsSummary(right, c) && IsSummary(combined, c)
    requires IsCombination(left.histogram, right.histogram, combined.histogram)
    ensures combined.serviceCycles == left.serviceCycles + right.serviceCycles
  {
    CombinedService(left.histogram, right.histogram, combined.histogram, TariffOf(c));
  }

  /** The combined service time is the sum, and the combined bound at most the sum of the bounds. */
  lemma CombinedCycles(left: Summary, right: Summary, combined: Summary, c: Controller)
    requires IsSummary(left, c) && IsSummary(right, c) && IsSummary(combined, c)
    requires IsCombination(left.histogram, right.histogram, combined.histogram)
    ensures combined.serviceCycles == left.serviceCycles + right.serviceCycles
    ensures combined.lowerBound <= left.lowerBound + right.lowerBound
  {
    ServiceCombines(left, right, combined, c);
    CeilSum(left.serviceCycles, right.serviceCycles, c.channels);
  }
}
