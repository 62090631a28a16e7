/** Request-size histograms: maps from a request size to the number of requests of that size, and the
    batches of equal requests that they summarize. */
module Histograms {
  import opened SortedSets
  import opened Sums

  type Histogram = map<int, nat>

  /** So many requests of one size. */
  datatype Batch = Batch(size: int, count: nat)

  function Get(h: Histogram, size: int): nat {
    if size in h then h[size] else 0
  }

  function CountOf(bs: seq<Batch>, size: int): nat {
    if bs == [] then 0
    else CountOf(bs[..|bs| - 1], size) + if bs[|bs| - 1].size == size then bs[|bs| - 1].count else 0
  }

  function Requests(bs: seq<Batch>): nat {
    if bs == [] then 0 else Requests(bs[..|bs| - 1]) + bs[|bs| - 1].count
  }

  /** The bytes of one batch, request by request. */
  function BatchBytes(b: Batch): int
    decreases b.count
  {
    if b.count == 0 then 0 else b.size + BatchBytes(b.(count := b.count - 1))
  }

  lemma {:induction false} BatchBytesIs(b: Batch)
    ensures BatchBytes(b) == b.size * b.count
    decreases b.count
  {
    if b.count > 0 {
      BatchBytesIs(b.(count := b.count - 1));
      assert b.size * b.count == b.size * (b.count - 1) + b.size;
    }
  }

  lemma {:induction false} BatchBytesSplit(size: int, m: nat, n: nat)
    ensures BatchBytes(Batch(size, m + n)) == BatchBytes(Batch(size, m)) + BatchBytes(Batch(size, n))
    decreases n
  {
    if n > 0 { BatchBytesSplit(size, m, n - 1); }
  }

  function Bytes(bs: seq<Batch>): int {
    if bs == [] then 0 else Bytes(bs[..|bs| - 1]) + BatchBytes(bs[|bs| - 1])
  }

  /** The histogram counts exactly the requests of the batches. */
  ghost predicate Describes(h: Histogram, bs: seq<Batch>) {
    forall z :: Get(h, z) == CountOf(bs, z)
  }

  lemma OneMoreBatch(bs: seq<Batch>, b: Batch)
    ensures forall z :: CountOf(bs + [b], z) == CountOf(bs, z) + if b.size == z then b.count else 0
    ensures Requests(bs + [b]) == Requests(bs) + b.count
    ensures Bytes(bs + [b]) == Bytes(bs) + b.size * b.count
  {
    var more := bs + [b];
    assert more[..|more| - 1] == bs;
    BatchBytesIs(b);
  }

  lemma {:induction false} Concatenated(a: seq<Batch>, b: seq<Batch>)
    ensures forall z :: CountOf(a + b, z) == CountOf(a, z) + CountOf(b, z)
    ensures Requests(a + b) == Requests(a) + Requests(b)
    ensures Bytes(a + b) == Bytes(a) + Bytes(b)
    decreases |b|
  {
    if b == [] {
      assert a + b == a;
    } else {
      var last := b[|b| - 1];
      Concatenated(a, b[..|b| - 1]);
      OneMoreBatch(a + b[..|b| - 1], last);
      assert a + b == a + b[..|b| - 1] + [last];
    }
  }

  lemma JoinedSums(a: seq<Batch>, b: seq<Batch>)
    ensures Requests(a + b) == Requests(a) + Requests(b) && Bytes(a + b) == Bytes(a) + Bytes(b)
  {
    Concatenated(a, b);
  }

  /** The batches of one occurrence, repeated. */
  function Repeated(bs: seq<Batch>, times: nat): seq<Batch> {
    if bs == [] then []
    else Repeated(bs[..|bs| - 1], times) + [Batch(bs[|bs| - 1].size, times * bs[|bs| - 1].count)]
  }

  lemma {:induction false} RepeatedTotals(bs: seq<Batch>, times: nat)
    ensures forall z :: CountOf(Repeated(bs, times), z) == times * CountOf(bs, z)
    ensures Requests(Repeated(bs, times)) == times * Requests(bs)
    ensures Bytes(Repeated(bs, times)) == times * Bytes(bs)
  {
    if bs != [] {
      var init, last := bs[..|bs| - 1], bs[|bs| - 1];
      RepeatedTotals(init, times);
      OneMoreBatch(Repeated(init, times), Batch(last.size, times * last.count));
      BatchBytesIs(last);
      forall z ensures CountOf(Repeated(bs, times), z) == times * CountOf(bs, z) {
        Distribute(times, CountOf(init, z), if last.size == z then last.count else 0);
      }
      Distribute(times, Requests(init), last.count);
      Distribute(times, Bytes(init), last.size * last.count);
      Exchange(times, last.size, last.count);
    }
  }

  lemma RepeatedSums(bs: seq<Batch>, times: nat)
    ensures Requests(Repeated(bs, times)) == times * Requests(bs) && Bytes(Repeated(bs, times)) == times * Bytes(bs)
  {
    RepeatedTotals(bs, times);
  }

  lemma RepeatedRequests(bs: seq<Batch>, times: nat)
    ensures Requests(Repeated(bs, times)) == times * Requests(bs)
  {
    RepeatedTotals(bs, times);
  }

  lemma Distribute(a: int, x: int, y: int)
    ensures a * (x + y) == a * x + a * y
  {
  }

  lemma Exchange(a: int, x: int, y: int)
    ensures a * (x * y) == x * (a * y)
  {
  }

  // ---- updating ----

  method AddHistogramCount(h: Histogram, size: int, count: nat) returns (r: Histogram)
    ensures forall z :: Get(r, z) == Get(h, z) + if z == size then count else 0
    ensures r.Keys == h.Keys + {size}
  {
    r := h[size := Get(h, size) + count];
  }

  lemma DescribesMore(h: Histogram, r: Histogram, bs: seq<Batch>, b: Batch)
    requires Describes(h, bs) && forall z :: Get(r, z) == Get(h, z) + if z == b.size then b.count else 0
    ensures Describes(r, bs + [b])
  {
    OneMoreBatch(bs, b);
  }

  /** Adds every entry of one histogram, a number of times, to another. */
  method AddAll(h: Histogram, more: Histogram, times: nat) returns (r: Histogram)
    ensures forall z :: Get(r, z) == Get(h, z) + times * Get(more, z)
  {
    r := h;
    var rest := more.Keys;
    while rest != {}
      invariant rest <= more.Keys
      invariant forall z :: Get(r, z) == Get(h, z) + if z in rest then 0 else times * Get(more, z)
      decreases rest
    {
      ghost var some := Member(rest);
      var size :| size in rest;
      r := AddHistogramCount(r, size, times * more[size]);
      rest := rest - {size};
    }
  }

  lemma DescribesAll(h: Histogram, more: Histogram, r: Histogram, a: seq<Batch>, b: seq<Batch>, times: nat)
    requires Describes(h, a) && Describes(more, b)
    requires forall z :: Get(r, z) == Get(h, z) + times * Get(more, z)
    ensures Describes(r, a + Repeated(b, times))
  {
    RepeatedTotals(b, times);
    Concatenated(a, Repeated(b, times));
  }

  // ---- totals ----

  function Amount(h: Histogram): int -> int {
    (z: int) => Get(h, z)
  }

  function Volume(h: Histogram): int -> int {
    (z: int) => BatchBytes(Batch(z, Get(h, z)))
  }

  /** The sizes of the batches. */
  function Sizes(bs: seq<Batch>): set<int> {
    set b | b in bs :: b.size
  }

  lemma OneTermMore(s: set<int>, f: int -> int, g: int -> int, size: int, extra: int)
    requires size in s && g(size) == f(size) + extra && forall z :: z in s && z != size ==> g(z) == f(z)
    ensures Sum(s, g) == Sum(s, f) + extra
  {
    SumTake(s, f, size);
    SumTake(s, g, size);
    forall z | z in s - {size} ensures f(z) == g(z) {
      assert z in s && z != size;
    }
    SumSame(s - {size}, f, g);
  }

  /** Counts by size, as a function of the batches. */
  function AmountOf(bs: seq<Batch>): int -> int {
    (z: int) => CountOf(bs, z)
  }

  function VolumeOf(bs: seq<Batch>): int -> int {
    (z: int) => BatchBytes(Batch(z, CountOf(bs, z)))
  }

  ghost predicate SizesIn(bs: seq<Batch>, s: set<int>) {
    forall i :: 0 <= i < |bs| ==> bs[i].size in s
  }

  /** Summing by size and summing batch by batch give the same number of requests. */
  lemma {:induction false} RequestsBySize(bs: seq<Batch>, s: set<int>)
    requires SizesIn(bs, s)
    ensures Sum(s, AmountOf(bs)) == Requests(bs)
    decreases |bs|
  {
    if bs == [] {
      ZeroSum(s, AmountOf(bs));
    } else {
      var init, last := bs[..|bs| - 1], bs[|bs| - 1];
      RequestsBySize(init, s);
      OneTermMore(s, AmountOf(init), AmountOf(bs), last.size, last.count);
    }
  }

  /** And the same number of bytes. */
  lemma {:induction false} BytesBySize(bs: seq<Batch>, s: set<int>)
    requires SizesIn(bs, s)
    ensures Sum(s, VolumeOf(bs)) == Bytes(bs)
    decreases |bs|
  {
    if bs == [] {
      ZeroSum(s, VolumeOf(bs));
    } else {
      var init, last := bs[..|bs| - 1], bs[|bs| - 1];
      BytesBySize(init, s);
      BatchBytesSplit(last.size, CountOf(init, last.size), last.count);
      OneTermMore(s, VolumeOf(init), VolumeOf(bs), last.size, BatchBytes(last));
    }
  }

  lemma {:induction false} ZeroSum(s: set<int>, f: int -> int)
    requires forall z :: z in s ==> f(z) == 0
    ensures Sum(s, f) == 0
    decreases s
  {
    if s != {} {
      var z := Member(s);
      SumTake(s, f, z);
      ZeroSum(s - {z}, f);
    }
  }

  /** Nothing outside the keys contributes. */
  ghost predicate Vanishes(keys: set<int>, f: int -> int) {
    forall z :: z !in keys ==> f(z) == 0
  }

  /** Entries outside the histogram contribute nothing. */
  lemma KeysSuffice(keys: set<int>, s: set<int>, f: int -> int)
    requires keys <= s && Vanishes(keys, f)
    ensures Sum(s, f) == Sum(keys, f)
  {
    var rest := s - keys;
    SumUnion(keys, rest, f);
    assert keys + rest == s;
    forall z | z in rest ensures f(z) == 0 {
      assert z in s && z !in keys;
    }
    ZeroSum(rest, f);
  }

  lemma RequestsTotal(h: Histogram, bs: seq<Batch>)
    requires Describes(h, bs)
    ensures Sum(h.Keys, Amount(h)) == Requests(bs)
  {
    var s := h.Keys + Sizes(bs);
    RequestsBySize(bs, s);
    SumSame(s, AmountOf(bs), Amount(h));
    KeysSuffice(h.Keys, s, Amount(h));
  }

  lemma BytesTotal(h: Histogram, bs: seq<Batch>)
    requires Describes(h, bs)
    ensures Sum(h.Keys, Volume(h)) == Bytes(bs)
  {
    var s := h.Keys + Sizes(bs);
    BytesBySize(bs, s);
    forall z ensures VolumeOf(bs)(z) == Volume(h)(z) {
      assert Get(h, z) == CountOf(bs, z);
    }
    SumSame(s, VolumeOf(bs), Volume(h));
    KeysSuffice(h.Keys, s, Volume(h));
  }

  /** The totals of a histogram are those of its batches. */
  lemma HistogramTotals(h: Histogram, bs: seq<Batch>)
    requires Describes(h, bs)
    ensures Sum(h.Keys, Amount(h)) == Requests(bs) && Sum(h.Keys, Volume(h)) == Bytes(bs)
  {
    RequestsTotal(h, bs);
    BytesTotal(h, bs);
  }

  /** Adds up the requests and the bytes of a histogram. */
  method Reconcile(h: Histogram) returns (requests: nat, bytes: int)
    ensures requests == Sum(h.Keys, Amount(h)) && bytes == Sum(h.Keys, Volume(h))
  {
    requests, bytes := 0, 0;
    var sizes := ListOf(h.Keys);
    for k := 0 to |sizes|
      invariant requests == SumOver(sizes[..k], Amount(h)) && bytes == SumOver(sizes[..k], Volume(h))
    {
      var size := sizes[k];
      assert size in h;
      BatchBytesIs(Batch(size, h[size]));
      NextItem(sizes, k, Amount(h));
      NextItem(sizes, k, Volume(h));
      requests, bytes := requests + h[size], bytes + size * h[size];
    }
    AllItems(sizes, h.Keys, Amount(h));
    AllItems(sizes, h.Keys, Volume(h));
  }
}
