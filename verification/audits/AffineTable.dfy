/** The affine audit over a whole table: packing the segments of every descriptor. */
module AffineTable {
  import opened Arithmetic
  import opened Options
  import opened Histograms
  import opened DmaTables
  import opened DmaAccounting
  import opened Copies
  import opened AffineAudit

  /** The packed requests of one segment. */
  function PackedSegments(t: Table): int -> seq<Move> {
    (j: int) => if 0 <= j < |t.segments| && t.segments[j].byteSize > 0 then Packed(t.segments[j], t.maximumFrame, 0, 0) else []
  }

  /** The requests of a range, whatever they are. */
  function AllSized(f: int -> seq<Move>, lo: int, hi: int): seq<Batch>
    decreases hi - lo
  {
    if hi <= lo then [] else AllSized(f, lo, hi - 1) + Sized(f(hi - 1))
  }

  /** The packed requests of segments lo .. hi-1 in one occurrence. */
  function SegmentsPacked(t: Table, lo: int, hi: int): seq<Batch> {
    AllSized(PackedSegments(t), lo, hi)
  }

  lemma OneMorePacked(t: Table, lo: int, j: int)
    requires 0 <= lo <= j < |t.segments| && t.segments[j].byteSize > 0
    ensures SegmentsPacked(t, lo, j + 1) == SegmentsPacked(t, lo, j) + Sized(Packed(t.segments[j], t.maximumFrame, 0, 0))
  {
  }

  lemma SizesPositive(t: Table, i: int)
    requires 0 <= i < |t.descriptors| && DescriptorOk(t, i)
    ensures var d := t.descriptors[i];
            forall j :: d.segmentOffset <= j < d.segmentOffset + d.segmentCount ==> 0 < t.segments[j].byteSize <= t.maximumFrame
  {
    var d := t.descriptors[i];
    forall j | d.segmentOffset <= j < d.segmentOffset + d.segmentCount ensures 0 < t.segments[j].byteSize <= t.maximumFrame {
      assert SegmentOk(t, i, j);
    }
  }

  /** ... and in all of them. */
  function RangePacked(t: Table, lo: int, hi: int, occurrences: nat): seq<Batch> {
    Repeated(SegmentsPacked(t, lo, hi), occurrences)
  }

  /** The requests of a descriptor once its segments are packed; a compact pair is kept. */
  function AffineBatches(t: Table, i: int): seq<Batch>
    requires 0 <= i < |t.descriptors| && DescriptorOk(t, i)
  {
    var d := t.descriptors[i];
    match RoleOf(d.flags)
    case Follower => []
    case Leader => DescriptorBatches(t, i)
    case Plain => RangePacked(t, d.segmentOffset, d.segmentOffset + d.segmentCount, Occurrences(d))
  }

  /** A plain descriptor with its range of segments and its occurrences. */
  ghost predicate PlainAt(t: Table, i: int, lo: int, hi: int, occurrences: nat) {
    && 0 <= i < |t.descriptors| && DescriptorOk(t, i) && RoleOf(t.descriptors[i].flags) == Plain
    && lo == t.descriptors[i].segmentOffset && hi == lo + t.descriptors[i].segmentCount && occurrences == Occurrences(t.descriptors[i])
  }

  lemma PlainPacked(t: Table, i: int, lo: int, hi: int, occurrences: nat)
    requires PlainAt(t, i, lo, hi, occurrences)
    ensures AffineBatches(t, i) == RangePacked(t, lo, hi, occurrences)
  {
    var d := t.descriptors[i];
    assert RoleOf(d.flags) == Plain;
    assert d.segmentOffset == lo && d.segmentOffset + d.segmentCount == hi && Occurrences(d) == occurrences;
  }

  lemma PlainRange(t: Table, i: int, lo: int, hi: int, occurrences: nat)
    requires PlainAt(t, i, lo, hi, occurrences)
    ensures 0 <= lo <= hi <= |t.segments| && forall j :: lo <= j < hi ==> 0 < t.segments[j].byteSize <= t.maximumFrame
  {
    SizesPositive(t, i);
  }

  lemma PlainTransfers(t: Table, i: int, lo: int, hi: int, occurrences: nat)
    requires PlainAt(t, i, lo, hi, occurrences)
    ensures 0 <= lo <= hi <= |t.segments| && DescriptorBatches(t, i) == Repeated(SegmentBatches(t, lo, hi), occurrences)
  {
  }

  function AffineUpTo(t: Table, direction: int, n: nat): seq<Batch>
    requires n <= |t.descriptors| && AcceptedUpTo(t, n)
  {
    if n == 0 then []
    else
      assert DescriptorOk(t, n - 1);
      AffineUpTo(t, direction, n - 1) + if t.descriptors[n - 1].direction == direction then AffineBatches(t, n - 1) else []
  }

  lemma {:induction false} SegmentsPackedTotals(t: Table, lo: int, hi: int)
    requires 0 <= lo <= hi <= |t.segments| && forall j :: lo <= j < hi ==> t.segments[j].byteSize > 0
    ensures Bytes(SegmentsPacked(t, lo, hi)) == Bytes(SegmentBatches(t, lo, hi))
    ensures Requests(SegmentsPacked(t, lo, hi)) <= Requests(SegmentBatches(t, lo, hi))
    decreases hi - lo
  {
    if lo < hi {
      var s := t.segments[hi - 1];
      SegmentsPackedTotals(t, lo, hi - 1);
      OneMorePacked(t, lo, hi - 1);
      JoinedSums(SegmentsPacked(t, lo, hi - 1), Sized(Packed(s, t.maximumFrame, 0, 0)));
      OneMoreBatch(SegmentBatches(t, lo, hi - 1), Batch(s.byteSize, Transfers(s)));
      PackedTotals(s, t.maximumFrame, 0, 0);
    }
  }

  lemma RepeatedCompare(packed: seq<Batch>, plain: seq<Batch>, times: nat)
    requires Bytes(packed) == Bytes(plain) && Requests(packed) <= Requests(plain)
    ensures Bytes(Repeated(packed, times)) == Bytes(Repeated(plain, times))
    ensures Requests(Repeated(packed, times)) <= Requests(Repeated(plain, times))
  {
    RepeatedSums(packed, times);
    RepeatedSums(plain, times);
    var x, y := Requests(packed), Requests(plain);
    Monotone(x, y, times);
  }

  /** Packing the segments of a descriptor conserves its bytes and adds no request. */
  lemma AffineTotals(t: Table, i: int)
    requires 0 <= i < |t.descriptors| && DescriptorOk(t, i)
    ensures Bytes(AffineBatches(t, i)) == Bytes(DescriptorBatches(t, i))
    ensures Requests(AffineBatches(t, i)) <= Requests(DescriptorBatches(t, i))
  {
    var d := t.descriptors[i];
    if RoleOf(d.flags) == Plain {
      SizesPositive(t, i);
      var end := d.segmentOffset + d.segmentCount;
      SegmentsPackedTotals(t, d.segmentOffset, end);
      RepeatedCompare(SegmentsPacked(t, d.segmentOffset, end), TransferBatches(t, i), Occurrences(d));
    }
  }

  lemma PhysicalNext(t: Table, direction: int, n: nat)
    requires n < |t.descriptors| && AcceptedUpTo(t, n) && AcceptedUpTo(t, n + 1) && DescriptorOk(t, n)
    ensures var here, before, after := t.descriptors[n].direction == direction, PhysicalBatches(t, direction, n), PhysicalBatches(t, direction, n + 1);
            && Bytes(after) == Bytes(before) + (if here then Bytes(DescriptorBatches(t, n)) else 0)
            && Requests(after) == Requests(before) + if here then Requests(DescriptorBatches(t, n)) else 0
  {
    JoinedSums(PhysicalBatches(t, direction, n), if t.descriptors[n].direction == direction then DescriptorBatches(t, n) else []);
  }

  lemma AffineNext(t: Table, direction: int, n: nat)
    requires n < |t.descriptors| && AcceptedUpTo(t, n) && AcceptedUpTo(t, n + 1) && DescriptorOk(t, n)
    ensures var here, before, after := t.descriptors[n].direction == direction, AffineUpTo(t, direction, n), AffineUpTo(t, direction, n + 1);
            && Bytes(after) == Bytes(before) + (if here then Bytes(AffineBatches(t, n)) else 0)
            && Requests(after) == Requests(before) + if here then Requests(AffineBatches(t, n)) else 0
  {
    JoinedSums(AffineUpTo(t, direction, n), if t.descriptors[n].direction == direction then AffineBatches(t, n) else []);
  }

  /** What never grows faster never becomes greater. */
  lemma {:induction false} NeverFaster(n: nat, a: nat -> int, b: nat -> int)
    requires a(0) == b(0) && forall k: nat :: k < n ==> a(k + 1) - a(k) <= b(k + 1) - b(k)
    ensures a(n) <= b(n)
  {
    if n > 0 {
      NeverFaster(n - 1, a, b);
      assert a(n - 1 + 1) - a(n - 1) <= b(n - 1 + 1) - b(n - 1);
    }
  }

  ghost function PhysicalRequests(t: Table, direction: int): nat -> int {
    (k: nat) => if k <= |t.descriptors| && AcceptedUpTo(t, k) then Requests(PhysicalBatches(t, direction, k)) else 0
  }

  ghost function AffineRequestsOf(t: Table, direction: int): nat -> int {
    (k: nat) => if k <= |t.descriptors| && AcceptedUpTo(t, k) then Requests(AffineUpTo(t, direction, k)) else 0
  }

  ghost function PhysicalBytes(t: Table, direction: int): nat -> int {
    (k: nat) => if k <= |t.descriptors| && AcceptedUpTo(t, k) then Bytes(PhysicalBatches(t, direction, k)) else 0
  }

  ghost function AffineBytesOf(t: Table, direction: int): nat -> int {
    (k: nat) => if k <= |t.descriptors| && AcceptedUpTo(t, k) then Bytes(AffineUpTo(t, direction, k)) else 0
  }

  lemma Growth(t: Table, direction: int, k: nat)
    requires k < |t.descriptors| && AcceptedUpTo(t, k) && AcceptedUpTo(t, k + 1)
    ensures AffineRequestsOf(t, direction)(k + 1) - AffineRequestsOf(t, direction)(k)
         <= PhysicalRequests(t, direction)(k + 1) - PhysicalRequests(t, direction)(k)
    ensures AffineBytesOf(t, direction)(k + 1) - AffineBytesOf(t, direction)(k)
         == PhysicalBytes(t, direction)(k + 1) - PhysicalBytes(t, direction)(k)
  {
    assert DescriptorOk(t, k);
    PhysicalNext(t, direction, k);
    AffineNext(t, direction, k);
    AffineTotals(t, k);
  }

  /** Packing the segments of every descriptor conserves bytes and adds no request. */
  lemma AffineReconciles(t: Table, direction: int, n: nat)
    requires n <= |t.descriptors| && AcceptedUpTo(t, n)
    ensures Bytes(AffineUpTo(t, direction, n)) == Bytes(PhysicalBatches(t, direction, n))
    ensures Requests(AffineUpTo(t, direction, n)) <= Requests(PhysicalBatches(t, direction, n))
  {
    forall k: nat | k < n
      ensures AffineRequestsOf(t, direction)(k + 1) - AffineRequestsOf(t, direction)(k)
           <= PhysicalRequests(t, direction)(k + 1) - PhysicalRequests(t, direction)(k)
      ensures AffineBytesOf(t, direction)(k + 1) - AffineBytesOf(t, direction)(k)
           == PhysicalBytes(t, direction)(k + 1) - PhysicalBytes(t, direction)(k)
    {
      Growth(t, direction, k);
    }
    NeverFaster(n, AffineRequestsOf(t, direction), PhysicalRequests(t, direction));
    NeverFaster(n, AffineBytesOf(t, direction), PhysicalBytes(t, direction));
    NeverFaster(n, PhysicalBytes(t, direction), AffineBytesOf(t, direction));
  }
}
