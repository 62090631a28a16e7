/** Acceptance and totals of a descriptor table, said of its fields: which tables pass, and what the totals
    of a direction are sums of. */
module TableRequirements {
  import opened Arithmetic
  import opened Histograms
  import opened DmaTables
  import opened DmaAccounting

  // ---- sums over segments ----

  /** Bytes of segments lo .. hi-1 in one iteration. */
  function BytesBetween(t: Table, lo: nat, hi: nat): nat
    requires lo <= hi <= |t.segments|
    decreases hi - lo
  {
    if lo == hi then 0
    else var s := t.segments[hi - 1]; BytesBetween(t, lo, hi - 1) + s.byteSize * (s.repeatCount * s.pieceCount)
  }

  /** Transfers of segments lo .. hi-1 in one iteration. */
  function TransfersBetween(t: Table, lo: nat, hi: nat): nat
    requires lo <= hi <= |t.segments|
    decreases hi - lo
  {
    if lo == hi then 0 else TransfersBetween(t, lo, hi - 1) + t.segments[hi - 1].repeatCount * t.segments[hi - 1].pieceCount
  }

  /** ... of those of one size. */
  function SizedBetween(t: Table, lo: nat, hi: nat, size: int): nat
    requires lo <= hi <= |t.segments|
    decreases hi - lo
  {
    if lo == hi then 0
    else var s := t.segments[hi - 1]; SizedBetween(t, lo, hi - 1, size) + if s.byteSize == size then s.repeatCount * s.pieceCount else 0
  }

  lemma {:induction false} BatchesMean(t: Table, lo: nat, hi: nat)
    requires lo <= hi <= |t.segments|
    ensures Bytes(SegmentBatches(t, lo, hi)) == BytesBetween(t, lo, hi)
    ensures Requests(SegmentBatches(t, lo, hi)) == TransfersBetween(t, lo, hi)
    ensures forall z :: CountOf(SegmentBatches(t, lo, hi), z) == SizedBetween(t, lo, hi, z)
    decreases hi - lo
  {
    if lo < hi {
      var s := t.segments[hi - 1];
      BatchesMean(t, lo, hi - 1);
      TransfersAre(s);
      OneMoreBatch(SegmentBatches(t, lo, hi - 1), Batch(s.byteSize, Transfers(s)));
    }
  }

  // ---- which tables are accepted ----

  predicate Bit(flags: nat, value: nat)
    requires value > 0
  {
    flags / value % 2 == 1
  }

  /** Descriptors are numbered, have a direction and run through a proper interval. */
  ghost predicate Numbered(t: Table, i: nat)
    requires i < |t.descriptors|
  {
    var d := t.descriptors[i];
    d.id == i && (d.direction == 0 || d.direction == 1) && d.iterationBegin < d.iterationEnd && d.iterationStep >= 1
  }

  /** Each descriptor owns the segments that follow those of the one before. */
  ghost predicate Sliced(t: Table, i: nat)
    requires i < |t.descriptors|
  {
    var d := t.descriptors[i];
    && d.segmentCount >= 1 && d.segmentOffset + d.segmentCount <= |t.segments|
    && (if i == 0 then d.segmentOffset == 0
        else d.segmentOffset == t.descriptors[i - 1].segmentOffset + t.descriptors[i - 1].segmentCount)
    && (i + 1 == |t.descriptors| ==> d.segmentOffset + d.segmentCount == |t.segments|)
  }

  ghost predicate Owns(t: Table, i: nat, j: nat)
    requires j < |t.segments|
  {
    var s := t.segments[j];
    s.id == j && s.descriptorId == i && 1 <= s.byteSize <= t.maximumFrame && s.repeatCount >= 1 && s.pieceCount >= 1
  }

  /** The segments of a descriptor are proper and move its bytes. */
  ghost predicate Filled(t: Table, i: nat)
    requires i < |t.descriptors|
  {
    var d := t.descriptors[i];
    && d.segmentOffset + d.segmentCount <= |t.segments|
    && (forall j: nat :: d.segmentOffset <= j < d.segmentOffset + d.segmentCount ==> Owns(t, i, j))
    && BytesBetween(t, d.segmentOffset, d.segmentOffset + d.segmentCount) == d.bytesPerIteration
  }

  /** Descriptors i and i + 1 are one transfer each, of which the second continues the first in both
      address spaces, and together they fit into a frame. */
  ghost predicate OneRequest(t: Table, i: nat)
    requires i + 1 < |t.descriptors|
  {
    var l, f := t.descriptors[i], t.descriptors[i + 1];
    && l.direction == 0 && f.direction == 0 && f.id == l.id + 1 && f.portNumber == l.portNumber + 1
    && l.flags - 16 == f.flags - 32
    && l.operationId == f.operationId && l.epochId == f.epochId && l.workUnitId == f.workUnitId && l.tensorId == f.tensorId
    && l.loopId == f.loopId && l.templateKind == f.templateKind && l.iterationBegin == f.iterationBegin
    && l.iterationEnd == f.iterationEnd && l.iterationStep == f.iterationStep
    && l.scratchpadSlotStride == f.scratchpadSlotStride && l.ringSlots == f.ringSlots
    && l.segmentCount == 1 && f.segmentCount == 1 && f.segmentOffset == l.segmentOffset + 1 < |t.segments|
    && 1 <= l.bytesPerIteration && 1 <= f.bytesPerIteration && l.bytesPerIteration + f.bytesPerIteration <= t.maximumFrame
    && var a, b := t.segments[l.segmentOffset], t.segments[f.segmentOffset];
       && a.descriptorId == l.id && b.descriptorId == f.id && a.byteSize == l.bytesPerIteration && b.byteSize == f.bytesPerIteration
       && a.repeatCount == 1 && b.repeatCount == 1 && a.pieceCount == 1 && b.pieceCount == 1
       && a.relationId == b.relationId && a.relationPieceOrdinal == b.relationPieceOrdinal
       && a.globalResourceId == b.globalResourceId && a.globalIterationStride == b.globalIterationStride
       && a.scratchpadIterationStride == b.scratchpadIterationStride && a.globalRepeatStride == b.globalRepeatStride
       && a.scratchpadRepeatStride == b.scratchpadRepeatStride && a.globalPieceStride == b.globalPieceStride
       && a.scratchpadPieceStride == b.scratchpadPieceStride
       && a.globalByteOffset + a.byteSize == b.globalByteOffset
       && l.scratchpadRingBase + a.scratchpadByteOffset + a.byteSize == f.scratchpadRingBase + b.scratchpadByteOffset
  }

  /** Bit 4 marks a leader and bit 5 the follower right after it; only inputs are marked. */
  ghost predicate Marked(t: Table, i: nat)
    requires i < |t.descriptors|
  {
    var flags := t.descriptors[i].flags;
    && !(Bit(flags, 16) && Bit(flags, 32))
    && (Bit(flags, 16) || Bit(flags, 32) ==> t.descriptors[i].direction == 0)
    && (Bit(flags, 16) ==> i + 1 < |t.descriptors| && Follows(t, i + 1) && OneRequest(t, i))
    && (Bit(flags, 32) ==> i > 0 && Leads(t, i - 1) && OneRequest(t, i - 1))
  }

  ghost predicate Leads(t: Table, i: nat)
    requires i < |t.descriptors|
  {
    Bit(t.descriptors[i].flags, 16) && !Bit(t.descriptors[i].flags, 32)
  }

  ghost predicate Follows(t: Table, i: nat)
    requires i < |t.descriptors|
  {
    Bit(t.descriptors[i].flags, 32) && !Bit(t.descriptors[i].flags, 16)
  }

  lemma PairMeans(t: Table, i: nat)
    requires i + 1 < |t.descriptors| && Leads(t, i) && Follows(t, i + 1)
    ensures IsCompactPair(t, i) <==> OneRequest(t, i)
  {
  }

  lemma MarksMean(t: Table, i: nat)
    requires i < |t.descriptors|
    ensures FlagsOk(t, i) <==> Marked(t, i)
  {
    if i + 1 < |t.descriptors| && Leads(t, i) && Follows(t, i + 1) { PairMeans(t, i); }
    if i > 0 && Leads(t, i - 1) && Follows(t, i) { PairMeans(t, i - 1); }
  }

  ghost predicate Meets(t: Table, i: nat)
    requires i < |t.descriptors|
  {
    Numbered(t, i) && Sliced(t, i) && Filled(t, i) && Marked(t, i)
  }

  lemma FillingMeans(t: Table, i: nat)
    requires i < |t.descriptors| && SliceOk(t, i)
    ensures var d := t.descriptors[i];
            Filled(t, i) <==> (forall j :: d.segmentOffset <= j < d.segmentOffset + d.segmentCount ==> SegmentOk(t, i, j))
                              && Bytes(TransferBatches(t, i)) == d.bytesPerIteration
  {
    var d := t.descriptors[i];
    BatchesMean(t, d.segmentOffset, d.segmentOffset + d.segmentCount);
    forall j: nat | d.segmentOffset <= j < d.segmentOffset + d.segmentCount ensures SegmentOk(t, i, j) <==> Owns(t, i, j) {}
  }

  lemma DescriptorMeans(t: Table, i: nat)
    requires i < |t.descriptors| && (i + 1 == |t.descriptors| ==> SegmentStart(t, i + 1) == |t.segments|)
    ensures DescriptorOk(t, i) <==> Meets(t, i)
  {
    var d := t.descriptors[i];
    MarksMean(t, i);
    if SliceOk(t, i) { FillingMeans(t, i); }
  }

  /** Exactly the tables that meet these requirements are accepted; without descriptors, those without
      segments. */
  lemma AcceptedMeans(t: Table)
    ensures Accepted(t)
       <==> (forall i: nat :: i < |t.descriptors| ==> Meets(t, i)) && (t.descriptors == [] ==> t.segments == [])
  {
    var n := |t.descriptors|;
    if SegmentStart(t, n) == |t.segments| {
      forall i: nat | i < n ensures DescriptorOk(t, i) <==> Meets(t, i) {
        DescriptorMeans(t, i);
      }
    } else if n > 0 {
      assert !Sliced(t, n - 1);
      assert !Meets(t, n - 1);
    }
  }

  // ---- the totals ----

  function Iterations(d: Descriptor): nat {
    if d.iterationStep > 0 then |Range(d.iterationBegin, d.iterationEnd, d.iterationStep)| else 0
  }

  function OwnTransfers(t: Table, d: Descriptor): nat {
    if d.segmentOffset + d.segmentCount <= |t.segments| then TransfersBetween(t, d.segmentOffset, d.segmentOffset + d.segmentCount) else 0
  }

  function OwnSized(t: Table, d: Descriptor, size: int): nat {
    if d.segmentOffset + d.segmentCount <= |t.segments| then SizedBetween(t, d.segmentOffset, d.segmentOffset + d.segmentCount, size) else 0
  }

  /** The physical requests of one size that descriptor i stands for: a leader for the pair, a follower for
      none, any other for its transfers in every iteration. */
  function SizedRequests(t: Table, i: nat, size: int): nat
    requires i < |t.descriptors|
  {
    var d := t.descriptors[i];
    if Bit(d.flags, 32) then 0
    else if Bit(d.flags, 16) then
      if i + 1 < |t.descriptors| && d.bytesPerIteration + t.descriptors[i + 1].bytesPerIteration == size then Iterations(d) else 0
    else Iterations(d) * OwnSized(t, d, size)
  }

  /** All of its physical requests. */
  function AllRequests(t: Table, i: nat): nat
    requires i < |t.descriptors|
  {
    var d := t.descriptors[i];
    if Bit(d.flags, 32) then 0 else if Bit(d.flags, 16) then Iterations(d) else Iterations(d) * OwnTransfers(t, d)
  }

  /** A sum over the first n descriptors of a direction. */
  ghost function Over(t: Table, direction: int, n: nat, f: nat -> nat): nat
    requires n <= |t.descriptors|
  {
    if n == 0 then 0 else Over(t, direction, n - 1, f) + if t.descriptors[n - 1].direction == direction then f(n - 1) else 0
  }

  ghost function BytesMoved(t: Table): nat -> nat {
    (i: nat) => if i < |t.descriptors| then Iterations(t.descriptors[i]) * t.descriptors[i].bytesPerIteration else 0
  }

  ghost function TransfersMade(t: Table): nat -> nat {
    (i: nat) => if i < |t.descriptors| then Iterations(t.descriptors[i]) * OwnTransfers(t, t.descriptors[i]) else 0
  }

  ghost function RequestsMade(t: Table): nat -> nat {
    (i: nat) => if i < |t.descriptors| then AllRequests(t, i) else 0
  }

  ghost function RequestsSized(t: Table, size: int): nat -> nat {
    (i: nat) => if i < |t.descriptors| then SizedRequests(t, i, size) else 0
  }

  lemma OwnMeans(t: Table, i: nat)
    requires i < |t.descriptors| && DescriptorOk(t, i)
    ensures Occurrences(t.descriptors[i]) == Iterations(t.descriptors[i])
    ensures Requests(TransferBatches(t, i)) == OwnTransfers(t, t.descriptors[i])
    ensures forall z :: CountOf(TransferBatches(t, i), z) == OwnSized(t, t.descriptors[i], z)
  {
    var d := t.descriptors[i];
    OccurrencesAreIterations(d);
    BatchesMean(t, d.segmentOffset, d.segmentOffset + d.segmentCount);
  }

  lemma OneBatch(size: int, count: nat, z: int)
    ensures CountOf([Batch(size, count)], z) == if size == z then count else 0
  {
    OneMoreBatch([], Batch(size, count));
    assert [] + [Batch(size, count)] == [Batch(size, count)];
  }

  lemma RequestsMean(t: Table, i: nat, z: int)
    requires i < |t.descriptors| && DescriptorOk(t, i)
    ensures Requests(DescriptorBatches(t, i)) == AllRequests(t, i)
    ensures CountOf(DescriptorBatches(t, i), z) == SizedRequests(t, i, z)
  {
    var d := t.descriptors[i];
    OwnMeans(t, i);
    match RoleOf(d.flags)
    case Follower =>
    case Leader =>
      OneOrderedBatch(d.bytesPerIteration + t.descriptors[i + 1].bytesPerIteration, Occurrences(d));
      OneBatch(d.bytesPerIteration + t.descriptors[i + 1].bytesPerIteration, Occurrences(d), z);
    case Plain =>
      RepeatedTotals(TransferBatches(t, i), Occurrences(d));
  }

  lemma {:induction false} LogicalSums(t: Table, direction: int, n: nat)
    requires n <= |t.descriptors| && AcceptedUpTo(t, n)
    ensures LogicalBytes(t, direction, n) == Over(t, direction, n, BytesMoved(t))
    ensures LogicalTransfers(t, direction, n) == Over(t, direction, n, TransfersMade(t))
  {
    if n > 0 {
      assert DescriptorOk(t, n - 1);
      LogicalSums(t, direction, n - 1);
      OwnMeans(t, n - 1);
    }
  }

  lemma NextBatches(t: Table, direction: int, n: nat, z: int)
    requires 0 < n <= |t.descriptors| && AcceptedUpTo(t, n)
    ensures var own := if t.descriptors[n - 1].direction == direction then AllRequests(t, n - 1) else 0;
            Requests(PhysicalBatches(t, direction, n)) == Requests(PhysicalBatches(t, direction, n - 1)) + own
    ensures var own := if t.descriptors[n - 1].direction == direction then SizedRequests(t, n - 1, z) else 0;
            CountOf(PhysicalBatches(t, direction, n), z) == CountOf(PhysicalBatches(t, direction, n - 1), z) + own
  {
    assert DescriptorOk(t, n - 1);
    RequestsMean(t, n - 1, z);
    if t.descriptors[n - 1].direction == direction {
      Concatenated(PhysicalBatches(t, direction, n - 1), DescriptorBatches(t, n - 1));
    } else {
      assert PhysicalBatches(t, direction, n) == PhysicalBatches(t, direction, n - 1);
    }
  }

  lemma {:induction false} PhysicalSums(t: Table, direction: int, n: nat, z: int)
    requires n <= |t.descriptors| && AcceptedUpTo(t, n)
    ensures Requests(PhysicalBatches(t, direction, n)) == Over(t, direction, n, RequestsMade(t))
    ensures CountOf(PhysicalBatches(t, direction, n), z) == Over(t, direction, n, RequestsSized(t, z))
  {
    if n > 0 {
      PhysicalSums(t, direction, n - 1, z);
      NextBatches(t, direction, n, z);
    }
  }

  /** The totals of one direction of an accepted table: bytes and transfers of every iteration, and the
      requests by size. */
  lemma TotalsMean(t: Table, direction: int, x: Totals)
    requires Accepted(t) && Accounts(t, direction, |t.descriptors|, x)
    ensures var n := |t.descriptors|;
            && x.logicalBytes == x.physicalBytes == Over(t, direction, n, BytesMoved(t))
            && x.logicalTransfers == Over(t, direction, n, TransfersMade(t))
            && x.physicalRequests == Over(t, direction, n, RequestsMade(t))
            && forall z :: Get(x.histogram, z) == Over(t, direction, n, RequestsSized(t, z))
  {
    LogicalSums(t, direction, |t.descriptors|);
    PhysicalSums(t, direction, |t.descriptors|, 0);
    forall z ensures Get(x.histogram, z) == Over(t, direction, |t.descriptors|, RequestsSized(t, z)) {
      PhysicalSums(t, direction, |t.descriptors|, z);
    }
  }
}
