/** DMA descriptor and segment tables: when a table is accepted, which requests it stands for, and which
    neighboring input descriptors may share a request. */
module DmaTables {
  import opened Arithmetic
  import opened Histograms

  datatype Descriptor = Descriptor(
    id: nat, direction: nat, operationId: nat, portNumber: nat, epochId: nat, workUnitId: nat, tensorId: nat, flags: nat,
    loopId: nat, templateKind: nat, iterationBegin: nat, iterationEnd: nat, iterationStep: nat,
    scratchpadRingBase: nat, scratchpadSlotStride: nat, ringSlots: nat,
    segmentOffset: nat, segmentCount: nat, bytesPerIteration: nat)

  datatype Segment = Segment(
    id: nat, descriptorId: nat, relationId: nat, relationPieceOrdinal: nat, globalResourceId: nat,
    byteSize: nat, repeatCount: nat, pieceCount: nat,
    globalByteOffset: nat, globalIterationStride: nat, scratchpadByteOffset: nat,
    globalRepeatStride: nat, scratchpadRepeatStride: nat, globalPieceStride: nat, scratchpadPieceStride: nat,
    scratchpadIterationStride: nat)

  datatype Table = Table(descriptors: seq<Descriptor>, segments: seq<Segment>, maximumFrame: nat)

  const INPUT := 0
  const OUTPUT := 1

  // ---- flags ----

  datatype Role = Plain | Leader | Follower | Both

  /** Bits 4 and 5 of the flags. */
  function RoleOf(flags: nat): Role {
    if flags / 16 % 2 == 1 then if flags / 32 % 2 == 1 then Both else Leader
    else if flags / 32 % 2 == 1 then Follower else Plain
  }

  /** The flags without bits 4 and 5. */
  function OtherFlags(flags: nat): int {
    flags - flags / 16 % 2 * 16 - flags / 32 % 2 * 32
  }

  // ---- iterations ----

  predicate HasInterval(d: Descriptor) {
    d.iterationBegin < d.iterationEnd && d.iterationStep > 0
  }

  function Occurrences(d: Descriptor): nat
    requires HasInterval(d)
  {
    1 + (d.iterationEnd - 1 - d.iterationBegin) / d.iterationStep
  }

  // ---- joins ----

  /** Descriptors that agree on everything that one request must have in common. */
  predicate SameTemplate(l: Descriptor, r: Descriptor) {
    && l.operationId == r.operationId && l.epochId == r.epochId && l.workUnitId == r.workUnitId && l.tensorId == r.tensorId
    && l.loopId == r.loopId && l.templateKind == r.templateKind
    && l.iterationBegin == r.iterationBegin && l.iterationEnd == r.iterationEnd && l.iterationStep == r.iterationStep
    && l.scratchpadSlotStride == r.scratchpadSlotStride && l.ringSlots == r.ringSlots
  }

  predicate SameRelation(l: Segment, r: Segment) {
    && l.relationId == r.relationId && l.relationPieceOrdinal == r.relationPieceOrdinal && l.globalResourceId == r.globalResourceId
    && l.globalIterationStride == r.globalIterationStride && l.scratchpadIterationStride == r.scratchpadIterationStride
    && l.globalRepeatStride == r.globalRepeatStride && l.scratchpadRepeatStride == r.scratchpadRepeatStride
    && l.globalPieceStride == r.globalPieceStride && l.scratchpadPieceStride == r.scratchpadPieceStride
  }

  /** The second transfer begins where the first ends, on both sides. */
  predicate Adjacent(l: Descriptor, r: Descriptor, left: Segment, right: Segment) {
    && left.globalByteOffset + left.byteSize == right.globalByteOffset
    && l.scratchpadRingBase + left.scratchpadByteOffset + left.byteSize == r.scratchpadRingBase + right.scratchpadByteOffset
  }

  /** An input descriptor that is one request in each iteration. */
  predicate IsSingleRequest(t: Table, d: Descriptor) {
    && d.direction == INPUT && d.segmentCount == 1 && d.segmentOffset < |t.segments|
    && 0 < d.bytesPerIteration <= t.maximumFrame
    && var s := t.segments[d.segmentOffset];
       s.descriptorId == d.id && s.repeatCount == 1 && s.pieceCount == 1 && s.byteSize == d.bytesPerIteration
  }

  /** Descriptors i and i+1 may share a request; the compact roles do not matter. */
  predicate Joins(t: Table, i: int)
    requires 0 <= i && i + 1 < |t.descriptors|
  {
    var l, r := t.descriptors[i], t.descriptors[i + 1];
    && IsSingleRequest(t, l) && IsSingleRequest(t, r)
    && r.id == l.id + 1 && OtherFlags(l.flags) == OtherFlags(r.flags) && SameTemplate(l, r)
    && r.portNumber == l.portNumber + 1 && r.segmentOffset == l.segmentOffset + 1
    && SameRelation(t.segments[l.segmentOffset], t.segments[r.segmentOffset])
    && Adjacent(l, r, t.segments[l.segmentOffset], t.segments[r.segmentOffset])
  }

  /** Descriptors i and i+1 form a canonical compact pair. */
  predicate IsCompactPair(t: Table, i: int)
    requires 0 <= i && i + 1 < |t.descriptors|
  {
    var l, f := t.descriptors[i], t.descriptors[i + 1];
    && f.id == l.id + 1 && l.direction == INPUT && f.direction == INPUT
    && RoleOf(l.flags) == Leader && RoleOf(f.flags) == Follower && OtherFlags(l.flags) == OtherFlags(f.flags)
    && SameTemplate(l, f) && f.portNumber == l.portNumber + 1
    && l.segmentCount == 1 && f.segmentCount == 1 && f.segmentOffset == l.segmentOffset + 1
    && l.segmentOffset < |t.segments| && f.segmentOffset < |t.segments|
    && 0 < l.bytesPerIteration <= t.maximumFrame && 0 < f.bytesPerIteration <= t.maximumFrame - l.bytesPerIteration
    && var left, right := t.segments[l.segmentOffset], t.segments[f.segmentOffset];
       && left.descriptorId == l.id && right.descriptorId == f.id
       && left.repeatCount == 1 && right.repeatCount == 1 && left.pieceCount == 1 && right.pieceCount == 1
       && left.byteSize == l.bytesPerIteration && right.byteSize == f.bytesPerIteration
       && SameRelation(left, right) && Adjacent(l, f, left, right)
  }

  /** A compact pair may always share a request, and fits into one frame. */
  lemma CompactPairJoins(t: Table, i: int)
    requires 0 <= i && i + 1 < |t.descriptors| && IsCompactPair(t, i)
    ensures Joins(t, i)
    ensures t.descriptors[i].bytesPerIteration + t.descriptors[i + 1].bytesPerIteration <= t.maximumFrame
  {
  }

  // ---- accepted tables ----

  function SegmentStart(t: Table, i: nat): int
    requires i <= |t.descriptors|
  {
    if i == 0 then 0 else t.descriptors[i - 1].segmentOffset + t.descriptors[i - 1].segmentCount
  }

  predicate SegmentOk(t: Table, i: int, j: int)
    requires 0 <= j < |t.segments|
  {
    var s := t.segments[j];
    s.id == j && s.descriptorId == i && 0 < s.byteSize <= t.maximumFrame && s.repeatCount > 0 && s.pieceCount > 0
  }

  /** The transfers of a segment: so many pieces in every repetition. */
  function Transfers(s: Segment): nat {
    Times(s.repeatCount, s.pieceCount)
  }

  lemma TransfersAre(s: Segment)
    ensures Transfers(s) == s.repeatCount * s.pieceCount
  {
    TimesIs(s.repeatCount, s.pieceCount);
  }

  /** The requests of segments lo .. hi-1, one for each transfer. */
  function SegmentBatches(t: Table, lo: int, hi: int): seq<Batch>
    requires 0 <= lo <= hi <= |t.segments|
    decreases hi - lo
  {
    if lo == hi then []
    else SegmentBatches(t, lo, hi - 1) + [Batch(t.segments[hi - 1].byteSize, Transfers(t.segments[hi - 1]))]
  }

  predicate SliceOk(t: Table, i: int)
    requires 0 <= i < |t.descriptors|
  {
    var d := t.descriptors[i];
    && d.segmentOffset == SegmentStart(t, i) && d.segmentCount > 0
    && d.segmentOffset + d.segmentCount <= |t.segments|
  }

  /** The requests of one occurrence, one for each transfer. */
  function TransferBatches(t: Table, i: int): seq<Batch>
    requires 0 <= i < |t.descriptors| && SliceOk(t, i)
  {
    var d := t.descriptors[i];
    SegmentBatches(t, d.segmentOffset, d.segmentOffset + d.segmentCount)
  }

  predicate FlagsOk(t: Table, i: int)
    requires 0 <= i < |t.descriptors|
  {
    var d, n := t.descriptors[i], |t.descriptors|;
    && (d.direction != INPUT ==> RoleOf(d.flags) == Plain)
    && match RoleOf(d.flags)
       case Plain => true
       case Both => false
       case Follower => i > 0 && RoleOf(t.descriptors[i - 1].flags) == Leader && IsCompactPair(t, i - 1)
       case Leader => i + 1 < n && RoleOf(t.descriptors[i + 1].flags) == Follower && IsCompactPair(t, i)
  }

  predicate DescriptorOk(t: Table, i: int)
    requires 0 <= i < |t.descriptors|
  {
    var d := t.descriptors[i];
    && d.id == i && (d.direction == INPUT || d.direction == OUTPUT) && HasInterval(d)
    && SliceOk(t, i)
    && (forall j :: d.segmentOffset <= j < d.segmentOffset + d.segmentCount ==> SegmentOk(t, i, j))
    && Bytes(TransferBatches(t, i)) == d.bytesPerIteration
    && FlagsOk(t, i)
  }

  /** The first n descriptors are accepted. */
  predicate AcceptedUpTo(t: Table, n: nat)
    requires n <= |t.descriptors|
  {
    forall i :: 0 <= i < n ==> DescriptorOk(t, i)
  }

  predicate Accepted(t: Table) {
    AcceptedUpTo(t, |t.descriptors|) && SegmentStart(t, |t.descriptors|) == |t.segments|
  }

  // ---- what an accepted table stands for ----

  /** The physical requests of a descriptor: a compact leader stands for the pair, its follower for none. */
  function DescriptorBatches(t: Table, i: int): seq<Batch>
    requires 0 <= i < |t.descriptors| && DescriptorOk(t, i)
  {
    var d := t.descriptors[i];
    match RoleOf(d.flags)
    case Follower => []
    case Leader => [Batch(d.bytesPerIteration + t.descriptors[i + 1].bytesPerIteration, Occurrences(d))]
    case Plain => Repeated(TransferBatches(t, i), Occurrences(d))
  }

  /** The physical requests in one direction of the first n descriptors. */
  function PhysicalBatches(t: Table, direction: int, n: nat): seq<Batch>
    requires n <= |t.descriptors| && AcceptedUpTo(t, n)
  {
    if n == 0 then []
    else
      assert DescriptorOk(t, n - 1);
      PhysicalBatches(t, direction, n - 1) + if t.descriptors[n - 1].direction == direction then DescriptorBatches(t, n - 1) else []
  }

  function DescriptorCount(t: Table, direction: int, n: nat): nat
    requires n <= |t.descriptors|
  {
    if n == 0 then 0 else DescriptorCount(t, direction, n - 1) + if t.descriptors[n - 1].direction == direction then 1 else 0
  }

  function BytesOfDescriptor(t: Table, i: int): nat
    requires 0 <= i < |t.descriptors| && HasInterval(t.descriptors[i])
  {
    Occurrences(t.descriptors[i]) * t.descriptors[i].bytesPerIteration
  }

  /** The bytes moved in one direction by the first n descriptors. */
  function LogicalBytes(t: Table, direction: int, n: nat): nat
    requires n <= |t.descriptors| && AcceptedUpTo(t, n)
  {
    if n == 0 then 0
    else
      assert DescriptorOk(t, n - 1);
      LogicalBytes(t, direction, n - 1) + if t.descriptors[n - 1].direction == direction then BytesOfDescriptor(t, n - 1) else 0
  }

  function TransfersOfDescriptor(t: Table, i: int): nat
    requires 0 <= i < |t.descriptors| && HasInterval(t.descriptors[i]) && SliceOk(t, i)
  {
    Occurrences(t.descriptors[i]) * Requests(TransferBatches(t, i))
  }

  function LogicalTransfers(t: Table, direction: int, n: nat): nat
    requires n <= |t.descriptors| && AcceptedUpTo(t, n)
  {
    if n == 0 then 0
    else
      assert DescriptorOk(t, n - 1);
      LogicalTransfers(t, direction, n - 1) + if t.descriptors[n - 1].direction == direction then TransfersOfDescriptor(t, n - 1) else 0
  }

  /** What the histogram of a direction is ahead of the bytes between a leader and its follower. */
  function Ahead(t: Table, direction: int, n: nat): nat
    requires n <= |t.descriptors| && AcceptedUpTo(t, n)
  {
    if n > 0 && t.descriptors[n - 1].direction == direction && RoleOf(t.descriptors[n - 1].flags) == Leader
    then
      assert DescriptorOk(t, n - 1);
      Occurrences(t.descriptors[n - 1]) * t.descriptors[n].bytesPerIteration
    else 0
  }

  lemma OneOrderedBatch(size: int, count: nat)
    ensures Bytes([Batch(size, count)]) == size * count && Requests([Batch(size, count)]) == count
  {
    OneMoreBatch([], Batch(size, count));
    assert [] + [Batch(size, count)] == [Batch(size, count)];
  }

  lemma BatchBytes(t: Table, i: int)
    requires 0 <= i < |t.descriptors| && DescriptorOk(t, i)
    ensures var d := t.descriptors[i];
            Bytes(DescriptorBatches(t, i)) ==
            match RoleOf(d.flags)
            case Follower => 0
            case Leader => Occurrences(d) * d.bytesPerIteration + Occurrences(d) * t.descriptors[i + 1].bytesPerIteration
            case Plain => Occurrences(d) * d.bytesPerIteration
  {
    var d := t.descriptors[i];
    match RoleOf(d.flags)
    case Follower =>
    case Leader =>
      var next := t.descriptors[i + 1].bytesPerIteration;
      OneOrderedBatch(d.bytesPerIteration + next, Occurrences(d));
      Distribute(Occurrences(d), d.bytesPerIteration, next);
    case Plain =>
      RepeatedTotals(TransferBatches(t, i), Occurrences(d));
  }

  /** A follower comes right after its leader, with as many occurrences; nothing else does. */
  lemma LeaderThenFollower(t: Table, i: int)
    requires 0 < i < |t.descriptors| && DescriptorOk(t, i - 1) && DescriptorOk(t, i)
    ensures RoleOf(t.descriptors[i].flags) == Follower <==> RoleOf(t.descriptors[i - 1].flags) == Leader
    ensures RoleOf(t.descriptors[i].flags) == Follower ==>
              t.descriptors[i - 1].direction == t.descriptors[i].direction == INPUT
              && Occurrences(t.descriptors[i - 1]) == Occurrences(t.descriptors[i])
  {
  }

  /** One descriptor more: what its requests move beyond its own bytes is what is ahead afterwards,
      less what was ahead before. */
  lemma OneDescriptorAhead(t: Table, direction: int, n: nat)
    requires n < |t.descriptors| && AcceptedUpTo(t, n + 1) && t.descriptors[n].direction == direction
    ensures DescriptorOk(t, n)
    ensures Bytes(DescriptorBatches(t, n)) + Ahead(t, direction, n) == BytesOfDescriptor(t, n) + Ahead(t, direction, n + 1)
  {
    assert DescriptorOk(t, n);
    BatchBytes(t, n);
    if n > 0 {
      assert DescriptorOk(t, n - 1);
      LeaderThenFollower(t, n);
    }
  }

  /** A descriptor of the other direction never stands between a leader and its follower. */
  lemma NothingAhead(t: Table, direction: int, n: nat)
    requires n < |t.descriptors| && AcceptedUpTo(t, n + 1) && t.descriptors[n].direction != direction
    ensures Ahead(t, direction, n) == 0 && Ahead(t, direction, n + 1) == 0
  {
    assert DescriptorOk(t, n);
    if n > 0 {
      assert DescriptorOk(t, n - 1);
      LeaderThenFollower(t, n);
    }
  }

  lemma {:induction false} BytesBalance(t: Table, direction: int, n: nat)
    requires n <= |t.descriptors| && AcceptedUpTo(t, n)
    ensures Bytes(PhysicalBatches(t, direction, n)) == LogicalBytes(t, direction, n) + Ahead(t, direction, n)
  {
    if n > 0 {
      BytesBalance(t, direction, n - 1);
      if t.descriptors[n - 1].direction == direction {
        OneDescriptorAhead(t, direction, n - 1);
        Concatenated(PhysicalBatches(t, direction, n - 1), DescriptorBatches(t, n - 1));
      } else {
        NothingAhead(t, direction, n - 1);
        assert PhysicalBatches(t, direction, n) == PhysicalBatches(t, direction, n - 1);
      }
    }
  }

  /** In an accepted table the physical requests move exactly the logical bytes. */
  lemma BytesReconcile(t: Table, direction: int)
    requires Accepted(t)
    ensures Bytes(PhysicalBatches(t, direction, |t.descriptors|)) == LogicalBytes(t, direction, |t.descriptors|)
  {
    var n := |t.descriptors|;
    BytesBalance(t, direction, n);
    if n > 0 {
      assert DescriptorOk(t, n - 1);
    }
  }
}
