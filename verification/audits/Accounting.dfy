/** The accounting of a descriptor table: the checks in their order, the totals by direction, and the
    final reconciliation, which cannot fail. */
module DmaAccounting {
  import opened Arithmetic
  import opened Options
  import opened Histograms
  import opened DmaTables

  datatype AuditError =
    | DescriptorIds | InvalidDirection | InvalidInterval | SegmentOwner | SegmentRange
    | SegmentIds | SegmentDescriptor | SegmentSize | SegmentDomain | DescriptorBytes
    | OutputFlags | BothRoles | NoLeader | NoFollower | CompactPair
    | CompactTransfers | SegmentsLeft | HistogramRequests | HistogramBytes
    | PackedBytes | PackedRequests | PairMissing | OversizedTransfer | AffineBytes | AffineRequests

  // ---- occurrences ----

  /** range(begin, end, step) */
  function Range(begin: int, end: int, step: int): seq<int>
    requires step > 0
    decreases end - begin
  {
    if begin >= end then [] else [begin] + Range(begin + step, end, step)
  }

  lemma {:induction false} RangeLength(begin: int, end: int, step: int)
    requires step > 0 && begin < end
    ensures |Range(begin, end, step)| == 1 + (end - 1 - begin) / step
    decreases end - begin
  {
    if begin + step >= end {
      assert Range(begin + step, end, step) == [];
      DivisionUnique(end - 1 - begin, step, 0, end - 1 - begin);
    } else {
      RangeLength(begin + step, end, step);
      CeilStep(end - 1 - begin, step);
    }
  }

  /** The occurrence count is the number of iterations of the interval. */
  lemma OccurrencesAreIterations(d: Descriptor)
    requires HasInterval(d)
    ensures Occurrences(d) == |Range(d.iterationBegin, d.iterationEnd, d.iterationStep)|
  {
    RangeLength(d.iterationBegin, d.iterationEnd, d.iterationStep);
  }

  // ---- the segment table ----

  lemma {:induction false} SlicesCover(t: Table, n: nat, j: int)
    requires n <= |t.descriptors| && AcceptedUpTo(t, n) && 0 <= j < SegmentStart(t, n)
    ensures exists i :: 0 <= i < n && t.descriptors[i].segmentOffset <= j < t.descriptors[i].segmentOffset + t.descriptors[i].segmentCount
  {
    assert DescriptorOk(t, n - 1);
    if j < SegmentStart(t, n - 1) {
      SlicesCover(t, n - 1, j);
    }
  }

  /** Every segment of an accepted table belongs to exactly one descriptor, the one it names. */
  lemma SegmentsPartitioned(t: Table, j: int)
    requires Accepted(t) && 0 <= j < |t.segments|
    ensures var owner := t.segments[j].descriptorId;
            && owner < |t.descriptors|
            && forall i :: 0 <= i < |t.descriptors| ==>
                 (t.descriptors[i].segmentOffset <= j < t.descriptors[i].segmentOffset + t.descriptors[i].segmentCount <==> i == owner)
  {
    SlicesCover(t, |t.descriptors|, j);
    var k :| 0 <= k < |t.descriptors| && t.descriptors[k].segmentOffset <= j < t.descriptors[k].segmentOffset + t.descriptors[k].segmentCount;
    assert DescriptorOk(t, k) && SegmentOk(t, k, j);
    forall i | 0 <= i < |t.descriptors| && t.descriptors[i].segmentOffset <= j < t.descriptors[i].segmentOffset + t.descriptors[i].segmentCount
      ensures i == k
    {
      assert DescriptorOk(t, i) && SegmentOk(t, i, j);
    }
  }

  // ---- checking one descriptor ----

  method CheckSegment(t: Table, i: nat, j: nat) returns (error: Option<AuditError>)
    requires j < |t.segments|
    ensures error.None? <==> SegmentOk(t, i, j)
    ensures error.Some? ==> error.value in {SegmentIds, SegmentDescriptor, SegmentSize, SegmentDomain}
  {
    var s := t.segments[j];
    if s.id != j { return Some(SegmentIds); }
    if s.descriptorId != i { return Some(SegmentDescriptor); }
    if !(0 < s.byteSize <= t.maximumFrame) { return Some(SegmentSize); }
    if s.repeatCount <= 0 || s.pieceCount <= 0 { return Some(SegmentDomain); }
    return None;
  }

  /** Adds the transfers of one segment. */
  method AddTransfers(s: Segment, ghost before: seq<Batch>, bytes: nat, transfers: nat, histogram: Histogram)
    returns (moreBytes: nat, moreTransfers: nat, more: Histogram)
    requires bytes == Bytes(before) && transfers == Requests(before) && Describes(histogram, before)
    ensures var after := before + [Batch(s.byteSize, Transfers(s))];
            moreBytes == Bytes(after) && moreTransfers == Requests(after) && Describes(more, after)
  {
    var count := s.repeatCount * s.pieceCount;
    TransfersAre(s);
    OneMoreBatch(before, Batch(s.byteSize, count));
    moreTransfers, moreBytes := transfers + count, bytes + s.byteSize * count;
    more := AddHistogramCount(histogram, s.byteSize, count);
    DescribesMore(histogram, more, before, Batch(s.byteSize, count));
  }

  /** The segments of one descriptor: their batches, or what is wrong with them. */
  method CheckSegments(t: Table, i: nat) returns (error: Option<AuditError>, bytes: nat, transfers: nat, histogram: Histogram)
    requires i < |t.descriptors| && SliceOk(t, i)
    ensures var d := t.descriptors[i];
            error.None? <==> forall j :: d.segmentOffset <= j < d.segmentOffset + d.segmentCount ==> SegmentOk(t, i, j)
    ensures error.None? ==> bytes == Bytes(TransferBatches(t, i)) && transfers == Requests(TransferBatches(t, i))
    ensures error.None? ==> Describes(histogram, TransferBatches(t, i))
    ensures error.Some? ==> error.value in {SegmentIds, SegmentDescriptor, SegmentSize, SegmentDomain}
  {
    var d := t.descriptors[i];
    bytes, transfers, histogram := 0, 0, map[];
    for j := d.segmentOffset to d.segmentOffset + d.segmentCount
      invariant forall k :: d.segmentOffset <= k < j ==> SegmentOk(t, i, k)
      invariant bytes == Bytes(SegmentBatches(t, d.segmentOffset, j)) && transfers == Requests(SegmentBatches(t, d.segmentOffset, j))
      invariant Describes(histogram, SegmentBatches(t, d.segmentOffset, j))
    {
      error := CheckSegment(t, i, j);
      if error.Some? { return; }
      bytes, transfers, histogram := AddTransfers(t.segments[j], SegmentBatches(t, d.segmentOffset, j), bytes, transfers, histogram);
    }
    error := None;
  }

  /** The compact roles of one descriptor. */
  method CheckFlags(t: Table, i: nat, transfers: nat) returns (error: Option<AuditError>)
    requires i < |t.descriptors| && SliceOk(t, i) && transfers == Requests(TransferBatches(t, i))
    requires var d := t.descriptors[i];
             forall j :: d.segmentOffset <= j < d.segmentOffset + d.segmentCount ==> SegmentOk(t, i, j)
    requires t.descriptors[i].direction == INPUT || t.descriptors[i].direction == OUTPUT
    ensures error.None? <==> FlagsOk(t, i)
    ensures error.Some? ==> error.value in {OutputFlags, BothRoles, NoLeader, NoFollower, CompactPair}
  {
    var d := t.descriptors[i];
    var role := RoleOf(d.flags);
    if d.direction != INPUT && role != Plain { return Some(OutputFlags); }
    if role == Both { return Some(BothRoles); }
    if role == Follower {
      if i == 0 || RoleOf(t.descriptors[i - 1].flags) != Leader { return Some(NoLeader); }
      if !IsCompactPair(t, i - 1) { return Some(CompactPair); }
      OneTransfer(t, i);
      if transfers != 1 { return Some(CompactTransfers); }
    } else if role == Leader {
      if i + 1 >= |t.descriptors| || RoleOf(t.descriptors[i + 1].flags) != Follower { return Some(NoFollower); }
      if !IsCompactPair(t, i) { return Some(CompactPair); }
      OneTransfer(t, i);
      if transfers != 1 { return Some(CompactTransfers); }
    }
    return None;
  }

  /** A member of a validated pair is a single transfer: the check after the validation cannot fail. */
  lemma OneTransfer(t: Table, i: nat)
    requires i < |t.descriptors| && SliceOk(t, i) && t.descriptors[i].segmentCount == 1
    requires var s := t.segments[t.descriptors[i].segmentOffset]; s.repeatCount == 1 && s.pieceCount == 1
    ensures Requests(TransferBatches(t, i)) == 1
  {
    var d := t.descriptors[i];
    assert SegmentBatches(t, d.segmentOffset, d.segmentOffset) == [];
    OneOrderedBatch(t.segments[d.segmentOffset].byteSize, 1);
    assert SegmentBatches(t, d.segmentOffset, d.segmentOffset + 1) == [] + [Batch(t.segments[d.segmentOffset].byteSize, 1)];
  }

  /** All checks of one descriptor. */
  method CheckDescriptor(t: Table, i: nat, expectedOffset: nat)
    returns (error: Option<AuditError>, bytes: nat, transfers: nat, histogram: Histogram)
    requires i < |t.descriptors| && expectedOffset == SegmentStart(t, i)
    ensures error.None? <==> DescriptorOk(t, i)
    ensures error.None? ==> bytes == t.descriptors[i].bytesPerIteration && transfers == Requests(TransferBatches(t, i))
    ensures error.None? ==> Describes(histogram, TransferBatches(t, i))
    ensures error.Some? ==> error.value !in {CompactTransfers, SegmentsLeft, HistogramRequests, HistogramBytes, PackedBytes,
                                             PackedRequests, PairMissing, OversizedTransfer, AffineBytes, AffineRequests}
  {
    var d := t.descriptors[i];
    bytes, transfers, histogram := 0, 0, map[];
    if d.id != i { return Some(DescriptorIds), bytes, transfers, histogram; }
    if d.direction != INPUT && d.direction != OUTPUT { return Some(InvalidDirection), bytes, transfers, histogram; }
    if d.iterationEnd <= d.iterationBegin || d.iterationStep <= 0 { return Some(InvalidInterval), bytes, transfers, histogram; }
    if d.segmentOffset != expectedOffset || d.segmentCount <= 0 { return Some(SegmentOwner), bytes, transfers, histogram; }
    if d.segmentOffset + d.segmentCount > |t.segments| { return Some(SegmentRange), bytes, transfers, histogram; }
    error, bytes, transfers, histogram := CheckSegments(t, i);
    if error.Some? { return; }
    if bytes != d.bytesPerIteration { return Some(DescriptorBytes), bytes, transfers, histogram; }
    error := CheckFlags(t, i, transfers);
  }

  // ---- totals ----

  datatype Totals = Totals(descriptors: nat, logicalBytes: nat, logicalTransfers: nat, physicalBytes: nat, physicalRequests: nat,
                           histogram: Histogram)

  /** The totals of one direction over the first n descriptors. */
  ghost predicate Accounts(t: Table, direction: int, n: nat, x: Totals) {
    && n <= |t.descriptors| && AcceptedUpTo(t, n)
    && x.descriptors == DescriptorCount(t, direction, n)
    && x.logicalBytes == LogicalBytes(t, direction, n) && x.physicalBytes == LogicalBytes(t, direction, n)
    && x.logicalTransfers == LogicalTransfers(t, direction, n)
    && x.physicalRequests == Requests(PhysicalBatches(t, direction, n))
    && Describes(x.histogram, PhysicalBatches(t, direction, n))
  }

  /** A compact leader: as many requests of the pair's size as there are occurrences. */
  method AddPair(size: nat, occurrences: nat, histogram: Histogram, ghost before: seq<Batch>) returns (r: Histogram)
    requires Describes(histogram, before)
    ensures Describes(r, before + [Batch(size, occurrences)]) && Requests([Batch(size, occurrences)]) == occurrences
  {
    r := AddHistogramCount(histogram, size, occurrences);
    DescribesMore(histogram, r, before, Batch(size, occurrences));
    OneOrderedBatch(size, occurrences);
  }

  /** Any other descriptor: its transfers once for each occurrence. */
  method AddOccurrences(perOccurrence: Histogram, transfers: nat, occurrences: nat, histogram: Histogram,
                        ghost batches: seq<Batch>, ghost before: seq<Batch>)
    returns (requests: nat, r: Histogram)
    requires Describes(perOccurrence, batches) && transfers == Requests(batches) && Describes(histogram, before)
    ensures requests == Requests(Repeated(batches, occurrences)) && Describes(r, before + Repeated(batches, occurrences))
  {
    requests := occurrences * transfers;
    RepeatedSums(batches, occurrences);
    r := AddAll(histogram, perOccurrence, occurrences);
    DescribesAll(histogram, perOccurrence, r, before, batches, occurrences);
  }

  /** Adds the requests of one descriptor to the histogram of its direction. */
  method AddRequests(t: Table, i: nat, transfers: nat, perOccurrence: Histogram, histogram: Histogram, ghost before: seq<Batch>)
    returns (requests: nat, r: Histogram)
    requires i < |t.descriptors| && DescriptorOk(t, i) && transfers == Requests(TransferBatches(t, i))
    requires Describes(perOccurrence, TransferBatches(t, i)) && Describes(histogram, before)
    ensures requests == Requests(DescriptorBatches(t, i))
    ensures Describes(r, before + DescriptorBatches(t, i))
  {
    var d := t.descriptors[i];
    match RoleOf(d.flags)
    case Follower =>
      requests, r := 0, histogram;
      assert before + [] == before;
    case Leader =>
      requests := Occurrences(d);
      r := AddPair(d.bytesPerIteration + t.descriptors[i + 1].bytesPerIteration, requests, histogram, before);
    case Plain =>
      requests, r := AddOccurrences(perOccurrence, transfers, Occurrences(d), histogram, TransferBatches(t, i), before);
  }

  lemma NextAccepted(t: Table, i: nat)
    requires i < |t.descriptors| && AcceptedUpTo(t, i) && DescriptorOk(t, i)
    ensures AcceptedUpTo(t, i + 1)
  {
  }

  lemma NextTotals(t: Table, i: nat)
    requires i < |t.descriptors| && AcceptedUpTo(t, i) && AcceptedUpTo(t, i + 1) && DescriptorOk(t, i)
    ensures var direction := t.descriptors[i].direction;
            && DescriptorCount(t, direction, i + 1) == DescriptorCount(t, direction, i) + 1
            && LogicalBytes(t, direction, i + 1) == LogicalBytes(t, direction, i) + Occurrences(t.descriptors[i]) * t.descriptors[i].bytesPerIteration
            && LogicalTransfers(t, direction, i + 1)
               == LogicalTransfers(t, direction, i) + Occurrences(t.descriptors[i]) * Requests(TransferBatches(t, i))
            && PhysicalBatches(t, direction, i + 1) == PhysicalBatches(t, direction, i) + DescriptorBatches(t, i)
            && Requests(PhysicalBatches(t, direction, i + 1)) == Requests(PhysicalBatches(t, direction, i)) + Requests(DescriptorBatches(t, i))
  {
    Concatenated(PhysicalBatches(t, t.descriptors[i].direction, i), DescriptorBatches(t, i));
  }

  /** The totals of the direction of the next descriptor, including it. */
  method Accumulate(t: Table, i: nat, x: Totals, bytes: nat, transfers: nat, perOccurrence: Histogram) returns (y: Totals)
    requires i < |t.descriptors| && DescriptorOk(t, i) && Accounts(t, t.descriptors[i].direction, i, x)
    requires bytes == t.descriptors[i].bytesPerIteration && transfers == Requests(TransferBatches(t, i))
    requires Describes(perOccurrence, TransferBatches(t, i))
    ensures Accounts(t, t.descriptors[i].direction, i + 1, y)
  {
    var d := t.descriptors[i];
    var logicalBytes, logicalTransfers := Occurrences(d) * bytes, Occurrences(d) * transfers;
    ghost var before := PhysicalBatches(t, d.direction, i);
    NextAccepted(t, i);
    NextTotals(t, i);
    var requests, histogram := AddRequests(t, i, transfers, perOccurrence, x.histogram, before);
    y := Totals(x.descriptors + 1, x.logicalBytes + logicalBytes, x.logicalTransfers + logicalTransfers, x.physicalBytes + logicalBytes,
                x.physicalRequests + requests, histogram);
  }

  lemma OtherDirection(t: Table, direction: int, i: nat, x: Totals)
    requires i < |t.descriptors| && DescriptorOk(t, i) && t.descriptors[i].direction != direction
    requires Accounts(t, direction, i, x)
    ensures Accounts(t, direction, i + 1, x)
  {
    assert PhysicalBatches(t, direction, i + 1) == PhysicalBatches(t, direction, i) + [];
    assert PhysicalBatches(t, direction, i + 1) == PhysicalBatches(t, direction, i);
  }

  /** Recomputes the totals of one histogram; for an accepted table they agree. */
  method CheckHistogram(t: Table, direction: int, x: Totals) returns (error: Option<AuditError>)
    requires Accepted(t) && Accounts(t, direction, |t.descriptors|, x)
    ensures error.None?
  {
    HistogramTotals(x.histogram, PhysicalBatches(t, direction, |t.descriptors|));
    BytesReconcile(t, direction);
    var requests, bytes := Reconcile(x.histogram);
    if requests != x.physicalRequests { return Some(HistogramRequests); }
    if bytes != x.physicalBytes { return Some(HistogramBytes); }
    return None;
  }

  /** The loop over the descriptors and the two final checks. */
  method AccountTable(t: Table) returns (error: Option<AuditError>, input: Totals, output: Totals)
    ensures error.None? <==> Accepted(t)
    ensures error.None? ==> Accounts(t, INPUT, |t.descriptors|, input) && Accounts(t, OUTPUT, |t.descriptors|, output)
    ensures error.Some? ==> error.value !in {CompactTransfers, HistogramRequests, HistogramBytes, PackedBytes, PackedRequests, PairMissing,
                                             OversizedTransfer, AffineBytes, AffineRequests}
  {
    var none := Totals(0, 0, 0, 0, 0, map[]);
    input, output := none, none;
    var expectedOffset: nat := 0;
    for i := 0 to |t.descriptors|
      invariant AcceptedUpTo(t, i) && expectedOffset == SegmentStart(t, i)
      invariant Accounts(t, INPUT, i, input) && Accounts(t, OUTPUT, i, output)
    {
      var bytes, transfers, histogram;
      error, bytes, transfers, histogram := CheckDescriptor(t, i, expectedOffset);
      if error.Some? { return; }
      if t.descriptors[i].direction == INPUT {
        input := Accumulate(t, i, input, bytes, transfers, histogram);
        OtherDirection(t, OUTPUT, i, output);
      } else {
        output := Accumulate(t, i, output, bytes, transfers, histogram);
        OtherDirection(t, INPUT, i, input);
      }
      expectedOffset := t.descriptors[i].segmentOffset + t.descriptors[i].segmentCount;
    }
    if expectedOffset != |t.segments| { return Some(SegmentsLeft), input, output; }
    error := CheckHistogram(t, INPUT, input);
    if error.Some? { return; }
    error := CheckHistogram(t, OUTPUT, output);
  }
}
