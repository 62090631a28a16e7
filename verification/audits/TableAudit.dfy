/** The loops of the affine audit, and the descriptor accounting that ends with both audits. */
module TableAudit {
  import opened Arithmetic
  import opened Options
  import opened Histograms
  import opened DmaTables
  import opened DmaAccounting
  import opened Copies
  import opened AffineAudit
  import opened AffineTable
  import opened AffineTallies
  import opened AffineCounters
  import RunCounters
  import RunAudit
  import RunPacking

  /** Counts a segment when packing saves it a request. */
  method AddSegment(t: Table, j: nat, occurrences: nat, requests: nat, choice: Choice, widest: nat, tally: Tally) returns (more: Tally)
    requires j < |t.segments| && t.segments[j].byteSize > 0 && tally.widest >= 1
    requires requests == |Packed(t.segments[j], t.maximumFrame, 0, 0)|
    requires choice == ChoiceOf(StrategyOf(t.segments[j], t.maximumFrame)) && widest == WidestOf(t.segments[j], t.maximumFrame)
    ensures more == Plus(tally, SegmentTallies(t, occurrences)(j))
  {
    more := tally;
    if requests < Transfers(t.segments[j]) {
      TimesIs(occurrences, Transfers(t.segments[j]));
      TimesIs(occurrences, requests);
      more := Plus(tally, Tally(1, if choice == FullyLinear then 1 else 0, if choice == PieceRows then 1 else 0,
                                if choice == RepeatRow then 1 else 0, occurrences * Transfers(t.segments[j]),
                                occurrences * requests, widest));
    }
  }

  /** One segment of a descriptor. */
  method PackNext(t: Table, j: nat, occurrences: nat, h: Histogram, sofar: Tally, ghost before: seq<Batch>, ghost packed: seq<Batch>)
    returns (error: Option<AuditError>, r: Histogram, tally: Tally)
    requires j < |t.segments| && 0 < t.segments[j].byteSize <= t.maximumFrame && sofar.widest >= 1
    requires Describes(h, before + Repeated(packed, occurrences))
    ensures error.None? && tally == Plus(sofar, SegmentTallies(t, occurrences)(j))
    ensures Describes(r, before + Repeated(packed + Sized(Packed(t.segments[j], t.maximumFrame, 0, 0)), occurrences))
  {
    var local, requests, choice, widest;
    error, local, requests, choice, widest := PackSegment(t.segments[j], t.maximumFrame, 0, 0);
    ghost var one := Sized(Packed(t.segments[j], t.maximumFrame, 0, 0));
    r := AddAll(h, local, occurrences);
    DescribesAll(h, local, r, before + Repeated(packed, occurrences), one, occurrences);
    DescribesJoin(r, before, packed, one, occurrences);
    tally := AddSegment(t, j, occurrences, requests, choice, widest, sofar);
  }

  /** Repeating one after the other counts like repeating both. */
  lemma DescribesJoin(h: Histogram, before: seq<Batch>, packed: seq<Batch>, more: seq<Batch>, times: nat)
    requires Describes(h, before + Repeated(packed, times) + Repeated(more, times))
    ensures Describes(h, before + Repeated(packed + more, times))
  {
    Concatenated(before + Repeated(packed, times), Repeated(more, times));
    Concatenated(before, Repeated(packed, times));
    Concatenated(before, Repeated(packed + more, times));
    forall z ensures Get(h, z) == CountOf(before + Repeated(packed + more, times), z) {
      assert Get(h, z) == CountOf(before + Repeated(packed, times) + Repeated(more, times), z);
      RepeatedJoin(packed, more, times, z);
    }
  }

  lemma RepeatedJoin(packed: seq<Batch>, more: seq<Batch>, times: nat, z: int)
    ensures CountOf(Repeated(packed + more, times), z) == CountOf(Repeated(packed, times), z) + CountOf(Repeated(more, times), z)
  {
    RepeatedTotals(packed, times);
    RepeatedTotals(more, times);
    RepeatedTotals(packed + more, times);
    Concatenated(packed, more);
    Distribute(times, CountOf(packed, z), CountOf(more, z));
  }

  lemma OneMoreGathered(f: int -> Tally, lo: int, j: int)
    requires lo <= j
    ensures Gather(f, lo, j + 1) == Plus(Gather(f, lo, j), f(j))
  {
  }

  /** What has been packed, and tallied, once the segments before number j are done. */
  ghost predicate RangeAt(t: Table, lo: int, occurrences: nat, before: seq<Batch>, done: int -> seq<Batch>, sums: int -> Tally, j: int) {
    done(j) == before + Repeated(SegmentsPacked(t, lo, j), occurrences) && sums(j) == Gather(SegmentTallies(t, occurrences), lo, j)
  }

  /** One more segment of a range. */
  method PackOneMore(t: Table, lo: int, j: int, occurrences: nat, h: Histogram, sofar: Tally, ghost before: seq<Batch>,
                     ghost done: int -> seq<Batch>, ghost sums: int -> Tally)
    returns (error: Option<AuditError>, r: Histogram, tally: Tally)
    requires lo <= j && 0 <= j < |t.segments| && 0 < t.segments[j].byteSize <= t.maximumFrame
    requires RangeAt(t, lo, occurrences, before, done, sums, j) && RangeAt(t, lo, occurrences, before, done, sums, j + 1)
    requires 0 <= lo && sofar == sums(j) && Describes(h, done(j))
    ensures error.None? && tally == sums(j + 1) && Describes(r, done(j + 1))
  {
    OneMorePacked(t, lo, j);
    OneMoreGathered(SegmentTallies(t, occurrences), lo, j);
    error, r, tally := PackNext(t, j, occurrences, h, sofar, before, SegmentsPacked(t, lo, j));
  }

  /** A range of segments. */
  method PackRange(t: Table, lo: int, hi: int, occurrences: nat, h: Histogram, ghost before: seq<Batch>,
                   ghost done: int -> seq<Batch>, ghost sums: int -> Tally)
    returns (error: Option<AuditError>, r: Histogram, tally: Tally)
    requires 0 <= lo <= hi <= |t.segments| && forall j :: lo <= j < hi ==> 0 < t.segments[j].byteSize <= t.maximumFrame
    requires forall j :: RangeAt(t, lo, occurrences, before, done, sums, j)
    requires sums(lo) == NOTHING && Describes(h, done(lo))
    ensures error.None? && tally == sums(hi) && Describes(r, done(hi))
  {
    r, tally := h, NOTHING;
    for j := lo to hi
      invariant tally == sums(j) && Describes(r, done(j))
    {
      assert RangeAt(t, lo, occurrences, before, done, sums, j) && RangeAt(t, lo, occurrences, before, done, sums, j + 1);
      error, r, tally := PackOneMore(t, lo, j, occurrences, r, tally, before, done, sums);
    }
    error := None;
  }

  /** The segments of a plain descriptor, its packed requests over all occurrences, and its tally. */
  ghost predicate PlainIs(t: Table, lo: int, hi: int, occurrences: nat, batches: seq<Batch>, total: Tally) {
    && 0 <= lo <= hi <= |t.segments| && (forall j :: lo <= j < hi ==> 0 < t.segments[j].byteSize <= t.maximumFrame)
    && batches == RangePacked(t, lo, hi, occurrences) && total == RangeTally(t, lo, hi, occurrences)
  }

  /** The segments of one descriptor. */
  method PackSegments(t: Table, lo: int, hi: int, occurrences: nat, h: Histogram, ghost before: seq<Batch>,
                      ghost batches: seq<Batch>, ghost total: Tally)
    returns (error: Option<AuditError>, r: Histogram, tally: Tally)
    requires PlainIs(t, lo, hi, occurrences, batches, total) && Describes(h, before)
    ensures error.None? && tally == total && Describes(r, before + batches)
  {
    ghost var done := (j: int) => before + Repeated(SegmentsPacked(t, lo, j), occurrences);
    ghost var sums := (j: int) => Gather(SegmentTallies(t, occurrences), lo, j);
    forall j ensures RangeAt(t, lo, occurrences, before, done, sums, j) {}
    assert done(lo) == before;
    error, r, tally := PackRange(t, lo, hi, occurrences, h, before, done, sums);
  }

  lemma PlainTally(t: Table, i: int, lo: int, hi: int, occurrences: nat)
    requires PlainAt(t, i, lo, hi, occurrences)
    ensures DescriptorTally(t, i) == RangeTally(t, lo, hi, occurrences)
  {
  }

  lemma PlainDescriptor(t: Table, i: int, lo: int, hi: int, occurrences: nat, batches: seq<Batch>, total: Tally)
    requires PlainAt(t, i, lo, hi, occurrences) && batches == AffineBatches(t, i) && total == DescriptorTally(t, i)
    ensures PlainIs(t, lo, hi, occurrences, batches, total)
  {
    PlainPacked(t, i, lo, hi, occurrences);
    PlainTally(t, i, lo, hi, occurrences);
    PlainRange(t, i, lo, hi, occurrences);
  }

  /** One descriptor of the direction. */
  method PackDescriptor(t: Table, i: nat, h: Histogram, ghost before: seq<Batch>) returns (error: Option<AuditError>, r: Histogram, tally: Tally)
    requires i < |t.descriptors| && DescriptorOk(t, i) && Describes(h, before)
    ensures error.None? && tally == DescriptorTally(t, i)
    ensures Describes(r, before + AffineBatches(t, i))
  {
    var d := t.descriptors[i];
    error, r, tally := None, h, NOTHING;
    match RoleOf(d.flags)
    case Follower =>
      assert before + [] == before;
    case Leader =>
      var next := d.id + 1;
      if next >= |t.descriptors| { return Some(PairMissing), h, NOTHING; }
      var size := d.bytesPerIteration + t.descriptors[next].bytesPerIteration;
      r := AddHistogramCount(h, size, Occurrences(d));
      DescribesMore(h, r, before, Batch(size, Occurrences(d)));
    case Plain =>
      var lo, hi, occurrences := d.segmentOffset, d.segmentOffset + d.segmentCount, Occurrences(d);
      ghost var batches, total := AffineBatches(t, i), DescriptorTally(t, i);
      PlainDescriptor(t, i, lo, hi, occurrences, batches, total);
      error, r, tally := PackSegments(t, lo, hi, occurrences, h, before, batches, total);
  }

  datatype AffineReport = AffineReport(predictedRequests: nat, reduction: nat, tally: Tally, histogram: Histogram)

  /** The audit of one direction. On an accepted table, with the totals that the accounting found, it
      always succeeds, and the reduction it predicts is what the packable segments save; it never counts
      a repeat-linear segment. */
  method AffineSegmentRunAudit(t: Table, direction: int, currentRequests: nat, currentBytes: nat)
    returns (error: Option<AuditError>, report: AffineReport)
    requires Accepted(t) && currentRequests == Requests(PhysicalBatches(t, direction, |t.descriptors|))
    requires currentBytes == LogicalBytes(t, direction, |t.descriptors|)
    ensures error.None?
    ensures Describes(report.histogram, AffineUpTo(t, direction, |t.descriptors|))
    ensures report.predictedRequests == Requests(AffineUpTo(t, direction, |t.descriptors|))
    ensures report.reduction == currentRequests - report.predictedRequests == report.tally.logical - report.tally.packed
    ensures Counts(t, direction, 0, |t.segments|, report.tally) && Split(report.tally)
  {
    var histogram: Histogram := map[];
    var tally := NOTHING;
    for i := 0 to |t.descriptors|
      invariant tally == TallyUpTo(t, direction, i) && Describes(histogram, AffineUpTo(t, direction, i))
    {
      assert DescriptorOk(t, i);
      if t.descriptors[i].direction == direction {
        var more;
        error, histogram, more := PackDescriptor(t, i, histogram, AffineUpTo(t, direction, i));
        tally := Plus(tally, more);
      } else {
        assert AffineUpTo(t, direction, i + 1) == AffineUpTo(t, direction, i);
      }
    }
    HistogramTotals(histogram, AffineUpTo(t, direction, |t.descriptors|));
    AffineReconciles(t, direction, |t.descriptors|);
    BytesReconcile(t, direction);
    TallyExplains(t, direction, |t.descriptors|);
    TallySplits(t, direction, |t.descriptors|);
    TallyMeans(t, direction);
    var requests, bytes := Reconcile(histogram);
    report := AffineReport(requests, 0, tally, histogram);
    if bytes != currentBytes { return Some(AffineBytes), report; }
    if requests > currentRequests { return Some(AffineRequests), report; }
    report := AffineReport(requests, currentRequests - requests, tally, histogram);
    return None, report;
  }

  datatype Accounting = Accounting(input: Totals, output: Totals, runs: RunAudit.RunReport, affineInput: AffineReport, affineOutput: AffineReport)

  datatype Result = Refused(error: AuditError) | Accounted(accounting: Accounting)

  /** The whole accounting: it succeeds exactly on the tables that the checks accept, and then every
      reconciliation succeeds too. */
  method DescriptorAccounting(t: Table) returns (r: Result)
    ensures r.Accounted? <==> Accepted(t)
    ensures r.Refused? ==> r.error !in {CompactTransfers, HistogramRequests, HistogramBytes, PackedBytes, PackedRequests, PairMissing,
                                        OversizedTransfer, AffineBytes, AffineRequests}
    ensures r.Accounted? ==>
              var n, a := |t.descriptors|, r.accounting;
              && Accounts(t, INPUT, n, a.input) && Accounts(t, OUTPUT, n, a.output)
              && Describes(a.runs.histogram, RunPacking.SplitBatches(t, 0, RunPacking.GreedyEnds(t, 0)))
              && Describes(a.affineInput.histogram, AffineUpTo(t, INPUT, n)) && Describes(a.affineOutput.histogram, AffineUpTo(t, OUTPUT, n))
              && a.runs.predictedRequests <= a.input.physicalRequests
              && a.affineInput.predictedRequests <= a.input.physicalRequests && a.affineOutput.predictedRequests <= a.output.physicalRequests
              && RunCounters.CountsRuns(t, a.runs.runs, a.runs.descriptors, a.runs.packedRequests)
              && Counts(t, INPUT, 0, |t.segments|, a.affineInput.tally) && Counts(t, OUTPUT, 0, |t.segments|, a.affineOutput.tally)
  {
    var error, input, output := AccountTable(t);
    match error { case Some(e) => return Refused(e); case None => }
    var runs, affineInput, affineOutput;
    error, runs := RunAudit.MaximalInputDmaRunAudit(t, input.physicalRequests, input.physicalBytes);
    match error { case Some(e) => return Refused(e); case None => }
    error, affineInput := AffineSegmentRunAudit(t, INPUT, input.physicalRequests, input.physicalBytes);
    match error { case Some(e) => return Refused(e); case None => }
    error, affineOutput := AffineSegmentRunAudit(t, OUTPUT, output.physicalRequests, output.physicalBytes);
    match error { case Some(e) => return Refused(e); case None => }
    RunAudit.PackingReconciles(t);
    AffineReconciles(t, INPUT, |t.descriptors|);
    AffineReconciles(t, OUTPUT, |t.descriptors|);
    r := Accounted(Accounting(input, output, runs, affineInput, affineOutput));
  }
}
