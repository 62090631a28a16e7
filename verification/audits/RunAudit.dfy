/** The maximal-run audit of input requests: its loop, and why its two errors cannot be raised on an
    accepted table. */
module RunAudit {
  import opened Options
  import opened Histograms
  import opened DmaTables
  import opened DmaAccounting
  import opened RunPacking
  import opened RunCounters

  // ---- sums over the descriptors from i on ----

  /** Input bytes of the descriptors from i on. */
  function BytesFrom(t: Table, i: int): nat
    requires Accepted(t) && 0 <= i <= |t.descriptors|
    decreases |t.descriptors| - i
  {
    if i == |t.descriptors| then 0
    else
      assert DescriptorOk(t, i);
      (if t.descriptors[i].direction == INPUT then BytesOfDescriptor(t, i) else 0) + BytesFrom(t, i + 1)
  }

  /** Physical input requests of the descriptors from i on. */
  function RequestsFrom(t: Table, i: int): nat
    requires Accepted(t) && 0 <= i <= |t.descriptors|
    decreases |t.descriptors| - i
  {
    if i == |t.descriptors| then 0
    else
      assert DescriptorOk(t, i);
      (if t.descriptors[i].direction == INPUT then Requests(DescriptorBatches(t, i)) else 0) + RequestsFrom(t, i + 1)
  }

  lemma {:induction false} BytesFromAndUpTo(t: Table, i: nat)
    requires Accepted(t) && i <= |t.descriptors|
    ensures LogicalBytes(t, INPUT, i) + BytesFrom(t, i) == LogicalBytes(t, INPUT, |t.descriptors|)
    decreases |t.descriptors| - i
  {
    if i < |t.descriptors| {
      BytesFromAndUpTo(t, i + 1);
      assert DescriptorOk(t, i);
    }
  }

  lemma RequestsUpToNext(t: Table, i: nat)
    requires i < |t.descriptors| && AcceptedUpTo(t, i) && AcceptedUpTo(t, i + 1)
    ensures DescriptorOk(t, i)
    ensures Requests(PhysicalBatches(t, INPUT, i + 1))
         == Requests(PhysicalBatches(t, INPUT, i)) + if t.descriptors[i].direction == INPUT then Requests(DescriptorBatches(t, i)) else 0
  {
    assert DescriptorOk(t, i);
    if t.descriptors[i].direction == INPUT {
      Concatenated(PhysicalBatches(t, INPUT, i), DescriptorBatches(t, i));
    } else {
      assert PhysicalBatches(t, INPUT, i) + [] == PhysicalBatches(t, INPUT, i);
    }
  }

  lemma {:induction false} RequestsFromAndUpTo(t: Table, i: nat)
    requires Accepted(t) && i <= |t.descriptors|
    ensures Requests(PhysicalBatches(t, INPUT, i)) + RequestsFrom(t, i) == Requests(PhysicalBatches(t, INPUT, |t.descriptors|))
    decreases |t.descriptors| - i
  {
    if i < |t.descriptors| {
      RequestsFromAndUpTo(t, i + 1);
      RequestsUpToNext(t, i);
    }
  }

  // ---- bytes ----

  lemma OneOfRun(t: Table, i: int, j: int, k: int)
    requires Accepted(t) && IsRun(t, i, j) && i <= k < j
    ensures DescriptorOk(t, i)
    ensures BytesFrom(t, k) == Occurrences(t.descriptors[i]) * t.descriptors[k].bytesPerIteration + BytesFrom(t, k + 1)
  {
    assert DescriptorOk(t, i) && DescriptorOk(t, k);
    SameOccurrences(t, i, j, k);
  }

  lemma FirstOfRun(t: Table, k: int, j: int)
    requires 0 <= k < j <= |t.descriptors|
    ensures RunBytes(t, k, j) == t.descriptors[k].bytesPerIteration + RunBytes(t, k + 1, j)
  {
    RunBytesSplit(t, k, k + 1, j);
    assert RunBytes(t, k, k) == 0;
    assert RunBytes(t, k, k + 1) == t.descriptors[k].bytesPerIteration;
  }

  lemma {:induction false} RunBytesTotal(t: Table, i: int, j: int, k: int)
    requires Accepted(t) && IsRun(t, i, j) && i <= k <= j
    ensures DescriptorOk(t, i)
    ensures BytesFrom(t, k) == Occurrences(t.descriptors[i]) * RunBytes(t, k, j) + BytesFrom(t, j)
    decreases j - k
  {
    if k < j {
      OneOfRun(t, i, j, k);
      RunBytesTotal(t, i, j, k + 1);
      FirstOfRun(t, k, j);
      Distribute(Occurrences(t.descriptors[i]), t.descriptors[k].bytesPerIteration, RunBytes(t, k + 1, j));
    } else {
      assert DescriptorOk(t, i);
    }
  }

  /** A part moves exactly the bytes of its descriptors. */
  lemma UnitBytes(t: Table, i: int, j: int)
    requires Accepted(t) && 0 <= i < |t.descriptors| && IsUnit(t, i, j)
    ensures DescriptorOk(t, i)
    ensures BytesFrom(t, i) == Bytes(UnitBatches(t, i, j)) + BytesFrom(t, j)
  {
    assert DescriptorOk(t, i);
    var d := t.descriptors[i];
    if d.direction == INPUT {
      if IsSingleRequest(t, d) {
        SingleIsRun(t, i, j);
        RunBytesTotal(t, i, j, i);
        OneOrderedBatch(RunBytes(t, i, j), Occurrences(d));
      } else {
        RepeatedTotals(TransferBatches(t, i), Occurrences(d));
      }
    }
  }

  lemma SingleIsRun(t: Table, i: int, j: int)
    requires IsUnit(t, i, j) && IsSingleRequest(t, t.descriptors[i])
    ensures IsRun(t, i, j)
  {
    if j == i + 1 {
      assert RunBytes(t, i, i) == 0;
      assert RunBytes(t, i, j) == t.descriptors[i].bytesPerIteration;
    }
  }

  /** Every split moves the same bytes. */
  lemma {:induction false} SplitBytes(t: Table, i: int, ends: seq<int>)
    requires Accepted(t) && 0 <= i <= |t.descriptors| && IsSplit(t, i, ends)
    ensures Bytes(SplitBatches(t, i, ends)) == BytesFrom(t, i)
    decreases |ends|
  {
    if i < |t.descriptors| {
      UnitBytes(t, i, ends[0]);
      SplitBytes(t, ends[0], ends[1..]);
      Concatenated(UnitBatches(t, i, ends[0]), SplitBatches(t, ends[0], ends[1..]));
    }
  }

  // ---- the split that the table itself describes ----

  function PartEnd(t: Table, i: int): int
    requires 0 <= i < |t.descriptors|
  {
    if RoleOf(t.descriptors[i].flags) == Leader then i + 2 else i + 1
  }

  /** Compact pairs together, everything else alone. */
  function TableEnds(t: Table, i: int): (ends: seq<int>)
    requires Accepted(t) && 0 <= i <= |t.descriptors|
    ensures IsSplit(t, i, ends)
    decreases |t.descriptors| - i
  {
    if i == |t.descriptors| then []
    else
      PartIsUnit(t, i);
      [PartEnd(t, i)] + TableEnds(t, PartEnd(t, i))
  }

  lemma PartIsUnit(t: Table, i: int)
    requires Accepted(t) && 0 <= i < |t.descriptors|
    ensures IsUnit(t, i, PartEnd(t, i)) && DescriptorOk(t, i)
  {
    assert DescriptorOk(t, i);
    if RoleOf(t.descriptors[i].flags) == Leader {
      CompactPairJoins(t, i);
      assert RunBytes(t, i, i) == 0;
      assert RunBytes(t, i, i + 1) == t.descriptors[i].bytesPerIteration;
      assert RunBytes(t, i, i + 2) == RunBytes(t, i, i + 1) + t.descriptors[i + 1].bytesPerIteration;
    }
  }

  lemma LeaderIsSingle(t: Table, i: int)
    requires 0 <= i < |t.descriptors| && DescriptorOk(t, i) && RoleOf(t.descriptors[i].flags) == Leader
    ensures IsSingleRequest(t, t.descriptors[i]) && t.descriptors[i].direction == INPUT
    ensures DescriptorBatches(t, i) == [Batch(t.descriptors[i].bytesPerIteration + t.descriptors[i + 1].bytesPerIteration, Occurrences(t.descriptors[i]))]
  {
  }

  /** A part of the table's own split costs what the accounting counts for it. */
  lemma PartCost(t: Table, i: int)
    requires Accepted(t) && 0 <= i < |t.descriptors| && RoleOf(t.descriptors[i].flags) != Follower
    ensures DescriptorOk(t, i) && IsUnit(t, i, PartEnd(t, i))
    ensures Requests(UnitBatches(t, i, PartEnd(t, i))) + RequestsFrom(t, PartEnd(t, i)) == RequestsFrom(t, i)
  {
    PartIsUnit(t, i);
    if RoleOf(t.descriptors[i].flags) == Leader {
      PairCost(t, i);
    } else {
      PlainPart(t, i);
    }
  }

  lemma PairCost(t: Table, i: int)
    requires Accepted(t) && 0 <= i < |t.descriptors| && RoleOf(t.descriptors[i].flags) == Leader
    ensures DescriptorOk(t, i) && IsUnit(t, i, i + 2)
    ensures Requests(UnitBatches(t, i, i + 2)) + RequestsFrom(t, i + 2) == RequestsFrom(t, i)
  {
    PartIsUnit(t, i);
    var d := t.descriptors[i];
    assert DescriptorOk(t, i + 1);
    LeaderIsSingle(t, i);
    UnitCost(t, i, i + 2);
    OneOrderedBatch(d.bytesPerIteration + t.descriptors[i + 1].bytesPerIteration, Occurrences(d));
    assert RequestsFrom(t, i + 1) == RequestsFrom(t, i + 2);
  }

  /** The next part does not start with a follower. */
  lemma PartsAlign(t: Table, i: int)
    requires Accepted(t) && 0 <= i < |t.descriptors| && RoleOf(t.descriptors[i].flags) != Follower
    ensures PartEnd(t, i) <= |t.descriptors|
    ensures PartEnd(t, i) < |t.descriptors| ==> RoleOf(t.descriptors[PartEnd(t, i)].flags) != Follower
  {
    assert DescriptorOk(t, i);
    var e := PartEnd(t, i);
    if e < |t.descriptors| {
      assert DescriptorOk(t, e) && DescriptorOk(t, e - 1);
      LeaderThenFollower(t, e);
    }
  }

  lemma PlainPart(t: Table, i: int)
    requires 0 <= i < |t.descriptors| && DescriptorOk(t, i) && RoleOf(t.descriptors[i].flags) == Plain
    ensures Requests(UnitBatches(t, i, i + 1)) == if t.descriptors[i].direction == INPUT then Requests(DescriptorBatches(t, i)) else 0
  {
    var d := t.descriptors[i];
    if IsSingleRequest(t, d) {
      UnitCost(t, i, i + 1);
      RepeatedTotals(TransferBatches(t, i), Occurrences(d));
      OneTransfer(t, i);
    }
  }

  lemma {:induction false} TableSplitCost(t: Table, i: int)
    requires Accepted(t) && 0 <= i <= |t.descriptors|
    requires i < |t.descriptors| ==> RoleOf(t.descriptors[i].flags) != Follower
    ensures Cost(t, i, TableEnds(t, i)) == RequestsFrom(t, i)
    decreases |t.descriptors| - i
  {
    if i < |t.descriptors| {
      PartCost(t, i);
      PartsAlign(t, i);
      TableSplitCost(t, PartEnd(t, i));
      CostStep(t, i, TableEnds(t, i));
    }
  }

  /** The table's requests are those of one of the splits that the packing improves on. */
  lemma CurrentRequests(t: Table)
    requires Accepted(t)
    ensures Cost(t, 0, TableEnds(t, 0)) == Requests(PhysicalBatches(t, INPUT, |t.descriptors|))
  {
    if |t.descriptors| > 0 { assert DescriptorOk(t, 0); }
    TableSplitCost(t, 0);
    RequestsFromAndUpTo(t, 0);
  }

  /** Maximal runs change no byte and never add a request: neither error of the audit can be raised. */
  lemma PackingReconciles(t: Table)
    requires Accepted(t)
    ensures var packed := SplitBatches(t, 0, GreedyEnds(t, 0)); var current := PhysicalBatches(t, INPUT, |t.descriptors|);
            Bytes(packed) == LogicalBytes(t, INPUT, |t.descriptors|) && Requests(packed) <= Requests(current)
  {
    SplitBytes(t, 0, GreedyEnds(t, 0));
    BytesFromAndUpTo(t, 0);
    GreedyOptimal(t, 0, TableEnds(t, 0));
    CurrentRequests(t);
  }

  // ---- the audit ----

  datatype RunReport = RunReport(runs: nat, descriptors: nat, packedRequests: nat, predictedRequests: nat, reduction: nat, histogram: Histogram)

  /** The loop that extends one run. */
  method ExtendRun(t: Table, begin: nat) returns (end: nat, bytes: nat)
    requires begin < |t.descriptors| && IsSingleRequest(t, t.descriptors[begin])
    ensures end == GreedyEnd(t, begin) && bytes == RunBytes(t, begin, end)
  {
    end, bytes := begin + 1, t.descriptors[begin].bytesPerIteration;
    assert RunBytes(t, begin, begin) == 0;
    assert RunBytes(t, begin, begin + 1) == bytes;
    while end < |t.descriptors|
      invariant IsRun(t, begin, end) && bytes == RunBytes(t, begin, end)
      invariant Extend(t, begin, begin + 1) == Extend(t, begin, end)
    {
      var next := t.descriptors[end].bytesPerIteration;
      if !Joins(t, end - 1) || next > t.maximumFrame - bytes { break; }
      bytes, end := bytes + next, end + 1;
    }
  }

  /** Adds the requests of a descriptor that is not a single request, segment by segment. */
  method AddSegments(t: Table, i: nat, h: Histogram, ghost before: seq<Batch>) returns (r: Histogram)
    requires i < |t.descriptors| && DescriptorOk(t, i) && Describes(h, before)
    ensures Describes(r, before + Repeated(TransferBatches(t, i), Occurrences(t.descriptors[i])))
  {
    var d := t.descriptors[i];
    var occurrences := Occurrences(d);
    r := h;
    ghost var done := before;
    for j := d.segmentOffset to d.segmentOffset + d.segmentCount
      invariant done == before + Repeated(SegmentBatches(t, d.segmentOffset, j), occurrences)
      invariant Describes(r, done)
    {
      var s := t.segments[j];
      var count := occurrences * Transfers(s);
      ghost var previous := r;
      r := AddHistogramCount(r, s.byteSize, count);
      DescribesMore(previous, r, done, Batch(s.byteSize, count));
      RepeatedMore(SegmentBatches(t, d.segmentOffset, j), Batch(s.byteSize, Transfers(s)), occurrences);
      done := done + [Batch(s.byteSize, count)];
      assert done == before + (Repeated(SegmentBatches(t, d.segmentOffset, j), occurrences) + [Batch(s.byteSize, count)]);
    }
  }

  lemma RepeatedMore(bs: seq<Batch>, b: Batch, times: nat)
    ensures Repeated(bs + [b], times) == Repeated(bs, times) + [Batch(b.size, times * b.count)]
  {
    assert (bs + [b])[..|bs|] == bs;
  }

  /** The part of the greedy split that starts at descriptor i. */
  method NextPart(t: Table, i: nat, h: Histogram, ghost before: seq<Batch>) returns (end: nat, r: Histogram)
    requires Accepted(t) && i < |t.descriptors| && DescriptorOk(t, i) && Describes(h, before)
    ensures end == GreedyEnd(t, i)
    ensures Describes(r, before + UnitBatches(t, i, end))
  {
    var d := t.descriptors[i];
    if d.direction != INPUT {
      assert before + [] == before;
      return i + 1, h;
    }
    if !IsSingleRequest(t, d) {
      r := AddSegments(t, i, h, before);
      return i + 1, r;
    }
    var bytes;
    end, bytes := ExtendRun(t, i);
    r := AddHistogramCount(h, bytes, Occurrences(d));
    DescribesMore(h, r, before, Batch(bytes, Occurrences(d)));
  }

  /** The batches before a descriptor, followed by those of the greedy split from there, are all of them. */
  ghost predicate Halfway(t: Table, i: int, done: seq<Batch>, runs: nat, descriptors: nat, requests: nat)
    requires Accepted(t)
  {
    && 0 <= i <= |t.descriptors|
    && done + SplitBatches(t, i, GreedyEnds(t, i)) == SplitBatches(t, 0, GreedyEnds(t, 0))
    && var rest, all := RunsOf(t, i, GreedyEnds(t, i)), RunsOf(t, 0, GreedyEnds(t, 0));
       runs + rest.0 == all.0 && descriptors + rest.1 == all.1 && requests + rest.2 == all.2
  }

  lemma HalfwayMore(t: Table, i: int, done: seq<Batch>, runs: nat, descriptors: nat, requests: nat)
    requires Accepted(t) && 0 <= i < |t.descriptors| && Halfway(t, i, done, runs, descriptors, requests)
    ensures DescriptorOk(t, i)
    ensures var e := GreedyEnd(t, i); var long := e - i >= 2;
            Halfway(t, e, done + UnitBatches(t, i, e), if long then runs + 1 else runs, if long then descriptors + (e - i) else descriptors,
                    if long then requests + Occurrences(t.descriptors[i]) else requests)
  {
    assert DescriptorOk(t, i);
    var e := GreedyEnd(t, i);
    assert GreedyEnds(t, i)[1..] == GreedyEnds(t, e);
    var rest := SplitBatches(t, e, GreedyEnds(t, e));
    assert done + (UnitBatches(t, i, e) + rest) == done + UnitBatches(t, i, e) + rest;
  }

  /** The audit. On an accepted table, with the totals that the accounting found, it always succeeds. */
  method MaximalInputDmaRunAudit(t: Table, currentRequests: nat, currentBytes: nat) returns (error: Option<AuditError>, report: RunReport)
    requires Accepted(t)
    requires currentRequests == Requests(PhysicalBatches(t, INPUT, |t.descriptors|)) && currentBytes == LogicalBytes(t, INPUT, |t.descriptors|)
    ensures error.None?
    ensures Describes(report.histogram, SplitBatches(t, 0, GreedyEnds(t, 0)))
    ensures report.predictedRequests == Cost(t, 0, GreedyEnds(t, 0)) && report.reduction == currentRequests - report.predictedRequests
    ensures CountsRuns(t, report.runs, report.descriptors, report.packedRequests)
  {
    var runs: nat, descriptors: nat, packedRequests: nat := 0, 0, 0;
    var histogram: Histogram := map[];
    var index: nat := 0;
    ghost var done: seq<Batch> := [];
    assert done + SplitBatches(t, 0, GreedyEnds(t, 0)) == SplitBatches(t, 0, GreedyEnds(t, 0));
    while index < |t.descriptors|
      invariant Halfway(t, index, done, runs, descriptors, packedRequests) && Describes(histogram, done)
      decreases |t.descriptors| - index
    {
      HalfwayMore(t, index, done, runs, descriptors, packedRequests);
      var end;
      end, histogram := NextPart(t, index, histogram, done);
      if end - index >= 2 {
        runs, descriptors := runs + 1, descriptors + (end - index);
        packedRequests := packedRequests + Occurrences(t.descriptors[index]);
      }
      done := done + UnitBatches(t, index, end);
      index := end;
    }
    assert done == SplitBatches(t, 0, GreedyEnds(t, 0));
    HistogramTotals(histogram, done);
    PackingReconciles(t);
    RunsMean(t, 0, GreedyEnds(t, 0));
    var requests, bytes := Reconcile(histogram);
    report := RunReport(runs, descriptors, packedRequests, requests, 0, histogram);
    if bytes != currentBytes { return Some(PackedBytes), report; }
    if requests > currentRequests { return Some(PackedRequests), report; }
    report := RunReport(runs, descriptors, packedRequests, requests, currentRequests - requests, histogram);
    return None, report;
  }
}
