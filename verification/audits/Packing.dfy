/** Packing consecutive input descriptors into shared requests: the greedy maximal runs, and why no
    other split into runs needs fewer requests. */
module RunPacking {
  import opened Histograms
  import opened DmaTables

  // ---- runs and splits ----

  function RunBytes(t: Table, i: int, j: int): nat
    requires 0 <= i <= j <= |t.descriptors|
    decreases j - i
  {
    if i == j then 0 else RunBytes(t, i, j - 1) + t.descriptors[j - 1].bytesPerIteration
  }

  /** Descriptors i .. j-1 may all share one request. */
  predicate IsRun(t: Table, i: int, j: int) {
    && 0 <= i < j <= |t.descriptors|
    && (forall k :: i <= k < j ==> IsSingleRequest(t, t.descriptors[k]))
    && (forall k :: i <= k < j - 1 ==> Joins(t, k))
    && RunBytes(t, i, j) <= t.maximumFrame
  }

  /** A part of a split: any one descriptor, or a run. */
  predicate IsUnit(t: Table, i: int, j: int) {
    0 <= i < j <= |t.descriptors| && (j == i + 1 || IsRun(t, i, j))
  }

  /** The input requests of a part. */
  function UnitBatches(t: Table, i: int, j: int): seq<Batch>
    requires IsUnit(t, i, j) && DescriptorOk(t, i)
  {
    var d := t.descriptors[i];
    if d.direction != INPUT then []
    else if !IsSingleRequest(t, d) then Repeated(TransferBatches(t, i), Occurrences(d))
    else [Batch(RunBytes(t, i, j), Occurrences(d))]
  }

  /** The descriptors from i on, split at the given ends. */
  predicate IsSplit(t: Table, i: int, ends: seq<int>)
    requires 0 <= i <= |t.descriptors|
    decreases |ends|
  {
    if i == |t.descriptors| then ends == []
    else ends != [] && IsUnit(t, i, ends[0]) && IsSplit(t, ends[0], ends[1..])
  }

  function SplitBatches(t: Table, i: int, ends: seq<int>): seq<Batch>
    requires Accepted(t) && 0 <= i <= |t.descriptors| && IsSplit(t, i, ends)
    decreases |ends|
  {
    if i == |t.descriptors| then []
    else
      assert DescriptorOk(t, i);
      UnitBatches(t, i, ends[0]) + SplitBatches(t, ends[0], ends[1..])
  }

  function Cost(t: Table, i: int, ends: seq<int>): nat
    requires Accepted(t) && 0 <= i <= |t.descriptors| && IsSplit(t, i, ends)
  {
    Requests(SplitBatches(t, i, ends))
  }

  // ---- the greedy split ----

  /** Extends the run i .. j-1 as far as it goes. */
  function Extend(t: Table, i: int, j: int): (r: int)
    requires IsRun(t, i, j)
    ensures j <= r && IsRun(t, i, r)
    ensures r < |t.descriptors| ==> !Joins(t, r - 1) || t.descriptors[r].bytesPerIteration > t.maximumFrame - RunBytes(t, i, r)
    decreases |t.descriptors| - j
  {
    if j < |t.descriptors| && Joins(t, j - 1) && t.descriptors[j].bytesPerIteration <= t.maximumFrame - RunBytes(t, i, j)
    then Extend(t, i, j + 1)
    else j
  }

  function GreedyEnd(t: Table, i: int): (r: int)
    requires 0 <= i < |t.descriptors|
    ensures IsUnit(t, i, r)
  {
    if IsSingleRequest(t, t.descriptors[i]) then
      assert RunBytes(t, i, i + 1) == RunBytes(t, i, i) + t.descriptors[i].bytesPerIteration;
      Extend(t, i, i + 1)
    else i + 1
  }

  function GreedyEnds(t: Table, i: int): (ends: seq<int>)
    requires 0 <= i <= |t.descriptors|
    ensures IsSplit(t, i, ends)
    decreases |t.descriptors| - i
  {
    if i == |t.descriptors| then [] else [GreedyEnd(t, i)] + GreedyEnds(t, GreedyEnd(t, i))
  }

  lemma {:induction false} RunBytesSplit(t: Table, i: int, k: int, j: int)
    requires 0 <= i <= k <= j <= |t.descriptors|
    ensures RunBytes(t, i, j) == RunBytes(t, i, k) + RunBytes(t, k, j)
    decreases j - k
  {
    if k < j { RunBytesSplit(t, i, k, j - 1); }
  }

  /** The greedy part is the longest. */
  lemma GreedyIsLongest(t: Table, i: int, j: int)
    requires 0 <= i < |t.descriptors| && IsUnit(t, i, j)
    ensures j <= GreedyEnd(t, i)
  {
    var e := GreedyEnd(t, i);
    if e < j {
      assert IsSingleRequest(t, t.descriptors[i]);
      assert Joins(t, e - 1);
      RunBytesSplit(t, i, e + 1, j);
    }
  }

  lemma {:induction false} SameOccurrences(t: Table, i: int, j: int, k: int)
    requires IsRun(t, i, j) && i <= k < j
    ensures t.descriptors[k].iterationBegin == t.descriptors[i].iterationBegin && t.descriptors[k].iterationEnd == t.descriptors[i].iterationEnd
    ensures t.descriptors[k].iterationStep == t.descriptors[i].iterationStep
    decreases k
  {
    if i < k {
      assert Joins(t, k - 1);
      SameOccurrences(t, i, j, k - 1);
    }
  }

  /** What is left of a run is a run. */
  lemma RunSuffix(t: Table, i: int, j: int, k: int)
    requires IsRun(t, i, j) && i < k < j
    ensures IsRun(t, k, j)
  {
    RunBytesSplit(t, i, k, j);
  }

  lemma CostStep(t: Table, i: int, ends: seq<int>)
    requires Accepted(t) && 0 <= i < |t.descriptors| && IsSplit(t, i, ends)
    ensures DescriptorOk(t, i)
    ensures Cost(t, i, ends) == Requests(UnitBatches(t, i, ends[0])) + Cost(t, ends[0], ends[1..])
  {
    assert DescriptorOk(t, i);
    Concatenated(UnitBatches(t, i, ends[0]), SplitBatches(t, ends[0], ends[1..]));
  }

  lemma GreedyStep(t: Table, i: int)
    requires Accepted(t) && 0 <= i < |t.descriptors|
    ensures DescriptorOk(t, i)
    ensures Cost(t, i, GreedyEnds(t, i)) == Requests(UnitBatches(t, i, GreedyEnd(t, i))) + Cost(t, GreedyEnd(t, i), GreedyEnds(t, GreedyEnd(t, i)))
  {
    CostStep(t, i, GreedyEnds(t, i));
    assert GreedyEnds(t, i)[1..] == GreedyEnds(t, GreedyEnd(t, i));
  }

  /** Whatever its length, a part starting at a single-request descriptor costs its occurrences. */
  lemma UnitCost(t: Table, i: int, j: int)
    requires IsUnit(t, i, j) && DescriptorOk(t, i) && IsSingleRequest(t, t.descriptors[i])
    ensures Requests(UnitBatches(t, i, j)) == Occurrences(t.descriptors[i])
  {
    OneOrderedBatch(RunBytes(t, i, j), Occurrences(t.descriptors[i]));
  }

  /** Parts starting at the same descriptor cost the same. */
  lemma SameStartSameCost(t: Table, i: int, j: int, k: int)
    requires IsUnit(t, i, j) && IsUnit(t, i, k) && DescriptorOk(t, i)
    ensures Requests(UnitBatches(t, i, j)) == Requests(UnitBatches(t, i, k))
  {
    if IsSingleRequest(t, t.descriptors[i]) {
      UnitCost(t, i, j);
      UnitCost(t, i, k);
    }
  }

  /** From inside a run the greedy part reaches at least its end, at the same cost. */
  lemma InsideRun(t: Table, i: int, e: int, j: int)
    requires Accepted(t) && IsRun(t, i, e) && i < j < e
    ensures e <= GreedyEnd(t, j) && DescriptorOk(t, i) && DescriptorOk(t, j)
    ensures Requests(UnitBatches(t, j, GreedyEnd(t, j))) == Requests(UnitBatches(t, i, e))
  {
    assert DescriptorOk(t, i) && DescriptorOk(t, j);
    RunSuffix(t, i, e, j);
    GreedyIsLongest(t, j, e);
    SameOccurrences(t, i, e, j);
    UnitCost(t, i, e);
    UnitCost(t, j, GreedyEnd(t, j));
  }

  // ---- chains of parts, in general ----

  /** What the parts i .. e(i), e(i) .. e(e(i)), and so on cost together. */
  ghost function ChainCost(n: int, cost: int -> int, end: int -> int, i: int): int
    decreases n - i
  {
    if i < end(i) <= n then cost(i) + ChainCost(n, cost, end, end(i)) else 0
  }

  /** From inside a part the next one reaches at least as far, and costs no more. */
  ghost predicate Nested(n: int, cost: int -> int, end: int -> int) {
    && (forall i :: 0 <= i < n ==> i < end(i) <= n && cost(i) >= 0)
    && (forall i, j :: 0 <= i < j < end(i) && i < n ==> end(i) <= end(j) && cost(j) <= cost(i))
    && end(n) == n
  }

  /** Starting later never costs more. */
  lemma {:induction false} ChainMonotone(n: int, cost: int -> int, end: int -> int, i: int, j: int)
    requires Nested(n, cost, end) && 0 <= i <= j <= n
    ensures ChainCost(n, cost, end, j) <= ChainCost(n, cost, end, i)
    decreases n - i
  {
    if i < j {
      if end(i) <= j {
        ChainMonotone(n, cost, end, end(i), j);
      } else {
        assert end(i) <= end(j) && cost(j) <= cost(i);
        ChainMonotone(n, cost, end, end(i), end(j));
      }
    }
  }

  ghost function GreedyCostAt(t: Table): int -> int {
    (i: int) => if 0 <= i < |t.descriptors| && DescriptorOk(t, i) then Requests(UnitBatches(t, i, GreedyEnd(t, i))) else 0
  }

  function GreedyEndAt(t: Table): int -> int {
    (i: int) => if 0 <= i < |t.descriptors| then GreedyEnd(t, i) else i
  }

  ghost function GreedyCost(t: Table, i: int): int {
    ChainCost(|t.descriptors|, GreedyCostAt(t), GreedyEndAt(t), i)
  }

  lemma GreedyNested(t: Table)
    requires Accepted(t)
    ensures Nested(|t.descriptors|, GreedyCostAt(t), GreedyEndAt(t))
  {
    forall i, j | 0 <= i < j < GreedyEndAt(t)(i) && i < |t.descriptors|
      ensures GreedyEndAt(t)(i) <= GreedyEndAt(t)(j) && GreedyCostAt(t)(j) <= GreedyCostAt(t)(i)
    {
      InsideRun(t, i, GreedyEnd(t, i), j);
    }
  }

  lemma {:induction false} GreedyCostIs(t: Table, i: int)
    requires Accepted(t) && 0 <= i <= |t.descriptors|
    ensures Cost(t, i, GreedyEnds(t, i)) == GreedyCost(t, i)
    decreases |t.descriptors| - i
  {
    if i < |t.descriptors| {
      GreedyStep(t, i);
      GreedyCostIs(t, GreedyEnd(t, i));
    }
  }

  /** One part less of any split, against the greedy part at the same place. */
  lemma PartOptimal(t: Table, i: int, j: int)
    requires Accepted(t) && 0 <= i < |t.descriptors| && IsUnit(t, i, j)
    ensures DescriptorOk(t, i)
    ensures GreedyCost(t, i) <= Requests(UnitBatches(t, i, j)) + GreedyCost(t, j)
  {
    assert DescriptorOk(t, i);
    var e := GreedyEnd(t, i);
    GreedyIsLongest(t, i, j);
    GreedyNested(t);
    ChainMonotone(|t.descriptors|, GreedyCostAt(t), GreedyEndAt(t), j, e);
    SameStartSameCost(t, i, j, e);
    assert GreedyEndAt(t)(i) == e;
  }

  lemma {:induction false} BelowAnySplit(t: Table, i: int, ends: seq<int>)
    requires Accepted(t) && 0 <= i <= |t.descriptors| && IsSplit(t, i, ends)
    ensures GreedyCost(t, i) <= Cost(t, i, ends)
    decreases |ends|
  {
    if i < |t.descriptors| {
      CostStep(t, i, ends);
      PartOptimal(t, i, ends[0]);
      BelowAnySplit(t, ends[0], ends[1..]);
    }
  }

  /** No split of the descriptors into joinable runs that fit into a frame needs fewer requests. */
  lemma GreedyOptimal(t: Table, i: int, ends: seq<int>)
    requires Accepted(t) && 0 <= i <= |t.descriptors| && IsSplit(t, i, ends)
    ensures Cost(t, i, GreedyEnds(t, i)) <= Cost(t, i, ends)
  {
    GreedyCostIs(t, i);
    BelowAnySplit(t, i, ends);
  }
}
