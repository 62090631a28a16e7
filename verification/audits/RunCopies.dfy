/** A run of joined descriptors, carried out as one request, copies what its descriptors copy one by one. */
module RunCopies {
  import opened DmaTables
  import opened RunPacking
  import opened Copies

  /** What decides where the transfer of an iteration lies, apart from its base addresses. */
  datatype Strides = Strides(begin: nat, step: nat, global: nat, scratchpad: nat, slot: nat, slots: nat)

  function StridesOf(t: Table, k: int): Strides
    requires 0 <= k < |t.descriptors| && IsSingleRequest(t, t.descriptors[k])
  {
    var d := t.descriptors[k];
    var s := t.segments[d.segmentOffset];
    Strides(d.iterationBegin, d.iterationStep, s.globalIterationStride, s.scratchpadIterationStride, d.scratchpadSlotStride, d.ringSlots)
  }

  /** How far an iteration is from the base addresses on the two sides: any function of it and the strides. */
  type Offsets = (Strides, int) -> (int, int)

  /** One such function: the global side advances by its stride; the scratchpad side by its own, and
      from slot to slot around the ring. */
  function RingOffsets(z: Strides, iteration: int): (int, int) {
    var turn := if z.step > 0 then (iteration - z.begin) / z.step else 0;
    (iteration * z.global, iteration * z.scratchpad + (if z.slots > 0 then turn % z.slots else 0) * z.slot)
  }

  /** The transfer of a single-request descriptor in an iteration, from its own fields. */
  function TransferAt(t: Table, k: int, offsets: Offsets, iteration: int): Move
    requires 0 <= k < |t.descriptors| && IsSingleRequest(t, t.descriptors[k])
  {
    var d := t.descriptors[k];
    var s := t.segments[d.segmentOffset];
    var o := offsets(StridesOf(t, k), iteration);
    Move(s.globalByteOffset + o.0, d.scratchpadRingBase + s.scratchpadByteOffset + o.1, d.bytesPerIteration)
  }

  /** The transfers of descriptors i .. j-1 in an iteration, one by one. */
  function TransfersOf(t: Table, i: int, j: int, offsets: Offsets, iteration: int): seq<Move>
    requires 0 <= i <= j <= |t.descriptors| && forall k :: i <= k < j ==> IsSingleRequest(t, t.descriptors[k])
    decreases j - i
  {
    if i == j then [] else TransfersOf(t, i, j - 1, offsets, iteration) + [TransferAt(t, j - 1, offsets, iteration)]
  }

  /** Joined descriptors run over the same iterations with the same strides. */
  lemma {:induction false} SameStrides(t: Table, i: int, j: int, k: int)
    requires IsRun(t, i, j) && i <= k < j
    ensures StridesOf(t, k) == StridesOf(t, i) && t.descriptors[k].iterationEnd == t.descriptors[i].iterationEnd
    decreases k
  {
    if i < k {
      SameStrides(t, i, j, k - 1);
      assert Joins(t, k - 1);
    }
  }

  /** Within a run each base address is where the ones before it end. */
  lemma {:induction false} Contiguous(t: Table, i: int, j: int, k: int)
    requires IsRun(t, i, j) && i <= k < j
    ensures var d, e := t.descriptors[k], t.descriptors[i]; var s, r := t.segments[d.segmentOffset], t.segments[e.segmentOffset];
            && s.globalByteOffset == r.globalByteOffset + RunBytes(t, i, k)
            && d.scratchpadRingBase + s.scratchpadByteOffset == e.scratchpadRingBase + r.scratchpadByteOffset + RunBytes(t, i, k)
    decreases k
  {
    if i < k {
      Contiguous(t, i, j, k - 1);
      assert Joins(t, k - 1);
    }
  }

  lemma NextOnLine(t: Table, i: int, j: int, k: int, offsets: Offsets, iteration: int)
    requires IsRun(t, i, j) && i <= k < j
    ensures var first, last := TransferAt(t, i, offsets, iteration), TransferAt(t, k, offsets, iteration);
            last.from == first.from + RunBytes(t, i, k) && last.to == first.to + RunBytes(t, i, k)
    ensures RunBytes(t, i, k + 1) == RunBytes(t, i, k) + TransferAt(t, k, offsets, iteration).bytes
  {
    Contiguous(t, i, j, k);
    SameStrides(t, i, j, k);
  }

  lemma {:induction false} PrefixSameCopy(t: Table, i: int, j: int, k: int, offsets: Offsets, iteration: int)
    requires IsRun(t, i, j) && i <= k <= j
    ensures Copied(TransfersOf(t, i, k, offsets, iteration))
         == Line(TransferAt(t, i, offsets, iteration).from, TransferAt(t, i, offsets, iteration).to, RunBytes(t, i, k))
    decreases k
  {
    if i < k {
      var first, last := TransferAt(t, i, offsets, iteration), TransferAt(t, k - 1, offsets, iteration);
      PrefixSameCopy(t, i, j, k - 1, offsets, iteration);
      NextOnLine(t, i, j, k - 1, offsets, iteration);
      LinePlus(TransfersOf(t, i, k - 1, offsets, iteration), last, first.from, first.to, RunBytes(t, i, k - 1));
    }
  }

  /** In every iteration one request for a run copies the same bytes, in the same order, as the transfers
      of its descriptors, each placed by its own strides and ring. */
  lemma RunSameCopy(t: Table, i: int, j: int, offsets: Offsets, iteration: int)
    requires IsRun(t, i, j)
    ensures var first := TransferAt(t, i, offsets, iteration);
            Copied(TransfersOf(t, i, j, offsets, iteration)) == Line(first.from, first.to, RunBytes(t, i, j))
  {
    PrefixSameCopy(t, i, j, j, offsets, iteration);
  }

  /** In particular when slots are used round robin. */
  lemma RingSameCopy(t: Table, i: int, j: int, iteration: int)
    requires IsRun(t, i, j)
    ensures var first := TransferAt(t, i, RingOffsets, iteration);
            Copied(TransfersOf(t, i, j, RingOffsets, iteration)) == Line(first.from, first.to, RunBytes(t, i, j))
  {
    RunSameCopy(t, i, j, RingOffsets, iteration);
  }
}
