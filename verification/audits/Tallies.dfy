/** What the affine audit reports about packable segments, and that it explains the reduction. */
module AffineTallies {
  import opened Arithmetic
  import opened Histograms
  import opened DmaTables
  import opened DmaAccounting
  import opened Copies
  import opened AffineAudit
  import opened AffineTable

  /** Packable segments by strategy, their requests before and after packing over all occurrences, and
      the most transfers in one request. */
  datatype Tally = Tally(segments: nat, fullLinear: nat, pieceLinear: nat, repeatLinear: nat, logical: nat, packed: nat, widest: nat)

  const NOTHING := Tally(0, 0, 0, 0, 0, 0, 1)

  function Plus(a: Tally, b: Tally): Tally {
    Tally(a.segments + b.segments, a.fullLinear + b.fullLinear, a.pieceLinear + b.pieceLinear, a.repeatLinear + b.repeatLinear,
          a.logical + b.logical, a.packed + b.packed, if a.widest < b.widest then b.widest else a.widest)
  }

  /** A segment counts when packing saves it a request. */
  function TallyOf(packable: bool, logical: nat, packed: nat, strategy: Strategy, widest: nat): Tally {
    if !packable then NOTHING
    else Tally(1, if strategy == Full then 1 else 0, if strategy == Rows then 1 else 0, 0, logical, packed, widest)
  }

  function SegmentTally(s: Segment, frame: nat, occurrences: nat): Tally
    requires s.byteSize > 0
  {
    var transfers, packed := Transfers(s), |Packed(s, frame, 0, 0)|;
    TallyOf(packed < transfers, Times(occurrences, transfers), Times(occurrences, packed), StrategyOf(s, frame), WidestOf(s, frame))
  }

  function SegmentTallies(t: Table, occurrences: nat): int -> Tally {
    (j: int) =>
      if 0 <= j < |t.segments| && t.segments[j].byteSize > 0 then SegmentTally(t.segments[j], t.maximumFrame, occurrences) else NOTHING
  }

  function Gather(f: int -> Tally, lo: int, hi: int): (r: Tally)
    ensures r.widest >= 1
    decreases hi - lo
  {
    if hi <= lo then NOTHING else Plus(Gather(f, lo, hi - 1), f(hi - 1))
  }

  function RangeTally(t: Table, lo: int, hi: int, occurrences: nat): (r: Tally)
    ensures r.widest >= 1
  {
    Gather(SegmentTallies(t, occurrences), lo, hi)
  }

  function DescriptorTally(t: Table, i: int): Tally
    requires 0 <= i < |t.descriptors| && DescriptorOk(t, i)
  {
    var d := t.descriptors[i];
    if RoleOf(d.flags) == Plain then RangeTally(t, d.segmentOffset, d.segmentOffset + d.segmentCount, Occurrences(d)) else NOTHING
  }

  function TallyUpTo(t: Table, direction: int, n: nat): Tally
    requires n <= |t.descriptors| && AcceptedUpTo(t, n)
  {
    if n == 0 then NOTHING
    else
      assert DescriptorOk(t, n - 1);
      if t.descriptors[n - 1].direction == direction then Plus(TallyUpTo(t, direction, n - 1), DescriptorTally(t, n - 1))
      else TallyUpTo(t, direction, n - 1)
  }

  // ---- the tally explains the reduction ----

  ghost function Saved(a: Tally): int {
    a.logical - a.packed
  }

  lemma SegmentTallyIs(s: Segment, frame: nat, occurrences: nat, packed: nat)
    requires s.byteSize > 0 && packed == |Packed(s, frame, 0, 0)|
    ensures SegmentTally(s, frame, occurrences)
         == TallyOf(packed < Transfers(s), Times(occurrences, Transfers(s)), Times(occurrences, packed), StrategyOf(s, frame), WidestOf(s, frame))
  {
  }

  lemma SegmentSaved(s: Segment, frame: nat, occurrences: nat, packed: nat)
    requires s.byteSize > 0 && packed == |Packed(s, frame, 0, 0)|
    ensures Saved(SegmentTally(s, frame, occurrences)) == Times(occurrences, Transfers(s)) - Times(occurrences, packed)
  {
    PackedAtMost(s, frame, 0, 0);
    SegmentTallyIs(s, frame, occurrences, packed);
    AmountsSaved(Transfers(s), packed, occurrences, StrategyOf(s, frame), WidestOf(s, frame));
  }

  lemma AmountsSaved(transfers: nat, packed: nat, occurrences: nat, strategy: Strategy, widest: nat)
    requires packed <= transfers
    ensures Saved(TallyOf(packed < transfers, Times(occurrences, transfers), Times(occurrences, packed), strategy, widest))
         == Times(occurrences, transfers) - Times(occurrences, packed)
  {
    TallySaved(packed < transfers, Times(occurrences, transfers), Times(occurrences, packed), strategy, widest);
  }

  lemma TallySaved(packable: bool, logical: nat, packed: nat, strategy: Strategy, widest: nat)
    requires !packable ==> packed == logical
    ensures Saved(TallyOf(packable, logical, packed, strategy, widest)) == logical - packed
  {
  }

  /** At j the tally saves the difference of the two amounts. */
  ghost predicate SavesAt(f: int -> Tally, x: int -> nat, y: int -> nat, j: int) {
    Saved(f(j)) == x(j) - y(j)
  }

  function SumFrom(x: int -> nat, lo: int, hi: int): nat
    decreases hi - lo
  {
    if hi <= lo then 0 else SumFrom(x, lo, hi - 1) + x(hi - 1)
  }

  /** Over all occurrences. */
  function Over(times: nat, x: int -> nat): int -> nat {
    (j: int) => Times(times, x(j))
  }

  lemma {:induction false} NothingTimes(a: nat)
    ensures Times(a, 0) == 0
    decreases a
  {
    if a > 0 { NothingTimes(a - 1); }
  }

  lemma {:induction false} SumOverTimes(times: nat, x: int -> nat, lo: int, hi: int)
    ensures SumFrom(Over(times, x), lo, hi) == Times(times, SumFrom(x, lo, hi))
    decreases hi - lo
  {
    if lo < hi {
      SumOverTimes(times, x, lo, hi - 1);
      TimesPlus(times, SumFrom(x, lo, hi - 1), x(hi - 1));
    } else {
      NothingTimes(times);
    }
  }

  lemma PlusSaves(a: Tally, b: Tally)
    ensures Saved(Plus(a, b)) == Saved(a) + Saved(b)
  {
  }

  lemma {:induction false} GatherSaves(f: int -> Tally, x: int -> nat, y: int -> nat, lo: int, hi: int)
    requires forall j :: lo <= j < hi ==> SavesAt(f, x, y, j)
    ensures Saved(Gather(f, lo, hi)) == SumFrom(x, lo, hi) - SumFrom(y, lo, hi)
    decreases hi - lo
  {
    if lo < hi {
      GatherSaves(f, x, y, lo, hi - 1);
      assert SavesAt(f, x, y, hi - 1);
      PlusSaves(Gather(f, lo, hi - 1), f(hi - 1));
    }
  }

  function TransfersAt(t: Table): int -> nat {
    (j: int) => if 0 <= j < |t.segments| then Transfers(t.segments[j]) else 0
  }

  function Lengths(f: int -> seq<Move>): int -> nat {
    (j: int) => |f(j)|
  }

  lemma {:induction false} TransferRequests(t: Table, lo: int, hi: int)
    requires 0 <= lo <= hi <= |t.segments| && forall j :: lo <= j < hi ==> t.segments[j].byteSize > 0
    ensures Requests(SegmentBatches(t, lo, hi)) == SumFrom(TransfersAt(t), lo, hi)
    decreases hi - lo
  {
    if lo < hi {
      TransferRequests(t, lo, hi - 1);
      OneMoreBatch(SegmentBatches(t, lo, hi - 1), Batch(t.segments[hi - 1].byteSize, Transfers(t.segments[hi - 1])));
    }
  }

  lemma RequestsPlus(bs: seq<Batch>, moves: seq<Move>)
    ensures Requests(bs + Sized(moves)) == Requests(bs) + |moves|
  {
    JoinedSums(bs, Sized(moves));
    SizedTotals(moves);
  }

  lemma {:induction false} AllRequests(f: int -> seq<Move>, lo: int, hi: int)
    ensures Requests(AllSized(f, lo, hi)) == SumFrom(Lengths(f), lo, hi)
    decreases hi - lo
  {
    if lo < hi {
      AllRequests(f, lo, hi - 1);
      RequestsPlus(AllSized(f, lo, hi - 1), f(hi - 1));
    }
  }

  lemma PackedRequests(t: Table, lo: int, hi: int)
    ensures Requests(SegmentsPacked(t, lo, hi)) == SumFrom(Lengths(PackedSegments(t)), lo, hi)
  {
    AllRequests(PackedSegments(t), lo, hi);
  }

  lemma TallySaves(t: Table, occurrences: nat, j: int)
    requires 0 <= j < |t.segments| && t.segments[j].byteSize > 0
    ensures SavesAt(SegmentTallies(t, occurrences), Over(occurrences, TransfersAt(t)), Over(occurrences, Lengths(PackedSegments(t))), j)
  {
    SegmentSaved(t.segments[j], t.maximumFrame, occurrences, |Packed(t.segments[j], t.maximumFrame, 0, 0)|);
  }

  lemma SegmentsSaved(t: Table, lo: int, hi: int, occurrences: nat)
    requires 0 <= lo <= hi <= |t.segments| && forall j :: lo <= j < hi ==> t.segments[j].byteSize > 0
    ensures Saved(Gather(SegmentTallies(t, occurrences), lo, hi))
         == Times(occurrences, Requests(SegmentBatches(t, lo, hi))) - Times(occurrences, Requests(SegmentsPacked(t, lo, hi)))
  {
    var x, y := Over(occurrences, TransfersAt(t)), Over(occurrences, Lengths(PackedSegments(t)));
    forall j | lo <= j < hi ensures SavesAt(SegmentTallies(t, occurrences), x, y, j) {
      TallySaves(t, occurrences, j);
    }
    GatherSaves(SegmentTallies(t, occurrences), x, y, lo, hi);
    SumOverTimes(occurrences, TransfersAt(t), lo, hi);
    SumOverTimes(occurrences, Lengths(PackedSegments(t)), lo, hi);
    TransferRequests(t, lo, hi);
    PackedRequests(t, lo, hi);
  }

  lemma RepeatedTimes(bs: seq<Batch>, times: nat)
    ensures Requests(Repeated(bs, times)) == Times(times, Requests(bs))
  {
    RepeatedRequests(bs, times);
    TimesIs(times, Requests(bs));
  }

  lemma DescriptorSaved(t: Table, i: int)
    requires 0 <= i < |t.descriptors| && DescriptorOk(t, i)
    ensures Saved(DescriptorTally(t, i)) == Requests(DescriptorBatches(t, i)) - Requests(AffineBatches(t, i))
  {
    var d := t.descriptors[i];
    if RoleOf(d.flags) == Plain {
      SizesPositive(t, i);
      var end := d.segmentOffset + d.segmentCount;
      SegmentsSaved(t, d.segmentOffset, end, Occurrences(d));
      RepeatedTimes(TransferBatches(t, i), Occurrences(d));
      RepeatedTimes(SegmentsPacked(t, d.segmentOffset, end), Occurrences(d));
    }
  }

  ghost function SavedSoFar(t: Table, direction: int): nat -> int {
    (k: nat) => if k <= |t.descriptors| && AcceptedUpTo(t, k) then Saved(TallyUpTo(t, direction, k)) else 0
  }

  ghost function RequestsSaved(t: Table, direction: int): nat -> int {
    (k: nat) =>
      if k <= |t.descriptors| && AcceptedUpTo(t, k) then Requests(PhysicalBatches(t, direction, k)) - Requests(AffineUpTo(t, direction, k))
      else 0
  }

  lemma TallyNext(t: Table, direction: int, n: nat)
    requires n < |t.descriptors| && AcceptedUpTo(t, n) && AcceptedUpTo(t, n + 1) && DescriptorOk(t, n)
    ensures Saved(TallyUpTo(t, direction, n + 1))
         == Saved(TallyUpTo(t, direction, n)) + if t.descriptors[n].direction == direction then Saved(DescriptorTally(t, n)) else 0
  {
    PlusSaves(TallyUpTo(t, direction, n), DescriptorTally(t, n));
  }

  lemma SavedAtFirst(t: Table, direction: int)
    ensures SavedSoFar(t, direction)(0) == RequestsSaved(t, direction)(0)
  {
    assert AcceptedUpTo(t, 0);
    assert Saved(TallyUpTo(t, direction, 0)) == 0;
    assert PhysicalBatches(t, direction, 0) == [] && AffineUpTo(t, direction, 0) == [];
  }

  lemma RequestsNext(t: Table, direction: int, n: nat)
    requires n < |t.descriptors| && AcceptedUpTo(t, n) && AcceptedUpTo(t, n + 1) && DescriptorOk(t, n)
    ensures Requests(PhysicalBatches(t, direction, n + 1)) - Requests(AffineUpTo(t, direction, n + 1))
         == Requests(PhysicalBatches(t, direction, n)) - Requests(AffineUpTo(t, direction, n))
            + if t.descriptors[n].direction == direction then Requests(DescriptorBatches(t, n)) - Requests(AffineBatches(t, n)) else 0
  {
    PhysicalNext(t, direction, n);
    AffineNext(t, direction, n);
  }

  /** Both grow by the same in one descriptor. */
  lemma SavedGrowth(t: Table, direction: int, k: nat)
    requires k < |t.descriptors| && AcceptedUpTo(t, k) && AcceptedUpTo(t, k + 1)
    ensures SavedSoFar(t, direction)(k + 1) - SavedSoFar(t, direction)(k)
         == RequestsSaved(t, direction)(k + 1) - RequestsSaved(t, direction)(k)
  {
    assert DescriptorOk(t, k);
    TallyNext(t, direction, k);
    RequestsNext(t, direction, k);
    DescriptorSaved(t, k);
  }

  /** In every direction of an accepted table the requests that packing saves are those that the packable
      segments save. */
  lemma TallyExplains(t: Table, direction: int, n: nat)
    requires n <= |t.descriptors| && AcceptedUpTo(t, n)
    ensures Saved(TallyUpTo(t, direction, n)) == Requests(PhysicalBatches(t, direction, n)) - Requests(AffineUpTo(t, direction, n))
  {
    forall k: nat | k < n
      ensures SavedSoFar(t, direction)(k + 1) - SavedSoFar(t, direction)(k)
           == RequestsSaved(t, direction)(k + 1) - RequestsSaved(t, direction)(k)
    {
      SavedGrowth(t, direction, k);
    }
    SavedAtFirst(t, direction);
    NeverFaster(n, SavedSoFar(t, direction), RequestsSaved(t, direction));
    NeverFaster(n, RequestsSaved(t, direction), SavedSoFar(t, direction));
  }

  /** Every packable segment has one of the two strategies. */
  ghost predicate Split(a: Tally) {
    a.segments == a.fullLinear + a.pieceLinear && a.repeatLinear == 0 && a.packed <= a.logical
  }

  lemma PackableIsLinear(s: Segment, frame: nat)
    requires s.byteSize > 0 && |Packed(s, frame, 0, 0)| < Transfers(s)
    ensures StrategyOf(s, frame) != Unpacked
  {
    PackedCount(s, frame, 0, 0);
    TransfersAre(s);
  }

  lemma SegmentSplit(s: Segment, frame: nat, occurrences: nat)
    requires s.byteSize > 0
    ensures Split(SegmentTally(s, frame, occurrences))
  {
    PackedCount(s, frame, 0, 0);
    TimesMonotone(occurrences, |Packed(s, frame, 0, 0)|, Transfers(s));
    if |Packed(s, frame, 0, 0)| < Transfers(s) { PackableIsLinear(s, frame); }
  }

  lemma PlusSplits(a: Tally, b: Tally)
    requires Split(a) && Split(b)
    ensures Split(Plus(a, b))
  {
  }

  lemma {:induction false} GatherSplits(f: int -> Tally, lo: int, hi: int)
    requires forall j :: lo <= j < hi ==> Split(f(j))
    ensures Split(Gather(f, lo, hi))
    decreases hi - lo
  {
    if lo < hi {
      GatherSplits(f, lo, hi - 1);
      PlusSplits(Gather(f, lo, hi - 1), f(hi - 1));
    }
  }

  lemma SegmentsSplit(t: Table, lo: int, hi: int, occurrences: nat)
    ensures Split(Gather(SegmentTallies(t, occurrences), lo, hi))
  {
    forall j | lo <= j < hi ensures Split(SegmentTallies(t, occurrences)(j)) {
      if 0 <= j < |t.segments| && t.segments[j].byteSize > 0 { SegmentSplit(t.segments[j], t.maximumFrame, occurrences); }
    }
    GatherSplits(SegmentTallies(t, occurrences), lo, hi);
  }

  lemma {:induction false} TallySplits(t: Table, direction: int, n: nat)
    requires n <= |t.descriptors| && AcceptedUpTo(t, n)
    ensures Split(TallyUpTo(t, direction, n))
  {
    if n > 0 {
      assert DescriptorOk(t, n - 1);
      var d := t.descriptors[n - 1];
      TallySplits(t, direction, n - 1);
      SizesPositive(t, n - 1);
      if RoleOf(d.flags) == Plain { SegmentsSplit(t, d.segmentOffset, d.segmentOffset + d.segmentCount, Occurrences(d)); }
    }
  }
}
