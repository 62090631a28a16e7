/** What the affine audit counts, told by the segments of a table and the requests they are packed into. */
module AffineCounters {
  import opened Arithmetic
  import opened DmaTables
  import opened Copies
  import opened AffineAudit
  import opened AffineTable
  import opened AffineTallies
  import opened AffineLines

  // ---- packable segments ----

  /** The segment belongs to a descriptor of the direction without a compact role. */
  predicate Eligible(t: Table, direction: int, j: int) {
    && 0 <= j < |t.segments| && t.segments[j].descriptorId < |t.descriptors|
    && var d := t.descriptors[t.segments[j].descriptorId];
       d.direction == direction && d.flags / 16 % 2 == 0 && d.flags / 32 % 2 == 0
  }

  /** Packing saves the segment a request. */
  predicate Packable(t: Table, direction: int, j: int) {
    && Eligible(t, direction, j) && t.segments[j].byteSize > 0
    && |Packed(t.segments[j], t.maximumFrame, 0, 0)| < t.segments[j].repeatCount * t.segments[j].pieceCount
  }

  function OwnIterations(t: Table, j: int): nat {
    if 0 <= j < |t.segments| && t.segments[j].descriptorId < |t.descriptors| && HasInterval(t.descriptors[t.segments[j].descriptorId])
    then Occurrences(t.descriptors[t.segments[j].descriptorId])
    else 0
  }

  ghost function Each(t: Table, direction: int): int -> nat {
    (j: int) => if Packable(t, direction, j) then 1 else 0
  }

  /** Its repetitions follow each other without gaps. */
  ghost function OneLine(t: Table, direction: int): int -> nat {
    (j: int) => if Packable(t, direction, j) && t.segments[j].repeatCount > 1 && OnLine(t.segments[j]) then 1 else 0
  }

  ghost function LinesOfPieces(t: Table, direction: int): int -> nat {
    (j: int) => if Packable(t, direction, j) && !(t.segments[j].repeatCount > 1 && OnLine(t.segments[j])) then 1 else 0
  }

  ghost function TransfersOver(t: Table, direction: int): int -> nat {
    (j: int) => if Packable(t, direction, j) then OwnIterations(t, j) * (t.segments[j].repeatCount * t.segments[j].pieceCount) else 0
  }

  ghost function RequestsOver(t: Table, direction: int): int -> nat {
    (j: int) => if Packable(t, direction, j) then OwnIterations(t, j) * |Packed(t.segments[j], t.maximumFrame, 0, 0)| else 0
  }

  /** No request of the segment holds more than so many transfers, and one holds that many. */
  ghost predicate Holds(s: Segment, frame: nat, most: nat)
    requires s.byteSize > 0
  {
    var moves := Packed(s, frame, 0, 0);
    && (forall k :: 0 <= k < |moves| ==> moves[k].bytes <= most * s.byteSize)
    && exists k :: 0 <= k < |moves| && moves[k].bytes == most * s.byteSize
  }

  /** The most transfers in one request of a packable segment, or one. */
  ghost predicate IsWidest(t: Table, direction: int, lo: int, hi: int, widest: nat) {
    && widest >= 1
    && (forall j :: lo <= j < hi && Packable(t, direction, j) ==> exists w: nat :: w <= widest && Holds(t.segments[j], t.maximumFrame, w))
    && (widest == 1 || exists j :: lo <= j < hi && Packable(t, direction, j) && Holds(t.segments[j], t.maximumFrame, widest))
  }

  /** The tally of the segments from lo to hi. */
  ghost predicate Counts(t: Table, direction: int, lo: int, hi: int, a: Tally) {
    && a.segments == SumFrom(Each(t, direction), lo, hi)
    && a.fullLinear == SumFrom(OneLine(t, direction), lo, hi)
    && a.pieceLinear == SumFrom(LinesOfPieces(t, direction), lo, hi) && a.repeatLinear == 0
    && a.logical == SumFrom(TransfersOver(t, direction), lo, hi) && a.packed == SumFrom(RequestsOver(t, direction), lo, hi)
    && IsWidest(t, direction, lo, hi, a.widest)
  }

  // ---- the widest request ----

  /** All moves are at most so long, and one is. */
  ghost predicate Longest(moves: seq<Move>, bytes: nat) {
    && (forall k :: 0 <= k < |moves| ==> moves[k].bytes <= bytes)
    && exists k :: 0 <= k < |moves| && moves[k].bytes == bytes
  }

  lemma LongestJoin(a: seq<Move>, b: seq<Move>, bytes: nat)
    requires forall k :: 0 <= k < |a| ==> a[k].bytes <= bytes
    requires Longest(b, bytes)
    ensures Longest(a + b, bytes)
  {
    var k :| 0 <= k < |b| && b[k].bytes == bytes;
    assert (a + b)[|a| + k] == b[k];
  }

  lemma LongestFirst(m: Move, rest: seq<Move>)
    requires forall k :: 0 <= k < |rest| ==> rest[k].bytes <= m.bytes
    ensures Longest([m] + rest, m.bytes)
  {
    assert ([m] + rest)[0] == m;
  }

  lemma {:induction false} PackLongest(from: int, to: int, size: nat, n: nat, width: nat)
    requires width > 0 && n > 0
    ensures Longest(Pack(from, to, size, n, width), AtMost(width, n) * size)
    decreases n
  {
    if n <= width {
      assert Pack(from, to, size, n, width)[0] == Move(from, to, n * size);
    } else {
      PackLongest(from + width * size, to + width * size, size, n - width, width);
      Monotone(AtMost(width, n - width), width, size);
      LongestFirst(Move(from, to, width * size), Pack(from + width * size, to + width * size, size, n - width, width));
    }
  }

  lemma {:induction false} RowsLongest(s: Segment, from: int, to: int, n: nat, width: nat)
    requires width > 0 && s.pieceCount > 0
    ensures forall k :: 0 <= k < |PackRows(s, from, to, n, width)| ==>
              PackRows(s, from, to, n, width)[k].bytes <= AtMost(width, s.pieceCount) * s.byteSize
    ensures n > 0 ==> Longest(PackRows(s, from, to, n, width), AtMost(width, s.pieceCount) * s.byteSize)
    decreases n
  {
    if n > 0 {
      RowsLongest(s, from, to, n - 1, width);
      PackLongest(RowFrom(s, from, n - 1), RowTo(s, to, n - 1), s.byteSize, s.pieceCount, width);
      LongestJoin(PackRows(s, from, to, n - 1, width), Pack(RowFrom(s, from, n - 1), RowTo(s, to, n - 1), s.byteSize, s.pieceCount, width),
                  AtMost(width, s.pieceCount) * s.byteSize);
    }
  }

  lemma ManyTransfers(s: Segment)
    requires s.repeatCount > 0 && s.pieceCount > 0
    ensures s.repeatCount * s.pieceCount > 0
  {
  }

  lemma WidestHolds(s: Segment, frame: nat)
    requires s.byteSize > 0 && s.repeatCount > 0 && s.pieceCount > 0 && StrategyOf(s, frame) != Unpacked
    ensures Holds(s, frame, WidestOf(s, frame)) && WidestOf(s, frame) >= 1
  {
    var width := frame / s.byteSize;
    ManyTransfers(s);
    if StrategyOf(s, frame) == Full {
      PackLongest(0, 0, s.byteSize, s.repeatCount * s.pieceCount, width);
    } else {
      RowsLongest(s, 0, 0, s.repeatCount, width);
    }
  }

  // ---- one segment ----

  lemma CountsOne(t: Table, direction: int, j: int)
    requires Eligible(t, direction, j) && 0 < t.segments[j].byteSize <= t.maximumFrame
    requires t.segments[j].repeatCount > 0 && t.segments[j].pieceCount > 0
    ensures Counts(t, direction, j, j + 1, SegmentTallies(t, OwnIterations(t, j))(j))
  {
    var s, occurrences := t.segments[j], OwnIterations(t, j);
    var packed := |Packed(s, t.maximumFrame, 0, 0)|;
    TransfersAre(s);
    TimesIs(occurrences, Transfers(s));
    TimesIs(occurrences, packed);
    OnlyOne(Each(t, direction), j);
    OnlyOne(OneLine(t, direction), j);
    OnlyOne(LinesOfPieces(t, direction), j);
    OnlyOne(TransfersOver(t, direction), j);
    OnlyOne(RequestsOver(t, direction), j);
    if Packable(t, direction, j) {
      PackableIsLinear(s, t.maximumFrame);
      StrategyMeans(s, t.maximumFrame, t.maximumFrame / s.byteSize);
      WidestHolds(s, t.maximumFrame);
    }
  }

  lemma OnlyOne(x: int -> nat, j: int)
    ensures SumFrom(x, j, j + 1) == x(j)
  {
    assert SumFrom(x, j, j) == 0;
  }

  // ---- ranges ----

  lemma {:induction false} SumJoin(x: int -> nat, lo: int, mid: int, hi: int)
    requires lo <= mid <= hi
    ensures SumFrom(x, lo, hi) == SumFrom(x, lo, mid) + SumFrom(x, mid, hi)
    decreases hi - mid
  {
    if mid < hi { SumJoin(x, lo, mid, hi - 1); }
  }

  lemma WidestJoin(t: Table, direction: int, lo: int, mid: int, hi: int, v: nat, w: nat)
    requires lo <= mid <= hi && IsWidest(t, direction, lo, mid, v) && IsWidest(t, direction, mid, hi, w)
    ensures IsWidest(t, direction, lo, hi, if v < w then w else v)
  {
    var most := if v < w then w else v;
    forall j | lo <= j < hi && Packable(t, direction, j)
      ensures exists u: nat :: u <= most && Holds(t.segments[j], t.maximumFrame, u)
    {
      if j < mid {
        var u: nat :| u <= v && Holds(t.segments[j], t.maximumFrame, u);
        assert u <= most;
      } else {
        var u: nat :| u <= w && Holds(t.segments[j], t.maximumFrame, u);
        assert u <= most;
      }
    }
  }

  lemma CountsJoin(t: Table, direction: int, lo: int, mid: int, hi: int, a: Tally, b: Tally)
    requires lo <= mid <= hi && Counts(t, direction, lo, mid, a) && Counts(t, direction, mid, hi, b)
    ensures Counts(t, direction, lo, hi, Plus(a, b))
  {
    SumJoin(Each(t, direction), lo, mid, hi);
    SumJoin(OneLine(t, direction), lo, mid, hi);
    SumJoin(LinesOfPieces(t, direction), lo, mid, hi);
    SumJoin(TransfersOver(t, direction), lo, mid, hi);
    SumJoin(RequestsOver(t, direction), lo, mid, hi);
    WidestJoin(t, direction, lo, mid, hi, a.widest, b.widest);
  }

  lemma {:induction false} SumNothing(x: int -> nat, lo: int, hi: int)
    requires forall j :: lo <= j < hi ==> x(j) == 0
    ensures SumFrom(x, lo, hi) == 0
    decreases hi - lo
  {
    if lo < hi { SumNothing(x, lo, hi - 1); }
  }

  lemma CountsNothing(t: Table, direction: int, lo: int, hi: int)
    requires forall j :: lo <= j < hi ==> !Eligible(t, direction, j)
    ensures Counts(t, direction, lo, hi, NOTHING)
  {
    SumNothing(Each(t, direction), lo, hi);
    SumNothing(OneLine(t, direction), lo, hi);
    SumNothing(LinesOfPieces(t, direction), lo, hi);
    SumNothing(TransfersOver(t, direction), lo, hi);
    SumNothing(RequestsOver(t, direction), lo, hi);
  }

  /** A well-formed segment of a descriptor that is made so many times. */
  predicate Made(t: Table, direction: int, j: int, occurrences: nat) {
    && Eligible(t, direction, j) && OwnIterations(t, j) == occurrences && 0 < t.segments[j].byteSize <= t.maximumFrame
    && t.segments[j].repeatCount > 0 && t.segments[j].pieceCount > 0
  }

  ghost predicate CountsAt(counts: (int, int, Tally) -> bool, f: int -> Tally, j: int) {
    counts(j, j + 1, f(j))
  }

  ghost predicate CountsAdd(counts: (int, int, Tally) -> bool, lo: int, mid: int, hi: int, a: Tally, b: Tally) {
    lo <= mid <= hi && counts(lo, mid, a) && counts(mid, hi, b) ==> counts(lo, hi, Plus(a, b))
  }

  lemma {:induction false} GatherCounts(counts: (int, int, Tally) -> bool, f: int -> Tally, lo: int, hi: int)
    requires lo <= hi && counts(lo, lo, NOTHING) && forall j :: lo <= j < hi ==> CountsAt(counts, f, j)
    requires forall x, y, z, a, b :: CountsAdd(counts, x, y, z, a, b)
    ensures counts(lo, hi, Gather(f, lo, hi))
    decreases hi - lo
  {
    if lo < hi {
      GatherCounts(counts, f, lo, hi - 1);
      assert CountsAt(counts, f, hi - 1);
      assert CountsAdd(counts, lo, hi - 1, hi, Gather(f, lo, hi - 1), f(hi - 1));
    }
  }

  ghost function CountsBy(t: Table, direction: int): (int, int, Tally) -> bool {
    (lo: int, hi: int, a: Tally) => Counts(t, direction, lo, hi, a)
  }

  lemma CountsMade(t: Table, direction: int, j: int, occurrences: nat)
    requires Made(t, direction, j, occurrences)
    ensures CountsAt(CountsBy(t, direction), SegmentTallies(t, occurrences), j)
  {
    CountsOne(t, direction, j);
  }

  lemma CountsAddUp(t: Table, direction: int, lo: int, mid: int, hi: int, a: Tally, b: Tally)
    ensures CountsAdd(CountsBy(t, direction), lo, mid, hi, a, b)
  {
    if lo <= mid <= hi && Counts(t, direction, lo, mid, a) && Counts(t, direction, mid, hi, b) {
      CountsJoin(t, direction, lo, mid, hi, a, b);
    }
  }

  lemma CountsRange(t: Table, direction: int, lo: int, hi: int, occurrences: nat)
    requires lo <= hi && forall j :: lo <= j < hi ==> Made(t, direction, j, occurrences)
    ensures Counts(t, direction, lo, hi, Gather(SegmentTallies(t, occurrences), lo, hi))
  {
    var counts := CountsBy(t, direction);
    forall j | lo <= j < hi ensures CountsAt(counts, SegmentTallies(t, occurrences), j) {
      CountsMade(t, direction, j, occurrences);
    }
    forall x, y, z, a, b ensures CountsAdd(counts, x, y, z, a, b) {
      CountsAddUp(t, direction, x, y, z, a, b);
    }
    CountsNothing(t, direction, lo, lo);
    GatherCounts(counts, SegmentTallies(t, occurrences), lo, hi);
  }

  // ---- descriptors ----

  /** Which segments of a descriptor count: all or none. */
  lemma SegmentsOfDescriptor(t: Table, direction: int, i: int, j: int)
    requires 0 <= i < |t.descriptors| && DescriptorOk(t, i)
    requires t.descriptors[i].segmentOffset <= j < t.descriptors[i].segmentOffset + t.descriptors[i].segmentCount
    ensures if t.descriptors[i].direction == direction && RoleOf(t.descriptors[i].flags) == Plain
            then Made(t, direction, j, Occurrences(t.descriptors[i]))
            else !Eligible(t, direction, j)
  {
    assert SegmentOk(t, i, j);
  }

  ghost function TallyIn(t: Table, direction: int, i: int): Tally
    requires 0 <= i < |t.descriptors| && DescriptorOk(t, i)
  {
    if t.descriptors[i].direction == direction then DescriptorTally(t, i) else NOTHING
  }

  lemma CountsDescriptor(t: Table, direction: int, i: int)
    requires 0 <= i < |t.descriptors| && DescriptorOk(t, i)
    ensures var d := t.descriptors[i];
            Counts(t, direction, d.segmentOffset, d.segmentOffset + d.segmentCount, TallyIn(t, direction, i))
  {
    var d := t.descriptors[i];
    var lo, hi := d.segmentOffset, d.segmentOffset + d.segmentCount;
    forall j | lo <= j < hi
      ensures if d.direction == direction && RoleOf(d.flags) == Plain then Made(t, direction, j, Occurrences(d)) else !Eligible(t, direction, j)
    {
      SegmentsOfDescriptor(t, direction, i, j);
    }
    if d.direction == direction && RoleOf(d.flags) == Plain {
      CountsRange(t, direction, lo, hi, Occurrences(d));
    } else {
      CountsNothing(t, direction, lo, hi);
    }
  }

  lemma PlusNothing(a: Tally)
    requires a.widest >= 1
    ensures Plus(a, NOTHING) == a
  {
  }

  lemma TallyMore(t: Table, direction: int, n: nat, a: Tally)
    requires 0 < n <= |t.descriptors| && AcceptedUpTo(t, n) && DescriptorOk(t, n - 1) && AcceptedUpTo(t, n - 1)
    requires a == TallyUpTo(t, direction, n - 1) && a.widest >= 1
    ensures TallyUpTo(t, direction, n) == Plus(a, TallyIn(t, direction, n - 1))
  {
    PlusNothing(a);
  }

  lemma StartOfNext(t: Table, i: nat)
    requires i < |t.descriptors| && DescriptorOk(t, i)
    ensures t.descriptors[i].segmentOffset == SegmentStart(t, i)
    ensures SegmentStart(t, i + 1) == SegmentStart(t, i) + t.descriptors[i].segmentCount
  {
  }

  /** One step of a tally that grows along a table. */
  ghost predicate StepCounts(counts: (int, int, Tally) -> bool, start: nat -> int, total: nat -> Tally, more: nat -> Tally, k: nat) {
    0 <= start(k) <= start(k + 1) && counts(start(k), start(k + 1), more(k)) && total(k + 1) == Plus(total(k), more(k))
  }

  lemma {:induction false} StepsCount(counts: (int, int, Tally) -> bool, start: nat -> int, total: nat -> Tally, more: nat -> Tally, n: nat)
    requires forall k: nat :: k < n ==> StepCounts(counts, start, total, more, k)
    requires start(0) == 0 && counts(0, 0, total(0))
    requires forall x, y, z, a, b :: CountsAdd(counts, x, y, z, a, b)
    ensures counts(0, start(n), total(n))
    decreases n
  {
    if n > 0 {
      StepsCount(counts, start, total, more, n - 1);
      assert StepCounts(counts, start, total, more, n - 1);
      assert CountsAdd(counts, 0, start(n - 1), start(n), total(n - 1), more(n - 1));
    }
  }

  ghost function StartOf(t: Table): nat -> int {
    (k: nat) => if k <= |t.descriptors| then SegmentStart(t, k) else 0
  }

  ghost function TotalOf(t: Table, direction: int): nat -> Tally {
    (k: nat) => if k <= |t.descriptors| && AcceptedUpTo(t, k) then TallyUpTo(t, direction, k) else NOTHING
  }

  ghost function MoreOf(t: Table, direction: int): nat -> Tally {
    (k: nat) => if k < |t.descriptors| && DescriptorOk(t, k) then TallyIn(t, direction, k) else NOTHING
  }

  lemma AtLeastOne(t: Table, direction: int, n: nat)
    requires n <= |t.descriptors| && AcceptedUpTo(t, n)
    ensures TallyUpTo(t, direction, n).widest >= 1
    decreases n
  {
    if n > 0 {
      assert DescriptorOk(t, n - 1);
      AtLeastOne(t, direction, n - 1);
    }
  }

  lemma TotalStep(t: Table, direction: int, k: nat)
    requires k < |t.descriptors| && AcceptedUpTo(t, k) && AcceptedUpTo(t, k + 1) && DescriptorOk(t, k)
    ensures TotalOf(t, direction)(k + 1) == Plus(TotalOf(t, direction)(k), MoreOf(t, direction)(k))
  {
    AtLeastOne(t, direction, k);
    TallyMore(t, direction, k + 1, TallyUpTo(t, direction, k));
  }

  lemma RangeStep(t: Table, direction: int, k: nat)
    requires k < |t.descriptors| && DescriptorOk(t, k)
    ensures 0 <= StartOf(t)(k) <= StartOf(t)(k + 1)
    ensures CountsBy(t, direction)(StartOf(t)(k), StartOf(t)(k + 1), MoreOf(t, direction)(k))
  {
    StartOfNext(t, k);
    CountsDescriptor(t, direction, k);
  }

  lemma TableStep(t: Table, direction: int, k: nat)
    requires k < |t.descriptors| && AcceptedUpTo(t, k) && AcceptedUpTo(t, k + 1)
    ensures StepCounts(CountsBy(t, direction), StartOf(t), TotalOf(t, direction), MoreOf(t, direction), k)
  {
    assert DescriptorOk(t, k);
    TotalStep(t, direction, k);
    RangeStep(t, direction, k);
  }

  /** The counters of an accepted table: its packable segments, those on one line and the others, their
      transfers and their requests over all iterations, and the most transfers that one request holds. */
  lemma TallyMeans(t: Table, direction: int)
    requires Accepted(t)
    ensures Counts(t, direction, 0, |t.segments|, TallyUpTo(t, direction, |t.descriptors|))
  {
    var counts := CountsBy(t, direction);
    forall k: nat | k < |t.descriptors| ensures StepCounts(counts, StartOf(t), TotalOf(t, direction), MoreOf(t, direction), k) {
      TableStep(t, direction, k);
    }
    forall x, y, z, a, b ensures CountsAdd(counts, x, y, z, a, b) {
      CountsAddUp(t, direction, x, y, z, a, b);
    }
    CountsNothing(t, direction, 0, 0);
    StepsCount(counts, StartOf(t), TotalOf(t, direction), MoreOf(t, direction), |t.descriptors|);
  }
}
