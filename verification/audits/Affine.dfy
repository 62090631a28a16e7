/** The affine-segment audit: packed requests of every segment, their histogram, and why its errors
    cannot be raised on an accepted table. */
module AffineAudit {
  import opened Arithmetic
  import opened Sequences
  import opened Options
  import opened Histograms
  import opened DmaTables
  import opened DmaAccounting
  import opened Copies

  // ---- the packed requests as batches ----

  /** One batch for each request. */
  function Sized(moves: seq<Move>): seq<Batch> {
    if moves == [] then [] else Sized(moves[..|moves| - 1]) + [Batch(moves[|moves| - 1].bytes, 1)]
  }

  lemma SizedMore(moves: seq<Move>, m: Move)
    ensures Sized(moves + [m]) == Sized(moves) + [Batch(m.bytes, 1)]
  {
    assert (moves + [m])[..|moves|] == moves;
  }

  lemma {:induction false} SizedJoin(a: seq<Move>, b: seq<Move>)
    ensures Sized(a + b) == Sized(a) + Sized(b)
    decreases |b|
  {
    if b == [] {
      assert a + b == a;
    } else {
      var init, last := b[..|b| - 1], b[|b| - 1];
      SizedJoin(a, init);
      SplitLast(b);
      Associate(a, init, [last]);
      SizedMore(a + init, last);
      SizedMore(init, last);
      Associate(Sized(a), Sized(init), [Batch(last.bytes, 1)]);
    }
  }

  /** As many requests as moves, and as many bytes as they copy. */
  lemma {:induction false} SizedTotals(moves: seq<Move>)
    ensures Requests(Sized(moves)) == |moves| && Bytes(Sized(moves)) == |Copied(moves)|
  {
    if moves != [] {
      var init, last := moves[..|moves| - 1], moves[|moves| - 1];
      SizedTotals(init);
      OneMoreBatch(Sized(init), Batch(last.bytes, 1));
      assert last.bytes * 1 == last.bytes;
      assert |Copied(moves)| == |Copied(init)| + last.bytes;
    }
  }

  /** A number of full requests, and perhaps one for the tail. */
  function TwoBatches(full: nat, fullSize: int, tail: bool, tailSize: int): seq<Batch> {
    (if full > 0 then [Batch(fullSize, full)] else []) + (if tail then [Batch(tailSize, 1)] else [])
  }

  /** A line packed. */
  function PackBatches(size: nat, n: nat, width: nat): seq<Batch>
    requires width > 0
  {
    TwoBatches(n / width, width * size, n % width > 0, n % width * size)
  }

  lemma CountOfTwo(a: seq<Batch>, b: seq<Batch>, z: int)
    requires |a| <= 1 && |b| <= 1
    ensures CountOf(a + b, z) == (if a != [] && a[0].size == z then a[0].count else 0) + (if b != [] && b[0].size == z then b[0].count else 0)
  {
    Concatenated(a, b);
    CountOfOne(a, z);
    CountOfOne(b, z);
  }

  lemma CountOfOne(a: seq<Batch>, z: int)
    requires |a| <= 1
    ensures CountOf(a, z) == if a != [] && a[0].size == z then a[0].count else 0
  {
    if a != [] {
      OneMoreBatch([], a[0]);
      assert [] + [a[0]] == a;
    }
  }

  /** How many requests of size z the batches hold: `full` of size `fullSize` and perhaps one of `tailSize`. */
  function TwoCounts(full: nat, fullSize: int, tail: bool, tailSize: int, z: int): nat {
    (if full > 0 && fullSize == z then full else 0) + (if tail && tailSize == z then 1 else 0)
  }

  lemma TwoBatchesCount(full: nat, fullSize: int, tail: bool, tailSize: int, z: int)
    ensures CountOf(TwoBatches(full, fullSize, tail, tailSize), z) == TwoCounts(full, fullSize, tail, tailSize, z)
  {
    CountOfTwo(if full > 0 then [Batch(fullSize, full)] else [], if tail then [Batch(tailSize, 1)] else [], z);
  }

  lemma SizedOne(m: Move)
    ensures Sized([m]) == [Batch(m.bytes, 1)]
    ensures forall z :: CountOf(Sized([m]), z) == if m.bytes == z then 1 else 0
  {
    SizedMore([], m);
    assert [] + [m] == [m];
    OneMoreBatch([], Batch(m.bytes, 1));
    assert Sized([m]) == [] + [Batch(m.bytes, 1)];
  }

  lemma TwoCountsStep(n: nat, width: nat, size: nat, z: int)
    requires width > 0 && n > width
    ensures TwoCounts(n / width, width * size, n % width > 0, n % width * size, z)
         == (if width * size == z then 1 else 0)
            + TwoCounts((n - width) / width, width * size, (n - width) % width > 0, (n - width) % width * size, z)
  {
    CeilStep(n, width);
  }

  /** The first request of a longer line, and the rest. */
  lemma PackFirst(from: int, to: int, size: nat, n: nat, width: nat, z: int)
    requires width > 0 && n > width
    ensures CountOf(Sized(Pack(from, to, size, n, width)), z)
         == (if width * size == z then 1 else 0)
            + CountOf(Sized(Pack(from + width * size, to + width * size, size, n - width, width)), z)
  {
    var first, rest := [Move(from, to, width * size)], Pack(from + width * size, to + width * size, size, n - width, width);
    SizedJoin(first, rest);
    Concatenated(Sized(first), Sized(rest));
    SizedOne(first[0]);
  }

  lemma ShortLine(from: int, to: int, size: nat, n: nat, width: nat, z: int)
    requires 0 < n <= width
    ensures CountOf(Sized(Pack(from, to, size, n, width)), z) == if n * size == z then 1 else 0
  {
    SizedOne(Move(from, to, n * size));
  }

  lemma ShortCounts(size: nat, n: nat, width: nat, z: int)
    requires 0 < n <= width
    ensures TwoCounts(n / width, width * size, n % width > 0, n % width * size, z) == if n * size == z then 1 else 0
  {
    if n < width {
      DivisionUnique(n, width, 0, n);
    } else {
      DivisionUnique(n, width, 1, 0);
    }
  }

  /** `expected` says how many requests of size z a line of n transfers makes, short or long. */
  ghost predicate CountsLine(expected: nat -> int, size: nat, width: nat, z: int) {
    && expected(0) == 0
    && (forall n: nat :: 0 < n <= width ==> expected(n) == if n * size == z then 1 else 0)
    && (forall n: nat :: n > width ==> expected(n) == (if width * size == z then 1 else 0) + expected(n - width))
  }

  lemma {:induction false} PackSizesBy(expected: nat -> int, from: int, to: int, size: nat, n: nat, width: nat, z: int)
    requires width > 0 && CountsLine(expected, size, width, z)
    ensures CountOf(Sized(Pack(from, to, size, n, width)), z) == expected(n)
    decreases n
  {
    if 0 < n <= width {
      ShortLine(from, to, size, n, width, z);
    } else if n > width {
      PackFirst(from, to, size, n, width, z);
      PackSizesBy(expected, from + width * size, to + width * size, size, n - width, width, z);
    }
  }

  function TwoCountsOf(size: nat, width: nat, z: int): nat -> int
    requires width > 0
  {
    (n: nat) => TwoCounts(n / width, width * size, n % width > 0, n % width * size, z)
  }

  lemma TwoCountsLine(size: nat, width: nat, z: int)
    requires width > 0
    ensures CountsLine(TwoCountsOf(size, width, z), size, width, z)
  {
    DivisionUnique(0, width, 0, 0);
    forall n: nat | 0 < n <= width ensures TwoCountsOf(size, width, z)(n) == if n * size == z then 1 else 0 {
      ShortCounts(size, n, width, z);
    }
    forall n: nat | n > width
      ensures TwoCountsOf(size, width, z)(n) == (if width * size == z then 1 else 0) + TwoCountsOf(size, width, z)(n - width)
    {
      TwoCountsStep(n, width, size, z);
    }
  }

  lemma PackSizes(from: int, to: int, size: nat, n: nat, width: nat, z: int)
    requires width > 0
    ensures CountOf(Sized(Pack(from, to, size, n, width)), z) == TwoCounts(n / width, width * size, n % width > 0, n % width * size, z)
  {
    TwoCountsLine(size, width, z);
    PackSizesBy(TwoCountsOf(size, width, z), from, to, size, n, width, z);
  }

  /** The batches have the same histogram as the list of requests. */
  lemma PackHistogram(from: int, to: int, size: nat, n: nat, width: nat, z: int)
    requires width > 0
    ensures CountOf(Sized(Pack(from, to, size, n, width)), z) == CountOf(PackBatches(size, n, width), z)
  {
    PackSizes(from, to, size, n, width, z);
    TwoBatchesCount(n / width, width * size, n % width > 0, n % width * size, z);
  }

  /** Packing never adds requests. */
  lemma CeilBelow(n: nat, width: nat)
    requires width > 0
    ensures CeilDiv(n, width) <= n
  {
    assert n == n / width * width + n % width;
    Monotone(1, width, n / width);
  }

  lemma {:induction false} PackRowsCount(s: Segment, from: int, to: int, n: nat, width: nat)
    requires width > 0
    ensures |PackRows(s, from, to, n, width)| == n * CeilDiv(s.pieceCount, width)
  {
    if n > 0 {
      PackRowsCount(s, from, to, n - 1, width);
      PackCount(RowFrom(s, from, n - 1), RowTo(s, to, n - 1), s.byteSize, s.pieceCount, width);
      assert n * CeilDiv(s.pieceCount, width) == (n - 1) * CeilDiv(s.pieceCount, width) + CeilDiv(s.pieceCount, width);
    }
  }

  lemma {:induction false} TransferredCount(s: Segment, from: int, to: int, n: nat)
    ensures |Transferred(s, from, to, n)| == n * s.pieceCount
  {
    if n > 0 {
      TransferredCount(s, from, to, n - 1);
      assert n * s.pieceCount == (n - 1) * s.pieceCount + s.pieceCount;
    }
  }

  /** How many requests a packed segment needs in each occurrence. */
  lemma PackedCount(s: Segment, frame: nat, from: int, to: int)
    requires s.byteSize > 0
    ensures |Packed(s, frame, from, to)| == match StrategyOf(s, frame)
                                             case Full => CeilDiv(s.repeatCount * s.pieceCount, frame / s.byteSize)
                                             case Rows => s.repeatCount * CeilDiv(s.pieceCount, frame / s.byteSize)
                                             case Unpacked => s.repeatCount * s.pieceCount
    ensures |Packed(s, frame, from, to)| <= Transfers(s)
  {
    TransfersAre(s);
    match StrategyOf(s, frame)
    case Full =>
      PackCount(from, to, s.byteSize, s.repeatCount * s.pieceCount, frame / s.byteSize);
      CeilBelow(s.repeatCount * s.pieceCount, frame / s.byteSize);
    case Rows =>
      PackRowsCount(s, from, to, s.repeatCount, frame / s.byteSize);
      CeilBelow(s.pieceCount, frame / s.byteSize);
      Monotone(CeilDiv(s.pieceCount, frame / s.byteSize), s.pieceCount, s.repeatCount);
    case Unpacked =>
      TransferredCount(s, from, to, s.repeatCount);
  }

  lemma {:induction false} PiecesBytes(s: Segment, from: int, to: int, n: nat)
    ensures |Copied(Pieces(s, from, to, n))| == n * s.byteSize
  {
    if n > 0 {
      PiecesBytes(s, from, to, n - 1);
      CopiedMore(Pieces(s, from, to, n - 1), Move(PieceFrom(s, from, n - 1), PieceTo(s, to, n - 1), s.byteSize));
      OneTime(n, s.byteSize);
    }
  }

  lemma {:induction false} TransferredBytes(s: Segment, from: int, to: int, n: nat)
    ensures |Copied(Transferred(s, from, to, n))| == n * s.pieceCount * s.byteSize
  {
    if n > 0 {
      TransferredBytes(s, from, to, n - 1);
      CopiedJoin(Transferred(s, from, to, n - 1), Pieces(s, RowFrom(s, from, n - 1), RowTo(s, to, n - 1), s.pieceCount));
      PiecesBytes(s, RowFrom(s, from, n - 1), RowTo(s, to, n - 1), s.pieceCount);
      Product(n, s.pieceCount, s.byteSize);
    }
  }

  lemma PackedAtMost(s: Segment, frame: nat, from: int, to: int)
    requires s.byteSize > 0
    ensures |Packed(s, frame, from, to)| <= Transfers(s)
  {
    PackedCount(s, frame, from, to);
  }

  lemma TransfersBytes(s: Segment, from: int, to: int)
    ensures |Copied(Transferred(s, from, to, s.repeatCount))| == s.byteSize * Transfers(s)
  {
    TransferredBytes(s, from, to, s.repeatCount);
    TransfersAre(s);
  }

  /** Packing conserves bytes. */
  lemma PackedTotals(s: Segment, frame: nat, from: int, to: int)
    requires s.byteSize > 0
    ensures Bytes(Sized(Packed(s, frame, from, to))) == s.byteSize * Transfers(s)
    ensures Requests(Sized(Packed(s, frame, from, to))) <= Transfers(s)
  {
    SizedTotals(Packed(s, frame, from, to));
    SameCopy(s, frame, from, to);
    TransfersBytes(s, from, to);
    PackedAtMost(s, frame, from, to);
  }

  // ---- one segment ----

  /** Adds the requests of so many packed lines of n transfers each. */
  method AddPackedSequenceHistogram(h: Histogram, size: nat, n: nat, sequences: nat, frame: nat, ghost before: seq<Batch>)
    returns (error: Option<AuditError>, r: Histogram, requests: nat)
    requires size > 0 && Describes(h, before)
    ensures error.None? <==> size <= frame
    ensures error.None? ==> frame / size > 0 && Describes(r, before + Repeated(PackBatches(size, n, frame / size), sequences))
    ensures error.None? ==> requests == CeilDiv(n, frame / size) * sequences
    ensures error.Some? ==> error == Some(OversizedTransfer)
  {
    var width := frame / size;
    FrameHolds(size, frame);
    if width == 0 { return Some(OversizedTransfer), h, 0; }
    var full, tail := n / width, n % width;
    r := AddTwo(h, full, width * size, tail != 0, tail * size, sequences, before);
    requests := (full + if tail != 0 then 1 else 0) * sequences;
    error := None;
  }

  /** So many more requests of one size, if any. */
  method AddSome(h: Histogram, present: bool, size: int, count: nat, ghost before: seq<Batch>) returns (r: Histogram)
    requires Describes(h, before)
    ensures Describes(r, before + if present then [Batch(size, count)] else [])
  {
    r := h;
    if present {
      r := AddHistogramCount(r, size, count);
      DescribesMore(h, r, before, Batch(size, count));
    } else {
      assert before + [] == before;
    }
  }

  /** The full requests of so many sequences, and their tails. */
  method AddTwo(h: Histogram, full: nat, fullSize: int, tail: bool, tailSize: int, sequences: nat, ghost before: seq<Batch>) returns (r: Histogram)
    requires Describes(h, before)
    ensures Describes(r, before + Repeated(TwoBatches(full, fullSize, tail, tailSize), sequences))
  {
    var all := full * sequences;
    Swap(full, sequences);
    RepeatedTwo(full, fullSize, tail, tailSize, sequences);
    ghost var first, second := if full > 0 then [Batch(fullSize, all)] else [], if tail then [Batch(tailSize, sequences * 1)] else [];
    r := AddSome(h, full != 0, fullSize, all, before);
    r := AddSome(r, tail, tailSize, sequences, before + first);
    Associate(before, first, second);
  }

  lemma Swap(a: nat, b: nat)
    ensures a * b == b * a && b * 1 == b
  {
  }

  lemma FrameHolds(size: nat, frame: nat)
    requires size > 0
    ensures frame / size == 0 <==> frame < size
  {
    if frame < size { DivisionUnique(frame, size, 0, frame); }
  }

  lemma RepeatedOne(b: Batch, times: nat)
    ensures Repeated([b], times) == [Batch(b.size, times * b.count)]
  {
    assert [b][..0] == [];
    assert Repeated([b], times) == Repeated([b][..0], times) + [Batch(b.size, times * b.count)];
  }

  lemma RepeatedTwo(full: nat, fullSize: int, tail: bool, tailSize: int, times: nat)
    ensures Repeated(TwoBatches(full, fullSize, tail, tailSize), times)
         == (if full > 0 then [Batch(fullSize, times * full)] else []) + (if tail then [Batch(tailSize, times * 1)] else [])
  {
    var a, b := Batch(fullSize, full), Batch(tailSize, 1);
    if full > 0 {
      RepeatedOne(a, times);
      if tail {
        assert TwoBatches(full, fullSize, tail, tailSize) == [a] + [b];
        assert ([a] + [b])[..1] == [a];
      } else {
        assert TwoBatches(full, fullSize, tail, tailSize) == [a];
      }
    } else if tail {
      assert TwoBatches(full, fullSize, tail, tailSize) == [b];
      RepeatedOne(b, times);
    }
  }

  lemma JoinedCount(a: seq<Move>, b: seq<Move>, z: int)
    ensures CountOf(Sized(a + b), z) == CountOf(Sized(a), z) + CountOf(Sized(b), z)
  {
    SizedJoin(a, b);
    Concatenated(Sized(a), Sized(b));
  }

  lemma {:induction false} RowsHistogram(s: Segment, from: int, to: int, n: nat, width: nat, z: int)
    requires width > 0
    ensures CountOf(Sized(PackRows(s, from, to, n, width)), z) == n * CountOf(PackBatches(s.byteSize, s.pieceCount, width), z)
  {
    if n > 0 {
      var row := Pack(RowFrom(s, from, n - 1), RowTo(s, to, n - 1), s.byteSize, s.pieceCount, width);
      RowsHistogram(s, from, to, n - 1, width, z);
      JoinedCount(PackRows(s, from, to, n - 1, width), row, z);
      PackHistogram(RowFrom(s, from, n - 1), RowTo(s, to, n - 1), s.byteSize, s.pieceCount, width, z);
      OneTime(n, CountOf(PackBatches(s.byteSize, s.pieceCount, width), z));
    }
  }

  lemma OneTime(n: nat, x: nat)
    requires n > 0
    ensures n * x == (n - 1) * x + x
  {
  }

  lemma {:induction false} PiecesHistogram(s: Segment, from: int, to: int, n: nat, z: int)
    ensures CountOf(Sized(Pieces(s, from, to, n)), z) == if z == s.byteSize then n else 0
  {
    if n > 0 {
      PiecesHistogram(s, from, to, n - 1, z);
      var last := Move(PieceFrom(s, from, n - 1), PieceTo(s, to, n - 1), s.byteSize);
      SizedMore(Pieces(s, from, to, n - 1), last);
      OneMoreBatch(Sized(Pieces(s, from, to, n - 1)), Batch(s.byteSize, 1));
    }
  }

  lemma {:induction false} TransferredHistogram(s: Segment, from: int, to: int, n: nat, z: int)
    ensures CountOf(Sized(Transferred(s, from, to, n)), z) == if z == s.byteSize then n * s.pieceCount else 0
  {
    if n > 0 {
      TransferredHistogram(s, from, to, n - 1, z);
      RowHistogram(s, Transferred(s, from, to, n - 1), RowFrom(s, from, n - 1), RowTo(s, to, n - 1), z);
      OneTime(n, s.pieceCount);
    }
  }

  /** One more row of unpacked pieces. */
  lemma RowHistogram(s: Segment, before: seq<Move>, from: int, to: int, z: int)
    ensures CountOf(Sized(before + Pieces(s, from, to, s.pieceCount)), z)
         == CountOf(Sized(before), z) + if z == s.byteSize then s.pieceCount else 0
  {
    JoinedCount(before, Pieces(s, from, to, s.pieceCount), z);
    PiecesHistogram(s, from, to, s.pieceCount, z);
  }

  /** The strategy that the audit names; the last one is never chosen. */
  datatype Choice = NoPacking | FullyLinear | PieceRows | RepeatRow

  ghost function ChoiceOf(strategy: Strategy): Choice {
    match strategy
    case Full => FullyLinear
    case Rows => PieceRows
    case Unpacked => NoPacking
  }

  /** The most transfers of a segment in one request. */
  function WidestOf(s: Segment, frame: nat): nat
    requires s.byteSize > 0
  {
    match StrategyOf(s, frame)
    case Full => AtMost(frame / s.byteSize, s.repeatCount * s.pieceCount)
    case Rows => AtMost(frame / s.byteSize, s.pieceCount)
    case Unpacked => 1
  }

  function AtMost(a: nat, b: nat): nat {
    if a <= b then a else b
  }

  /** Packs one segment for one occurrence: the histogram is that of the packed requests, wherever the
      segment lies. */
  method PackSegment(s: Segment, frame: nat, ghost from: int, ghost to: int)
    returns (error: Option<AuditError>, local: Histogram, requests: nat, choice: Choice, widest: nat)
    requires 0 < s.byteSize <= frame
    ensures error.None? && choice == ChoiceOf(StrategyOf(s, frame)) && widest == WidestOf(s, frame)
    ensures Describes(local, Sized(Packed(s, frame, from, to))) && requests == |Packed(s, frame, from, to)|
  {
    error, local, requests, choice, widest := None, map[], 0, NoPacking, 1;
    var width := frame / s.byteSize;
    var transfers := s.repeatCount * s.pieceCount;
    PackedCount(s, frame, from, to);
    if width > 1 && FullLinear(s) {
      error, local, requests := AddPackedSequenceHistogram(map[], s.byteSize, transfers, 1, frame, []);
      choice, widest := FullyLinear, AtMost(width, transfers);
      forall z ensures Get(local, z) == CountOf(Sized(Packed(s, frame, from, to)), z) {
        PackHistogram(from, to, s.byteSize, transfers, width, z);
        OnceOnly(PackBatches(s.byteSize, transfers, width), 1, z);
      }
    } else if width > 1 && PieceLinear(s) {
      error, local, requests := AddPackedSequenceHistogram(map[], s.byteSize, s.pieceCount, s.repeatCount, frame, []);
      choice, widest := PieceRows, AtMost(width, s.pieceCount);
      forall z ensures Get(local, z) == CountOf(Sized(Packed(s, frame, from, to)), z) {
        RowsHistogram(s, from, to, s.repeatCount, width, z);
        OnceOnly(PackBatches(s.byteSize, s.pieceCount, width), s.repeatCount, z);
      }
    } else if width > 1 && s.pieceCount == 1 && RepeatLinear(s) {
      // A repeat-linear segment of single pieces is fully linear: the first branch has taken it.
      choice := RepeatRow;
      assert false;
    } else {
      local, requests := map[s.byteSize := transfers], transfers;
      forall z ensures Get(local, z) == CountOf(Sized(Packed(s, frame, from, to)), z) {
        TransferredHistogram(s, from, to, s.repeatCount, z);
      }
    }
  }

  lemma OnceOnly(bs: seq<Batch>, times: nat, z: int)
    ensures CountOf([] + Repeated(bs, times), z) == times * CountOf(bs, z)
  {
    RepeatedTotals(bs, times);
    assert [] + Repeated(bs, times) == Repeated(bs, times);
  }
}
