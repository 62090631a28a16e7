/** Transfers as copies of bytes: the transfers of a segment, the packed requests that replace them, and
    why both copy the same bytes in the same order. */
module Copies {
  import opened Arithmetic
  import opened Sequences
  import opened DmaTables

  /** One request: so many bytes from a global address on to a scratchpad address on. */
  datatype Move = Move(from: int, to: int, bytes: nat)

  /** The byte pairs of one request. */
  function Line(from: int, to: int, n: nat): (r: seq<(int, int)>)
    ensures |r| == n
  {
    if n == 0 then [] else Line(from, to, n - 1) + [(from + n - 1, to + n - 1)]
  }

  lemma {:induction false} LineJoin(from: int, to: int, m: nat, n: nat)
    ensures Line(from, to, m) + Line(from + m, to + m, n) == Line(from, to, m + n)
  {
    if n == 0 {
      assert Line(from, to, m) + [] == Line(from, to, m);
    } else {
      LineJoin(from, to, m, n - 1);
      assert Line(from, to, m) + Line(from + m, to + m, n)
          == Line(from, to, m) + Line(from + m, to + m, n - 1) + [(from + (m + n) - 1, to + (m + n) - 1)];
    }
  }

  /** The bytes copied by a list of requests, in order. */
  function Copied(moves: seq<Move>): seq<(int, int)> {
    if moves == [] then []
    else Copied(moves[..|moves| - 1]) + Line(moves[|moves| - 1].from, moves[|moves| - 1].to, moves[|moves| - 1].bytes)
  }

  lemma CopiedMore(moves: seq<Move>, m: Move)
    ensures Copied(moves + [m]) == Copied(moves) + Line(m.from, m.to, m.bytes)
  {
    assert (moves + [m])[..|moves|] == moves;
  }

  lemma {:induction false} CopiedJoin(a: seq<Move>, b: seq<Move>)
    ensures Copied(a + b) == Copied(a) + Copied(b)
    decreases |b|
  {
    if b == [] {
      assert a + b == a;
    } else {
      var init, last := b[..|b| - 1], b[|b| - 1];
      CopiedJoin(a, init);
      SplitLast(b);
      Associate(a, init, [last]);
      CopiedMore(a + init, last);
      CopiedMore(init, last);
      Associate(Copied(a), Copied(init), Line(last.from, last.to, last.bytes));
    }
  }

  /** One more request at the end of a line. */
  lemma LinePlus(moves: seq<Move>, last: Move, from: int, to: int, n: nat)
    requires Copied(moves) == Line(from, to, n) && last.from == from + n && last.to == to + n
    ensures Copied(moves + [last]) == Line(from, to, n + last.bytes)
  {
    CopiedMore(moves, last);
    LineJoin(from, to, n, last.bytes);
  }

  /** One line after another. */
  lemma LinesJoin(a: seq<Move>, b: seq<Move>, from: int, to: int, m: nat, n: nat)
    requires Copied(a) == Line(from, to, m) && Copied(b) == Line(from + m, to + m, n)
    ensures Copied(a + b) == Line(from, to, m + n)
  {
    CopiedJoin(a, b);
    LineJoin(from, to, m, n);
  }

  // ---- the transfers of a segment ----

  /** Where piece n begins. */
  function PieceFrom(s: Segment, from: int, n: nat): int {
    from + n * s.globalPieceStride
  }

  function PieceTo(s: Segment, to: int, n: nat): int {
    to + n * s.scratchpadPieceStride
  }

  /** n pieces from the given addresses on. */
  function Pieces(s: Segment, from: int, to: int, n: nat): (r: seq<Move>)
    ensures |r| == n
  {
    if n == 0 then []
    else Pieces(s, from, to, n - 1) + [Move(PieceFrom(s, from, n - 1), PieceTo(s, to, n - 1), s.byteSize)]
  }

  /** Where repetition n begins. */
  function RowFrom(s: Segment, from: int, n: nat): int {
    from + n * s.globalRepeatStride
  }

  function RowTo(s: Segment, to: int, n: nat): int {
    to + n * s.scratchpadRepeatStride
  }

  /** n repetitions, the pieces of each in order. */
  function Transferred(s: Segment, from: int, to: int, n: nat): seq<Move> {
    if n == 0 then []
    else Transferred(s, from, to, n - 1)
         + Pieces(s, RowFrom(s, from, n - 1), RowTo(s, to, n - 1), s.pieceCount)
  }

  predicate PieceLinear(s: Segment) {
    s.pieceCount > 1 && s.globalPieceStride == s.byteSize && s.scratchpadPieceStride == s.byteSize
  }

  predicate RepeatLinear(s: Segment) {
    s.repeatCount > 1 && s.globalRepeatStride == s.pieceCount * s.byteSize && s.scratchpadRepeatStride == s.pieceCount * s.byteSize
  }

  predicate FullLinear(s: Segment) {
    RepeatLinear(s) && (s.pieceCount == 1 || PieceLinear(s))
  }

  /** Where piece n stands on the line. */
  lemma PieceOnLine(s: Segment, from: int, to: int, n: nat)
    requires n == 0 || (s.globalPieceStride == s.byteSize && s.scratchpadPieceStride == s.byteSize)
    ensures PieceFrom(s, from, n) == from + Times(n, s.byteSize) && PieceTo(s, to, n) == to + Times(n, s.byteSize)
  {
    TimesIs(n, s.byteSize);
  }

  lemma {:induction false} PiecesFollow(s: Segment, from: int, to: int, n: nat)
    requires n <= 1 || (s.globalPieceStride == s.byteSize && s.scratchpadPieceStride == s.byteSize)
    ensures Copied(Pieces(s, from, to, n)) == Line(from, to, Times(n, s.byteSize))
  {
    if n > 0 {
      PiecesFollow(s, from, to, n - 1);
      PieceOnLine(s, from, to, n - 1);
      LinePlus(Pieces(s, from, to, n - 1), Move(PieceFrom(s, from, n - 1), PieceTo(s, to, n - 1), s.byteSize), from, to, Times(n - 1, s.byteSize));
    }
  }

  /** Pieces without gaps copy one line. */
  lemma PiecesAreLine(s: Segment, from: int, to: int, n: nat)
    requires n <= 1 || (s.globalPieceStride == s.byteSize && s.scratchpadPieceStride == s.byteSize)
    ensures Copied(Pieces(s, from, to, n)) == Line(from, to, n * s.byteSize)
  {
    PiecesFollow(s, from, to, n);
    TimesIs(n, s.byteSize);
  }

  lemma Product(n: nat, p: nat, b: nat)
    requires n > 0
    ensures (n - 1) * (p * b) + p * b == n * p * b && (n - 1) * p * b == (n - 1) * (p * b)
  {
  }

  /** Where repetition n - 1 of a gapless segment stands on the line. */
  lemma RowOnLine(s: Segment, from: int, to: int, n: nat)
    requires FullLinear(s) && n > 0
    ensures RowFrom(s, from, n - 1) == from + (n - 1) * s.pieceCount * s.byteSize
    ensures RowTo(s, to, n - 1) == to + (n - 1) * s.pieceCount * s.byteSize
    ensures n * s.pieceCount * s.byteSize == (n - 1) * s.pieceCount * s.byteSize + s.pieceCount * s.byteSize
  {
    Product(n, s.pieceCount, s.byteSize);
  }

  /** Repetitions without gaps copy one line. */
  lemma {:induction false} TransferredAreLine(s: Segment, from: int, to: int, n: nat)
    requires FullLinear(s)
    ensures Copied(Transferred(s, from, to, n)) == Line(from, to, n * s.pieceCount * s.byteSize)
  {
    if n > 0 {
      var before, row: nat := (n - 1) * s.pieceCount * s.byteSize, s.pieceCount * s.byteSize;
      var g, h := RowFrom(s, from, n - 1), RowTo(s, to, n - 1);
      TransferredAreLine(s, from, to, n - 1);
      PiecesAreLine(s, g, h, s.pieceCount);
      RowOnLine(s, from, to, n);
      LinesJoin(Transferred(s, from, to, n - 1), Pieces(s, g, h, s.pieceCount), from, to, before, row);
    }
  }

  // ---- packing ----

  /** n transfers of a line, up to `width` to a request. */
  function Pack(from: int, to: int, size: nat, n: nat, width: nat): seq<Move>
    requires width > 0
    decreases n
  {
    if n == 0 then []
    else if n <= width then [Move(from, to, n * size)]
    else [Move(from, to, width * size)] + Pack(from + width * size, to + width * size, size, n - width, width)
  }

  lemma CopiedOne(m: Move)
    ensures Copied([m]) == Line(m.from, m.to, m.bytes)
  {
    CopiedMore([], m);
    assert [] + [m] == [m];
  }

  /** Packing a line copies the line. */
  lemma {:induction false} PackIsLine(from: int, to: int, size: nat, n: nat, width: nat)
    requires width > 0
    ensures Copied(Pack(from, to, size, n, width)) == Line(from, to, n * size)
    decreases n
  {
    if 0 < n <= width {
      CopiedOne(Move(from, to, n * size));
    } else if n > width {
      var first, rest := [Move(from, to, width * size)], Pack(from + width * size, to + width * size, size, n - width, width);
      PackIsLine(from + width * size, to + width * size, size, n - width, width);
      CopiedOne(Move(from, to, width * size));
      SplitProduct(width, n, size);
      LinesJoin(first, rest, from, to, width * size, (n - width) * size);
    }
  }

  lemma SplitProduct(m: nat, n: nat, size: nat)
    requires m <= n
    ensures m * size + (n - m) * size == n * size && m * size >= 0 && (n - m) * size >= 0
  {
  }

  /** The rows of a segment, each packed on its own. */
  function PackRows(s: Segment, from: int, to: int, n: nat, width: nat): seq<Move>
    requires width > 0
  {
    if n == 0 then []
    else PackRows(s, from, to, n - 1, width)
         + Pack(RowFrom(s, from, n - 1), RowTo(s, to, n - 1), s.byteSize, s.pieceCount, width)
  }

  lemma RowSameCopy(s: Segment, from: int, to: int, width: nat)
    requires width > 0 && PieceLinear(s)
    ensures Copied(Pack(from, to, s.byteSize, s.pieceCount, width)) == Copied(Pieces(s, from, to, s.pieceCount))
  {
    PackIsLine(from, to, s.byteSize, s.pieceCount, width);
    PiecesAreLine(s, from, to, s.pieceCount);
  }

  lemma {:induction false} PackRowsSameCopy(s: Segment, from: int, to: int, n: nat, width: nat)
    requires width > 0 && PieceLinear(s)
    ensures Copied(PackRows(s, from, to, n, width)) == Copied(Transferred(s, from, to, n))
  {
    if n > 0 {
      var g, h := RowFrom(s, from, n - 1), RowTo(s, to, n - 1);
      PackRowsSameCopy(s, from, to, n - 1, width);
      CopiedJoin(PackRows(s, from, to, n - 1, width), Pack(g, h, s.byteSize, s.pieceCount, width));
      CopiedJoin(Transferred(s, from, to, n - 1), Pieces(s, g, h, s.pieceCount));
      RowSameCopy(s, g, h, width);
    }
  }

  datatype Strategy = Unpacked | Full | Rows

  function StrategyOf(s: Segment, frame: nat): Strategy
    requires s.byteSize > 0
  {
    if frame / s.byteSize > 1 && FullLinear(s) then Full
    else if frame / s.byteSize > 1 && PieceLinear(s) then Rows
    else Unpacked
  }

  /** The requests that replace the transfers of a segment, for any base addresses. */
  function Packed(s: Segment, frame: nat, from: int, to: int): seq<Move>
    requires s.byteSize > 0
  {
    match StrategyOf(s, frame)
    case Full => Pack(from, to, s.byteSize, s.repeatCount * s.pieceCount, frame / s.byteSize)
    case Rows => PackRows(s, from, to, s.repeatCount, frame / s.byteSize)
    case Unpacked => Transferred(s, from, to, s.repeatCount)
  }

  /** The packed requests copy exactly the bytes of the transfers, in the same order. */
  lemma SameCopy(s: Segment, frame: nat, from: int, to: int)
    requires s.byteSize > 0
    ensures Copied(Packed(s, frame, from, to)) == Copied(Transferred(s, from, to, s.repeatCount))
  {
    match StrategyOf(s, frame)
    case Full =>
      PackIsLine(from, to, s.byteSize, s.repeatCount * s.pieceCount, frame / s.byteSize);
      TransferredAreLine(s, from, to, s.repeatCount);
    case Rows =>
      PackRowsSameCopy(s, from, to, s.repeatCount, frame / s.byteSize);
    case Unpacked =>
  }

  // ---- sizes and counts ----

  /** Every request moves something and fits into a frame. */
  predicate Fit(moves: seq<Move>, frame: nat) {
    forall i :: 0 <= i < |moves| ==> 0 < moves[i].bytes <= frame
  }

  lemma ScaledSize(n: nat, width: nat, size: nat, frame: nat)
    requires 0 < n <= width && width * size <= frame && size > 0
    ensures 0 < n * size <= frame
  {
    assert n * size <= width * size by { Monotone(n, width, size); }
  }

  lemma FitJoin(a: seq<Move>, b: seq<Move>, frame: nat)
    requires Fit(a, frame) && Fit(b, frame)
    ensures Fit(a + b, frame)
  {
  }

  lemma {:induction false} PackFits(from: int, to: int, size: nat, n: nat, width: nat, frame: nat)
    requires width > 0 && size > 0 && width * size <= frame
    ensures Fit(Pack(from, to, size, n, width), frame)
    decreases n
  {
    if 0 < n <= width {
      ScaledSize(n, width, size, frame);
    } else if n > width {
      var first, rest := Move(from, to, width * size), Pack(from + width * size, to + width * size, size, n - width, width);
      ScaledSize(width, width, size, frame);
      PackFits(from + width * size, to + width * size, size, n - width, width, frame);
      FitJoin([first], rest, frame);
    }
  }

  lemma {:induction false} PackRowsFit(s: Segment, from: int, to: int, n: nat, width: nat, frame: nat)
    requires width > 0 && s.byteSize > 0 && width * s.byteSize <= frame
    ensures Fit(PackRows(s, from, to, n, width), frame)
  {
    if n > 0 {
      PackRowsFit(s, from, to, n - 1, width, frame);
      PackFits(RowFrom(s, from, n - 1), RowTo(s, to, n - 1), s.byteSize, s.pieceCount, width, frame);
    }
  }

  lemma {:induction false} PiecesFit(s: Segment, from: int, to: int, n: nat, frame: nat)
    requires 0 < s.byteSize <= frame
    ensures Fit(Pieces(s, from, to, n), frame)
  {
    if n > 0 { PiecesFit(s, from, to, n - 1, frame); }
  }

  lemma {:induction false} TransferredFit(s: Segment, from: int, to: int, n: nat, frame: nat)
    requires 0 < s.byteSize <= frame
    ensures Fit(Transferred(s, from, to, n), frame)
  {
    if n > 0 {
      TransferredFit(s, from, to, n - 1, frame);
      PiecesFit(s, RowFrom(s, from, n - 1), RowTo(s, to, n - 1), s.pieceCount, frame);
    }
  }

  lemma PackedFits(s: Segment, frame: nat, from: int, to: int)
    requires 0 < s.byteSize <= frame
    ensures Fit(Packed(s, frame, from, to), frame)
  {
    var width := frame / s.byteSize;
    assert width * s.byteSize <= frame;
    match StrategyOf(s, frame)
    case Full => PackFits(from, to, s.byteSize, s.repeatCount * s.pieceCount, width, frame);
    case Rows => PackRowsFit(s, from, to, s.repeatCount, width, frame);
    case Unpacked => TransferredFit(s, from, to, s.repeatCount, frame);
  }

  /** n transfers need as many requests as groups of `width`, the last perhaps smaller. */
  lemma {:induction false} PackCount(from: int, to: int, size: nat, n: nat, width: nat)
    requires width > 0
    ensures |Pack(from, to, size, n, width)| == CeilDiv(n, width)
    decreases n
  {
    if 0 < n < width {
      DivisionUnique(n, width, 0, n);
    } else if n == width {
      DivisionUnique(n, width, 1, 0);
    } else if n > width {
      PackCount(from + width * size, to + width * size, size, n - width, width);
      CeilStep(n, width);
    }
  }
}
