/** How many requests an affine segment needs, told by where its transfers lie. */
module AffineLines {
  import opened Arithmetic
  import opened DmaTables
  import opened Copies
  import opened AffineAudit

  /** Piece p of a repetition lies where p pieces laid end to end would end, on both sides. */
  ghost predicate PiecePlaced(s: Segment, p: nat) {
    p * s.globalPieceStride == p * s.byteSize && p * s.scratchpadPieceStride == p * s.byteSize
  }

  /** The transfers of every repetition follow each other without gaps. */
  ghost predicate RowsOnLine(s: Segment) {
    forall p: nat :: p < s.pieceCount ==> PiecePlaced(s, p)
  }

  /** Piece p of repetition r lies where all transfers before it, laid end to end, would end. */
  ghost predicate TransferPlaced(s: Segment, r: nat, p: nat) {
    && r * s.globalRepeatStride + p * s.globalPieceStride == (r * s.pieceCount + p) * s.byteSize
    && r * s.scratchpadRepeatStride + p * s.scratchpadPieceStride == (r * s.pieceCount + p) * s.byteSize
  }

  /** All transfers follow each other without gaps. */
  ghost predicate OnLine(s: Segment) {
    forall r: nat, p: nat :: r < s.repeatCount && p < s.pieceCount ==> TransferPlaced(s, r, p)
  }

  lemma PieceLinearPlaces(s: Segment, p: nat)
    requires p == 0 || (s.globalPieceStride == s.byteSize && s.scratchpadPieceStride == s.byteSize)
    ensures PiecePlaced(s, p)
  {
  }

  lemma RowsAreLinear(s: Segment)
    requires s.pieceCount > 1
    ensures RowsOnLine(s) <==> PieceLinear(s)
  {
    if RowsOnLine(s) { assert PiecePlaced(s, 1); }
    if PieceLinear(s) {
      forall p: nat | p < s.pieceCount ensures PiecePlaced(s, p) { PieceLinearPlaces(s, p); }
    }
  }

  lemma FullLinearPlaces(s: Segment, r: nat, p: nat)
    requires s.globalRepeatStride == s.pieceCount * s.byteSize && s.scratchpadRepeatStride == s.pieceCount * s.byteSize
    requires PiecePlaced(s, p)
    ensures TransferPlaced(s, r, p)
  {
    assert r * (s.pieceCount * s.byteSize) == r * s.pieceCount * s.byteSize;
    assert (r * s.pieceCount + p) * s.byteSize == r * s.pieceCount * s.byteSize + p * s.byteSize;
  }

  lemma SecondRow(s: Segment)
    requires TransferPlaced(s, 1, 0)
    ensures s.globalRepeatStride == s.pieceCount * s.byteSize && s.scratchpadRepeatStride == s.pieceCount * s.byteSize
  {
  }

  lemma FirstRow(s: Segment, p: nat)
    ensures TransferPlaced(s, 0, p) <==> PiecePlaced(s, p)
  {
  }

  lemma FullIsLine(s: Segment)
    requires s.repeatCount > 1 && s.pieceCount > 0
    ensures OnLine(s) <==> FullLinear(s)
  {
    if OnLine(s) {
      assert TransferPlaced(s, 1, 0);
      SecondRow(s);
      if s.pieceCount > 1 {
        assert TransferPlaced(s, 0, 1);
        FirstRow(s, 1);
      }
    }
    if FullLinear(s) {
      forall r: nat, p: nat | r < s.repeatCount && p < s.pieceCount ensures TransferPlaced(s, r, p) {
        PieceLinearPlaces(s, p);
        FullLinearPlaces(s, r, p);
      }
    }
  }

  lemma OneRow(s: Segment)
    requires s.repeatCount == 1
    ensures OnLine(s) <==> RowsOnLine(s)
  {
    if OnLine(s) {
      forall p: nat | p < s.pieceCount ensures PiecePlaced(s, p) {
        assert TransferPlaced(s, 0, p);
        FirstRow(s, p);
      }
    }
    if RowsOnLine(s) {
      forall r: nat, p: nat | r < s.repeatCount && p < s.pieceCount ensures TransferPlaced(s, r, p) {
        assert PiecePlaced(s, p);
        FirstRow(s, p);
      }
    }
  }

  /** Which strategy applies, by where the transfers lie; single transfers are their own line. */
  lemma StrategyMeans(s: Segment, frame: nat, width: nat)
    requires s.byteSize > 0 && s.repeatCount > 0 && s.pieceCount > 0 && width == frame / s.byteSize && width > 1
    ensures StrategyOf(s, frame) == Full <==> OnLine(s) && s.repeatCount > 1
    ensures StrategyOf(s, frame) == Rows <==> RowsOnLine(s) && s.pieceCount > 1 && !(OnLine(s) && s.repeatCount > 1)
  {
    if s.repeatCount > 1 { FullIsLine(s); }
    if s.pieceCount > 1 { RowsAreLinear(s); }
  }

  lemma CeilOfOne(n: nat)
    ensures CeilDiv(n, 1) == n
  {
  }

  lemma OneFits(width: nat)
    requires width > 0
    ensures CeilDiv(1, width) == 1
  {
    CeilExact(1, width, 1);
  }

  /** The requests of a segment, of which a frame holds `width` transfers: when all transfers follow each
      other, as many as hold all of them; otherwise, when those of a repetition do, as many for each as
      hold these; otherwise one for each transfer. */
  lemma RequestsByLine(s: Segment, frame: nat, width: nat, from: int, to: int)
    requires s.byteSize > 0 && s.repeatCount > 0 && s.pieceCount > 0
    requires width > 0 && width * s.byteSize <= frame < (width + 1) * s.byteSize
    ensures |Packed(s, frame, from, to)|
         == if OnLine(s) then CeilDiv(s.repeatCount * s.pieceCount, width)
            else if RowsOnLine(s) then s.repeatCount * CeilDiv(s.pieceCount, width)
            else s.repeatCount * s.pieceCount
  {
    WidthIs(frame, s.byteSize, width);
    PackedCount(s, frame, from, to);
    if width == 1 {
      CeilOfOne(s.repeatCount * s.pieceCount);
      CeilOfOne(s.pieceCount);
    } else {
      StrategyMeans(s, frame, width);
      if s.repeatCount == 1 { OneRow(s); }
      OneFits(width);
    }
  }

  lemma WidthIs(frame: nat, size: nat, width: nat)
    requires size > 0 && width * size <= frame < (width + 1) * size
    ensures frame / size == width
  {
    assert (width + 1) * size == width * size + size;
    DivisionUnique(frame, size, width, frame - width * size);
  }
}
