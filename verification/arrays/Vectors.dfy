/** Coverage bitmaps, in-place range writes and the little-endian payload codec
    shared by the analog-array model. */
module Vectors {
  import opened Arithmetic

  /** One byte of a register payload. */
  type Byte = b: nat | b < 0x100

  /** The bit pattern of one float32 element. */
  type Word = w: nat | w < 0x1_0000_0000

  // ---- coverage bitmaps ----

  function Count(s: seq<bool>): nat {
    if s == [] then 0 else Count(s[..|s| - 1]) + (if s[|s| - 1] then 1 else 0)
  }

  predicate All(s: seq<bool>) {
    forall i :: 0 <= i < |s| ==> s[i]
  }

  function Zeros(n: nat): seq<bool> {
    seq(n, i => false)
  }

  /** Coverage after the cells [offset, offset + count) have been received. */
  function Mark(s: seq<bool>, offset: nat, count: nat): (r: seq<bool>)
    ensures |r| == |s|
  {
    seq(|s|, i requires 0 <= i < |s| => s[i] || offset <= i < offset + count)
  }

  /** How many cells of the range were not covered before. */
  function Newly(s: seq<bool>, offset: nat, count: nat): nat {
    if count == 0 then 0
    else Newly(s, offset, count - 1)
         + (if offset + count - 1 < |s| && !s[offset + count - 1] then 1 else 0)
  }

  lemma {:induction false} CountBound(s: seq<bool>)
    ensures Count(s) <= |s|
    ensures Count(s) == |s| <==> All(s)
  {
    if s != [] {
      var t := s[..|s| - 1];
      CountBound(t);
      assert All(s) <==> All(t) && s[|s| - 1];
    }
  }

  lemma {:induction false} CountZeros(n: nat)
    ensures Count(Zeros(n)) == 0
  {
    if n > 0 {
      assert Zeros(n)[..n - 1] == Zeros(n - 1);
      CountZeros(n - 1);
    }
  }

  lemma {:induction false} CountSet(s: seq<bool>, k: nat)
    requires k < |s| && !s[k]
    ensures Count(s[k := true]) == Count(s) + 1
  {
    var t := s[k := true];
    if k == |s| - 1 {
      assert t[..|t| - 1] == s[..|s| - 1];
    } else {
      assert t[..|t| - 1] == s[..|s| - 1][k := true];
      CountSet(s[..|s| - 1], k);
    }
  }

  /** A coverage counter advanced by the newly covered cells keeps counting the bitmap. */
  lemma {:induction false} CountMark(s: seq<bool>, offset: nat, count: nat)
    requires offset + count <= |s|
    ensures Count(Mark(s, offset, count)) == Count(s) + Newly(s, offset, count)
  {
    if count == 0 {
      assert Mark(s, offset, 0) == s;
    } else {
      CountMark(s, offset, count - 1);
      var k := offset + count - 1;
      var m := Mark(s, offset, count - 1);
      if s[k] {
        assert Mark(s, offset, count) == m;
      } else {
        assert Mark(s, offset, count) == m[k := true];
        CountSet(m, k);
      }
    }
  }

  // ---- counting over the active rectangle ----

  /** Flat cell i of a matrix with `stride` physical columns lies in the active rectangle. */
  predicate Inside(stride: nat, rows: nat, cols: nat, i: nat)
    requires stride > 0
  {
    i / stride < rows && i % stride < cols
  }

  /** Every active cell is covered. */
  predicate Covered(s: seq<bool>, stride: nat, rows: nat, cols: nat)
    requires stride > 0
  {
    forall i :: 0 <= i < |s| && Inside(stride, rows, cols, i) ==> s[i]
  }

  /** No inactive cell is covered. */
  predicate Contained(s: seq<bool>, stride: nat, rows: nat, cols: nat)
    requires stride > 0
  {
    forall i :: 0 <= i < |s| && s[i] ==> Inside(stride, rows, cols, i)
  }

  lemma CellOf(stride: nat, r: nat, c: nat)
    requires c < stride
    ensures (r * stride + c) / stride == r
    ensures (r * stride + c) % stride == c
  {
    var i := r * stride + c;
    var q, m := i / stride, i % stride;
    assert i == q * stride + m;
    if q < r {
      assert (q + 1) * stride <= r * stride by { Monotone(q + 1, r, stride); }
      assert false;
    }
    if q > r {
      assert (r + 1) * stride <= q * stride by { Monotone(r + 1, q, stride); }
      assert false;
    }
  }

  /** The active cells among the first k of the row that starts at `base` are covered. */
  predicate RowCovered(s: seq<bool>, base: nat, cols: nat, k: nat) {
    forall i :: base <= i < base + k && i < base + cols && i < |s| ==> s[i]
  }

  /** The first k cells of a row hold at most min(k, cols) covered cells, and exactly that many
      when all of them are covered. */
  lemma {:induction false} CountRow(s: seq<bool>, base: nat, cols: nat, k: nat)
    requires base + k <= |s|
    requires forall i :: base + cols <= i < base + k ==> !s[i]
    ensures Count(s[..base + k]) <= Count(s[..base]) + (if k < cols then k else cols)
    ensures Count(s[..base + k]) == Count(s[..base]) + (if k < cols then k else cols)
            <==> RowCovered(s, base, cols, k)
  {
    if k > 0 {
      CountRow(s, base, cols, k - 1);
      var i := base + k - 1;
      assert s[..base + k][..base + k - 1] == s[..i];
      assert RowCovered(s, base, cols, k) <==> RowCovered(s, base, cols, k - 1) && (k - 1 < cols ==> s[i]);
    }
  }

  /** First flat cell of a row; equal to row * stride, unfolded one row at a time. */
  function Base(stride: nat, row: nat): nat {
    if row == 0 then 0 else Base(stride, row - 1) + stride
  }

  lemma {:induction false} BaseProduct(stride: nat, row: nat)
    ensures Base(stride, row) == row * stride
  {
    if row > 0 {
      BaseProduct(stride, row - 1);
      assert row * stride == (row - 1) * stride + stride;
    }
  }

  /** All cells of the active part of rows 0..r are covered. */
  predicate RowsCovered(s: seq<bool>, stride: nat, cols: nat, r: nat) {
    forall q :: 0 <= q < r ==> RowCovered(s, Base(stride, q), cols, stride)
  }

  lemma ContainedRow(s: seq<bool>, stride: nat, rows: nat, cols: nat, row: nat)
    requires 0 < stride && Base(stride, row) + stride <= |s| && Contained(s, stride, rows, cols)
    ensures forall i :: Base(stride, row) + cols <= i < Base(stride, row) + stride ==> !s[i]
  {
    BaseProduct(stride, row);
    forall i | Base(stride, row) + cols <= i < Base(stride, row) + stride
      ensures !s[i]
    {
      CellOf(stride, row, i - Base(stride, row));
    }
  }

  lemma {:induction false} CountRows(s: seq<bool>, stride: nat, rows: nat, cols: nat, r: nat)
    requires 0 < stride && cols <= stride && r <= rows
    requires Base(stride, r) <= |s| && Contained(s, stride, rows, cols)
    ensures Count(s[..Base(stride, r)]) <= Base(cols, r)
    ensures Count(s[..Base(stride, r)]) == Base(cols, r) <==> RowsCovered(s, stride, cols, r)
  {
    if r > 0 {
      CountRows(s, stride, rows, cols, r - 1);
      ContainedRow(s, stride, rows, cols, r - 1);
      CountRow(s, Base(stride, r - 1), cols, stride);
    }
  }

  lemma {:induction false} CountTail(s: seq<bool>, stride: nat, rows: nat, cols: nat, n: nat)
    requires 0 < stride && Base(stride, rows) <= n <= |s| && Contained(s, stride, rows, cols)
    ensures Count(s[..n]) == Count(s[..Base(stride, rows)])
  {
    if n > Base(stride, rows) {
      CountTail(s, stride, rows, cols, n - 1);
      assert s[..n][..n - 1] == s[..n - 1];
      if s[n - 1] {
        assert Inside(stride, rows, cols, n - 1);
        BaseProduct(stride, rows);
        Monotone((n - 1) / stride + 1, rows, stride);
        assert false;
      }
    }
  }

  lemma RowCells(stride: nat, rows: nat, cols: nat, q: nat, i: nat)
    requires 0 < stride && cols <= stride && q < rows && Base(stride, q) <= i < Base(stride, q) + cols
    ensures Inside(stride, rows, cols, i)
  {
    BaseProduct(stride, q);
    CellOf(stride, q, i - Base(stride, q));
  }

  lemma CoveredRows(s: seq<bool>, stride: nat, rows: nat, cols: nat)
    requires 0 < stride && cols <= stride
    ensures Covered(s, stride, rows, cols) <==> RowsCovered(s, stride, cols, rows)
  {
    if Covered(s, stride, rows, cols) {
      forall q | 0 <= q < rows
        ensures RowCovered(s, Base(stride, q), cols, stride)
      {
        forall i | Base(stride, q) <= i < Base(stride, q) + cols && i < |s| ensures s[i] {
          RowCells(stride, rows, cols, q, i);
        }
      }
    }
    if RowsCovered(s, stride, cols, rows) {
      forall i | 0 <= i < |s| && Inside(stride, rows, cols, i)
        ensures s[i]
      {
        RowOfCell(s, stride, rows, cols, i);
      }
    }
  }

  lemma RowOfCell(s: seq<bool>, stride: nat, rows: nat, cols: nat, i: nat)
    requires 0 < stride && cols <= stride && i < |s| && Inside(stride, rows, cols, i)
    requires RowsCovered(s, stride, cols, rows)
    ensures s[i]
  {
    var q := i / stride;
    BaseProduct(stride, q);
    assert Base(stride, q) <= i < Base(stride, q) + cols;
    assert RowCovered(s, Base(stride, q), cols, stride);
  }

  /** The coverage counter reaches rows * cols exactly when every active cell has been received. */
  lemma CountCovered(s: seq<bool>, stride: nat, rows: nat, cols: nat)
    requires 0 < stride && cols <= stride && rows * stride <= |s|
    requires Contained(s, stride, rows, cols)
    ensures Count(s) <= rows * cols
    ensures Count(s) == rows * cols <==> Covered(s, stride, rows, cols)
  {
    BaseProduct(stride, rows);
    BaseProduct(cols, rows);
    CountRows(s, stride, rows, cols, rows);
    CountTail(s, stride, rows, cols, |s|);
    assert s[..|s|] == s;
    CoveredRows(s, stride, rows, cols);
  }

  // ---- vectors of elements ----

  function ZeroWords(n: nat): seq<Word> {
    seq(n, i => 0)
  }

  function ZeroBytes(n: nat): seq<Byte> {
    seq(n, i => 0)
  }

  /** `dst` with `src` written at `offset`. */
  function Write<T>(dst: seq<T>, offset: nat, src: seq<T>): (r: seq<T>)
    ensures |r| == |dst|
  {
    seq(|dst|, i requires 0 <= i < |dst| => if offset <= i < offset + |src| then src[i - offset] else dst[i])
  }

  /** The selected elements, or nothing when the range does not fit. */
  function Slice<T>(s: seq<T>, offset: nat, count: nat): (r: seq<T>)
    ensures offset + count <= |s| ==> r == s[offset..offset + count]
  {
    if offset + count <= |s| then s[offset..offset + count] else []
  }

  // ---- little-endian payloads ----

  function WordOf(b0: Byte, b1: Byte, b2: Byte, b3: Byte): Word {
    b0 + 0x100 * b1 + 0x1_0000 * b2 + 0x100_0000 * b3
  }

  function ByteOf(w: Word, k: nat): Byte
    requires k < 4
  {
    if k == 0 then w % 0x100
    else if k == 1 then w / 0x100 % 0x100
    else if k == 2 then w / 0x1_0000 % 0x100
    else w / 0x100_0000 % 0x100
  }

  function Decode(bytes: seq<Byte>): (r: seq<Word>)
    ensures |r| == |bytes| / 4
  {
    seq(|bytes| / 4, i requires 0 <= i < |bytes| / 4 =>
      WordOf(bytes[4 * i], bytes[4 * i + 1], bytes[4 * i + 2], bytes[4 * i + 3]))
  }

  function Encode(words: seq<Word>): (r: seq<Byte>)
    ensures |r| == 4 * |words|
  {
    seq(4 * |words|, i requires 0 <= i < 4 * |words| => ByteOf(words[i / 4], i % 4))
  }

  lemma Divide(q: nat, d: nat, m: nat)
    requires m < d
    ensures (q * d + m) / d == q
    ensures (q * d + m) % d == m
  {
    CellOf(d, q, m);
  }

  lemma TwiceDivided(w: nat)
    ensures w / 0x1_0000 == w / 0x100 / 0x100
  {
    var q1 := w / 0x100;
    var q2 := q1 / 0x100;
    assert w == q2 * 0x1_0000 + (w % 0x100 + 0x100 * (q1 % 0x100));
    Divide(q2, 0x1_0000, w % 0x100 + 0x100 * (q1 % 0x100));
  }

  lemma ThriceDivided(w: nat)
    ensures w / 0x100_0000 == w / 0x100 / 0x100 / 0x100
  {
    var q2 := w / 0x1_0000;
    var q3 := q2 / 0x100;
    TwiceDivided(w);
    assert w == q3 * 0x100_0000 + (w % 0x1_0000 + 0x1_0000 * (q2 % 0x100));
    Divide(q3, 0x100_0000, w % 0x1_0000 + 0x1_0000 * (q2 % 0x100));
  }

  lemma WordBytes(w: Word)
    ensures WordOf(ByteOf(w, 0), ByteOf(w, 1), ByteOf(w, 2), ByteOf(w, 3)) == w
  {
    TwiceDivided(w);
    ThriceDivided(w);
    var q1 := w / 0x100;
    var q2 := q1 / 0x100;
    var q3 := q2 / 0x100;
    assert w == 0x100 * q1 + w % 0x100 && q1 == 0x100 * q2 + q1 % 0x100 && q2 == 0x100 * q3 + q2 % 0x100 && q3 % 0x100 == q3;
  }

  lemma BytesWord(b0: Byte, b1: Byte, b2: Byte, b3: Byte)
    ensures ByteOf(WordOf(b0, b1, b2, b3), 0) == b0
    ensures ByteOf(WordOf(b0, b1, b2, b3), 1) == b1
    ensures ByteOf(WordOf(b0, b1, b2, b3), 2) == b2
    ensures ByteOf(WordOf(b0, b1, b2, b3), 3) == b3
  {
    var w := WordOf(b0, b1, b2, b3);
    Divide(b1 + 0x100 * b2 + 0x1_0000 * b3, 0x100, b0);
    Divide(b2 + 0x100 * b3, 0x100, b1);
    Divide(b3, 0x100, b2);
    Divide(b2 + 0x100 * b3, 0x1_0000, b0 + 0x100 * b1);
    Divide(b3, 0x100_0000, b0 + 0x100 * b1 + 0x1_0000 * b2);
    assert w == (b1 + 0x100 * b2 + 0x1_0000 * b3) * 0x100 + b0;
    assert w == (b2 + 0x100 * b3) * 0x1_0000 + (b0 + 0x100 * b1);
    assert w == b3 * 0x100_0000 + (b0 + 0x100 * b1 + 0x1_0000 * b2);
    assert b1 + 0x100 * b2 + 0x1_0000 * b3 == (b2 + 0x100 * b3) * 0x100 + b1;
    assert b2 + 0x100 * b3 == b3 * 0x100 + b2;
  }

  lemma EncodedWord(words: seq<Word>, i: nat)
    requires i < |words|
    ensures Encode(words)[4 * i..4 * i + 4] == [ByteOf(words[i], 0), ByteOf(words[i], 1), ByteOf(words[i], 2), ByteOf(words[i], 3)]
  {
    assert (4 * i) / 4 == i && (4 * i + 1) / 4 == i && (4 * i + 2) / 4 == i && (4 * i + 3) / 4 == i;
    assert (4 * i) % 4 == 0 && (4 * i + 1) % 4 == 1 && (4 * i + 2) % 4 == 2 && (4 * i + 3) % 4 == 3;
  }

  /** Register bytes decoded into storage and read back are the same bit patterns. */
  lemma DecodeEncode(words: seq<Word>)
    ensures Decode(Encode(words)) == words
  {
    forall i | 0 <= i < |words|
      ensures Decode(Encode(words))[i] == words[i]
    {
      EncodedWord(words, i);
      WordBytes(words[i]);
      var quad := Encode(words)[4 * i..4 * i + 4];
      assert Encode(words)[4 * i] == quad[0] && Encode(words)[4 * i + 1] == quad[1];
      assert Encode(words)[4 * i + 2] == quad[2] && Encode(words)[4 * i + 3] == quad[3];
    }
  }

  lemma EncodeDecode(bytes: seq<Byte>)
    requires |bytes| % 4 == 0
    ensures Encode(Decode(bytes)) == bytes
  {
    var e := Encode(Decode(bytes));
    forall i | 0 <= i < |bytes|
      ensures e[i] == bytes[i]
    {
      var j := i / 4;
      BytesWord(bytes[4 * j], bytes[4 * j + 1], bytes[4 * j + 2], bytes[4 * j + 3]);
      assert i == 4 * j + i % 4;
    }
  }
}
