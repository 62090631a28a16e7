/** The loops over vectors: coverage marking, the payload codec, the product with the resident weights
    and the walks over queued commands. Each is proved against the function that specifies it. */
module Buffers {
  import opened Options
  import opened Vectors
  import opened Commands
  import opened Engine
  import opened Admission

  lemma NewlyStep(s: seq<bool>, offset: nat, n: nat)
    requires offset + n < |s|
    ensures Newly(s, offset, n + 1) == Newly(s, offset, n) + (if s[offset + n] then 0 else 1)
  {
  }

  /** Marks the cells of the range and counts those that were not covered yet. */
  method InitializeRange(coverage: seq<bool>, initialized: nat, offset: nat, count: nat)
    returns (marked: seq<bool>, counted: nat, full: bool)
    requires offset + count <= |coverage|
    ensures marked == Mark(coverage, offset, count)
    ensures counted == initialized + Newly(coverage, offset, count)
    ensures full == (counted == |coverage|)
  {
    marked, counted := coverage, initialized;
    var i := offset;
    while i < offset + count
      invariant offset <= i <= offset + count
      invariant marked == Mark(coverage, offset, i - offset)
      invariant counted == initialized + Newly(coverage, offset, i - offset)
    {
      NewlyStep(coverage, offset, i - offset);
      if !marked[i] {
        marked, counted := marked[i := true], counted + 1;
      }
      i := i + 1;
      assert marked == Mark(coverage, offset, i - offset);
    }
    full := counted == |coverage|;
  }

  /** Little-endian bytes are decoded into consecutive elements of `destination`. */
  method DecodeVectorPayload(destination: seq<Word>, offset: nat, payload: seq<Byte>) returns (r: seq<Word>)
    requires offset + |payload| / 4 <= |destination|
    ensures r == Write(destination, offset, Decode(payload))
  {
    r := destination;
    var words := Decode(payload);
    var i := 0;
    while i < |payload| / 4
      invariant 0 <= i <= |payload| / 4
      invariant r == Write(destination, offset, words[..i])
    {
      var bits := WordOf(payload[4 * i], payload[4 * i + 1], payload[4 * i + 2], payload[4 * i + 3]);
      assert bits == words[i];
      r := r[offset + i := bits];
      i := i + 1;
      assert r == Write(destination, offset, words[..i]);
    }
    assert words[..i] == words;
  }

  /** The selected elements as little-endian bytes. */
  method EncodeVectorPayload(source: seq<Word>, offset: nat, count: nat) returns (payload: seq<Byte>)
    requires offset + count <= |source|
    ensures payload == Encode(Slice(source, offset, count))
  {
    payload := [];
    var i := 0;
    while i < count
      invariant 0 <= i <= count
      invariant payload == Encode(source[offset..offset + i])
    {
      var bits := source[offset + i];
      EncodeAppend(source[offset..offset + i], bits);
      assert source[offset..offset + i] + [bits] == source[offset..offset + (i + 1)];
      payload := payload + [ByteOf(bits, 0), ByteOf(bits, 1), ByteOf(bits, 2), ByteOf(bits, 3)];
      i := i + 1;
    }
  }

  lemma EncodeAppend(words: seq<Word>, w: Word)
    ensures Encode(words + [w]) == Encode(words) + [ByteOf(w, 0), ByteOf(w, 1), ByteOf(w, 2), ByteOf(w, 3)]
  {
    var n := |words|;
    var e := Encode(words + [w]);
    EncodedWord(words + [w], n);
    assert e[4 * n..4 * n + 4] == e[4 * n..];
    assert e == e[..4 * n] + e[4 * n..];
    forall j | 0 <= j < 4 * n ensures e[j] == Encode(words)[j] {
      assert j / 4 < n;
    }
  }

  /** Element r depends on row r of the weights alone. */
  lemma RowAlone(cfg: Config, weights: seq<Word>, others: seq<Word>, input: seq<Word>, rows: nat, cols: nat, r: nat)
    requires r < rows && r * cfg.cols + cols <= |weights| == |others|
    requires forall i :: r * cfg.cols <= i < r * cfg.cols + cols ==> weights[i] == others[i]
    ensures Mvm(cfg, weights, input, rows, cols)[r] == Mvm(cfg, others, input, rows, cols)[r]
  {
    SameSlice(weights, others, r * cfg.cols, cols);
  }

  lemma SameSlice(s: seq<Word>, t: seq<Word>, from: nat, count: nat)
    requires from + count <= |s| == |t| && forall i :: from <= i < from + count ==> s[i] == t[i]
    ensures Slice(s, from, count) == Slice(t, from, count)
  {
  }

  lemma RowProduct(cfg: Config, weights: seq<Word>, input: seq<Word>, rows: nat, cols: nat, r: nat, from: nat)
    requires r < rows && cols <= |input| && from == r * cfg.cols && from + cols <= |weights|
    ensures Mvm(cfg, weights, input, rows, cols)[r] == cfg.dot(weights[from..from + cols], input[..cols])
  {
    assert Slice(weights, from, cols) == weights[from..from + cols];
    assert Slice(input, 0, cols) == input[..cols];
  }

  /** One dot product per active row: element r is that of row r with the inputs. */
  method Multiply(cfg: Config, weights: seq<Word>, input: seq<Word>, rows: nat, cols: nat) returns (values: seq<Word>)
    ensures values == Mvm(cfg, weights, input, rows, cols) && |values| == rows
    ensures forall r: nat :: r < rows && cols <= |input| && r * cfg.cols + cols <= |weights| ==>
              values[r] == cfg.dot(weights[r * cfg.cols..r * cfg.cols + cols], input[..cols])
  {
    values := [];
    var row := 0;
    while row < rows
      invariant 0 <= row <= rows
      invariant values == Mvm(cfg, weights, input, rows, cols)[..row]
    {
      values := values + [cfg.dot(Slice(weights, row * cfg.cols, cols), Slice(input, 0, cols))];
      row := row + 1;
    }
    forall r: nat | r < rows && cols <= |input| && r * cfg.cols + cols <= |weights|
      ensures values[r] == cfg.dot(weights[r * cfg.cols..r * cfg.cols + cols], input[..cols])
    {
      RowProduct(cfg, weights, input, rows, cols, r, r * cfg.cols);
    }
  }

  /** The first index at or after k that holds a Store, or the length of the queue. */
  method FindStore(queue: seq<Entry>, k: nat) returns (i: nat)
    requires k <= |queue|
    ensures k <= i <= |queue|
    ensures FirstStore(queue, k) == if i < |queue| then Some(i) else None
  {
    i := k;
    while i < |queue| && queue[i].cmd.operation != Store
      invariant k <= i <= |queue|
      invariant forall j :: k <= j < i ==> queue[j].cmd.operation != Store
    {
      i := i + 1;
    }
  }
}
