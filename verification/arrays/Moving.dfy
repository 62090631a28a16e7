/** The chunk buffer: each step keeps at most one chunk, and bytes land once at their own offset. */
module Moving {
  import opened Options
  import opened Vectors
  import opened Commands
  import opened Engine
  import opened Invariant
  import opened Stepping

  /** An empty buffer admits exactly one chunk: the rest of the transfer or a full window. */
  lemma IssueOne(cfg: Config, x: Transfer, source: seq<Byte>)
    requires cfg.Valid() && ChunksOk(cfg, x, source)
    ensures ChunksOk(cfg, Issue(x, source, cfg.inflightBytes), source)
    ensures Issue(x, source, cfg.inflightBytes).complete == x.complete
    ensures Issue(x, source, cfg.inflightBytes).bytes == x.bytes
    ensures var y := Issue(x, source, cfg.inflightBytes); y.issued == y.total || y.buffered == cfg.inflightBytes
    ensures x.issued == x.total ==> Issue(x, source, cfg.inflightBytes) == x
  {
    if x.issued < x.total && x.buffered < cfg.inflightBytes {
      assert x.buffered == 0 && x.chunks == [];
      var n := Min(x.total - x.issued, cfg.inflightBytes);
      var c := Chunk(x.issued, n, 0, 0, Slice(source, x.issued, n));
      var y := x.(chunks := [c], issued := x.issued + n, buffered := n);
      assert Issue(x, source, cfg.inflightBytes) == Issue(y, source, cfg.inflightBytes);
      assert Issue(y, source, cfg.inflightBytes) == y;
    }
  }

  lemma ReleaseNone(x: Transfer, write: bool, now: nat)
    requires x.chunks == []
    ensures Release(x, x.chunks, [], write, now) == x
  {
  }

  lemma ReleaseOne(x: Transfer, write: bool, now: nat)
    requires |x.chunks| == 1
    ensures var c := x.chunks[0];
            Release(x, x.chunks, [], write, now) ==
            if c.linked != c.bytes || c.linkReady > now then x
            else x.(bytes := if write then x.bytes else Write(x.bytes, c.offset, c.data),
                    complete := x.complete + c.bytes, buffered := x.buffered - c.bytes, chunks := [])
  {
    var c := x.chunks[0];
    assert x.chunks[1..] == [] && [] + [c] == x.chunks;
    if c.linked != c.bytes || c.linkReady > now {
      assert Release(x, x.chunks, [], write, now) == Release(x, [], [c], write, now);
    } else {
      var y := x.(bytes := if write then x.bytes else Write(x.bytes, c.offset, c.data),
                  complete := x.complete + c.bytes, buffered := x.buffered - c.bytes);
      assert Release(x, x.chunks, [], write, now) == Release(y, [], [], write, now);
    }
  }

  /** A released input chunk extends the received prefix of the payload. */
  lemma PrefixGrows(bytes: seq<Byte>, payload: seq<Byte>, k: nat, n: nat)
    requires |bytes| == |payload| && k + n <= |bytes| && bytes[..k] == payload[..k]
    ensures Write(bytes, k, payload[k..k + n])[..k + n] == payload[..k + n]
  {
    var w := Write(bytes, k, payload[k..k + n]);
    forall i | 0 <= i < k + n ensures w[i] == payload[i] {
      if i < k { assert bytes[i] == bytes[..k][i] && payload[i] == payload[..k][i]; }
    }
  }

  ghost function Released(a: ArrayState, now: nat): Transfer
    requires a.active.Some?
  {
    Release(a.x, a.x.chunks, [], a.active.value.cmd.operation == Store, now)
  }

  ghost function SourceOf(x: Transfer, c: Command): seq<Byte> {
    if c.operation == Store then x.bytes else c.payload
  }

  /** Conservation: complete + buffered = issued before and after the release, and a released input
      chunk lands at its offset. */
  lemma ReleaseOk(cfg: Config, a: ArrayState, now: nat)
    requires cfg.Valid() && a.active.Some? && TransferOk(cfg, a)
    ensures var c := a.active.value.cmd; var y := Released(a, now);
            && ChunksOk(cfg, y, SourceOf(y, c))
            && y.total == a.x.total == |y.bytes| && y.complete >= a.x.complete
            && y == a.x.(bytes := y.bytes, complete := y.complete, buffered := y.buffered, chunks := y.chunks)
            && (c.operation == Store ==> y.bytes == a.x.bytes)
            && (c.Input() ==> y.bytes[..y.complete] == c.payload[..y.complete])
            && (a.x.complete == a.x.total ==> y == a.x)
  {
    var c := a.active.value.cmd;
    if a.x.chunks == [] {
      ReleaseNone(a.x, c.operation == Store, now);
    } else {
      ReleaseOne(a.x, c.operation == Store, now);
      if c.Input() {
        PrefixGrows(a.x.bytes, c.payload, a.x.complete, a.x.buffered);
      }
    }
  }

  lemma MoveTransfer(cfg: Config, a: ArrayState, now: nat)
    requires cfg.Valid() && a.active.Some? && TransferOk(cfg, a)
    ensures TransferOk(cfg, Move(cfg, a, now))
    ensures var x := Move(cfg, a, now).x;
            && x == a.x.(bytes := x.bytes, complete := x.complete, buffered := x.buffered, chunks := x.chunks, issued := x.issued)
            && (a.active.value.cmd.operation == Store ==> x.bytes == a.x.bytes)
            && (x.issued == x.total || x.buffered == cfg.inflightBytes)
            && x.complete >= a.x.complete
            && (x.complete == x.total ==> x.chunks == [] && x.buffered == 0)
  {
    ReleaseOk(cfg, a, now);
    var y := Released(a, now);
    var c := a.active.value.cmd;
    IssueOne(cfg, y, SourceOf(y, c));
    assert Move(cfg, a, now) == a.(x := Issue(y, SourceOf(y, c), cfg.inflightBytes));
  }

  /** One cycle of the chunk buffer preserves the invariant. */
  lemma MoveSound(cfg: Config, u: Cell, now: nat)
    requires Sound(cfg, u) && u.a.active.Some? && u.a.active.value.cmd.operation != Execute
    ensures Sound(cfg, u.(a := Move(cfg, u.a, now))) && Advances(u, u.(a := Move(cfg, u.a, now)))
  {
    var v := u.(a := Move(cfg, u.a, now));
    MoveTransfer(cfg, u.a, now);
    TransferStep(cfg, u, v);
  }

  lemma CaptureTransfer(cfg: Config, u: Cell)
    requires cfg.Valid() && u.a.active.Some? && TransferOk(cfg, u.a) && u.a.x.complete == u.a.x.total
    ensures TransferOk(cfg, CaptureInput(u).a) && CaptureInput(u).a.fault == u.a.fault
  {
  }

  /** Captured is sent once every byte has been consumed and nothing is in the buffer. */
  lemma CaptureSound(cfg: Config, u: Cell)
    requires Sound(cfg, u) && u.a.active.Some? && u.a.x.complete == u.a.x.total
    ensures Sound(cfg, CaptureInput(u)) && Advances(u, CaptureInput(u))
    ensures CaptureInput(u) == u.(a := u.a.(x := CaptureInput(u).a.x, sent := CaptureInput(u).a.sent))
    ensures CaptureInput(u).a.x == u.a.x.(inputCaptured := CaptureInput(u).a.x.inputCaptured)
  {
    var v := CaptureInput(u);
    CaptureTransfer(cfg, u);
    TransferStep(cfg, u, v);
  }
}
