/** Programming: coverage is extended when the last byte arrives, the weights are committed when
    the selected delay has passed. */
module Programming {
  import opened Options
  import opened Arithmetic
  import opened Vectors
  import opened Commands
  import opened Engine
  import opened Invariant
  import opened Books
  import opened Stepping

  /** A legal range extends coverage inside the active rectangle, and the advanced counter
      reaches rows * cols exactly when every active cell has been received. */
  lemma MarkedCoverage(cfg: Config, rows: nat, cols: nat, s: seq<bool>, count: nat, c: Command)
    requires cfg.Valid() && rows <= cfg.rows && cols <= cfg.cols
    requires |s| == cfg.rows * cfg.cols && Contained(s, cfg.cols, rows, cols) && count == Count(s)
    requires c.operation == Program && Legal(cfg, rows, cols, c)
    ensures var t := Mark(s, c.elementOffset, c.elementCount);
            var n := count + Newly(s, c.elementOffset, c.elementCount);
            && Contained(t, cfg.cols, rows, cols) && n == Count(t)
            && (n == rows * cols <==> Covered(t, cfg.cols, rows, cols))
  {
    var t := Mark(s, c.elementOffset, c.elementCount);
    CountMark(s, c.elementOffset, c.elementCount);
    assert Contained(t, cfg.cols, rows, cols);
    Monotone(rows, cfg.rows, cfg.cols);
    CountCovered(t, cfg.cols, rows, cols);
  }

  lemma MarkTwice(s: seq<bool>, offset: nat, count: nat)
    ensures Mark(Mark(s, offset, count), offset, count) == Mark(s, offset, count)
  {
  }

  ghost predicate Receiving(a: ArrayState, c: Command) {
    && a.active.Some? && a.active.value.cmd == c && c.Moves(Program)
    && !a.x.programming && a.x.complete == a.x.total
  }

  lemma ReceiveMemory(cfg: Config, a: ArrayState, c: Command, now: nat)
    requires cfg.Valid() && MemoryOk(cfg, a) && FlagsOk(cfg, a) && Receiving(a, c)
    requires Legal(cfg, a.activeRows, a.activeCols, c) && a.x.total == 4 * c.elementCount
    requires !a.mem.initialProgramClosed
    ensures var b := Receive(cfg, a, c, now); MemoryOk(cfg, b) && FlagsOk(cfg, b)
    ensures Receive(cfg, a, c, now).mem.weightInitialized == Mark(a.mem.weightInitialized, c.elementOffset, c.elementCount)
  {
    MarkedCoverage(cfg, a.activeRows, a.activeCols, a.mem.weightInitialized, a.mem.initializedWeights, c);
  }

  lemma ReceiveCore(cfg: Config, a: ArrayState, c: Command, now: nat)
    requires cfg.Valid() && CoreOk(cfg, a) && Receiving(a, c)
    ensures CoreOk(cfg, Receive(cfg, a, c, now))
  {
    ReceiveMemory(cfg, a, c, now);
    MarkTwice(a.mem.weightInitialized, c.elementOffset, c.elementCount);
    var b := Receive(cfg, a, c, now);
    assert b.x.bytes == a.x.bytes && b.x.chunks == a.x.chunks;
    assert TransferOk(cfg, b);
  }

  lemma ReceiveAfter(cfg: Config, a: ArrayState, c: Command, now: nat)
    requires cfg.Valid() && CoreOk(cfg, a) && Receiving(a, c)
    ensures After(cfg, Receive(cfg, a, c, now)) == After(cfg, a)
  {
    var b := Receive(cfg, a, c, now);
    ReceiveMemory(cfg, a, c, now);
    MarkTwice(a.mem.weightInitialized, c.elementOffset, c.elementCount);
    assert Slots(cfg, b) == Slots(cfg, a);
    MarkedCoverage(cfg, a.activeRows, a.activeCols, a.mem.weightInitialized, a.mem.initializedWeights, c);
  }

  /** Receiving the last byte: coverage grows and the epoch closes exactly when it is complete. */
  lemma ReceiveSound(cfg: Config, u: Cell, c: Command, now: nat)
    requires Sound(cfg, u) && Receiving(u.a, c)
    ensures Sound(cfg, u.(a := Receive(cfg, u.a, c, now))) && Advances(u, u.(a := Receive(cfg, u.a, c, now)))
  {
    var v := u.(a := Receive(cfg, u.a, c, now));
    ReceiveCore(cfg, u.a, c, now);
    ReceiveAfter(cfg, u.a, c, now);
    SimSame(cfg, u.a, v.a);
    SameBooks(cfg, u, v);
    SoundFrom(cfg, u, v);
  }
}
