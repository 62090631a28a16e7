/** How long transfers take: the link never moves more than its width per direction and cycle, and a
    transfer that does not share it takes exactly the cycles its chunks need. */
module LinkTiming {
  import opened Options
  import opened Arithmetic
  import opened Vectors
  import opened Commands
  import opened Engine
  import opened Invariant
  import opened Moving
  import opened Runs
  import opened Drain
  import opened Quiescence
  import opened Cycle

  // ---- budgets ----

  /** Bytes of the array's live chunk that have crossed the link in the given direction. */
  ghost function CrossedOf(cfg: Config, a: ArrayState, write: bool): int {
    if a.active.Some? && WriteSide(cfg, a) == write then LinkedBytes(a.x) else 0
  }

  ghost function Crossed(cfg: Config, arrays: seq<ArrayState>, write: bool): int {
    if arrays == [] then 0
    else Crossed(cfg, arrays[..|arrays| - 1], write) + CrossedOf(cfg, arrays[|arrays| - 1], write)
  }

  lemma {:induction false} CrossedUpdate(cfg: Config, arrays: seq<ArrayState>, i: nat, a: ArrayState, write: bool)
    requires i < |arrays|
    ensures Crossed(cfg, arrays[i := a], write)
            == Crossed(cfg, arrays, write) - CrossedOf(cfg, arrays[i], write) + CrossedOf(cfg, a, write)
    decreases |arrays|
  {
    var n := |arrays| - 1;
    if i == n {
      assert arrays[i := a][..n] == arrays[..n];
    } else {
      assert arrays[i := a][..n] == arrays[..n][i := a];
      CrossedUpdate(cfg, arrays[..n], i, a, write);
    }
  }

  /** What crosses is exactly what is taken from the budget of the direction. */
  ghost predicate Spent(cfg: Config, v: Service, w: Service) {
    && w.read <= v.read && w.write <= v.write
    && Crossed(cfg, w.arrays, false) - Crossed(cfg, v.arrays, false) == v.read - w.read
    && Crossed(cfg, w.arrays, true) - Crossed(cfg, v.arrays, true) == v.write - w.write
  }

  lemma ServeSpends(cfg: Config, v: Service, i: nat, now: nat)
    requires i < |v.arrays| && Linkable(v.arrays, now)
    ensures Spent(cfg, v, Serve(cfg, v, i, now)) && Linkable(Serve(cfg, v, i, now).arrays, now)
  {
    var a := v.arrays[i];
    ServeServices(cfg, v, i, now);
    if OnLink(a, now) {
      var budget := BudgetOf(cfg, v, a);
      LinkChunksOne(a.x.chunks, budget, now);
      CrossedUpdate(cfg, v.arrays, i, Linked(a, budget, now), false);
      CrossedUpdate(cfg, v.arrays, i, Linked(a, budget, now), true);
    }
  }

  lemma {:induction false} LinkSpends(cfg: Config, v: Service, cursor: nat, n: nat, now: nat)
    requires cursor < |v.arrays| && Linkable(v.arrays, now)
    ensures Spent(cfg, v, LinkFrom(cfg, v, cursor, n, now))
    decreases |v.arrays| - n
  {
    if n < |v.arrays| {
      var i := Turn(cursor, n, |v.arrays|);
      ServeSpends(cfg, v, i, now);
      LinkSpends(cfg, Serve(cfg, v, i, now), cursor, n + 1, now);
    }
  }

  /** In one cycle at most `linkWidth` bytes cross in each direction, and at most that in both
      together when the link is shared. */
  lemma WidthIsRespected(cfg: Config, arrays: seq<ArrayState>, cursor: nat, now: nat)
    requires cfg.Valid() && Linkable(arrays, now) && cursor < |arrays|
    ensures var w := LinkFrom(cfg, LinkBudget(cfg, arrays), cursor, 0, now).arrays;
            var input := Crossed(cfg, w, false) - Crossed(cfg, arrays, false);
            var output := Crossed(cfg, w, true) - Crossed(cfg, arrays, true);
            && 0 <= input <= cfg.linkWidth && 0 <= output <= cfg.linkWidth
            && (!cfg.independent ==> input + output <= cfg.linkWidth)
  {
    LinkSpends(cfg, LinkBudget(cfg, arrays), cursor, 0, now);
  }

  // ---- a transfer alone on the link ----

  /** Cycles needed for `bytes` more bytes that have not been issued: one chunk after another, each at
      most a window, each taking its own whole number of link cycles. */
  ghost function Cycles(cfg: Config, bytes: nat): nat
    requires cfg.Valid()
    decreases bytes
  {
    if bytes == 0 then 0
    else
      var c := if bytes <= cfg.inflightBytes then bytes else cfg.inflightBytes;
      Parts(c, cfg.linkWidth) + Cycles(cfg, bytes - c)
  }

  lemma MulStep(q: nat, k: nat)
    ensures (q + 1) * k == q * k + k
  {
  }

  lemma {:induction false} CyclesFormula(cfg: Config, bytes: nat)
    requires cfg.Valid()
    ensures Cycles(cfg, bytes)
            == bytes / cfg.inflightBytes * CeilDiv(cfg.inflightBytes, cfg.linkWidth)
               + CeilDiv(bytes % cfg.inflightBytes, cfg.linkWidth)
    decreases bytes
  {
    var i := cfg.inflightBytes;
    if bytes < i {
      DivisionUnique(bytes, i, 0, bytes);
      PartsIs(bytes, cfg.linkWidth);
    } else {
      CyclesFormula(cfg, bytes - i);
      CyclesStep(cfg, bytes);
      PartsIs(i, cfg.linkWidth);
      Arithmetic.CeilStep(bytes, i);
      MulStep((bytes - i) / i, CeilDiv(i, cfg.linkWidth));
    }
  }

  lemma CyclesStep(cfg: Config, bytes: nat)
    requires cfg.Valid() && bytes >= cfg.inflightBytes
    ensures Cycles(cfg, bytes) == Parts(cfg.inflightBytes, cfg.linkWidth) + Cycles(cfg, bytes - cfg.inflightBytes)
  {
  }

  /** Cycles until the last byte of the transfer has been consumed. */
  ghost function Remaining(cfg: Config, x: Transfer): nat
    requires cfg.Valid() && x.issued <= x.total
    requires x.chunks != [] ==> x.chunks[0].linked <= x.chunks[0].bytes
  {
    (if x.chunks == [] then 0 else Parts(x.chunks[0].bytes - x.chunks[0].linked, cfg.linkWidth))
    + Cycles(cfg, x.total - x.issued)
  }

  lemma OneCycleLess(m: nat, w: nat)
    requires w > 0
    ensures m > 0 ==> Parts(m, w) > 0 && Parts(m - (if m <= w then m else w), w) == Parts(m, w) - 1
    ensures m == 0 ==> Parts(m, w) == 0
  {
  }

  /** One cycle of the chunk buffer followed by link service with the whole width. */
  ghost function LoneCycle(cfg: Config, a: ArrayState, now: nat): ArrayState
    requires a.active.Some?
  {
    Linked(Move(cfg, a, now), cfg.linkWidth, now)
  }

  lemma MovedRemaining(cfg: Config, a: ArrayState, now: nat)
    requires cfg.Valid() && a.active.Some? && TransferOk(cfg, a) && TimeOk(a, now)
    ensures var y := Move(cfg, a, now).x;
            && ChunksOk(cfg, y, SourceOf(y, a.active.value.cmd))
            && Remaining(cfg, y) == Remaining(cfg, a.x)
            && (y.complete < y.total ==> y.chunks != [] && y.chunks[0].linked < y.chunks[0].bytes)
  {
    ReleaseWork(cfg, a, now);
    var y := Released(a, now);
    var source := SourceOf(y, a.active.value.cmd);
    MoveTransfer(cfg, a, now);
    assert Move(cfg, a, now) == a.(x := Issue(y, source, cfg.inflightBytes));
    IssueOne(cfg, y, source);
    IssuedRemaining(cfg, y, source);
    OneCycleLess(0, cfg.linkWidth);
    if a.x.chunks != [] {
      ReleaseOne(a.x, a.active.value.cmd.operation == Store, now);
    } else {
      ReleaseNone(a.x, a.active.value.cmd.operation == Store, now);
    }
  }

  lemma IssuedRemaining(cfg: Config, x: Transfer, source: seq<Byte>)
    requires cfg.Valid() && ChunksOk(cfg, x, source)
    requires x.chunks != [] ==> x.chunks[0].linked < x.chunks[0].bytes
    ensures var y := Issue(x, source, cfg.inflightBytes);
            && ChunksOk(cfg, y, source)
            && Remaining(cfg, y) == Remaining(cfg, x)
            && (y.complete < y.total ==> y.chunks != [] && y.chunks[0].linked < y.chunks[0].bytes)
  {
    IssueOne(cfg, x, source);
    IssueWork(cfg, x, source);
    if x.issued < x.total && x.buffered < cfg.inflightBytes {
      var n := Min(x.total - x.issued, cfg.inflightBytes);
      var c := Chunk(x.issued, n, 0, 0, Slice(source, x.issued, n));
      var y := x.(chunks := [c], issued := x.issued + n, buffered := n);
      assert Issue(x, source, cfg.inflightBytes) == Issue(y, source, cfg.inflightBytes);
      assert Issue(y, source, cfg.inflightBytes) == y;
    }
  }

  /** The remaining cycles count down by one each cycle, and the last byte is consumed exactly when
      none remains. */
  lemma LoneCountdown(cfg: Config, a: ArrayState, now: nat)
    requires cfg.Valid() && a.active.Some? && TransferOk(cfg, a) && TimeOk(a, now)
    ensures Remaining(cfg, a.x) == 0 <==> Move(cfg, a, now).x.complete == a.x.total
    ensures var x := LoneCycle(cfg, a, now).x; OneChunk(LoneCycle(cfg, a, now)) && x.issued <= x.total == a.x.total
    ensures Remaining(cfg, a.x) > 0 ==> Remaining(cfg, LoneCycle(cfg, a, now).x) == Remaining(cfg, a.x) - 1
  {
    var y := Move(cfg, a, now).x;
    MoveTransfer(cfg, a, now);
    MovedRemaining(cfg, a, now);
    LinkChunksOne(y.chunks, cfg.linkWidth, now);
    if y.complete < y.total {
      OneCycleLess(y.chunks[0].bytes - y.chunks[0].linked, cfg.linkWidth);
    }
  }

  /** A transfer of B > 0 bytes that has just begun needs floor(B/I)*ceil(I/W) + ceil((B mod I)/W)
      cycles on an uncontended link, I being the in-flight window and W the width. */
  lemma LoneLatency(cfg: Config, a: ArrayState)
    requires cfg.Valid() && a.x.issued == 0 && a.x.chunks == []
    ensures Remaining(cfg, a.x)
            == a.x.total / cfg.inflightBytes * CeilDiv(cfg.inflightBytes, cfg.linkWidth)
               + CeilDiv(a.x.total % cfg.inflightBytes, cfg.linkWidth)
  {
    CyclesFormula(cfg, a.x.total);
  }

  // ---- uncontended inside the component ----

  /** Only array i has a transfer on the link. */
  ghost predicate Alone(arrays: seq<ArrayState>, i: nat, now: nat) {
    forall k :: 0 <= k < |arrays| && k != i ==> !OnLink(arrays[k], now)
  }

  lemma {:induction false} AloneServed(cfg: Config, v: Service, cursor: nat, n: nat, m: nat, now: nat)
    requires cursor < |v.arrays| && n <= m < |v.arrays|
    requires var i := Turn(cursor, m, |v.arrays|); Alone(v.arrays, i, now) && OnLink(v.arrays[i], now)
    ensures var i := Turn(cursor, m, |v.arrays|);
            LinkFrom(cfg, v, cursor, n, now).arrays == v.arrays[i := Linked(v.arrays[i], BudgetOf(cfg, v, v.arrays[i]), now)]
    decreases |v.arrays| - n
  {
    if n < m {
      assert Turn(cursor, n, |v.arrays|) != Turn(cursor, m, |v.arrays|);
      assert Serve(cfg, v, Turn(cursor, n, |v.arrays|), now) == v;
      AloneServed(cfg, v, cursor, n + 1, m, now);
    } else {
      NothingServed(cfg, Serve(cfg, v, Turn(cursor, n, |v.arrays|), now), cursor, n + 1, m, now);
    }
  }

  lemma {:induction false} NothingServed(cfg: Config, v: Service, cursor: nat, n: nat, m: nat, now: nat)
    requires cursor < |v.arrays| && m < n <= |v.arrays| && Alone(v.arrays, Turn(cursor, m, |v.arrays|), now)
    ensures LinkFrom(cfg, v, cursor, n, now) == v
    decreases |v.arrays| - n
  {
    if n < |v.arrays| {
      assert Turn(cursor, n, |v.arrays|) != Turn(cursor, m, |v.arrays|);
      NothingServed(cfg, v, cursor, n + 1, m, now);
    }
  }

  /** With no other transfer on the link, the link stage gives array i the whole width. */
  lemma AloneGetsWidth(cfg: Config, arrays: seq<ArrayState>, cursor: nat, i: nat, now: nat)
    requires cursor < |arrays| && i < |arrays| && Alone(arrays, i, now) && OnLink(arrays[i], now)
    ensures LinkFrom(cfg, LinkBudget(cfg, arrays), cursor, 0, now).arrays == arrays[i := Linked(arrays[i], cfg.linkWidth, now)]
  {
    var m := TurnReaches(cursor, i, |arrays|);
    AloneServed(cfg, LinkBudget(cfg, arrays), cursor, 0, m, now);
  }

  /** A transfer is moving bytes: it is eligible, it is not in a device delay, and bytes are missing. */
  ghost predicate InTransit(cfg: Config, a: ArrayState, now: nat) {
    && a.active.Some? && a.x.ready <= now && !Delayed(a) && a.x.total > 0
    && cfg.Valid() && OneChunk(a) && a.x.issued <= a.x.total
  }

  lemma ProgressMoves(cfg: Config, u: Cell, now: nat)
    requires cfg.Valid() && TransferOk(cfg, u.a) && TimeOk(u.a, now) && InTransit(cfg, u.a, now) && Remaining(cfg, u.a.x) > 0
    ensures Progress(cfg, u, now) == u.(a := Move(cfg, u.a, now)) && TimeOk(Move(cfg, u.a, now), now)
  {
    LoneCountdown(cfg, u.a, now);
    MoveWork(cfg, u.a, now);
  }

  lemma TailKeeps(cfg: Config, p: Cell, now: nat)
    requires Sound(cfg, p) && cfg.pipeline && TimeOk(p.a, now) && p.a.active.Some?
    ensures Tail(cfg, p, now).a.active == p.a.active && Tail(cfg, p, now).a.x == p.a.x
  {
    StartPipelineWork(cfg, p, now, QUEUE_ENTRIES);
    ProgressComputeWork(cfg, StartPipeline(cfg, p, now, QUEUE_ENTRIES), now);
  }

  lemma PipelineMoves(cfg: Config, o: Cell, now: nat)
    requires Sound(cfg, o) && cfg.pipeline && TimeOk(o.a, now) && InTransit(cfg, o.a, now) && Remaining(cfg, o.a.x) > 0
    ensures var t := Tail(cfg, Progress(cfg, o, now), now); t.a.active == o.a.active && t.a.x == Move(cfg, o.a, now).x
  {
    ProgressMoves(cfg, o, now);
    ProgressSound(cfg, o, now);
    TailKeeps(cfg, Progress(cfg, o, now), now);
  }

  lemma SameMove(cfg: Config, a: ArrayState, b: ArrayState, now: nat)
    requires a.active.Some? && b.active == a.active && b.x == a.x
    ensures Move(cfg, b, now).x == Move(cfg, a, now).x
  {
  }

  lemma TickIsTail(cfg: Config, u: Cell, now: nat)
    requires cfg.pipeline
    ensures TickArray(cfg, u, now) == Tail(cfg, Progress(cfg, ProgressCompute(cfg, u, now), now), now)
  {
  }

  lemma SameTransit(cfg: Config, a: ArrayState, b: ArrayState, now: nat)
    requires InTransit(cfg, a, now) && Remaining(cfg, a.x) > 0 && TimeOk(a, now)
    requires b.active == a.active && b.x == a.x
    ensures InTransit(cfg, b, now) && Remaining(cfg, b.x) > 0 && TimeOk(b, now)
  {
  }

  /** The cycle of an array whose transfer needs more link service only moves its chunk buffer. */
  lemma TickMoves(cfg: Config, u: Cell, now: nat)
    requires Sound(cfg, u) && TimeOk(u.a, now) && InTransit(cfg, u.a, now) && Remaining(cfg, u.a.x) > 0
    ensures TickArray(cfg, u, now).a.active == u.a.active
    ensures TickArray(cfg, u, now).a.x == Move(cfg, u.a, now).x
  {
    if cfg.pipeline {
      var o := ProgressCompute(cfg, u, now);
      ProgressComputeWork(cfg, u, now);
      Stepping.ProgressComputeSound(cfg, u, now);
      SameTransit(cfg, u.a, o.a, now);
      SameMove(cfg, u.a, o.a, now);
      PipelineMoves(cfg, o, now);
      TickIsTail(cfg, u, now);
    } else {
      ProgressMoves(cfg, u, now);
      assert Start(cfg, u, now) == u;
    }
  }

  lemma {:induction false} TickFromPrefix(cfg: Config, arrays: seq<ArrayState>, s: Shared, i: nat, k: nat, now: nat)
    requires k < i && k < |arrays|
    ensures TickFrom(cfg, arrays, s, i, now).0[k] == arrays[k]
    decreases |arrays| - i
  {
    if i < |arrays| {
      var v := TickArray(cfg, Cell(arrays[i], s), now);
      TickFromPrefix(cfg, arrays[i := v.a], v.s, i + 1, k, now);
    }
  }

  /** The state in which TickFrom finds array k. */
  lemma {:induction false} TickFromAt(cfg: Config, arrays: seq<ArrayState>, s: Shared, i: nat, k: nat, now: nat) returns (t: Shared)
    requires Ticking(cfg, arrays, s, now) && i <= k < |arrays|
    ensures Sound(cfg, Cell(arrays[k], t)) && TickFrom(cfg, arrays, s, i, now).0[k] == TickArray(cfg, Cell(arrays[k], t), now).a
    decreases |arrays| - i
  {
    var v := TickArray(cfg, Cell(arrays[i], s), now);
    CycleOne(cfg, arrays, s, i, now);
    if i < k {
      t := TickFromAt(cfg, arrays[i := v.a], v.s, i + 1, k, now);
    } else {
      t := s;
      TickFromPrefix(cfg, arrays[i := v.a], v.s, i + 1, k, now);
    }
  }

  lemma TransitGoesOn(cfg: Config, a: ArrayState, b: ArrayState, now: nat)
    requires cfg.Valid() && TransferOk(cfg, a) && TimeOk(a, now) && InTransit(cfg, a, now) && Remaining(cfg, a.x) > 0
    requires b.active == a.active && b.x == Move(cfg, a, now).x
    ensures OnLink(b, now)
    ensures var d := Linked(b, cfg.linkWidth, now);
            InTransit(cfg, d, now + 1) && Remaining(cfg, d.x) == Remaining(cfg, a.x) - 1
  {
    LoneCountdown(cfg, a, now);
    MoveWork(cfg, a, now);
    assert Linked(b, cfg.linkWidth, now).x == LoneCycle(cfg, a, now).x;
  }

  /** While array i is the only one on the link, every cycle of the component brings its transfer one
      cycle closer to its last byte. */
  lemma AloneCountsDown(cfg: Config, c: Component, i: nat, now: nat)
    requires ComponentOk(cfg, c) && AllTimeOk(c.arrays, now) && i < |c.arrays|
    requires InTransit(cfg, c.arrays[i], now) && Remaining(cfg, c.arrays[i].x) > 0
    requires Alone(TickFrom(cfg, c.arrays, c.s, 0, now).0, i, now)
    ensures var a := Tick(cfg, c, now).arrays[i];
            && a.active == c.arrays[i].active && InTransit(cfg, a, now + 1)
            && Remaining(cfg, a.x) == Remaining(cfg, c.arrays[i].x) - 1
  {
    var t := TickFromAt(cfg, c.arrays, c.s, 0, i, now);
    TickMoves(cfg, Cell(c.arrays[i], t), now);
    var r := TickFrom(cfg, c.arrays, c.s, 0, now).0;
    TransitGoesOn(cfg, c.arrays[i], r[i], now);
    AloneGetsWidth(cfg, r, c.cursor % |r|, i, now);
  }

  // ---- contention ----

  /** Bytes of the active transfer that have crossed the link since it began. */
  ghost function Arrived(a: ArrayState): int {
    a.x.complete + LinkedBytes(a.x)
  }

  /** Whatever else happens in a cycle, one transfer gains at most `linkWidth` bytes: B bytes never
      arrive in fewer than ceil(B/W) cycles. */
  lemma GainIsBounded(cfg: Config, a: ArrayState, budget: nat, now: nat)
    requires cfg.Valid() && a.active.Some? && TransferOk(cfg, a) && TimeOk(a, now) && budget <= cfg.linkWidth
    ensures var b := Linked(Move(cfg, a, now), budget, now);
            Arrived(a) <= Arrived(b) <= Arrived(a) + cfg.linkWidth
    ensures Arrived(Move(cfg, a, now)) == Arrived(a)
  {
    MoveWork(cfg, a, now);
    MovedRemaining(cfg, a, now);
    LinkChunksOne(Move(cfg, a, now).x.chunks, budget, now);
  }
}
