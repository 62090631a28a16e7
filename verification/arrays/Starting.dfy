/** Starting: which queued command may start, and why starting it early is serially invisible. */
module Starting {
  import opened Options
  import opened Vectors
  import opened Commands
  import opened Engine
  import opened Serial
  import opened Invariant
  import opened Books
  import opened Commute
  import opened Stepping

  ghost predicate Free(cfg: Config, u: Cell, k: nat) {
    Sound(cfg, u) && k < |u.a.queue|
  }

  // ---- a transfer begins ----

  /** Everything that was checked before the transfer at position k is started. */
  ghost predicate MayBegin(cfg: Config, a: ArrayState, k: nat)
    requires cfg.Valid() && k < |a.queue|
  {
    var c := a.queue[k].cmd;
    && a.active.None?
    && Takeable(cfg, Abs(cfg, a), Cmds(a.queue), k)
    && (c.operation == Execute ==> !cfg.pipeline && a.mem.programmed && a.mem.loaded)
    && (c.Moves(Program) ==> !a.mem.initialProgramClosed && (cfg.pipeline ==> a.results == []))
    && (c.Moves(Store) ==> if cfg.pipeline then a.results != [] && a.results[0].ready else a.out.computed)
  }

  ghost function Begun(cfg: Config, u: Cell, k: nat, now: nat): Cell
    requires k < |u.a.queue|
  {
    BeginTransfer(cfg, u.(a := u.a.(active := Some(u.a.queue[k]), queue := Without(u.a.queue, k))), now)
  }

  lemma BeginAnswer(cfg: Config, u: Cell, k: nat)
    requires Free(cfg, u, k) && MayBegin(cfg, u.a, k)
    ensures Accepts(cfg, Abs(cfg, u.a), u.a.queue[k].cmd)
    ensures Verdict(cfg, u.a.log, u.a.queue[k].id) == Answer(cfg, Abs(cfg, u.a), u.a.queue[k].cmd)
    ensures QueueSim(cfg, u.a.log, Effect(cfg, Abs(cfg, u.a), u.a.queue[k].cmd), Without(u.a.queue, k))
  {
    TakeSim(cfg, u.a.log, Abs(cfg, u.a), u.a.queue, k);
  }

  lemma BeginAfter(cfg: Config, u: Cell, k: nat, now: nat)
    requires Free(cfg, u, k) && MayBegin(cfg, u.a, k)
    ensures After(cfg, Begun(cfg, u, k, now).a) == Effect(cfg, Abs(cfg, u.a), u.a.queue[k].cmd)
  {
    var v := Begun(cfg, u, k, now);
    assert Slots(cfg, v.a) == Slots(cfg, u.a);
  }

  /** The bytes fetched at start are the ones the Store serially reads. */
  lemma BeginReads(cfg: Config, a: ArrayState, k: nat)
    requires cfg.Valid() && CoreOk(cfg, a) && k < |a.queue| && MayBegin(cfg, a, k) && a.queue[k].cmd.Moves(Store)
    ensures var c := a.queue[k].cmd;
            Answer(cfg, Abs(cfg, a), c)
            == Done(Encode(Slice(if cfg.pipeline then a.results[0].values else a.out.values, c.elementOffset, c.elementCount)),
                    if cfg.pipeline then Some(a.results[0].token) else None)
  {
    var c := a.queue[k].cmd;
    assert Legal(cfg, a.activeRows, a.activeCols, c);
    if cfg.pipeline {
      assert Slots(cfg, a)[0] == SlotOf(cfg, a, a.results[0]);
    } else {
      assert a.out.values[0..a.activeRows][c.elementOffset..c.elementOffset + c.elementCount]
          == a.out.values[c.elementOffset..c.elementOffset + c.elementCount];
    }
  }

  /** No reservation is violated. */
  lemma BeginReserved(cfg: Config, u: Cell, k: nat)
    requires Free(cfg, u, k) && MayBegin(cfg, u.a, k)
    ensures var c := u.a.queue[k].cmd;
            c.token in u.s.storeResults ==> c.Moves(Store) && cfg.pipeline && u.a.results[0].token == u.s.storeResults[c.token]
  {
    BeginAnswer(cfg, u, k);
    assert EntryShared(cfg, u.a, u.s, u.a.queue[k]);
    if u.a.queue[k].cmd.Moves(Store) { BeginReads(cfg, u.a, k); }
  }

  lemma BeginFetch(cfg: Config, a: ArrayState, s: Shared, k: nat, now: nat)
    requires cfg.Valid() && CoreOk(cfg, a) && k < |a.queue| && MayBegin(cfg, a, k) && !a.fault
    requires var c := a.queue[k].cmd;
             c.token in s.storeResults ==> c.Moves(Store) && cfg.pipeline && a.results[0].token == s.storeResults[c.token]
    ensures var v := Begun(cfg, Cell(a, s), k, now);
            !v.a.fault && ActiveAnswer(cfg, v.a) == Answer(cfg, Abs(cfg, a), a.queue[k].cmd)
  {
    if a.queue[k].cmd.Moves(Store) { BeginReads(cfg, a, k); }
  }

  lemma BeginActive(cfg: Config, u: Cell, k: nat, now: nat)
    requires Free(cfg, u, k) && MayBegin(cfg, u.a, k)
    ensures var v := Begun(cfg, u, k, now);
            !v.a.fault && ActiveAnswer(cfg, v.a) == Answer(cfg, Abs(cfg, u.a), u.a.queue[k].cmd)
  {
    BeginReserved(cfg, u, k);
    BeginFetch(cfg, u.a, u.s, k, now);
  }

  lemma BeginTransferOk(cfg: Config, a: ArrayState, v: ArrayState, k: nat)
    requires cfg.Valid() && CoreOk(cfg, a) && k < |a.queue| && MayBegin(cfg, a, k)
    requires v.x.chunks == a.x.chunks && v.x.issued == v.x.complete == v.x.buffered == 0
    requires v.active == Some(a.queue[k]) && v.results == a.results
    requires v.x.total == 4 * a.queue[k].cmd.elementCount == |v.x.bytes|
    requires !v.x.programming && !v.x.inputCaptured
    requires v.mem == a.mem.(programmed := a.mem.programmed && !a.queue[k].cmd.Moves(Program))
    requires v.out.computed == (a.out.computed && !a.queue[k].cmd.Moves(Program) && !a.queue[k].cmd.Moves(Load))
    ensures TransferOk(cfg, v)
  {
  }

  lemma BeginBytes(cfg: Config, a: ArrayState, k: nat)
    requires cfg.Valid() && CoreOk(cfg, a) && k < |a.queue| && MayBegin(cfg, a, k) && a.queue[k].cmd.Moves(Store)
    ensures var c := a.queue[k].cmd;
            c.elementOffset + c.elementCount <= |if cfg.pipeline then a.results[0].values else a.out.values|
  {
    assert Legal(cfg, a.activeRows, a.activeCols, a.queue[k].cmd);
    assert cfg.pipeline ==> ResultOk(a, a.results[0]);
  }

  lemma BeginQueues(cfg: Config, a: ArrayState, v: ArrayState, k: nat)
    requires cfg.Valid() && CoreOk(cfg, a) && k < |a.queue| && MayBegin(cfg, a, k)
    requires v.queue == Without(a.queue, k) && v.active == Some(a.queue[k]) && v.compute == a.compute
    requires v.results == a.results && v.activeRows == a.activeRows && v.activeCols == a.activeCols
    ensures QueueOk(cfg, v) && WeightsHeld(cfg, v)
  {
    forall i | 0 <= i < |v.queue| ensures v.queue[i] == a.queue[if i < k then i else i + 1] {
      WithoutAt(a.queue, k, i);
    }
  }

  lemma BeginStorage(cfg: Config, a: ArrayState, v: ArrayState, k: nat)
    requires cfg.Valid() && CoreOk(cfg, a) && k < |a.queue| && MayBegin(cfg, a, k)
    requires v.active == Some(a.queue[k]) && v.compute == a.compute && v.results == a.results
    requires v.activeRows == a.activeRows && v.activeCols == a.activeCols
    requires v.mem == a.mem.(programmed := a.mem.programmed && !a.queue[k].cmd.Moves(Program))
    requires v.out == a.out.(computed := a.out.computed && !a.queue[k].cmd.Moves(Program) && !a.queue[k].cmd.Moves(Load))
    ensures MemoryOk(cfg, v) && FlagsOk(cfg, v) && OutputOk(cfg, v) && ResultsOk(cfg, v)
  {
  }

  lemma BeginParts(cfg: Config, a: ArrayState, s: Shared, k: nat, now: nat)
    requires cfg.Valid() && CoreOk(cfg, a) && k < |a.queue| && MayBegin(cfg, a, k)
    ensures CoreOk(cfg, Begun(cfg, Cell(a, s), k, now).a)
  {
    var v := Begun(cfg, Cell(a, s), k, now).a;
    if a.queue[k].cmd.Moves(Store) { BeginBytes(cfg, a, k); }
    BeginStorage(cfg, a, v, k);
    BeginTransferOk(cfg, a, v, k);
    BeginQueues(cfg, a, v, k);
  }

  lemma BeginCore(cfg: Config, u: Cell, k: nat, now: nat)
    requires Free(cfg, u, k) && MayBegin(cfg, u.a, k)
    ensures CoreOk(cfg, Begun(cfg, u, k, now).a)
  {
    BeginParts(cfg, u.a, u.s, k, now);
  }

  lemma BeginSound(cfg: Config, u: Cell, k: nat, now: nat)
    requires Free(cfg, u, k) && MayBegin(cfg, u.a, k)
    ensures Sound(cfg, Begun(cfg, u, k, now)) && Advances(u, Begun(cfg, u, k, now))
  {
    var v := Begun(cfg, u, k, now);
    BeginAnswer(cfg, u, k);
    BeginAfter(cfg, u, k, now);
    BeginActive(cfg, u, k, now);
    BeginCore(cfg, u, k, now);
    MoveToActive(cfg, u, v, k);
    assert Sim(cfg, v.a);
    SoundFrom(cfg, u, v);
  }

  // ---- a queued command is refused ----

  ghost predicate MayReject(cfg: Config, a: ArrayState, k: nat)
    requires cfg.Valid() && k < |a.queue|
  {
    Takeable(cfg, After(cfg, a), Cmds(a.queue), k) && !Accepts(cfg, After(cfg, a), a.queue[k].cmd)
  }

  ghost function Rejected(u: Cell, k: nat): Cell
    requires k < |u.a.queue|
  {
    RejectQueued(u.(a := u.a.(queue := Without(u.a.queue, k))), u.a.queue[k])
  }

  lemma RejectSim(cfg: Config, u: Cell, k: nat)
    requires Free(cfg, u, k) && MayReject(cfg, u.a, k)
    ensures Verdict(cfg, u.a.log, u.a.queue[k].id) == Failed
    ensures Sim(cfg, Rejected(u, k).a)
  {
    var v := Rejected(u, k);
    TakeSim(cfg, u.a.log, After(cfg, u.a), u.a.queue, k);
    assert Slots(cfg, v.a) == Slots(cfg, u.a);
  }

  lemma RejectCore(cfg: Config, a: ArrayState, b: ArrayState, k: nat)
    requires cfg.Valid() && CoreOk(cfg, a) && k < |a.queue|
    requires b == a.(queue := Without(a.queue, k), sent := b.sent)
    ensures CoreOk(cfg, b)
  {
    forall i | 0 <= i < |b.queue| ensures b.queue[i] == a.queue[if i < k then i else i + 1] {
      WithoutAt(a.queue, k, i);
    }
    assert WeightsHeld(cfg, b);
  }

  /** A command refused at start was never promised. */
  lemma RejectSound(cfg: Config, u: Cell, k: nat)
    requires Free(cfg, u, k) && MayReject(cfg, u.a, k)
    ensures Sound(cfg, Rejected(u, k)) && Advances(u, Rejected(u, k))
  {
    var v := Rejected(u, k);
    RejectSim(cfg, u, k);
    RetireQueued(cfg, u, v, k);
    assert v.a == u.a.(queue := Without(u.a.queue, k), sent := v.a.sent);
    RejectCore(cfg, u.a, v.a, k);
    SoundFrom(cfg, u, v);
  }

  // ---- a compute starts ----

  ghost predicate MayCompute(cfg: Config, a: ArrayState)
    requires cfg.Valid()
  {
    && cfg.pipeline && a.queue != [] && a.queue[0].cmd.operation == Execute
    && (a.active.Some? ==> a.active.value.cmd.operation == Store)
    && !ComputeBusy(a) && a.mem.programmed && a.mem.loaded
  }

  ghost function Computing(cfg: Config, u: Cell, now: nat): Cell
    requires u.a.queue != []
  {
    StartCompute(cfg, u.(a := u.a.(queue := Without(u.a.queue, 0))), u.a.queue[0], now)
  }

  lemma ComputeSlots(cfg: Config, u: Cell, now: nat)
    requires Sound(cfg, u) && MayCompute(cfg, u.a)
    ensures Abs(cfg, Computing(cfg, u, now).a) == Effect(cfg, Abs(cfg, u.a), u.a.queue[0].cmd)
  {
    var v := Computing(cfg, u, now);
    var y := Effect(cfg, Abs(cfg, u.a), u.a.queue[0].cmd);
    assert |u.a.results| > 0 ==> u.a.results[|u.a.results| - 1].ready;
    assert forall i :: 0 <= i < |u.a.results| ==> u.a.results[i].ready;
    assert Slots(cfg, v.a) == y.fifo;
  }

  lemma ComputeAfter(cfg: Config, u: Cell, now: nat)
    requires Sound(cfg, u) && MayCompute(cfg, u.a)
    ensures Accepts(cfg, After(cfg, u.a), u.a.queue[0].cmd)
    ensures After(cfg, Computing(cfg, u, now).a) == Perform(cfg, After(cfg, u.a), u.a.queue[0].cmd)
  {
    ComputeSlots(cfg, u, now);
    var x := Abs(cfg, u.a);
    var c := u.a.queue[0].cmd;
    if u.a.active.Some? {
      var s := u.a.active.value.cmd;
      assert Readable(x, s);
      ExecutePassesStore(cfg, x, c, s);
      assert Accepts(cfg, x, c) && Accepts(cfg, x, s);
      assert After(cfg, u.a) == Perform(cfg, x, s);
    }
  }

  lemma ComputeSim(cfg: Config, u: Cell, now: nat)
    requires Sound(cfg, u) && MayCompute(cfg, u.a)
    ensures Verdict(cfg, u.a.log, u.a.queue[0].id) == Done([], None)
    ensures Sim(cfg, Computing(cfg, u, now).a)
  {
    var v := Computing(cfg, u, now);
    ComputeAfter(cfg, u, now);
    TakeSim(cfg, u.a.log, After(cfg, u.a), u.a.queue, 0);
    assert u.a.active.Some? ==> ActiveAnswer(cfg, v.a) == ActiveAnswer(cfg, u.a);
  }

  lemma ComputeCore(cfg: Config, a: ArrayState, b: ArrayState, now: nat)
    requires cfg.Valid() && CoreOk(cfg, a) && MayCompute(cfg, a)
    requires b == a.(queue := Without(a.queue, 0), sent := b.sent, compute := Compute(Some(a.queue[0]), now, a.mem.input),
                     results := a.results + [Result(ZeroWords(a.activeRows), Zeros(a.activeRows), 0, false, a.queue[0].cmd.token)])
    ensures CoreOk(cfg, b)
  {
    CountZeros(a.activeRows);
    assert ResultsOk(cfg, b);
    forall i | 0 <= i < |b.queue| ensures b.queue[i] == a.queue[i + 1] {
      WithoutAt(a.queue, 0, i);
    }
    assert QueueOk(cfg, b);
    assert WeightsHeld(cfg, b);
  }

  lemma ComputeSound(cfg: Config, u: Cell, now: nat)
    requires Sound(cfg, u) && MayCompute(cfg, u.a)
    ensures Sound(cfg, Computing(cfg, u, now)) && Advances(u, Computing(cfg, u, now))
  {
    var v := Computing(cfg, u, now);
    ComputeSim(cfg, u, now);
    ComputeCore(cfg, u.a, v.a, now + cfg.execCost);
    MoveToCompute(cfg, u, v, 0);
    SoundFrom(cfg, u, v);
  }
}
