/** Completion: when the active command ends, its effect is exactly its serial effect. */
module Completion {
  import opened Options
  import opened Arithmetic
  import opened Vectors
  import opened Commands
  import opened Engine
  import opened Serial
  import opened Invariant
  import opened Books
  import opened Stepping

  /** v is u with the active command answered Complete and its effect applied. */
  ghost predicate Completed(cfg: Config, u: Cell, v: Cell)
    requires u.a.active.Some?
  {
    var e := u.a.active.value;
    && v.a.active == None && v.a.queue == u.a.queue && v.a.compute == u.a.compute && v.a.log == u.a.log
    && v.a.activeRows == u.a.activeRows && v.a.activeCols == u.a.activeCols && v.a.projection == u.a.projection
    && v.a.sent == u.a.sent + [Reply(e, Complete, if e.cmd.operation == Store then u.a.x.bytes else [])]
    && v.s == Forget(u.s, e.cmd.token)
  }

  lemma CompletedSim(cfg: Config, u: Cell, v: Cell)
    requires Sound(cfg, u) && u.a.active.Some? && Completed(cfg, u, v)
    requires Abs(cfg, v.a) == After(cfg, u.a)
    ensures Sim(cfg, v.a)
  {
  }

  lemma CompletedSound(cfg: Config, u: Cell, v: Cell)
    requires Sound(cfg, u) && u.a.active.Some? && Completed(cfg, u, v)
    requires Abs(cfg, v.a) == After(cfg, u.a)
    requires CoreOk(cfg, v.a) && !v.a.fault
    ensures Sound(cfg, v) && Advances(u, v)
  {
    CompletedSim(cfg, u, v);
    var e := u.a.active.value;
    var payload := if e.cmd.operation == Store then u.a.x.bytes else [];
    if e.cmd.operation == Store && e.cmd.elementCount == 0 {
      assert u.a.x.bytes == [];
    }
    RetireActive(cfg, u, v, Complete, payload);
    SoundFrom(cfg, u, v);
  }

  // ---- Program ----

  ghost predicate Ready(a: ArrayState, op: Operation) {
    ActiveIs(a, op) && a.x.complete == a.x.total && a.x.chunks == [] && a.x.buffered == 0
  }

  lemma ReceivedAll(cfg: Config, a: ArrayState)
    requires cfg.Valid() && TransferOk(cfg, a) && a.active.Some? && a.active.value.cmd.Input()
    requires a.x.complete == a.x.total
    ensures a.x.bytes == a.active.value.cmd.payload
  {
    assert a.x.bytes[..a.x.complete] == a.x.bytes;
    assert a.active.value.cmd.payload[..a.x.complete] == a.active.value.cmd.payload;
  }

  lemma ProgramCore(cfg: Config, a: ArrayState, b: ArrayState)
    requires cfg.Valid() && CoreOk(cfg, a) && Ready(a, Program) && a.x.programming
    requires b == CommitProgram(a, a.active.value.cmd).(active := None, x := a.x.(bytes := []), sent := b.sent)
    ensures CoreOk(cfg, b)
  {
    Monotone(a.activeRows, cfg.rows, cfg.cols);
    CountCovered(a.mem.weightInitialized, cfg.cols, a.activeRows, a.activeCols);
  }

  lemma ProgramAfter(cfg: Config, a: ArrayState, b: ArrayState)
    requires cfg.Valid() && CoreOk(cfg, a) && Ready(a, Program) && a.x.programming
    requires b == CommitProgram(a, a.active.value.cmd).(active := None, x := a.x.(bytes := []), sent := b.sent)
    ensures Abs(cfg, b) == After(cfg, a)
  {
    ReceivedAll(cfg, a);
    assert a.results == [];
    assert Slots(cfg, b) == Slots(cfg, a);
  }

  lemma CompleteProgram(cfg: Config, u: Cell)
    requires Sound(cfg, u) && Ready(u.a, Program) && u.a.x.programming
    ensures var v := CompleteActive(cfg, u.(a := CommitProgram(u.a, u.a.active.value.cmd)), Complete);
            Sound(cfg, v) && Advances(u, v)
  {
    var v := CompleteActive(cfg, u.(a := CommitProgram(u.a, u.a.active.value.cmd)), Complete);
    ProgramCore(cfg, u.a, v.a);
    ProgramAfter(cfg, u.a, v.a);
    CompletedSound(cfg, u, v);
  }

  // ---- Load ----

  lemma LoadMemory(cfg: Config, a: ArrayState, b: ArrayState)
    requires cfg.Valid() && MemoryOk(cfg, a) && FlagsOk(cfg, a) && ActiveIs(a, Load)
    requires Legal(cfg, a.activeRows, a.activeCols, a.active.value.cmd)
    requires a.x.total == 4 * a.active.value.cmd.elementCount
    requires b.mem == CommitLoad(a, a.active.value.cmd).mem && b.active == None
    requires b.activeRows == a.activeRows && b.activeCols == a.activeCols
    ensures MemoryOk(cfg, b) && FlagsOk(cfg, b)
  {
    var c := a.active.value.cmd;
    assert a.x.total / 4 == c.elementCount;
    CountMark(a.mem.inputInitialized, c.elementOffset, c.elementCount);
    CountBound(b.mem.inputInitialized);
  }

  lemma LoadCore(cfg: Config, a: ArrayState, b: ArrayState)
    requires cfg.Valid() && CoreOk(cfg, a) && Ready(a, Load)
    requires b == CommitLoad(a, a.active.value.cmd).(active := None, x := a.x.(bytes := []), sent := b.sent)
    ensures CoreOk(cfg, b)
  {
    LoadMemory(cfg, a, b);
  }

  lemma LoadAfter(cfg: Config, a: ArrayState, b: ArrayState)
    requires cfg.Valid() && CoreOk(cfg, a) && Ready(a, Load)
    requires b == CommitLoad(a, a.active.value.cmd).(active := None, x := a.x.(bytes := []), sent := b.sent)
    ensures Abs(cfg, b) == After(cfg, a)
  {
    ReceivedAll(cfg, a);
    assert Slots(cfg, b) == Slots(cfg, a);
  }

  lemma CompleteLoad(cfg: Config, u: Cell)
    requires Sound(cfg, u) && Ready(u.a, Load)
    ensures var v := CompleteActive(cfg, u.(a := CommitLoad(u.a, u.a.active.value.cmd)), Complete);
            Sound(cfg, v) && Advances(u, v)
  {
    var v := CompleteActive(cfg, u.(a := CommitLoad(u.a, u.a.active.value.cmd)), Complete);
    LoadCore(cfg, u.a, v.a);
    LoadAfter(cfg, u.a, v.a);
    CompletedSound(cfg, u, v);
  }

  // ---- Store ----

  /** The row counter of a slot reaches its size exactly when every row has been read. */
  lemma RowsRead(r: Result, c: Command)
    requires r.deliveredRows == Count(r.delivered) && c.elementOffset + c.elementCount <= |r.delivered|
    ensures var t := Mark(r.delivered, c.elementOffset, c.elementCount);
            var n := r.deliveredRows + Newly(r.delivered, c.elementOffset, c.elementCount);
            n == Count(t) <= |t| && (n == |r.delivered| <==> All(t))
  {
    CountMark(r.delivered, c.elementOffset, c.elementCount);
    CountBound(Mark(r.delivered, c.elementOffset, c.elementCount));
  }

  lemma DeliverCore(cfg: Config, a: ArrayState, b: ArrayState)
    requires cfg.Valid() && CoreOk(cfg, a) && Ready(a, Store) && cfg.pipeline
    requires b == a.(results := DeliverFront(a.results, a.active.value.cmd), active := None, x := a.x.(bytes := []), sent := b.sent)
    ensures CoreOk(cfg, b)
  {
    RowsRead(a.results[0], a.active.value.cmd);
    assert ResultsOk(cfg, b);
  }

  lemma DeliverAfter(cfg: Config, a: ArrayState, b: ArrayState)
    requires cfg.Valid() && CoreOk(cfg, a) && Ready(a, Store) && cfg.pipeline
    requires b == a.(results := DeliverFront(a.results, a.active.value.cmd), active := None, x := a.x.(bytes := []), sent := b.sent)
    ensures Abs(cfg, b) == After(cfg, a)
  {
    RowsRead(a.results[0], a.active.value.cmd);
    assert Slots(cfg, b) == ReadFront(Slots(cfg, a), a.active.value.cmd);
  }

  lemma OutputCore(cfg: Config, a: ArrayState, b: ArrayState)
    requires cfg.Valid() && CoreOk(cfg, a) && Ready(a, Store) && !cfg.pipeline
    requires b == a.(out := DeliverOutput(a.out, a.active.value.cmd), active := None, x := a.x.(bytes := []), sent := b.sent)
    ensures CoreOk(cfg, b) && Abs(cfg, b) == After(cfg, a)
  {
    var c := a.active.value.cmd;
    CountMark(a.out.delivered, c.elementOffset, c.elementCount);
    assert Slots(cfg, b) == Slots(cfg, a);
  }

  lemma CompleteStore(cfg: Config, u: Cell)
    requires Sound(cfg, u) && Ready(u.a, Store)
    ensures var v := CompleteActive(cfg, u, Complete); Sound(cfg, v) && Advances(u, v)
  {
    var v := CompleteActive(cfg, u, Complete);
    if cfg.pipeline {
      DeliverCore(cfg, u.a, v.a);
      DeliverAfter(cfg, u.a, v.a);
    } else {
      OutputCore(cfg, u.a, v.a);
    }
    CompletedSound(cfg, u, v);
  }

  // ---- commands that move nothing, and blocking Execute ----

  lemma EmptyCore(cfg: Config, a: ArrayState, b: ArrayState)
    requires cfg.Valid() && CoreOk(cfg, a) && a.active.Some?
    requires a.active.value.cmd.operation != Execute && a.active.value.cmd.elementCount == 0
    requires b == a.(active := None, x := a.x.(bytes := []), sent := b.sent)
    ensures CoreOk(cfg, b) && Abs(cfg, b) == After(cfg, a)
  {
    assert Slots(cfg, b) == Slots(cfg, a);
  }

  lemma CompleteEmpty(cfg: Config, u: Cell)
    requires Sound(cfg, u) && u.a.active.Some?
    requires u.a.active.value.cmd.operation != Execute && u.a.active.value.cmd.elementCount == 0
    ensures var v := CompleteActive(cfg, u, Complete); Sound(cfg, v) && Advances(u, v)
  {
    var v := CompleteActive(cfg, u, Complete);
    EmptyCore(cfg, u.a, v.a);
    CompletedSound(cfg, u, v);
  }

  lemma ExecuteCore(cfg: Config, a: ArrayState, b: ArrayState)
    requires cfg.Valid() && CoreOk(cfg, a) && a.active.Some? && a.active.value.cmd.operation == Execute
    requires b == CommitExecute(cfg, a).(active := None, x := a.x.(bytes := []), sent := b.sent)
    ensures CoreOk(cfg, b) && Abs(cfg, b) == After(cfg, a)
  {
    CountZeros(a.activeRows);
    assert Slots(cfg, b) == Slots(cfg, a);
  }

  lemma CompleteExecute(cfg: Config, u: Cell)
    requires Sound(cfg, u) && u.a.active.Some? && u.a.active.value.cmd.operation == Execute
    ensures var v := CompleteActive(cfg, u.(a := CommitExecute(cfg, u.a)), Complete); Sound(cfg, v) && Advances(u, v)
  {
    var v := CompleteActive(cfg, u.(a := CommitExecute(cfg, u.a)), Complete);
    ExecuteCore(cfg, u.a, v.a);
    CompletedSound(cfg, u, v);
  }
}
