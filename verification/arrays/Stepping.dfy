/** Every internal step of an array preserves the invariant. */
module Stepping {
  import opened Options
  import opened Commands
  import opened Engine
  import opened Invariant
  import opened Books

  /** Everything the invariant says apart from bookkeeping. */
  ghost predicate CoreOk(cfg: Config, a: ArrayState)
    requires cfg.Valid()
  {
    && MemoryOk(cfg, a) && FlagsOk(cfg, a) && OutputOk(cfg, a) && ResultsOk(cfg, a)
    && QueueOk(cfg, a) && WeightsHeld(cfg, a) && TransferOk(cfg, a)
  }

  lemma SoundFrom(cfg: Config, u: Cell, v: Cell)
    requires Sound(cfg, u) && BookAdvances(u, v)
    requires !v.a.fault && CoreOk(cfg, v.a) && Sim(cfg, v.a) && BooksOk(cfg, v)
    requires v.a.activeRows == u.a.activeRows && v.a.activeCols == u.a.activeCols && v.a.projection == u.a.projection
    ensures Sound(cfg, v) && Advances(u, v)
  {
  }

  lemma AdvancesTrans(u: Cell, v: Cell, w: Cell)
    requires Advances(u, v) && Advances(v, w)
    ensures Advances(u, w)
  {
    BookAdvancesTrans(u, v, w);
  }

  lemma AdvancesRefl(u: Cell)
    ensures Advances(u, u)
  {
    assert u.s == Drop(u.s, {});
  }

  /** Nothing the simulation looks at has changed. */
  lemma SimSame(cfg: Config, a: ArrayState, b: ArrayState)
    requires cfg.Valid() && Sim(cfg, a)
    requires b.queue == a.queue && b.active == a.active && b.compute.entry == a.compute.entry && b.log == a.log
    requires After(cfg, b) == After(cfg, a)
    requires a.active.Some? ==> ActiveAnswer(cfg, b) == ActiveAnswer(cfg, a)
    ensures Sim(cfg, b)
  {
  }

  lemma TransferCore(cfg: Config, a: ArrayState, b: ArrayState)
    requires cfg.Valid() && CoreOk(cfg, a)
    requires b == a.(x := b.x, sent := b.sent) && TransferOk(cfg, b)
    ensures CoreOk(cfg, b)
  {
  }

  lemma TransferSim(cfg: Config, a: ArrayState, b: ArrayState)
    requires cfg.Valid() && Sim(cfg, a) && a.active.Some?
    requires b == a.(x := b.x, sent := b.sent)
    requires a.active.value.cmd.operation == Store ==> b.x.bytes == a.x.bytes
    ensures Sim(cfg, b)
  {
    assert Slots(cfg, b) == Slots(cfg, a);
    SimSame(cfg, a, b);
  }

  /** A step of the transfer engine alone. */
  lemma TransferStep(cfg: Config, u: Cell, v: Cell)
    requires Sound(cfg, u) && u.a.active.Some?
    requires v.s == u.s && v.a == u.a.(x := v.a.x, sent := v.a.sent)
    requires v.a.sent == u.a.sent || v.a.sent == u.a.sent + [Reply(u.a.active.value, Captured, [])]
    requires TransferOk(cfg, v.a)
    requires u.a.active.value.cmd.operation == Store ==> v.a.x.bytes == u.a.x.bytes
    ensures Sound(cfg, v) && Advances(u, v)
  {
    TransferCore(cfg, u.a, v.a);
    TransferSim(cfg, u.a, v.a);
    SameBooks(cfg, u, v);
    SoundFrom(cfg, u, v);
  }

  // ---- the compute engine ----

  lemma ProgressComputeSlots(cfg: Config, u: Cell, now: nat)
    requires Sound(cfg, u) && u.a.compute.entry.Some? && u.a.compute.ready <= now
    ensures Abs(cfg, ProgressCompute(cfg, u, now).a) == Abs(cfg, u.a)
  {
    var v := ProgressCompute(cfg, u, now);
    assert Slots(cfg, v.a) == Slots(cfg, u.a);
  }

  lemma ProgressComputeResults(cfg: Config, a: ArrayState, b: ArrayState)
    requires cfg.Valid() && ResultsOk(cfg, a) && a.compute.entry.Some? && b.compute.entry.None?
    requires b.activeRows == a.activeRows && |b.results| == |a.results|
    requires var n := |a.results| - 1;
             && (forall i :: 0 <= i < n ==> b.results[i] == a.results[i])
             && b.results[n] == a.results[n].(values := b.results[n].values, ready := true)
             && |b.results[n].values| == a.activeRows
    ensures ResultsOk(cfg, b)
  {
  }

  lemma ProgressComputeCore(cfg: Config, a: ArrayState, s: Shared, now: nat)
    requires cfg.Valid() && CoreOk(cfg, a) && !a.fault && a.compute.entry.Some? && a.compute.ready <= now
    ensures CoreOk(cfg, ProgressCompute(cfg, Cell(a, s), now).a) && !ProgressCompute(cfg, Cell(a, s), now).a.fault
  {
    ProgressComputeResults(cfg, a, ProgressCompute(cfg, Cell(a, s), now).a);
  }

  /** A compute finishes: its reserved slot is still waiting for it and receives the dot products of
      the captured input with the resident weights. */
  lemma ProgressComputeSound(cfg: Config, u: Cell, now: nat)
    requires Sound(cfg, u)
    ensures Sound(cfg, ProgressCompute(cfg, u, now)) && Advances(u, ProgressCompute(cfg, u, now))
  {
    var v := ProgressCompute(cfg, u, now);
    if u.a.compute.entry.None? || now < u.a.compute.ready {
      AdvancesRefl(u);
    } else {
      ProgressComputeSlots(cfg, u, now);
      ProgressComputeCore(cfg, u.a, u.s, now);
      RetireCompute(cfg, u, v);
      SoundFrom(cfg, u, v);
    }
  }
}
