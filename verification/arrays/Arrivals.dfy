/** Every arrival preserves the invariant: admitted ranges are legal, promises are sound, and a
    rejected command changes nothing that a later reply could show. */
module Arrivals {
  import opened Options
  import opened Arithmetic
  import opened Vectors
  import opened Commands
  import opened Engine
  import opened Admission
  import opened Serial
  import opened Invariant
  import opened Books
  import opened Stepping
  import opened Promises

  /** Promises are only about live commands. */
  ghost predicate SetsOk(s: Shared) {
    s.guaranteed <= s.tokens && s.storeResults.Keys <= s.tokens
  }

  // ---- admitted commands are legal ----

  lemma RegionInside(cfg: Config, a: ArrayState, r: Command, i: nat)
    requires cfg.Valid() && r.elementCount > 0 && ProgramRegionOk(cfg, a, r)
    requires r.elementOffset <= i < r.elementOffset + r.elementCount
    ensures Inside(cfg.cols, a.activeRows, a.activeCols, i)
  {
    var n := cfg.cols;
    var f, l := r.elementOffset, r.elementOffset + r.elementCount - 1;
    DivMono(f, i, n);
    DivMono(i, l, n);
    if f / n == l / n {
      assert i / n == f / n;
      assert i == i / n * n + i % n && f == f / n * n + f % n;
      assert i % n == f % n + (i - f);
    }
  }

  lemma DivMono(a: nat, b: nat, n: nat)
    requires a <= b && n > 0
    ensures a / n <= b / n
  {
    assert a == a / n * n + a % n && b == b / n * n + b % n;
    if a / n > b / n {
      Monotone(b / n + 1, a / n, n);
      assert false;
    }
  }

  lemma AdmittedLegal(cfg: Config, a: ArrayState, r: Command)
    requires cfg.Valid() && r.operation != Configure && Admissible(cfg, a, r)
    ensures Legal(cfg, a.activeRows, a.activeCols, r)
  {
    if r.Moves(Program) {
      forall i | r.elementOffset <= i < r.elementOffset + r.elementCount
        ensures Inside(cfg.cols, a.activeRows, a.activeCols, i)
      {
        RegionInside(cfg, a, r, i);
      }
    }
  }

  // ---- the log grows ----

  lemma VerdictsStable(cfg: Config, log: seq<Command>, r: Command)
    requires cfg.Valid()
    ensures forall n :: 0 <= n < |log| ==> Verdict(cfg, log + [r], n) == Verdict(cfg, log, n)
  {
    forall n | 0 <= n < |log| ensures Verdict(cfg, log + [r], n) == Verdict(cfg, log, n) {
      VerdictStable(cfg, log, r, n);
    }
  }

  lemma AppendSim(cfg: Config, log: seq<Command>, x: Arch, q: seq<Entry>, r: Command)
    requires cfg.Valid() && QueueSim(cfg, log, x, q)
    ensures QueueSim(cfg, log + [r], x, q + [Entry(r, |log|)])
  {
    var e := Entry(r, |log|);
    assert Cmds(q + [e]) == Cmds(q) + [r];
    RunAppend(cfg, x, Cmds(q), r);
    VerdictLast(cfg, log, r);
    VerdictsStable(cfg, log, r);
    forall k | 0 <= k < |q + [e]|
      ensures AnswerAt(cfg, x, Cmds(q + [e]), k) == Verdict(cfg, log + [r], (q + [e])[k].id)
    {
      assert (Cmds(q) + [r])[..k] == Cmds(q)[..k];
      if k == |q| { assert Cmds(q)[..k] == Cmds(q); }
    }
  }

  /** b has accepted r into its queue. */
  ghost predicate Queued(a: ArrayState, b: ArrayState, r: Command, status: Status) {
    var e := Entry(r, |a.log|);
    b == a.(queue := a.queue + [e], log := a.log + [r], sent := a.sent + [Reply(e, status, [])])
  }

  lemma QueuedSim(cfg: Config, a: ArrayState, b: ArrayState, r: Command, status: Status)
    requires cfg.Valid() && Sim(cfg, a) && Queued(a, b, r, status)
    ensures Sim(cfg, b)
  {
    assert Slots(cfg, b) == Slots(cfg, a);
    AppendSim(cfg, a.log, After(cfg, a), a.queue, r);
    VerdictsStable(cfg, a.log, r);
  }

  lemma QueuedCore(cfg: Config, a: ArrayState, b: ArrayState, r: Command, status: Status)
    requires cfg.Valid() && CoreOk(cfg, a) && Queued(a, b, r, status)
    requires r.operation != Configure && Admissible(cfg, a, r) && Occupied(a) < QUEUE_ENTRIES
    ensures CoreOk(cfg, b)
  {
    AdmittedLegal(cfg, a, r);
    assert QueueOk(cfg, b);
    assert WeightsHeld(cfg, b);
  }

  // ---- identities of an accepted command ----

  lemma QueuedDistinct(cfg: Config, u: Cell, b: ArrayState, r: Command, status: Status)
    requires cfg.Valid() && Distinct(u.a) && SharedOk(cfg, u.a, u.s) && Queued(u.a, b, r, status)
    requires r.token !in u.s.tokens
    ensures Distinct(b)
  {
    var e := Entry(r, |u.a.log|);
    forall i | 0 <= i < |u.a.queue| ensures Apart(u.a.queue[i], e) {
      assert EntryShared(cfg, u.a, u.s, u.a.queue[i]);
    }
  }

  lemma QueuedLive(a: ArrayState, b: ArrayState, r: Command, status: Status)
    requires Queued(a, b, r, status)
    ensures LiveIds(b) == LiveIds(a) + {|a.log|}
    ensures LiveTokens(b) == LiveTokens(a) + {r.token}
  {
    assert b.queue[|a.queue|] == Entry(r, |a.log|);
    assert forall i :: 0 <= i < |a.queue| ==> b.queue[i] == a.queue[i];
  }

  lemma QueuedTrace(cfg: Config, a: ArrayState, b: ArrayState, r: Command, status: Status)
    requires cfg.Valid() && TraceOk(cfg, a) && Queued(a, b, r, status)
    requires status == Accepted || (status == Guaranteed && Verdict(cfg, b.log, |a.log|).Done?)
    ensures TraceOk(cfg, b)
  {
    QueuedLive(a, b, r, status);
    VerdictsStable(cfg, a.log, r);
    forall k | 0 <= k < |b.sent|
      ensures ReplyOk(cfg, b, b.sent[k])
    {
      if k < |a.sent| { assert ReplyOk(cfg, a, a.sent[k]); }
    }
    forall n: nat, j: nat, k: nat | AnsweredAt(b, n, j) && AnsweredAt(b, n, k)
      ensures j == k
    {
      assert AnsweredAt(a, n, j) && AnsweredAt(a, n, k);
    }
    forall n: nat | n < |b.log| && n !in LiveIds(b)
      ensures Answered(b, n)
    {
      var k :| AnsweredAt(a, n, k);
      assert AnsweredAt(b, n, k);
    }
  }

  lemma EntryKept(cfg: Config, a: ArrayState, b: ArrayState, s: Shared, t: Shared, r: Command, e: Entry)
    requires cfg.Valid() && EntryShared(cfg, a, s, e) && b.log == a.log + [r] && r.token !in s.tokens
    requires t.tokens == s.tokens + {r.token}
    requires t.guaranteed <= s.guaranteed + {r.token}
    requires forall k :: k in t.storeResults && k != r.token ==> k in s.storeResults && t.storeResults[k] == s.storeResults[k]
    ensures EntryShared(cfg, b, t, e)
  {
    VerdictStable(cfg, a.log, r, e.id);
  }

  /** The token sets after r has been accepted with the given promise. */
  ghost predicate Promised(cfg: Config, a: ArrayState, s: Shared, t: Shared, r: Command, status: Status) {
    && t.tokens == s.tokens + {r.token}
    && t.guaranteed == (if status == Guaranteed then s.guaranteed + {r.token} else s.guaranteed)
    && t.storeResults.Keys <= s.storeResults.Keys + {r.token}
    && (forall k :: k != r.token ==>
          && (k in t.storeResults <==> k in s.storeResults)
          && (k in s.storeResults ==> t.storeResults[k] == s.storeResults[k]))
  }

  lemma QueuedShared(cfg: Config, u: Cell, v: Cell, r: Command, status: Status)
    requires cfg.Valid() && SharedOk(cfg, u.a, u.s) && Queued(u.a, v.a, r, status) && SetsOk(u.s)
    requires r.token !in u.s.tokens && Promised(cfg, u.a, u.s, v.s, r, status)
    requires EntryShared(cfg, v.a, v.s, Entry(r, |u.a.log|))
    ensures SharedOk(cfg, v.a, v.s) && SetsOk(v.s)
  {
    forall i | 0 <= i < |v.a.queue|
      ensures EntryShared(cfg, v.a, v.s, v.a.queue[i])
    {
      if i < |u.a.queue| { EntryKept(cfg, u.a, v.a, u.s, v.s, r, u.a.queue[i]); }
    }
    if v.a.active.Some? { EntryKept(cfg, u.a, v.a, u.s, v.s, r, u.a.active.value); }
    if v.a.compute.entry.Some? { EntryKept(cfg, u.a, v.a, u.s, v.s, r, u.a.compute.entry.value); }
  }

  // ---- projections ----

  /** What the projection step of an arrival may change, and what it has established. */
  lemma ProjectedSound(cfg: Config, u: Cell, r: Command)
    requires Sound(cfg, u) && r.operation != Configure && Admissible(cfg, u.a, r)
    ensures var p := Projected(cfg, u.a, r); p.0 == u.a.(projection := p.0.projection)
    ensures var p := Projected(cfg, u.a, r);
            if p.1 then ProjectedFor(cfg, p.0, r, Perform(cfg, Final(cfg, u.a.log), r)) else ProjectionOk(cfg, p.0)
    ensures Projected(cfg, u.a, r).1 && r.deferred && r.Moves(Program) ==> Answer(cfg, Final(cfg, u.a.log), r).Done?
  {
    FinalShape(cfg, u);
    AdmittedLegal(cfg, u.a, r);
    if cfg.initialProgram && r.Moves(Program) {
      ProjectedInitial(cfg, u, r);
    } else {
      ProjectedPlain(cfg, u, r);
    }
  }

  /** The projection already accounts for y, the serial state once the arriving command is included. */
  ghost predicate ProjectedFor(cfg: Config, a: ArrayState, r: Command, y: Arch)
    requires cfg.Valid()
  {
    a.projection.initialized != [] ==> cfg.initialProgram && Projects(cfg, a.activeRows, a.activeCols, a.projection, y)
  }

  lemma ProjectedPlain(cfg: Config, u: Cell, r: Command)
    requires Sound(cfg, u) && r.operation != Configure && !(cfg.initialProgram && r.Moves(Program))
    requires Legal(cfg, u.a.activeRows, u.a.activeCols, r)
    ensures Projected(cfg, u.a, r) == (u.a, true)
    ensures ProjectedFor(cfg, u.a, r, Perform(cfg, Final(cfg, u.a.log), r))
    ensures r.Moves(Program) ==> Answer(cfg, Final(cfg, u.a.log), r).Done?
  {
    if u.a.projection.initialized != [] {
      ReserveProjects(cfg, u.a.activeRows, u.a.activeCols, u.a.projection, Final(cfg, u.a.log), r);
    }
  }

  lemma ProjectedInitial(cfg: Config, u: Cell, r: Command)
    requires Sound(cfg, u) && cfg.initialProgram && r.Moves(Program)
    requires Legal(cfg, u.a.activeRows, u.a.activeCols, r)
    requires EpochOk(cfg, Final(cfg, u.a.log))
    requires Final(cfg, u.a.log).rows == u.a.activeRows && Final(cfg, u.a.log).cols == u.a.activeCols
    ensures var p := Projected(cfg, u.a, r);
            && p.0 == u.a.(projection := p.0.projection)
            && (if p.1 then ProjectedFor(cfg, p.0, r, Perform(cfg, Final(cfg, u.a.log), r)) else ProjectionOk(cfg, p.0))
            && (p.1 && r.deferred ==> Answer(cfg, Final(cfg, u.a.log), r).Done?)
  {
    var b := if r.deferred then InitializeProjection(u.a) else u.a;
    var y := Final(cfg, u.a.log);
    if b.projection.initialized != [] {
      assert Projects(cfg, u.a.activeRows, u.a.activeCols, b.projection, y) by {
        if u.a.projection.initialized == [] { InitializeProjects(cfg, u); }
      }
      ReserveProjects(cfg, u.a.activeRows, u.a.activeCols, b.projection, y, r);
      if r.deferred && b.projection.count != u.a.activeRows * u.a.activeCols {
        ProjectedProgram(cfg, u.a.activeRows, u.a.activeCols, b.projection, y, r);
      }
    } else if r.deferred {
      InitializeProjects(cfg, u);
      assert false;
    }
  }

  lemma ReprojectCore(cfg: Config, a: ArrayState, b: ArrayState)
    requires cfg.Valid() && CoreOk(cfg, a) && b == a.(projection := b.projection)
    ensures CoreOk(cfg, b)
  {
  }

  lemma ReprojectSim(cfg: Config, a: ArrayState, b: ArrayState)
    requires cfg.Valid() && Sim(cfg, a) && b == a.(projection := b.projection)
    ensures Sim(cfg, b)
  {
    assert Slots(cfg, b) == Slots(cfg, a);
    SimSame(cfg, a, b);
  }

  /** A projection that accounts for a superset changes nothing else in the invariant. */
  lemma ReprojectSound(cfg: Config, u: Cell, b: ArrayState)
    requires Sound(cfg, u) && b == u.a.(projection := b.projection)
    ensures CoreOk(cfg, b) && Sim(cfg, b) && BooksOk(cfg, Cell(b, u.s)) && !b.fault
  {
    ReprojectCore(cfg, u.a, b);
    ReprojectSim(cfg, u.a, b);
    SameBooks(cfg, u, Cell(b, u.s));
  }

  // ---- accepting ----

  /** Everything admission promises is true serially. */
  lemma PromiseSound(cfg: Config, u: Cell, r: Command)
    requires Sound(cfg, u) && r.operation != Configure && Admissible(cfg, u.a, r)
    requires r.deferred && r.Moves(Program) ==> Answer(cfg, Final(cfg, u.a.log), r).Done?
    ensures var p := Promise(cfg, u.a, u.s, r); var answer := Answer(cfg, Final(cfg, u.a.log), r);
            && (p.0 ==> answer.Done? && r.operation != Execute)
            && (p.1.Some? ==> p.0 && r.Moves(Store) && cfg.pipeline && answer.source == p.1)
    ensures cfg.pipeline && r.Moves(Store) ==> !StoreWalk(u.a, u.s.storeResults).clash
  {
    if r.Moves(Store) {
      if cfg.pipeline {
        ProjectedStore(cfg, u, r);
      } else if ProjectedOutput(OutputAfterActive(u.a), u.a.queue) {
        ProjectedBlockingStore(cfg, u, r);
      }
    }
  }

  lemma SamePromise(cfg: Config, a: ArrayState, b: ArrayState, s: Shared, r: Command)
    requires b == a.(projection := b.projection)
    ensures Promise(cfg, b, s, r) == Promise(cfg, a, s, r)
    ensures StoreWalk(b, s.storeResults) == StoreWalk(a, s.storeResults)
  {
  }

  lemma EnqueueShape(cfg: Config, u: Cell, b: ArrayState, r: Command)
    requires Sound(cfg, u) && r.operation != Configure && Admissible(cfg, u.a, r)
    requires b == u.a.(projection := b.projection)
    requires r.deferred && r.Moves(Program) ==> Answer(cfg, Final(cfg, u.a.log), r).Done?
    ensures var v := Enqueue(cfg, b, u.s, r);
            && Queued(b, v.0.a, r, v.1) && Promised(cfg, b, u.s, v.0.s, r, v.1)
            && (v.1 == Guaranteed || v.1 == Accepted)
            && (v.1 == Guaranteed ==> Answer(cfg, Final(cfg, u.a.log), r).Done?)
  {
    PromiseSound(cfg, u, r);
    SamePromise(cfg, u.a, b, u.s, r);
  }

  lemma EnqueueEntry(cfg: Config, u: Cell, b: ArrayState, r: Command)
    requires Sound(cfg, u) && r.operation != Configure && Admissible(cfg, u.a, r) && SetsOk(u.s)
    requires b == u.a.(projection := b.projection) && r.token !in u.s.tokens
    requires r.deferred && r.Moves(Program) ==> Answer(cfg, Final(cfg, u.a.log), r).Done?
    ensures var v := Enqueue(cfg, b, u.s, r).0; EntryShared(cfg, v.a, v.s, Entry(r, |u.a.log|))
  {
    PromiseSound(cfg, u, r);
    SamePromise(cfg, u.a, b, u.s, r);
    VerdictLast(cfg, u.a.log, r);
  }

  lemma EnqueueBooks(cfg: Config, u: Cell, b: ArrayState, r: Command)
    requires Sound(cfg, u) && r.operation != Configure && Admissible(cfg, u.a, r) && SetsOk(u.s)
    requires b == u.a.(projection := b.projection) && r.token !in u.s.tokens
    requires BooksOk(cfg, Cell(b, u.s))
    requires r.deferred && r.Moves(Program) ==> Answer(cfg, Final(cfg, u.a.log), r).Done?
    ensures var v := Enqueue(cfg, b, u.s, r).0; BooksOk(cfg, v) && SetsOk(v.s)
  {
    var v := Enqueue(cfg, b, u.s, r);
    EnqueueShape(cfg, u, b, r);
    EnqueueEntry(cfg, u, b, r);
    VerdictLast(cfg, u.a.log, r);
    QueuedDistinct(cfg, Cell(b, u.s), v.0.a, r, v.1);
    QueuedTrace(cfg, b, v.0.a, r, v.1);
    QueuedShared(cfg, Cell(b, u.s), v.0, r, v.1);
  }

  lemma EnqueueProjection(cfg: Config, u: Cell, b: ArrayState, r: Command)
    requires Sound(cfg, u) && b == u.a.(projection := b.projection)
    requires ProjectedFor(cfg, b, r, Perform(cfg, Final(cfg, u.a.log), r))
    ensures ProjectionOk(cfg, Enqueue(cfg, b, u.s, r).0.a)
  {
    VerdictLast(cfg, u.a.log, r);
  }

  lemma EnqueueCoreSim(cfg: Config, b: ArrayState, s: Shared, r: Command)
    requires cfg.Valid() && CoreOk(cfg, b) && Sim(cfg, b) && LogOk(b.log) && !b.fault
    requires r.operation != Configure && Admissible(cfg, b, r) && Occupied(b) < QUEUE_ENTRIES
    requires Queued(b, Enqueue(cfg, b, s, r).0.a, r, Enqueue(cfg, b, s, r).1)
    ensures var v := Enqueue(cfg, b, s, r).0; CoreOk(cfg, v.a) && Sim(cfg, v.a) && LogOk(v.a.log) && !v.a.fault
  {
    var v := Enqueue(cfg, b, s, r);
    QueuedCore(cfg, b, v.0.a, r, v.1);
    QueuedSim(cfg, b, v.0.a, r, v.1);
  }

  /** What accepting r gives. */
  ghost predicate Accepting(cfg: Config, u: Cell, b: ArrayState, r: Command) {
    && Sound(cfg, u) && r.operation != Configure && cfg.cols > 0 && Admissible(cfg, u.a, r) && SetsOk(u.s)
    && b == u.a.(projection := b.projection) && r.token !in u.s.tokens && Occupied(u.a) < QUEUE_ENTRIES
    && (r.deferred && r.Moves(Program) ==> Answer(cfg, Final(cfg, u.a.log), r).Done?)
    && ProjectedFor(cfg, b, r, Perform(cfg, Final(cfg, u.a.log), r))
  }

  lemma EnqueueParts(cfg: Config, u: Cell, b: ArrayState, r: Command)
    requires Accepting(cfg, u, b, r)
    ensures var v := Enqueue(cfg, b, u.s, r).0; CoreOk(cfg, v.a) && Sim(cfg, v.a) && LogOk(v.a.log) && !v.a.fault
    ensures var v := Enqueue(cfg, b, u.s, r).0; BooksOk(cfg, v) && SetsOk(v.s)
  {
    ReprojectSound(cfg, u, b);
    EnqueueShape(cfg, u, b, r);
    EnqueueBooks(cfg, u, b, r);
    EnqueueCoreSim(cfg, b, u.s, r);
  }

  lemma EnqueueSound(cfg: Config, u: Cell, b: ArrayState, r: Command)
    requires Accepting(cfg, u, b, r)
    ensures Sound(cfg, Enqueue(cfg, b, u.s, r).0) && SetsOk(Enqueue(cfg, b, u.s, r).0.s)
  {
    EnqueueParts(cfg, u, b, r);
    EnqueueProjection(cfg, u, b, r);
  }

  // ---- Configure ----

  lemma ConfiguredCore(cfg: Config, a: ArrayState, r: Command)
    requires cfg.Valid() && CoreOk(cfg, a) && Configurable(cfg, a, r)
    ensures CoreOk(cfg, Configured(cfg, a, r))
  {
    var b := Configured(cfg, a, r);
    CountZeros(|a.mem.weightInitialized|);
    CountZeros(ConfiguredCols(r));
    CellOf(cfg.cols, 0, 0);
    assert Inside(cfg.cols, b.activeRows, b.activeCols, 0);
    assert cfg.rows * cfg.cols > 0;
  }

  lemma ConfiguredAccepts(cfg: Config, a: ArrayState, r: Command)
    requires cfg.Valid() && CoreOk(cfg, a) && r.operation == Configure && Configurable(cfg, a, r)
    ensures Accepts(cfg, Abs(cfg, a), r)
    ensures Abs(cfg, Configured(cfg, a, r)) == Effect(cfg, Abs(cfg, a), r)
  {
    assert Slots(cfg, a) == [] && Slots(cfg, Configured(cfg, a, r)) == [];
    CountBound(a.out.delivered);
  }

  lemma IdleFinal(cfg: Config, a: ArrayState)
    requires cfg.Valid() && Sim(cfg, a) && a.active.None? && a.queue == []
    ensures Final(cfg, a.log) == Abs(cfg, a)
  {
    assert Cmds(a.queue) == [];
  }

  lemma ConfiguredSim(cfg: Config, a: ArrayState, r: Command)
    requires cfg.Valid() && CoreOk(cfg, a) && Sim(cfg, a) && r.operation == Configure && Configurable(cfg, a, r)
    ensures Sim(cfg, Configured(cfg, a, r))
    ensures Verdict(cfg, a.log + [r], |a.log|) == Done([], None)
  {
    var v := Configured(cfg, a, r);
    ConfiguredAccepts(cfg, a, r);
    IdleFinal(cfg, a);
    VerdictLast(cfg, a.log, r);
    assert Cmds(v.queue) == [];
  }

  lemma ConfiguredTrace(cfg: Config, a: ArrayState, r: Command)
    requires cfg.Valid() && TraceOk(cfg, a) && Configurable(cfg, a, r)
    requires Verdict(cfg, a.log + [r], |a.log|) == Done([], None)
    ensures TraceOk(cfg, Configured(cfg, a, r))
  {
    var b := Configured(cfg, a, r);
    var n0 := |a.log|;
    assert LiveIds(a) == {} && LiveIds(b) == {};
    VerdictsStable(cfg, a.log, r);
    assert b.sent == a.sent + [Reply(Entry(r, n0), Accepted, []), Reply(Entry(r, n0), Complete, [])];
    forall k | 0 <= k < |b.sent| ensures ReplyOk(cfg, b, b.sent[k]) {
      if k < |a.sent| { assert ReplyOk(cfg, a, a.sent[k]); }
    }
    forall n: nat, j: nat, k: nat | AnsweredAt(b, n, j) && AnsweredAt(b, n, k)
      ensures j == k
    {
      if j < |a.sent| { assert AnsweredAt(a, n, j) && ReplyOk(cfg, a, a.sent[j]); }
      if k < |a.sent| { assert AnsweredAt(a, n, k) && ReplyOk(cfg, a, a.sent[k]); }
    }
    forall n: nat | n < |b.log| && n !in LiveIds(b) ensures Answered(b, n) {
      if n == n0 {
        assert AnsweredAt(b, n, |a.sent| + 1);
      } else {
        var k :| AnsweredAt(a, n, k);
        assert AnsweredAt(b, n, k);
      }
    }
  }

  lemma ConfigureSound(cfg: Config, u: Cell, r: Command)
    requires Sound(cfg, u) && r.operation == Configure && Configurable(cfg, u.a, r)
    ensures Sound(cfg, u.(a := Configured(cfg, u.a, r)))
    ensures LiveTokens(Configured(cfg, u.a, r)) == LiveTokens(u.a)
  {
    ConfiguredCore(cfg, u.a, r);
    ConfiguredSim(cfg, u.a, r);
    ConfiguredTrace(cfg, u.a, r);
  }

  // ---- arrival ----

  /** A rejected command leaves everything but the projection bitmap as it was. */
  ghost predicate Unmoved(u: Cell, v: Cell) {
    v.s == u.s && v.a == u.a.(projection := v.a.projection)
  }

  ghost predicate Landed(cfg: Config, u: Cell, v: Cell, r: Command, status: Status) {
    match status
    case Error => Unmoved(u, v)
    case Busy => v == u
    case Complete => r.operation == Configure && v.s == u.s && v.a.log == u.a.log + [r] && LiveTokens(v.a) == LiveTokens(u.a)
    case Accepted => v.a.log == u.a.log + [r] && Promised(cfg, u.a, u.s, v.s, r, status) && LiveTokens(v.a) == LiveTokens(u.a) + {r.token}
    case Guaranteed => v.a.log == u.a.log + [r] && Promised(cfg, u.a, u.s, v.s, r, status) && LiveTokens(v.a) == LiveTokens(u.a) + {r.token}
    case _ => false
  }

  lemma QueuedLands(cfg: Config, u: Cell, b: ArrayState, v: Cell, r: Command, status: Status)
    requires b == u.a.(projection := b.projection) && Queued(b, v.a, r, status) && Promised(cfg, b, u.s, v.s, r, status)
    requires status == Guaranteed || status == Accepted
    ensures Landed(cfg, u, v, r, status)
  {
    QueuedLive(b, v.a, r, status);
    assert LiveTokens(b) == LiveTokens(u.a);
  }

  lemma AcceptedLands(cfg: Config, u: Cell, b: ArrayState, r: Command)
    requires Accepting(cfg, u, b, r)
    ensures var v := Enqueue(cfg, b, u.s, r); Landed(cfg, u, v.0, r, v.1)
  {
    var v := Enqueue(cfg, b, u.s, r);
    EnqueueShape(cfg, u, b, r);
    QueuedLands(cfg, u, b, v.0, r, v.1);
  }

  lemma ArriveProjected(cfg: Config, u: Cell, b: ArrayState)
    requires Sound(cfg, u) && b == u.a.(projection := b.projection) && ProjectionOk(cfg, b)
    ensures Sound(cfg, Cell(b, u.s))
  {
    ReprojectSound(cfg, u, b);
  }

  lemma ArriveQueued(cfg: Config, u: Cell, r: Command)
    requires Sound(cfg, u) && SetsOk(u.s) && r.token !in u.s.tokens
    requires r.operation != Configure && Admissible(cfg, u.a, r) && Occupied(u.a) < QUEUE_ENTRIES
    ensures var v := Arrive(cfg, u, r); Sound(cfg, v.0) && SetsOk(v.0.s) && Landed(cfg, u, v.0, r, v.1)
  {
    var p := Projected(cfg, u.a, r);
    ProjectedSound(cfg, u, r);
    if p.1 {
      AcceptedLands(cfg, u, p.0, r);
      EnqueueSound(cfg, u, p.0, r);
    } else {
      ArriveProjected(cfg, u, p.0);
    }
  }

  /** Whatever arrives, the invariant holds afterwards and the status tells what changed. */
  lemma ArriveSound(cfg: Config, u: Cell, r: Command)
    requires Sound(cfg, u) && SetsOk(u.s) && r.token !in u.s.tokens
    ensures var v := Arrive(cfg, u, r); Sound(cfg, v.0) && SetsOk(v.0.s) && Landed(cfg, u, v.0, r, v.1)
  {
    if r.operation == Configure {
      if !(r.deferred || r.elementCount > 0 || r.payload != [] || !Configurable(cfg, u.a, r)) {
        ConfigureSound(cfg, u, r);
      }
    } else if Admissible(cfg, u.a, r) && Occupied(u.a) < QUEUE_ENTRIES {
      ArriveQueued(cfg, u, r);
    }
  }
}
