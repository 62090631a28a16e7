/** Nothing waits without a reason: an array starts whatever can start, in every cycle. */
module Eagerness {
  import opened Options
  import opened Commands
  import opened Engine
  import opened Invariant
  import opened Books
  import opened Stepping
  import opened Moving
  import opened Cycle
  import opened Held
  import opened Runs
  import opened Drain
  import opened Quiescence
  import opened LinkTiming
  import opened Contention
  import opened Delivery
  import opened ArrayTheorems
  import Delays

  // ---- what can start ----

  /** The compute engine is free and one of the two results. */
  predicate EngineFree(a: ArrayState) {
    a.compute.entry.None? && |a.results| < 2
  }

  /** A Store that reads something waits for its result, unless there is none to wait for. */
  predicate Readable(a: ArrayState, c: Command) {
    c.operation == Store && c.elementCount > 0 && a.results != [] ==> a.results[0].ready
  }

  /** No Store is queued before the k-th command. */
  predicate FirstOfStores(q: seq<Entry>, k: nat)
    requires k < |q|
  {
    q[k].cmd.operation == Store && forall j :: 0 <= j < k ==> q[j].cmd.operation != Store
  }

  /** The k-th queued command of a pipelined array can start: an Execute at the head when the engine is free
      and at most a Store is being transferred, anything else when nothing is. The first Store passes an
      Execute that has to wait. */
  predicate Startable(a: ArrayState, k: nat)
    requires k < |a.queue|
  {
    if a.queue[k].cmd.operation == Execute then
      k == 0 && EngineFree(a) && (a.active.Some? ==> a.active.value.cmd.operation == Store)
    else
      a.active.None? && Readable(a, a.queue[k].cmd)
      && (k == 0 || (a.queue[0].cmd.operation == Execute && !EngineFree(a) && FirstOfStores(a.queue, k)))
  }

  ghost predicate Idle(a: ArrayState) {
    forall k: nat :: k < |a.queue| ==> !Startable(a, k)
  }

  lemma SelectsStartable(a: ArrayState, k: nat)
    requires k < |a.queue| && Startable(a, k)
    ensures Select(a) == Some(k)
  {
  }

  // ---- attempts to start ----

  /** The selected command leaves the queue. */
  ghost predicate Takes(v: Cell, w: Cell) {
    Select(v.a).Some? && w.a.queue == Without(v.a.queue, Select(v.a).value)
  }

  ghost function Stops(): (Cell, Cell) -> bool {
    (v: Cell, w: Cell) => (w == v && Idle(v.a)) || (Takes(v, w) && v.a.active.None? && w.a.active.Some?)
  }

  ghost function Shrinks(): (Cell, Cell) -> bool {
    (v: Cell, w: Cell) => Takes(v, w) && w.a.active == v.a.active
  }

  lemma SelectedIsIdle(a: ArrayState)
    requires Select(a).None? || (a.active.None? && !Readable(a, a.queue[Select(a).value].cmd))
    ensures Idle(a)
  {
    forall k: nat | k < |a.queue| ensures !Startable(a, k) {
      if Startable(a, k) { SelectsStartable(a, k); }
    }
  }

  /** A refused command and an Execute that starts leave the queue, and so does one that begins a transfer. */
  lemma TakenOut(cfg: Config, v: Cell, x: Cell, e: Entry, now: nat)
    requires Select(v.a).Some? && e == v.a.queue[Select(v.a).value]
    requires x == v.(a := v.a.(queue := Without(v.a.queue, Select(v.a).value)))
    ensures Shrinks()(v, RejectQueued(x, e)) && Shrinks()(v, StartCompute(cfg, x, e, now))
    ensures v.a.active.None? ==> Stops()(v, BeginTransfer(cfg, x.(a := x.a.(active := Some(e))), now))
  {
  }

  lemma SomeStart(cfg: Config, v: Cell, now: nat, n: nat)
    requires n > 0 && Select(v.a).Some?
    ensures Attempt(PipelineRun(cfg, now), Stops(), Shrinks(), v, n)
  {
    var k := Select(v.a).value;
    var e := v.a.queue[k];
    var x := v.(a := v.a.(queue := Without(v.a.queue, k)));
    TakenOut(cfg, v, x, e, now);
    if v.a.active.None? && !Readable(v.a, e.cmd) { SelectedIsIdle(v.a); }
  }

  lemma NoStart(cfg: Config, v: Cell, now: nat, n: nat)
    requires n == 0 || Select(v.a).None?
    ensures Attempt(PipelineRun(cfg, now), Stops(), Shrinks(), v, n)
  {
    if n > 0 { SelectedIsIdle(v.a); }
  }

  lemma OneStart(cfg: Config, v: Cell, now: nat, n: nat)
    ensures Attempt(PipelineRun(cfg, now), Stops(), Shrinks(), v, n)
  {
    if n > 0 && Select(v.a).Some? { SomeStart(cfg, v, now, n); } else { NoStart(cfg, v, now, n); }
  }

  /** A transfer began, or nothing more can start. */
  ghost predicate Settles(u: Cell, w: Cell) {
    (u.a.active.None? && w.a.active.Some?) || Idle(w.a)
  }

  lemma {:induction false} AttemptsSettle(run: (Cell, nat) -> Cell, u: Cell, n: nat)
    requires forall v: Cell, m: nat :: Attempt(run, Stops(), Shrinks(), v, m)
    requires |u.a.queue| <= n
    ensures Settles(u, run(u, n))
    decreases n
  {
    assert Attempt(run, Stops(), Shrinks(), u, n);
    if n > 0 && !Stops()(u, run(u, n)) {
      var w: Cell :| Shrinks()(u, w) && run(u, n) == run(w, n - 1);
      AttemptsSettle(run, w, n - 1);
    }
  }

  lemma AllStarts(cfg: Config, now: nat)
    ensures forall v: Cell, m: nat :: Attempt(PipelineRun(cfg, now), Stops(), Shrinks(), v, m)
  {
    forall v: Cell, m: nat ensures Attempt(PipelineRun(cfg, now), Stops(), Shrinks(), v, m) {
      OneStart(cfg, v, now, m);
    }
  }

  /** Four attempts suffice: they start a transfer, or leave nothing that could start. */
  lemma NothingLeft(cfg: Config, u: Cell, now: nat)
    requires |u.a.queue| <= 4
    ensures Settles(u, StartPipeline(cfg, u, now, QUEUE_ENTRIES))
  {
    AllStarts(cfg, now);
    AttemptsSettle(PipelineRun(cfg, now), u, QUEUE_ENTRIES);
    assert PipelineRun(cfg, now)(u, QUEUE_ENTRIES) == StartPipeline(cfg, u, now, QUEUE_ENTRIES);
  }

  ghost function Left(e: Entry): Cell -> bool {
    (v: Cell) => e !in v.a.queue
  }

  lemma StaysLeft(e: Entry)
    ensures forall v: Cell, w: Cell :: Left(e)(v) && (Stops()(v, w) || Shrinks()(v, w)) ==> Left(e)(w)
  {
  }

  lemma TakenIsGone(a: ArrayState, k: nat)
    requires Distinct(a) && k < |a.queue|
    ensures a.queue[k] !in Without(a.queue, k)
  {
    forall i | 0 <= i < |a.queue| - 1 ensures Without(a.queue, k)[i] != a.queue[k] {
      WithoutAt(a.queue, k, i);
      var j := if i < k then i else i + 1;
      assert Apart(a.queue[if j < k then j else k], a.queue[if j < k then k else j]);
    }
  }

  lemma StartableLeaves(cfg: Config, u: Cell, k: nat, now: nat)
    requires Distinct(u.a) && k < |u.a.queue| && Startable(u.a, k)
    ensures u.a.queue[k] !in StartPipeline(cfg, u, now, QUEUE_ENTRIES).a.queue
  {
    var e, run := u.a.queue[k], PipelineRun(cfg, now);
    SelectsStartable(u.a, k);
    TakenIsGone(u.a, k);
    AllStarts(cfg, now);
    StaysLeft(e);
    assert Attempt(run, Stops(), Shrinks(), u, QUEUE_ENTRIES);
    if !Stops()(u, run(u, QUEUE_ENTRIES)) {
      var w: Cell :| Shrinks()(u, w) && run(u, QUEUE_ENTRIES) == run(w, QUEUE_ENTRIES - 1);
      AttemptsKeep(run, Stops(), Shrinks(), Left(e), w, QUEUE_ENTRIES - 1);
    }
    assert run(u, QUEUE_ENTRIES) == StartPipeline(cfg, u, now, QUEUE_ENTRIES);
  }

  // ---- one cycle ----

  /** The compute engine is free, or will be in this cycle. */
  predicate EngineDue(a: ArrayState, now: nat) {
    a.compute.entry.None? || a.compute.ready <= now
  }

  /** The same of the state before the cycle, in both modes. */
  predicate MayStart(cfg: Config, a: ArrayState, k: nat, now: nat)
    requires k < |a.queue|
  {
    if !cfg.pipeline then k == 0 && a.active.None?
    else if a.queue[k].cmd.operation == Execute then
      k == 0 && EngineDue(a, now) && |a.results| < 2 && (a.active.Some? ==> a.active.value.cmd.operation == Store)
    else
      a.active.None? && (Readable(a, a.queue[k].cmd) || EngineDue(a, now))
      && (k == 0 || (a.queue[0].cmd.operation == Execute && !(EngineDue(a, now) && |a.results| < 2) && FirstOfStores(a.queue, k)))
  }

  lemma ComputeFrees(cfg: Config, u: Cell, now: nat)
    requires Sound(cfg, u)
    ensures var o := ProgressCompute(cfg, u, now);
            && o.a.queue == u.a.queue && o.a.active == u.a.active && |o.a.results| == |u.a.results|
            && (o.a.compute.entry.None? <==> EngineDue(u.a, now))
            && (!EngineDue(u.a, now) ==> o == u)
  {
  }

  lemma ProgressLeaves(cfg: Config, u: Cell, now: nat)
    ensures var p := Progress(cfg, u, now);
            && p.a.queue == u.a.queue && p.a.compute == u.a.compute && |p.a.results| <= |u.a.results|
            && (p.a.active.None? || p.a.active == u.a.active)
            && (u.a.active.None? ==> p == u)
  {
    ProgressShape(cfg, u, now);
    ProgressResults(cfg, u, now);
  }

  lemma FinishResults(cfg: Config, u: Cell, now: nat)
    requires u.a.active.Some?
    ensures Finish(cfg, u, now).a.compute == u.a.compute && |Finish(cfg, u, now).a.results| <= |u.a.results|
  {
  }

  lemma ProgressResults(cfg: Config, u: Cell, now: nat)
    ensures Progress(cfg, u, now).a.compute == u.a.compute && |Progress(cfg, u, now).a.results| <= |u.a.results|
  {
    if u.a.active.Some? && u.a.x.ready <= now {
      var v := u.(a := Move(cfg, u.a, now));
      assert v.a.compute == u.a.compute && v.a.results == u.a.results;
      FinishResults(cfg, v, now);
    }
  }

  lemma AllReady(cfg: Config, u: Cell)
    requires Sound(cfg, u) && u.a.compute.entry.None? && u.a.results != []
    ensures u.a.results[0].ready
  {
  }

  /** What may start before the cycle can start once the work in progress has advanced. */
  lemma BecomesStartable(cfg: Config, u: Cell, k: nat, now: nat)
    requires Sound(cfg, u) && cfg.pipeline && k < |u.a.queue| && MayStart(cfg, u.a, k, now)
    ensures var p := Progress(cfg, ProgressCompute(cfg, u, now), now);
            p.a.queue == u.a.queue && Startable(p.a, k)
  {
    var o := ProgressCompute(cfg, u, now);
    ComputeFrees(cfg, u, now);
    ProgressComputeSound(cfg, u, now);
    ProgressLeaves(cfg, o, now);
    if EngineDue(u.a, now) && o.a.results != [] { AllReady(cfg, o); }
  }

  lemma TailQueue(cfg: Config, q: Cell, p: Cell, now: nat)
    ensures ProgressCompute(cfg, if p.a.active.Some? then q else Progress(cfg, q, now), now).a.queue == q.a.queue
  {
    ProgressShape(cfg, q, now);
  }

  lemma StartsInCycle(cfg: Config, u: Cell, k: nat, now: nat)
    requires Sound(cfg, u) && k < |u.a.queue| && MayStart(cfg, u.a, k, now)
    ensures u.a.queue[k] !in TickArray(cfg, u, now).a.queue
  {
    if cfg.pipeline {
      var o := ProgressCompute(cfg, u, now);
      var p := Progress(cfg, o, now);
      ProgressComputeSound(cfg, u, now);
      ProgressSound(cfg, o, now);
      BecomesStartable(cfg, u, k, now);
      StartableLeaves(cfg, p, k, now);
      TailQueue(cfg, StartPipeline(cfg, p, now, QUEUE_ENTRIES), p, now);
      TickIsTail(cfg, u, now);
    } else {
      StartTakesHead(cfg, u, now);
      ProgressShape(cfg, Start(cfg, u, now), now);
    }
  }

  lemma StartTakesHead(cfg: Config, u: Cell, now: nat)
    requires Distinct(u.a) && u.a.active.None? && u.a.queue != []
    ensures u.a.queue[0] !in Start(cfg, u, now).a.queue
  {
    TakenIsGone(u.a, 0);
    assert Without(u.a.queue, 0) == u.a.queue[1..];
  }

  // ---- the end of a cycle ----

  /** Some command completed in between. */
  ghost predicate SomeCompleted(a: ArrayState, b: ArrayState) {
    exists k :: |a.sent| <= k < |b.sent| && b.sent[k].status == Complete
  }

  lemma FinishReplies(cfg: Config, u: Cell, now: nat)
    requires u.a.active.Some? && Finish(cfg, u, now).a.active.None?
    ensures SomeCompleted(u.a, Finish(cfg, u, now).a)
  {
    var w := Finish(cfg, u, now).a;
    assert w.sent != [] && w.sent[|w.sent| - 1].status == Complete && |w.sent| > |u.a.sent|;
  }

  lemma ProgressReplies(cfg: Config, u: Cell, now: nat)
    requires u.a.active.Some? && Progress(cfg, u, now).a.active.None?
    ensures SomeCompleted(u.a, Progress(cfg, u, now).a)
  {
    var v := u.(a := Move(cfg, u.a, now));
    assert v.a.sent == u.a.sent;
    var w := Progress(cfg, u, now).a;
    if u.a.active.value.cmd.operation != Execute && u.a.x.total != 0 {
      FinishReplies(cfg, v, now);
    } else {
      assert w.sent != [] && w.sent[|w.sent| - 1].status == Complete && |w.sent| > |u.a.sent|;
    }
  }

  lemma ComputeReplies(cfg: Config, u: Cell, now: nat)
    ensures ProgressCompute(cfg, u, now) == u || SomeCompleted(u.a, ProgressCompute(cfg, u, now).a)
  {
    var w := ProgressCompute(cfg, u, now).a;
    if ProgressCompute(cfg, u, now) != u {
      assert w.sent[|w.sent| - 1].status == Complete && |w.sent| > |u.a.sent|;
    }
  }

  lemma StillCompleted(a: ArrayState, b: ArrayState, c: ArrayState, d: ArrayState)
    requires SomeCompleted(b, c) && |a.sent| <= |b.sent| && c.sent <= d.sent
    ensures SomeCompleted(a, d)
  {
    var k :| |b.sent| <= k < |c.sent| && c.sent[k].status == Complete;
    assert d.sent[k] == c.sent[k];
  }

  /** A transfer began. */
  predicate NewTransfer(a: ArrayState, b: ArrayState) {
    b.active.Some? && b.active != a.active
  }

  /** After a cycle of a pipelined array in which no command completed and no transfer began, nothing that
      waits could start. */
  ghost predicate Exhausts(a: ArrayState, b: ArrayState) {
    SomeCompleted(a, b) || NewTransfer(a, b) || Idle(b)
  }

  /** The second half of the cycle. */
  lemma TailExhausts(cfg: Config, p: Cell, now: nat)
    requires |p.a.queue| <= 4
    ensures var q := StartPipeline(cfg, p, now, QUEUE_ENTRIES);
            var v := ProgressCompute(cfg, if p.a.active.Some? then q else Progress(cfg, q, now), now);
            SomeCompleted(p.a, v.a) || (p.a.active.None? && v.a.active.Some?) || Idle(v.a)
  {
    var q := StartPipeline(cfg, p, now, QUEUE_ENTRIES);
    var r := if p.a.active.Some? then q else Progress(cfg, q, now);
    var v := ProgressCompute(cfg, r, now);
    NothingLeft(cfg, p, now);
    Delays.PipelineSends(cfg, p, now, QUEUE_ENTRIES);
    Delays.ProgressSends(cfg, q, now);
    Delays.ComputeSends(cfg, r, now);
    ComputeReplies(cfg, r, now);
    if v != r {
      StillCompleted(p.a, r.a, v.a, v.a);
    } else if q.a.active.Some? && r.a.active.None? {
      ProgressReplies(cfg, q, now);
      StillCompleted(p.a, q.a, r.a, r.a);
    } else {
      ProgressLeaves(cfg, q, now);
    }
  }

  lemma CycleExhausts(cfg: Config, u: Cell, now: nat)
    requires Sound(cfg, u) && cfg.pipeline
    ensures Exhausts(u.a, TickArray(cfg, u, now).a)
  {
    var o := ProgressCompute(cfg, u, now);
    var p := Progress(cfg, o, now);
    var v := TickArray(cfg, u, now);
    ProgressLeaves(cfg, o, now);
    Delays.ComputeSends(cfg, u, now);
    Delays.ProgressSends(cfg, o, now);
    Delays.TailSends(cfg, p, now);
    TailExhausts(cfg, p, now);
    TickIsTail(cfg, u, now);
    if o.a.active.Some? && p.a.active.None? {
      ProgressReplies(cfg, o, now);
      StillCompleted(u.a, o.a, p.a, v.a);
    } else if SomeCompleted(p.a, v.a) {
      StillCompleted(u.a, p.a, v.a, v.a);
    }
  }

  // ---- deadlines ----

  /** No delay has run out: neither that of the compute engine nor that of the transfer engine. */
  ghost predicate NoneDue(a: ArrayState, now: nat) {
    && (a.compute.entry.Some? ==> now < a.compute.ready)
    && TransferNotDue(a, now)
  }

  ghost predicate TransferNotDue(a: ArrayState, now: nat) {
    a.active.Some? && Delayed(a) ==> now < a.x.ready
  }

  lemma FinishNotDue(cfg: Config, u: Cell, now: nat)
    requires u.a.active.Some?
    ensures TransferNotDue(Finish(cfg, u, now).a, now)
  {
  }

  lemma ProgressNotDue(cfg: Config, u: Cell, now: nat)
    requires Sound(cfg, u)
    ensures TransferNotDue(Progress(cfg, u, now).a, now)
  {
    if u.a.active.Some? && u.a.x.ready <= now && u.a.active.value.cmd.operation != Execute && u.a.x.total != 0 {
      MoveTransfer(cfg, u.a, now);
      FinishNotDue(cfg, u.(a := Move(cfg, u.a, now)), now);
    }
  }

  lemma TailNotDue(cfg: Config, p: Cell, now: nat)
    requires Sound(cfg, p) && cfg.pipeline && TimeOk(p.a, now) && TransferNotDue(p.a, now)
    ensures NoneDue(Tail(cfg, p, now).a, now)
  {
    var q := StartPipeline(cfg, p, now, QUEUE_ENTRIES);
    StartPipelineSound(cfg, p, now, QUEUE_ENTRIES);
    StartPipelineWork(cfg, p, now, QUEUE_ENTRIES);
    ProgressNotDue(cfg, q, now);
    ComputeNotDue(cfg, if p.a.active.Some? then q else Progress(cfg, q, now), now);
  }

  lemma ComputeNotDue(cfg: Config, u: Cell, now: nat)
    requires TransferNotDue(u.a, now)
    ensures NoneDue(ProgressCompute(cfg, u, now).a, now)
  {
  }

  lemma CycleNotDue(cfg: Config, u: Cell, now: nat)
    requires Sound(cfg, u) && TimeOk(u.a, now)
    ensures NoneDue(TickArray(cfg, u, now).a, now)
  {
    if cfg.pipeline {
      var o := ProgressCompute(cfg, u, now);
      ProgressComputeSound(cfg, u, now);
      ProgressComputeWork(cfg, u, now);
      ProgressSound(cfg, o, now);
      ProgressEases(cfg, o, now);
      ProgressNotDue(cfg, o, now);
      TailNotDue(cfg, Progress(cfg, o, now), now);
      TickIsTail(cfg, u, now);
    } else {
      StartSound(cfg, u, now);
      ProgressSound(cfg, Start(cfg, u, now), now);
      ProgressNotDue(cfg, Start(cfg, u, now), now);
    }
  }

  // ---- in every run ----

  lemma NextState(cfg: Config, count: nat, events: seq<Event>, i: nat, now: nat) returns (t: Shared, budget: nat)
    requires Ran(cfg, count, events, i) && Chronological(events, now)
    ensures Sound(cfg, Cell(State(cfg, count, events, i), t)) && TimeOk(State(cfg, count, events, i), now)
    ensures State(cfg, count, events + [Clock(now)], i) == Linked(TickArray(cfg, Cell(State(cfg, count, events, i), t), now).a, budget, now)
  {
    CountKept(cfg, InitialComponent(cfg, count), events);
    RunDraining(cfg, count, events, now);
    OneMoreClock(cfg, count, events, now);
    t, budget := CycleShare(cfg, Reach(cfg, count, events), i, now);
  }

  /** In any run, a waiting command that may start leaves the queue in the next cycle. */
  lemma StartsAtOnce(cfg: Config, count: nat, events: seq<Event>, i: nat, k: nat, now: nat)
    requires Ran(cfg, count, events, i) && Chronological(events, now)
    requires k < |State(cfg, count, events, i).queue| && MayStart(cfg, State(cfg, count, events, i), k, now)
    ensures State(cfg, count, events, i).queue[k] !in State(cfg, count, events + [Clock(now)], i).queue
  {
    var t, budget := NextState(cfg, count, events, i, now);
    StartsInCycle(cfg, Cell(State(cfg, count, events, i), t), k, now);
  }

  /** In any run of pipelined arrays, after a cycle in which nothing completed and no transfer began, nothing
      that waits could start; and there are never more than two results. */
  lemma NothingWaitsIdly(cfg: Config, count: nat, events: seq<Event>, i: nat, now: nat)
    requires Ran(cfg, count, events, i) && Chronological(events, now) && cfg.pipeline
    ensures Exhausts(State(cfg, count, events, i), State(cfg, count, events + [Clock(now)], i))
    ensures |State(cfg, count, events, i).results| <= 2
  {
    var t, budget := NextState(cfg, count, events, i, now);
    var u := Cell(State(cfg, count, events, i), t);
    CycleExhausts(cfg, u, now);
    LinkedExhausts(u.a, TickArray(cfg, u, now).a, budget, now);
  }

  /** In any run no delay has run out after a cycle: what was due has completed in it. */
  lemma NothingOverdue(cfg: Config, count: nat, events: seq<Event>, i: nat, now: nat)
    requires Ran(cfg, count, events, i) && Chronological(events, now)
    ensures NoneDue(State(cfg, count, events + [Clock(now)], i), now)
  {
    var t, budget := NextState(cfg, count, events, i, now);
    CycleNotDue(cfg, Cell(State(cfg, count, events, i), t), now);
  }

  lemma LinkedExhausts(a: ArrayState, b: ArrayState, budget: nat, now: nat)
    requires Exhausts(a, b)
    ensures Exhausts(a, Linked(b, budget, now))
  {
    var c := Linked(b, budget, now);
    if Idle(b) {
      forall k: nat | k < |c.queue| ensures !Startable(c, k) {
        assert !Startable(b, k);
      }
    }
  }
}
