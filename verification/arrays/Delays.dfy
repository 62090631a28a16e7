/** Device delays in whole runs: an Execute, and a Program once its last byte has arrived, completes in the
    first cycle at or after its deadline and in no earlier one. */
module Delays {
  import opened Options
  import opened Vectors
  import opened Commands
  import opened Engine
  import opened Admission
  import opened Invariant
  import opened Stepping
  import opened Cycle
  import opened Held
  import Programming
  import opened Runs
  import opened Drain
  import opened Quiescence
  import opened LinkTiming
  import opened Contention
  import opened Delivery
  import opened ArrayTheorems

  /** The command counts down a delay that ends at the deadline: in the compute engine, or in the transfer
      engine as an Execute or as a Program that has arrived. */
  ghost predicate Counting(a: ArrayState, e: Entry, deadline: nat) {
    || (a.compute.entry == Some(e) && a.compute.ready == deadline)
    || (a.active == Some(e) && Delayed(a) && a.x.ready == deadline)
  }

  ghost predicate Completed(a: ArrayState, e: Entry) {
    exists k :: 0 <= k < |a.sent| && a.sent[k].request == e && a.sent[k].status == Complete
  }

  // ---- replies are never taken back ----

  lemma CompletedStays(a: ArrayState, b: ArrayState, e: Entry)
    requires a.sent <= b.sent && Completed(a, e)
    ensures Completed(b, e)
  {
    var k :| 0 <= k < |a.sent| && a.sent[k].request == e && a.sent[k].status == Complete;
    assert b.sent[k] == a.sent[k];
  }

  lemma CompleteSends(cfg: Config, u: Cell, status: Status)
    requires u.a.active.Some?
    ensures u.a.sent <= CompleteActive(cfg, u, status).a.sent
  {
  }

  lemma FinishSends(cfg: Config, u: Cell, now: nat)
    requires u.a.active.Some?
    ensures u.a.sent <= Finish(cfg, u, now).a.sent
  {
    var c, v := u.a.active.value.cmd, CaptureInput(u);
    assert u.a.sent <= v.a.sent && v.a.active == u.a.active;
    if c.operation == Program {
      var w := if v.a.x.programming then v else v.(a := Receive(cfg, v.a, c, now));
      assert w.a.sent == v.a.sent;
      if w.a.x.ready <= now { CompleteSends(cfg, w.(a := CommitProgram(w.a, c)), Complete); }
    } else {
      CompleteSends(cfg, if c.operation == Load then v.(a := CommitLoad(v.a, c)) else v, Complete);
    }
  }

  lemma ProgressSends(cfg: Config, u: Cell, now: nat)
    ensures u.a.sent <= Progress(cfg, u, now).a.sent
  {
    if u.a.active.Some? && u.a.x.ready <= now && u.a.active.value.cmd.operation != Execute && u.a.x.total != 0 {
      MoveHolds(cfg, u.a, now);
      FinishSends(cfg, u.(a := Move(cfg, u.a, now)), now);
    }
  }

  lemma ComputeSends(cfg: Config, u: Cell, now: nat)
    ensures u.a.sent <= ProgressCompute(cfg, u, now).a.sent
  {
  }

  ghost function SentFrom(u: Cell): Cell -> bool {
    (v: Cell) => u.a.sent <= v.a.sent
  }

  lemma AttemptSends(cfg: Config, v: Cell, w: Cell, now: nat)
    requires Begins(cfg, now)(v, w) || Disposes(cfg, now)(v, w)
    ensures v.a.sent <= w.a.sent
  {
    if w != v {
      var k := Select(v.a).value;
      var e, x := v.a.queue[k], v.(a := v.a.(queue := Without(v.a.queue, k)));
      BeginSends(cfg, v.(a := v.a.(queue := Without(v.a.queue, k), active := Some(e))), now);
      DisposeSends(cfg, x, e, now);
    }
  }

  lemma BeginSends(cfg: Config, x: Cell, now: nat)
    requires x.a.active.Some?
    ensures BeginTransfer(cfg, x, now).a.sent == x.a.sent
  {
  }

  lemma DisposeSends(cfg: Config, x: Cell, e: Entry, now: nat)
    ensures x.a.sent <= RejectQueued(x, e).a.sent && x.a.sent <= StartCompute(cfg, x, e, now).a.sent
  {
  }

  lemma PipelineSends(cfg: Config, u: Cell, now: nat, attempts: nat)
    ensures u.a.sent <= StartPipeline(cfg, u, now, attempts).a.sent
  {
    forall v: Cell, n: nat ensures Attempt(PipelineRun(cfg, now), Begins(cfg, now), Disposes(cfg, now), v, n) {
      OneAttempt(cfg, v, now, n);
    }
    forall v: Cell, w: Cell | SentFrom(u)(v) && (Begins(cfg, now)(v, w) || Disposes(cfg, now)(v, w)) ensures SentFrom(u)(w) {
      AttemptSends(cfg, v, w, now);
    }
    AttemptsKeep(PipelineRun(cfg, now), Begins(cfg, now), Disposes(cfg, now), SentFrom(u), u, attempts);
    assert PipelineRun(cfg, now)(u, attempts) == StartPipeline(cfg, u, now, attempts);
  }

  lemma StartSends(cfg: Config, u: Cell, now: nat)
    ensures u.a.sent <= Start(cfg, u, now).a.sent
  {
  }

  lemma TailSends(cfg: Config, p: Cell, now: nat)
    ensures p.a.sent <= Tail(cfg, p, now).a.sent
  {
    var q := StartPipeline(cfg, p, now, QUEUE_ENTRIES);
    PipelineSends(cfg, p, now, QUEUE_ENTRIES);
    ProgressSends(cfg, q, now);
    ComputeSends(cfg, if p.a.active.Some? then q else Progress(cfg, q, now), now);
  }

  lemma CycleSends(cfg: Config, u: Cell, now: nat)
    ensures u.a.sent <= TickArray(cfg, u, now).a.sent
  {
    if cfg.pipeline {
      var o := ProgressCompute(cfg, u, now);
      ComputeSends(cfg, u, now);
      ProgressSends(cfg, o, now);
      TailSends(cfg, Progress(cfg, o, now), now);
      TickIsTail(cfg, u, now);
    } else {
      StartSends(cfg, u, now);
      ProgressSends(cfg, Start(cfg, u, now), now);
    }
  }

  // ---- before the deadline ----

  lemma TailComputes(cfg: Config, p: Cell, now: nat)
    requires Sound(cfg, p) && cfg.pipeline && TimeOk(p.a, now) && p.a.compute.entry.Some? && now < p.a.compute.ready
    ensures Tail(cfg, p, now).a.compute == p.a.compute
  {
    var q := StartPipeline(cfg, p, now, QUEUE_ENTRIES);
    StartPipelineSound(cfg, p, now, QUEUE_ENTRIES);
    StartPipelineWork(cfg, p, now, QUEUE_ENTRIES);
    if p.a.active.None? { ProgressEases(cfg, q, now); }
    ProgressComputeWork(cfg, if p.a.active.Some? then q else Progress(cfg, q, now), now);
  }

  lemma ComputeCounts(cfg: Config, u: Cell, e: Entry, now: nat)
    requires Sound(cfg, u) && TimeOk(u.a, now) && u.a.compute.entry == Some(e) && now < u.a.compute.ready
    ensures TickArray(cfg, u, now).a.compute == u.a.compute
  {
    assert cfg.pipeline;
    assert ProgressCompute(cfg, u, now) == u;
    ProgressSound(cfg, u, now);
    ProgressEases(cfg, u, now);
    TailComputes(cfg, Progress(cfg, u, now), now);
    TickIsTail(cfg, u, now);
  }

  lemma TransferCounts(cfg: Config, u: Cell, e: Entry, now: nat)
    requires Sound(cfg, u) && TimeOk(u.a, now) && u.a.active == Some(e) && Delayed(u.a) && now < u.a.x.ready
    ensures var b := TickArray(cfg, u, now).a; b.active == Some(e) && b.x == u.a.x
  {
    if cfg.pipeline {
      var o := ProgressCompute(cfg, u, now);
      ProgressComputeSound(cfg, u, now);
      ProgressComputeWork(cfg, u, now);
      assert Progress(cfg, o, now) == o;
      TailKeeps(cfg, o, now);
      TickIsTail(cfg, u, now);
    } else {
      BusyBlocks(cfg, u, now);
    }
  }

  /** A cycle before the deadline. */
  lemma CycleCounts(cfg: Config, u: Cell, e: Entry, deadline: nat, now: nat)
    requires Sound(cfg, u) && TimeOk(u.a, now) && Counting(u.a, e, deadline) && now < deadline
    ensures Counting(TickArray(cfg, u, now).a, e, deadline)
  {
    if u.a.compute.entry == Some(e) && u.a.compute.ready == deadline {
      ComputeCounts(cfg, u, e, now);
    } else {
      TransferCounts(cfg, u, e, now);
    }
  }

  // ---- at the deadline ----

  lemma LastReply(a: ArrayState, e: Entry)
    requires a.sent != [] && a.sent[|a.sent| - 1].request == e && a.sent[|a.sent| - 1].status == Complete
    ensures Completed(a, e)
  {
  }

  lemma ComputeEnds(cfg: Config, u: Cell, e: Entry, now: nat)
    requires Sound(cfg, u) && u.a.compute.entry == Some(e) && u.a.compute.ready <= now
    ensures Completed(TickArray(cfg, u, now).a, e)
  {
    assert cfg.pipeline;
    var o := ProgressCompute(cfg, u, now);
    LastReply(o.a, e);
    ProgressSends(cfg, o, now);
    TailSends(cfg, Progress(cfg, o, now), now);
    TickIsTail(cfg, u, now);
    CompletedStays(o.a, TickArray(cfg, u, now).a, e);
  }

  lemma MovedAll(cfg: Config, a: ArrayState, now: nat)
    requires cfg.Valid() && TransferOk(cfg, a) && a.active.Some? && TimeOk(a, now) && a.x.complete == a.x.total
    ensures Move(cfg, a, now) == a
  {
    ReleaseWork(cfg, a, now);
    MoveHolds(cfg, a, now);
  }

  lemma ProgrammingEnds(cfg: Config, v: Cell, e: Entry, now: nat)
    requires v.a.active == Some(e) && e.cmd.operation == Program && v.a.x.programming && v.a.x.ready <= now
    ensures Completed(Finish(cfg, v, now).a, e)
  {
    LastReply(Finish(cfg, v, now).a, e);
  }

  lemma TransferEnds(cfg: Config, u: Cell, e: Entry, now: nat)
    requires Sound(cfg, u) && TimeOk(u.a, now) && u.a.active == Some(e) && Delayed(u.a) && u.a.x.ready <= now
    ensures Completed(Progress(cfg, u, now).a, e)
  {
    if e.cmd.operation == Execute {
      LastReply(Progress(cfg, u, now).a, e);
    } else {
      MovedAll(cfg, u.a, now);
      ProgrammingEnds(cfg, u, e, now);
    }
  }

  lemma SameDelay(a: ArrayState, b: ArrayState, e: Entry)
    requires b.active == a.active && b.x == a.x && Delayed(a)
    ensures Delayed(b)
  {
  }

  /** The first cycle at or after the deadline. */
  lemma CycleEnds(cfg: Config, u: Cell, e: Entry, deadline: nat, now: nat)
    requires Sound(cfg, u) && TimeOk(u.a, now) && Counting(u.a, e, deadline) && deadline <= now
    ensures Completed(TickArray(cfg, u, now).a, e)
  {
    if u.a.compute.entry == Some(e) && u.a.compute.ready == deadline {
      ComputeEnds(cfg, u, e, now);
    } else if cfg.pipeline {
      var o := ProgressCompute(cfg, u, now);
      ProgressComputeSound(cfg, u, now);
      ProgressComputeWork(cfg, u, now);
      SameDelay(u.a, o.a, e);
      TransferEnds(cfg, o, e, now);
      TailSends(cfg, Progress(cfg, o, now), now);
      TickIsTail(cfg, u, now);
      CompletedStays(Progress(cfg, o, now).a, TickArray(cfg, u, now).a, e);
    } else {
      BusyBlocks(cfg, u, now);
      TransferEnds(cfg, u, e, now);
    }
  }

  // ---- one event ----

  lemma ClockCounts(cfg: Config, c: Component, i: nat, e: Entry, deadline: nat, now: nat)
    requires Draining(cfg, c, now) && i < |c.arrays| && Counting(c.arrays[i], e, deadline)
    ensures i < |Tick(cfg, c, now).arrays|
    ensures now < deadline ==> Counting(Tick(cfg, c, now).arrays[i], e, deadline)
    ensures deadline <= now ==> Completed(Tick(cfg, c, now).arrays[i], e)
  {
    var t, budget := CycleShare(cfg, c, i, now);
    var b := TickArray(cfg, Cell(c.arrays[i], t), now).a;
    if now < deadline {
      CycleCounts(cfg, Cell(c.arrays[i], t), e, deadline, now);
    } else {
      CycleEnds(cfg, Cell(c.arrays[i], t), e, deadline, now);
    }
    assert Linked(b, budget, now).sent == b.sent;
  }

  lemma ClockSends(cfg: Config, c: Component, i: nat, now: nat)
    requires Draining(cfg, c, now) && i < |c.arrays|
    ensures i < |Tick(cfg, c, now).arrays| && c.arrays[i].sent <= Tick(cfg, c, now).arrays[i].sent
  {
    var t, budget := CycleShare(cfg, c, i, now);
    CycleSends(cfg, Cell(c.arrays[i], t), now);
    assert Linked(TickArray(cfg, Cell(c.arrays[i], t), now).a, budget, now).sent == TickArray(cfg, Cell(c.arrays[i], t), now).a.sent;
  }

  /** What an arrival leaves alone. */
  ghost predicate Untouched(a: ArrayState, b: ArrayState) {
    && a.sent <= b.sent
    && (a.compute.entry.Some? || a.active.Some? ==> b.compute == a.compute && b.active == a.active && b.x == a.x)
  }

  lemma EnqueueUntouched(cfg: Config, a: ArrayState, s: Shared, r: Command)
    ensures Untouched(a, Enqueue(cfg, a, s, r).0.a)
  {
  }

  lemma ProjectedUntouched(cfg: Config, a: ArrayState, r: Command)
    ensures var b := Projected(cfg, a, r).0; b == a.(projection := b.projection)
  {
  }

  lemma UntouchedBy(cfg: Config, a: ArrayState, b: ArrayState, s: Shared, r: Command)
    requires b == a.(projection := b.projection)
    ensures Untouched(a, b) && Untouched(a, Enqueue(cfg, b, s, r).0.a)
  {
    EnqueueUntouched(cfg, b, s, r);
  }

  lemma ArriveUntouched(cfg: Config, u: Cell, r: Command)
    requires cfg.cols > 0
    ensures Untouched(u.a, Arrive(cfg, u, r).0.a)
  {
    if r.operation != Configure {
      ProjectedUntouched(cfg, u.a, r);
      UntouchedBy(cfg, u.a, Projected(cfg, u.a, r).0, u.s, r);
    }
  }

  lemma UntouchedCounts(a: ArrayState, b: ArrayState, e: Entry, deadline: nat)
    requires Untouched(a, b)
    ensures Counting(a, e, deadline) ==> Counting(b, e, deadline)
  {
  }

  lemma ArrivalCounts(cfg: Config, c: Component, r: Command, i: nat, e: Entry, deadline: nat)
    requires cfg.Valid() && i < |c.arrays|
    ensures i < |Submit(cfg, c, r).0.arrays| && c.arrays[i].sent <= Submit(cfg, c, r).0.arrays[i].sent
    ensures Counting(c.arrays[i], e, deadline) ==> Counting(Submit(cfg, c, r).0.arrays[i], e, deadline)
  {
    if r.target < |c.arrays| { ArriveUntouched(cfg, Cell(c.arrays[r.target], c.s), r); }
    assert Untouched(c.arrays[i], c.arrays[i]);
    assert Untouched(c.arrays[i], Submit(cfg, c, r).0.arrays[i]);
    UntouchedCounts(c.arrays[i], Submit(cfg, c, r).0.arrays[i], e, deadline);
  }

  // ---- runs ----

  /** Every cycle among the events is before the deadline. */
  ghost predicate AllBefore(events: seq<Event>, deadline: nat) {
    forall k :: 0 <= k < |events| && events[k].Clock? ==> events[k].now < deadline
  }

  ghost predicate CountsOrCompleted(a: ArrayState, e: Entry, deadline: nat, before: bool) {
    if before then Counting(a, e, deadline) else Completed(a, e)
  }

  lemma EventCounts(cfg: Config, c: Component, ev: Event, i: nat, e: Entry, deadline: nat, before: bool, now: nat)
    requires Draining(cfg, c, now) && (ev.Clock? ==> ev.now == now)
    requires i < |c.arrays| && CountsOrCompleted(c.arrays[i], e, deadline, before)
    ensures i < |Happen(cfg, c, ev).arrays|
    ensures CountsOrCompleted(Happen(cfg, c, ev).arrays[i], e, deadline, before && (ev.Clock? ==> now < deadline))
  {
    match ev
    case Arrival(r) =>
      ArrivalCounts(cfg, c, r, i, e, deadline);
      if !before { CompletedStays(c.arrays[i], Submit(cfg, c, r).0.arrays[i], e); }
    case Clock(t) =>
      if before {
        ClockCounts(cfg, c, i, e, deadline, now);
      } else {
        ClockSends(cfg, c, i, now);
        CompletedStays(c.arrays[i], Tick(cfg, c, now).arrays[i], e);
      }
  }

  /** Take a command counting down a delay in any run. Whatever follows, it goes on counting as long as no
      cycle has reached the deadline, and has completed once one has: the first such cycle completes it. */
  lemma {:induction false} DelayIsExact(cfg: Config, count: nat, before: seq<Event>, later: seq<Event>, i: nat, e: Entry, deadline: nat, end: nat)
    requires cfg.Valid() && Chronological(before + later, end)
    requires i < |Reach(cfg, count, before).arrays| && Counting(Reach(cfg, count, before).arrays[i], e, deadline)
    ensures i < |Reach(cfg, count, before + later).arrays|
    ensures CountsOrCompleted(Reach(cfg, count, before + later).arrays[i], e, deadline, AllBefore(later, deadline))
    decreases |later|
  {
    if later == [] {
      assert before + later == before;
    } else {
      var rest, ev := later[..|later| - 1], later[|later| - 1];
      assert before + later == before + rest + [ev];
      assert later == rest + [ev] && (before + later)[..|before + later| - 1] == before + rest;
      var now := if ev.Clock? then ev.now else end;
      DelayIsExact(cfg, count, before, rest, i, e, deadline, now);
      OneEventMore(cfg, count, before, rest, ev, i, e, deadline, now);
    }
  }

  lemma BeforeNext(rest: seq<Event>, ev: Event, deadline: nat)
    ensures AllBefore(rest + [ev], deadline) <==> AllBefore(rest, deadline) && (ev.Clock? ==> ev.now < deadline)
  {
    var events := rest + [ev];
    assert events[|rest|] == ev && forall k :: 0 <= k < |rest| ==> events[k] == rest[k];
  }

  lemma OneEventMore(cfg: Config, count: nat, before: seq<Event>, rest: seq<Event>, ev: Event, i: nat, e: Entry, deadline: nat, now: nat)
    requires cfg.Valid() && Chronological(before + rest, now) && (ev.Clock? ==> ev.now == now)
    requires i < |Reach(cfg, count, before + rest).arrays|
    requires CountsOrCompleted(Reach(cfg, count, before + rest).arrays[i], e, deadline, AllBefore(rest, deadline))
    ensures i < |Reach(cfg, count, before + rest + [ev]).arrays|
    ensures CountsOrCompleted(Reach(cfg, count, before + rest + [ev]).arrays[i], e, deadline, AllBefore(rest + [ev], deadline))
  {
    RunDraining(cfg, count, before + rest, now);
    EventCounts(cfg, Reach(cfg, count, before + rest), ev, i, e, deadline, AllBefore(rest, deadline), now);
    ReachNext(cfg, count, before + rest, ev);
    BeforeNext(rest, ev, deadline);
  }

  // ---- when the deadlines are ----

  /** A compute that was not running before the attempts to start is due after the execution time. */
  ghost predicate DueFrom(cfg: Config, p: Cell, v: Cell, now: nat) {
    v.a.compute.entry.Some? ==> v.a.compute == p.a.compute || v.a.compute.ready == now + cfg.execCost
  }

  ghost function DueAfter(cfg: Config, p: Cell, now: nat): Cell -> bool {
    (v: Cell) => DueFrom(cfg, p, v, now)
  }

  lemma AttemptDue(cfg: Config, p: Cell, v: Cell, w: Cell, now: nat)
    requires DueFrom(cfg, p, v, now) && (Begins(cfg, now)(v, w) || Disposes(cfg, now)(v, w))
    ensures DueFrom(cfg, p, w, now)
  {
    if w != v {
      var k := Select(v.a).value;
      var e, x := v.a.queue[k], v.(a := v.a.(queue := Without(v.a.queue, k)));
      BeginDue(cfg, v.(a := v.a.(queue := Without(v.a.queue, k), active := Some(e))), now);
      DisposeDue(cfg, x, e, now);
    }
  }

  lemma BeginDue(cfg: Config, x: Cell, now: nat)
    requires x.a.active.Some?
    ensures BeginTransfer(cfg, x, now).a.compute == x.a.compute
  {
  }

  lemma DisposeDue(cfg: Config, x: Cell, e: Entry, now: nat)
    ensures RejectQueued(x, e).a.compute == x.a.compute && StartCompute(cfg, x, e, now).a.compute.ready == now + cfg.execCost
  {
  }

  lemma PipelineDue(cfg: Config, p: Cell, now: nat, attempts: nat)
    ensures DueFrom(cfg, p, StartPipeline(cfg, p, now, attempts), now)
  {
    forall v: Cell, n: nat ensures Attempt(PipelineRun(cfg, now), Begins(cfg, now), Disposes(cfg, now), v, n) {
      OneAttempt(cfg, v, now, n);
    }
    forall v: Cell, w: Cell | DueAfter(cfg, p, now)(v) && (Begins(cfg, now)(v, w) || Disposes(cfg, now)(v, w))
      ensures DueAfter(cfg, p, now)(w)
    {
      AttemptDue(cfg, p, v, w, now);
    }
    AttemptsKeep(PipelineRun(cfg, now), Begins(cfg, now), Disposes(cfg, now), DueAfter(cfg, p, now), p, attempts);
    assert PipelineRun(cfg, now)(p, attempts) == StartPipeline(cfg, p, now, attempts);
  }

  lemma TailDue(cfg: Config, p: Cell, now: nat)
    requires Sound(cfg, p) && cfg.pipeline && TimeOk(p.a, now)
    ensures DueFrom(cfg, p, Tail(cfg, p, now), now)
  {
    var q := StartPipeline(cfg, p, now, QUEUE_ENTRIES);
    StartPipelineSound(cfg, p, now, QUEUE_ENTRIES);
    StartPipelineWork(cfg, p, now, QUEUE_ENTRIES);
    PipelineDue(cfg, p, now, QUEUE_ENTRIES);
    if p.a.active.None? { ProgressEases(cfg, q, now); }
    ComputeOnly(cfg, if p.a.active.Some? then q else Progress(cfg, q, now), now);
  }

  lemma ComputeOnly(cfg: Config, u: Cell, now: nat)
    ensures var v := ProgressCompute(cfg, u, now);
            v.a.compute.entry.None? || (v == u && now < u.a.compute.ready)
  {
  }

  /** A compute that starts in a pipelined cycle is due after the execution time. */
  lemma ComputeDue(cfg: Config, u: Cell, e: Entry, now: nat)
    requires Sound(cfg, u) && TimeOk(u.a, now) && cfg.pipeline && u.a.compute.entry != Some(e)
    requires TickArray(cfg, u, now).a.compute.entry == Some(e)
    ensures Counting(TickArray(cfg, u, now).a, e, now + cfg.execCost)
  {
    var o := ProgressCompute(cfg, u, now);
    ComputeOnly(cfg, u, now);
    ProgressComputeSound(cfg, u, now);
    ProgressComputeWork(cfg, u, now);
    ProgressSound(cfg, o, now);
    ProgressEases(cfg, o, now);
    TailDue(cfg, Progress(cfg, o, now), now);
    TickIsTail(cfg, u, now);
  }

  /** So is an Execute that starts in a blocking cycle. */
  lemma ExecuteDue(cfg: Config, u: Cell, e: Entry, now: nat)
    requires Sound(cfg, u) && !cfg.pipeline && e.cmd.operation == Execute && u.a.active != Some(e)
    requires TickArray(cfg, u, now).a.active == Some(e)
    ensures Counting(TickArray(cfg, u, now).a, e, now + cfg.execCost)
  {
    var q := Start(cfg, u, now);
    ProgressShape(cfg, q, now);
    assert q.a.active == Some(e);
    BeginsExecute(cfg, u, e, now);
  }

  lemma BeginsExecute(cfg: Config, u: Cell, e: Entry, now: nat)
    requires e.cmd.operation == Execute && u.a.active != Some(e) && Start(cfg, u, now).a.active == Some(e)
    ensures Start(cfg, u, now).a.x.ready == now + cfg.execCost
  {
  }

  // ---- a Program that arrives ----

  /** The programming time of a Program: in the initial scope it is charged only when the cells received so
      far and its own are all the active ones. */
  ghost function Charge(cfg: Config, a: ArrayState, e: Entry): nat
    requires cfg.cols > 0
  {
    if !cfg.initialProgram || AllReceived(cfg, a, e) then cfg.programCost else 0
  }

  ghost predicate AllReceived(cfg: Config, a: ArrayState, e: Entry)
    requires cfg.cols > 0
  {
    forall i: nat :: i < |a.mem.weightInitialized| && i / cfg.cols < a.activeRows && i % cfg.cols < a.activeCols ==>
      a.mem.weightInitialized[i] || e.cmd.elementOffset <= i < e.cmd.elementOffset + e.cmd.elementCount
  }

  /** Counting until the programming time has passed, or completed when there is none. */
  ghost predicate Programs(a: ArrayState, e: Entry, charge: nat, now: nat) {
    if charge > 0 then a.active == Some(e) && Delayed(a) && a.x.ready == now + charge else Completed(a, e)
  }

  lemma FinishArrival(cfg: Config, v: Cell, e: Entry, now: nat)
    requires cfg.Valid() && MemoryOk(cfg, v.a) && v.a.active == Some(e) && e.cmd.Moves(Program) && !v.a.x.programming
    requires Legal(cfg, v.a.activeRows, v.a.activeCols, e.cmd) && v.a.x.total == 4 * e.cmd.elementCount
    ensures Programs(Finish(cfg, v, now).a, e, Charge(cfg, v.a, e), now)
  {
    var w := Finish(cfg, v, now);
    ReceivedCovers(cfg, v.a, e, now);
    if w.a.active.None? { LastReply(w.a, e); }
  }

  lemma ReceivedCovers(cfg: Config, a: ArrayState, e: Entry, now: nat)
    requires cfg.Valid() && MemoryOk(cfg, a) && Legal(cfg, a.activeRows, a.activeCols, e.cmd) && e.cmd.Moves(Program)
    requires a.x.total == 4 * e.cmd.elementCount
    ensures Receive(cfg, a, e.cmd, now).mem.initializedWeights == a.activeRows * a.activeCols <==> AllReceived(cfg, a, e)
  {
    Programming.MarkedCoverage(cfg, a.activeRows, a.activeCols, a.mem.weightInitialized, a.mem.initializedWeights, e.cmd);
    assert a.x.total / 4 == e.cmd.elementCount;
    MarkedReceives(cfg, a, e);
  }

  lemma MarkedReceives(cfg: Config, a: ArrayState, e: Entry)
    requires cfg.cols > 0
    ensures Covered(Mark(a.mem.weightInitialized, e.cmd.elementOffset, e.cmd.elementCount), cfg.cols, a.activeRows, a.activeCols)
       <==> AllReceived(cfg, a, e)
  {
    var s := a.mem.weightInitialized;
    var t := Mark(s, e.cmd.elementOffset, e.cmd.elementCount);
    if Covered(t, cfg.cols, a.activeRows, a.activeCols) {
      forall i: nat | i < |s| && i / cfg.cols < a.activeRows && i % cfg.cols < a.activeCols
        ensures s[i] || e.cmd.elementOffset <= i < e.cmd.elementOffset + e.cmd.elementCount
      {
        assert Inside(cfg.cols, a.activeRows, a.activeCols, i) && t[i];
      }
    }
    if AllReceived(cfg, a, e) {
      forall i | 0 <= i < |t| && Inside(cfg.cols, a.activeRows, a.activeCols, i) ensures t[i] {
        assert s[i] || e.cmd.elementOffset <= i < e.cmd.elementOffset + e.cmd.elementCount;
      }
    }
  }

  /** The last byte of a Program is about to be consumed. */
  ghost predicate Arrives(cfg: Config, a: ArrayState, e: Entry, now: nat) {
    Delivery.Moving(cfg, a, e, now) && Remaining(cfg, a.x) == 0 && e.cmd.operation == Program
  }

  lemma ProgressArrives(cfg: Config, u: Cell, e: Entry, now: nat)
    requires Sound(cfg, u) && TimeOk(u.a, now) && Arrives(cfg, u.a, e, now)
    ensures Programs(Progress(cfg, u, now).a, e, Charge(cfg, u.a, e), now)
  {
    var m := Move(cfg, u.a, now);
    LoneCountdown(cfg, u.a, now);
    MoveWork(cfg, u.a, now);
    assert Progress(cfg, u, now) == Finish(cfg, u.(a := m), now);
    FinishArrival(cfg, u.(a := m), e, now);
  }

  lemma TailPrograms(cfg: Config, p: Cell, e: Entry, charge: nat, now: nat)
    requires Sound(cfg, p) && cfg.pipeline && TimeOk(p.a, now) && Programs(p.a, e, charge, now)
    ensures Programs(Tail(cfg, p, now).a, e, charge, now)
  {
    if charge > 0 {
      TailKeeps(cfg, p, now);
    } else {
      TailSends(cfg, p, now);
      CompletedStays(p.a, Tail(cfg, p, now).a, e);
    }
  }

  lemma ComputeMemory(cfg: Config, u: Cell, e: Entry, now: nat)
    requires cfg.cols > 0
    ensures Charge(cfg, ProgressCompute(cfg, u, now).a, e) == Charge(cfg, u.a, e)
  {
  }

  lemma CycleArrives(cfg: Config, u: Cell, e: Entry, now: nat)
    requires Sound(cfg, u) && TimeOk(u.a, now) && Arrives(cfg, u.a, e, now)
    ensures Programs(TickArray(cfg, u, now).a, e, Charge(cfg, u.a, e), now)
  {
    if cfg.pipeline {
      var o := ProgressCompute(cfg, u, now);
      ComputeLeaves(cfg, u, e, now);
      ComputeMemory(cfg, u, e, now);
      ProgressArrives(cfg, o, e, now);
      ProgressSound(cfg, o, now);
      ProgressEases(cfg, o, now);
      TailPrograms(cfg, Progress(cfg, o, now), e, Charge(cfg, u.a, e), now);
      TickIsTail(cfg, u, now);
    } else {
      BusyBlocks(cfg, u, now);
      ProgressArrives(cfg, u, e, now);
    }
  }

  // ---- delays from their first cycle ----

  /** The cycle at `now` starts the execution of e on array i. */
  ghost predicate Executes(cfg: Config, c: Component, i: nat, e: Entry, now: nat) {
    && i < |c.arrays| == |Tick(cfg, c, now).arrays|
    && var a, b := c.arrays[i], Tick(cfg, c, now).arrays[i];
       if cfg.pipeline then a.compute.entry != Some(e) && b.compute.entry == Some(e)
       else e.cmd.operation == Execute && a.active != Some(e) && b.active == Some(e)
  }

  lemma StartsCounting(cfg: Config, c: Component, i: nat, e: Entry, now: nat)
    requires Draining(cfg, c, now) && Executes(cfg, c, i, e, now)
    ensures Counting(Tick(cfg, c, now).arrays[i], e, now + cfg.execCost)
  {
    var t, budget := CycleShare(cfg, c, i, now);
    if cfg.pipeline {
      ComputeDue(cfg, Cell(c.arrays[i], t), e, now);
    } else {
      ExecuteDue(cfg, Cell(c.arrays[i], t), e, now);
    }
  }

  lemma ArrivesCounting(cfg: Config, c: Component, i: nat, e: Entry, now: nat)
    requires Draining(cfg, c, now) && i < |c.arrays| && Arrives(cfg, c.arrays[i], e, now)
    ensures i < |Tick(cfg, c, now).arrays| && Programs(Tick(cfg, c, now).arrays[i], e, Charge(cfg, c.arrays[i], e), now)
  {
    var t, budget := CycleShare(cfg, c, i, now);
    var b := TickArray(cfg, Cell(c.arrays[i], t), now).a;
    CycleArrives(cfg, Cell(c.arrays[i], t), e, now);
    assert Linked(b, budget, now).sent == b.sent && Linked(b, budget, now).x.ready == b.x.ready;
  }

  /** In any run an Execute that starts in the cycle at `now` is computing until a cycle at or after
      now + execCost, and completes in the first such cycle. */
  lemma ExecuteTakes(cfg: Config, count: nat, before: seq<Event>, now: nat, later: seq<Event>, i: nat, e: Entry, end: nat)
    requires cfg.Valid() && Chronological(before, now) && Chronological(before + [Clock(now)] + later, end)
    requires Executes(cfg, Reach(cfg, count, before), i, e, now)
    ensures var d := Reach(cfg, count, before + [Clock(now)] + later);
            i < |d.arrays| && CountsOrCompleted(d.arrays[i], e, now + cfg.execCost, AllBefore(later, now + cfg.execCost))
  {
    RunDraining(cfg, count, before, now);
    StartsCounting(cfg, Reach(cfg, count, before), i, e, now);
    OneMoreClock(cfg, count, before, now);
    DelayIsExact(cfg, count, before + [Clock(now)], later, i, e, now + cfg.execCost, end);
  }

  lemma {:induction false} StaysCompleted(cfg: Config, count: nat, before: seq<Event>, later: seq<Event>, i: nat, e: Entry, end: nat)
    requires cfg.Valid() && Chronological(before + later, end)
    requires i < |Reach(cfg, count, before).arrays| && Completed(Reach(cfg, count, before).arrays[i], e)
    ensures i < |Reach(cfg, count, before + later).arrays| && Completed(Reach(cfg, count, before + later).arrays[i], e)
    decreases |later|
  {
    if later == [] {
      assert before + later == before;
    } else {
      var rest, ev := later[..|later| - 1], later[|later| - 1];
      assert before + later == before + rest + [ev];
      assert later == rest + [ev] && (before + later)[..|before + later| - 1] == before + rest;
      var now := if ev.Clock? then ev.now else end;
      StaysCompleted(cfg, count, before, rest, i, e, now);
      RunDraining(cfg, count, before + rest, now);
      EventCounts(cfg, Reach(cfg, count, before + rest), ev, i, e, 0, false, now);
      ReachNext(cfg, count, before + rest, ev);
    }
  }

  /** In any run a Program whose last byte is consumed in the cycle at `now` stays active for its programming
      time and completes in the first cycle after it; at once when none is charged. */
  lemma ProgramTakes(cfg: Config, count: nat, before: seq<Event>, now: nat, later: seq<Event>, i: nat, e: Entry, end: nat)
    requires cfg.Valid() && Chronological(before, now) && Chronological(before + [Clock(now)] + later, end)
    requires i < |Reach(cfg, count, before).arrays| && Arrives(cfg, Reach(cfg, count, before).arrays[i], e, now)
    ensures var d := Reach(cfg, count, before + [Clock(now)] + later);
            var charge := Charge(cfg, Reach(cfg, count, before).arrays[i], e);
            && i < |d.arrays|
            && CountsOrCompleted(d.arrays[i], e, now + charge, charge > 0 && AllBefore(later, now + charge))
  {
    var charge := Charge(cfg, Reach(cfg, count, before).arrays[i], e);
    RunDraining(cfg, count, before, now);
    ArrivesCounting(cfg, Reach(cfg, count, before), i, e, now);
    OneMoreClock(cfg, count, before, now);
    if charge > 0 {
      DelayIsExact(cfg, count, before + [Clock(now)], later, i, e, now + charge, end);
    } else {
      StaysCompleted(cfg, count, before + [Clock(now)], later, i, e, end);
    }
  }
}
