/** Every transfer of every run, from the cycle in which it begins to the one that consumes its last
    byte: never sooner than the link allows, and to the cycle when no other transfer is on the link. */
module Delivery {
  import opened Options
  import opened Arithmetic
  import opened Commands
  import opened Engine
  import opened Admission
  import opened Invariant
  import opened Stepping
  import opened Cycle
  import opened Held
  import opened Runs
  import opened Drain
  import opened Quiescence
  import opened LinkTiming
  import opened Contention
  import opened ArrayTheorems

  // ---- one array ----

  predicate MovesBytes(e: Entry) {
    e.cmd.operation != Execute && e.cmd.elementCount > 0
  }

  /** The transfer of e has just begun: nothing has been issued. */
  ghost predicate Fresh(a: ArrayState, e: Entry, now: nat) {
    && a.active == Some(e) && a.x.ready == now && a.x.total == 4 * e.cmd.elementCount && !a.x.programming
    && a.x.issued == 0 && a.x.complete == 0 && a.x.chunks == []
  }

  /** The transfer of e has begun and its last byte has not been consumed. */
  ghost predicate Moving(cfg: Config, a: ArrayState, e: Entry, now: nat) {
    a.active == Some(e) && InTransit(cfg, a, now) && a.x.complete < a.x.total == 4 * e.cmd.elementCount
  }

  /** ... and a chunk of it wants link service. */
  ghost predicate Asking(cfg: Config, a: ArrayState, e: Entry, now: nat) {
    Moving(cfg, a, e, now) && a.x.chunks != [] && a.x.chunks[0].linked < a.x.chunks[0].bytes
  }

  /** Not, or no longer, in the transfer engine with bytes missing. */
  ghost predicate Delivered(a: ArrayState, e: Entry) {
    a.active == Some(e) ==> a.x.complete == a.x.total
  }

  /** What the transfer engine has been given to do comes from the queue of u and begins afresh. */
  ghost predicate FromQueue(u: ArrayState, v: ArrayState, now: nat) {
    v.active.Some? ==> v.active.value in u.queue && (v.active.value.cmd.operation != Execute ==> Fresh(v, v.active.value, now))
  }

  /** While attempts to start go on: the same, or the engine is free and the queue is what is left of it. */
  ghost predicate Choosing(u: ArrayState, v: ArrayState, now: nat) {
    && FromQueue(u, v, now)
    && (v.active.None? ==> v.x.chunks == [] && forall k :: 0 <= k < |v.queue| ==> v.queue[k] in u.queue)
  }

  lemma StartingWithout(u: ArrayState, v: ArrayState, w: ArrayState, k: nat, now: nat)
    requires Choosing(u, v, now) && k < |v.queue| && w.queue == Without(v.queue, k) && w.active == v.active && w.x == v.x
    ensures Choosing(u, w, now)
  {
  }

  lemma AttemptStarts(cfg: Config, u: ArrayState, v: Cell, w: Cell, now: nat)
    requires Choosing(u, v.a, now) && (Begins(cfg, now)(v, w) || Disposes(cfg, now)(v, w))
    ensures Choosing(u, w.a, now)
  {
    if Disposes(cfg, now)(v, w) {
      var k := Select(v.a).value;
      var e, x := v.a.queue[k], v.(a := v.a.(queue := Without(v.a.queue, k)));
      assert w == RejectQueued(x, e) || w == StartCompute(cfg, x, e, now);
      assert w.a.queue == Without(v.a.queue, k) && w.a.active == v.a.active && w.a.x == v.a.x;
      StartingWithout(u, v.a, w.a, k, now);
    }
  }

  ghost function StartingFrom(u: ArrayState, now: nat): Cell -> bool {
    (v: Cell) => Choosing(u, v.a, now)
  }

  lemma PipelineBegins(cfg: Config, u: Cell, now: nat, attempts: nat)
    requires u.a.active.None? && u.a.x.chunks == []
    ensures FromQueue(u.a, StartPipeline(cfg, u, now, attempts).a, now)
  {
    forall v: Cell, n: nat ensures Attempt(PipelineRun(cfg, now), Begins(cfg, now), Disposes(cfg, now), v, n) {
      OneAttempt(cfg, v, now, n);
    }
    forall v: Cell, w: Cell | StartingFrom(u.a, now)(v) && (Begins(cfg, now)(v, w) || Disposes(cfg, now)(v, w))
      ensures StartingFrom(u.a, now)(w)
    {
      AttemptStarts(cfg, u.a, v, w, now);
    }
    AttemptsKeep(PipelineRun(cfg, now), Begins(cfg, now), Disposes(cfg, now), StartingFrom(u.a, now), u, attempts);
    assert PipelineRun(cfg, now)(u, attempts) == StartPipeline(cfg, u, now, attempts);
  }

  lemma BlockingBegins(cfg: Config, u: Cell, now: nat)
    requires Sound(cfg, u) && !cfg.pipeline && u.a.active.None?
    ensures FromQueue(u.a, Start(cfg, u, now).a, now)
  {
    if u.a.queue != [] && u.a.queue[0].cmd.operation != Execute {
      assert Fresh(BeginTransfer(cfg, u.(a := u.a.(active := Some(u.a.queue[0]), queue := u.a.queue[1..])), now).a, u.a.queue[0], now);
    }
  }

  /** The transfer engine goes on with what it has, or is free. */
  ghost predicate GoesOn(a: ArrayState, b: ArrayState) {
    b.queue == a.queue && (b.active.None? || b.active == a.active)
  }

  lemma FinishShape(cfg: Config, u: Cell, now: nat)
    requires u.a.active.Some?
    ensures var v := Finish(cfg, u, now); GoesOn(u.a, v.a) && (v.a.active.Some? ==> v.a.x.complete == u.a.x.complete && v.a.x.total == u.a.x.total)
  {
  }

  lemma ProgressShape(cfg: Config, u: Cell, now: nat)
    ensures GoesOn(u.a, Progress(cfg, u, now).a)
  {
    if u.a.active.Some? && u.a.x.ready <= now {
      var v := u.(a := Move(cfg, u.a, now));
      FinishShape(cfg, v, now);
      if u.a.active.value.cmd.operation == Execute {
        CompleteWork(cfg, u.(a := CommitExecute(cfg, u.a)), Complete, now);
      } else if u.a.x.total == 0 {
        CompleteWork(cfg, CaptureInput(u), Complete, now);
      }
    }
  }

  lemma FreshMoves(cfg: Config, q: Cell, e: Entry, now: nat)
    requires Sound(cfg, q) && MovesBytes(e) && Fresh(q.a, e, now)
    ensures var b := Move(cfg, q.a, now);
            && Progress(cfg, q, now) == q.(a := b)
            && Asking(cfg, b, e, now) && Arrived(b) == 0 && Remaining(cfg, b.x) == Cycles(cfg, 4 * e.cmd.elementCount)
  {
    FreshMove(cfg, q.a, e, now);
  }

  lemma FreshMove(cfg: Config, a: ArrayState, e: Entry, now: nat)
    requires cfg.Valid() && TransferOk(cfg, a) && MovesBytes(e) && Fresh(a, e, now)
    ensures var b := Move(cfg, a, now);
            && b == a.(x := b.x) && b.x.complete < b.x.total
            && Asking(cfg, b, e, now) && Arrived(b) == 0 && Remaining(cfg, b.x) == Cycles(cfg, 4 * e.cmd.elementCount)
  {
    OneCycleLess(0, cfg.linkWidth);
    CyclesPositive(cfg, 4 * e.cmd.elementCount);
    MovedRemaining(cfg, a, now);
    LoneCountdown(cfg, a, now);
    GainIsBounded(cfg, a, 0, now);
    MoveWork(cfg, a, now);
  }

  lemma CyclesPositive(cfg: Config, bytes: nat)
    requires cfg.Valid() && bytes > 0
    ensures Cycles(cfg, bytes) > 0
  {
    OneCycleLess(if bytes <= cfg.inflightBytes then bytes else cfg.inflightBytes, cfg.linkWidth);
  }

  /** The transfer state of an array: which command, and how far it is. */
  ghost predicate SameTransfer(a: ArrayState, b: ArrayState) {
    b.active == a.active && b.x == a.x
  }

  lemma BlockingStarts(cfg: Config, u: Cell, e: Entry, now: nat) returns (q: Cell)
    requires Sound(cfg, u) && !cfg.pipeline && MovesBytes(e)
    requires u.a.active != Some(e) && TickArray(cfg, u, now).a.active == Some(e)
    ensures Sound(cfg, q) && Fresh(q.a, e, now) && SameTransfer(Progress(cfg, q, now).a, TickArray(cfg, u, now).a)
  {
    q := Start(cfg, u, now);
    ProgressShape(cfg, q, now);
    StartSound(cfg, u, now);
    assert u.a.active.None?;
    BlockingBegins(cfg, u, now);
  }

  lemma PipelineStarts(cfg: Config, u: Cell, e: Entry, now: nat) returns (q: Cell)
    requires Sound(cfg, u) && cfg.pipeline && TimeOk(u.a, now) && MovesBytes(e)
    requires u.a.active != Some(e) && TickArray(cfg, u, now).a.active == Some(e)
    ensures Sound(cfg, q) && Fresh(q.a, e, now) && SameTransfer(Progress(cfg, q, now).a, TickArray(cfg, u, now).a)
  {
    var o := ProgressCompute(cfg, u, now);
    ProgressComputeSound(cfg, u, now);
    ProgressComputeWork(cfg, u, now);
    var p := Progress(cfg, o, now);
    ProgressSound(cfg, o, now);
    ProgressEases(cfg, o, now);
    ProgressShape(cfg, o, now);
    TickIsTail(cfg, u, now);
    if p.a.active.Some? { TailKeeps(cfg, p, now); }
    assert p.a.active.None?;
    q := StartPipeline(cfg, p, now, QUEUE_ENTRIES);
    StartPipelineSound(cfg, p, now, QUEUE_ENTRIES);
    PipelineBegins(cfg, p, now, QUEUE_ENTRIES);
    ProgressShape(cfg, q, now);
    ProgressComputeWork(cfg, Progress(cfg, q, now), now);
  }

  /** The cycle in which an array begins a transfer issues its first bytes. */
  lemma ArrayStarts(cfg: Config, u: Cell, e: Entry, now: nat)
    requires Sound(cfg, u) && TimeOk(u.a, now) && MovesBytes(e)
    requires u.a.active != Some(e) && TickArray(cfg, u, now).a.active == Some(e)
    ensures var b := TickArray(cfg, u, now).a;
            Asking(cfg, b, e, now) && Arrived(b) == 0 && Remaining(cfg, b.x) == Cycles(cfg, 4 * e.cmd.elementCount)
  {
    var q: Cell;
    if cfg.pipeline { q := PipelineStarts(cfg, u, e, now); } else { q := BlockingStarts(cfg, u, e, now); }
    FreshMoves(cfg, q, e, now);
    SameProgress(cfg, Progress(cfg, q, now).a, TickArray(cfg, u, now).a, e, now);
  }

  lemma SameProgress(cfg: Config, a: ArrayState, b: ArrayState, e: Entry, now: nat)
    requires SameTransfer(a, b) && Asking(cfg, a, e, now)
    ensures Asking(cfg, b, e, now) && Arrived(b) == Arrived(a) && Remaining(cfg, b.x) == Remaining(cfg, a.x)
  {
  }

  /** A cycle before that moves the chunk buffer and nothing else. */
  lemma ArrayMoves(cfg: Config, u: Cell, e: Entry, now: nat)
    requires Sound(cfg, u) && TimeOk(u.a, now) && Moving(cfg, u.a, e, now) && Remaining(cfg, u.a.x) > 0
    ensures var b := TickArray(cfg, u, now).a;
            Asking(cfg, b, e, now) && Arrived(b) == Arrived(u.a) && Remaining(cfg, b.x) == Remaining(cfg, u.a.x)
  {
    var m := Move(cfg, u.a, now);
    TickMoves(cfg, u, now);
    MovedRemaining(cfg, u.a, now);
    LoneCountdown(cfg, u.a, now);
    GainIsBounded(cfg, u.a, 0, now);
    MoveWork(cfg, u.a, now);
    SameProgress(cfg, m, TickArray(cfg, u, now).a, e, now);
  }

  lemma ComputeLeaves(cfg: Config, u: Cell, e: Entry, now: nat)
    requires Sound(cfg, u) && cfg.pipeline && TimeOk(u.a, now) && Moving(cfg, u.a, e, now)
    ensures var o := ProgressCompute(cfg, u, now);
            Sound(cfg, o) && TimeOk(o.a, now) && Moving(cfg, o.a, e, now) && o.a.x == u.a.x
  {
    ProgressComputeSound(cfg, u, now);
    ProgressComputeWork(cfg, u, now);
  }

  /** The cycle of an array whose bytes have all crossed consumes the last one. */
  lemma ArrayDelivers(cfg: Config, u: Cell, e: Entry, now: nat)
    requires Sound(cfg, u) && TimeOk(u.a, now) && Moving(cfg, u.a, e, now) && Remaining(cfg, u.a.x) == 0
    ensures Delivered(TickArray(cfg, u, now).a, e)
  {
    if cfg.pipeline {
      ComputeLeaves(cfg, u, e, now);
      PipelineDelivers(cfg, ProgressCompute(cfg, u, now), e, now);
      TickIsTail(cfg, u, now);
    } else {
      ConsumesLast(cfg, u, e, now);
      BusyBlocks(cfg, u, now);
    }
  }

  lemma BusyBlocks(cfg: Config, u: Cell, now: nat)
    requires !cfg.pipeline && u.a.active.Some?
    ensures TickArray(cfg, u, now) == Progress(cfg, u, now)
  {
  }

  lemma PipelineDelivers(cfg: Config, o: Cell, e: Entry, now: nat)
    requires Sound(cfg, o) && cfg.pipeline && TimeOk(o.a, now) && Moving(cfg, o.a, e, now) && Remaining(cfg, o.a.x) == 0
    ensures Delivered(Tail(cfg, Progress(cfg, o, now), now).a, e)
  {
    var p := Progress(cfg, o, now);
    ConsumesLast(cfg, o, e, now);
    ProgressSound(cfg, o, now);
    ProgressEases(cfg, o, now);
    ProgressShape(cfg, o, now);
    if p.a.active.Some? { TailKeeps(cfg, p, now); } else { TailLeaves(cfg, o, p, e, now); }
  }

  lemma ConsumesLast(cfg: Config, u: Cell, e: Entry, now: nat)
    requires Sound(cfg, u) && TimeOk(u.a, now) && Moving(cfg, u.a, e, now) && Remaining(cfg, u.a.x) == 0
    ensures Delivered(Progress(cfg, u, now).a, e)
  {
    LoneCountdown(cfg, u.a, now);
    MoveWork(cfg, u.a, now);
    FinishShape(cfg, u.(a := Move(cfg, u.a, now)), now);
  }

  lemma TailBegins(cfg: Config, p: Cell, now: nat)
    requires cfg.pipeline && p.a.active.None? && p.a.x.chunks == []
    ensures var b := Tail(cfg, p, now).a; b.active.Some? ==> b.active.value in p.a.queue
  {
    var q := StartPipeline(cfg, p, now, QUEUE_ENTRIES);
    PipelineBegins(cfg, p, now, QUEUE_ENTRIES);
    ProgressShape(cfg, q, now);
    ProgressComputeWork(cfg, Progress(cfg, q, now), now);
  }

  lemma NotQueued(a: ArrayState, e: Entry)
    requires Distinct(a) && a.active == Some(e)
    ensures e !in a.queue
  {
    forall i | 0 <= i < |a.queue| ensures a.queue[i] != e {
      assert Apart(e, a.queue[i]);
    }
  }

  lemma IdleIsEmpty(cfg: Config, p: Cell)
    requires Sound(cfg, p) && p.a.active.None?
    ensures p.a.x.chunks == []
  {
  }

  /** What begins after e has left the transfer engine is another command. */
  lemma TailLeaves(cfg: Config, o: Cell, p: Cell, e: Entry, now: nat)
    requires Sound(cfg, o) && Sound(cfg, p) && cfg.pipeline && o.a.active == Some(e) && p.a.active.None? && p.a.queue == o.a.queue
    ensures Tail(cfg, p, now).a.active != Some(e)
  {
    IdleIsEmpty(cfg, p);
    TailBegins(cfg, p, now);
    NotQueued(o.a, e);
  }

  // ---- the link stage ----

  /** The link stage of a cycle that ends with bytes in the chunk buffer. */
  lemma LinkedMoving(cfg: Config, b: ArrayState, e: Entry, budget: nat, now: nat)
    requires Asking(cfg, b, e, now) && budget <= cfg.linkWidth
    ensures var d := Linked(b, budget, now);
            && Moving(cfg, d, e, now + 1) && Arrived(b) <= Arrived(d) <= Arrived(b) + cfg.linkWidth
            && (budget == cfg.linkWidth ==> Remaining(cfg, d.x) == Remaining(cfg, b.x) - 1)
  {
    LinkChunksOne(b.x.chunks, budget, now);
    OneCycleLess(b.x.chunks[0].bytes - b.x.chunks[0].linked, cfg.linkWidth);
  }

  // ---- one cycle of the component ----

  /** The cycle at `now` is the one in which array i begins the transfer of e. */
  ghost predicate Starts(cfg: Config, c: Component, i: nat, e: Entry, now: nat) {
    && MovesBytes(e) && i < |c.arrays| == |Tick(cfg, c, now).arrays|
    && c.arrays[i].active != Some(e) && Tick(cfg, c, now).arrays[i].active == Some(e)
  }

  /** In its first cycle a transfer gains at most the link width, and alone the whole width. */
  lemma StartingCycle(cfg: Config, c: Component, i: nat, e: Entry, now: nat)
    requires Draining(cfg, c, now) && Starts(cfg, c, i, e, now)
    ensures var d := Tick(cfg, c, now).arrays[i];
            && Moving(cfg, d, e, now + 1) && Arrived(d) <= cfg.linkWidth
            && (AloneIn(cfg, c, i, now) ==> Remaining(cfg, d.x) == Cycles(cfg, 4 * e.cmd.elementCount) - 1)
  {
    var t, budget := CycleShare(cfg, c, i, now);
    var b := TickArray(cfg, Cell(c.arrays[i], t), now).a;
    ArrayStarts(cfg, Cell(c.arrays[i], t), e, now);
    LinkedMoving(cfg, b, e, budget, now);
  }

  lemma MovingCycle(cfg: Config, c: Component, i: nat, e: Entry, now: nat)
    requires Draining(cfg, c, now) && i < |c.arrays| && Moving(cfg, c.arrays[i], e, now) && Remaining(cfg, c.arrays[i].x) > 0
    ensures i < |Tick(cfg, c, now).arrays|
    ensures var d := Tick(cfg, c, now).arrays[i];
            && Moving(cfg, d, e, now + 1) && Arrived(d) <= Arrived(c.arrays[i]) + cfg.linkWidth
            && (AloneIn(cfg, c, i, now) ==> Remaining(cfg, d.x) == Remaining(cfg, c.arrays[i].x) - 1)
  {
    var t, budget := CycleShare(cfg, c, i, now);
    var b := TickArray(cfg, Cell(c.arrays[i], t), now).a;
    ArrayMoves(cfg, Cell(c.arrays[i], t), e, now);
    LinkedMoving(cfg, b, e, budget, now);
  }

  lemma LastCycle(cfg: Config, c: Component, i: nat, e: Entry, now: nat)
    requires Draining(cfg, c, now) && i < |c.arrays| && Moving(cfg, c.arrays[i], e, now) && Remaining(cfg, c.arrays[i].x) == 0
    ensures i < |Tick(cfg, c, now).arrays| && Delivered(Tick(cfg, c, now).arrays[i], e)
  {
    var t, budget := CycleShare(cfg, c, i, now);
    ArrayDelivers(cfg, Cell(c.arrays[i], t), e, now);
  }

  /** A command that arrives leaves a transfer alone. */
  lemma ArrivalLeaves(cfg: Config, c: Component, r: Command, i: nat)
    requires cfg.Valid() && i < |c.arrays|
    ensures |Submit(cfg, c, r).0.arrays| == |c.arrays|
    ensures Submit(cfg, c, r).0.arrays[i].active == c.arrays[i].active
    ensures c.arrays[i].active.Some? ==> Submit(cfg, c, r).0.arrays[i].x == c.arrays[i].x
  {
  }

  // ---- runs ----

  /** A run up to the cycle at `now`, in which array i begins the transfer of e. */
  ghost predicate FirstOf(cfg: Config, count: nat, events: seq<Event>, i: nat, e: Entry, now: nat) {
    cfg.Valid() && Chronological(events, now) && Starts(cfg, Reach(cfg, count, events), i, e, now)
  }

  /** The cycles among the events. */
  function Clocks(events: seq<Event>): nat {
    if events == [] then 0
    else Clocks(events[..|events| - 1]) + if events[|events| - 1].Clock? then 1 else 0
  }

  ghost function StateAfter(cfg: Config, count: nat): seq<Event> -> Component {
    (events: seq<Event>) => if cfg.Valid() then Reach(cfg, count, events) else InitialComponent(cfg, count)
  }

  ghost function ArriveBy(cfg: Config): (Component, Command) -> Component {
    (c: Component, r: Command) => if cfg.Valid() then Submit(cfg, c, r).0 else c
  }

  /** Every cycle of `later`, after `before`, finds the component in a state that `calm` holds of. */
  ghost predicate Calm(state: seq<Event> -> Component, calm: (Component, nat) -> bool, before: seq<Event>, later: seq<Event>)
    decreases |later|
  {
    later == []
    || var rest := later[..|later| - 1]; var last := later[|later| - 1];
       Calm(state, calm, before, rest) && (last.Clock? ==> calm(state(before + rest), last.now))
  }

  ghost function LinkIsFree(cfg: Config, i: nat): (Component, nat) -> bool {
    (c: Component, now: nat) => AloneIn(cfg, c, i, now)
  }

  /** In every cycle of `later`, after `before`, no other array has a transfer on the link. */
  ghost predicate AloneThroughout(cfg: Config, count: nat, before: seq<Event>, later: seq<Event>, i: nat) {
    Calm(StateAfter(cfg, count), LinkIsFree(cfg, i), before, later)
  }

  /** The states of a run by its last event. */
  ghost predicate Unfolds(state: seq<Event> -> Component, arrive: (Component, Command) -> Component,
                          tick: (Component, nat) -> Component, events: seq<Event>, ev: Event) {
    state(events + [ev]) == match ev case Arrival(r) => arrive(state(events), r) case Clock(t) => tick(state(events), t)
  }

  /** A calm cycle keeps it, with one more cycle counted. */
  ghost predicate Ticked(tick: (Component, nat) -> Component, calm: (Component, nat) -> bool,
                         keeps: (Component, nat, nat) -> bool, c: Component, n: nat, now: nat, t: nat) {
    now < t && keeps(c, n, now) && calm(c, now) ==> keeps(tick(c, now), n + 1, t)
  }

  /** What holds after `before`, and what arrivals and calm cycles keep, holds after what follows. */
  lemma {:induction false} EventsKeep(state: seq<Event> -> Component, arrive: (Component, Command) -> Component,
                                      tick: (Component, nat) -> Component, calm: (Component, nat) -> bool,
                                      keeps: (Component, nat, nat) -> bool, before: seq<Event>, later: seq<Event>, end: nat)
    requires forall events: seq<Event>, ev: Event :: Unfolds(state, arrive, tick, events, ev)
    requires forall t: nat :: Chronological(before, t) ==> keeps(state(before), 0, t)
    requires forall c: Component, r: Command, n: nat, now: nat :: keeps(c, n, now) ==> keeps(arrive(c, r), n, now)
    requires forall c: Component, n: nat, now: nat, t: nat :: Ticked(tick, calm, keeps, c, n, now, t)
    requires Chronological(before + later, end) && Calm(state, calm, before, later)
    ensures keeps(state(before + later), Clocks(later), end)
    decreases |later|
  {
    if later == [] {
      assert before + later == before;
    } else {
      var rest, ev := later[..|later| - 1], later[|later| - 1];
      assert before + later == before + rest + [ev];
      assert (before + later)[..|before + later| - 1] == before + rest;
      EventsKeep(state, arrive, tick, calm, keeps, before, rest, if ev.Clock? then ev.now else end);
      assert Unfolds(state, arrive, tick, before + rest, ev);
      if ev.Clock? { assert Ticked(tick, calm, keeps, state(before + rest), Clocks(rest), ev.now, end); }
    }
  }

  lemma StatesUnfold(cfg: Config, count: nat)
    requires cfg.Valid()
    ensures forall events: seq<Event>, ev: Event :: Unfolds(StateAfter(cfg, count), ArriveBy(cfg), TickOf(cfg), events, ev)
  {
    forall events: seq<Event>, ev: Event ensures Unfolds(StateAfter(cfg, count), ArriveBy(cfg), TickOf(cfg), events, ev) {
      assert (events + [ev])[..|events|] == events;
    }
  }

  lemma RunDraining(cfg: Config, count: nat, events: seq<Event>, now: nat)
    requires cfg.Valid() && Chronological(events, now)
    ensures Draining(cfg, Reach(cfg, count, events), now)
  {
    Reachable(cfg, count, events);
    ReachTime(cfg, count, events, now);
  }

  lemma OneMoreClock(cfg: Config, count: nat, events: seq<Event>, now: nat)
    requires cfg.Valid()
    ensures Reach(cfg, count, events + [Clock(now)]) == Tick(cfg, Reach(cfg, count, events), now)
  {
    assert (events + [Clock(now)])[..|events|] == events;
  }

  lemma ReachNext(cfg: Config, count: nat, events: seq<Event>, ev: Event)
    requires cfg.Valid()
    ensures Reach(cfg, count, events + [ev]) == Happen(cfg, Reach(cfg, count, events), ev)
  {
    assert (events + [ev])[..|events|] == events;
  }

  lemma CountOfTick(cfg: Config, c: Component, now: nat)
    ensures |Tick(cfg, c, now).arrays| == |c.arrays|
  {
  }

  lemma ActiveBeforeArrival(cfg: Config, count: nat, events: seq<Event>, r: Command, i: nat, e: Entry)
    requires cfg.Valid() && i < |Reach(cfg, count, events + [Arrival(r)]).arrays|
    requires Reach(cfg, count, events + [Arrival(r)]).arrays[i].active == Some(e)
    ensures i < |Reach(cfg, count, events).arrays| && Reach(cfg, count, events).arrays[i].active == Some(e)
  {
    assert (events + [Arrival(r)])[..|events|] == events;
    ArrivalKeepsCount(cfg, Reach(cfg, count, events), r);
    ArrivalLeaves(cfg, Reach(cfg, count, events), r, i);
  }

  lemma ArrivalKeepsCount(cfg: Config, c: Component, r: Command)
    requires cfg.Valid()
    ensures |Submit(cfg, c, r).0.arrays| == |c.arrays|
  {
  }

  lemma ActiveBeforeClock(cfg: Config, count: nat, events: seq<Event>, t: nat, i: nat, e: Entry)
    requires cfg.Valid() && MovesBytes(e) && i < |Reach(cfg, count, events + [Clock(t)]).arrays|
    requires Reach(cfg, count, events + [Clock(t)]).arrays[i].active == Some(e)
    ensures var c := Reach(cfg, count, events); i < |c.arrays| && (c.arrays[i].active == Some(e) || Starts(cfg, c, i, e, t))
  {
    assert (events + [Clock(t)])[..|events|] == events;
    CountOfTick(cfg, Reach(cfg, count, events), t);
  }

  /** Every transfer that any run has under way began in one of its cycles. */
  lemma {:induction false} EveryTransferBegan(cfg: Config, count: nat, events: seq<Event>, i: nat, e: Entry, end: nat)
    returns (before: seq<Event>, now: nat, later: seq<Event>)
    requires cfg.Valid() && Chronological(events, end) && MovesBytes(e)
    requires i < |Reach(cfg, count, events).arrays| && Reach(cfg, count, events).arrays[i].active == Some(e)
    ensures events == before + [Clock(now)] + later && FirstOf(cfg, count, before, i, e, now)
    decreases |events|
  {
    assert events != [];
    var rest, ev := events[..|events| - 1], events[|events| - 1];
    assert events == rest + [ev];
    match ev
    case Arrival(r) =>
      ActiveBeforeArrival(cfg, count, rest, r, i, e);
      before, now, later := EveryTransferBegan(cfg, count, rest, i, e, end);
      later := later + [ev];
    case Clock(t) =>
      ActiveBeforeClock(cfg, count, rest, t, i, e);
      if Reach(cfg, count, rest).arrays[i].active == Some(e) {
        before, now, later := EveryTransferBegan(cfg, count, rest, i, e, t);
        later := later + [ev];
      } else {
        before, now, later := rest, t, [];
      }
  }

  // ---- what holds of a transfer from cycle to cycle ----

  lemma ArrivalDraining(cfg: Config, c: Component, r: Command, now: nat)
    requires Draining(cfg, c, now)
    ensures Draining(cfg, Submit(cfg, c, r).0, now)
  {
    SubmitOk(cfg, c, r);
    ArrivalTimes(cfg, c, r, now);
  }

  lemma ArrivalTimes(cfg: Config, c: Component, r: Command, now: nat)
    requires cfg.cols > 0 && AllTimeOk(c.arrays, now)
    ensures AllTimeOk(Submit(cfg, c, r).0.arrays, now)
  {
    if r.target < |c.arrays| { ArriveTime(cfg, Cell(c.arrays[r.target], c.s), r, now); }
  }

  lemma ClockDraining(cfg: Config, c: Component, now: nat, end: nat)
    requires Draining(cfg, c, now) && now < end
    ensures Draining(cfg, Tick(cfg, c, now), end)
  {
    TickOk(cfg, c, now);
    TickLowers(cfg, c, now);
    LaterTime(Tick(cfg, c, now).arrays, now + 1, end);
  }

  /** It holds of an array whose transfer is the same. */
  ghost predicate SameHolds(holds: (ArrayState, nat, nat) -> bool, a: ArrayState, b: ArrayState, n: nat, now: nat) {
    holds(a, n, now) && b.active == a.active && (a.active.Some? ==> b.x == a.x) ==> holds(b, n, now)
  }

  /** It holds while the clock stands still. */
  ghost predicate Lasts(holds: (ArrayState, nat, nat) -> bool, a: ArrayState, n: nat, now: nat, later: nat) {
    holds(a, n, now) && now <= later ==> holds(a, n, later)
  }

  /** It holds of array i after one more calm cycle. */
  ghost predicate GoesAlong(cfg: Config, i: nat, holds: (ArrayState, nat, nat) -> bool, calm: (Component, nat) -> bool,
                            c: Component, n: nat, now: nat) {
    Draining(cfg, c, now) && i < |c.arrays| && holds(c.arrays[i], n, now) && calm(c, now) ==>
      i < |Tick(cfg, c, now).arrays| && holds(Tick(cfg, c, now).arrays[i], n + 1, now + 1)
  }

  ghost predicate Inductive(cfg: Config, i: nat, holds: (ArrayState, nat, nat) -> bool, calm: (Component, nat) -> bool) {
    && cfg.Valid()
    && (forall a: ArrayState, b: ArrayState, n: nat, now: nat :: SameHolds(holds, a, b, n, now))
    && (forall a: ArrayState, n: nat, now: nat, later: nat :: Lasts(holds, a, n, now, later))
    && forall c: Component, n: nat, now: nat :: GoesAlong(cfg, i, holds, calm, c, n, now)
  }

  /** It holds of array i in a run. */
  ghost predicate HoldsOf(cfg: Config, i: nat, holds: (ArrayState, nat, nat) -> bool, c: Component, n: nat, now: nat) {
    Draining(cfg, c, now) && i < |c.arrays| && holds(c.arrays[i], n, now)
  }

  ghost function Along(cfg: Config, i: nat, holds: (ArrayState, nat, nat) -> bool): (Component, nat, nat) -> bool {
    (c: Component, n: nat, now: nat) => HoldsOf(cfg, i, holds, c, n, now)
  }

  lemma AlongArrival(cfg: Config, i: nat, holds: (ArrayState, nat, nat) -> bool, calm: (Component, nat) -> bool,
                     c: Component, r: Command, n: nat, now: nat)
    requires Inductive(cfg, i, holds, calm) && HoldsOf(cfg, i, holds, c, n, now)
    ensures HoldsOf(cfg, i, holds, Submit(cfg, c, r).0, n, now)
  {
    ArrivalDraining(cfg, c, r, now);
    ArrivalLeaves(cfg, c, r, i);
    assert SameHolds(holds, c.arrays[i], Submit(cfg, c, r).0.arrays[i], n, now);
  }

  lemma AlongClock(cfg: Config, i: nat, holds: (ArrayState, nat, nat) -> bool, calm: (Component, nat) -> bool,
                   c: Component, n: nat, now: nat, end: nat)
    requires Inductive(cfg, i, holds, calm) && now < end && HoldsOf(cfg, i, holds, c, n, now) && calm(c, now)
    ensures HoldsOf(cfg, i, holds, Tick(cfg, c, now), n + 1, end)
  {
    assert GoesAlong(cfg, i, holds, calm, c, n, now);
    AlongLater(cfg, i, holds, calm, c, Tick(cfg, c, now), n + 1, now, end);
  }

  lemma AlongLater(cfg: Config, i: nat, holds: (ArrayState, nat, nat) -> bool, calm: (Component, nat) -> bool,
                   c: Component, d: Component, n: nat, now: nat, end: nat)
    requires Inductive(cfg, i, holds, calm) && Draining(cfg, c, now) && now < end && d == Tick(cfg, c, now)
    requires i < |d.arrays| && holds(d.arrays[i], n, now + 1)
    ensures HoldsOf(cfg, i, holds, d, n, end)
  {
    ClockDraining(cfg, c, now, end);
    assert Lasts(holds, d.arrays[i], n, now + 1, end);
  }

  lemma FirstBefore(before: seq<Event>, now: nat, end: nat)
    requires Chronological(before + [Clock(now)], end)
    ensures now < end
  {
  }

  /** What holds after the cycle at `now`, with no cycle counted, holds to the end of the run. */
  lemma AlongRun(cfg: Config, count: nat, events: seq<Event>, i: nat, now: nat, later: seq<Event>, end: nat,
                 holds: (ArrayState, nat, nat) -> bool, calm: (Component, nat) -> bool)
    requires Inductive(cfg, i, holds, calm) && Chronological(events, now) && Chronological(events + [Clock(now)] + later, end)
    requires var d := Tick(cfg, Reach(cfg, count, events), now); i < |d.arrays| && holds(d.arrays[i], 0, now + 1)
    requires Calm(StateAfter(cfg, count), calm, events + [Clock(now)], later)
    ensures var d := Reach(cfg, count, events + [Clock(now)] + later); i < |d.arrays| && holds(d.arrays[i], Clocks(later), end)
  {
    var before, keeps := events + [Clock(now)], Along(cfg, i, holds);
    OneMoreClock(cfg, count, events, now);
    RunDraining(cfg, count, events, now);
    forall t: nat | Chronological(before, t) ensures keeps(StateAfter(cfg, count)(before), 0, t) {
      FirstBefore(events, now, t);
      AlongLater(cfg, i, holds, calm, Reach(cfg, count, events), Tick(cfg, Reach(cfg, count, events), now), 0, now, t);
    }
    forall c: Component, r: Command, n: nat, t: nat | keeps(c, n, t) ensures keeps(ArriveBy(cfg)(c, r), n, t) {
      AlongArrival(cfg, i, holds, calm, c, r, n, t);
    }
    forall c: Component, n: nat, s: nat, t: nat ensures Ticked(TickOf(cfg), calm, keeps, c, n, s, t) {
      if s < t && keeps(c, n, s) && calm(c, s) { AlongClock(cfg, i, holds, calm, c, n, s, t); }
    }
    StatesUnfold(cfg, count);
    EventsKeep(StateAfter(cfg, count), ArriveBy(cfg), TickOf(cfg), calm, keeps, before, later, end);
  }

  // ---- never sooner than the link allows ----

  /** n cycles after the first one: the transfer is on its way with at most so many bytes, or the `need`
      cycles have passed. */
  ghost predicate Slowly(cfg: Config, a: ArrayState, e: Entry, need: nat, n: nat, end: nat) {
    need <= n || (Moving(cfg, a, e, end) && Arrived(a) <= (n + 1) * cfg.linkWidth)
  }

  lemma NoCyclesNoBytes(cfg: Config, bytes: nat)
    requires cfg.Valid() && Cycles(cfg, bytes) == 0
    ensures bytes == 0
  {
    if bytes > 0 { CyclesPositive(cfg, bytes); }
  }

  lemma AllCrossed(cfg: Config, a: ArrayState, e: Entry, now: nat)
    requires Moving(cfg, a, e, now) && TransferOk(cfg, a) && Remaining(cfg, a.x) == 0
    ensures Arrived(a) == 4 * e.cmd.elementCount
  {
    OneCycleLess(if a.x.chunks == [] then 0 else a.x.chunks[0].bytes - a.x.chunks[0].linked, cfg.linkWidth);
    NoCyclesNoBytes(cfg, a.x.total - a.x.issued);
  }

  /** When all bytes have crossed, enough cycles are about to have passed. */
  lemma EnoughCycles(cfg: Config, c: Component, i: nat, e: Entry, n: nat, now: nat)
    requires Draining(cfg, c, now) && i < |c.arrays| && Moving(cfg, c.arrays[i], e, now) && Remaining(cfg, c.arrays[i].x) == 0
    requires Arrived(c.arrays[i]) <= (n + 1) * cfg.linkWidth
    ensures Parts(4 * e.cmd.elementCount, cfg.linkWidth) <= n + 1
  {
    assert Sound(cfg, Cell(c.arrays[i], c.s));
    AllCrossed(cfg, c.arrays[i], e, now);
    CeilLeast(4 * e.cmd.elementCount, cfg.linkWidth, n + 1);
    PartsIs(4 * e.cmd.elementCount, cfg.linkWidth);
  }

  lemma SlowlyOn(cfg: Config, c: Component, i: nat, e: Entry, n: nat, now: nat)
    requires Draining(cfg, c, now) && i < |c.arrays| && Slowly(cfg, c.arrays[i], e, Parts(4 * e.cmd.elementCount, cfg.linkWidth), n, now)
    ensures i < |Tick(cfg, c, now).arrays|
    ensures Slowly(cfg, Tick(cfg, c, now).arrays[i], e, Parts(4 * e.cmd.elementCount, cfg.linkWidth), n + 1, now + 1)
  {
    var need := Parts(4 * e.cmd.elementCount, cfg.linkWidth);
    if need <= n {
      var t, budget := CycleShare(cfg, c, i, now);
    } else if Remaining(cfg, c.arrays[i].x) > 0 {
      MovingCycle(cfg, c, i, e, now);
      OneWidthMore(n + 1, cfg.linkWidth);
    } else {
      LastCycle(cfg, c, i, e, now);
      EnoughCycles(cfg, c, i, e, n, now);
    }
  }

  lemma OneWidthMore(n: nat, w: nat)
    ensures (n + 1) * w == n * w + w
  {
  }

  ghost function SlowlyBy(cfg: Config, e: Entry): (ArrayState, nat, nat) -> bool {
    (a: ArrayState, n: nat, now: nat) => cfg.Valid() && Slowly(cfg, a, e, Parts(4 * e.cmd.elementCount, cfg.linkWidth), n, now)
  }

  lemma SlowlySame(cfg: Config, a: ArrayState, b: ArrayState, e: Entry, need: nat, n: nat, now: nat)
    requires Slowly(cfg, a, e, need, n, now) && b.active == a.active && (a.active.Some? ==> b.x == a.x)
    ensures Slowly(cfg, b, e, need, n, now)
  {
  }

  lemma SlowlyLater(cfg: Config, a: ArrayState, e: Entry, need: nat, n: nat, now: nat, later: nat)
    requires Slowly(cfg, a, e, need, n, now) && now <= later
    ensures Slowly(cfg, a, e, need, n, later)
  {
  }

  lemma SlowlyGoes(cfg: Config, i: nat, e: Entry, calm: (Component, nat) -> bool, c: Component, n: nat, now: nat)
    requires cfg.Valid()
    ensures GoesAlong(cfg, i, SlowlyBy(cfg, e), calm, c, n, now)
  {
    if Draining(cfg, c, now) && i < |c.arrays| && SlowlyBy(cfg, e)(c.arrays[i], n, now) { SlowlyOn(cfg, c, i, e, n, now); }
  }

  lemma SlowlyKeeps(cfg: Config, e: Entry, a: ArrayState, b: ArrayState, n: nat, now: nat, later: nat)
    requires cfg.Valid()
    ensures SameHolds(SlowlyBy(cfg, e), a, b, n, now) && Lasts(SlowlyBy(cfg, e), a, n, now, later)
  {
    var holds, need := SlowlyBy(cfg, e), Parts(4 * e.cmd.elementCount, cfg.linkWidth);
    if holds(a, n, now) {
      if b.active == a.active && (a.active.Some? ==> b.x == a.x) { SlowlySame(cfg, a, b, e, need, n, now); }
      if now <= later { SlowlyLater(cfg, a, e, need, n, now, later); }
    }
  }

  lemma SlowlyInductive(cfg: Config, i: nat, e: Entry, calm: (Component, nat) -> bool)
    requires cfg.Valid()
    ensures Inductive(cfg, i, SlowlyBy(cfg, e), calm)
  {
    forall a: ArrayState, b: ArrayState, n: nat, now: nat ensures SameHolds(SlowlyBy(cfg, e), a, b, n, now) {
      SlowlyKeeps(cfg, e, a, b, n, now, now);
    }
    forall a: ArrayState, n: nat, now: nat, later: nat ensures Lasts(SlowlyBy(cfg, e), a, n, now, later) {
      SlowlyKeeps(cfg, e, a, a, n, now, later);
    }
    forall c: Component, n: nat, now: nat ensures GoesAlong(cfg, i, SlowlyBy(cfg, e), calm, c, n, now) {
      SlowlyGoes(cfg, i, e, calm, c, n, now);
    }
  }

  lemma SlowlyStart(cfg: Config, c: Component, i: nat, e: Entry, now: nat)
    requires cfg.Valid() && Draining(cfg, c, now) && Starts(cfg, c, i, e, now)
    ensures i < |Tick(cfg, c, now).arrays| && SlowlyBy(cfg, e)(Tick(cfg, c, now).arrays[i], 0, now + 1)
  {
    StartingCycle(cfg, c, i, e, now);
  }

  /** At the end of the run enough cycles have passed. */
  lemma SlowlyDone(cfg: Config, a: ArrayState, e: Entry, n: nat, end: nat)
    requires SlowlyBy(cfg, e)(a, n, end) && Delivered(a, e)
    ensures cfg.Valid() && CeilDiv(4 * e.cmd.elementCount, cfg.linkWidth) <= n
  {
    PartsIs(4 * e.cmd.elementCount, cfg.linkWidth);
  }

  /** However the link is shared, whatever arrives: a transfer of B bytes whose last byte has been
      consumed n cycles after the one it began in has taken at least ceil(B/W) of them. */
  lemma NeverSooner(cfg: Config, count: nat, events: seq<Event>, i: nat, e: Entry, now: nat, later: seq<Event>, end: nat)
    requires FirstOf(cfg, count, events, i, e, now) && Chronological(events + [Clock(now)] + later, end)
    requires var c := Reach(cfg, count, events + [Clock(now)] + later); i < |c.arrays| ==> Delivered(c.arrays[i], e)
    ensures CeilDiv(4 * e.cmd.elementCount, cfg.linkWidth) <= Clocks(later)
  {
    var calm := (c: Component, t: nat) => true;
    RunDraining(cfg, count, events, now);
    SlowlyStart(cfg, Reach(cfg, count, events), i, e, now);
    SlowlyInductive(cfg, i, e, calm);
    AlwaysCalm(StateAfter(cfg, count), calm, events + [Clock(now)], later);
    AlongRun(cfg, count, events, i, now, later, end, SlowlyBy(cfg, e), calm);
    SlowlyDone(cfg, Reach(cfg, count, events + [Clock(now)] + later).arrays[i], e, Clocks(later), end);
  }

  lemma {:induction false} AlwaysCalm(state: seq<Event> -> Component, calm: (Component, nat) -> bool, before: seq<Event>, later: seq<Event>)
    requires forall c: Component, t: nat :: calm(c, t)
    ensures Calm(state, calm, before, later)
    decreases |later|
  {
    if later != [] { AlwaysCalm(state, calm, before, later[..|later| - 1]); }
  }

  // ---- and to the cycle when alone ----

  /** n cycles after the first one of k: still moving with k - 1 - n to go, or just delivered. */
  ghost predicate OnSchedule(cfg: Config, a: ArrayState, e: Entry, k: nat, n: nat, end: nat) {
    && (n < k ==> Moving(cfg, a, e, end) && Remaining(cfg, a.x) == k - 1 - n)
    && (n == k ==> Delivered(a, e))
  }

  lemma ScheduleOn(cfg: Config, c: Component, i: nat, e: Entry, k: nat, n: nat, now: nat)
    requires cfg.Valid() && Draining(cfg, c, now) && i < |c.arrays| && OnSchedule(cfg, c.arrays[i], e, k, n, now)
    requires AloneIn(cfg, c, i, now)
    ensures i < |Tick(cfg, c, now).arrays| && OnSchedule(cfg, Tick(cfg, c, now).arrays[i], e, k, n + 1, now + 1)
  {
    var t, budget := CycleShare(cfg, c, i, now);
    if n + 1 < k {
      MovingCycle(cfg, c, i, e, now);
    } else if n + 1 == k {
      LastCycle(cfg, c, i, e, now);
    }
  }

  lemma ScheduleLater(cfg: Config, a: ArrayState, e: Entry, k: nat, n: nat, now: nat, later: nat)
    requires OnSchedule(cfg, a, e, k, n, now) && now <= later
    ensures OnSchedule(cfg, a, e, k, n, later)
  {
  }

  ghost function ScheduleBy(cfg: Config, e: Entry): (ArrayState, nat, nat) -> bool {
    (a: ArrayState, n: nat, now: nat) => cfg.Valid() && OnSchedule(cfg, a, e, Cycles(cfg, 4 * e.cmd.elementCount), n, now)
  }

  lemma ScheduleSame(cfg: Config, a: ArrayState, b: ArrayState, e: Entry, k: nat, n: nat, now: nat)
    requires OnSchedule(cfg, a, e, k, n, now) && b.active == a.active && (a.active.Some? ==> b.x == a.x)
    ensures OnSchedule(cfg, b, e, k, n, now)
  {
  }

  lemma ScheduleGoes(cfg: Config, i: nat, e: Entry, c: Component, n: nat, now: nat)
    requires cfg.Valid()
    ensures GoesAlong(cfg, i, ScheduleBy(cfg, e), LinkIsFree(cfg, i), c, n, now)
  {
    if Draining(cfg, c, now) && i < |c.arrays| && ScheduleBy(cfg, e)(c.arrays[i], n, now) && LinkIsFree(cfg, i)(c, now) {
      ScheduleOn(cfg, c, i, e, Cycles(cfg, 4 * e.cmd.elementCount), n, now);
    }
  }

  lemma ScheduleKeeps(cfg: Config, e: Entry, a: ArrayState, b: ArrayState, n: nat, now: nat, later: nat)
    requires cfg.Valid()
    ensures SameHolds(ScheduleBy(cfg, e), a, b, n, now) && Lasts(ScheduleBy(cfg, e), a, n, now, later)
  {
    var holds, k := ScheduleBy(cfg, e), Cycles(cfg, 4 * e.cmd.elementCount);
    if holds(a, n, now) {
      if b.active == a.active && (a.active.Some? ==> b.x == a.x) { ScheduleSame(cfg, a, b, e, k, n, now); }
      if now <= later { ScheduleLater(cfg, a, e, k, n, now, later); }
    }
  }

  lemma ScheduleInductive(cfg: Config, i: nat, e: Entry)
    requires cfg.Valid()
    ensures Inductive(cfg, i, ScheduleBy(cfg, e), LinkIsFree(cfg, i))
  {
    forall a: ArrayState, b: ArrayState, n: nat, now: nat ensures SameHolds(ScheduleBy(cfg, e), a, b, n, now) {
      ScheduleKeeps(cfg, e, a, b, n, now, now);
    }
    forall a: ArrayState, n: nat, now: nat, later: nat ensures Lasts(ScheduleBy(cfg, e), a, n, now, later) {
      ScheduleKeeps(cfg, e, a, a, n, now, later);
    }
    forall c: Component, n: nat, now: nat ensures GoesAlong(cfg, i, ScheduleBy(cfg, e), LinkIsFree(cfg, i), c, n, now) {
      ScheduleGoes(cfg, i, e, c, n, now);
    }
  }

  lemma FirstOnSchedule(cfg: Config, a: ArrayState, e: Entry, now: nat)
    requires MovesBytes(e) && Moving(cfg, a, e, now) && Remaining(cfg, a.x) == Cycles(cfg, 4 * e.cmd.elementCount) - 1
    ensures ScheduleBy(cfg, e)(a, 0, now)
  {
    CyclesPositive(cfg, 4 * e.cmd.elementCount);
  }

  lemma ScheduleStart(cfg: Config, c: Component, i: nat, e: Entry, now: nat)
    requires Draining(cfg, c, now) && Starts(cfg, c, i, e, now) && AloneIn(cfg, c, i, now)
    ensures i < |Tick(cfg, c, now).arrays| && ScheduleBy(cfg, e)(Tick(cfg, c, now).arrays[i], 0, now + 1)
  {
    StartingCycle(cfg, c, i, e, now);
    FirstOnSchedule(cfg, Tick(cfg, c, now).arrays[i], e, now + 1);
  }

  /** A transfer of B bytes that no other transfer accompanies on the link, from the cycle it begins in:
      its last byte is consumed floor(B/I)*ceil(I/W) + ceil((B mod I)/W) cycles later, and not before. */
  lemma AloneTakesExactly(cfg: Config, count: nat, events: seq<Event>, i: nat, e: Entry, now: nat, later: seq<Event>, end: nat)
    requires FirstOf(cfg, count, events, i, e, now) && Chronological(events + [Clock(now)] + later, end)
    requires AloneIn(cfg, Reach(cfg, count, events), i, now) && AloneThroughout(cfg, count, events + [Clock(now)], later, i)
    ensures i < |Reach(cfg, count, events + [Clock(now)] + later).arrays|
    ensures var bytes := 4 * e.cmd.elementCount;
            var cycles := bytes / cfg.inflightBytes * CeilDiv(cfg.inflightBytes, cfg.linkWidth)
                          + CeilDiv(bytes % cfg.inflightBytes, cfg.linkWidth);
            var a := Reach(cfg, count, events + [Clock(now)] + later).arrays[i];
            && (Clocks(later) < cycles ==> !Delivered(a, e))
            && (Clocks(later) == cycles ==> Delivered(a, e))
  {
    RunDraining(cfg, count, events, now);
    ScheduleStart(cfg, Reach(cfg, count, events), i, e, now);
    ScheduleInductive(cfg, i, e);
    AlongRun(cfg, count, events, i, now, later, end, ScheduleBy(cfg, e), LinkIsFree(cfg, i));
    CyclesFormula(cfg, 4 * e.cmd.elementCount);
  }
}
