/** Resident weights are held while a result is pending. */
module Held {
  import opened Options
  import opened Vectors
  import opened Commands
  import opened Engine
  import opened Invariant
  import opened Books

  ghost predicate NoProgram(a: ArrayState) {
    && !ActiveIs(a, Program)
    && forall k :: 0 <= k < |a.queue| ==> !a.queue[k].cmd.Moves(Program)
  }

  /** Neither the weights nor the absence of a nonempty Program changes. */
  ghost predicate Holds(a: ArrayState, b: ArrayState) {
    b.mem.weights == a.mem.weights && NoProgram(b)
  }

  lemma ProgressComputeHolds(cfg: Config, u: Cell, now: nat)
    requires NoProgram(u.a)
    ensures Holds(u.a, ProgressCompute(cfg, u, now).a)
  {
  }

  /** The length of the active transfer is that of its command. */
  ghost predicate Lengthy(a: ArrayState) {
    a.active.Some? ==> a.x.total == 4 * a.active.value.cmd.elementCount
  }

  lemma FinishHolds(cfg: Config, u: Cell, now: nat)
    requires NoProgram(u.a) && u.a.active.Some? && Lengthy(u.a) && u.a.x.total > 0
    ensures Holds(u.a, Finish(cfg, u, now).a) && Finish(cfg, u, now).a.active.None?
  {
    assert u.a.active.value.cmd.operation != Program;
  }

  lemma MoveHolds(cfg: Config, a: ArrayState, now: nat)
    requires a.active.Some?
    ensures Move(cfg, a, now) == a.(x := Move(cfg, a, now).x) && Move(cfg, a, now).x.total == a.x.total
  {
    var write := a.active.value.cmd.operation == Store;
    ReleaseTotal(a.x, a.x.chunks, [], write, now);
    var y := Release(a.x, a.x.chunks, [], write, now);
    IssueTotal(y, if write then y.bytes else a.active.value.cmd.payload, cfg.inflightBytes);
  }

  lemma ProgressHolds(cfg: Config, u: Cell, now: nat)
    requires NoProgram(u.a) && Lengthy(u.a)
    ensures Holds(u.a, Progress(cfg, u, now).a) && Lengthy(Progress(cfg, u, now).a)
  {
    if u.a.active.Some? && u.a.x.ready <= now && u.a.active.value.cmd.operation != Execute && u.a.x.total != 0 {
      MoveHolds(cfg, u.a, now);
      FinishHolds(cfg, u.(a := Move(cfg, u.a, now)), now);
    }
  }

  lemma {:induction false} ReleaseTotal(x: Transfer, pending: seq<Chunk>, kept: seq<Chunk>, write: bool, now: nat)
    ensures Release(x, pending, kept, write, now).total == x.total
    decreases |pending|
  {
    if pending != [] {
      var c := pending[0];
      if c.linked != c.bytes || c.linkReady > now {
        ReleaseTotal(x, pending[1..], kept + [c], write, now);
      } else {
        ReleaseTotal(x.(bytes := if write then x.bytes else Write(x.bytes, c.offset, c.data),
                        complete := x.complete + c.bytes, buffered := x.buffered - c.bytes),
                     pending[1..], kept, write, now);
      }
    }
  }

  lemma {:induction false} IssueTotal(x: Transfer, source: seq<Byte>, window: nat)
    ensures Issue(x, source, window).total == x.total
    decreases x.total - x.issued
  {
    if x.issued < x.total && x.buffered < window {
      var n := Min(x.total - x.issued, window - x.buffered);
      IssueTotal(x.(chunks := x.chunks + [Chunk(x.issued, n, 0, 0, Slice(source, x.issued, n))],
                    issued := x.issued + n, buffered := x.buffered + n), source, window);
    }
  }

  lemma WithoutHolds(a: ArrayState, k: nat)
    requires NoProgram(a) && k < |a.queue|
    ensures NoProgram(a.(queue := Without(a.queue, k)))
  {
    forall i | 0 <= i < |a.queue| - 1 ensures !Without(a.queue, k)[i].cmd.Moves(Program) {
      WithoutAt(a.queue, k, i);
    }
  }

  ghost predicate Ready(a: ArrayState) {
    NoProgram(a) && Lengthy(a)
  }

  ghost predicate Same(u: Cell, v: Cell) {
    Ready(v.a) && v.a.mem.weights == u.a.mem.weights
  }

  lemma StepHolds(cfg: Config, u: Cell, k: nat, now: nat)
    requires Ready(u.a) && k < |u.a.queue|
    ensures var e := u.a.queue[k]; var v := u.(a := u.a.(queue := Without(u.a.queue, k)));
            && Ready(RejectQueued(v, e).a) && RejectQueued(v, e).a.mem == u.a.mem
            && Ready(StartCompute(cfg, v, e, now).a) && StartCompute(cfg, v, e, now).a.mem == u.a.mem
  {
    WithoutHolds(u.a, k);
  }

  lemma BeginHolds(cfg: Config, u: Cell, k: nat, now: nat)
    requires Ready(u.a) && k < |u.a.queue|
    ensures var v := u.(a := u.a.(queue := Without(u.a.queue, k), active := Some(u.a.queue[k])));
            Same(u, BeginTransfer(cfg, v, now))
  {
    WithoutHolds(u.a, k);
  }

  /** The first of up to n attempts ends the run or leads to the next one. */
  ghost predicate Attempt(run: (Cell, nat) -> Cell, ends: (Cell, Cell) -> bool, leads: (Cell, Cell) -> bool, v: Cell, n: nat) {
    if n == 0 then run(v, n) == v
    else ends(v, run(v, n)) || exists w: Cell :: leads(v, w) && run(v, n) == run(w, n - 1)
  }

  lemma {:induction false} AttemptsKeep(run: (Cell, nat) -> Cell, ends: (Cell, Cell) -> bool, leads: (Cell, Cell) -> bool, keeps: Cell -> bool,
                                        u: Cell, n: nat)
    requires (forall v: Cell, m: nat :: Attempt(run, ends, leads, v, m)) && keeps(u)
    requires forall v: Cell, w: Cell :: keeps(v) && (ends(v, w) || leads(v, w)) ==> keeps(w)
    ensures keeps(run(u, n))
    decreases n
  {
    assert Attempt(run, ends, leads, u, n);
    if n > 0 && !ends(u, run(u, n)) {
      var w: Cell :| leads(u, w) && run(u, n) == run(w, n - 1);
      AttemptsKeep(run, ends, leads, keeps, w, n - 1);
    }
  }

  ghost function PipelineRun(cfg: Config, now: nat): (Cell, nat) -> Cell {
    (v: Cell, n: nat) => StartPipeline(cfg, v, now, n)
  }

  ghost function Begins(cfg: Config, now: nat): (Cell, Cell) -> bool {
    (v: Cell, w: Cell) =>
      w == v || (v.a.active.None? && Select(v.a).Some?
                 && var k := Select(v.a).value;
                    w == BeginTransfer(cfg, v.(a := v.a.(queue := Without(v.a.queue, k), active := Some(v.a.queue[k]))), now))
  }

  ghost function Disposes(cfg: Config, now: nat): (Cell, Cell) -> bool {
    (v: Cell, w: Cell) =>
      Select(v.a).Some?
      && var k := Select(v.a).value; var e := v.a.queue[k]; var x := v.(a := v.a.(queue := Without(v.a.queue, k)));
         w == RejectQueued(x, e) || w == StartCompute(cfg, x, e, now)
  }

  ghost function SameAs(u: Cell): Cell -> bool {
    (v: Cell) => Same(u, v)
  }

  lemma OneAttempt(cfg: Config, u: Cell, now: nat, n: nat)
    ensures Attempt(PipelineRun(cfg, now), Begins(cfg, now), Disposes(cfg, now), u, n)
  {
    if n > 0 && Select(u.a).Some? {
      var k := Select(u.a).value;
      var e := u.a.queue[k];
      var x := u.(a := u.a.(queue := Without(u.a.queue, k)));
      assert Disposes(cfg, now)(u, RejectQueued(x, e)) && Disposes(cfg, now)(u, StartCompute(cfg, x, e, now));
    }
  }

  lemma OneAttemptHolds(cfg: Config, u: Cell, v: Cell, w: Cell, now: nat)
    requires Same(u, v) && (Begins(cfg, now)(v, w) || Disposes(cfg, now)(v, w))
    ensures Same(u, w)
  {
    if Select(v.a).Some? {
      StepHolds(cfg, v, Select(v.a).value, now);
      BeginHolds(cfg, v, Select(v.a).value, now);
    }
  }

  lemma SameKept(cfg: Config, u: Cell, now: nat)
    ensures forall v: Cell, w: Cell :: SameAs(u)(v) && (Begins(cfg, now)(v, w) || Disposes(cfg, now)(v, w)) ==> SameAs(u)(w)
  {
    forall v: Cell, w: Cell | SameAs(u)(v) && (Begins(cfg, now)(v, w) || Disposes(cfg, now)(v, w)) ensures SameAs(u)(w) {
      OneAttemptHolds(cfg, u, v, w, now);
    }
  }

  lemma StartPipelineHolds(cfg: Config, u: Cell, now: nat, attempts: nat)
    requires Ready(u.a)
    ensures Same(u, StartPipeline(cfg, u, now, attempts))
  {
    forall v: Cell, n: nat ensures Attempt(PipelineRun(cfg, now), Begins(cfg, now), Disposes(cfg, now), v, n) {
      OneAttempt(cfg, v, now, n);
    }
    SameKept(cfg, u, now);
    AttemptsKeep(PipelineRun(cfg, now), Begins(cfg, now), Disposes(cfg, now), SameAs(u), u, attempts);
    assert PipelineRun(cfg, now)(u, attempts) == StartPipeline(cfg, u, now, attempts);
  }

  /** While a result is pending, no cycle of the array changes a weight. */
  lemma CycleHolds(cfg: Config, u: Cell, now: nat)
    requires Sound(cfg, u) && cfg.pipeline && u.a.results != []
    ensures TickArray(cfg, u, now).a.mem.weights == u.a.mem.weights
  {
    var o := ProgressCompute(cfg, u, now);
    ProgressComputeHolds(cfg, u, now);
    var p := Progress(cfg, o, now);
    ProgressHolds(cfg, o, now);
    var q := StartPipeline(cfg, p, now, QUEUE_ENTRIES);
    StartPipelineHolds(cfg, p, now, QUEUE_ENTRIES);
    ProgressHolds(cfg, q, now);
    ProgressComputeHolds(cfg, if p.a.active.Some? then q else Progress(cfg, q, now), now);
  }
}
