/** Why a Guaranteed answer is safe: each projection made at admission implies that the command
    succeeds serially, and a reserved result is the one the command will serially read. */
module Promises {
  import opened Options
  import opened Arithmetic
  import opened Vectors
  import opened Commands
  import opened Engine
  import opened Admission
  import opened Serial
  import opened Invariant
  import opened Stepping
  import opened Programming
  import opened Completion

  // ---- Stores: the walk over result slots follows the serial queue of results ----

  ghost predicate Tracks(slot: Slot, r: Result) {
    slot.token == r.token && slot.read == r.delivered && r.deliveredRows == Count(r.delivered)
  }

  /** The remaining slots of the walk are the front of the serial queue. */
  ghost predicate Follows(w: Walk, y: Arch) {
    !w.short ==>
      && w.current <= |w.results|
      && |w.results| - w.current <= |y.fifo|
      && forall i :: w.current <= i < |w.results| ==> Tracks(y.fifo[i - w.current], w.results[i])
  }

  /** The command fits the rows of every remaining slot. */
  ghost predicate Fits(w: Walk, c: Command) {
    c.operation == Store ==>
      forall i :: w.current <= i < |w.results| ==> c.elementOffset + c.elementCount <= |w.results[i].delivered|
  }

  lemma FollowRead(w: Walk, v: Walk, y: Arch, fifo: seq<Slot>, c: Command)
    requires Follows(w, y) && !w.short && w.current < |w.results| && !v.short
    requires var r := w.results[w.current]; var t := Mark(r.delivered, c.elementOffset, c.elementCount);
             && |v.results| == |w.results|
             && v.results[w.current].token == r.token && v.results[w.current].delivered == t
             && v.results[w.current].deliveredRows == Count(t)
             && (forall i :: w.current < i < |w.results| ==> v.results[i] == w.results[i])
             && v.current == (if All(t) then w.current + 1 else w.current)
    requires fifo == ReadFront(y.fifo, c)
    ensures Follows(v, y.(fifo := fifo))
  {
    var r := w.results[w.current];
    var t := Mark(r.delivered, c.elementOffset, c.elementCount);
    assert Tracks(y.fifo[0], r);
    if All(t) {
      assert fifo == y.fifo[1..];
      forall i | v.current <= i < |v.results| ensures Tracks(fifo[i - v.current], v.results[i]) {
        assert Tracks(y.fifo[i - w.current], w.results[i]);
      }
    } else {
      forall i | v.current <= i < |v.results| ensures Tracks(fifo[i - v.current], v.results[i]) {
        if i > w.current { assert Tracks(y.fifo[i - w.current], w.results[i]); }
      }
    }
  }

  lemma FollowStore(cfg: Config, w: Walk, y: Arch, reserved: map<Token, Token>, c: Command)
    requires cfg.Valid() && cfg.pipeline && Follows(w, y) && Fits(w, c) && c.operation == Store
    ensures Follows(WalkStore(w, reserved, c), Perform(cfg, y, c))
  {
    if !w.short && c.elementCount > 0 && w.current < |w.results| {
      RowsRead(w.results[w.current], c);
      FollowRead(w, WalkStore(w, reserved, c), y, ReadFront(y.fifo, c), c);
    }
  }

  lemma FollowOther(cfg: Config, w: Walk, y: Arch, reserved: map<Token, Token>, c: Command)
    requires cfg.Valid() && cfg.pipeline && Follows(w, y) && c.operation != Store
    ensures Follows(WalkStore(w, reserved, c), Perform(cfg, y, c))
  {
  }

  lemma FitsNext(w: Walk, reserved: map<Token, Token>, c: Command, d: Command)
    requires Fits(w, d)
    ensures Fits(WalkStore(w, reserved, c), d)
  {
  }

  /** The store reservation, when there is one, names the result the command serially reads. */
  ghost predicate Agrees(reserved: map<Token, Token>, c: Command, answer: Outcome) {
    c.token in reserved && c.Moves(Store) ==> answer.Done? && answer.source == Some(reserved[c.token])
  }

  lemma NoClash(cfg: Config, w: Walk, y: Arch, reserved: map<Token, Token>, c: Command)
    requires cfg.Valid() && cfg.pipeline && Follows(w, y) && !w.clash
    requires Agrees(reserved, c, Answer(cfg, y, c))
    ensures !WalkStore(w, reserved, c).clash
  {
  }

  /** One step of the walk, whatever the command. */
  lemma FollowStep(cfg: Config, w: Walk, y: Arch, reserved: map<Token, Token>, c: Command)
    requires cfg.Valid() && cfg.pipeline && Follows(w, y) && Fits(w, c) && !w.clash && Agrees(reserved, c, Answer(cfg, y, c))
    ensures Follows(WalkStore(w, reserved, c), Perform(cfg, y, c)) && !WalkStore(w, reserved, c).clash
  {
    NoClash(cfg, w, y, reserved, c);
    if c.operation == Store { FollowStore(cfg, w, y, reserved, c); } else { FollowOther(cfg, w, y, reserved, c); }
  }

  lemma {:induction false} FollowQueue(cfg: Config, w: Walk, y: Arch, reserved: map<Token, Token>, q: seq<Entry>)
    requires cfg.Valid() && cfg.pipeline && Follows(w, y) && !w.clash
    requires forall k :: 0 <= k < |q| ==> Fits(w, q[k].cmd)
    requires forall k :: 0 <= k < |q| ==> Agrees(reserved, q[k].cmd, AnswerAt(cfg, y, Cmds(q), k))
    ensures Follows(WalkStores(w, reserved, q), Run(cfg, y, Cmds(q)))
    ensures !WalkStores(w, reserved, q).clash
    decreases |q|
  {
    if q != [] {
      var c := q[0].cmd;
      assert Cmds(q)[0] == c && Cmds(q)[1..] == Cmds(q[1..]);
      AnswerHead(cfg, y, Cmds(q));
      FollowStep(cfg, w, y, reserved, c);
      var w1, y1 := WalkStore(w, reserved, c), Perform(cfg, y, c);
      forall k | 0 <= k < |q[1..]|
        ensures Fits(w1, q[1..][k].cmd)
        ensures Agrees(reserved, q[1..][k].cmd, AnswerAt(cfg, y1, Cmds(q[1..]), k))
      {
        FitsNext(w, reserved, c, q[k + 1].cmd);
        AnswerTail(cfg, y, Cmds(q), k);
      }
      FollowQueue(cfg, w1, y1, reserved, q[1..]);
    }
  }

  ghost function FirstWalk(a: ArrayState): Walk {
    Walk(a.results, 0, false, false)
  }

  ghost function ActiveWalk(a: ArrayState, reserved: map<Token, Token>): Walk {
    if a.active.None? then FirstWalk(a) else WalkStore(FirstWalk(a), reserved, a.active.value.cmd)
  }

  lemma SplitWalk(a: ArrayState, reserved: map<Token, Token>)
    ensures StoreWalk(a, reserved) == WalkStores(ActiveWalk(a, reserved), reserved, a.queue)
  {
    if a.active.Some? {
      var q := InFlight(a);
      assert q[0] == a.active.value && q[1..] == a.queue;
    } else {
      assert InFlight(a) == a.queue;
    }
  }

  lemma FirstFits(cfg: Config, a: ArrayState, c: Command)
    requires cfg.Valid() && CoreOk(cfg, a) && Legal(cfg, a.activeRows, a.activeCols, c)
    ensures Fits(FirstWalk(a), c)
  {
  }

  lemma FollowFirst(cfg: Config, a: ArrayState)
    requires cfg.Valid() && ResultsOk(cfg, a)
    ensures Follows(FirstWalk(a), Abs(cfg, a))
  {
  }

  lemma FollowActive(cfg: Config, u: Cell)
    requires Sound(cfg, u) && cfg.pipeline
    ensures var w := ActiveWalk(u.a, u.s.storeResults); Follows(w, After(cfg, u.a)) && !w.clash
    ensures forall k :: 0 <= k < |u.a.queue| ==> Fits(ActiveWalk(u.a, u.s.storeResults), u.a.queue[k].cmd)
  {
    FollowFirst(cfg, u.a);
    forall k | 0 <= k < |u.a.queue|
      ensures Fits(ActiveWalk(u.a, u.s.storeResults), u.a.queue[k].cmd)
    {
      FirstFits(cfg, u.a, u.a.queue[k].cmd);
    }
    if u.a.active.Some? {
      FollowActiveStore(cfg, u);
    }
  }

  lemma ActiveAgrees(cfg: Config, u: Cell)
    requires Sound(cfg, u) && cfg.pipeline && u.a.active.Some?
    ensures Agrees(u.s.storeResults, u.a.active.value.cmd, Answer(cfg, Abs(cfg, u.a), u.a.active.value.cmd))
    ensures Fits(FirstWalk(u.a), u.a.active.value.cmd)
  {
    FirstFits(cfg, u.a, u.a.active.value.cmd);
    assert EntryShared(cfg, u.a, u.s, u.a.active.value);
    if u.a.active.value.cmd.operation == Store {
      assert Accepts(cfg, Abs(cfg, u.a), u.a.active.value.cmd);
    }
  }

  lemma FollowActiveStore(cfg: Config, u: Cell)
    requires Sound(cfg, u) && cfg.pipeline && u.a.active.Some?
    requires Follows(FirstWalk(u.a), Abs(cfg, u.a))
    ensures var w := ActiveWalk(u.a, u.s.storeResults); Follows(w, After(cfg, u.a)) && !w.clash
  {
    ActiveAgrees(cfg, u);
    FollowStep(cfg, FirstWalk(u.a), Abs(cfg, u.a), u.s.storeResults, u.a.active.value.cmd);
  }

  lemma QueueAgrees(cfg: Config, u: Cell)
    requires Sound(cfg, u) && cfg.pipeline
    ensures forall k :: 0 <= k < |u.a.queue| ==>
              Agrees(u.s.storeResults, u.a.queue[k].cmd, AnswerAt(cfg, After(cfg, u.a), Cmds(u.a.queue), k))
  {
    forall k | 0 <= k < |u.a.queue|
      ensures Agrees(u.s.storeResults, u.a.queue[k].cmd, AnswerAt(cfg, After(cfg, u.a), Cmds(u.a.queue), k))
    {
      assert EntryShared(cfg, u.a, u.s, u.a.queue[k]);
    }
  }

  lemma ProjectedReads(cfg: Config, w: Walk, y: Arch, r: Command)
    requires cfg.Valid() && cfg.pipeline && r.Moves(Store) && Follows(w, y)
    ensures var p := ProjectedResult(w);
            p.Some? ==> Answer(cfg, y, r).Done? && Answer(cfg, y, r).source == p
  {
  }

  lemma FollowAll(cfg: Config, u: Cell)
    requires Sound(cfg, u) && cfg.pipeline
    ensures var w := StoreWalk(u.a, u.s.storeResults); Follows(w, Final(cfg, u.a.log)) && !w.clash
  {
    SplitWalk(u.a, u.s.storeResults);
    FollowActive(cfg, u);
    QueueAgrees(cfg, u);
    FollowQueue(cfg, ActiveWalk(u.a, u.s.storeResults), After(cfg, u.a), u.s.storeResults, u.a.queue);
  }

  /** The projected result of a further Store is the one it will serially read, and no earlier
      reservation has changed. */
  lemma ProjectedStore(cfg: Config, u: Cell, r: Command)
    requires Sound(cfg, u) && cfg.pipeline && r.Moves(Store)
    ensures !StoreWalk(u.a, u.s.storeResults).clash
    ensures var p := ProjectedResult(StoreWalk(u.a, u.s.storeResults));
            p.Some? ==> Answer(cfg, Final(cfg, u.a.log), r).Done? && Answer(cfg, Final(cfg, u.a.log), r).source == p
  {
    FollowAll(cfg, u);
    ProjectedReads(cfg, StoreWalk(u.a, u.s.storeResults), Final(cfg, u.a.log), r);
  }

  // ---- blocking mode: the output is valid when projected valid ----

  lemma {:induction false} OutputStays(cfg: Config, y: Arch, valid: bool, q: seq<Entry>)
    requires cfg.Valid() && !cfg.pipeline && (valid ==> y.computed)
    requires forall k :: 0 <= k < |q| ==> q[k].cmd.operation != Configure
    ensures ProjectedOutput(valid, q) ==> Run(cfg, y, Cmds(q)).computed
    decreases |q|
  {
    if q != [] {
      var c := q[0].cmd;
      assert Cmds(q)[0] == c && Cmds(q)[1..] == Cmds(q[1..]);
      OutputStays(cfg, Perform(cfg, y, c),
                  if c.operation == Execute || c.Moves(Program) || c.Moves(Load) then false else valid, q[1..]);
    }
  }

  lemma ProjectedBlockingStore(cfg: Config, u: Cell, r: Command)
    requires Sound(cfg, u) && !cfg.pipeline && r.Moves(Store)
    requires ProjectedOutput(OutputAfterActive(u.a), u.a.queue)
    ensures Answer(cfg, Final(cfg, u.a.log), r).Done?
  {
    assert OutputAfterActive(u.a) ==> After(cfg, u.a).computed;
    OutputStays(cfg, After(cfg, u.a), OutputAfterActive(u.a), u.a.queue);
  }

  // ---- Programs: a projected epoch that is not full is not closed ----

  /** A closed epoch is a covered one. */
  ghost predicate EpochOk(cfg: Config, x: Arch)
    requires cfg.Valid()
  {
    && |x.weightsReceived| == cfg.rows * cfg.cols
    && (x.closed ==> Covered(x.weightsReceived, cfg.cols, x.rows, x.cols))
  }

  lemma {:induction false} EpochFinal(cfg: Config, x: Arch, log: seq<Command>)
    requires cfg.Valid() && EpochOk(cfg, x)
    ensures EpochOk(cfg, Run(cfg, x, log))
    decreases |log|
  {
    if log != [] {
      EpochFinal(cfg, Perform(cfg, x, log[0]), log[1..]);
    }
  }

  /** Queued commands do not change the active rectangle. */
  lemma {:induction false} ShapeStays(cfg: Config, x: Arch, q: seq<Command>)
    requires cfg.Valid() && forall k :: 0 <= k < |q| ==> q[k].operation != Configure
    ensures Run(cfg, x, q).rows == x.rows && Run(cfg, x, q).cols == x.cols
    decreases |q|
  {
    if q != [] {
      ShapeStays(cfg, Perform(cfg, x, q[0]), q[1..]);
    }
  }

  ghost predicate Subset(s: seq<bool>, t: seq<bool>) {
    |s| == |t| && forall i :: 0 <= i < |s| && s[i] ==> t[i]
  }

  lemma FinalShape(cfg: Config, u: Cell)
    requires Sound(cfg, u)
    ensures Final(cfg, u.a.log).rows == u.a.activeRows && Final(cfg, u.a.log).cols == u.a.activeCols
    ensures EpochOk(cfg, Final(cfg, u.a.log))
  {
    forall k | 0 <= k < |Cmds(u.a.queue)| ensures Cmds(u.a.queue)[k].operation != Configure {
      assert Legal(cfg, u.a.activeRows, u.a.activeCols, u.a.queue[k].cmd);
    }
    ShapeStays(cfg, After(cfg, u.a), Cmds(u.a.queue));
    EpochFinal(cfg, Reset(cfg), u.a.log);
  }

  /** A projection covers what has serially been received. */
  ghost predicate Projects(cfg: Config, rows: nat, cols: nat, p: Projection, y: Arch)
    requires cfg.Valid()
  {
    && |p.initialized| == cfg.rows * cfg.cols
    && p.count == Count(p.initialized)
    && Contained(p.initialized, cfg.cols, rows, cols)
    && Subset(y.weightsReceived, p.initialized)
  }

  lemma ReserveProjects(cfg: Config, rows: nat, cols: nat, p: Projection, y: Arch, c: Command)
    requires cfg.Valid() && rows <= cfg.rows && cols <= cfg.cols
    requires Projects(cfg, rows, cols, p, y) && Legal(cfg, rows, cols, c)
    ensures Projects(cfg, rows, cols, Reserve(p, c), Perform(cfg, y, c))
    ensures Projects(cfg, rows, cols, Reserve(p, c), Effect(cfg, y, c))
  {
    if c.Moves(Program) {
      MarkedCoverage(cfg, rows, cols, p.initialized, p.count, c);
    }
  }

  lemma {:induction false} ReserveAllProjects(cfg: Config, rows: nat, cols: nat, p: Projection, y: Arch, q: seq<Entry>)
    requires cfg.Valid() && rows <= cfg.rows && cols <= cfg.cols && Projects(cfg, rows, cols, p, y)
    requires forall k :: 0 <= k < |q| ==> Legal(cfg, rows, cols, q[k].cmd)
    ensures Projects(cfg, rows, cols, ReserveAll(p, q), Run(cfg, y, Cmds(q)))
    decreases |q|
  {
    if q != [] {
      assert Cmds(q)[0] == q[0].cmd && Cmds(q)[1..] == Cmds(q[1..]);
      ReserveProjects(cfg, rows, cols, p, y, q[0].cmd);
      ReserveAllProjects(cfg, rows, cols, Reserve(p, q[0].cmd), Perform(cfg, y, q[0].cmd), q[1..]);
    }
  }

  /** A freshly allocated projection accounts for the coverage, the active Program and the queue. */
  lemma InitializeProjects(cfg: Config, u: Cell)
    requires Sound(cfg, u) && u.a.projection.initialized == []
    ensures Projects(cfg, u.a.activeRows, u.a.activeCols, InitializeProjection(u.a).projection, Final(cfg, u.a.log))
  {
    var p := Projection(u.a.mem.weightInitialized, u.a.mem.initializedWeights);
    assert Projects(cfg, u.a.activeRows, u.a.activeCols, p, Abs(cfg, u.a));
    var q := InFlight(u.a);
    if u.a.active.Some? {
      var c := u.a.active.value.cmd;
      ReserveProjects(cfg, u.a.activeRows, u.a.activeCols, p, Abs(cfg, u.a), c);
      assert q[0].cmd == c && q[1..] == u.a.queue;
      ReserveAllProjects(cfg, u.a.activeRows, u.a.activeCols, Reserve(p, c), After(cfg, u.a), u.a.queue);
    } else {
      assert q == u.a.queue;
      ReserveAllProjects(cfg, u.a.activeRows, u.a.activeCols, p, After(cfg, u.a), u.a.queue);
    }
  }

  lemma CoveredMono(cfg: Config, rows: nat, cols: nat, s: seq<bool>, t: seq<bool>)
    requires cfg.Valid() && Subset(s, t) && Covered(s, cfg.cols, rows, cols)
    ensures Covered(t, cfg.cols, rows, cols)
  {
  }

  /** A deferred Program admitted while the projection is not full cannot meet a closed epoch. */
  lemma ProjectedProgram(cfg: Config, rows: nat, cols: nat, p: Projection, y: Arch, r: Command)
    requires cfg.Valid() && rows <= cfg.rows && cols <= cfg.cols
    requires Projects(cfg, rows, cols, p, y) && p.count != rows * cols
    requires EpochOk(cfg, y) && y.rows == rows && y.cols == cols && r.Moves(Program)
    ensures Answer(cfg, y, r).Done?
  {
    if y.closed {
      CoveredMono(cfg, rows, cols, y.weightsReceived, p.initialized);
    }
    Monotone(rows, cfg.rows, cfg.cols);
    CountCovered(p.initialized, cfg.cols, rows, cols);
  }
}
