/** The answer to every arriving command, from its fields and from what the array has accepted. */
module Acceptance {
  import opened Arithmetic
  import opened Options
  import opened Vectors
  import opened Commands
  import opened Engine
  import opened Admission
  import opened Serial
  import opened Invariant
  import opened Books
  import opened Promises
  import opened Arrivals
  import opened Runs
  import opened ArrayTheorems

  /** A well-formed transfer or Execute: its range fits, a Program stays inside the active rectangle, and
      exactly the input commands carry four bytes for each element. */
  ghost predicate Formed(cfg: Config, a: ArrayState, r: Command)
    requires cfg.cols > 0
  {
    match r.operation
    case Program =>
      && r.elementOffset + r.elementCount <= cfg.rows * cfg.cols && |r.payload| == 4 * r.elementCount
      && forall i: nat :: r.elementOffset <= i < r.elementOffset + r.elementCount ==> InRectangle(cfg, a, i)
    case Load => r.elementOffset + r.elementCount <= a.activeCols && |r.payload| == 4 * r.elementCount
    case Execute => r.elementOffset == 0 && r.elementCount == 0 && r.payload == [] && !r.deferred
    case Store => r.elementOffset + r.elementCount <= a.activeRows && r.payload == []
    case Configure => false
  }

  predicate InRectangle(cfg: Config, a: ArrayState, i: nat)
    requires cfg.cols > 0
  {
    i / cfg.cols < a.activeRows && i % cfg.cols < a.activeCols
  }

  // ---- the region check ----

  lemma RowEnd(n: nat, x: nat) returns (i: nat)
    requires n > 0
    ensures i == x - x % n + (n - 1) && x <= i && i / n == x / n && i % n == n - 1
  {
    i := x - x % n + (n - 1);
    DivisionUnique(i, n, x / n, n - 1);
  }

  /** A range that crosses the end of a row covers the last cell of that row. */
  lemma LastOfRow(n: nat, first: nat, last: nat) returns (i: nat)
    requires n > 0 && first <= last && first / n != last / n
    ensures first <= i <= last && i % n == n - 1
  {
    i := RowEnd(n, first);
    DivMono(first, last, n);
    if last < i { DivMono(last, i, n); }
  }

  lemma RegionNeeded(cfg: Config, a: ArrayState, r: Command)
    requires cfg.Valid() && a.activeCols <= cfg.cols && r.elementCount > 0
    requires forall i: nat :: r.elementOffset <= i < r.elementOffset + r.elementCount ==> InRectangle(cfg, a, i)
    ensures ProgramRegionOk(cfg, a, r)
  {
    var first, last := r.elementOffset, r.elementOffset + r.elementCount - 1;
    assert InRectangle(cfg, a, first) && InRectangle(cfg, a, last);
    if first / cfg.cols == last / cfg.cols {
      assert first == first / cfg.cols * cfg.cols + first % cfg.cols && last == last / cfg.cols * cfg.cols + last % cfg.cols;
    } else {
      var i := LastOfRow(cfg.cols, first, last);
      assert InRectangle(cfg, a, i);
    }
  }

  /** The checks on the first and last row and column accept exactly the ranges inside the rectangle. */
  lemma RegionExact(cfg: Config, a: ArrayState, r: Command)
    requires cfg.Valid() && a.activeCols <= cfg.cols && r.elementCount > 0
    ensures ProgramRegionOk(cfg, a, r)
       <==> forall i: nat :: r.elementOffset <= i < r.elementOffset + r.elementCount ==> InRectangle(cfg, a, i)
  {
    if ProgramRegionOk(cfg, a, r) {
      forall i: nat | r.elementOffset <= i < r.elementOffset + r.elementCount ensures InRectangle(cfg, a, i) {
        RegionInside(cfg, a, r, i);
      }
    } else if forall i: nat :: r.elementOffset <= i < r.elementOffset + r.elementCount ==> InRectangle(cfg, a, i) {
      RegionNeeded(cfg, a, r);
    }
  }

  lemma SizesFit(cfg: Config, a: ArrayState)
    requires cfg.Valid() && a.activeRows <= cfg.rows && a.activeCols <= cfg.cols
    ensures 4 * (cfg.rows * cfg.cols) < UINT32_RANGE && 4 * a.activeRows < UINT32_RANGE && 4 * a.activeCols < UINT32_RANGE
  {
    Monotone(1, cfg.rows, cfg.cols);
    Monotone(1, cfg.cols, cfg.rows);
  }

  lemma FormedExact(cfg: Config, a: ArrayState, r: Command)
    requires cfg.Valid() && a.activeRows <= cfg.rows && a.activeCols <= cfg.cols && r.operation != Configure
    ensures Formed(cfg, a, r) <==> RangeOk(cfg, a, r) && (r.Moves(Program) ==> ProgramRegionOk(cfg, a, r))
  {
    SizesFit(cfg, a);
    if r.Moves(Program) { RegionExact(cfg, a, r); }
  }

  // ---- the state of the array ----

  /** All active weights of the current configuration have been received, with one initial Program each. */
  ghost predicate EpochClosed(cfg: Config, a: ArrayState)
    requires cfg.cols > 0
  {
    cfg.initialProgram && forall i: nat :: i < |a.mem.weightInitialized| && InRectangle(cfg, a, i) ==> a.mem.weightInitialized[i]
  }

  /** A result is unread or still to be computed. */
  ghost predicate ResultsPending(a: ArrayState) {
    a.results != [] || exists k :: 0 <= k < |a.queue| && a.queue[k].cmd.operation == Execute
  }

  /** A command that may enter the queue. */
  ghost predicate MayEnter(cfg: Config, a: ArrayState, r: Command)
    requires cfg.cols > 0
  {
    && Formed(cfg, a, r)
    && (r.operation == Program && r.elementCount > 0 ==> !EpochClosed(cfg, a) && !(cfg.pipeline && ResultsPending(a)))
  }

  /** A deferred Program for an epoch whose projection is complete. */
  ghost predicate Exhausted(cfg: Config, a: ArrayState, r: Command)
    requires cfg.cols > 0
  {
    && cfg.initialProgram && r.deferred && r.operation == Program && r.elementCount > 0
    && var projected := InitializeProjection(a).projection.initialized;
       forall i: nat :: i < |projected| && InRectangle(cfg, a, i) ==> projected[i]
  }

  /** A cell that one of the Programs will have received. */
  ghost predicate WillReceive(q: seq<Entry>, i: nat) {
    exists k :: 0 <= k < |q| && q[k].cmd.operation == Program && q[k].cmd.elementOffset <= i < q[k].cmd.elementOffset + q[k].cmd.elementCount
  }

  lemma {:induction false} ReservedCells(p: Projection, q: seq<Entry>, i: nat)
    requires i < |p.initialized|
    ensures |ReserveAll(p, q).initialized| == |p.initialized|
    ensures ReserveAll(p, q).initialized[i] <==> p.initialized[i] || WillReceive(q, i)
    decreases |q|
  {
    if q != [] {
      ReservedCells(Reserve(p, q[0].cmd), q[1..], i);
      assert WillReceive(q, i) <==> WillReceive([q[0]], i) || WillReceive(q[1..], i) by { WillReceiveSplit(q, i); }
    }
  }

  lemma WillReceiveSplit(q: seq<Entry>, i: nat)
    requires q != []
    ensures WillReceive(q, i) <==> WillReceive([q[0]], i) || WillReceive(q[1..], i)
  {
    if WillReceive([q[0]], i) {
      assert [q[0]][0] == q[0];
    }
    if WillReceive(q[1..], i) {
      var k :| 0 <= k < |q[1..]| && q[1..][k].cmd.operation == Program
               && q[1..][k].cmd.elementOffset <= i < q[1..][k].cmd.elementOffset + q[1..][k].cmd.elementCount;
      assert q[k + 1] == q[1..][k];
    }
  }

  /** The first deferred Program of an epoch finds the cells received and those on their way. */
  lemma FirstProjection(a: ArrayState, i: nat)
    requires a.projection.initialized == [] && i < |a.mem.weightInitialized|
    ensures |InitializeProjection(a).projection.initialized| == |a.mem.weightInitialized|
    ensures InitializeProjection(a).projection.initialized[i] <==> a.mem.weightInitialized[i] || WillReceive(InFlight(a), i)
  {
    ReservedCells(Projection(a.mem.weightInitialized, a.mem.initializedWeights), InFlight(a), i);
  }

  lemma RectangleCovered(cfg: Config, a: ArrayState, s: seq<bool>)
    requires cfg.cols > 0
    ensures Covered(s, cfg.cols, a.activeRows, a.activeCols) <==> forall i: nat :: i < |s| && InRectangle(cfg, a, i) ==> s[i]
  {
  }

  lemma ProjectionCovers(cfg: Config, u: Cell, p: Projection)
    requires Sound(cfg, u) && p.count == Count(p.initialized) && |p.initialized| == cfg.rows * cfg.cols
    requires Contained(p.initialized, cfg.cols, u.a.activeRows, u.a.activeCols)
    ensures p.count == u.a.activeRows * u.a.activeCols
       <==> forall i: nat :: i < |p.initialized| && InRectangle(cfg, u.a, i) ==> p.initialized[i]
  {
    Monotone(u.a.activeRows, cfg.rows, cfg.cols);
    CountCovered(p.initialized, cfg.cols, u.a.activeRows, u.a.activeCols);
    RectangleCovered(cfg, u.a, p.initialized);
  }

  lemma ExhaustedExact(cfg: Config, u: Cell, r: Command)
    requires Sound(cfg, u) && cfg.initialProgram && r.Moves(Program) && r.deferred
    ensures Exhausted(cfg, u.a, r) <==> !Projected(cfg, u.a, r).1
  {
    if u.a.projection.initialized == [] { InitializeProjects(cfg, u); }
    ProjectionCovers(cfg, u, InitializeProjection(u.a).projection);
    EmptyRectangle(cfg, u.a);
  }

  lemma EmptyRectangle(cfg: Config, a: ArrayState)
    requires cfg.Valid() && 0 < a.activeRows && 0 < a.activeCols
    ensures a.activeRows * a.activeCols > 0
  {
    Monotone(1, a.activeRows, a.activeCols);
  }

  // ---- how many commands are unanswered ----

  lemma {:induction false} QueueIds(q: seq<Entry>)
    requires forall i, j :: 0 <= i < j < |q| ==> Apart(q[i], q[j])
    ensures |set i | 0 <= i < |q| :: q[i].id| == |q|
    decreases |q|
  {
    var ids := set i | 0 <= i < |q| :: q[i].id;
    if q == [] {
      assert ids == {};
    } else {
      var p, e := q[..|q| - 1], q[|q| - 1];
      QueueIds(p);
      var before := set i | 0 <= i < |p| :: p[i].id;
      forall n ensures n in ids <==> n in before + {e.id} {
        if n in ids {
          var i :| 0 <= i < |q| && q[i].id == n;
          if i < |p| { assert p[i].id == n; }
        }
        if n in before {
          var i :| 0 <= i < |p| && p[i].id == n;
          assert q[i].id == n;
        }
      }
      assert ids == before + {e.id};
    }
  }

  /** The occupied places are those of the commands accepted and not answered. */
  lemma OccupiedIsLive(a: ArrayState)
    requires Distinct(a)
    ensures Occupied(a) == |LiveIds(a)|
  {
    QueueIds(a.queue);
    var ids := set i | 0 <= i < |a.queue| :: a.queue[i].id;
    if a.active.Some? { assert a.active.value.id !in ids; }
    if a.compute.entry.Some? { assert a.compute.entry.value.id !in ids; }
  }

  // ---- the answer ----

  lemma AdmissibleExact(cfg: Config, u: Cell, r: Command)
    requires Sound(cfg, u) && r.operation != Configure
    ensures Admissible(cfg, u.a, r) <==> MayEnter(cfg, u.a, r)
  {
    FormedExact(cfg, u.a, r);
    RectangleCovered(cfg, u.a, u.a.mem.weightInitialized);
  }

  /** What a command is answered on arrival: Error when it may not enter or its epoch is exhausted, Busy when
      four commands are unanswered, and otherwise it is accepted; a deferred command with a promise exactly
      when it moves no outputs or its result is certain. */
  ghost predicate AnsweredWith(cfg: Config, a: ArrayState, s: Shared, r: Command, status: Status)
    requires cfg.cols > 0
  {
    if !MayEnter(cfg, a, r) then status == Error
    else if |LiveIds(a)| >= 4 then status == Busy
    else if Exhausted(cfg, a, r) then status == Error
    else if !r.deferred then status == Accepted
    else if r.operation != Store || r.elementCount == 0 then status == Guaranteed
    else status == if Promise(cfg, a, s, r).0 then Guaranteed else Accepted
  }

  lemma ArrivalAnswer(cfg: Config, u: Cell, r: Command)
    requires Sound(cfg, u) && SetsOk(u.s) && r.token !in u.s.tokens && r.operation != Configure
    ensures AnsweredWith(cfg, u.a, u.s, r, Arrive(cfg, u, r).1)
  {
    AdmissibleExact(cfg, u, r);
    OccupiedIsLive(u.a);
    if Admissible(cfg, u.a, r) && Occupied(u.a) < QUEUE_ENTRIES {
      ProjectedSound(cfg, u, r);
      if cfg.initialProgram && r.Moves(Program) && r.deferred {
        ExhaustedExact(cfg, u, r);
      }
      SamePromise(cfg, u.a, Projected(cfg, u.a, r).0, u.s, r);
    }
  }

  /** With no other Store on its way, a deferred Store is promised exactly when a result is waiting or being
      computed; in blocking mode, with nothing on its way, when the output is valid. */
  lemma StorePromise(cfg: Config, u: Cell, r: Command)
    requires Sound(cfg, u) && r.deferred && r.Moves(Store)
    requires if cfg.pipeline then forall k :: 0 <= k < |InFlight(u.a)| ==> !InFlight(u.a)[k].cmd.Moves(Store)
             else InFlight(u.a) == []
    ensures Promise(cfg, u.a, u.s, r).0 <==> if cfg.pipeline then u.a.results != [] else u.a.out.computed
  {
    if cfg.pipeline {
      NoStores(Walk(u.a.results, 0, false, false), u.s.storeResults, InFlight(u.a));
    }
  }

  lemma {:induction false} NoStores(w: Walk, reserved: map<Token, Token>, q: seq<Entry>)
    requires forall k :: 0 <= k < |q| ==> !q[k].cmd.Moves(Store)
    ensures WalkStores(w, reserved, q) == w
    decreases |q|
  {
    if q != [] { NoStores(w, reserved, q[1..]); }
  }

  // ---- Configure ----

  lemma NoneLive(a: ArrayState)
    ensures LiveIds(a) == {} <==> a.active.None? && a.compute.entry.None? && a.queue == []
  {
    if a.queue != [] { assert a.queue[0].id in LiveIds(a); }
  }

  /** Configure takes effect at once, exactly when every accepted command has been answered and serially it
      would be done; otherwise it is an error. */
  lemma ConfigureAnswer(cfg: Config, u: Cell, r: Command)
    requires Sound(cfg, u) && r.operation == Configure
    ensures Arrive(cfg, u, r).1 == if !r.deferred && r.elementCount == 0 && r.payload == [] && LiveIds(u.a) == {}
                                      && Accepts(cfg, Final(cfg, u.a.log), r) then Complete else Error
  {
    NoneLive(u.a);
    if LiveIds(u.a) == {} {
      IdleFinal(cfg, u.a);
      CountBound(u.a.out.delivered);
      assert Slots(cfg, u.a) == [] <==> u.a.results == [];
    }
  }

  // ---- in every run ----

  /** What a command for an array in this state is answered. */
  ghost predicate ArrivalIs(cfg: Config, a: ArrayState, s: Shared, r: Command, status: Status)
    requires cfg.Valid()
  {
    if r.operation == Configure then
      status == if !r.deferred && r.elementCount == 0 && r.payload == [] && LiveIds(a) == {}
                   && Accepts(cfg, Final(cfg, a.log), r) then Complete else Error
    else AnsweredWith(cfg, a, s, r, status)
  }

  lemma OneArrival(cfg: Config, u: Cell, r: Command)
    requires Sound(cfg, u) && SetsOk(u.s) && r.token !in u.s.tokens
    ensures ArrivalIs(cfg, u.a, u.s, r, Arrive(cfg, u, r).1)
  {
    if r.operation == Configure { ConfigureAnswer(cfg, u, r); } else { ArrivalAnswer(cfg, u, r); }
  }

  lemma ReachedArray(cfg: Config, count: nat, events: seq<Event>, i: nat)
    requires cfg.Valid() && i < count
    ensures var c := Reach(cfg, count, events);
            |c.arrays| == count && c.arrays[i] == State(cfg, count, events, i) && Sound(cfg, Cell(c.arrays[i], c.s)) && SetsOk(c.s)
  {
    CountKept(cfg, InitialComponent(cfg, count), events);
    Reachable(cfg, count, events);
  }

  /** In every state of every run, what any command that then arrives is answered. */
  lemma EveryArrival(cfg: Config, count: nat, events: seq<Event>, r: Command)
    requires cfg.Valid()
    ensures var c := Reach(cfg, count, events); var status := Submit(cfg, c, r).1;
            if r.status != Request || r.target >= count || r.token in c.s.tokens then status == Error
            else Ran(cfg, count, events, r.target) && ArrivalIs(cfg, State(cfg, count, events, r.target), c.s, r, status)
  {
    var c := Reach(cfg, count, events);
    if r.target < count { ReachedArray(cfg, count, events, r.target); } else { CountKept(cfg, InitialComponent(cfg, count), events); }
    if !(r.status != Request || r.target >= count || r.token in c.s.tokens) {
      OneArrival(cfg, Cell(c.arrays[r.target], c.s), r);
    }
  }
}
