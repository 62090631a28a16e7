/** What a refused command leaves behind. The component's documentation promises that it leaves
    nothing; one kind of refusal does. */
module Refusals {
  import opened Arithmetic
  import opened Vectors
  import opened Commands
  import opened Engine
  import opened Admission
  import opened Invariant
  import opened Promises
  import opened Arrivals
  import opened Runs

  /** The first deferred Program of an initialization epoch, when the Programs accepted before it will
      already have closed the epoch. */
  predicate ComesLate(cfg: Config, a: ArrayState, r: Command)
    requires cfg.cols > 0
  {
    && r.operation == Program && Admissible(cfg, a, r) && Occupied(a) < QUEUE_ENTRIES
    && cfg.initialProgram && r.elementCount > 0 && r.deferred && a.projection.initialized == []
    && InitializeProjection(a).projection.count == a.activeRows * a.activeCols
  }

  lemma ProjectionAllocated(cfg: Config, u: Cell)
    requires Sound(cfg, u)
    ensures InitializeProjection(u.a).projection.initialized != []
  {
    if u.a.projection.initialized == [] {
      InitializeProjects(cfg, u);
      Monotone(1, cfg.rows, cfg.cols);
    }
  }

  /** A refused command changes nothing unless it comes late; then the projection stays allocated. */
  lemma RefusedUnchanged(cfg: Config, u: Cell, r: Command)
    requires Sound(cfg, u)
    requires var status := Arrive(cfg, u, r).1; status == Error || status == Busy
    ensures Arrive(cfg, u, r).0 == u <==> !ComesLate(cfg, u.a, r)
    ensures ComesLate(cfg, u.a, r) ==> Arrive(cfg, u, r).0 == u.(a := InitializeProjection(u.a))
  {
    ProjectionAllocated(cfg, u);
  }

  lemma PutBack(c: Component, i: nat, v: Cell)
    requires i < |c.arrays|
    ensures c.(arrays := c.arrays[i := v.a], s := v.s) == c <==> v == Cell(c.arrays[i], c.s)
  {
    assert c.arrays[i := c.arrays[i]] == c.arrays;
    assert c.arrays[i := v.a][i] == v.a;
  }

  /** The same for the component, in every run: an Error or Busy answer leaves all arrays, tokens and
      promises as they were, unless the command comes late. */
  lemma RefusedKeepsComponent(cfg: Config, count: nat, events: seq<Event>, r: Command)
    requires cfg.Valid()
    requires var status := Submit(cfg, Reach(cfg, count, events), r).1; status == Error || status == Busy
    ensures var c := Reach(cfg, count, events);
            Submit(cfg, c, r).0 == c
            <==> !(r.status == Request && r.target < |c.arrays| && r.token !in c.s.tokens && ComesLate(cfg, c.arrays[r.target], r))
  {
    var c := Reach(cfg, count, events);
    Reachable(cfg, count, events);
    if r.status == Request && r.target < |c.arrays| && r.token !in c.s.tokens {
      var u := Cell(c.arrays[r.target], c.s);
      RefusedUnchanged(cfg, u, r);
      PutBack(c, r.target, Arrive(cfg, u, r).0);
    }
  }

  function WholeProgram(token: Token, deferred: bool): Command {
    Command(Program, Request, 0, token, 0, 1, [0, 0, 0, 0], deferred)
  }

  function Waiting(cfg: Config): ArrayState {
    var e := Entry(WholeProgram(0, false), 0);
    InitialArray(cfg).(queue := [e], log := [WholeProgram(0, false)], sent := [Reply(e, Accepted, [])])
  }

  lemma FirstAccepted(cfg: Config)
    requires cfg.Valid() && cfg.rows == 1 && cfg.cols == 1
    ensures Arrive(cfg, Cell(InitialArray(cfg), Shared({}, {}, map[])), WholeProgram(0, false))
            == (Cell(Waiting(cfg), Shared({0}, {}, map[])), Accepted)
  {
    var r := WholeProgram(0, false);
    var a := InitialArray(cfg);
    assert ProgramRegionOk(cfg, a, r);
    assert Admissible(cfg, a, r);
    assert Projected(cfg, a, r) == (a, true);
    assert a.queue + [Entry(r, 0)] == [Entry(r, 0)];
    assert a.log + [r] == [r];
    assert a.sent + [Reply(Entry(r, 0), Accepted, [])] == [Reply(Entry(r, 0), Accepted, [])];
    assert {} + {r.token} == {0};
  }

  lemma OneReserved(p: Projection, e: Entry)
    ensures ReserveAll(p, [e]) == Reserve(p, e.cmd)
  {
    assert [e][1..] == [];
  }

  lemma WholeCell()
    ensures Newly(Zeros(1), 0, 1) == 1
  {
  }

  lemma WholeProjection(cfg: Config)
    requires cfg.Valid() && cfg.rows == 1 && cfg.cols == 1
    ensures InitializeProjection(Waiting(cfg)).projection.count == 1
  {
    var a := Waiting(cfg);
    WholeCell();
    OneReserved(Projection(Zeros(1), 0), a.queue[0]);
    assert InFlight(a) == [a.queue[0]];
  }

  lemma ProjectionAllocatedOne(cfg: Config)
    requires cfg.Valid() && cfg.rows == 1 && cfg.cols == 1
    ensures InitializeProjection(Waiting(cfg)).projection.initialized != []
  {
    var reset := Cell(InitialArray(cfg), Shared({}, {}, map[]));
    InitialSound(cfg);
    ArriveSound(cfg, reset, WholeProgram(0, false));
    FirstAccepted(cfg);
    ProjectionAllocated(cfg, Cell(Waiting(cfg), Shared({0}, {}, map[])));
  }

  lemma SecondLate(cfg: Config)
    requires cfg.Valid() && cfg.rows == 1 && cfg.cols == 1 && cfg.initialProgram
    ensures ComesLate(cfg, Waiting(cfg), WholeProgram(1, true))
    ensures Arrive(cfg, Cell(Waiting(cfg), Shared({0}, {}, map[])), WholeProgram(1, true)).1 == Error
  {
    var a, r := Waiting(cfg), WholeProgram(1, true);
    assert ProgramRegionOk(cfg, a, r);
    assert a.queue[0].cmd.operation == Program;
    assert Admissible(cfg, a, r);
    WholeProjection(cfg);
    ProjectionAllocatedOne(cfg);
    assert !Projected(cfg, a, r).1;
  }

  /** Such a refusal exists: on a one-by-one array in the initial scope, after an ordinary Program of the
      only weight a deferred one is refused, and the array is not what it was. */
  lemma RefusalLeavesProjection(cfg: Config)
    requires cfg.Valid() && cfg.rows == 1 && cfg.cols == 1 && cfg.initialProgram
    ensures var u := Arrive(cfg, Cell(InitialArray(cfg), Shared({}, {}, map[])), WholeProgram(0, false)).0;
            var v := Arrive(cfg, u, WholeProgram(1, true));
            v.1 == Error && v.0 != u
  {
    var reset := Cell(InitialArray(cfg), Shared({}, {}, map[]));
    InitialSound(cfg);
    ArriveSound(cfg, reset, WholeProgram(0, false));
    FirstAccepted(cfg);
    SecondLate(cfg);
    RefusedUnchanged(cfg, Cell(Waiting(cfg), Shared({0}, {}, map[])), WholeProgram(1, true));
  }
}
