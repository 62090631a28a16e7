/** Whole runs of the component: any number of arrays sharing the token sets and the link, any
    interleaving of arrivals and clock cycles. */
module Runs {
  import opened Options
  import opened Vectors
  import opened Commands
  import opened Engine
  import opened Admission
  import opened Invariant
  import opened Stepping
  import opened Cycle
  import opened Arrivals

  // ---- the component invariant ----

  ghost predicate AllSound(cfg: Config, arrays: seq<ArrayState>, s: Shared) {
    forall i :: 0 <= i < |arrays| ==> Sound(cfg, Cell(arrays[i], s))
  }

  /** Live tokens are unique across arrays, and the token set holds exactly the live tokens. */
  ghost predicate TokensOk(arrays: seq<ArrayState>, s: Shared) {
    && SetsOk(s)
    && (forall i, j :: 0 <= i < j < |arrays| ==> LiveTokens(arrays[i]) !! LiveTokens(arrays[j]))
    && (forall t :: t in s.tokens <==> exists i :: 0 <= i < |arrays| && t in LiveTokens(arrays[i]))
  }

  ghost predicate ComponentOk(cfg: Config, c: Component) {
    cfg.Valid() && AllSound(cfg, c.arrays, c.s) && TokensOk(c.arrays, c.s)
  }

  // ---- frames ----

  ghost predicate SameFor(a: ArrayState, s: Shared, t: Shared) {
    forall k :: k in LiveTokens(a) ==>
      && (k in t.tokens <==> k in s.tokens)
      && (k in t.guaranteed <==> k in s.guaranteed)
      && (k in t.storeResults <==> k in s.storeResults)
      && (k in s.storeResults ==> t.storeResults[k] == s.storeResults[k])
  }

  lemma FrameShared(cfg: Config, a: ArrayState, s: Shared, t: Shared)
    requires cfg.Valid() && SharedOk(cfg, a, s) && SameFor(a, s, t)
    ensures SharedOk(cfg, a, t)
  {
    forall i | 0 <= i < |a.queue| ensures EntryShared(cfg, a, t, a.queue[i]) {
      assert EntryShared(cfg, a, s, a.queue[i]);
      assert a.queue[i].cmd.token in LiveTokens(a);
    }
    if a.active.Some? { assert a.active.value.cmd.token in LiveTokens(a); }
    if a.compute.entry.Some? { assert a.compute.entry.value.cmd.token in LiveTokens(a); }
  }

  /** An array is not disturbed by changes to the token sets that concern other arrays. */
  lemma FrameSound(cfg: Config, a: ArrayState, s: Shared, t: Shared)
    requires Sound(cfg, Cell(a, s)) && SameFor(a, s, t)
    ensures Sound(cfg, Cell(a, t))
  {
    FrameShared(cfg, a, s, t);
  }

  lemma DropElsewhere(a: ArrayState, s: Shared, gone: set<Token>)
    requires gone !! LiveTokens(a)
    ensures SameFor(a, s, Drop(s, gone))
  {
  }

  // ---- one array steps ----

  lemma AdvanceTokens(arrays: seq<ArrayState>, s: Shared, i: nat, v: Cell)
    requires i < |arrays| && TokensOk(arrays, s) && Advances(Cell(arrays[i], s), v)
    ensures TokensOk(arrays[i := v.a], v.s)
  {
    var next := arrays[i := v.a];
    var gone := LiveTokens(arrays[i]) - LiveTokens(v.a);
    assert SetsOk(v.s);
    forall t | t in v.s.tokens
      ensures exists k :: 0 <= k < |next| && t in LiveTokens(next[k])
    {
      var k :| 0 <= k < |arrays| && t in LiveTokens(arrays[k]);
      assert t in LiveTokens(next[k]);
    }
    forall t, k | 0 <= k < |next| && t in LiveTokens(next[k])
      ensures t in v.s.tokens
    {
      assert t in LiveTokens(arrays[k]);
      assert t !in gone by {
        if k < i { assert LiveTokens(arrays[k]) !! LiveTokens(arrays[i]); }
        if i < k { assert LiveTokens(arrays[i]) !! LiveTokens(arrays[k]); }
      }
    }
    forall j, k | 0 <= j < k < |next|
      ensures LiveTokens(next[j]) !! LiveTokens(next[k])
    {
      assert LiveTokens(arrays[j]) !! LiveTokens(arrays[k]);
    }
  }

  lemma AdvanceOthers(cfg: Config, arrays: seq<ArrayState>, s: Shared, i: nat, v: Cell)
    requires i < |arrays| && AllSound(cfg, arrays, s) && TokensOk(arrays, s)
    requires Kept(cfg, Cell(arrays[i], s), v)
    ensures AllSound(cfg, arrays[i := v.a], v.s)
  {
    var next := arrays[i := v.a];
    var gone := LiveTokens(arrays[i]) - LiveTokens(v.a);
    forall k | 0 <= k < |next| ensures Sound(cfg, Cell(next[k], v.s)) {
      if k != i {
        assert LiveTokens(arrays[if i < k then i else k]) !! LiveTokens(arrays[if i < k then k else i]);
        DropElsewhere(arrays[k], s, gone);
        FrameSound(cfg, arrays[k], s, v.s);
      }
    }
  }

  /** What the cycle of any one array keeps, the cycles of all arrays keep. */
  lemma {:induction false} TickInduction(cfg: Config, keeps: (seq<ArrayState>, Shared) -> bool,
                                         arrays: seq<ArrayState>, s: Shared, i: nat, now: nat)
    requires keeps(arrays, s)
    requires forall b: seq<ArrayState>, t: Shared, k: nat :: k < |b| && keeps(b, t) ==>
               keeps(b[k := TickArray(cfg, Cell(b[k], t), now).a], TickArray(cfg, Cell(b[k], t), now).s)
    ensures keeps(TickFrom(cfg, arrays, s, i, now).0, TickFrom(cfg, arrays, s, i, now).1)
    decreases |arrays| - i
  {
    if i < |arrays| {
      var v := TickArray(cfg, Cell(arrays[i], s), now);
      TickInduction(cfg, keeps, arrays[i := v.a], v.s, i + 1, now);
    }
  }

  lemma TickOne(cfg: Config, arrays: seq<ArrayState>, s: Shared, i: nat, now: nat)
    requires cfg.Valid() && AllSound(cfg, arrays, s) && TokensOk(arrays, s) && i < |arrays|
    ensures var v := TickArray(cfg, Cell(arrays[i], s), now); AllSound(cfg, arrays[i := v.a], v.s) && TokensOk(arrays[i := v.a], v.s)
  {
    var u := Cell(arrays[i], s);
    TickArraySound(cfg, u, now);
    AdvanceTokens(arrays, s, i, TickArray(cfg, u, now));
    AdvanceOthers(cfg, arrays, s, i, TickArray(cfg, u, now));
  }

  lemma TickFromOk(cfg: Config, arrays: seq<ArrayState>, s: Shared, now: nat)
    requires cfg.Valid() && AllSound(cfg, arrays, s) && TokensOk(arrays, s)
    ensures var r := TickFrom(cfg, arrays, s, 0, now); AllSound(cfg, r.0, r.1) && TokensOk(r.0, r.1)
  {
    ghost var keeps := (b: seq<ArrayState>, t: Shared) => AllSound(cfg, b, t) && TokensOk(b, t);
    forall b: seq<ArrayState>, t: Shared, k: nat | k < |b| && keeps(b, t)
      ensures keeps(b[k := TickArray(cfg, Cell(b[k], t), now).a], TickArray(cfg, Cell(b[k], t), now).s)
    {
      TickOne(cfg, b, t, k, now);
    }
    TickInduction(cfg, keeps, arrays, s, 0, now);
  }

  // ---- link service ----

  lemma LinkOne(cfg: Config, x: Transfer, source: seq<Byte>, budget: nat, now: nat)
    requires cfg.Valid() && ChunksOk(cfg, x, source)
    ensures ChunksOk(cfg, x.(chunks := LinkChunks(x.chunks, budget, now).0), source)
  {
    if x.chunks != [] && budget > 0 {
      assert x.chunks[1..] == [];
      assert LinkChunks(x.chunks[1..], budget, now).0 == [];
    }
  }

  ghost function Linked(a: ArrayState, budget: nat, now: nat): ArrayState {
    a.(x := a.x.(chunks := LinkChunks(a.x.chunks, budget, now).0))
  }

  lemma LinkedSound(cfg: Config, u: Cell, budget: nat, now: nat)
    requires Sound(cfg, u) && u.a.active.Some?
    ensures Kept(cfg, u, u.(a := Linked(u.a, budget, now)))
  {
    var v := u.(a := Linked(u.a, budget, now));
    LinkOne(cfg, u.a.x, Source(u.a), budget, now);
    if u.a.x.buffered == 0 { assert v.a.x.chunks == []; }
    LinkedTransfer(cfg, u.a, v.a);
    TransferStep(cfg, u, v);
  }

  lemma LinkedTransfer(cfg: Config, a: ArrayState, b: ArrayState)
    requires cfg.Valid() && TransferOk(cfg, a) && a.active.Some?
    requires b == a.(x := a.x.(chunks := b.x.chunks)) && ChunksOk(cfg, b.x, Source(a))
    ensures TransferOk(cfg, b)
  {
  }

  lemma LinkAt(cfg: Config, arrays: seq<ArrayState>, s: Shared, i: nat, budget: nat, now: nat)
    requires cfg.Valid() && AllSound(cfg, arrays, s) && TokensOk(arrays, s)
    requires i < |arrays| && OnLink(arrays[i], now)
    ensures var next := arrays[i := Linked(arrays[i], budget, now)]; AllSound(cfg, next, s) && TokensOk(next, s)
  {
    var u := Cell(arrays[i], s);
    var v := Cell(Linked(arrays[i], budget, now), s);
    LinkedSound(cfg, u, budget, now);
    AdvanceTokens(arrays, s, i, v);
    AdvanceOthers(cfg, arrays, s, i, v);
  }

  lemma ServeOk(cfg: Config, v: Service, s: Shared, i: nat, now: nat)
    requires cfg.Valid() && AllSound(cfg, v.arrays, s) && TokensOk(v.arrays, s) && i < |v.arrays|
    ensures AllSound(cfg, Serve(cfg, v, i, now).arrays, s) && TokensOk(Serve(cfg, v, i, now).arrays, s)
  {
    var a := v.arrays[i];
    if OnLink(a, now) {
      LinkAt(cfg, v.arrays, s, i, if WriteSide(cfg, a) then v.write else v.read, now);
    }
  }

  /** What every service keeps, a round of services keeps. */
  lemma {:induction false} LinkInduction(cfg: Config, keeps: seq<ArrayState> -> bool, v: Service, cursor: nat, n: nat, now: nat)
    requires cursor < |v.arrays| && keeps(v.arrays)
    requires forall w: Service, i: nat :: i < |w.arrays| && keeps(w.arrays) ==> keeps(Serve(cfg, w, i, now).arrays)
    ensures keeps(LinkFrom(cfg, v, cursor, n, now).arrays)
    decreases |v.arrays| - n
  {
    if n < |v.arrays| {
      LinkInduction(cfg, keeps, Serve(cfg, v, Turn(cursor, n, |v.arrays|), now), cursor, n + 1, now);
    }
  }

  lemma LinkFromOk(cfg: Config, v: Service, s: Shared, cursor: nat, now: nat)
    requires cfg.Valid() && AllSound(cfg, v.arrays, s) && TokensOk(v.arrays, s) && cursor < |v.arrays|
    ensures var r := LinkFrom(cfg, v, cursor, 0, now); AllSound(cfg, r.arrays, s) && TokensOk(r.arrays, s)
  {
    ghost var keeps := (arrays: seq<ArrayState>) => AllSound(cfg, arrays, s) && TokensOk(arrays, s);
    forall w: Service, i: nat | i < |w.arrays| && keeps(w.arrays)
      ensures keeps(Serve(cfg, w, i, now).arrays)
    {
      ServeOk(cfg, w, s, i, now);
    }
    LinkInduction(cfg, keeps, v, cursor, 0, now);
  }

  lemma TickOk(cfg: Config, c: Component, now: nat)
    requires ComponentOk(cfg, c)
    ensures ComponentOk(cfg, Tick(cfg, c, now))
  {
    TickFromOk(cfg, c.arrays, c.s, now);
    var r := TickFrom(cfg, c.arrays, c.s, 0, now);
    if r.0 != [] {
      LinkFromOk(cfg, Service(r.0, cfg.linkWidth, if cfg.independent then cfg.linkWidth else 0), r.1, c.cursor % |r.0|, now);
    }
  }

  // ---- arrivals ----

  lemma LandedFrame(cfg: Config, a: ArrayState, u: Cell, v: Cell, r: Command, status: Status)
    requires Landed(cfg, u, v, r, status) && r.token !in LiveTokens(a)
    ensures SameFor(a, u.s, v.s)
  {
    if status == Accepted || status == Guaranteed {
      assert Promised(cfg, u.a, u.s, v.s, r, status);
    }
  }

  lemma LandedTokens(cfg: Config, arrays: seq<ArrayState>, s: Shared, i: nat, v: Cell, r: Command, status: Status)
    requires i < |arrays| && TokensOk(arrays, s) && r.token !in s.tokens
    requires Landed(cfg, Cell(arrays[i], s), v, r, status) && SetsOk(v.s)
    ensures TokensOk(arrays[i := v.a], v.s)
  {
    var next := arrays[i := v.a];
    var added: set<Token> := if status == Accepted || status == Guaranteed then {r.token} else {};
    assert LiveTokens(v.a) == LiveTokens(arrays[i]) + added;
    assert v.s.tokens == s.tokens + added;
    forall t | t in v.s.tokens
      ensures exists k :: 0 <= k < |next| && t in LiveTokens(next[k])
    {
      if t in added {
        assert t in LiveTokens(next[i]);
      } else {
        var k :| 0 <= k < |arrays| && t in LiveTokens(arrays[k]);
        assert t in LiveTokens(next[k]);
      }
    }
    forall j, k | 0 <= j < k < |next|
      ensures LiveTokens(next[j]) !! LiveTokens(next[k])
    {
      assert LiveTokens(arrays[j]) !! LiveTokens(arrays[k]);
      assert r.token !in LiveTokens(arrays[j]) && r.token !in LiveTokens(arrays[k]);
    }
  }

  lemma LandedOthers(cfg: Config, arrays: seq<ArrayState>, s: Shared, i: nat, v: Cell, r: Command, status: Status)
    requires i < |arrays| && AllSound(cfg, arrays, s) && TokensOk(arrays, s) && r.token !in s.tokens
    requires Landed(cfg, Cell(arrays[i], s), v, r, status) && Sound(cfg, v)
    ensures AllSound(cfg, arrays[i := v.a], v.s)
  {
    var next := arrays[i := v.a];
    forall k | 0 <= k < |next| ensures Sound(cfg, Cell(next[k], v.s)) {
      if k != i {
        LandedFrame(cfg, arrays[k], Cell(arrays[i], s), v, r, status);
        FrameSound(cfg, arrays[k], s, v.s);
      }
    }
  }

  lemma SubmitOk(cfg: Config, c: Component, r: Command)
    requires ComponentOk(cfg, c)
    ensures ComponentOk(cfg, Submit(cfg, c, r).0)
  {
    if !(r.status != Request || r.target >= |c.arrays| || r.token in c.s.tokens) {
      var u := Cell(c.arrays[r.target], c.s);
      var v := Arrive(cfg, u, r);
      ArriveSound(cfg, u, r);
      LandedTokens(cfg, c.arrays, c.s, r.target, v.0, r, v.1);
      LandedOthers(cfg, c.arrays, c.s, r.target, v.0, r, v.1);
    }
  }

  // ---- whole runs ----

  /** A command arrives, or the clock handler runs at the given cycle. */
  datatype Event = Arrival(request: Command) | Clock(now: nat)

  function Happen(cfg: Config, c: Component, e: Event): Component
    requires cfg.cols > 0
  {
    match e
    case Arrival(r) => Submit(cfg, c, r).0
    case Clock(now) => Tick(cfg, c, now)
  }

  function Play(cfg: Config, c: Component, events: seq<Event>): Component
    requires cfg.cols > 0
    decreases |events|
  {
    if events == [] then c
    else Happen(cfg, Play(cfg, c, events[..|events| - 1]), events[|events| - 1])
  }

  /** The component as some run of `events` from reset leaves it. */
  function Reach(cfg: Config, count: nat, events: seq<Event>): Component
    requires cfg.cols > 0
  {
    Play(cfg, InitialComponent(cfg, count), events)
  }

  lemma InitialSound(cfg: Config)
    requires cfg.Valid()
    ensures Sound(cfg, Cell(InitialArray(cfg), Shared({}, {}, map[])))
  {
    var a := InitialArray(cfg);
    CountZeros(cfg.rows * cfg.cols);
    CountZeros(cfg.cols);
    CellOf(cfg.cols, 0, 0);
    assert Inside(cfg.cols, cfg.rows, cfg.cols, 0);
    assert cfg.rows * cfg.cols > 0;
    assert Slots(cfg, a) == [] && Cmds(a.queue) == [];
  }

  lemma InitialOk(cfg: Config, count: nat)
    requires cfg.Valid()
    ensures ComponentOk(cfg, InitialComponent(cfg, count))
  {
    InitialSound(cfg);
    var c := InitialComponent(cfg, count);
    forall i | 0 <= i < count ensures LiveTokens(c.arrays[i]) == {} {}
  }

  lemma {:induction false} PlayOk(cfg: Config, c: Component, events: seq<Event>)
    requires ComponentOk(cfg, c)
    ensures ComponentOk(cfg, Play(cfg, c, events))
    decreases |events|
  {
    if events != [] {
      var before := Play(cfg, c, events[..|events| - 1]);
      PlayOk(cfg, c, events[..|events| - 1]);
      match events[|events| - 1]
      case Arrival(r) => SubmitOk(cfg, before, r);
      case Clock(now) => TickOk(cfg, before, now);
    }
  }

  /** Every state the component can reach satisfies the invariant. */
  lemma Reachable(cfg: Config, count: nat, events: seq<Event>)
    requires cfg.Valid()
    ensures ComponentOk(cfg, Reach(cfg, count, events))
  {
    InitialOk(cfg, count);
    PlayOk(cfg, InitialComponent(cfg, count), events);
  }
}
