/** Drainage of the whole component: a measure that every cycle lowers until nothing can move. */
module Quiescence {
  import opened Options
  import opened Commands
  import opened Engine
  import opened Admission
  import opened Invariant
  import opened Runs
  import opened Drain
  import ArrayTheorems

  // ---- total work ----

  ghost function Total(cfg: Config, arrays: seq<ArrayState>, now: nat): int {
    if arrays == [] then 0 else Total(cfg, arrays[..|arrays| - 1], now) + Work(cfg, arrays[|arrays| - 1], now)
  }

  lemma {:induction false} TotalUpdate(cfg: Config, arrays: seq<ArrayState>, i: nat, a: ArrayState, now: nat)
    requires i < |arrays|
    ensures Total(cfg, arrays[i := a], now) == Total(cfg, arrays, now) - Work(cfg, arrays[i], now) + Work(cfg, a, now)
    decreases |arrays|
  {
    var n := |arrays| - 1;
    if i == n {
      assert arrays[i := a][..n] == arrays[..n];
    } else {
      assert arrays[i := a][..n] == arrays[..n][i := a];
      TotalUpdate(cfg, arrays[..n], i, a, now);
    }
  }

  ghost predicate AllTimeOk(arrays: seq<ArrayState>, now: nat) {
    forall i :: 0 <= i < |arrays| ==> TimeOk(arrays[i], now)
  }

  lemma {:induction false} TotalNonNegative(cfg: Config, arrays: seq<ArrayState>, now: nat)
    requires cfg.Valid() && forall i :: 0 <= i < |arrays| ==> TransferOk(cfg, arrays[i])
    ensures Total(cfg, arrays, now) >= 0
    decreases |arrays|
  {
    if arrays != [] {
      TotalNonNegative(cfg, arrays[..|arrays| - 1], now);
      WorkNonNegative(cfg, arrays[|arrays| - 1], now);
    }
  }

  // ---- the link ----

  /** What link service may do to an array between two cycles. */
  ghost predicate Serviced(a: ArrayState, b: ArrayState, now: nat) {
    && b == a.(x := a.x.(chunks := b.x.chunks))
    && |b.x.chunks| <= 1
    && (b.x.chunks != [] ==> b.x.chunks[0].linked <= b.x.chunks[0].bytes)
    && TimeOk(b, now + 1)
  }

  ghost predicate OneChunk(a: ArrayState) {
    |a.x.chunks| <= 1 && (a.x.chunks != [] ==> a.x.chunks[0].linked <= a.x.chunks[0].bytes)
  }

  lemma LinkChunksOne(chunks: seq<Chunk>, budget: nat, now: nat)
    requires |chunks| <= 1 && (chunks != [] ==> chunks[0].linked <= chunks[0].bytes)
    ensures var l := LinkChunks(chunks, budget, now);
            if chunks == [] || budget == 0 || chunks[0].linked == chunks[0].bytes then l == (chunks, budget)
            else var n := Min(budget, chunks[0].bytes - chunks[0].linked);
                 l == ([chunks[0].(linked := chunks[0].linked + n, linkReady := now + 1)], budget - n)
  {
    if chunks != [] && budget > 0 {
      assert chunks[1..] == [];
      var n := Min(budget, chunks[0].bytes - chunks[0].linked);
      var left := if chunks[0].linked >= chunks[0].bytes then budget else budget - n;
      assert LinkChunks(chunks[1..], left, now) == ([], left);
      assert [chunks[0]] + [] == chunks;
      var served := chunks[0].(linked := chunks[0].linked + n, linkReady := now + 1);
      assert [served] + [] == [served];
    }
  }

  lemma ServiceWork(cfg: Config, a: ArrayState, budget: nat, now: nat)
    requires OneChunk(a) && TimeOk(a, now + 1) && OnLink(a, now)
    ensures var b := Linked(a, budget, now); var left := LinkChunks(a.x.chunks, budget, now).1;
            && Serviced(a, b, now)
            && ((b == a && left == budget) || Work(cfg, b, now) < Work(cfg, a, now))
            && (Wanting(a, now) && budget > 0 ==> Work(cfg, b, now) < Work(cfg, a, now))
  {
    LinkChunksOne(a.x.chunks, budget, now);
  }

  ghost predicate Linkable(arrays: seq<ArrayState>, now: nat) {
    forall i :: 0 <= i < |arrays| ==> OneChunk(arrays[i]) && TimeOk(arrays[i], now + 1)
  }

  ghost function BudgetOf(cfg: Config, v: Service, a: ArrayState): nat
    requires a.active.Some?
  {
    if WriteSide(cfg, a) then v.write else v.read
  }

  ghost predicate AllServiced(before: seq<ArrayState>, after: seq<ArrayState>, now: nat) {
    |after| == |before|
    && forall k :: 0 <= k < |before| ==> after[k] == before[k] || Serviced(before[k], after[k], now)
  }

  lemma ServeServices(cfg: Config, v: Service, i: nat, now: nat)
    requires i < |v.arrays| && Linkable(v.arrays, now)
    ensures Linkable(Serve(cfg, v, i, now).arrays, now)
    ensures AllServiced(v.arrays, Serve(cfg, v, i, now).arrays, now)
  {
    if OnLink(v.arrays[i], now) {
      ServiceWork(cfg, v.arrays[i], BudgetOf(cfg, v, v.arrays[i]), now);
    }
  }

  lemma ServeWork(cfg: Config, v: Service, i: nat, now: nat)
    requires i < |v.arrays| && Linkable(v.arrays, now)
    ensures var w := Serve(cfg, v, i, now);
            && (w == v || Total(cfg, w.arrays, now) < Total(cfg, v.arrays, now))
            && (Wanting(v.arrays[i], now) && BudgetOf(cfg, v, v.arrays[i]) > 0
                ==> Total(cfg, w.arrays, now) < Total(cfg, v.arrays, now))
  {
    var a := v.arrays[i];
    if OnLink(a, now) {
      var budget := BudgetOf(cfg, v, a);
      ServiceWork(cfg, a, budget, now);
      TotalUpdate(cfg, v.arrays, i, Linked(a, budget, now), now);
    }
  }

  lemma ServicedTrans(a: ArrayState, b: ArrayState, c: ArrayState, now: nat)
    requires b == a || Serviced(a, b, now)
    requires c == b || Serviced(b, c, now)
    ensures c == a || Serviced(a, c, now)
  {
  }

  lemma AllServicedTrans(a: seq<ArrayState>, b: seq<ArrayState>, c: seq<ArrayState>, now: nat)
    requires AllServiced(a, b, now) && AllServiced(b, c, now)
    ensures AllServiced(a, c, now)
  {
    forall k | 0 <= k < |a| ensures c[k] == a[k] || Serviced(a[k], c[k], now) {
      ServicedTrans(a[k], b[k], c[k], now);
    }
  }

  lemma {:induction false} LinkServices(cfg: Config, v: Service, cursor: nat, n: nat, now: nat)
    requires cursor < |v.arrays| && Linkable(v.arrays, now)
    ensures AllServiced(v.arrays, LinkFrom(cfg, v, cursor, n, now).arrays, now)
    decreases |v.arrays| - n
  {
    if n < |v.arrays| {
      var u := Serve(cfg, v, Turn(cursor, n, |v.arrays|), now);
      ServeServices(cfg, v, Turn(cursor, n, |v.arrays|), now);
      LinkServices(cfg, u, cursor, n + 1, now);
      AllServicedTrans(v.arrays, u.arrays, LinkFrom(cfg, v, cursor, n, now).arrays, now);
    }
  }

  /** Link service never adds work. */
  lemma LinkWork(cfg: Config, v: Service, cursor: nat, n: nat, now: nat)
    requires cursor < |v.arrays| && Linkable(v.arrays, now)
    ensures Total(cfg, LinkFrom(cfg, v, cursor, n, now).arrays, now) <= Total(cfg, v.arrays, now)
  {
    var bound := Total(cfg, v.arrays, now);
    ghost var keeps := (b: seq<ArrayState>) => Linkable(b, now) && Total(cfg, b, now) <= bound;
    forall w: Service, i: nat | i < |w.arrays| && keeps(w.arrays)
      ensures keeps(Serve(cfg, w, i, now).arrays)
    {
      ServeServices(cfg, w, i, now);
      ServeWork(cfg, w, i, now);
    }
    LinkInduction(cfg, keeps, v, cursor, n, now);
  }

  /** Serving array i changes something, or it wants service and its direction can pay. */
  ghost predicate Serves(cfg: Config, v: Service, i: nat, now: nat) {
    i < |v.arrays| && (Serve(cfg, v, i, now) != v || (Wanting(v.arrays[i], now) && BudgetOf(cfg, v, v.arrays[i]) > 0))
  }

  lemma ServeTotal(cfg: Config, v: Service, i: nat, now: nat)
    requires Linkable(v.arrays, now) && Serves(cfg, v, i, now)
    ensures var w := Serve(cfg, v, i, now);
            |w.arrays| == |v.arrays| && Linkable(w.arrays, now) && Total(cfg, w.arrays, now) < Total(cfg, v.arrays, now)
  {
    ServeServices(cfg, v, i, now);
    ServeWork(cfg, v, i, now);
  }

  lemma LinkUnfold(cfg: Config, v: Service, cursor: nat, n: nat, now: nat)
    requires cursor < |v.arrays| && n < |v.arrays|
    ensures LinkFrom(cfg, v, cursor, n, now)
            == LinkFrom(cfg, Serve(cfg, v, Turn(cursor, n, |v.arrays|), now), cursor, n + 1, now)
  {
  }

  lemma LinkAfter(cfg: Config, v: Service, w: Service, cursor: nat, n: nat, now: nat)
    requires cursor < |v.arrays| == |w.arrays| && n < |v.arrays| && Linkable(w.arrays, now)
    requires w == Serve(cfg, v, Turn(cursor, n, |v.arrays|), now)
    ensures Total(cfg, LinkFrom(cfg, v, cursor, n, now).arrays, now) <= Total(cfg, w.arrays, now)
  {
    LinkUnfold(cfg, v, cursor, n, now);
    LinkWork(cfg, w, cursor, n + 1, now);
  }

  /** Serving the array at turn n lowers the work, whatever follows. */
  lemma ServedLowers(cfg: Config, v: Service, cursor: nat, n: nat, now: nat)
    requires cursor < |v.arrays| && Linkable(v.arrays, now) && n < |v.arrays|
    requires Serves(cfg, v, Turn(cursor, n, |v.arrays|), now)
    ensures Total(cfg, LinkFrom(cfg, v, cursor, n, now).arrays, now) < Total(cfg, v.arrays, now)
  {
    ServeTotal(cfg, v, Turn(cursor, n, |v.arrays|), now);
    LinkAfter(cfg, v, Serve(cfg, v, Turn(cursor, n, |v.arrays|), now), cursor, n, now);
  }

  /** If an array wants service that its direction can still pay for, somebody is served. */
  lemma {:induction false} LinkServes(cfg: Config, v: Service, cursor: nat, n: nat, m: nat, now: nat)
    requires cursor < |v.arrays| && Linkable(v.arrays, now) && n <= m < |v.arrays|
    requires var a := v.arrays[Turn(cursor, m, |v.arrays|)]; Wanting(a, now) && BudgetOf(cfg, v, a) > 0
    ensures Total(cfg, LinkFrom(cfg, v, cursor, n, now).arrays, now) < Total(cfg, v.arrays, now)
    decreases m - n
  {
    if Serves(cfg, v, Turn(cursor, n, |v.arrays|), now) {
      ServedLowers(cfg, v, cursor, n, now);
    } else {
      LinkUnfold(cfg, v, cursor, n, now);
      LinkServes(cfg, v, cursor, n + 1, m, now);
    }
  }

  lemma TurnReaches(cursor: nat, i: nat, count: nat) returns (m: nat)
    requires cursor < count && i < count
    ensures m < count && Turn(cursor, m, count) == i
  {
    m := if i >= cursor then i - cursor else i + count - cursor;
  }

  // ---- one cycle of the component ----

  /** Everything the cycle of array i needs, and keeps for the arrays after it. */
  ghost predicate Ticking(cfg: Config, arrays: seq<ArrayState>, s: Shared, now: nat) {
    cfg.Valid() && AllSound(cfg, arrays, s) && TokensOk(arrays, s) && AllTimeOk(arrays, now)
  }

  lemma CycleOne(cfg: Config, arrays: seq<ArrayState>, s: Shared, i: nat, now: nat)
    requires Ticking(cfg, arrays, s, now) && i < |arrays|
    ensures var v := TickArray(cfg, Cell(arrays[i], s), now);
            && Ticking(cfg, arrays[i := v.a], v.s, now)
            && Total(cfg, arrays[i := v.a], now) <= Total(cfg, arrays, now)
            && (!SettledArray(cfg, arrays[i]) ==>
                  Total(cfg, arrays[i := v.a], now) < Total(cfg, arrays, now) || Wanting(v.a, now) || Waiting(v.a, now))
  {
    var u := Cell(arrays[i], s);
    var v := TickArray(cfg, u, now);
    ArrayCycle(cfg, u, now);
    TickOne(cfg, arrays, s, i, now);
    TotalUpdate(cfg, arrays, i, v.a, now);
  }

  lemma TickFromWork(cfg: Config, arrays: seq<ArrayState>, s: Shared, i: nat, now: nat)
    requires Ticking(cfg, arrays, s, now)
    ensures AllTimeOk(TickFrom(cfg, arrays, s, i, now).0, now)
    ensures Total(cfg, TickFrom(cfg, arrays, s, i, now).0, now) <= Total(cfg, arrays, now)
  {
    var bound := Total(cfg, arrays, now);
    ghost var keeps := (b: seq<ArrayState>, t: Shared) => Ticking(cfg, b, t, now) && Total(cfg, b, now) <= bound;
    forall b: seq<ArrayState>, t: Shared, k: nat | k < |b| && keeps(b, t)
      ensures keeps(b[k := TickArray(cfg, Cell(b[k], t), now).a], TickArray(cfg, Cell(b[k], t), now).s)
    {
      CycleOne(cfg, b, t, k, now);
    }
    TickInduction(cfg, keeps, arrays, s, i, now);
  }

  /** Less work, or the array wants service or waits. */
  ghost predicate Pressing(cfg: Config, bound: int, after: seq<ArrayState>, k: nat, now: nat) {
    k < |after| && (Total(cfg, after, now) < bound || Wanting(after[k], now) || Waiting(after[k], now))
  }

  /** What the cycles of arrays 0 to i - 1 leave, when array k was unsettled before them. */
  ghost predicate BusySoFar(cfg: Config, bound: int, b: seq<ArrayState>, t: Shared, i: nat, k: nat, now: nat) {
    && Ticking(cfg, b, t, now)
    && Total(cfg, b, now) <= bound
    && k < |b|
    && (if i <= k then !SettledArray(cfg, b[k]) else Pressing(cfg, bound, b, k, now))
  }

  lemma BusyAfter(cfg: Config, bound: int, b: seq<ArrayState>, t: Shared, i: nat, k: nat, v: Cell, now: nat)
    requires i < |b| && BusySoFar(cfg, bound, b, t, i, k, now) && Ticking(cfg, b[i := v.a], v.s, now)
    requires Total(cfg, b[i := v.a], now) <= Total(cfg, b, now)
    requires SettledArray(cfg, b[i]) || Total(cfg, b[i := v.a], now) < Total(cfg, b, now) || Wanting(v.a, now) || Waiting(v.a, now)
    ensures BusySoFar(cfg, bound, b[i := v.a], v.s, i + 1, k, now)
  {
  }

  lemma BusyStep(cfg: Config, bound: int, b: seq<ArrayState>, t: Shared, i: nat, k: nat, now: nat)
    requires i < |b| && BusySoFar(cfg, bound, b, t, i, k, now)
    ensures var v := TickArray(cfg, Cell(b[i], t), now); BusySoFar(cfg, bound, b[i := v.a], v.s, i + 1, k, now)
  {
    var v := TickArray(cfg, Cell(b[i], t), now);
    CycleOne(cfg, b, t, i, now);
    BusyAfter(cfg, bound, b, t, i, k, v, now);
  }

  /** A property of the arrays between the cycles, by the number of arrays that have had theirs. */
  lemma {:induction false} TickPhases(cfg: Config, phase: (seq<ArrayState>, Shared, nat) -> bool,
                                      arrays: seq<ArrayState>, s: Shared, i: nat, now: nat)
    requires i <= |arrays| && phase(arrays, s, i)
    requires forall b: seq<ArrayState>, t: Shared, j: nat :: j < |b| && phase(b, t, j) ==>
               phase(b[j := TickArray(cfg, Cell(b[j], t), now).a], TickArray(cfg, Cell(b[j], t), now).s, j + 1)
    ensures phase(TickFrom(cfg, arrays, s, i, now).0, TickFrom(cfg, arrays, s, i, now).1, |arrays|)
    decreases |arrays| - i
  {
    if i < |arrays| {
      var v := TickArray(cfg, Cell(arrays[i], s), now);
      TickPhases(cfg, phase, arrays[i := v.a], v.s, i + 1, now);
    }
  }

  /** An unsettled array reduces the total work of the cycle, or ends it wanting or waiting. */
  lemma TickFromBusy(cfg: Config, arrays: seq<ArrayState>, s: Shared, k: nat, now: nat)
    requires Ticking(cfg, arrays, s, now) && k < |arrays| && !SettledArray(cfg, arrays[k])
    ensures Pressing(cfg, Total(cfg, arrays, now), TickFrom(cfg, arrays, s, 0, now).0, k, now)
  {
    var bound := Total(cfg, arrays, now);
    ghost var phase := (b: seq<ArrayState>, t: Shared, i: nat) => BusySoFar(cfg, bound, b, t, i, k, now);
    forall b: seq<ArrayState>, t: Shared, j: nat | j < |b| && phase(b, t, j)
      ensures phase(b[j := TickArray(cfg, Cell(b[j], t), now).a], TickArray(cfg, Cell(b[j], t), now).s, j + 1)
    {
      BusyStep(cfg, bound, b, t, j, k, now);
    }
    TickPhases(cfg, phase, arrays, s, 0, now);
  }

  lemma SoundOneChunk(cfg: Config, arrays: seq<ArrayState>, s: Shared, now: nat)
    requires AllSound(cfg, arrays, s) && AllTimeOk(arrays, now)
    ensures Linkable(arrays, now)
  {
    forall i | 0 <= i < |arrays| ensures OneChunk(arrays[i]) && TimeOk(arrays[i], now + 1) {
      assert Sound(cfg, Cell(arrays[i], s));
    }
  }

  ghost predicate Settled(cfg: Config, c: Component) {
    forall i :: 0 <= i < |c.arrays| ==> SettledArray(cfg, c.arrays[i])
  }

  ghost function LinkBudget(cfg: Config, arrays: seq<ArrayState>): Service {
    Service(arrays, cfg.linkWidth, if cfg.independent then cfg.linkWidth else 0)
  }

  /** The link stage and the passage of one cycle. */
  lemma LinkStage(cfg: Config, arrays: seq<ArrayState>, cursor: nat, now: nat)
    requires cfg.Valid() && Linkable(arrays, now) && AllTimeOk(arrays, now) && cursor < |arrays|
    ensures var w := LinkFrom(cfg, LinkBudget(cfg, arrays), cursor, 0, now).arrays;
            && AllTimeOk(w, now + 1)
            && Total(cfg, w, now + 1) <= Total(cfg, arrays, now)
            && ((exists k :: 0 <= k < |arrays| && (Wanting(arrays[k], now) || Waiting(arrays[k], now)))
                ==> Total(cfg, w, now + 1) < Total(cfg, arrays, now))
  {
    var v := LinkBudget(cfg, arrays);
    var w := LinkFrom(cfg, v, cursor, 0, now).arrays;
    LinkWork(cfg, v, cursor, 0, now);
    LinkServices(cfg, v, cursor, 0, now);
    TotalLater(cfg, w, arrays, now);
    if k :| 0 <= k < |arrays| && Wanting(arrays[k], now) {
      var m := TurnReaches(cursor, k, |arrays|);
      LinkServes(cfg, v, cursor, 0, m, now);
    }
  }

  /** Advancing the clock after link service: waits are shortened although fresh chunks are in transit. */
  lemma {:induction false} TotalLater(cfg: Config, after: seq<ArrayState>, before: seq<ArrayState>, now: nat)
    requires AllServiced(before, after, now) && AllTimeOk(before, now)
    ensures AllTimeOk(after, now + 1)
    ensures Total(cfg, after, now + 1) <= Total(cfg, after, now)
    ensures (exists k :: 0 <= k < |before| && Waiting(before[k], now)) ==> Total(cfg, after, now + 1) < Total(cfg, after, now)
    decreases |after|
  {
    if after != [] {
      var n := |after| - 1;
      TotalLater(cfg, after[..n], before[..n], now);
      OneLater(cfg, before[n], after[n], now);
      if k :| 0 <= k < |before| && Waiting(before[k], now) && k != n {
        assert Waiting(before[..n][k], now);
      }
    }
  }

  lemma OneLater(cfg: Config, a: ArrayState, b: ArrayState, now: nat)
    requires (Serviced(a, b, now) || b == a) && TimeOk(a, now)
    ensures TimeOk(b, now + 1) && Work(cfg, b, now + 1) <= Work(cfg, b, now)
    ensures Waiting(a, now) ==> Work(cfg, b, now + 1) < Work(cfg, b, now)
  {
    LaterWork(cfg, b, now);
  }

  lemma LaterWork(cfg: Config, a: ArrayState, now: nat)
    ensures Work(cfg, a, now + 1) <= Work(cfg, a, now)
    ensures Waiting(a, now) ==> Work(cfg, a, now + 1) < Work(cfg, a, now)
  {
  }

  /** Every cycle keeps the measure from growing, and lowers it unless the component is settled. */
  lemma TickLowers(cfg: Config, c: Component, now: nat)
    requires ComponentOk(cfg, c) && AllTimeOk(c.arrays, now)
    ensures var d := Tick(cfg, c, now);
            && AllTimeOk(d.arrays, now + 1)
            && Total(cfg, d.arrays, now + 1) <= Total(cfg, c.arrays, now)
            && (!Settled(cfg, c) ==> Total(cfg, d.arrays, now + 1) < Total(cfg, c.arrays, now))
  {
    var r := TickFrom(cfg, c.arrays, c.s, 0, now);
    TickFromOk(cfg, c.arrays, c.s, now);
    TickFromWork(cfg, c.arrays, c.s, 0, now);
    SoundOneChunk(cfg, r.0, r.1, now);
    if r.0 != [] {
      LinkStage(cfg, r.0, c.cursor % |r.0|, now);
    }
    if !Settled(cfg, c) {
      var k :| 0 <= k < |c.arrays| && !SettledArray(cfg, c.arrays[k]);
      TickFromBusy(cfg, c.arrays, c.s, k, now);
    }
  }

  // ---- draining ----

  /** n steps, the first at time `now`. */
  function Repeat(next: (Component, nat) -> Component, c: Component, now: nat, n: nat): Component
    decreases n
  {
    if n == 0 then c else Repeat(next, next(c, now), now + 1, n - 1)
  }

  function TickOf(cfg: Config): (Component, nat) -> Component {
    (c: Component, now: nat) => Tick(cfg, c, now)
  }

  /** n cycles without a new command. */
  function Ticks(cfg: Config, c: Component, now: nat, n: nat): Component {
    Repeat(TickOf(cfg), c, now, n)
  }

  lemma WorkLeft(cfg: Config, c: Component, now: nat)
    requires ComponentOk(cfg, c)
    ensures Total(cfg, c.arrays, now) >= 0
  {
    AllTransfersOk(cfg, c);
    TotalNonNegative(cfg, c.arrays, now);
  }

  /** The states from which the component drains. */
  ghost predicate Draining(cfg: Config, c: Component, now: nat) {
    ComponentOk(cfg, c) && AllTimeOk(c.arrays, now)
  }

  lemma DrainStep(cfg: Config, c: Component, now: nat)
    requires Draining(cfg, c, now) && !Settled(cfg, c)
    ensures Draining(cfg, Tick(cfg, c, now), now + 1)
    ensures 0 <= Total(cfg, Tick(cfg, c, now).arrays, now + 1) < Total(cfg, c.arrays, now)
  {
    TickOk(cfg, c, now);
    TickLowers(cfg, c, now);
    WorkLeft(cfg, Tick(cfg, c, now), now + 1);
  }

  /** A bounded measure that every cycle lowers until `done` runs out. */
  lemma {:induction false} RunsDown(next: (Component, nat) -> Component, good: (Component, nat) -> bool, measure: (Component, nat) -> int,
                                    done: Component -> bool, c: Component, now: nat) returns (n: nat)
    requires good(c, now)
    requires forall d: Component, t: nat :: good(d, t) ==> measure(d, t) >= 0
    requires forall d: Component, t: nat :: good(d, t) && !done(d) ==>
               good(next(d, t), t + 1) && measure(next(d, t), t + 1) < measure(d, t)
    ensures n <= measure(c, now) && done(Repeat(next, c, now, n)) && good(Repeat(next, c, now, n), now + n)
    decreases measure(c, now)
  {
    n := 0;
    if !done(c) {
      var m := RunsDown(next, good, measure, done, next(c, now), now + 1);
      n := m + 1;
      assert now + n == now + 1 + m;
    }
  }

  /** After at most as many cycles as the measure says, every array is idle or stuck behind a blocked
      Execute. */
  lemma Drains(cfg: Config, c: Component, now: nat) returns (n: nat)
    requires Draining(cfg, c, now)
    ensures n <= Total(cfg, c.arrays, now) && Settled(cfg, Ticks(cfg, c, now, n))
    ensures Draining(cfg, Ticks(cfg, c, now, n), now + n)
  {
    forall d: Component, t: nat | Draining(cfg, d, t) ensures Total(cfg, d.arrays, t) >= 0 {
      WorkLeft(cfg, d, t);
    }
    forall d: Component, t: nat | Draining(cfg, d, t) && !Settled(cfg, d)
      ensures Draining(cfg, Tick(cfg, d, t), t + 1) && Total(cfg, Tick(cfg, d, t).arrays, t + 1) < Total(cfg, d.arrays, t)
    {
      DrainStep(cfg, d, t);
    }
    n := RunsDown(TickOf(cfg), (d: Component, t: nat) => Draining(cfg, d, t),
                  (d: Component, t: nat) => Total(cfg, d.arrays, t), (d: Component) => Settled(cfg, d), c, now);
  }

  lemma AllTransfersOk(cfg: Config, c: Component)
    requires ComponentOk(cfg, c)
    ensures forall i :: 0 <= i < |c.arrays| ==> TransferOk(cfg, c.arrays[i])
  {
    forall i | 0 <= i < |c.arrays| ensures TransferOk(cfg, c.arrays[i]) {
      assert Sound(cfg, Cell(c.arrays[i], c.s));
    }
  }

  // ---- a settled component stays as it is ----

  lemma SettledCycle(cfg: Config, u: Cell, now: nat)
    requires SettledArray(cfg, u.a)
    ensures TickArray(cfg, u, now) == u
  {
    if cfg.pipeline {
      assert Select(u.a).None?;
      assert StartPipeline(cfg, u, now, QUEUE_ENTRIES) == u;
    }
  }

  /** Only a command can move a settled component: nothing in it is waiting for time. */
  lemma SettledStays(cfg: Config, c: Component, now: nat)
    requires Settled(cfg, c)
    ensures Tick(cfg, c, now).arrays == c.arrays && Tick(cfg, c, now).s == c.s
  {
    ghost var same := (b: seq<ArrayState>, t: Shared) => b == c.arrays && t == c.s;
    forall b: seq<ArrayState>, t: Shared, k: nat | k < |b| && same(b, t)
      ensures same(b[k := TickArray(cfg, Cell(b[k], t), now).a], TickArray(cfg, Cell(b[k], t), now).s)
    {
      SettledCycle(cfg, Cell(b[k], t), now);
    }
    TickInduction(cfg, same, c.arrays, c.s, 0, now);
    if c.arrays != [] {
      LinkInduction(cfg, (b: seq<ArrayState>) => b == c.arrays, LinkBudget(cfg, c.arrays), c.cursor % |c.arrays|, 0, now);
    }
  }

  // ---- chronological runs ----

  /** The clock handler has run at increasing times, all before `now`. */
  ghost predicate Chronological(events: seq<Event>, now: nat)
    decreases |events|
  {
    events == []
    || var last := events[|events| - 1];
       if last.Clock? then last.now < now && Chronological(events[..|events| - 1], last.now)
       else Chronological(events[..|events| - 1], now)
  }

  lemma ArriveTime(cfg: Config, u: Cell, r: Command, now: nat)
    requires cfg.cols > 0 && TimeOk(u.a, now)
    ensures TimeOk(Arrive(cfg, u, r).0.a, now)
  {
  }

  lemma LaterTime(arrays: seq<ArrayState>, now: nat, later: nat)
    requires AllTimeOk(arrays, now) && now <= later
    ensures AllTimeOk(arrays, later)
  {
    forall i | 0 <= i < |arrays| ensures TimeOk(arrays[i], later) {
      assert TimeOk(arrays[i], now);
    }
  }

  lemma {:induction false} ReachTime(cfg: Config, count: nat, events: seq<Event>, now: nat)
    requires cfg.Valid() && Chronological(events, now)
    ensures AllTimeOk(Reach(cfg, count, events).arrays, now)
    decreases |events|
  {
    if events != [] {
      var before := events[..|events| - 1];
      var c := Reach(cfg, count, before);
      match events[|events| - 1]
      case Arrival(r) =>
        ReachTime(cfg, count, before, now);
        if r.target < |c.arrays| { ArriveTime(cfg, Cell(c.arrays[r.target], c.s), r, now); }
      case Clock(t) =>
        ReachTime(cfg, count, before, t);
        Reachable(cfg, count, before);
        TickLowers(cfg, c, t);
        LaterTime(Tick(cfg, c, t).arrays, t + 1, now);
    }
  }

  ghost predicate OnlyAnswer(a: ArrayState, n: nat, k: nat) {
    AnsweredAt(a, n, k) && forall j: nat :: AnsweredAt(a, n, j) ==> j == k
  }

  /** The n-th accepted command has exactly one terminal reply. */
  ghost predicate AnsweredOnce(a: ArrayState, n: nat) {
    exists k: nat :: OnlyAnswer(a, n, k)
  }

  /** From any state of a chronological run: with no further command, finitely many cycles bring the
      component to rest. There, an array still holds a command only when its queue head is an Execute
      facing two unread results and no Store is queued; every other accepted command has had exactly
      one terminal reply. */
  lemma RunDrains(cfg: Config, count: nat, events: seq<Event>, now: nat) returns (n: nat)
    requires cfg.Valid() && Chronological(events, now)
    ensures var d := Ticks(cfg, Reach(cfg, count, events), now, n);
            && Settled(cfg, d)
            && Tick(cfg, d, now + n).arrays == d.arrays
            && forall i, id: nat :: 0 <= i < |d.arrays| && id < |d.arrays[i].log| ==>
                 && (d.arrays[i].queue == [] ==> AnsweredOnce(d.arrays[i], id))
                 && (AnsweredOnce(d.arrays[i], id) <==> forall k :: 0 <= k < |d.arrays[i].queue| ==> d.arrays[i].queue[k].id != id)
  {
    Reachable(cfg, count, events);
    ReachTime(cfg, count, events, now);
    n := Drains(cfg, Reach(cfg, count, events), now);
    var d := Ticks(cfg, Reach(cfg, count, events), now, n);
    SettledStays(cfg, d, now + n);
    forall i, id: nat | 0 <= i < |d.arrays| && id < |d.arrays[i].log|
      ensures AnsweredOnce(d.arrays[i], id) <==> forall k :: 0 <= k < |d.arrays[i].queue| ==> d.arrays[i].queue[k].id != id
    {
      SettledAnswers(cfg, Cell(d.arrays[i], d.s), id);
    }
  }

  lemma SettledAnswers(cfg: Config, u: Cell, id: nat)
    requires Sound(cfg, u) && SettledArray(cfg, u.a) && id < |u.a.log|
    ensures AnsweredOnce(u.a, id) <==> forall k :: 0 <= k < |u.a.queue| ==> u.a.queue[k].id != id
  {
    ArrayTheorems.TraceOnce(cfg, u.a, id);
    if Answered(u.a, id) {
      var k: nat :| AnsweredAt(u.a, id, k);
      assert OnlyAnswer(u.a, id, k);
    }
    assert LiveIds(u.a) == set i | 0 <= i < |u.a.queue| :: u.a.queue[i].id;
  }
}
