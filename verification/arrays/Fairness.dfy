/** The rotating cursor: it counts the cycles, the array at the cursor is served first, and so contention
    delays a transfer by at most the number of arrays. */
module Fairness {
  import opened Options
  import opened Arithmetic
  import opened Commands
  import opened Engine
  import opened Admission
  import opened Invariant
  import opened Runs
  import opened Quiescence
  import opened LinkTiming
  import opened Contention
  import opened Delivery
  import opened ArrayTheorems

  // ---- the cursor counts cycles ----

  /** One further, from the last back to the first. */
  function Advance(cursor: nat, count: nat): (r: nat)
    requires cursor < count
    ensures r < count
  {
    if cursor + 1 == count then 0 else cursor + 1
  }

  lemma AdvanceIsModulo(cursor: nat, count: nat)
    requires cursor < count
    ensures (cursor + 1) % count == Advance(cursor, count) && cursor % count == cursor
  {
    DivisionUnique(cursor, count, 0, cursor);
    if cursor + 1 == count {
      DivisionUnique(cursor + 1, count, 1, 0);
    } else {
      DivisionUnique(cursor + 1, count, 0, cursor + 1);
    }
  }

  lemma TickAdvances(cfg: Config, c: Component, now: nat)
    requires c.cursor < |c.arrays|
    ensures |Tick(cfg, c, now).arrays| == |c.arrays| && Tick(cfg, c, now).cursor == Advance(c.cursor, |c.arrays|)
  {
    AdvanceIsModulo(c.cursor, |c.arrays|);
  }

  lemma SubmitKeepsCursor(cfg: Config, c: Component, r: Command)
    requires cfg.Valid()
    ensures Submit(cfg, c, r).0.cursor == c.cursor && |Submit(cfg, c, r).0.arrays| == |c.arrays|
  {
  }

  /** n steps of the cursor from the first array. */
  function Rotated(n: nat, count: nat): (r: nat)
    requires count > 0
    ensures r < count
  {
    if n == 0 then 0 else Advance(Rotated(n - 1, count), count)
  }

  lemma {:induction false} RotatedIsModulo(n: nat, count: nat)
    requires count > 0
    ensures Rotated(n, count) == n % count
  {
    if n > 0 {
      RotatedIsModulo(n - 1, count);
      var q, m := (n - 1) / count, (n - 1) % count;
      assert n - 1 == q * count + m;
      if m + 1 == count {
        assert n == (q + 1) * count;
        DivisionUnique(n, count, q + 1, 0);
      } else {
        DivisionUnique(n, count, q, m + 1);
      }
    } else {
      DivisionUnique(0, count, 0, 0);
    }
  }

  lemma {:induction false} CursorRotates(cfg: Config, count: nat, events: seq<Event>)
    requires cfg.Valid() && count > 0
    ensures var c := Reach(cfg, count, events); |c.arrays| == count && c.cursor == Rotated(Clocks(events), count)
    decreases |events|
  {
    if events != [] {
      var rest := events[..|events| - 1];
      CursorRotates(cfg, count, rest);
      match events[|events| - 1]
      case Arrival(r) => SubmitKeepsCursor(cfg, Reach(cfg, count, rest), r);
      case Clock(now) => TickAdvances(cfg, Reach(cfg, count, rest), now);
    }
  }

  /** After any run the cursor is the number of cycles so far, modulo the number of arrays. */
  lemma CursorCounts(cfg: Config, count: nat, events: seq<Event>)
    requires cfg.Valid() && count > 0
    ensures Reach(cfg, count, events).cursor == Clocks(events) % count
  {
    CursorRotates(cfg, count, events);
    RotatedIsModulo(Clocks(events), count);
  }

  // ---- the array at the cursor ----

  lemma FirstServed(cfg: Config, arrays: seq<ArrayState>, i: nat, now: nat)
    requires i < |arrays| && OnLink(arrays[i], now)
    ensures |LinkFrom(cfg, LinkBudget(cfg, arrays), i, 0, now).arrays| == |arrays|
    ensures LinkFrom(cfg, LinkBudget(cfg, arrays), i, 0, now).arrays[i] == Linked(arrays[i], cfg.linkWidth, now)
  {
    var v := LinkBudget(cfg, arrays);
    ServeFacts(cfg, v, i, i, cfg.linkWidth, now);
    OneServing(cfg, Serve(cfg, v, i, now), i, 1, 0, cfg.linkWidth, now);
  }

  /** What the link stage gives to array i: at most the width, and all of it when the cursor is there. */
  lemma TurnShare(cfg: Config, arrays: seq<ArrayState>, cursor: nat, i: nat, now: nat) returns (budget: nat)
    requires cursor < |arrays| && i < |arrays| && OneChunk(arrays[i])
    ensures budget <= cfg.linkWidth && |LinkFrom(cfg, LinkBudget(cfg, arrays), cursor, 0, now).arrays| == |arrays|
    ensures LinkFrom(cfg, LinkBudget(cfg, arrays), cursor, 0, now).arrays[i] == Linked(arrays[i], budget, now)
    ensures OnLink(arrays[i], now) && cursor == i ==> budget == cfg.linkWidth
  {
    if OnLink(arrays[i], now) && cursor == i {
      FirstServed(cfg, arrays, i, now);
      budget := cfg.linkWidth;
    } else {
      budget := LinkShare(cfg, arrays, cursor, i, now);
    }
  }

  /** The cycle of the component is, for one array, its own cycle and then at most the link width; the
      whole width when the cursor is at the array. */
  lemma CycleTurn(cfg: Config, c: Component, i: nat, now: nat) returns (t: Shared, budget: nat)
    requires Draining(cfg, c, now) && i < |c.arrays| && c.cursor < |c.arrays|
    ensures Sound(cfg, Cell(c.arrays[i], t)) && budget <= cfg.linkWidth && i < |Tick(cfg, c, now).arrays|
    ensures var b := TickArray(cfg, Cell(c.arrays[i], t), now).a;
            && Tick(cfg, c, now).arrays[i] == Linked(b, budget, now)
            && (OnLink(b, now) && c.cursor == i ==> budget == cfg.linkWidth)
  {
    t := TickFromAt(cfg, c.arrays, c.s, 0, i, now);
    var r := TickFrom(cfg, c.arrays, c.s, 0, now).0;
    TickFromOk(cfg, c.arrays, c.s, now);
    TickFromWork(cfg, c.arrays, c.s, 0, now);
    SoundOneChunk(cfg, r, TickFrom(cfg, c.arrays, c.s, 0, now).1, now);
    AdvanceIsModulo(c.cursor, |r|);
    budget := TurnShare(cfg, r, c.cursor, i, now);
  }

  // ---- one cycle of a contended transfer ----

  lemma {:induction false} PartsMonotone(m: nat, n: nat, w: nat)
    requires w > 0 && m <= n
    ensures Parts(m, w) <= Parts(n, w)
    decreases n
  {
    if n > w && m > w { PartsMonotone(m - w, n - w, w); }
  }

  lemma LinkedLess(cfg: Config, b: ArrayState, e: Entry, budget: nat, now: nat)
    requires Asking(cfg, b, e, now) && budget <= cfg.linkWidth
    ensures Delivery.Moving(cfg, Linked(b, budget, now), e, now + 1)
    ensures Remaining(cfg, Linked(b, budget, now).x) <= Remaining(cfg, b.x)
    ensures budget == cfg.linkWidth ==> Remaining(cfg, Linked(b, budget, now).x) == Remaining(cfg, b.x) - 1
  {
    LinkedMoving(cfg, b, e, budget, now);
    LinkChunksOne(b.x.chunks, budget, now);
    var d := Linked(b, budget, now);
    PartsMonotone(d.x.chunks[0].bytes - d.x.chunks[0].linked, b.x.chunks[0].bytes - b.x.chunks[0].linked, cfg.linkWidth);
  }

  lemma AskingIsOnLink(cfg: Config, b: ArrayState, e: Entry, now: nat)
    requires Asking(cfg, b, e, now)
    ensures OnLink(b, now)
  {
  }

  /** After a cycle that leaves the transfer wanting service it is no further away, and closer in its turn. */
  ghost predicate Nearer(cfg: Config, d: ArrayState, e: Entry, was: nat, turn: bool, now: nat) {
    Delivery.Moving(cfg, d, e, now) && Remaining(cfg, d.x) <= was && (turn ==> Remaining(cfg, d.x) < was)
  }

  lemma ServedNearer(cfg: Config, b: ArrayState, e: Entry, budget: nat, turn: bool, now: nat)
    requires Asking(cfg, b, e, now) && budget <= cfg.linkWidth && (turn ==> budget == cfg.linkWidth)
    ensures Nearer(cfg, Linked(b, budget, now), e, Remaining(cfg, b.x), turn, now + 1)
  {
    LinkedLess(cfg, b, e, budget, now);
  }

  lemma StartNearer(cfg: Config, c: Component, i: nat, e: Entry, now: nat)
    requires Draining(cfg, c, now) && Starts(cfg, c, i, e, now) && c.cursor < |c.arrays|
    ensures Nearer(cfg, Tick(cfg, c, now).arrays[i], e, Cycles(cfg, 4 * e.cmd.elementCount), c.cursor == i, now + 1)
  {
    var t, budget := CycleTurn(cfg, c, i, now);
    var b := TickArray(cfg, Cell(c.arrays[i], t), now).a;
    ArrayStarts(cfg, Cell(c.arrays[i], t), e, now);
    AskingIsOnLink(cfg, b, e, now);
    ServedNearer(cfg, b, e, budget, c.cursor == i, now);
  }

  lemma MoveNearer(cfg: Config, c: Component, i: nat, e: Entry, now: nat)
    requires Draining(cfg, c, now) && i < |c.arrays| && c.cursor < |c.arrays|
    requires Delivery.Moving(cfg, c.arrays[i], e, now) && Remaining(cfg, c.arrays[i].x) > 0
    ensures i < |Tick(cfg, c, now).arrays|
    ensures Nearer(cfg, Tick(cfg, c, now).arrays[i], e, Remaining(cfg, c.arrays[i].x), c.cursor == i, now + 1)
  {
    var t, budget := CycleTurn(cfg, c, i, now);
    var b := TickArray(cfg, Cell(c.arrays[i], t), now).a;
    ArrayMoves(cfg, Cell(c.arrays[i], t), e, now);
    AskingIsOnLink(cfg, b, e, now);
    ServedNearer(cfg, b, e, budget, c.cursor == i, now);
  }

  // ---- how long contention can last ----

  /** Cycles until the cursor is at array i. */
  function Distance(cursor: nat, i: nat, count: nat): nat
    requires cursor < count && i < count
  {
    if cursor <= i then i - cursor else i + count - cursor
  }

  lemma DistanceNext(cursor: nat, i: nat, count: nat)
    requires cursor < count && i < count
    ensures Distance(cursor, i, count) < count && (Distance(cursor, i, count) == 0 <==> cursor == i)
    ensures Distance(Advance(cursor, count), i, count) == if cursor == i then count - 1 else Distance(cursor, i, count) - 1
  {
  }

  /** n times the number of arrays, one after another. */
  function Rounds(n: nat, count: nat): nat {
    if n == 0 then 0 else Rounds(n - 1, count) + count
  }

  lemma {:induction false} RoundsIs(n: nat, count: nat)
    ensures Rounds(n, count) == n * count
  {
    if n > 0 {
      RoundsIs(n - 1, count);
      assert n * count == (n - 1) * count + count;
    }
  }

  lemma {:induction false} RoundsMonotone(m: nat, n: nat, count: nat)
    requires m <= n
    ensures Rounds(m, count) <= Rounds(n, count)
  {
    if m < n { RoundsMonotone(m, n - 1, count); }
  }

  /** A bound on the cycles until all bytes have crossed: the way of the cursor to the array, and a round for
      each further full service. */
  function Wait(remaining: nat, distance: nat, count: nat): nat {
    if remaining == 0 then 0 else distance + Rounds(remaining - 1, count) + 1
  }

  lemma WaitShrinks(was: nat, now: nat, cursor: nat, i: nat, count: nat)
    requires cursor < count && i < count && was > 0 && now <= was && (cursor == i ==> now < was)
    ensures Wait(now, Distance(Advance(cursor, count), i, count), count) < Wait(was, Distance(cursor, i, count), count)
  {
    DistanceNext(cursor, i, count);
    if now > 0 {
      RoundsMonotone(now - 1, was - 1, count);
      if cursor == i { RoundsMonotone(now, was - 1, count); }
    }
  }

  lemma WaitBound(remaining: nat, cursor: nat, i: nat, count: nat)
    requires cursor < count && i < count
    ensures Wait(remaining, Distance(cursor, i, count), count) <= Rounds(remaining, count)
  {
    DistanceNext(cursor, i, count);
  }

  // ---- runs ----

  /** n cycles after the first one, with the cursor on its way: moving, and near enough. */
  ghost predicate NearEnough(cfg: Config, c: Component, i: nat, e: Entry, n: nat, limit: nat, now: nat) {
    && i < |c.arrays| && c.cursor < |c.arrays| && Delivery.Moving(cfg, c.arrays[i], e, now)
    && n + Wait(Remaining(cfg, c.arrays[i].x), Distance(c.cursor, i, |c.arrays|), |c.arrays|) < limit
  }

  lemma StartsNear(cfg: Config, c: Component, i: nat, e: Entry, now: nat)
    requires Draining(cfg, c, now) && Starts(cfg, c, i, e, now) && c.cursor < |c.arrays|
    ensures NearEnough(cfg, Tick(cfg, c, now), i, e, 0, Rounds(Cycles(cfg, 4 * e.cmd.elementCount), |c.arrays|), now + 1)
  {
    var was, count := Cycles(cfg, 4 * e.cmd.elementCount), |c.arrays|;
    CyclesPositive(cfg, 4 * e.cmd.elementCount);
    TickAdvances(cfg, c, now);
    StartNearer(cfg, c, i, e, now);
    WaitShrinks(was, Remaining(cfg, Tick(cfg, c, now).arrays[i].x), c.cursor, i, count);
    WaitBound(was, c.cursor, i, count);
  }

  lemma TurnNear(cfg: Config, c: Component, i: nat, e: Entry, n: nat, limit: nat, now: nat)
    requires Draining(cfg, c, now) && NearEnough(cfg, c, i, e, n, limit, now) && Remaining(cfg, c.arrays[i].x) > 0
    ensures NearEnough(cfg, Tick(cfg, c, now), i, e, n + 1, limit, now + 1)
  {
    TickAdvances(cfg, c, now);
    MoveNearer(cfg, c, i, e, now);
    WaitShrinks(Remaining(cfg, c.arrays[i].x), Remaining(cfg, Tick(cfg, c, now).arrays[i].x), c.cursor, i, |c.arrays|);
  }

  lemma ClockNear(cfg: Config, c: Component, i: nat, e: Entry, n: nat, limit: nat, now: nat)
    requires Draining(cfg, c, now) && NearEnough(cfg, c, i, e, n, limit, now)
    ensures i < |Tick(cfg, c, now).arrays|
    ensures Delivery.Delivered(Tick(cfg, c, now).arrays[i], e) || NearEnough(cfg, Tick(cfg, c, now), i, e, n + 1, limit, now + 1)
  {
    if Remaining(cfg, c.arrays[i].x) == 0 {
      LastCycle(cfg, c, i, e, now);
    } else {
      TurnNear(cfg, c, i, e, n, limit, now);
    }
  }

  lemma ArrivalNear(cfg: Config, c: Component, r: Command, i: nat, e: Entry, n: nat, limit: nat, now: nat)
    requires cfg.Valid() && NearEnough(cfg, c, i, e, n, limit, now)
    ensures NearEnough(cfg, Submit(cfg, c, r).0, i, e, n, limit, now)
  {
    ArrivalLeaves(cfg, c, r, i);
    SubmitKeepsCursor(cfg, c, r);
  }

  lemma NearLater(cfg: Config, c: Component, i: nat, e: Entry, n: nat, limit: nat, now: nat, later: nat)
    requires NearEnough(cfg, c, i, e, n, limit, now) && now <= later
    ensures NearEnough(cfg, c, i, e, n, limit, later)
  {
  }

  /** Delivered, within the limit. */
  ghost predicate InTime(cfg: Config, count: nat, before: seq<Event>, later: seq<Event>, i: nat, e: Entry, limit: nat) {
    && cfg.Valid() && Clocks(later) <= limit && i < |Reach(cfg, count, before + later).arrays|
    && Delivery.Delivered(Reach(cfg, count, before + later).arrays[i], e)
  }

  /** Delivered after the first p later events, or near enough after all of them. */
  ghost predicate Outcome(cfg: Config, count: nat, before: seq<Event>, later: seq<Event>, i: nat, e: Entry, limit: nat, end: nat, p: nat) {
    && cfg.Valid() && p <= |later|
    && (InTime(cfg, count, before, later[..p], i, e, limit)
        || (p == |later| && NearEnough(cfg, Reach(cfg, count, before + later), i, e, Clocks(later), limit, end)))
  }

  /** What one event does. */
  lemma EventNear(cfg: Config, c: Component, ev: Event, i: nat, e: Entry, n: nat, limit: nat, t: nat, end: nat)
    requires Draining(cfg, c, t) && (if ev.Clock? then ev.now == t < end else t == end) && NearEnough(cfg, c, i, e, n, limit, t)
    ensures i < |Happen(cfg, c, ev).arrays|
    ensures Delivery.Delivered(Happen(cfg, c, ev).arrays[i], e)
         || NearEnough(cfg, Happen(cfg, c, ev), i, e, n + if ev.Clock? then 1 else 0, limit, end)
    ensures n < limit
  {
    match ev
    case Arrival(r) => ArrivalNear(cfg, c, r, i, e, n, limit, t);
    case Clock(s) =>
      ClockNear(cfg, c, i, e, n, limit, t);
      if !Delivery.Delivered(Tick(cfg, c, t).arrays[i], e) { NearLater(cfg, Tick(cfg, c, t), i, e, n + 1, limit, t + 1, end); }
  }

  lemma ClocksNext(rest: seq<Event>, ev: Event)
    ensures Clocks(rest + [ev]) == Clocks(rest) + if ev.Clock? then 1 else 0
  {
    assert (rest + [ev])[..|rest|] == rest;
  }

  lemma AllEvents(cfg: Config, count: nat, before: seq<Event>, later: seq<Event>, i: nat, e: Entry, limit: nat, end: nat,
                  n: nat, d: Component)
    requires cfg.Valid() && d == Reach(cfg, count, before + later) && n == Clocks(later) && n <= limit
    requires i < |d.arrays| && (Delivery.Delivered(d.arrays[i], e) || NearEnough(cfg, d, i, e, n, limit, end))
    ensures Outcome(cfg, count, before, later, i, e, limit, end, |later|)
  {
    assert later[..|later|] == later;
  }

  /** The same once the state before and the number of cycles so far are known. */
  lemma EventOutcome(cfg: Config, count: nat, before: seq<Event>, later: seq<Event>, c: Component, ev: Event, i: nat, e: Entry,
                     n: nat, limit: nat, t: nat, end: nat)
    requires Draining(cfg, c, t) && (if ev.Clock? then ev.now == t < end else t == end) && NearEnough(cfg, c, i, e, n, limit, t)
    requires cfg.Valid() && Reach(cfg, count, before + later) == Happen(cfg, c, ev)
    requires Clocks(later) == n + if ev.Clock? then 1 else 0
    ensures Outcome(cfg, count, before, later, i, e, limit, end, |later|)
  {
    EventNear(cfg, c, ev, i, e, n, limit, t, end);
    AllEvents(cfg, count, before, later, i, e, limit, end, Clocks(later), Happen(cfg, c, ev));
  }

  lemma AfterOne(cfg: Config, count: nat, before: seq<Event>, rest: seq<Event>, ev: Event)
    requires cfg.Valid()
    ensures Reach(cfg, count, before + (rest + [ev])) == Happen(cfg, Reach(cfg, count, before + rest), ev)
  {
    ReachNext(cfg, count, before + rest, ev);
    assert before + (rest + [ev]) == before + rest + [ev];
  }

  lemma NextNear(cfg: Config, count: nat, before: seq<Event>, rest: seq<Event>, ev: Event, i: nat, e: Entry, limit: nat,
                 t: nat, end: nat) returns (p: nat)
    requires cfg.Valid() && Chronological(before + rest, t) && (if ev.Clock? then ev.now == t < end else t == end)
    requires NearEnough(cfg, Reach(cfg, count, before + rest), i, e, Clocks(rest), limit, t)
    ensures Outcome(cfg, count, before, rest + [ev], i, e, limit, end, p)
  {
    p := |rest + [ev]|;
    RunDraining(cfg, count, before + rest, t);
    AfterOne(cfg, count, before, rest, ev);
    ClocksNext(rest, ev);
    EventOutcome(cfg, count, before, rest + [ev], Reach(cfg, count, before + rest), ev, i, e, Clocks(rest), limit, t, end);
  }

  lemma OutcomeNext(cfg: Config, count: nat, before: seq<Event>, rest: seq<Event>, ev: Event, i: nat, e: Entry, limit: nat,
                    t: nat, end: nat, q: nat) returns (p: nat)
    requires Chronological(before + rest, t) && (if ev.Clock? then ev.now == t < end else t == end)
    requires Outcome(cfg, count, before, rest, i, e, limit, t, q)
    ensures Outcome(cfg, count, before, rest + [ev], i, e, limit, end, p)
  {
    if InTime(cfg, count, before, rest[..q], i, e, limit) {
      p := q;
      assert (rest + [ev])[..p] == rest[..p];
    } else {
      p := NextNear(cfg, count, before, rest, ev, i, e, limit, t, end);
    }
  }

  lemma ChronologyBefore(events: seq<Event>, ev: Event, end: nat) returns (t: nat)
    requires Chronological(events + [ev], end)
    ensures Chronological(events, t) && (if ev.Clock? then ev.now == t < end else t == end)
  {
    t := if ev.Clock? then ev.now else end;
    assert (events + [ev])[..|events|] == events;
  }

  lemma {:induction false} Contended(cfg: Config, count: nat, before: seq<Event>, later: seq<Event>, i: nat, e: Entry, limit: nat,
                                     now: nat, end: nat) returns (p: nat)
    requires cfg.Valid() && Chronological(before + later, end) && NearEnough(cfg, Reach(cfg, count, before), i, e, 0, limit, now)
    requires forall t: nat :: Chronological(before, t) ==> now <= t
    ensures Outcome(cfg, count, before, later, i, e, limit, end, p)
    decreases |later|
  {
    if later == [] {
      p := 0;
      assert before + later == before;
      NearLater(cfg, Reach(cfg, count, before), i, e, 0, limit, now, end);
    } else {
      var rest, ev := later[..|later| - 1], later[|later| - 1];
      assert before + later == before + rest + [ev];
      var t := ChronologyBefore(before + rest, ev, end);
      var q := Contended(cfg, count, before, rest, i, e, limit, now, t);
      p := OutcomeNext(cfg, count, before, rest, ev, i, e, limit, t, end, q);
      assert later == rest + [ev];
    }
  }

  lemma AfterClock(events: seq<Event>, now: nat)
    ensures forall t: nat :: Chronological(events + [Clock(now)], t) ==> now + 1 <= t
  {
  }

  /** Contention is fair: whatever the other arrays transfer and whatever arrives, a transfer that needs
      n link cycles alone is delivered at the latest n times the number of arrays cycles after its first. */
  lemma ContentionIsFair(cfg: Config, count: nat, events: seq<Event>, i: nat, e: Entry, now: nat, later: seq<Event>, end: nat)
    returns (p: nat)
    requires FirstOf(cfg, count, events, i, e, now) && Chronological(events + [Clock(now)] + later, end)
    requires Clocks(later) >= Cycles(cfg, 4 * e.cmd.elementCount) * count
    ensures p <= |later| && Clocks(later[..p]) <= Cycles(cfg, 4 * e.cmd.elementCount) * count
    ensures var d := Reach(cfg, count, events + [Clock(now)] + later[..p]); i < |d.arrays| && Delivery.Delivered(d.arrays[i], e)
  {
    var c := Reach(cfg, count, events);
    CountKept(cfg, InitialComponent(cfg, count), events);
    CursorRotates(cfg, count, events);
    RunDraining(cfg, count, events, now);
    StartsNear(cfg, c, i, e, now);
    OneMoreClock(cfg, count, events, now);
    AfterClock(events, now);
    RoundsIs(Cycles(cfg, 4 * e.cmd.elementCount), count);
    p := Contended(cfg, count, events + [Clock(now)], later, i, e, Rounds(Cycles(cfg, 4 * e.cmd.elementCount), count), now + 1, end);
  }
}
