/** Weights over whole runs: while an array has an unread result, whatever happens to the component, its
    weights are those that were resident when the result's compute started. */
module Resident {
  import opened Commands
  import opened Engine
  import opened Admission
  import opened Invariant
  import opened Runs
  import opened Quiescence
  import opened LinkTiming
  import opened Contention
  import opened Held

  /** The array has a result slot in use, before and after each of the later events. */
  ghost predicate Pending(cfg: Config, count: nat, before: seq<Event>, later: seq<Event>, i: nat)
    requires cfg.Valid()
  {
    forall k :: 0 <= k <= |later| ==>
      i < |Reach(cfg, count, before + later[..k]).arrays| && Reach(cfg, count, before + later[..k]).arrays[i].results != []
  }

  lemma ArrivalHolds(cfg: Config, c: Component, r: Command, i: nat)
    requires cfg.Valid() && i < |c.arrays| && c.arrays[i].results != []
    ensures i < |Submit(cfg, c, r).0.arrays| && Submit(cfg, c, r).0.arrays[i].mem == c.arrays[i].mem
  {
  }

  lemma ClockHolds(cfg: Config, c: Component, i: nat, now: nat)
    requires Draining(cfg, c, now) && cfg.pipeline && i < |c.arrays| && c.arrays[i].results != []
    ensures i < |Tick(cfg, c, now).arrays| && Tick(cfg, c, now).arrays[i].mem.weights == c.arrays[i].mem.weights
  {
    var t, budget := CycleShare(cfg, c, i, now);
    CycleHolds(cfg, Cell(c.arrays[i], t), now);
  }

  lemma EventHolds(cfg: Config, count: nat, events: seq<Event>, ev: Event, i: nat, end: nat)
    requires cfg.Valid() && cfg.pipeline && Chronological(events + [ev], end)
    requires i < |Reach(cfg, count, events).arrays| && Reach(cfg, count, events).arrays[i].results != []
    ensures var c := Reach(cfg, count, events + [ev]);
            i < |c.arrays| && c.arrays[i].mem.weights == Reach(cfg, count, events).arrays[i].mem.weights
  {
    assert (events + [ev])[..|events|] == events;
    var c := Reach(cfg, count, events);
    match ev
    case Arrival(r) => ArrivalHolds(cfg, c, r, i);
    case Clock(t) =>
      Reachable(cfg, count, events);
      ReachTime(cfg, count, events, t);
      ClockHolds(cfg, c, i, t);
  }

  lemma ChronologicalBefore(events: seq<Event>, ev: Event, end: nat)
    requires Chronological(events + [ev], end)
    ensures Chronological(events, if ev.Clock? then ev.now else end)
  {
    assert (events + [ev])[..|events|] == events;
  }

  /** From the start of a compute until its result has been read, no cycle and no arrival changes a
      weight of the array. */
  lemma {:induction false} WeightsAreHeld(cfg: Config, count: nat, before: seq<Event>, later: seq<Event>, i: nat, end: nat)
    requires cfg.Valid() && cfg.pipeline && Chronological(before + later, end) && Pending(cfg, count, before, later, i)
    ensures i < |Reach(cfg, count, before).arrays| && i < |Reach(cfg, count, before + later).arrays|
    ensures Reach(cfg, count, before + later).arrays[i].mem.weights == Reach(cfg, count, before).arrays[i].mem.weights
    decreases |later|
  {
    assert before + later[..0] == before;
    if later == [] {
      assert before + later == before;
    } else {
      var rest, ev := later[..|later| - 1], later[|later| - 1];
      assert before + later == before + rest + [ev];
      assert forall k :: 0 <= k <= |rest| ==> rest[..k] == later[..k];
      ChronologicalBefore(before + rest, ev, end);
      WeightsAreHeld(cfg, count, before, rest, i, if ev.Clock? then ev.now else end);
      assert rest == later[..|later| - 1];
      EventHolds(cfg, count, before + rest, ev, i, end);
    }
  }
}
