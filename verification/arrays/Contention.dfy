/** What one cycle of the component does to one transfer, however the others contend for the link. */
module Contention {
  import opened Commands
  import opened Engine
  import opened Invariant
  import opened Runs
  import opened Quiescence
  import opened LinkTiming

  /** What the link stage may do to one array: nothing, or serve it once from at most w bytes. */
  ghost predicate ServedOnce(a: ArrayState, b: ArrayState, w: nat, now: nat) {
    b == a || exists budget: nat {:trigger Linked(a, budget, now)} :: budget <= w && b == Linked(a, budget, now)
  }

  lemma ServeFacts(cfg: Config, v: Service, k: nat, j: nat, w: nat, now: nat)
    requires k < |v.arrays| && j < |v.arrays| && v.read <= w && v.write <= w
    ensures var r := Serve(cfg, v, k, now);
            && r.read <= w && r.write <= w && (j != k ==> r.arrays[j] == v.arrays[j]) && ServedOnce(v.arrays[k], r.arrays[k], w, now)
  {
    var a := v.arrays[k];
    if OnLink(a, now) {
      var budget := if WriteSide(cfg, a) then v.write else v.read;
      assert Serve(cfg, v, k, now).arrays[k] == Linked(a, budget, now);
    }
  }

  /** In one link stage an array is served at most once. */
  lemma {:induction false} OneServing(cfg: Config, v: Service, cursor: nat, n: nat, m: nat, w: nat, now: nat)
    requires cursor < |v.arrays| && n <= |v.arrays| && m < |v.arrays| && v.read <= w && v.write <= w
    ensures var i := Turn(cursor, m, |v.arrays|); var r := LinkFrom(cfg, v, cursor, n, now).arrays;
            |r| == |v.arrays| && (if n > m then r[i] == v.arrays[i] else ServedOnce(v.arrays[i], r[i], w, now))
    decreases |v.arrays| - n
  {
    if n < |v.arrays| {
      var k, i := Turn(cursor, n, |v.arrays|), Turn(cursor, m, |v.arrays|);
      assert k == i <==> n == m;
      ServeFacts(cfg, v, k, i, w, now);
      OneServing(cfg, Serve(cfg, v, k, now), cursor, n + 1, m, w, now);
    }
  }

  /** No other array has a transfer on the link when the link stage of the cycle begins. */
  ghost predicate AloneIn(cfg: Config, c: Component, i: nat, now: nat) {
    Alone(TickFrom(cfg, c.arrays, c.s, 0, now).0, i, now)
  }

  lemma NoBudget(a: ArrayState, now: nat)
    requires OneChunk(a)
    ensures Linked(a, 0, now) == a
  {
    LinkChunksOne(a.x.chunks, 0, now);
  }

  lemma LinkShare(cfg: Config, arrays: seq<ArrayState>, cursor: nat, i: nat, now: nat) returns (budget: nat)
    requires cursor < |arrays| && i < |arrays| && OneChunk(arrays[i])
    ensures budget <= cfg.linkWidth && |LinkFrom(cfg, LinkBudget(cfg, arrays), cursor, 0, now).arrays| == |arrays|
    ensures LinkFrom(cfg, LinkBudget(cfg, arrays), cursor, 0, now).arrays[i] == Linked(arrays[i], budget, now)
    ensures OnLink(arrays[i], now) && Alone(arrays, i, now) ==> budget == cfg.linkWidth
  {
    var b := LinkFrom(cfg, LinkBudget(cfg, arrays), cursor, 0, now).arrays;
    if OnLink(arrays[i], now) && Alone(arrays, i, now) {
      AloneGetsWidth(cfg, arrays, cursor, i, now);
      budget := cfg.linkWidth;
    } else {
      var m := TurnReaches(cursor, i, |arrays|);
      OneServing(cfg, LinkBudget(cfg, arrays), cursor, 0, m, cfg.linkWidth, now);
      budget := 0;
      NoBudget(arrays[i], now);
      if b[i] != arrays[i] {
        var share: nat :| share <= cfg.linkWidth && b[i] == Linked(arrays[i], share, now);
        budget := share;
      }
    }
  }

  /** The cycle of the component is, for one array, its own cycle and then at most the link width; the
      whole width when no other array has a transfer on the link. */
  lemma CycleShare(cfg: Config, c: Component, i: nat, now: nat) returns (t: Shared, budget: nat)
    requires Draining(cfg, c, now) && i < |c.arrays|
    ensures Sound(cfg, Cell(c.arrays[i], t)) && budget <= cfg.linkWidth && i < |Tick(cfg, c, now).arrays|
    ensures var b := TickArray(cfg, Cell(c.arrays[i], t), now).a;
            && OneChunk(b) && Tick(cfg, c, now).arrays[i] == Linked(b, budget, now)
            && (OnLink(b, now) && AloneIn(cfg, c, i, now) ==> budget == cfg.linkWidth)
  {
    t := TickFromAt(cfg, c.arrays, c.s, 0, i, now);
    var r := TickFrom(cfg, c.arrays, c.s, 0, now).0;
    TickFromOk(cfg, c.arrays, c.s, now);
    TickFromWork(cfg, c.arrays, c.s, 0, now);
    SoundOneChunk(cfg, r, TickFrom(cfg, c.arrays, c.s, 0, now).1, now);
    budget := LinkShare(cfg, r, c.cursor % |r|, i, now);
  }

  /** A transfer whose bytes are still moving. */
  ghost predicate OnTheWay(cfg: Config, c: Component, i: nat, now: nat) {
    && Draining(cfg, c, now) && i < |c.arrays| && InTransit(cfg, c.arrays[i], now) && Remaining(cfg, c.arrays[i].x) > 0
  }

  lemma SameGain(a: ArrayState, b: ArrayState, budget: nat, now: nat)
    requires b.x == a.x
    ensures Arrived(Linked(b, budget, now)) == Arrived(Linked(a, budget, now)) && Arrived(b) == Arrived(a)
  {
  }

  /** In one cycle of the component a transfer gains at most the link width. */
  lemma CycleGain(cfg: Config, c: Component, i: nat, now: nat)
    requires OnTheWay(cfg, c, i, now)
    ensures i < |Tick(cfg, c, now).arrays|
    ensures Arrived(Tick(cfg, c, now).arrays[i]) <= Arrived(c.arrays[i]) + cfg.linkWidth
  {
    var a := c.arrays[i];
    var t, budget := CycleShare(cfg, c, i, now);
    TickMoves(cfg, Cell(a, t), now);
    GainIsBounded(cfg, a, budget, now);
    SameGain(Move(cfg, a, now), TickArray(cfg, Cell(a, t), now).a, budget, now);
  }
}
