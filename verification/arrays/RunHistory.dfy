/** The replies of every run, said of the accepted commands alone: which were done, which result each
    Store read, and the bytes it carries. */
module RunHistory {
  import opened Options
  import opened Vectors
  import opened Commands
  import opened Engine
  import opened Admission
  import opened Serial
  import opened Invariant
  import opened Promises
  import opened Cycle
  import opened Arrivals
  import opened Runs
  import opened History
  import opened Explained
  import opened ArrayTheorems

  // ---- accepted commands are legal in every run ----

  ghost predicate AllLegal(cfg: Config, arrays: seq<ArrayState>)
    requires cfg.Valid()
  {
    forall i :: 0 <= i < |arrays| ==> LegalLog(cfg, arrays[i].log)
  }

  lemma LegalMore(cfg: Config, log: seq<Command>, r: Command)
    requires cfg.Valid() && LegalLog(cfg, log)
    requires r.operation != Configure ==> Legal(cfg, Final(cfg, log).rows, Final(cfg, log).cols, r)
    ensures LegalLog(cfg, log + [r])
  {
    var more := log + [r];
    forall k | 0 <= k < |more| && more[k].operation != Configure
      ensures Legal(cfg, Final(cfg, more[..k]).rows, Final(cfg, more[..k]).cols, more[k])
    {
      assert more[..k] == log[..k];
      if k == |log| { assert log[..k] == log; }
    }
  }

  lemma ArriveLegal(cfg: Config, u: Cell, r: Command)
    requires Sound(cfg, u) && SetsOk(u.s) && r.token !in u.s.tokens && LegalLog(cfg, u.a.log)
    ensures LegalLog(cfg, Arrive(cfg, u, r).0.a.log)
  {
    ArriveSound(cfg, u, r);
    if Arrive(cfg, u, r).0.a.log != u.a.log {
      FinalShape(cfg, u);
      if r.operation != Configure { AdmittedLegal(cfg, u.a, r); }
      LegalMore(cfg, u.a.log, r);
    }
  }

  ghost predicate LegalToo(cfg: Config, arrays: seq<ArrayState>, s: Shared) {
    cfg.Valid() && AllSound(cfg, arrays, s) && TokensOk(arrays, s) && AllLegal(cfg, arrays)
  }

  lemma LogKept(cfg: Config, u: Cell, now: nat)
    requires Sound(cfg, u)
    ensures TickArray(cfg, u, now).a.log == u.a.log
  {
    TickArraySound(cfg, u, now);
  }

  lemma LegalStill(cfg: Config, arrays: seq<ArrayState>, k: nat, a: ArrayState)
    requires cfg.Valid() && AllLegal(cfg, arrays) && k < |arrays| && a.log == arrays[k].log
    ensures AllLegal(cfg, arrays[k := a])
  {
  }

  lemma OneLegal(cfg: Config, b: seq<ArrayState>, t: Shared, k: nat, now: nat)
    requires LegalToo(cfg, b, t) && k < |b|
    ensures LegalToo(cfg, b[k := TickArray(cfg, Cell(b[k], t), now).a], TickArray(cfg, Cell(b[k], t), now).s)
  {
    TickOne(cfg, b, t, k, now);
    LogKept(cfg, Cell(b[k], t), now);
    LegalStill(cfg, b, k, TickArray(cfg, Cell(b[k], t), now).a);
  }

  ghost function LegalOf(cfg: Config): (seq<ArrayState>, Shared) -> bool {
    (b: seq<ArrayState>, t: Shared) => LegalToo(cfg, b, t)
  }

  lemma TickLegal(cfg: Config, arrays: seq<ArrayState>, s: Shared, now: nat)
    requires LegalToo(cfg, arrays, s)
    ensures LegalToo(cfg, TickFrom(cfg, arrays, s, 0, now).0, TickFrom(cfg, arrays, s, 0, now).1)
  {
    forall b: seq<ArrayState>, t: Shared, k: nat | k < |b| && LegalOf(cfg)(b, t)
      ensures LegalOf(cfg)(b[k := TickArray(cfg, Cell(b[k], t), now).a], TickArray(cfg, Cell(b[k], t), now).s)
    {
      OneLegal(cfg, b, t, k, now);
    }
    TickInduction(cfg, LegalOf(cfg), arrays, s, 0, now);
  }

  lemma LinkLegal(cfg: Config, v: Service, cursor: nat, now: nat)
    requires cfg.Valid() && AllLegal(cfg, v.arrays) && cursor < |v.arrays|
    ensures AllLegal(cfg, LinkFrom(cfg, v, cursor, 0, now).arrays)
  {
    ghost var keeps := (arrays: seq<ArrayState>) => AllLegal(cfg, arrays);
    LinkInduction(cfg, keeps, v, cursor, 0, now);
  }

  lemma ClockLegal(cfg: Config, c: Component, now: nat)
    requires ComponentOk(cfg, c) && AllLegal(cfg, c.arrays)
    ensures AllLegal(cfg, Tick(cfg, c, now).arrays)
  {
    TickLegal(cfg, c.arrays, c.s, now);
    var r := TickFrom(cfg, c.arrays, c.s, 0, now);
    if r.0 != [] {
      LinkLegal(cfg, Service(r.0, cfg.linkWidth, if cfg.independent then cfg.linkWidth else 0), c.cursor % |r.0|, now);
    }
  }

  lemma ArrivalLegal(cfg: Config, c: Component, r: Command)
    requires ComponentOk(cfg, c) && AllLegal(cfg, c.arrays)
    ensures AllLegal(cfg, Submit(cfg, c, r).0.arrays)
  {
    if !(r.status != Request || r.target >= |c.arrays| || r.token in c.s.tokens) {
      ArriveLegal(cfg, Cell(c.arrays[r.target], c.s), r);
    }
  }

  lemma {:induction false} RunLegal(cfg: Config, count: nat, events: seq<Event>)
    requires cfg.Valid()
    ensures AllLegal(cfg, Reach(cfg, count, events).arrays)
    decreases |events|
  {
    if events != [] {
      var before := events[..|events| - 1];
      RunLegal(cfg, count, before);
      Reachable(cfg, count, before);
      match events[|events| - 1]
      case Arrival(r) => ArrivalLegal(cfg, Reach(cfg, count, before), r);
      case Clock(now) => ClockLegal(cfg, Reach(cfg, count, before), now);
    }
  }

  // ---- what the replies say ----

  /** A terminal reply says whether its command was done, and carries what the Store read. */
  ghost predicate Told(cfg: Config, h: History, r: Reply) {
    var id := r.request.id;
    && h.Shaped() && id < |h.log| && h.log[id] == r.request.cmd
    && (r.status == Complete ==> h.done[id])
    && (r.status == Error ==> !h.done[id])
    && (r.status == Guaranteed || r.status == Started ==> h.done[id])
    && (r.status == Complete && r.request.cmd.Moves(Store) ==> Carries(cfg, h, r.request.cmd, h.source[id], r.payload))
    && (Terminal(r.status) && !(r.status == Complete && r.request.cmd.Moves(Store)) ==> r.payload == [])
  }

  lemma ReplyTold(cfg: Config, a: ArrayState, r: Reply)
    requires cfg.Valid() && LegalLog(cfg, a.log) && ReplyOk(cfg, a, r)
    ensures Told(cfg, HistoryOf(cfg, a.log), r)
  {
    Tells(cfg, a.log, r.request.id);
  }

  /** In every run the commands that an array accepted have a true history, and every reply tells it: a
      command completes exactly when it could be done, and a Store carries the little-endian words of dot
      products of the weights and inputs last given before the Execute that it had to read. */
  lemma RepliesTellHistory(cfg: Config, count: nat, events: seq<Event>, i: nat) returns (h: History)
    requires Ran(cfg, count, events, i)
    ensures h.log == State(cfg, count, events, i).log && True(cfg, h)
    ensures forall k :: 0 <= k < |State(cfg, count, events, i).sent| ==> Told(cfg, h, State(cfg, count, events, i).sent[k])
  {
    var a := State(cfg, count, events, i);
    StateSound(cfg, count, events, i);
    CountKept(cfg, InitialComponent(cfg, count), events);
    RunLegal(cfg, count, events);
    assert LegalLog(cfg, a.log);
    h := HistoryOf(cfg, a.log);
    HistoryIsTrue(cfg, a.log);
    forall k | 0 <= k < |a.sent| ensures Told(cfg, h, a.sent[k]) {
      ReplyTold(cfg, a, a.sent[k]);
    }
  }
}
