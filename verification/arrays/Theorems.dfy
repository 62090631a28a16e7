/** What every run of the component guarantees to its clients. */
module ArrayTheorems {
  import opened Options
  import opened Arithmetic
  import opened Vectors
  import opened Commands
  import opened Engine
  import opened Serial
  import opened Invariant
  import opened Runs
  import Completion

  /** The array `i` of some run, for any parameters, number of arrays and interleaving of events. */
  ghost predicate Ran(cfg: Config, count: nat, events: seq<Event>, i: nat) {
    cfg.Valid() && i < count
  }

  lemma {:induction false} CountKept(cfg: Config, c: Component, events: seq<Event>)
    requires cfg.Valid()
    ensures |Play(cfg, c, events).arrays| == |c.arrays|
    decreases |events|
  {
    if events != [] {
      CountKept(cfg, c, events[..|events| - 1]);
    }
  }

  ghost function State(cfg: Config, count: nat, events: seq<Event>, i: nat): ArrayState
    requires Ran(cfg, count, events, i)
  {
    CountKept(cfg, InitialComponent(cfg, count), events);
    Reach(cfg, count, events).arrays[i]
  }

  lemma StateSound(cfg: Config, count: nat, events: seq<Event>, i: nat)
    requires Ran(cfg, count, events, i)
    ensures Sound(cfg, Cell(State(cfg, count, events, i), Reach(cfg, count, events).s))
  {
    CountKept(cfg, InitialComponent(cfg, count), events);
    Reachable(cfg, count, events);
  }

  /** No runtime check of the component ever fails: a guaranteed Store keeps its projected result and
      starts on it, a guaranteed command neither fails nor is refused, a command completes with no live
      chunk, a compute starts into a free slot and finds it again, and input is captured only once
      every byte has been consumed. */
  lemma NoCheckFails(cfg: Config, count: nat, events: seq<Event>, i: nat)
    requires Ran(cfg, count, events, i)
    ensures !State(cfg, count, events, i).fault
  {
    StateSound(cfg, count, events, i);
  }

  /** Status and payload of every terminal reply are those of the in-order interpreter run on the
      accepted commands, however Stores, transfers and computes overlapped. */
  lemma RepliesAreSerial(cfg: Config, count: nat, events: seq<Event>, i: nat, k: nat)
    requires Ran(cfg, count, events, i) && k < |State(cfg, count, events, i).sent|
    ensures var a := State(cfg, count, events, i); var r := a.sent[k];
            && r.request.id < |a.log| && a.log[r.request.id] == r.request.cmd
            && (r.status == Complete ==>
                  Verdict(cfg, a.log, r.request.id).Done? && Verdict(cfg, a.log, r.request.id).payload == r.payload)
            && (r.status == Error ==> Verdict(cfg, a.log, r.request.id) == Failed && r.payload == [])
  {
    StateSound(cfg, count, events, i);
    var a := State(cfg, count, events, i);
    assert ReplyOk(cfg, a, a.sent[k]);
  }

  /** A command answered Guaranteed, or an Execute answered Started, never ends in Error. */
  lemma PromisesAreKept(cfg: Config, count: nat, events: seq<Event>, i: nat, j: nat, k: nat)
    requires Ran(cfg, count, events, i)
    requires var a := State(cfg, count, events, i);
             && j < |a.sent| && k < |a.sent| && a.sent[j].request.id == a.sent[k].request.id
             && (a.sent[j].status == Guaranteed || a.sent[j].status == Started)
    ensures State(cfg, count, events, i).sent[k].status != Error
  {
    StateSound(cfg, count, events, i);
    var a := State(cfg, count, events, i);
    assert ReplyOk(cfg, a, a.sent[j]) && ReplyOk(cfg, a, a.sent[k]);
  }

  /** Every accepted command has exactly one terminal reply once it is no longer live, and none before. */
  lemma AnsweredExactlyOnce(cfg: Config, count: nat, events: seq<Event>, i: nat, n: nat)
    requires Ran(cfg, count, events, i) && n < |State(cfg, count, events, i).log|
    ensures var a := State(cfg, count, events, i);
            && (n in LiveIds(a) <==> !Answered(a, n))
            && forall j: nat, k: nat :: AnsweredAt(a, n, j) && AnsweredAt(a, n, k) ==> j == k
  {
    StateSound(cfg, count, events, i);
    TraceOnce(cfg, State(cfg, count, events, i), n);
  }

  lemma TraceOnce(cfg: Config, a: ArrayState, n: nat)
    requires cfg.Valid() && TraceOk(cfg, a) && n < |a.log|
    ensures n in LiveIds(a) <==> !Answered(a, n)
    ensures forall j: nat, k: nat :: AnsweredAt(a, n, j) && AnsweredAt(a, n, k) ==> j == k
  {
    if Answered(a, n) {
      var k: nat :| AnsweredAt(a, n, k);
      assert ReplyOk(cfg, a, a.sent[k]);
    }
  }

  /** The token set of the component holds exactly the tokens of commands waiting, transferring or
      computing, and no two arrays have a live token in common. */
  lemma TokensAreLive(cfg: Config, count: nat, events: seq<Event>)
    requires cfg.Valid()
    ensures forall t :: t in Reach(cfg, count, events).s.tokens <==>
              exists i: nat :: Ran(cfg, count, events, i) && t in LiveTokens(State(cfg, count, events, i))
    ensures forall i: nat, j: nat :: Ran(cfg, count, events, i) && Ran(cfg, count, events, j) && i != j ==>
              LiveTokens(State(cfg, count, events, i)) !! LiveTokens(State(cfg, count, events, j))
  {
    CountKept(cfg, InitialComponent(cfg, count), events);
    Reachable(cfg, count, events);
    var arrays := Reach(cfg, count, events).arrays;
    forall t | t in Reach(cfg, count, events).s.tokens
      ensures exists i: nat :: Ran(cfg, count, events, i) && t in LiveTokens(State(cfg, count, events, i))
    {
      var i :| 0 <= i < |arrays| && t in LiveTokens(arrays[i]);
      assert Ran(cfg, count, events, i) && t in LiveTokens(State(cfg, count, events, i));
    }
    forall i: nat, t | Ran(cfg, count, events, i) && t in LiveTokens(State(cfg, count, events, i))
      ensures t in Reach(cfg, count, events).s.tokens
    {
      assert t in LiveTokens(arrays[i]);
    }
    forall i: nat, j: nat | Ran(cfg, count, events, i) && Ran(cfg, count, events, j) && i != j
      ensures LiveTokens(State(cfg, count, events, i)) !! LiveTokens(State(cfg, count, events, j))
    {
      assert i < j ==> LiveTokens(arrays[i]) !! LiveTokens(arrays[j]);
      assert j < i ==> LiveTokens(arrays[j]) !! LiveTokens(arrays[i]);
    }
  }

  /** Chunked transfer is a plain copy in progress: issued bytes are complete or buffered, at most one
      chunk is live, what has arrived is a prefix of the payload, and it is all of it at the end. */
  lemma TransferIsCopy(cfg: Config, count: nat, events: seq<Event>, i: nat)
    requires Ran(cfg, count, events, i)
    ensures var a := State(cfg, count, events, i);
            && |a.x.chunks| <= 1
            && (a.active.Some? ==>
                  && a.x.complete + a.x.buffered == a.x.issued <= a.x.total
                  && 0 <= a.x.complete && 0 <= a.x.buffered <= cfg.inflightBytes
                  && (a.active.value.cmd.Input() ==>
                        && a.x.total == |a.active.value.cmd.payload| == |a.x.bytes|
                        && a.x.bytes[..a.x.complete] == a.active.value.cmd.payload[..a.x.complete]
                        && (a.x.complete == a.x.total ==> a.x.bytes == a.active.value.cmd.payload && a.x.chunks == [])))
  {
    StateSound(cfg, count, events, i);
    var a := State(cfg, count, events, i);
    if a.active.Some? && a.active.value.cmd.Input() && a.x.complete == a.x.total {
      Completion.ReceivedAll(cfg, a);
    }
  }

  /** The coverage counter reaches activeRows * activeCols exactly when every active cell has been
      received; in the initial scope the delay has then been charged once in the epoch, otherwise not. */
  lemma CoverageIsExact(cfg: Config, count: nat, events: seq<Event>, i: nat)
    requires Ran(cfg, count, events, i)
    ensures var a := State(cfg, count, events, i);
            && Contained(a.mem.weightInitialized, cfg.cols, a.activeRows, a.activeCols)
            && (a.mem.initializedWeights == a.activeRows * a.activeCols
                <==> Covered(a.mem.weightInitialized, cfg.cols, a.activeRows, a.activeCols))
            && (cfg.initialProgram ==>
                  && (a.mem.initialProgramClosed <==> a.mem.initializedWeights == a.activeRows * a.activeCols)
                  && a.mem.charges == if a.mem.initialProgramClosed then 1 else 0)
  {
    StateSound(cfg, count, events, i);
    var a := State(cfg, count, events, i);
    Monotone(a.activeRows, cfg.rows, cfg.cols);
    CountCovered(a.mem.weightInitialized, cfg.cols, a.activeRows, a.activeCols);
  }
}
