/** The replies about one command, in order: it is accepted, reports on its way that its input has been
    captured or its compute has started, and ends once. */
module Protocol {
  import opened Options
  import opened Vectors
  import opened Commands
  import opened Engine
  import opened Admission
  import opened Invariant
  import opened Books
  import opened Stepping
  import opened Starting
  import opened Cycle
  import opened Arrivals
  import opened Runs
  import opened ArrayTheorems

  /** The statuses of the replies about the n-th accepted command. */
  function Statuses(sent: seq<Reply>, n: nat): seq<Status> {
    if sent == [] then []
    else
      var before := Statuses(sent[..|sent| - 1], n);
      if sent[|sent| - 1].request.id == n then before + [sent[|sent| - 1].status] else before
  }

  lemma OneReplyMore(sent: seq<Reply>, r: Reply, n: nat)
    ensures Statuses(sent + [r], n) == if r.request.id == n then Statuses(sent, n) + [r.status] else Statuses(sent, n)
  {
    assert (sent + [r])[..|sent|] == sent;
  }

  /** A deferred Program or Load reports that its input has been captured. */
  predicate Captures(c: Command) {
    c.deferred && (c.operation == Program || c.operation == Load)
  }

  ghost predicate Opens(c: Command, s: seq<Status>) {
    s == [Accepted] || (c.deferred && s == [Guaranteed])
  }

  /** On its way: captured or not. */
  ghost predicate OnItsWay(c: Command, captured: bool, s: seq<Status>) {
    if captured then Captures(c) && |s| == 2 && Opens(c, s[..1]) && s[1] == Captured else Opens(c, s)
  }

  ghost predicate IsComputing(c: Command, s: seq<Status>) {
    c.operation == Execute && |s| == 2 && Opens(c, s[..1]) && s[1] == Started
  }

  /** Ended: in Error at once, or completed after what it had to report. */
  ghost predicate Ended(cfg: Config, c: Command, s: seq<Status>) {
    && |s| >= 2 && Opens(c, s[..1])
    && (s[1..] == [Error]
        || s[1..] == (if Captures(c) then [Captured, Complete]
                      else if cfg.pipeline && c.operation == Execute then [Started, Complete] else [Complete]))
  }

  predicate Waits(a: ArrayState, n: nat) {
    exists k :: 0 <= k < |a.queue| && a.queue[k].id == n
  }

  predicate Moves(a: ArrayState, n: nat) {
    a.active.Some? && a.active.value.id == n
  }

  predicate Computes(a: ArrayState, n: nat) {
    a.compute.entry.Some? && a.compute.entry.value.id == n
  }

  /** The replies so far are those of the place where the command is. */
  ghost predicate StageOk(cfg: Config, a: ArrayState, n: nat) {
    n < |a.log| ==>
      var c, s := a.log[n], Statuses(a.sent, n);
      if Waits(a, n) then Opens(c, s)
      else if Moves(a, n) then OnItsWay(c, a.x.inputCaptured, s)
      else if Computes(a, n) then IsComputing(c, s)
      else Ended(cfg, c, s)
  }

  ghost predicate ProtocolOk(cfg: Config, a: ArrayState) {
    forall n: nat :: StageOk(cfg, a, n)
  }

  /** Nothing about any command but the m-th has changed. */
  ghost predicate Elsewhere(a: ArrayState, b: ArrayState, m: nat) {
    && b.log == a.log
    && forall n: nat :: n != m ==> SameStage(a, b, n)
  }

  ghost predicate SameStage(a: ArrayState, b: ArrayState, n: nat) {
    && (Waits(b, n) <==> Waits(a, n)) && (Moves(b, n) <==> Moves(a, n)) && (Computes(b, n) <==> Computes(a, n))
    && (Moves(a, n) ==> b.x.inputCaptured == a.x.inputCaptured)
    && Statuses(b.sent, n) == Statuses(a.sent, n)
  }

  lemma OthersKeep(cfg: Config, a: ArrayState, b: ArrayState, m: nat)
    requires ProtocolOk(cfg, a) && Elsewhere(a, b, m) && StageOk(cfg, b, m)
    ensures ProtocolOk(cfg, b)
  {
    forall n: nat ensures StageOk(cfg, b, n) {
      if n != m { assert StageOk(cfg, a, n) && SameStage(a, b, n); }
    }
  }

  /** Nothing that the protocol depends on has changed. */
  ghost predicate Alike(a: ArrayState, b: ArrayState) {
    && b.log == a.log && b.sent == a.sent && b.queue == a.queue && b.active == a.active
    && b.compute.entry == a.compute.entry && (a.active.Some? ==> b.x.inputCaptured == a.x.inputCaptured)
  }

  lemma AlikeKeeps(cfg: Config, a: ArrayState, b: ArrayState)
    requires ProtocolOk(cfg, a) && Alike(a, b)
    ensures ProtocolOk(cfg, b)
  {
    forall n: nat ensures StageOk(cfg, b, n) {
      assert StageOk(cfg, a, n);
    }
  }

  // ---- one reply ----

  /** b is a after one reply about e, with the same queue. */
  ghost predicate Replied(a: ArrayState, b: ArrayState, e: Entry, status: Status) {
    && b.log == a.log && b.queue == a.queue
    && |b.sent| == |a.sent| + 1 && b.sent[..|a.sent|] == a.sent
    && b.sent[|a.sent|].request == e && b.sent[|a.sent|].status == status
  }

  lemma RepliedStatuses(a: ArrayState, b: ArrayState, e: Entry, status: Status, n: nat)
    requires Replied(a, b, e, status)
    ensures Statuses(b.sent, n) == if n == e.id then Statuses(a.sent, n) + [status] else Statuses(a.sent, n)
  {
    assert b.sent == a.sent + [b.sent[|a.sent|]];
    OneReplyMore(a.sent, b.sent[|a.sent|], n);
  }

  lemma ActiveAlone(a: ArrayState, e: Entry)
    requires Distinct(a) && a.active == Some(e)
    ensures !Waits(a, e.id) && !Computes(a, e.id)
  {
    forall k | 0 <= k < |a.queue| ensures a.queue[k].id != e.id {
      assert Apart(e, a.queue[k]);
    }
  }

  lemma ComputeAlone(a: ArrayState, e: Entry)
    requires Distinct(a) && a.compute.entry == Some(e)
    ensures !Waits(a, e.id) && !Moves(a, e.id)
  {
    forall k | 0 <= k < |a.queue| ensures a.queue[k].id != e.id {
      assert Apart(e, a.queue[k]);
    }
  }

  /** The active command completes. */
  lemma ActiveEnds(cfg: Config, a: ArrayState, b: ArrayState, e: Entry)
    requires ProtocolOk(cfg, a) && Distinct(a) && Logged(a.log, e) && a.active == Some(e)
    requires Replied(a, b, e, Complete) && b.active.None? && b.compute.entry == a.compute.entry
    requires (a.x.inputCaptured <==> Captures(e.cmd)) && !(cfg.pipeline && e.cmd.operation == Execute)
    ensures ProtocolOk(cfg, b)
  {
    ActiveAlone(a, e);
    assert StageOk(cfg, a, e.id);
    forall n: nat | n != e.id ensures SameStage(a, b, n) { RepliedStatuses(a, b, e, Complete, n); }
    RepliedStatuses(a, b, e, Complete, e.id);
    var s := Statuses(a.sent, e.id);
    assert (s + [Complete])[..1] == s[..1] && (s + [Complete])[1..] == s[1..] + [Complete];
    if a.x.inputCaptured { assert s[1..] == [Captured]; } else { assert s[..1] == s; }
    OthersKeep(cfg, a, b, e.id);
  }

  /** The active command reports that its input has been captured. */
  lemma ActiveCaptures(cfg: Config, a: ArrayState, b: ArrayState, e: Entry)
    requires ProtocolOk(cfg, a) && Distinct(a) && Logged(a.log, e) && a.active == Some(e)
    requires Replied(a, b, e, Captured) && b.active == a.active && b.compute.entry == a.compute.entry
    requires !a.x.inputCaptured && b.x.inputCaptured && Captures(e.cmd)
    ensures ProtocolOk(cfg, b)
  {
    ActiveAlone(a, e);
    assert StageOk(cfg, a, e.id);
    forall n: nat | n != e.id ensures SameStage(a, b, n) { RepliedStatuses(a, b, e, Captured, n); }
    RepliedStatuses(a, b, e, Captured, e.id);
    assert (Statuses(a.sent, e.id) + [Captured])[..1] == Statuses(a.sent, e.id);
    OthersKeep(cfg, a, b, e.id);
  }

  /** The compute completes. */
  lemma ComputeCompletes(cfg: Config, a: ArrayState, b: ArrayState, e: Entry)
    requires ProtocolOk(cfg, a) && Distinct(a) && Logged(a.log, e) && a.compute.entry == Some(e) && cfg.pipeline
    requires Replied(a, b, e, Complete) && b.active == a.active && b.x == a.x && b.compute.entry.None?
    ensures ProtocolOk(cfg, b)
  {
    ComputeAlone(a, e);
    assert StageOk(cfg, a, e.id);
    forall n: nat | n != e.id ensures SameStage(a, b, n) { RepliedStatuses(a, b, e, Complete, n); }
    RepliedStatuses(a, b, e, Complete, e.id);
    var s := Statuses(a.sent, e.id);
    assert (s + [Complete])[..1] == s[..1] && (s + [Complete])[1..] == [Started, Complete];
    OthersKeep(cfg, a, b, e.id);
  }

  // ---- leaving the queue ----

  lemma LeavesQueue(a: ArrayState, k: nat, n: nat)
    requires Distinct(a) && k < |a.queue|
    ensures var b := a.(queue := Without(a.queue, k)); Waits(b, n) <==> Waits(a, n) && n != a.queue[k].id
    ensures !Moves(a, a.queue[k].id) && !Computes(a, a.queue[k].id)
  {
    var q := Without(a.queue, k);
    if n != a.queue[k].id && Waits(a, n) {
      var j :| 0 <= j < |a.queue| && a.queue[j].id == n;
      assert q[if j < k then j else j - 1] == a.queue[j];
    }
    forall j | 0 <= j < |q| ensures q[j].id != a.queue[k].id && Waits(a, q[j].id) {
      assert q[j] == a.queue[if j < k then j else j + 1];
      if j < k { assert Apart(a.queue[j], a.queue[k]); } else { assert Apart(a.queue[k], a.queue[j + 1]); }
    }
  }

  /** The k-th queued command goes, after at most one reply. */
  ghost predicate Goes(a: ArrayState, b: ArrayState, k: nat) {
    && k < |a.queue| && b.log == a.log && b.queue == Without(a.queue, k)
    && forall n: nat :: n != a.queue[k].id ==> Statuses(b.sent, n) == Statuses(a.sent, n)
  }

  lemma QueuedStage(cfg: Config, a: ArrayState, k: nat)
    requires ProtocolOk(cfg, a) && k < |a.queue| && Logged(a.log, a.queue[k])
    ensures Opens(a.queue[k].cmd, Statuses(a.sent, a.queue[k].id))
  {
    assert StageOk(cfg, a, a.queue[k].id) && Waits(a, a.queue[k].id);
  }

  lemma GoneElsewhere(a: ArrayState, b: ArrayState, k: nat, n: nat)
    requires Distinct(a) && Goes(a, b, k) && n != a.queue[k].id
    requires (Moves(b, n) <==> Moves(a, n)) && (Computes(b, n) <==> Computes(a, n))
    requires Moves(a, n) ==> b.x.inputCaptured == a.x.inputCaptured
    ensures SameStage(a, b, n)
  {
    LeavesQueue(a, k, n);
  }

  /** It is refused. */
  lemma QueuedRefused(cfg: Config, a: ArrayState, b: ArrayState, k: nat)
    requires ProtocolOk(cfg, a) && Distinct(a) && Goes(a, b, k) && Logged(a.log, a.queue[k])
    requires b.active == a.active && b.compute.entry == a.compute.entry && (a.active.Some? ==> b.x.inputCaptured == a.x.inputCaptured)
    requires Statuses(b.sent, a.queue[k].id) == Statuses(a.sent, a.queue[k].id) + [Error]
    ensures ProtocolOk(cfg, b)
  {
    var e := a.queue[k];
    QueuedStage(cfg, a, k);
    LeavesQueue(a, k, e.id);
    forall n: nat | n != e.id ensures SameStage(a, b, n) { GoneElsewhere(a, b, k, n); }
    assert (Statuses(a.sent, e.id) + [Error])[..1] == Statuses(a.sent, e.id);
    assert (Statuses(a.sent, e.id) + [Error])[1..] == [Error];
    OthersKeep(cfg, a, b, e.id);
  }

  /** It becomes the active command. */
  lemma QueuedBegins(cfg: Config, a: ArrayState, b: ArrayState, k: nat)
    requires ProtocolOk(cfg, a) && Distinct(a) && Goes(a, b, k) && Logged(a.log, a.queue[k]) && a.active.None?
    requires b.active == Some(a.queue[k]) && b.compute.entry == a.compute.entry && !b.x.inputCaptured && b.sent == a.sent
    ensures ProtocolOk(cfg, b)
  {
    var e := a.queue[k];
    QueuedStage(cfg, a, k);
    LeavesQueue(a, k, e.id);
    forall n: nat | n != e.id ensures SameStage(a, b, n) { GoneElsewhere(a, b, k, n); }
    OthersKeep(cfg, a, b, e.id);
  }

  /** It starts to compute. */
  lemma QueuedComputes(cfg: Config, a: ArrayState, b: ArrayState, k: nat)
    requires ProtocolOk(cfg, a) && Distinct(a) && Goes(a, b, k) && Logged(a.log, a.queue[k]) && a.compute.entry.None?
    requires b.active == a.active && b.x == a.x && b.compute.entry == Some(a.queue[k]) && a.queue[k].cmd.operation == Execute
    requires Statuses(b.sent, a.queue[k].id) == Statuses(a.sent, a.queue[k].id) + [Started]
    ensures ProtocolOk(cfg, b)
  {
    var e := a.queue[k];
    QueuedStage(cfg, a, k);
    LeavesQueue(a, k, e.id);
    forall n: nat | n != e.id ensures SameStage(a, b, n) { GoneElsewhere(a, b, k, n); }
    assert (Statuses(a.sent, e.id) + [Started])[..1] == Statuses(a.sent, e.id);
    OthersKeep(cfg, a, b, e.id);
  }

  // ---- the steps of the transfer engine ----

  lemma {:induction false} ReleaseFlags(x: Transfer, pending: seq<Chunk>, kept: seq<Chunk>, write: bool, now: nat)
    ensures Release(x, pending, kept, write, now).inputCaptured == x.inputCaptured
    decreases |pending|
  {
    if pending != [] {
      var c := pending[0];
      if c.linked != c.bytes || c.linkReady > now {
        ReleaseFlags(x, pending[1..], kept + [c], write, now);
      } else {
        ReleaseFlags(x.(bytes := if write then x.bytes else Write(x.bytes, c.offset, c.data),
                        complete := x.complete + c.bytes, buffered := x.buffered - c.bytes),
                     pending[1..], kept, write, now);
      }
    }
  }

  lemma {:induction false} IssueFlags(x: Transfer, source: seq<Byte>, window: nat)
    ensures Issue(x, source, window).inputCaptured == x.inputCaptured
    decreases x.total - x.issued
  {
    if x.issued < x.total && x.buffered < window {
      var n := Min(x.total - x.issued, window - x.buffered);
      IssueFlags(x.(chunks := x.chunks + [Chunk(x.issued, n, 0, 0, Slice(source, x.issued, n))],
                    issued := x.issued + n, buffered := x.buffered + n), source, window);
    }
  }

  lemma MoveAlike(cfg: Config, a: ArrayState, now: nat)
    requires a.active.Some?
    ensures Alike(a, Move(cfg, a, now))
  {
    var write := a.active.value.cmd.operation == Store;
    ReleaseFlags(a.x, a.x.chunks, [], write, now);
    var y := Release(a.x, a.x.chunks, [], write, now);
    IssueFlags(y, if write then y.bytes else a.active.value.cmd.payload, cfg.inflightBytes);
  }

  /** The protocol holds and ids are distinct: what every step needs and keeps. */
  ghost predicate Orderly(cfg: Config, a: ArrayState) {
    && ProtocolOk(cfg, a) && Distinct(a)
    && (forall k :: 0 <= k < |a.queue| ==> Logged(a.log, a.queue[k]))
    && (a.active.Some? ==> Logged(a.log, a.active.value))
    && (a.compute.entry.Some? ==> Logged(a.log, a.compute.entry.value))
  }

  lemma AlikeOrderly(cfg: Config, a: ArrayState, b: ArrayState)
    requires Orderly(cfg, a) && Alike(a, b)
    ensures Orderly(cfg, b)
  {
    AlikeKeeps(cfg, a, b);
  }

  lemma CaptureProtocol(cfg: Config, u: Cell)
    requires Orderly(cfg, u.a) && u.a.active.Some?
    ensures Orderly(cfg, CaptureInput(u).a) && CaptureInput(u).a.active == u.a.active
    ensures CaptureInput(u).a.x.inputCaptured <==> Captures(u.a.active.value.cmd)
  {
    var e, v := u.a.active.value, CaptureInput(u);
    assert StageOk(cfg, u.a, e.id);
    ActiveAlone(u.a, e);
    if v != u {
      assert v.a.sent[..|u.a.sent|] == u.a.sent;
      ActiveCaptures(cfg, u.a, v.a, e);
    }
  }

  lemma CompletionProtocol(cfg: Config, u: Cell, e: Entry)
    requires Orderly(cfg, u.a) && u.a.active == Some(e) && (u.a.x.inputCaptured <==> Captures(e.cmd))
    requires !(cfg.pipeline && e.cmd.operation == Execute)
    ensures Orderly(cfg, CompleteActive(cfg, u, Complete).a)
  {
    var b := CompleteActive(cfg, u, Complete).a;
    assert b.sent[..|u.a.sent|] == u.a.sent;
    ActiveEnds(cfg, u.a, b, e);
  }

  lemma FinishProtocol(cfg: Config, u: Cell, now: nat)
    requires Orderly(cfg, u.a) && u.a.active.Some? && u.a.active.value.cmd.operation != Execute
    ensures Orderly(cfg, Finish(cfg, u, now).a)
  {
    var e, v := u.a.active.value, CaptureInput(u);
    CaptureProtocol(cfg, u);
    if e.cmd.operation == Program {
      var w := if v.a.x.programming then v else v.(a := Receive(cfg, v.a, e.cmd, now));
      AlikeOrderly(cfg, v.a, w.a);
      if w.a.x.ready <= now {
        AlikeOrderly(cfg, w.a, CommitProgram(w.a, e.cmd));
        CompletionProtocol(cfg, w.(a := CommitProgram(w.a, e.cmd)), e);
      }
    } else if e.cmd.operation == Load {
      AlikeOrderly(cfg, v.a, CommitLoad(v.a, e.cmd));
      CompletionProtocol(cfg, v.(a := CommitLoad(v.a, e.cmd)), e);
    } else {
      CompletionProtocol(cfg, v, e);
    }
  }

  lemma ExecuteProtocol(cfg: Config, u: Cell, e: Entry)
    requires Orderly(cfg, u.a) && u.a.active == Some(e) && e.cmd.operation == Execute && !cfg.pipeline
    ensures Orderly(cfg, CompleteActive(cfg, u.(a := CommitExecute(cfg, u.a)), Complete).a)
  {
    var b := CommitExecute(cfg, u.a);
    AlikeOrderly(cfg, u.a, b);
    ActiveAlone(b, e);
    assert StageOk(cfg, b, e.id);
    CompletionProtocol(cfg, u.(a := b), e);
  }

  lemma ProgressProtocol(cfg: Config, u: Cell, now: nat)
    requires Orderly(cfg, u.a) && (cfg.pipeline && u.a.active.Some? ==> u.a.active.value.cmd.operation != Execute)
    ensures Orderly(cfg, Progress(cfg, u, now).a)
  {
    if u.a.active.Some? && u.a.x.ready <= now {
      var e := u.a.active.value;
      if e.cmd.operation == Execute {
        ExecuteProtocol(cfg, u, e);
      } else if u.a.x.total == 0 {
        CaptureProtocol(cfg, u);
        CompletionProtocol(cfg, CaptureInput(u), e);
      } else {
        var m := Move(cfg, u.a, now);
        MoveAlike(cfg, u.a, now);
        AlikeOrderly(cfg, u.a, m);
        FinishProtocol(cfg, u.(a := m), now);
      }
    }
  }

  lemma ComputeProtocol(cfg: Config, u: Cell, now: nat)
    requires Orderly(cfg, u.a) && (u.a.compute.entry.Some? ==> cfg.pipeline)
    ensures Orderly(cfg, ProgressCompute(cfg, u, now).a)
  {
    var b := ProgressCompute(cfg, u, now).a;
    if u.a.compute.entry.Some? && u.a.compute.ready <= now {
      assert b.sent[..|u.a.sent|] == u.a.sent;
      ComputeCompletes(cfg, u.a, b, u.a.compute.entry.value);
    }
  }

  // ---- starting ----

  lemma SentOne(a: ArrayState, b: ArrayState, e: Entry, status: Status, n: nat)
    requires b.sent == a.sent + [Reply(e, status, [])]
    ensures Statuses(b.sent, n) == if n == e.id then Statuses(a.sent, n) + [status] else Statuses(a.sent, n)
  {
    OneReplyMore(a.sent, Reply(e, status, []), n);
  }

  lemma WithoutOrderly(a: ArrayState, b: ArrayState, k: nat)
    requires Distinct(a) && k < |a.queue| && b.queue == Without(a.queue, k)
    requires b.active == a.active || (a.active.None? && b.active == Some(a.queue[k]))
    requires b.compute.entry == a.compute.entry || (a.compute.entry.None? && b.compute.entry == Some(a.queue[k]))
    requires b.active == a.active || b.compute.entry == a.compute.entry
    ensures Distinct(b) && forall j :: 0 <= j < |b.queue| ==> b.queue[j] in a.queue
  {
    var q := b.queue;
    assert forall j :: 0 <= j < |q| ==> q[j] == a.queue[if j < k then j else j + 1];
    forall i, j | 0 <= i < j < |q| ensures Apart(q[i], q[j]) {
      assert Apart(a.queue[if i < k then i else i + 1], a.queue[if j < k then j else j + 1]);
    }
    forall j | 0 <= j < |q| ensures Apart(a.queue[k], q[j]) {
      if j < k { assert Apart(a.queue[j], a.queue[k]); } else { assert Apart(a.queue[k], a.queue[j + 1]); }
    }
  }

  lemma RejectedProtocol(cfg: Config, u: Cell, k: nat)
    requires Orderly(cfg, u.a) && k < |u.a.queue|
    ensures Orderly(cfg, Rejected(u, k).a)
  {
    var e, b := u.a.queue[k], Rejected(u, k).a;
    forall n: nat ensures Statuses(b.sent, n) == if n == e.id then Statuses(u.a.sent, n) + [Error] else Statuses(u.a.sent, n) {
      SentOne(u.a, b, e, Error, n);
    }
    QueuedRefused(cfg, u.a, b, k);
    WithoutOrderly(u.a, b, k);
  }

  lemma BegunProtocol(cfg: Config, u: Cell, k: nat, now: nat)
    requires Orderly(cfg, u.a) && k < |u.a.queue| && u.a.active.None?
    ensures Orderly(cfg, Begun(cfg, u, k, now).a)
  {
    var b := Begun(cfg, u, k, now).a;
    QueuedBegins(cfg, u.a, b, k);
    WithoutOrderly(u.a, b, k);
  }

  lemma ComputingProtocol(cfg: Config, u: Cell, now: nat)
    requires Orderly(cfg, u.a) && u.a.queue != [] && u.a.compute.entry.None? && u.a.queue[0].cmd.operation == Execute
    ensures Orderly(cfg, Computing(cfg, u, now).a)
  {
    var e, b := u.a.queue[0], Computing(cfg, u, now).a;
    forall n: nat ensures Statuses(b.sent, n) == if n == e.id then Statuses(u.a.sent, n) + [Started] else Statuses(u.a.sent, n) {
      SentOne(u.a, b, e, Started, n);
    }
    QueuedComputes(cfg, u.a, b, 0);
    WithoutOrderly(u.a, b, 0);
  }

  /** What an attempt to start finds. */
  ghost predicate Attempting(cfg: Config, u: Cell) {
    Sound(cfg, u) && cfg.pipeline && Orderly(cfg, u.a)
  }

  lemma RefusedAttempt(cfg: Config, u: Cell, now: nat, attempts: nat) returns (v: Cell)
    requires Attempting(cfg, u) && attempts > 0 && Select(u.a).Some? && Refused(cfg, u.a, u.a.queue[Select(u.a).value].cmd)
    ensures Attempting(cfg, v) && StartPipeline(cfg, u, now, attempts) == StartPipeline(cfg, v, now, attempts - 1)
  {
    var k := Select(u.a).value;
    v := Rejected(u, k);
    SelectTakeable(cfg, u);
    RefusedRejects(cfg, u, k);
    RejectSound(cfg, u, k);
    RejectedProtocol(cfg, u, k);
    RejectsNext(cfg, u, now, attempts);
  }

  lemma ComputingAttempt(cfg: Config, u: Cell, now: nat, attempts: nat) returns (v: Cell)
    requires Attempting(cfg, u) && attempts > 0 && Select(u.a).Some?
    requires var c := u.a.queue[Select(u.a).value].cmd; !Refused(cfg, u.a, c) && c.operation == Execute
    ensures Attempting(cfg, v) && StartPipeline(cfg, u, now, attempts) == StartPipeline(cfg, v, now, attempts - 1)
  {
    v := Computing(cfg, u, now);
    ComputesNext(cfg, u, now, attempts);
    ComputeSound(cfg, u, now);
    SelectShape(cfg, u);
    ComputingProtocol(cfg, u, now);
  }

  lemma LastAttempt(cfg: Config, u: Cell, now: nat, attempts: nat)
    requires Attempting(cfg, u) && attempts > 0 && Select(u.a).Some?
    requires var c := u.a.queue[Select(u.a).value].cmd; !Refused(cfg, u.a, c) && c.operation != Execute
    ensures Orderly(cfg, StartPipeline(cfg, u, now, attempts).a)
  {
    var k := Select(u.a).value;
    var c := u.a.queue[k].cmd;
    if !(u.a.active.Some? || (c.Moves(Store) && !u.a.results[0].ready)) {
      BeginsNext(cfg, u, now, attempts);
      BegunProtocol(cfg, u, k, now);
    }
  }

  /** One of up to m attempts ends well, or leads to the next. */
  ghost predicate EndsOrLeads(run: (Cell, nat) -> Cell, good: Cell -> bool, fine: Cell -> bool, v: Cell, m: nat) {
    fine(run(v, m)) || (m > 0 && exists w: Cell :: good(w) && run(v, m) == run(w, m - 1))
  }

  lemma {:induction false} AttemptsEnd(run: (Cell, nat) -> Cell, good: Cell -> bool, fine: Cell -> bool, u: Cell, n: nat)
    requires (forall v: Cell, m: nat :: good(v) ==> EndsOrLeads(run, good, fine, v, m)) && good(u)
    ensures fine(run(u, n))
    decreases n
  {
    assert EndsOrLeads(run, good, fine, u, n);
    if !fine(run(u, n)) {
      var w: Cell :| good(w) && run(u, n) == run(w, n - 1);
      AttemptsEnd(run, good, fine, w, n - 1);
    }
  }

  lemma NextAttempt(cfg: Config, u: Cell, now: nat, attempts: nat) returns (v: Cell, ends: bool)
    requires Attempting(cfg, u)
    ensures if ends then Orderly(cfg, StartPipeline(cfg, u, now, attempts).a)
            else attempts > 0 && Attempting(cfg, v) && StartPipeline(cfg, u, now, attempts) == StartPipeline(cfg, v, now, attempts - 1)
  {
    v, ends := u, true;
    if attempts > 0 && Select(u.a).Some? {
      var c := u.a.queue[Select(u.a).value].cmd;
      if Refused(cfg, u.a, c) {
        ends := false;
        v := RefusedAttempt(cfg, u, now, attempts);
      } else if c.operation == Execute {
        ends := false;
        v := ComputingAttempt(cfg, u, now, attempts);
      } else {
        LastAttempt(cfg, u, now, attempts);
      }
    }
  }

  ghost function AttemptingOf(cfg: Config): Cell -> bool {
    (v: Cell) => Attempting(cfg, v)
  }

  ghost function OrderlyOf(cfg: Config): Cell -> bool {
    (v: Cell) => Orderly(cfg, v.a)
  }

  ghost function StartsOf(cfg: Config, now: nat): (Cell, nat) -> Cell {
    (v: Cell, n: nat) => StartPipeline(cfg, v, now, n)
  }

  /** The functions are those of the attempts. */
  ghost predicate OfAttempts(cfg: Config, now: nat, run: (Cell, nat) -> Cell, good: Cell -> bool, fine: Cell -> bool) {
    && (forall v: Cell :: good(v) <==> Attempting(cfg, v)) && (forall v: Cell :: fine(v) <==> Orderly(cfg, v.a))
    && forall v: Cell, m: nat :: run(v, m) == StartPipeline(cfg, v, now, m)
  }

  lemma NextLeads(cfg: Config, v: Cell, now: nat, m: nat, run: (Cell, nat) -> Cell, good: Cell -> bool, fine: Cell -> bool)
    requires OfAttempts(cfg, now, run, good, fine) && good(v)
    ensures EndsOrLeads(run, good, fine, v, m)
  {
    var w, ends := NextAttempt(cfg, v, now, m);
    if ends { assert fine(run(v, m)); } else { assert good(w) && run(v, m) == run(w, m - 1); }
  }

  lemma AllAttempts(cfg: Config, u: Cell, now: nat, n: nat, run: (Cell, nat) -> Cell, good: Cell -> bool, fine: Cell -> bool)
    requires OfAttempts(cfg, now, run, good, fine) && good(u)
    ensures fine(run(u, n))
  {
    forall v: Cell, m: nat | good(v) ensures EndsOrLeads(run, good, fine, v, m) {
      NextLeads(cfg, v, now, m, run, good, fine);
    }
    AttemptsEnd(run, good, fine, u, n);
  }

  lemma PipelineProtocol(cfg: Config, u: Cell, now: nat, attempts: nat)
    requires Attempting(cfg, u)
    ensures Orderly(cfg, StartPipeline(cfg, u, now, attempts).a)
  {
    AllAttempts(cfg, u, now, attempts, StartsOf(cfg, now), AttemptingOf(cfg), OrderlyOf(cfg));
  }

  lemma StartProtocol(cfg: Config, u: Cell, now: nat)
    requires Orderly(cfg, u.a)
    ensures Orderly(cfg, Start(cfg, u, now).a)
  {
    if u.a.active.None? && u.a.queue != [] {
      var b, e := Start(cfg, u, now).a, u.a.queue[0];
      assert Without(u.a.queue, 0) == u.a.queue[1..];
      if b.active.Some? {
        BegunProtocol(cfg, u, 0, now);
        AlikeOrderly(cfg, Begun(cfg, u, 0, now).a, b);
      } else {
        HeadRefused(cfg, u, b, e);
      }
    }
  }

  lemma HeadRefused(cfg: Config, u: Cell, b: ArrayState, e: Entry)
    requires Orderly(cfg, u.a) && u.a.active.None? && u.a.queue != [] && e == u.a.queue[0]
    requires b.log == u.a.log && b.queue == Without(u.a.queue, 0) && b.active.None? && b.compute.entry == u.a.compute.entry
    requires b.sent == u.a.sent + [Reply(e, Error, [])]
    ensures Orderly(cfg, b)
  {
    forall n: nat ensures Statuses(b.sent, n) == if n == e.id then Statuses(u.a.sent, n) + [Error] else Statuses(u.a.sent, n) {
      SentOne(u.a, b, e, Error, n);
    }
    QueuedRefused(cfg, u.a, b, 0);
    WithoutOrderly(u.a, b, 0);
  }

  // ---- one cycle and one arrival ----

  lemma NoExecuteTransfer(cfg: Config, u: Cell)
    requires Sound(cfg, u)
    ensures cfg.pipeline && u.a.active.Some? ==> u.a.active.value.cmd.operation != Execute
    ensures u.a.compute.entry.Some? ==> cfg.pipeline
  {
  }

  lemma PipelinedProtocol(cfg: Config, u: Cell, now: nat)
    requires Attempting(cfg, u)
    ensures Orderly(cfg, TickArray(cfg, u, now).a)
  {
    var o := ProgressCompute(cfg, u, now);
    NoExecuteTransfer(cfg, u);
    ProgressComputeSound(cfg, u, now);
    ComputeProtocol(cfg, u, now);
    var p := Progress(cfg, o, now);
    NoExecuteTransfer(cfg, o);
    ProgressSound(cfg, o, now);
    ProgressProtocol(cfg, o, now);
    TailProtocol(cfg, p, now);
  }

  lemma TailProtocol(cfg: Config, p: Cell, now: nat)
    requires Attempting(cfg, p)
    ensures var q := StartPipeline(cfg, p, now, QUEUE_ENTRIES);
            Orderly(cfg, ProgressCompute(cfg, if p.a.active.Some? then q else Progress(cfg, q, now), now).a)
  {
    var q := StartPipeline(cfg, p, now, QUEUE_ENTRIES);
    StartPipelineSound(cfg, p, now, QUEUE_ENTRIES);
    PipelineProtocol(cfg, p, now, QUEUE_ENTRIES);
    NoExecuteTransfer(cfg, q);
    ProgressSound(cfg, q, now);
    ProgressProtocol(cfg, q, now);
    var r := if p.a.active.Some? then q else Progress(cfg, q, now);
    NoExecuteTransfer(cfg, r);
    ComputeProtocol(cfg, r, now);
  }

  /** A cycle of an array keeps the protocol. */
  lemma CycleProtocol(cfg: Config, u: Cell, now: nat)
    requires Sound(cfg, u) && Orderly(cfg, u.a)
    ensures Orderly(cfg, TickArray(cfg, u, now).a)
  {
    if cfg.pipeline {
      PipelinedProtocol(cfg, u, now);
    } else {
      StartSound(cfg, u, now);
      StartProtocol(cfg, u, now);
      ProgressProtocol(cfg, Start(cfg, u, now), now);
    }
  }

  // ---- arrivals ----

  lemma NewOnly(cfg: Config, a: ArrayState, b: ArrayState, e: Entry, n: nat)
    requires Orderly(cfg, a) && e.id == |a.log| && b.log == a.log + [e.cmd] && n < |a.log|
    requires b.queue == a.queue || b.queue == a.queue + [e]
    requires b.active == a.active && b.compute.entry == a.compute.entry && (a.active.Some? ==> b.x.inputCaptured == a.x.inputCaptured)
    requires Statuses(b.sent, n) == Statuses(a.sent, n)
    ensures StageOk(cfg, b, n)
  {
    assert StageOk(cfg, a, n);
    if Waits(b, n) {
      var k :| 0 <= k < |b.queue| && b.queue[k].id == n;
      assert k < |a.queue| && a.queue[k] == b.queue[k];
    }
    if Waits(a, n) {
      var k :| 0 <= k < |a.queue| && a.queue[k].id == n;
      assert b.queue[k] == a.queue[k];
    }
  }

  lemma {:induction false} NoneYet(sent: seq<Reply>, n: nat)
    requires forall k :: 0 <= k < |sent| ==> sent[k].request.id != n
    ensures Statuses(sent, n) == []
    decreases |sent|
  {
    if sent != [] { NoneYet(sent[..|sent| - 1], n); }
  }

  lemma QueuedProtocol(cfg: Config, a: ArrayState, b: ArrayState, r: Command, status: Status)
    requires Orderly(cfg, a) && Distinct(b) && Queued(a, b, r, status) && (status == Accepted || (status == Guaranteed && r.deferred))
    requires forall k :: 0 <= k < |a.sent| ==> a.sent[k].request.id < |a.log|
    ensures Orderly(cfg, b)
  {
    var e := Entry(r, |a.log|);
    NoneYet(a.sent, e.id);
    SentOne(a, b, e, status, e.id);
    assert Waits(b, e.id) by { assert b.queue[|a.queue|] == e; }
    forall n: nat ensures StageOk(cfg, b, n) {
      if n < |a.log| {
        SentOne(a, b, e, status, n);
        NewOnly(cfg, a, b, e, n);
      }
    }
  }

  lemma SentTwo(a: ArrayState, b: ArrayState, e: Entry, n: nat)
    requires b.sent == a.sent + [Reply(e, Accepted, [])] + [Reply(e, Complete, [])]
    ensures Statuses(b.sent, n) == if n == e.id then Statuses(a.sent, n) + [Accepted, Complete] else Statuses(a.sent, n)
  {
    OneReplyMore(a.sent, Reply(e, Accepted, []), n);
    OneReplyMore(a.sent + [Reply(e, Accepted, [])], Reply(e, Complete, []), n);
    assert Statuses(a.sent, n) + [Accepted] + [Complete] == Statuses(a.sent, n) + [Accepted, Complete];
  }

  lemma ConfiguredStage(cfg: Config, a: ArrayState, b: ArrayState, e: Entry)
    requires b.log == a.log + [e.cmd] && e.id == |a.log| && e.cmd.operation == Configure && !e.cmd.deferred
    requires b.queue == [] && b.active.None? && b.compute.entry.None? && Statuses(b.sent, e.id) == [Accepted, Complete]
    ensures StageOk(cfg, b, e.id)
  {
    assert [Accepted, Complete][..1] == [Accepted] && [Accepted, Complete][1..] == [Complete];
  }

  lemma ConfiguredProtocol(cfg: Config, a: ArrayState, r: Command)
    requires Orderly(cfg, a) && r.operation == Configure && !r.deferred && Configurable(cfg, a, r)
    requires forall k :: 0 <= k < |a.sent| ==> a.sent[k].request.id < |a.log|
    ensures Orderly(cfg, Configured(cfg, a, r))
  {
    var e, b := Entry(r, |a.log|), Configured(cfg, a, r);
    NoneYet(a.sent, e.id);
    SentTwo(a, b, e, e.id);
    ConfiguredStage(cfg, a, b, e);
    forall n: nat ensures StageOk(cfg, b, n) {
      if n < |a.log| {
        SentTwo(a, b, e, n);
        NewOnly(cfg, a, b, e, n);
      }
    }
  }

  lemma SentLogged(cfg: Config, u: Cell)
    requires Sound(cfg, u)
    ensures forall k :: 0 <= k < |u.a.sent| ==> u.a.sent[k].request.id < |u.a.log|
  {
    forall k | 0 <= k < |u.a.sent| ensures u.a.sent[k].request.id < |u.a.log| {
      assert ReplyOk(cfg, u.a, u.a.sent[k]);
    }
  }

  lemma EnqueuedProtocol(cfg: Config, u: Cell, a: ArrayState, r: Command)
    requires Orderly(cfg, a) && (forall k :: 0 <= k < |a.sent| ==> a.sent[k].request.id < |a.log|)
    requires Distinct(Enqueue(cfg, a, u.s, r).0.a)
    ensures Orderly(cfg, Enqueue(cfg, a, u.s, r).0.a)
  {
    var v := Enqueue(cfg, a, u.s, r);
    QueuedAlike(cfg, a, v.0.a, r, v.1);
  }

  lemma QueuedAlike(cfg: Config, a: ArrayState, b: ArrayState, r: Command, status: Status)
    requires Orderly(cfg, a) && Distinct(b) && (status == Accepted || (status == Guaranteed && r.deferred))
    requires forall k :: 0 <= k < |a.sent| ==> a.sent[k].request.id < |a.log|
    requires b == a.(queue := a.queue + [Entry(r, |a.log|)], log := a.log + [r], fault := b.fault,
                     sent := a.sent + [Reply(Entry(r, |a.log|), status, [])])
    ensures Orderly(cfg, b)
  {
    AlikeOrderly(cfg, a, a.(fault := b.fault));
    QueuedProtocol(cfg, a.(fault := b.fault), b, r, status);
  }

  lemma AdmittedProtocol(cfg: Config, u: Cell, r: Command)
    requires Sound(cfg, u) && Orderly(cfg, u.a) && r.operation != Configure && Admissible(cfg, u.a, r)
    requires Distinct(Arrive(cfg, u, r).0.a) && Occupied(u.a) < QUEUE_ENTRIES
    ensures Orderly(cfg, Arrive(cfg, u, r).0.a)
  {
    var p := Projected(cfg, u.a, r);
    SentLogged(cfg, u);
    ProjectedSound(cfg, u, r);
    AlikeOrderly(cfg, u.a, p.0);
    if p.1 { EnqueuedProtocol(cfg, u, p.0, r); }
  }

  lemma ArriveDistinct(cfg: Config, u: Cell, r: Command)
    requires Sound(cfg, u) && SetsOk(u.s) && r.token !in u.s.tokens
    ensures Distinct(Arrive(cfg, u, r).0.a)
  {
    ArriveSound(cfg, u, r);
  }

  /** An arrival keeps the protocol. */
  lemma ArrivalProtocol(cfg: Config, u: Cell, r: Command)
    requires Sound(cfg, u) && SetsOk(u.s) && r.token !in u.s.tokens && Orderly(cfg, u.a)
    ensures Orderly(cfg, Arrive(cfg, u, r).0.a)
  {
    ArriveDistinct(cfg, u, r);
    SentLogged(cfg, u);
    if r.operation == Configure {
      if !(r.deferred || r.elementCount > 0 || r.payload != [] || !Configurable(cfg, u.a, r)) {
        ConfiguredProtocol(cfg, u.a, r);
      }
    } else if Admissible(cfg, u.a, r) && Occupied(u.a) < QUEUE_ENTRIES {
      AdmittedProtocol(cfg, u, r);
    }
  }

  // ---- runs ----

  ghost predicate AllOrderly(cfg: Config, arrays: seq<ArrayState>, s: Shared) {
    && cfg.Valid() && AllSound(cfg, arrays, s) && TokensOk(arrays, s)
    && forall i :: 0 <= i < |arrays| ==> Orderly(cfg, arrays[i])
  }

  lemma OneOrderly(cfg: Config, b: seq<ArrayState>, t: Shared, k: nat, now: nat)
    requires AllOrderly(cfg, b, t) && k < |b|
    ensures AllOrderly(cfg, b[k := TickArray(cfg, Cell(b[k], t), now).a], TickArray(cfg, Cell(b[k], t), now).s)
  {
    TickOne(cfg, b, t, k, now);
    CycleProtocol(cfg, Cell(b[k], t), now);
  }

  ghost function AllOrderlyOf(cfg: Config): (seq<ArrayState>, Shared) -> bool {
    (b: seq<ArrayState>, t: Shared) => AllOrderly(cfg, b, t)
  }

  lemma TickOrderly(cfg: Config, arrays: seq<ArrayState>, s: Shared, now: nat)
    requires AllOrderly(cfg, arrays, s)
    ensures AllOrderly(cfg, TickFrom(cfg, arrays, s, 0, now).0, TickFrom(cfg, arrays, s, 0, now).1)
  {
    forall b: seq<ArrayState>, t: Shared, k: nat | k < |b| && AllOrderlyOf(cfg)(b, t)
      ensures AllOrderlyOf(cfg)(b[k := TickArray(cfg, Cell(b[k], t), now).a], TickArray(cfg, Cell(b[k], t), now).s)
    {
      OneOrderly(cfg, b, t, k, now);
    }
    TickInduction(cfg, AllOrderlyOf(cfg), arrays, s, 0, now);
  }

  ghost predicate EachOrderly(cfg: Config, arrays: seq<ArrayState>) {
    forall i :: 0 <= i < |arrays| ==> Orderly(cfg, arrays[i])
  }

  lemma ServeOrderly(cfg: Config, w: Service, i: nat, now: nat)
    requires i < |w.arrays| && EachOrderly(cfg, w.arrays)
    ensures EachOrderly(cfg, Serve(cfg, w, i, now).arrays)
  {
    AlikeOrderly(cfg, w.arrays[i], Serve(cfg, w, i, now).arrays[i]);
  }

  lemma LinkOrderly(cfg: Config, v: Service, cursor: nat, now: nat)
    requires EachOrderly(cfg, v.arrays) && cursor < |v.arrays|
    ensures EachOrderly(cfg, LinkFrom(cfg, v, cursor, 0, now).arrays)
  {
    ghost var keeps := (arrays: seq<ArrayState>) => EachOrderly(cfg, arrays);
    forall w: Service, i: nat | i < |w.arrays| && keeps(w.arrays) ensures keeps(Serve(cfg, w, i, now).arrays) {
      ServeOrderly(cfg, w, i, now);
    }
    LinkInduction(cfg, keeps, v, cursor, 0, now);
  }

  lemma ClockOrderly(cfg: Config, c: Component, now: nat)
    requires ComponentOk(cfg, c) && EachOrderly(cfg, c.arrays)
    ensures EachOrderly(cfg, Tick(cfg, c, now).arrays)
  {
    TickOrderly(cfg, c.arrays, c.s, now);
    var r := TickFrom(cfg, c.arrays, c.s, 0, now);
    if r.0 != [] {
      LinkOrderly(cfg, Service(r.0, cfg.linkWidth, if cfg.independent then cfg.linkWidth else 0), c.cursor % |r.0|, now);
    }
  }

  lemma ArrivalOrderly(cfg: Config, c: Component, r: Command)
    requires ComponentOk(cfg, c) && EachOrderly(cfg, c.arrays)
    ensures EachOrderly(cfg, Submit(cfg, c, r).0.arrays)
  {
    if !(r.status != Request || r.target >= |c.arrays| || r.token in c.s.tokens) {
      ArrivalProtocol(cfg, Cell(c.arrays[r.target], c.s), r);
      StillOrderly(cfg, c.arrays, r.target, Arrive(cfg, Cell(c.arrays[r.target], c.s), r).0.a);
    }
  }

  lemma StillOrderly(cfg: Config, arrays: seq<ArrayState>, k: nat, a: ArrayState)
    requires EachOrderly(cfg, arrays) && k < |arrays| && Orderly(cfg, a)
    ensures EachOrderly(cfg, arrays[k := a])
  {
  }

  lemma {:induction false} RunOrderly(cfg: Config, count: nat, events: seq<Event>)
    requires cfg.Valid()
    ensures EachOrderly(cfg, Reach(cfg, count, events).arrays)
    decreases |events|
  {
    if events != [] {
      var before := events[..|events| - 1];
      RunOrderly(cfg, count, before);
      Reachable(cfg, count, before);
      match events[|events| - 1]
      case Arrival(r) => ArrivalOrderly(cfg, Reach(cfg, count, before), r);
      case Clock(now) => ClockOrderly(cfg, Reach(cfg, count, before), now);
    }
  }

  /** The replies about an accepted command: first Accepted or, only when deferred, Guaranteed. Then nothing
      while it waits; Captured once the input of a deferred transfer has been consumed; Started while a
      pipelined Execute computes. At the end Error straight after the first, or Complete after the report of
      its kind, and nothing more. */
  ghost predicate InOrder(cfg: Config, a: ArrayState, n: nat)
    requires n < |a.log|
  {
    var c, s := a.log[n], Statuses(a.sent, n);
    exists first: Status :: first in {Accepted, Guaranteed} && (first == Guaranteed ==> c.deferred) && Continues(cfg, a, n, first)
  }

  ghost predicate Continues(cfg: Config, a: ArrayState, n: nat, first: Status)
    requires n < |a.log|
  {
    var c, s := a.log[n], Statuses(a.sent, n);
    var captures := c.deferred && (c.operation == Program || c.operation == Load);
    if n in LiveIds(a) then
      s == if a.active.Some? && a.active.value.id == n && a.x.inputCaptured then [first, Captured]
           else if a.compute.entry.Some? && a.compute.entry.value.id == n then [first, Started]
           else [first]
    else
      || s == [first, Error]
      || s == if captures then [first, Captured, Complete]
              else if cfg.pipeline && c.operation == Execute then [first, Started, Complete]
              else [first, Complete]
  }

  lemma LiveMeans(a: ArrayState, n: nat)
    ensures n in LiveIds(a) <==> Waits(a, n) || Moves(a, n) || Computes(a, n)
  {
    if Waits(a, n) {
      var k :| 0 <= k < |a.queue| && a.queue[k].id == n;
    }
  }

  lemma InOrderWhen(cfg: Config, a: ArrayState, n: nat)
    requires Orderly(cfg, a) && n < |a.log|
    ensures InOrder(cfg, a, n)
  {
    var s := Statuses(a.sent, n);
    assert StageOk(cfg, a, n);
    LiveMeans(a, n);
    var first := s[0];
    assert s == [first] + s[1..];
    if Waits(a, n) { WaitsAlone(a, n); }
    if Moves(a, n) { ActiveAlone(a, a.active.value); }
    if Computes(a, n) { ComputeAlone(a, a.compute.entry.value); }
    assert Continues(cfg, a, n, first);
  }

  lemma WaitsAlone(a: ArrayState, n: nat)
    requires Distinct(a) && Waits(a, n)
    ensures !Moves(a, n) && !Computes(a, n)
  {
    var k :| 0 <= k < |a.queue| && a.queue[k].id == n;
    LeavesQueue(a, k, n);
  }

  lemma RepliesInOrder(cfg: Config, count: nat, events: seq<Event>, i: nat, n: nat)
    requires Ran(cfg, count, events, i) && n < |State(cfg, count, events, i).log|
    ensures InOrder(cfg, State(cfg, count, events, i), n)
    ensures var a := State(cfg, count, events, i); a.active.Some? && a.x.inputCaptured ==> a.x.complete == a.x.total
  {
    StateSound(cfg, count, events, i);
    CountKept(cfg, InitialComponent(cfg, count), events);
    RunOrderly(cfg, count, events);
    InOrderWhen(cfg, State(cfg, count, events, i), n);
  }
}
