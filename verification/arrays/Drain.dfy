/** Drainage: with no new commands every cycle makes progress until each array is idle or its queue
    head is an Execute blocked by two unread results with no Store queued. */
module Drain {
  import opened Options
  import opened Vectors
  import opened Commands
  import opened Engine
  import opened Invariant
  import opened Stepping
  import opened Moving
  import opened Starting
  import opened Cycle

  // ---- what is left to do ----

  ghost function Cost(cfg: Config, c: Command): nat {
    4 * c.elementCount + cfg.programCost + cfg.execCost + 2
  }

  ghost function QueueWork(cfg: Config, q: seq<Entry>): nat {
    if q == [] then 0 else QueueWork(cfg, q[1..]) + Cost(cfg, q[0].cmd)
  }

  ghost function Delay(ready: nat, now: nat): nat {
    if ready > now then ready - now else 0
  }

  ghost function LinkedBytes(x: Transfer): int {
    if x.chunks == [] then 0 else x.chunks[0].linked
  }

  /** The active command is counting down a device delay. */
  ghost predicate Delayed(a: ArrayState) {
    a.active.Some? && (a.x.programming || a.active.value.cmd.operation == Execute)
  }

  ghost function ActiveWork(cfg: Config, a: ArrayState, now: nat): int {
    if a.active.None? then 0
    else 1 + (a.x.total - a.x.complete - LinkedBytes(a.x)) + (if Delayed(a) then Delay(a.x.ready, now) else cfg.programCost)
  }

  ghost function ComputeWork(a: ArrayState, now: nat): nat {
    if a.compute.entry.None? then 0 else 1 + Delay(a.compute.ready, now)
  }

  /** The termination measure of one array: bytes not yet linked, delays not yet elapsed, commands not
      yet ended. */
  ghost function Work(cfg: Config, a: ArrayState, now: nat): int {
    QueueWork(cfg, a.queue) + ActiveWork(cfg, a, now) + ComputeWork(a, now)
  }

  lemma WorkNonNegative(cfg: Config, a: ArrayState, now: nat)
    requires cfg.Valid() && TransferOk(cfg, a)
    ensures Work(cfg, a, now) >= 0
  {
  }

  /** Chunks linked earlier have completed their transit, and a transfer that is not delayed is eligible. */
  ghost predicate TimeOk(a: ArrayState, now: nat) {
    && (forall i :: 0 <= i < |a.x.chunks| ==> a.x.chunks[i].linkReady <= now)
    && (a.active.Some? && !Delayed(a) ==> a.x.ready <= now)
  }

  /** Nothing will happen without a new command. */
  ghost predicate SettledArray(cfg: Config, a: ArrayState) {
    && a.active.None? && a.compute.entry.None?
    && (a.queue == []
        || (cfg.pipeline && a.queue[0].cmd.operation == Execute && |a.results| >= RESULT_SLOTS
            && forall k :: 0 <= k < |a.queue| ==> a.queue[k].cmd.operation != Store))
  }

  /** A delay that has not elapsed. */
  ghost predicate Waiting(a: ArrayState, now: nat) {
    || (Delayed(a) && a.x.ready > now)
    || (a.compute.entry.Some? && a.compute.ready > now)
  }

  /** Bytes that want link service. */
  ghost predicate Wanting(a: ArrayState, now: nat) {
    OnLink(a, now) && a.x.chunks != [] && a.x.chunks[0].linked < a.x.chunks[0].bytes
  }

  // ---- no step adds work ----

  lemma {:induction false} QueueWorkConcat(cfg: Config, p: seq<Entry>, q: seq<Entry>)
    ensures QueueWork(cfg, p + q) == QueueWork(cfg, p) + QueueWork(cfg, q)
    decreases |p|
  {
    if p == [] {
      assert p + q == q;
    } else {
      assert (p + q)[1..] == p[1..] + q;
      QueueWorkConcat(cfg, p[1..], q);
    }
  }

  lemma QueueWorkWithout(cfg: Config, q: seq<Entry>, k: nat)
    requires k < |q|
    ensures QueueWork(cfg, Without(q, k)) == QueueWork(cfg, q) - Cost(cfg, q[k].cmd)
  {
    assert q == q[..k] + q[k..];
    QueueWorkConcat(cfg, q[..k], q[k..]);
    QueueWorkConcat(cfg, q[..k], q[k + 1..]);
    assert q[k..][1..] == q[k + 1..];
  }

  lemma ProgressComputeWork(cfg: Config, u: Cell, now: nat)
    ensures var v := ProgressCompute(cfg, u, now);
            && v.a.queue == u.a.queue && v.a.active == u.a.active && v.a.x == u.a.x
            && Work(cfg, v.a, now) <= Work(cfg, u.a, now)
            && (u.a.compute.entry.Some? && u.a.compute.ready <= now ==> Work(cfg, v.a, now) < Work(cfg, u.a, now))
            && (u.a.compute.entry.None? || u.a.compute.ready > now ==> v == u)
  {
  }

  lemma CompleteWork(cfg: Config, u: Cell, status: Status, now: nat)
    requires u.a.active.Some?
    ensures var v := CompleteActive(cfg, u, status);
            v.a.queue == u.a.queue && v.a.compute == u.a.compute && v.a.active.None? && v.a.x.chunks == u.a.x.chunks
  {
  }

  lemma ReleaseWork(cfg: Config, a: ArrayState, now: nat)
    requires cfg.Valid() && TransferOk(cfg, a) && a.active.Some? && TimeOk(a, now)
    ensures var y := Released(a, now);
            && ChunksOk(cfg, y, SourceOf(y, a.active.value.cmd))
            && y.total == a.x.total && y.ready == a.x.ready && y.programming == a.x.programming
            && y.complete + LinkedBytes(y) == a.x.complete + LinkedBytes(a.x)
            && (forall i :: 0 <= i < |y.chunks| ==> y.chunks[i].linkReady <= now)
            && (y.chunks != [] ==> y.chunks[0].linked < y.chunks[0].bytes)
            && (a.x.complete == a.x.total ==> y == a.x)
  {
    var write := a.active.value.cmd.operation == Store;
    ReleaseOk(cfg, a, now);
    if a.x.chunks == [] {
      ReleaseNone(a.x, write, now);
    } else {
      ReleaseOne(a.x, write, now);
    }
  }

  lemma MoveWork(cfg: Config, a: ArrayState, now: nat)
    requires cfg.Valid() && TransferOk(cfg, a) && a.active.Some? && TimeOk(a, now)
    ensures var b := Move(cfg, a, now);
            && b == a.(x := b.x)
            && b.x.total == a.x.total && b.x.ready == a.x.ready && b.x.programming == a.x.programming
            && b.x.complete + LinkedBytes(b.x) == a.x.complete + LinkedBytes(a.x)
            && TimeOk(b, now)
            && (b.x.complete < b.x.total && a.x.ready <= now ==> Wanting(b, now))
  {
    ReleaseWork(cfg, a, now);
    var y := Released(a, now);
    IssueWork(cfg, y, SourceOf(y, a.active.value.cmd));
    assert Move(cfg, a, now) == a.(x := Issue(y, SourceOf(y, a.active.value.cmd), cfg.inflightBytes));
  }

  lemma IssueWork(cfg: Config, x: Transfer, source: seq<Byte>)
    requires cfg.Valid() && ChunksOk(cfg, x, source)
    ensures var y := Issue(x, source, cfg.inflightBytes);
            && LinkedBytes(y) == LinkedBytes(x)
            && (if x.buffered == 0 && x.issued < x.total
                then |y.chunks| == 1 && y.chunks[0].linked == 0 < y.chunks[0].bytes && y.chunks[0].linkReady == 0
                else y == x)
            && y.ready == x.ready && y.total == x.total && y.programming == x.programming && y.complete == x.complete
  {
    if x.issued < x.total && x.buffered < cfg.inflightBytes {
      var n := Min(x.total - x.issued, cfg.inflightBytes);
      var c := Chunk(x.issued, n, 0, 0, Slice(source, x.issued, n));
      var y := x.(chunks := [c], issued := x.issued + n, buffered := n);
      assert Issue(x, source, cfg.inflightBytes) == Issue(y, source, cfg.inflightBytes);
      assert Issue(y, source, cfg.inflightBytes) == y;
    }
  }

  /** What a transfer step does to the work: it never grows, and an eligible transfer shrinks it,
      wants link service, or starts to wait. */
  ghost predicate Worked(cfg: Config, a: ArrayState, b: ArrayState, now: nat) {
    && b.queue == a.queue && b.compute == a.compute && TimeOk(b, now)
    && Work(cfg, b, now) <= Work(cfg, a, now)
    && (Work(cfg, b, now) < Work(cfg, a, now) || Wanting(b, now) || (Delayed(b) && b.x.ready > now))
  }

  lemma EndWork(cfg: Config, a: ArrayState, b: ArrayState, now: nat)
    requires cfg.Valid() && TransferOk(cfg, a) && a.active.Some? && TimeOk(a, now)
    requires b.queue == a.queue && b.compute == a.compute && b.active.None? && b.x.chunks == a.x.chunks
    ensures Worked(cfg, a, b, now)
  {
  }

  lemma FinishWork(cfg: Config, u: Cell, now: nat)
    requires cfg.Valid() && u.a.active.Some? && TransferOk(cfg, u.a) && TimeOk(u.a, now)
    requires u.a.active.value.cmd.operation != Execute && u.a.x.complete == u.a.x.total && u.a.x.chunks == []
    ensures Worked(cfg, u.a, Finish(cfg, u, now).a, now)
  {
    var v := Finish(cfg, u, now);
    if v.a.active.None? {
      EndWork(cfg, u.a, v.a, now);
    }
  }

  lemma MovedWork(cfg: Config, a: ArrayState, now: nat)
    requires cfg.Valid() && TransferOk(cfg, a) && a.active.Some? && TimeOk(a, now) && a.x.ready <= now
    ensures var b := Move(cfg, a, now);
            && b.queue == a.queue && b.active == a.active && b.compute == a.compute && TimeOk(b, now)
            && Work(cfg, b, now) == Work(cfg, a, now)
            && (b.x.complete < b.x.total ==> Wanting(b, now))
  {
    MoveWork(cfg, a, now);
  }

  lemma ProgressWork(cfg: Config, u: Cell, now: nat)
    requires cfg.Valid() && TransferOk(cfg, u.a) && TimeOk(u.a, now)
    requires u.a.active.Some? && u.a.x.ready <= now
    ensures Worked(cfg, u.a, Progress(cfg, u, now).a, now)
  {
    var v := Progress(cfg, u, now);
    if u.a.active.value.cmd.operation == Execute || u.a.x.total == 0 {
      EndWork(cfg, u.a, v.a, now);
    } else {
      MovedWork(cfg, u.a, now);
      MoveTransfer(cfg, u.a, now);
      var m := u.(a := Move(cfg, u.a, now));
      if m.a.x.complete == m.a.x.total {
        FinishWork(cfg, m, now);
      }
    }
  }

  // ---- starting ----

  /** What starting does to the work: nothing, or strictly less of it. */
  ghost predicate Started(cfg: Config, a: ArrayState, b: ArrayState, now: nat) {
    && (b == a || Work(cfg, b, now) < Work(cfg, a, now))
    && (a.active.Some? ==> b.active == a.active && b.x == a.x)
    && (a.compute.entry.Some? ==> b.compute == a.compute)
    && TimeOk(b, now)
  }

  lemma BeginWork(cfg: Config, u: Cell, k: nat, now: nat)
    requires cfg.Valid() && k < |u.a.queue| && u.a.active.None? && u.a.x.chunks == []
    ensures Started(cfg, u.a, Begun(cfg, u, k, now).a, now)
    ensures Work(cfg, Begun(cfg, u, k, now).a, now) < Work(cfg, u.a, now)
  {
    QueueWorkWithout(cfg, u.a.queue, k);
  }

  lemma RejectWork(cfg: Config, u: Cell, k: nat, now: nat)
    requires k < |u.a.queue| && TimeOk(u.a, now)
    ensures Started(cfg, u.a, Rejected(u, k).a, now)
    ensures Work(cfg, Rejected(u, k).a, now) < Work(cfg, u.a, now)
  {
    QueueWorkWithout(cfg, u.a.queue, k);
  }

  lemma ComputingWork(cfg: Config, u: Cell, now: nat)
    requires u.a.queue != [] && TimeOk(u.a, now) && u.a.compute.entry.None?
    ensures Started(cfg, u.a, Computing(cfg, u, now).a, now)
    ensures Work(cfg, Computing(cfg, u, now).a, now) < Work(cfg, u.a, now)
  {
    QueueWorkWithout(cfg, u.a.queue, 0);
  }

  lemma StartWork(cfg: Config, u: Cell, now: nat)
    requires Sound(cfg, u) && !cfg.pipeline && TimeOk(u.a, now)
    ensures Started(cfg, u.a, Start(cfg, u, now).a, now)
    ensures u.a.active.None? && u.a.queue != [] ==> Work(cfg, Start(cfg, u, now).a, now) < Work(cfg, u.a, now)
  {
    if u.a.active.None? && u.a.queue != [] {
      QueueWorkWithout(cfg, u.a.queue, 0);
      assert Without(u.a.queue, 0) == u.a.queue[1..];
      StartKind(cfg, u, now);
    }
  }

  lemma StartKind(cfg: Config, u: Cell, now: nat)
    requires u.a.active.None? && u.a.queue != [] && u.a.x.chunks == [] && TimeOk(u.a, now)
    requires QueueWork(cfg, u.a.queue[1..]) == QueueWork(cfg, u.a.queue) - Cost(cfg, u.a.queue[0].cmd)
    ensures Work(cfg, Start(cfg, u, now).a, now) < Work(cfg, u.a, now) && TimeOk(Start(cfg, u, now).a, now)
    ensures Start(cfg, u, now).a.compute == u.a.compute
  {
  }

  lemma StartedTrans(cfg: Config, a: ArrayState, b: ArrayState, c: ArrayState, now: nat)
    requires Started(cfg, a, b, now) && Started(cfg, b, c, now) && Work(cfg, b, now) < Work(cfg, a, now)
    ensures Started(cfg, a, c, now) && Work(cfg, c, now) < Work(cfg, a, now)
  {
  }

  lemma ReadyWhenIdle(cfg: Config, a: ArrayState)
    requires ResultsOk(cfg, a) && a.compute.entry.None?
    ensures forall i :: 0 <= i < |a.results| ==> a.results[i].ready
  {
  }

  lemma StartPipelineWork(cfg: Config, u: Cell, now: nat, attempts: nat)
    requires Sound(cfg, u) && cfg.pipeline && TimeOk(u.a, now)
    ensures Started(cfg, u.a, StartPipeline(cfg, u, now, attempts).a, now)
    ensures attempts > 0 && Select(u.a).Some? && u.a.active.None? && u.a.compute.entry.None?
            ==> Work(cfg, StartPipeline(cfg, u, now, attempts).a, now) < Work(cfg, u.a, now)
    decreases attempts
  {
    var selected := Select(u.a);
    if attempts > 0 && selected.Some? {
      var k := selected.value;
      var c := u.a.queue[k].cmd;
      if u.a.compute.entry.None? { ReadyWhenIdle(cfg, u.a); }
      if Refused(cfg, u.a, c) {
        RejectsNext(cfg, u, now, attempts);
        RefusedRejects(cfg, u, k);
        RejectSound(cfg, u, k);
        RejectWork(cfg, u, k, now);
        StartPipelineWork(cfg, Rejected(u, k), now, attempts - 1);
        StartedTrans(cfg, u.a, Rejected(u, k).a, StartPipeline(cfg, u, now, attempts).a, now);
      } else if c.operation == Execute {
        ComputesNext(cfg, u, now, attempts);
        ComputeSound(cfg, u, now);
        ComputingWork(cfg, u, now);
        StartPipelineWork(cfg, Computing(cfg, u, now), now, attempts - 1);
        StartedTrans(cfg, u.a, Computing(cfg, u, now).a, StartPipeline(cfg, u, now, attempts).a, now);
      } else if !(u.a.active.Some? || (c.Moves(Store) && !u.a.results[0].ready)) {
        BeginsNext(cfg, u, now, attempts);
        BeginWork(cfg, u, k, now);
      }
    }
  }

  /** An idle array that is not settled can start something at once. */
  lemma UnsettledStarts(cfg: Config, u: Cell, now: nat)
    requires Sound(cfg, u) && cfg.pipeline && TimeOk(u.a, now)
    requires u.a.active.None? && u.a.compute.entry.None? && !SettledArray(cfg, u.a)
    ensures Work(cfg, StartPipeline(cfg, u, now, QUEUE_ENTRIES).a, now) < Work(cfg, u.a, now)
  {
    assert Select(u.a).Some?;
    StartPipelineWork(cfg, u, now, QUEUE_ENTRIES);
  }

  // ---- one cycle of one array ----

  /** A cycle never adds work to an array. */
  ghost predicate Eased(cfg: Config, a: ArrayState, b: ArrayState, now: nat) {
    Work(cfg, b, now) <= Work(cfg, a, now) && TimeOk(b, now)
  }

  /** It reduced the work, or something in it will before the next cycle. */
  ghost predicate Busy(cfg: Config, a: ArrayState, b: ArrayState, now: nat) {
    Work(cfg, b, now) < Work(cfg, a, now) || Wanting(b, now) || Waiting(b, now)
  }

  lemma ProgressEases(cfg: Config, u: Cell, now: nat)
    requires Sound(cfg, u) && TimeOk(u.a, now)
    ensures var v := Progress(cfg, u, now);
            && Eased(cfg, u.a, v.a, now) && v.a.compute == u.a.compute
            && (u.a.active.Some? ==> Busy(cfg, u.a, v.a, now))
            && (u.a.active.None? ==> v == u)
            && (u.a.active.Some? && v.a.active.None? ==> Work(cfg, v.a, now) < Work(cfg, u.a, now))
  {
    if u.a.active.Some? && u.a.x.ready <= now {
      ProgressWork(cfg, u, now);
    }
  }

  lemma BlockingCycle(cfg: Config, u: Cell, now: nat)
    requires Sound(cfg, u) && !cfg.pipeline && TimeOk(u.a, now)
    ensures var v := TickArray(cfg, u, now);
            Eased(cfg, u.a, v.a, now) && (!SettledArray(cfg, u.a) ==> Busy(cfg, u.a, v.a, now))
  {
    var m := Start(cfg, u, now);
    StartSound(cfg, u, now);
    StartWork(cfg, u, now);
    ProgressEases(cfg, m, now);
  }

  /** The second half of a pipelined cycle keeps a wait or a want, and adds no work. */
  lemma PipelineTail(cfg: Config, p: Cell, now: nat)
    requires Sound(cfg, p) && cfg.pipeline && TimeOk(p.a, now)
    ensures var t := Tail(cfg, p, now);
            && Eased(cfg, p.a, t.a, now)
            && (Wanting(p.a, now) || Waiting(p.a, now) ==> Busy(cfg, p.a, t.a, now))
            && (p.a.active.None? && p.a.compute.entry.None? && !SettledArray(cfg, p.a) ==> Busy(cfg, p.a, t.a, now))
  {
    var q := StartPipeline(cfg, p, now, QUEUE_ENTRIES);
    StartPipelineSound(cfg, p, now, QUEUE_ENTRIES);
    StartPipelineWork(cfg, p, now, QUEUE_ENTRIES);
    if p.a.active.None? && p.a.compute.entry.None? && !SettledArray(cfg, p.a) { UnsettledStarts(cfg, p, now); }
    var r := if p.a.active.Some? then q else Progress(cfg, q, now);
    if p.a.active.None? { ProgressEases(cfg, q, now); }
    ProgressComputeWork(cfg, r, now);
  }

  ghost function Tail(cfg: Config, p: Cell, now: nat): Cell {
    var q := StartPipeline(cfg, p, now, QUEUE_ENTRIES);
    ProgressCompute(cfg, if p.a.active.Some? then q else Progress(cfg, q, now), now)
  }

  lemma PipelineCycle(cfg: Config, u: Cell, now: nat)
    requires Sound(cfg, u) && cfg.pipeline && TimeOk(u.a, now)
    ensures var v := TickArray(cfg, u, now);
            Eased(cfg, u.a, v.a, now) && (!SettledArray(cfg, u.a) ==> Busy(cfg, u.a, v.a, now))
  {
    var o := ProgressCompute(cfg, u, now);
    ProgressComputeSound(cfg, u, now);
    ProgressComputeWork(cfg, u, now);
    var p := Progress(cfg, o, now);
    ProgressSound(cfg, o, now);
    ProgressEases(cfg, o, now);
    PipelineTail(cfg, p, now);
    assert TickArray(cfg, u, now) == Tail(cfg, p, now);
  }

  lemma ArrayCycle(cfg: Config, u: Cell, now: nat)
    requires Sound(cfg, u) && TimeOk(u.a, now)
    ensures var v := TickArray(cfg, u, now);
            Eased(cfg, u.a, v.a, now) && (!SettledArray(cfg, u.a) ==> Busy(cfg, u.a, v.a, now))
  {
    if cfg.pipeline { PipelineCycle(cfg, u, now); } else { BlockingCycle(cfg, u, now); }
  }
}
