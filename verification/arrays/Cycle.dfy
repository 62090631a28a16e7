/** One cycle of one array preserves the invariant, in blocking and in pipelined mode. */
module Cycle {
  import opened Options
  import opened Commands
  import opened Engine
  import opened Serial
  import opened Invariant
  import opened Books
  import opened Commute
  import opened Stepping
  import opened Moving
  import opened Programming
  import opened Completion
  import opened Starting

  ghost predicate Kept(cfg: Config, u: Cell, v: Cell) {
    Sound(cfg, v) && Advances(u, v)
  }

  lemma KeptTrans(cfg: Config, u: Cell, v: Cell, w: Cell)
    requires Kept(cfg, u, v) && Kept(cfg, v, w)
    ensures Kept(cfg, u, w)
  {
    AdvancesTrans(u, v, w);
  }

  lemma FinishProgram(cfg: Config, u: Cell, now: nat)
    requires Sound(cfg, u) && Ready(u.a, Program)
    ensures Kept(cfg, u, Finish(cfg, u, now))
  {
    var c := u.a.active.value.cmd;
    var v := CaptureInput(u);
    CaptureSound(cfg, u);
    var w := if v.a.x.programming then v else v.(a := Receive(cfg, v.a, c, now));
    if !v.a.x.programming {
      ReceiveSound(cfg, v, c, now);
      KeptTrans(cfg, u, v, w);
    }
    if w.a.x.ready <= now {
      CompleteProgram(cfg, w);
      KeptTrans(cfg, u, w, Finish(cfg, u, now));
    }
  }

  lemma FinishSound(cfg: Config, u: Cell, now: nat)
    requires Sound(cfg, u) && u.a.active.Some? && u.a.active.value.cmd.operation != Execute
    requires u.a.x.total > 0 && u.a.x.complete == u.a.x.total && u.a.x.chunks == [] && u.a.x.buffered == 0
    ensures Kept(cfg, u, Finish(cfg, u, now))
  {
    var c := u.a.active.value.cmd;
    assert u.a.x.total == 4 * c.elementCount && c.elementCount > 0;
    match c.operation
    case Program => FinishProgram(cfg, u, now);
    case Load =>
      CaptureSound(cfg, u);
      CompleteLoad(cfg, CaptureInput(u));
      KeptTrans(cfg, u, CaptureInput(u), Finish(cfg, u, now));
    case Store => CompleteStore(cfg, u);
    case Configure => assert false;
  }

  lemma ProgressSound(cfg: Config, u: Cell, now: nat)
    requires Sound(cfg, u)
    ensures Kept(cfg, u, Progress(cfg, u, now))
  {
    if u.a.active.None? || now < u.a.x.ready {
      AdvancesRefl(u);
    } else if u.a.active.value.cmd.operation == Execute {
      CompleteExecute(cfg, u);
    } else if u.a.x.total == 0 {
      assert u.a.active.value.cmd.elementCount == 0;
      assert u.a.x.complete == 0;
      CaptureSound(cfg, u);
      CompleteEmpty(cfg, CaptureInput(u));
      KeptTrans(cfg, u, CaptureInput(u), Progress(cfg, u, now));
    } else {
      MoveStep(cfg, u, now);
    }
  }

  lemma MoveStep(cfg: Config, u: Cell, now: nat)
    requires Sound(cfg, u) && u.a.active.Some? && u.a.active.value.cmd.operation != Execute && u.a.x.total > 0
    ensures var v := u.(a := Move(cfg, u.a, now));
            Kept(cfg, u, if v.a.x.complete == v.a.x.total then Finish(cfg, v, now) else v)
  {
    var v := u.(a := Move(cfg, u.a, now));
    MoveSound(cfg, u, now);
    MoveTransfer(cfg, u.a, now);
    if v.a.x.complete == v.a.x.total {
      FinishSound(cfg, v, now);
      KeptTrans(cfg, u, v, Finish(cfg, v, now));
    }
  }

  // ---- blocking mode ----

  lemma HeadTakeable(cfg: Config, a: ArrayState, x: Arch)
    requires a.queue != []
    ensures Takeable(cfg, x, Cmds(a.queue), 0)
  {
  }

  /** Popping the head and answering Error is the same as refusing it in the queue. */
  lemma PopRejects(cfg: Config, u: Cell)
    requires u.a.queue != [] && u.a.active.None? && u.a.x.chunks == [] && u.a.x.buffered == 0
    requires u.a.queue[0].cmd.token !in u.s.guaranteed && u.a.queue[0].cmd.token !in u.s.storeResults
    ensures var v := CompleteActive(cfg, u.(a := u.a.(active := Some(u.a.queue[0]), queue := u.a.queue[1..])), Error);
            v.s == Rejected(u, 0).s && v.a == Rejected(u, 0).a.(x := u.a.x.(bytes := []))
  {
    assert Without(u.a.queue, 0) == u.a.queue[1..];
    assert u.s.guaranteed - {u.a.queue[0].cmd.token} == u.s.guaranteed;
    assert u.s.storeResults - {u.a.queue[0].cmd.token} == u.s.storeResults;
  }

  lemma Unpromised(cfg: Config, u: Cell)
    requires Sound(cfg, u) && u.a.queue != [] && MayReject(cfg, u.a, 0)
    ensures u.a.queue[0].cmd.token !in u.s.guaranteed && u.a.queue[0].cmd.token !in u.s.storeResults
  {
    assert EntryShared(cfg, u.a, u.s, u.a.queue[0]);
    RejectSim(cfg, u, 0);
  }

  lemma StartRejects(cfg: Config, u: Cell)
    requires Sound(cfg, u) && u.a.active.None? && u.a.queue != [] && MayReject(cfg, u.a, 0)
    ensures Kept(cfg, u, CompleteActive(cfg, u.(a := u.a.(active := Some(u.a.queue[0]), queue := u.a.queue[1..])), Error))
  {
    var v := CompleteActive(cfg, u.(a := u.a.(active := Some(u.a.queue[0]), queue := u.a.queue[1..])), Error);
    RejectSound(cfg, u, 0);
    Unpromised(cfg, u);
    PopRejects(cfg, u);
    IdleBytes(cfg, Rejected(u, 0), v);
    KeptTrans(cfg, u, Rejected(u, 0), v);
  }

  lemma IdleBooks(cfg: Config, w: Cell, v: Cell)
    requires cfg.Valid() && BooksOk(cfg, w)
    requires v.s == w.s && v.a == w.a.(x := w.a.x.(bytes := v.a.x.bytes))
    ensures BooksOk(cfg, v) && BookAdvances(w, v)
  {
    SameBooks(cfg, w, v);
  }

  /** The byte buffer of an idle transfer engine is of no consequence. */
  lemma IdleBytes(cfg: Config, w: Cell, v: Cell)
    requires Sound(cfg, w) && w.a.active.None?
    requires v.s == w.s && v.a == w.a.(x := w.a.x.(bytes := v.a.x.bytes))
    ensures Kept(cfg, w, v)
  {
    assert Slots(cfg, v.a) == Slots(cfg, w.a);
    SimSame(cfg, w.a, v.a);
    TransferCore(cfg, w.a, v.a);
    IdleBooks(cfg, w, v);
    SoundFrom(cfg, w, v);
  }

  lemma StartSound(cfg: Config, u: Cell, now: nat)
    requires Sound(cfg, u) && !cfg.pipeline
    ensures Kept(cfg, u, Start(cfg, u, now))
  {
    if u.a.active.Some? || u.a.queue == [] {
      AdvancesRefl(u);
    } else {
      HeadTakeable(cfg, u.a, Abs(cfg, u.a));
      assert Without(u.a.queue, 0) == u.a.queue[1..];
      if MayBegin(cfg, u.a, 0) {
        BeginSound(cfg, u, 0, now);
        StartBegins(cfg, u, now);
      } else {
        StartRejects(cfg, u);
      }
    }
  }

  lemma StartBegins(cfg: Config, u: Cell, now: nat)
    requires Sound(cfg, u) && !cfg.pipeline && u.a.active.None? && u.a.queue != [] && MayBegin(cfg, u.a, 0)
    ensures Start(cfg, u, now) == Begun(cfg, u, 0, now)
  {
    assert Without(u.a.queue, 0) == u.a.queue[1..];
  }

  // ---- pipelined mode ----

  /** The selected position may be taken: it is the head, or a Store behind an Execute that is
      blocked by a result it can read. */
  lemma SelectTakeable(cfg: Config, u: Cell)
    requires Sound(cfg, u) && cfg.pipeline && Select(u.a).Some?
    ensures Takeable(cfg, After(cfg, u.a), Cmds(u.a.queue), Select(u.a).value)
  {
    var k := Select(u.a).value;
    if k > 0 {
      assert u.a.active.None? && ComputeBusy(u.a) && u.a.results != [];
      forall j | 0 <= j < k
        ensures Passable(u.a.queue[j].cmd)
      {
        assert Legal(cfg, u.a.activeRows, u.a.activeCols, u.a.queue[j].cmd);
      }
    }
  }

  lemma StartPipelineSound(cfg: Config, u: Cell, now: nat, attempts: nat)
    requires Sound(cfg, u) && cfg.pipeline
    ensures Kept(cfg, u, StartPipeline(cfg, u, now, attempts))
    decreases attempts
  {
    var selected := Select(u.a);
    if attempts == 0 || selected.None? {
      AdvancesRefl(u);
    } else {
      var k := selected.value;
      var c := u.a.queue[k].cmd;
      SelectTakeable(cfg, u);
      if Refused(cfg, u.a, c) {
        RefusedRejects(cfg, u, k);
        RejectSound(cfg, u, k);
        var v := Rejected(u, k);
        StartPipelineSound(cfg, v, now, attempts - 1);
        KeptTrans(cfg, u, v, StartPipeline(cfg, v, now, attempts - 1));
        RejectsNext(cfg, u, now, attempts);
      } else if c.operation == Execute {
        ComputesNext(cfg, u, now, attempts);
        ComputeSound(cfg, u, now);
        var v := Computing(cfg, u, now);
        StartPipelineSound(cfg, v, now, attempts - 1);
        KeptTrans(cfg, u, v, StartPipeline(cfg, v, now, attempts - 1));
      } else if u.a.active.Some? || (c.Moves(Store) && !u.a.results[0].ready) {
        AdvancesRefl(u);
      } else {
        BeginsNext(cfg, u, now, attempts);
        BeginSound(cfg, u, k, now);
      }
    }
  }

  /** The conditions under which the selected command is answered Error. */
  ghost predicate Refused(cfg: Config, a: ArrayState, c: Command) {
    || (cfg.initialProgram && a.mem.initialProgramClosed && c.Moves(Program))
    || (c.operation == Execute && (!a.mem.programmed || !a.mem.loaded))
    || (a.active.None? && c.Moves(Store) && a.results == [])
  }

  lemma SelectShape(cfg: Config, u: Cell)
    requires Sound(cfg, u) && cfg.pipeline && Select(u.a).Some?
    ensures var c := u.a.queue[Select(u.a).value].cmd;
            && (u.a.active.Some? ==> Select(u.a).value == 0 && c.operation == Execute && u.a.active.value.cmd.operation == Store)
            && (c.operation == Execute ==> Select(u.a).value == 0 && !ComputeBusy(u.a))
            && (c.Moves(Program) ==> u.a.results == [])
  {
  }

  lemma RefusedRejects(cfg: Config, u: Cell, k: nat)
    requires Sound(cfg, u) && cfg.pipeline && Select(u.a) == Some(k) && Refused(cfg, u.a, u.a.queue[k].cmd)
    ensures MayReject(cfg, u.a, k)
  {
    SelectShape(cfg, u);
    SelectTakeable(cfg, u);
  }

  lemma RejectsNext(cfg: Config, u: Cell, now: nat, attempts: nat)
    requires Sound(cfg, u) && cfg.pipeline && Select(u.a).Some? && attempts > 0
    requires Refused(cfg, u.a, u.a.queue[Select(u.a).value].cmd)
    ensures StartPipeline(cfg, u, now, attempts) == StartPipeline(cfg, Rejected(u, Select(u.a).value), now, attempts - 1)
  {
    SelectShape(cfg, u);
  }

  lemma ComputesNext(cfg: Config, u: Cell, now: nat, attempts: nat)
    requires Sound(cfg, u) && cfg.pipeline && Select(u.a).Some? && attempts > 0
    requires u.a.queue[Select(u.a).value].cmd.operation == Execute
    requires !Refused(cfg, u.a, u.a.queue[Select(u.a).value].cmd)
    ensures MayCompute(cfg, u.a)
    ensures StartPipeline(cfg, u, now, attempts) == StartPipeline(cfg, Computing(cfg, u, now), now, attempts - 1)
  {
    SelectShape(cfg, u);
  }

  lemma BeginsNext(cfg: Config, u: Cell, now: nat, attempts: nat)
    requires Sound(cfg, u) && cfg.pipeline && Select(u.a).Some? && attempts > 0
    requires var c := u.a.queue[Select(u.a).value].cmd;
             !Refused(cfg, u.a, c) && c.operation != Execute && u.a.active.None? && (c.Moves(Store) ==> u.a.results[0].ready)
    ensures MayBegin(cfg, u.a, Select(u.a).value)
    ensures StartPipeline(cfg, u, now, attempts) == Begun(cfg, u, Select(u.a).value, now)
  {
    SelectShape(cfg, u);
    SelectTakeable(cfg, u);
  }

  /** One cycle of one array. */
  lemma TickArraySound(cfg: Config, u: Cell, now: nat)
    requires Sound(cfg, u)
    ensures Kept(cfg, u, TickArray(cfg, u, now))
  {
    if !cfg.pipeline {
      StartSound(cfg, u, now);
      ProgressSound(cfg, Start(cfg, u, now), now);
      KeptTrans(cfg, u, Start(cfg, u, now), TickArray(cfg, u, now));
    } else {
      var o := ProgressCompute(cfg, u, now);
      ProgressComputeSound(cfg, u, now);
      var p := Progress(cfg, o, now);
      ProgressSound(cfg, o, now);
      KeptTrans(cfg, u, o, p);
      var q := StartPipeline(cfg, p, now, QUEUE_ENTRIES);
      StartPipelineSound(cfg, p, now, QUEUE_ENTRIES);
      KeptTrans(cfg, u, p, q);
      var r := if p.a.active.Some? then q else Progress(cfg, q, now);
      if p.a.active.None? {
        ProgressSound(cfg, q, now);
        KeptTrans(cfg, u, q, r);
      }
      ProgressComputeSound(cfg, r, now);
      KeptTrans(cfg, u, r, TickArray(cfg, u, now));
    }
  }
}
