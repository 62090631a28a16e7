/** The component itself: an object per array and one for the component, updated in place by command
    arrival and by the clock. Every method is proved to compute its step function, and where the
    component would stop the simulation, the condition is recorded in `fault` and proved never to hold. */
module AnalogArraysComponent {
  import opened Options
  import opened Vectors
  import opened Commands
  import opened Engine
  import opened Admission
  import opened Buffers
  import opened Invariant
  import opened Runs
  import Moving
  import Starting
  import Quiescence

  class Array {
    var activeRows: nat
    var activeCols: nat
    var queue: seq<Entry>
    var active: Option<Entry>
    var compute: Compute
    var results: seq<Result>
    var x: Transfer
    var mem: Memory
    var out: Output
    var projection: Projection
    var log: seq<Command>
    var sent: seq<Reply>
    var fault: bool

    ghost function State(): ArrayState
      reads this
    {
      ArrayState(activeRows, activeCols, queue, active, compute, results, x, mem, out, projection, log, sent, fault)
    }

    constructor (cfg: Config)
      ensures State() == InitialArray(cfg)
    {
      activeRows, activeCols := cfg.rows, cfg.cols;
      queue, active, compute, results := [], None, Compute(None, 0, []), [];
      x := IDLE_TRANSFER;
      mem := Memory(ZeroWords(cfg.rows * cfg.cols), Zeros(cfg.rows * cfg.cols), 0, false, false, 0,
                    ZeroWords(cfg.cols), Zeros(cfg.cols), 0, false);
      out := Output(ZeroWords(cfg.rows), false, [], 0);
      projection := Projection([], 0);
      log, sent, fault := [], [], false;
    }

    method Reply(e: Entry, status: Status, payload: seq<Byte>)
      modifies this`sent
      ensures sent == old(sent) + [Engine.Reply(e, status, payload)]
    {
      sent := sent + [Engine.Reply(e, status, payload)];
    }

    /** The component stops here when `bad` holds. */
    method Check(bad: bool)
      modifies this`fault
      ensures fault == (old(fault) || bad)
    {
      if bad { fault := true; }
    }

    // ---- the transfer engine ----

    /** Chunks that completed their transit leave the buffer in offset order. */
    method ReleaseChunks(write: bool, now: nat)
      modifies this`x
      ensures x == Release(old(x), old(x).chunks, [], write, now)
    {
      var pending, kept: seq<Chunk> := x.chunks, [];
      while pending != []
        invariant Release(x, pending, kept, write, now) == Release(old(x), old(x).chunks, [], write, now)
        decreases |pending|
      {
        var c := pending[0];
        pending := pending[1..];
        if c.linked != c.bytes || c.linkReady > now {
          kept := kept + [c];
        } else {
          if !write { x := x.(bytes := Write(x.bytes, c.offset, c.data)); }
          x := x.(complete := x.complete + c.bytes, buffered := x.buffered - c.bytes);
        }
      }
      x := x.(chunks := kept);
    }

    /** Bytes are issued while the in-flight window has room. */
    method IssueChunks(source: seq<Byte>, window: nat)
      modifies this`x
      ensures x == Issue(old(x), source, window)
    {
      while x.issued < x.total && x.buffered < window
        invariant Issue(x, source, window) == Issue(old(x), source, window)
        decreases x.total - x.issued
      {
        var bytes := Min(x.total - x.issued, window - x.buffered);
        x := x.(chunks := x.chunks + [Chunk(x.issued, bytes, 0, 0, Slice(source, x.issued, bytes))],
                issued := x.issued + bytes, buffered := x.buffered + bytes);
      }
    }

    method CaptureInput()
      requires active.Some?
      modifies this`x, this`sent, this`fault
      ensures forall s :: Cell(State(), s) == Engine.CaptureInput(Cell(old(State()), s))
      ensures x == old(x).(inputCaptured := x.inputCaptured)
    {
      var e := active.value;
      if e.cmd.deferred && !x.inputCaptured && e.cmd.Input() {
        Check(x.complete != x.total || x.chunks != [] || x.buffered != 0);
        x := x.(inputCaptured := true);
        Reply(e, Captured, []);
      }
    }

    /** Link service for this array's chunks, in offset order. */
    method ServeChunks(budget: nat, now: nat) returns (left: nat)
      modifies this`x
      ensures x == old(x).(chunks := LinkChunks(old(x).chunks, budget, now).0)
      ensures left == LinkChunks(old(x).chunks, budget, now).1
    {
      var done: seq<Chunk>, rest := [], x.chunks;
      left := budget;
      while rest != [] && left > 0
        invariant done + LinkChunks(rest, left, now).0 == LinkChunks(old(x).chunks, budget, now).0
        invariant LinkChunks(rest, left, now).1 == LinkChunks(old(x).chunks, budget, now).1
        decreases |rest|
      {
        var c := rest[0];
        if c.linked < c.bytes {
          var bytes := Min(left, c.bytes - c.linked);
          c := c.(linked := c.linked + bytes, linkReady := now + 1);
          assert LinkChunks(rest, left, now).0 == [c] + LinkChunks(rest[1..], left - bytes, now).0;
          left := left - bytes;
        }
        done, rest := done + [c], rest[1..];
      }
      x := x.(chunks := done + rest);
    }
  }

  class AnalogArrays {
    const cfg: Config
    var arrays: seq<Array>
    var tokens: set<Token>
    var guaranteed: set<Token>
    var storeResults: map<Token, Token>
    var cursor: nat

    /** The token sets as one value. */
    ghost function Tokens(): Shared
      reads this
    {
      Shared(tokens, guaranteed, storeResults)
    }

    ghost function CellOf(a: Array): Cell
      reads this, a
    {
      Cell(a.State(), Tokens())
    }

    // ---- completion ----

    /** Every row a finished Store marks exists. */
    ghost predicate RowsExist(a: Array)
      reads this, a
    {
      a.active.Some? && a.active.value.cmd.Moves(Store) ==>
        var c := a.active.value.cmd;
        if cfg.pipeline then a.results == [] || c.elementOffset + c.elementCount <= |a.results[0].delivered|
        else c.elementOffset + c.elementCount <= |a.out.delivered|
    }

    /** A finished Store marks the rows it has read and releases a result read completely. */
    method Deliver(a: Array, c: Command)
      requires c.Moves(Store)
      requires cfg.pipeline ==> a.results == [] || c.elementOffset + c.elementCount <= |a.results[0].delivered|
      requires !cfg.pipeline ==> c.elementOffset + c.elementCount <= |a.out.delivered|
      modifies a`results, a`out
      ensures a.State() == Delivered(cfg, old(a.State()), c)
    {
      if cfg.pipeline {
        if a.results != [] {
          var r := a.results[0];
          var marked, counted, full := InitializeRange(r.delivered, r.deliveredRows, c.elementOffset, c.elementCount);
          if full {
            a.results := a.results[1..];
          } else {
            a.results := [r.(delivered := marked, deliveredRows := counted)] + a.results[1..];
          }
        }
      } else {
        var marked, counted, full := InitializeRange(a.out.delivered, a.out.deliveredRows, c.elementOffset, c.elementCount);
        a.out := a.out.(delivered := marked, deliveredRows := counted);
      }
    }

    /** The terminal reply; the token and what was promised about it are forgotten. */
    method Retire(a: Array, status: Status, payload: seq<Byte>)
      requires a.active.Some?
      modifies a`sent, a`active, a`x, this`tokens, this`guaranteed, this`storeResults
      ensures a.sent == old(a.sent) + [Reply(old(a.active).value, status, payload)]
      ensures a.active == None && a.x == old(a.x).(bytes := [])
      ensures Tokens() == Forget(old(Tokens()), old(a.active).value.cmd.token)
    {
      var e := a.active.value;
      a.Reply(e, status, payload);
      tokens, guaranteed, storeResults := tokens - {e.cmd.token}, guaranteed - {e.cmd.token}, storeResults - {e.cmd.token};
      a.active, a.x := None, a.x.(bytes := []);
    }

    /** The checks the component makes before a command ends. */
    method CheckEnd(a: Array, status: Status)
      requires a.active.Some?
      modifies a`fault
      ensures var e := a.active.value;
              a.fault == (old(a.fault) || (status != Status.Complete && e.cmd.token in guaranteed)
                          || a.x.chunks != [] || a.x.buffered != 0
                          || (status == Status.Complete && cfg.pipeline && e.cmd.Moves(Store) && a.results == []))
    {
      var e := a.active.value;
      a.Check(status != Status.Complete && e.cmd.token in guaranteed);
      a.Check(a.x.chunks != [] || a.x.buffered != 0);
      a.Check(status == Status.Complete && cfg.pipeline && e.cmd.Moves(Store) && a.results == []);
    }

    method Complete(a: Array, status: Status)
      requires a.active.Some?
      requires status == Status.Complete ==> RowsExist(a)
      modifies a, this`tokens, this`guaranteed, this`storeResults
      ensures CellOf(a) == CompleteActive(cfg, old(CellOf(a)), status)
    {
      var c := a.active.value.cmd;
      CheckEnd(a, status);
      if status == Status.Complete && c.operation == Store {
        if c.elementCount > 0 { Deliver(a, c); }
        Retire(a, status, a.x.bytes);
      } else {
        Retire(a, status, []);
      }
    }

    method RejectQueued(a: Array, e: Entry)
      modifies a, this`tokens
      ensures CellOf(a) == Engine.RejectQueued(old(CellOf(a)), e)
    {
      a.Check(e.cmd.token in guaranteed);
      a.Reply(e, Error, []);
      tokens := tokens - {e.cmd.token};
    }

    // ---- transfers ----

    /** A starting Store copies its rows of the oldest result, which must be the one reserved for it. */
    method FetchOutput(a: Array, c: Command) returns (bytes: seq<Byte>)
      requires c.Moves(Store)
      requires if cfg.pipeline then a.results == [] || c.elementOffset + c.elementCount <= |a.results[0].values|
               else c.elementOffset + c.elementCount <= |a.out.values|
      modifies a`fault
      ensures a.fault == (old(a.fault)
                          || (c.token in storeResults && (a.results == [] || a.results[0].token != storeResults[c.token]))
                          || (cfg.pipeline && a.results == []))
      ensures var source := if cfg.pipeline then (if a.results == [] then [] else a.results[0].values) else a.out.values;
              bytes == Encode(Slice(source, c.elementOffset, c.elementCount))
    {
      a.Check(c.token in storeResults && (a.results == [] || a.results[0].token != storeResults[c.token]));
      a.Check(cfg.pipeline && a.results == []);
      if !cfg.pipeline {
        bytes := EncodeVectorPayload(a.out.values, c.elementOffset, c.elementCount);
      } else if a.results != [] {
        bytes := EncodeVectorPayload(a.results[0].values, c.elementOffset, c.elementCount);
      } else {
        bytes := [];
        assert Slice<Word>([], c.elementOffset, c.elementCount) == [];
      }
    }

    /** The elements that a Store reads are there. */
    ghost predicate Fetchable(a: ArrayState, c: Command) {
      c.Moves(Store) ==>
        if cfg.pipeline then a.results == [] || c.elementOffset + c.elementCount <= |a.results[0].values|
        else c.elementOffset + c.elementCount <= |a.out.values|
    }

    /** What the transfer buffer holds at the start: the output for a Store, zeros otherwise. */
    method StartingBytes(a: Array, c: Command) returns (bytes: seq<Byte>)
      requires Fetchable(a.State(), c)
      modifies a`fault
      ensures a.fault == (old(a.fault)
                          || (c.Moves(Store) && ((c.token in storeResults && (a.results == [] || a.results[0].token != storeResults[c.token]))
                                                 || (cfg.pipeline && a.results == []))))
      ensures var source := if cfg.pipeline then (if a.results == [] then [] else a.results[0].values) else a.out.values;
              bytes == if c.Moves(Store) then Encode(Slice(source, c.elementOffset, c.elementCount)) else ZeroBytes(c.elementCount * 4)
    {
      bytes := ZeroBytes(c.elementCount * 4);
      if c.operation == Store && c.elementCount > 0 {
        bytes := FetchOutput(a, c);
      }
    }

    /** What a transfer starts with, given the contents of its buffer. */
    ghost function Launched(u: Cell, now: nat, bytes: seq<Byte>, fault: bool): Cell
      requires u.a.active.Some?
    {
      var c := u.a.active.value.cmd;
      Cell(u.a.(x := Transfer(now + (if c.operation == Execute then cfg.execCost else 0), c.elementCount * 4, 0, 0, 0, false, false, false,
                              bytes, u.a.x.chunks),
                mem := u.a.mem.(programmed := u.a.mem.programmed && !c.Moves(Program)),
                out := u.a.out.(computed := u.a.out.computed && !c.Moves(Program) && !c.Moves(Load)),
                fault := fault), u.s)
    }

    lemma LaunchedIs(u: Cell, now: nat, bytes: seq<Byte>, fault: bool)
      requires u.a.active.Some?
      requires var c := u.a.active.value.cmd;
               fault == (u.a.fault
                         || (c.Moves(Store) && ((c.token in u.s.storeResults && (u.a.results == [] || u.a.results[0].token != u.s.storeResults[c.token]))
                                                || (cfg.pipeline && u.a.results == []))))
      requires var c := u.a.active.value.cmd;
               var source := if cfg.pipeline then (if u.a.results == [] then [] else u.a.results[0].values) else u.a.out.values;
               bytes == if c.Moves(Store) then Encode(Slice(source, c.elementOffset, c.elementCount)) else ZeroBytes(c.elementCount * 4)
      ensures Engine.BeginTransfer(cfg, u, now) == Launched(u, now, bytes, fault)
    {
    }

    /** The buffer of the active transfer, filled. */
    method FirstBytes(a: Array, ghost now: nat) returns (bytes: seq<Byte>)
      requires a.active.Some?
      requires Fetchable(a.State(), a.active.value.cmd)
      modifies a`fault
      ensures Engine.BeginTransfer(cfg, old(CellOf(a)), now) == Launched(old(CellOf(a)), now, bytes, a.fault)
    {
      bytes := StartingBytes(a, a.active.value.cmd);
      LaunchedIs(old(CellOf(a)), now, bytes, a.fault);
    }

    method BeginTransfer(a: Array, now: nat)
      requires a.active.Some?
      requires Fetchable(a.State(), a.active.value.cmd)
      modifies a`x, a`mem, a`out, a`fault
      ensures CellOf(a) == Engine.BeginTransfer(cfg, old(CellOf(a)), now)
    {
      ghost var u := CellOf(a);
      var bytes := FirstBytes(a, now);
      SameLaunch(u, CellOf(a), now, bytes, a.fault);
      SetTransfer(a, now, bytes);
    }

    lemma SameLaunch(u: Cell, v: Cell, now: nat, bytes: seq<Byte>, fault: bool)
      requires u.a.active.Some? && v == u.(a := u.a.(fault := fault))
      ensures Launched(v, now, bytes, fault) == Launched(u, now, bytes, fault)
    {
    }

    method SetTransfer(a: Array, now: nat, bytes: seq<Byte>)
      requires a.active.Some?
      modifies a`x, a`mem, a`out
      ensures CellOf(a) == Launched(old(CellOf(a)), now, bytes, a.fault)
    {
      var c := a.active.value.cmd;
      var total := c.elementCount * 4;
      a.x := Transfer(now + (if c.operation == Execute then cfg.execCost else 0), total, 0, 0, 0, false, false, false,
                      bytes, a.x.chunks);
      ClearReadiness(a, c);
    }

    /** New weights must be committed before they count, and new weights or inputs outdate the output. */
    method ClearReadiness(a: Array, c: Command)
      modifies a`mem, a`out
      ensures a.mem == old(a.mem).(programmed := old(a.mem).programmed && !c.Moves(Program))
      ensures a.out == old(a.out).(computed := old(a.out).computed && !c.Moves(Program) && !c.Moves(Load))
    {
      if c.Moves(Program) { a.mem := a.mem.(programmed := false); }
      if c.Moves(Program) || c.Moves(Load) { a.out := a.out.(computed := false); }
    }

    /** The range of an input command lies inside the storage it writes. */
    ghost predicate Fits(a: Array)
      reads this, a
    {
      a.active.Some? && a.active.value.cmd.Input() ==>
        var c := a.active.value.cmd;
        && a.x.total == 4 * c.elementCount == |a.x.bytes|
        && (if c.operation == Program then c.elementOffset + c.elementCount <= |a.mem.weightInitialized| == |a.mem.weights|
            else c.elementOffset + c.elementCount <= |a.mem.inputInitialized| <= |a.mem.input|)
    }

    /** All bytes of a Program have arrived: coverage is extended once and the delay, if charged, starts. */
    method ReceiveProgram(a: Array, now: nat)
      requires a.active.Some? && a.active.value.cmd.operation == Program && Fits(a)
      modifies a`mem, a`x
      ensures a.State() == Receive(cfg, old(a.State()), a.active.value.cmd, now)
    {
      var c := a.active.value.cmd;
      var marked, counted, whole := InitializeRange(a.mem.weightInitialized, a.mem.initializedWeights, c.elementOffset, a.x.total / 4);
      var full := counted == a.activeRows * a.activeCols;
      var charged := !cfg.initialProgram || full;
      a.mem := a.mem.(weightInitialized := marked, initializedWeights := counted);
      a.x := a.x.(ready := now + (if charged then cfg.programCost else 0), programming := true, programDelayCharged := charged);
      if charged {
        if cfg.initialProgram { a.mem := a.mem.(initialProgramClosed := true); }
        a.mem := a.mem.(charges := a.mem.charges + 1);
      }
    }

    method FinishProgram(a: Array, now: nat)
      requires a.active.Some? && a.active.value.cmd.operation == Program && Fits(a)
      modifies a, this`tokens, this`guaranteed, this`storeResults
      ensures var w := if old(a.x).programming then old(a.State()) else Receive(cfg, old(a.State()), old(a.active).value.cmd, now);
              CellOf(a) == if now < w.x.ready then Cell(w, old(Tokens()))
                           else CompleteActive(cfg, Cell(CommitProgram(w, old(a.active).value.cmd), old(Tokens())), Status.Complete)
    {
      var c := a.active.value.cmd;
      if !a.x.programming {
        ReceiveProgram(a, now);
      }
      if now < a.x.ready { return; }
      var weights := DecodeVectorPayload(a.mem.weights, c.elementOffset, a.x.bytes);
      a.mem := a.mem.(weights := weights, programmed := a.mem.initializedWeights == a.activeRows * a.activeCols);
      Complete(a, Status.Complete);
    }

    method FinishLoad(a: Array)
      requires a.active.Some? && a.active.value.cmd.operation == Load && Fits(a)
      modifies a, this`tokens, this`guaranteed, this`storeResults
      ensures CellOf(a) == CompleteActive(cfg, Cell(CommitLoad(old(a.State()), old(a.active).value.cmd), old(Tokens())), Status.Complete)
    {
      var c := a.active.value.cmd;
      var input := DecodeVectorPayload(a.mem.input, c.elementOffset, a.x.bytes);
      var marked, counted, full := InitializeRange(a.mem.inputInitialized, a.mem.initializedInputs, c.elementOffset, a.x.total / 4);
      a.mem := a.mem.(input := input, inputInitialized := marked, initializedInputs := counted, loaded := full);
      Complete(a, Status.Complete);
    }

    method Finish(a: Array, now: nat)
      requires a.active.Some? && Fits(a) && RowsExist(a)
      modifies a, this`tokens, this`guaranteed, this`storeResults
      ensures CellOf(a) == Engine.Finish(cfg, old(CellOf(a)), now)
    {
      var c := a.active.value.cmd;
      a.CaptureInput();
      if c.operation == Program {
        FinishProgram(a, now);
      } else if c.operation == Load {
        FinishLoad(a);
      } else {
        Complete(a, Status.Complete);
      }
    }

    // ---- one cycle of one array ----

    ghost predicate Good(a: Array)
      reads this, a
    {
      Sound(cfg, CellOf(a))
    }

    /** One cycle of the chunk buffer. */
    method Move(a: Array, now: nat)
      requires a.active.Some?
      modifies a`x
      ensures a.State() == Engine.Move(cfg, old(a.State()), now)
    {
      var c := a.active.value.cmd;
      a.ReleaseChunks(c.operation == Store, now);
      a.IssueChunks(if c.operation == Store then a.x.bytes else c.payload, cfg.inflightBytes);
    }

    method ExecuteBlocking(a: Array)
      requires a.active.Some? && a.active.value.cmd.operation == Execute && a.activeRows <= |a.out.values|
      modifies a, this`tokens, this`guaranteed, this`storeResults
      ensures CellOf(a) == CompleteActive(cfg, Cell(CommitExecute(cfg, old(a.State())), old(Tokens())), Status.Complete)
    {
      var values := Multiply(cfg, a.mem.weights, a.mem.input, a.activeRows, a.activeCols);
      a.out := Output(Write(a.out.values, 0, values), true, Zeros(a.activeRows), 0);
      Complete(a, Status.Complete);
    }

    method Progress(a: Array, now: nat)
      requires Good(a)
      modifies a, this`tokens, this`guaranteed, this`storeResults
      ensures CellOf(a) == Engine.Progress(cfg, old(CellOf(a)), now)
    {
      if a.active.None? || now < a.x.ready { return; }
      ProgressBounds(CellOf(a), now);
      if a.active.value.cmd.operation == Execute {
        ExecuteBlocking(a);
      } else if a.x.total == 0 {
        a.CaptureInput();
        Complete(a, Status.Complete);
      } else {
        Move(a, now);
        if a.x.complete == a.x.total { Finish(a, now); }
      }
    }

    /** The invariant puts every access of the transfer engine within bounds. */
    lemma ProgressBounds(u: Cell, now: nat)
      requires Sound(cfg, u) && u.a.active.Some?
      ensures var c := u.a.active.value.cmd;
              && u.a.activeRows <= |u.a.out.values|
              && (u.a.x.total == 0 ==> !c.Moves(Store))
              && (c.Moves(Store) ==>
                    if cfg.pipeline then u.a.results == [] || c.elementOffset + c.elementCount <= |u.a.results[0].delivered|
                    else c.elementOffset + c.elementCount <= |u.a.out.delivered|)
              && (c.Input() ==>
                    && u.a.x.total == 4 * c.elementCount == |u.a.x.bytes|
                    && (c.operation == Program ==> c.elementOffset + c.elementCount <= |u.a.mem.weightInitialized| == |u.a.mem.weights|)
                    && (c.operation == Load ==> c.elementOffset + c.elementCount <= |u.a.mem.inputInitialized| <= |u.a.mem.input|))
              && (c.operation != Execute ==>
                    var b := Engine.Move(cfg, u.a, now);
                    && b == u.a.(x := b.x) && b.x.total == u.a.x.total && |b.x.bytes| == |u.a.x.bytes|)
    {
      if u.a.active.value.cmd.operation != Execute { Moving.MoveTransfer(cfg, u.a, now); }
    }

    method Start(a: Array, now: nat)
      requires Good(a) && !cfg.pipeline
      modifies a, this`tokens, this`guaranteed, this`storeResults
      ensures CellOf(a) == Engine.Start(cfg, old(CellOf(a)), now)
    {
      if a.active.Some? || a.queue == [] { return; }
      StartBounds(CellOf(a), 0);
      StartHead(a, now);
    }

    /** The head of the queue leaves it, to be refused or begun. */
    method StartHead(a: Array, now: nat)
      requires a.active.None? && a.queue != [] && !cfg.pipeline
      requires var c := a.queue[0].cmd; c.Moves(Store) ==> c.elementOffset + c.elementCount <= |a.out.values|
      modifies a, this`tokens, this`guaranteed, this`storeResults
      ensures CellOf(a) == Engine.Start(cfg, old(CellOf(a)), now)
    {
      var e := a.queue[0];
      a.active, a.queue := Some(e), a.queue[1..];
      if (cfg.initialProgram && a.mem.initialProgramClosed && e.cmd.Moves(Program))
         || (e.cmd.operation == Execute && (!a.mem.programmed || !a.mem.loaded))
         || (e.cmd.Moves(Store) && !a.out.computed)
      {
        Complete(a, Error);
      } else {
        BeginTransfer(a, now);
      }
    }

    lemma StartBounds(u: Cell, k: nat)
      requires Sound(cfg, u) && k < |u.a.queue|
      ensures Fetchable(u.a, u.a.queue[k].cmd)
    {
      assert Legal(cfg, u.a.activeRows, u.a.activeCols, u.a.queue[k].cmd);
    }

    method StartCompute(a: Array, e: Entry, now: nat)
      modifies a
      ensures CellOf(a) == Engine.StartCompute(cfg, old(CellOf(a)), e, now)
    {
      a.Check(a.compute.entry.Some? || |a.results| >= RESULT_SLOTS);
      a.results := a.results + [Result(ZeroWords(a.activeRows), Zeros(a.activeRows), 0, false, e.cmd.token)];
      a.compute := Compute(Some(e), now + cfg.execCost, a.mem.input);
      a.Reply(e, Started, []);
    }

    /** The reserved slot, the last one, receives the outputs. */
    method FillResult(a: Array)
      modifies a`results, a`fault
      ensures var n := |old(a.results)|; var y := Mvm(cfg, a.mem.weights, a.compute.input, a.activeRows, a.activeCols);
              && a.results == (if n == 0 then [] else old(a.results)[n - 1 := old(a.results)[n - 1].(values := y, ready := true)])
              && a.fault == (old(a.fault) || n == 0 || old(a.results)[n - 1].ready)
    {
      var n := |a.results|;
      a.Check(n == 0 || a.results[n - 1].ready);
      var values := Multiply(cfg, a.mem.weights, a.compute.input, a.activeRows, a.activeCols);
      if n > 0 {
        a.results := a.results[n - 1 := a.results[n - 1].(values := values, ready := true)];
      }
    }

    method ProgressCompute(a: Array, now: nat)
      modifies a, this`tokens
      ensures CellOf(a) == Engine.ProgressCompute(cfg, old(CellOf(a)), now)
    {
      if a.compute.entry.None? || now < a.compute.ready { return; }
      var e := a.compute.entry.value;
      FillResult(a);
      a.Reply(e, Status.Complete, []);
      tokens := tokens - {e.cmd.token};
      a.compute := Compute(None, a.compute.ready, []);
    }

    /** The queue position that may start now, or the length of the queue. */
    method SelectQueued(a: Array) returns (i: nat)
      ensures Select(a.State()) == if i < |a.queue| then Some(i) else None
    {
      i := |a.queue|;
      if a.queue == [] { return; }
      var execute := a.queue[0].cmd.operation == Execute;
      var busy := a.compute.entry.Some? || |a.results| >= RESULT_SLOTS;
      if a.active.Some? {
        if a.active.value.cmd.operation != Store || !execute || busy { return; }
        i := 0;
      } else if execute && busy {
        i := FindStore(a.queue, 1);
      } else {
        i := 0;
      }
    }

    /** One attempt: refuse, start a compute, or start a transfer; `again` tells whether another follows. */
    method Attempt(a: Array, now: nat, ghost attempts: nat) returns (again: bool)
      requires Good(a) && cfg.pipeline && attempts > 0
      modifies a, this`tokens
      ensures again ==> Good(a) && Engine.StartPipeline(cfg, CellOf(a), now, attempts - 1)
                                == Engine.StartPipeline(cfg, old(CellOf(a)), now, attempts)
      ensures !again ==> CellOf(a) == Engine.StartPipeline(cfg, old(CellOf(a)), now, attempts)
    {
      var i := SelectQueued(a);
      PipelineEnds(CellOf(a), now, attempts);
      if i >= |a.queue| { return false; }
      again := Launch(a, i, now, attempts);
    }

    /** `run` makes up to n attempts from u, and `good` is the invariant of the array. */
    ghost predicate Attempting(run: (Cell, nat) -> Cell, good: Cell -> bool, now: nat, u: Cell, n: nat) {
      run(u, n) == Engine.StartPipeline(cfg, u, now, n) && good(u) == Sound(cfg, u)
    }

    method AttemptOnce(a: Array, now: nat, ghost attempts: nat, ghost run: (Cell, nat) -> Cell, ghost good: Cell -> bool) returns (again: bool)
      requires good(CellOf(a)) && cfg.pipeline && attempts > 0 && forall u: Cell, n: nat :: Attempting(run, good, now, u, n)
      modifies a, this`tokens
      ensures again ==> good(CellOf(a)) && run(CellOf(a), attempts - 1) == run(old(CellOf(a)), attempts)
      ensures !again ==> CellOf(a) == run(old(CellOf(a)), attempts)
    {
      assert Attempting(run, good, now, CellOf(a), attempts);
      again := Attempt(a, now, attempts);
      assert Attempting(run, good, now, CellOf(a), attempts - 1);
    }

    method Attempts(a: Array, now: nat, attempts: nat, ghost run: (Cell, nat) -> Cell, ghost good: Cell -> bool)
      requires good(CellOf(a)) && cfg.pipeline && forall u: Cell, n: nat :: Attempting(run, good, now, u, n)
      modifies a, this`tokens
      ensures CellOf(a) == run(old(CellOf(a)), attempts)
    {
      var attempt := 0;
      while attempt < attempts
        invariant 0 <= attempt <= attempts && good(CellOf(a))
        invariant run(CellOf(a), attempts - attempt) == run(old(CellOf(a)), attempts)
      {
        var again := AttemptOnce(a, now, attempts - attempt, run, good);
        if !again { return; }
        attempt := attempt + 1;
      }
      AttemptsEnd(CellOf(a), now, run, good);
    }

    lemma AttemptsEnd(u: Cell, now: nat, run: (Cell, nat) -> Cell, good: Cell -> bool)
      requires Attempting(run, good, now, u, 0)
      ensures run(u, 0) == u
    {
    }

    /** At most one attempt for each accepted command. */
    method StartPipeline(a: Array, now: nat)
      requires Good(a) && cfg.pipeline
      modifies a, this`tokens
      ensures CellOf(a) == Engine.StartPipeline(cfg, old(CellOf(a)), now, QUEUE_ENTRIES)
    {
      ghost var run := (u: Cell, n: nat) => Engine.StartPipeline(cfg, u, now, n);
      ghost var good := (u: Cell) => Sound(cfg, u);
      forall u: Cell, n: nat ensures Attempting(run, good, now, u, n) {}
      Attempts(a, now, QUEUE_ENTRIES, run, good);
    }

    lemma PipelineEnds(u: Cell, now: nat, attempts: nat)
      ensures attempts == 0 || Select(u.a).None? ==> Engine.StartPipeline(cfg, u, now, attempts) == u
    {
    }

    method Refuse(a: Array, i: nat)
      requires i < |a.queue|
      modifies a, this`tokens
      ensures CellOf(a) == Starting.Rejected(old(CellOf(a)), i)
    {
      var e := a.queue[i];
      a.queue := a.queue[..i] + a.queue[i + 1..];
      RejectQueued(a, e);
    }

    method LaunchCompute(a: Array, now: nat)
      requires a.queue != []
      modifies a
      ensures CellOf(a) == Starting.Computing(cfg, old(CellOf(a)), now)
    {
      var e := a.queue[0];
      a.queue := a.queue[..0] + a.queue[1..];
      StartCompute(a, e, now);
    }

    method LaunchTransfer(a: Array, i: nat, now: nat)
      requires i < |a.queue| && Fetchable(a.State(), a.queue[i].cmd)
      modifies a
      ensures CellOf(a) == Starting.Begun(cfg, old(CellOf(a)), i, now)
    {
      var e := a.queue[i];
      a.active, a.queue := Some(e), a.queue[..i] + a.queue[i + 1..];
      BeginTransfer(a, now);
    }

    /** Treats the selected command; `again` tells whether another attempt follows. */
    method Launch(a: Array, i: nat, now: nat, ghost attempts: nat) returns (again: bool)
      requires Good(a) && cfg.pipeline && Select(a.State()) == Some(i) && attempts > 0
      modifies a, this`tokens
      ensures again ==> Good(a) && Engine.StartPipeline(cfg, CellOf(a), now, attempts - 1)
                                == Engine.StartPipeline(cfg, old(CellOf(a)), now, attempts)
      ensures !again ==> CellOf(a) == Engine.StartPipeline(cfg, old(CellOf(a)), now, attempts)
    {
      var c := a.queue[i].cmd;
      again := true;
      LaunchCases(CellOf(a), i, now, attempts);
      if cfg.initialProgram && a.mem.initialProgramClosed && c.Moves(Program) {
        Refuse(a, i);
      } else if c.operation == Execute {
        if !a.mem.programmed || !a.mem.loaded {
          Refuse(a, i);
        } else {
          LaunchCompute(a, now);
        }
      } else if a.active.Some? {
        again := false;
      } else if c.Moves(Store) && a.results == [] {
        Refuse(a, i);
      } else if c.Moves(Store) && !a.results[0].ready {
        again := false;
      } else if c.Moves(Program) && a.results != [] {
        // Admission excludes this; the component would refuse the command here.
        assert false;
      } else {
        StartBounds(CellOf(a), i);
        LaunchTransfer(a, i, now);
        again := false;
      }
    }

    /** What each branch of a launch leads to. */
    lemma LaunchCases(u: Cell, i: nat, now: nat, attempts: nat)
      requires Sound(cfg, u) && cfg.pipeline && Select(u.a) == Some(i) && attempts > 0
      ensures var c := u.a.queue[i].cmd;
              && (Cycle.Refused(cfg, u.a, c) ==>
                    && Sound(cfg, Starting.Rejected(u, i))
                    && Engine.StartPipeline(cfg, Starting.Rejected(u, i), now, attempts - 1) == Engine.StartPipeline(cfg, u, now, attempts))
              && (c.operation == Execute && !Cycle.Refused(cfg, u.a, c) ==>
                    && i == 0 && Sound(cfg, Starting.Computing(cfg, u, now))
                    && Engine.StartPipeline(cfg, Starting.Computing(cfg, u, now), now, attempts - 1) == Engine.StartPipeline(cfg, u, now, attempts))
              && (c.Moves(Program) ==> u.a.results == [])
              && (!Cycle.Refused(cfg, u.a, c) && c.operation != Execute ==>
                    Engine.StartPipeline(cfg, u, now, attempts)
                    == if u.a.active.Some? || (c.Moves(Store) && !u.a.results[0].ready) then u
                       else Starting.Begun(cfg, u, i, now))
    {
      Cycle.SelectShape(cfg, u);
      if Cycle.Refused(cfg, u.a, u.a.queue[i].cmd) {
        Cycle.RefusedRejects(cfg, u, i);
        Starting.RejectSound(cfg, u, i);
        Cycle.RejectsNext(cfg, u, now, attempts);
      } else if u.a.queue[i].cmd.operation == Execute {
        Cycle.ComputesNext(cfg, u, now, attempts);
        Starting.ComputeSound(cfg, u, now);
      } else if u.a.active.None? && !(u.a.queue[i].cmd.Moves(Store) && !u.a.results[0].ready) {
        Cycle.BeginsNext(cfg, u, now, attempts);
      }
    }

    method TickOne(a: Array, now: nat)
      requires Good(a)
      modifies a, this`tokens, this`guaranteed, this`storeResults
      ensures CellOf(a) == TickArray(cfg, old(CellOf(a)), now)
    {
      TickGood(CellOf(a), now);
      if !cfg.pipeline {
        Start(a, now);
        Progress(a, now);
        return;
      }
      ProgressCompute(a, now);
      Progress(a, now);
      var transferWasActive := a.active.Some?;
      StartPipeline(a, now);
      if !transferWasActive { Progress(a, now); }
      ProgressCompute(a, now);
    }

    /** The invariant holds at every point of a cycle. */
    lemma TickGood(u: Cell, now: nat)
      requires Sound(cfg, u)
      ensures !cfg.pipeline ==> Sound(cfg, Engine.Start(cfg, u, now))
      ensures cfg.pipeline ==>
                var o := Engine.ProgressCompute(cfg, u, now); var p := Engine.Progress(cfg, o, now);
                Sound(cfg, o) && Sound(cfg, p) && Sound(cfg, Engine.StartPipeline(cfg, p, now, QUEUE_ENTRIES))
    {
      if cfg.pipeline {
        var o := Engine.ProgressCompute(cfg, u, now);
        Stepping.ProgressComputeSound(cfg, u, now);
        Cycle.ProgressSound(cfg, o, now);
        Cycle.StartPipelineSound(cfg, Engine.Progress(cfg, o, now), now, QUEUE_ENTRIES);
      } else {
        Cycle.StartSound(cfg, u, now);
      }
    }

    // ---- admission ----

    /** Reserves a waiting Program in the projected coverage. */
    method ReserveProgram(a: Array, c: Command)
      requires c.Moves(Program) ==> c.elementOffset + c.elementCount <= |a.projection.initialized|
      modifies a`projection
      ensures a.projection == Reserve(old(a.projection), c)
    {
      if c.Moves(Program) {
        var marked, counted, full := InitializeRange(a.projection.initialized, a.projection.count, c.elementOffset, c.elementCount);
        a.projection := Projection(marked, counted);
      }
    }

    /** Waiting Programs fit the weights. */
    ghost predicate ProgramsFit(a: Array)
      reads a
    {
      && (a.projection.initialized != [] ==> |a.projection.initialized| == |a.mem.weightInitialized|)
      && (forall k :: 0 <= k < |a.queue| && a.queue[k].cmd.Moves(Program) ==>
            a.queue[k].cmd.elementOffset + a.queue[k].cmd.elementCount <= |a.mem.weightInitialized|)
      && (a.active.Some? && a.active.value.cmd.Moves(Program) ==>
            a.active.value.cmd.elementOffset + a.active.value.cmd.elementCount <= |a.mem.weightInitialized|)
    }

    lemma GoodProgramsFit(a: Array)
      requires Good(a)
      ensures ProgramsFit(a) && |a.mem.weightInitialized| == cfg.rows * cfg.cols
    {
      forall k | 0 <= k < |a.queue| ensures Legal(cfg, a.activeRows, a.activeCols, a.queue[k].cmd) {}
    }

    method InitializeProgramProjection(a: Array)
      requires ProgramsFit(a)
      modifies a`projection
      ensures a.State() == InitializeProjection(old(a.State()))
      ensures a.projection.initialized == [] || |a.projection.initialized| == |a.mem.weightInitialized|
    {
      if a.projection.initialized != [] { return; }
      a.projection := Projection(a.mem.weightInitialized, a.mem.initializedWeights);
      ghost var target := ReserveAll(a.projection, InFlight(a.State()));
      if a.active.Some? {
        assert InFlight(a.State())[0] == a.active.value && InFlight(a.State())[1..] == a.queue;
        ReserveProgram(a, a.active.value.cmd);
      } else {
        assert InFlight(a.State()) == a.queue;
      }
      ReserveQueue(a);
      assert a.projection == target;
    }

    method ReserveQueue(a: Array)
      requires forall k :: 0 <= k < |a.queue| && a.queue[k].cmd.Moves(Program) ==>
                 a.queue[k].cmd.elementOffset + a.queue[k].cmd.elementCount <= |a.projection.initialized|
      modifies a`projection
      ensures a.projection == ReserveAll(old(a.projection), a.queue)
      ensures |a.projection.initialized| == |old(a.projection).initialized|
    {
      var k := 0;
      while k < |a.queue|
        invariant 0 <= k <= |a.queue|
        invariant |a.projection.initialized| == |old(a.projection).initialized|
        invariant ReserveAll(a.projection, a.queue[k..]) == ReserveAll(old(a.projection), a.queue)
      {
        assert a.queue[k..][0] == a.queue[k] && a.queue[k..][1..] == a.queue[k + 1..];
        ReserveProgram(a, a.queue[k].cmd);
        k := k + 1;
      }
      assert a.queue[k..] == [];
    }

    /** One step of the walk over copies of the result slots. */
    method WalkOne(w: Walk, c: Command) returns (v: Walk)
      requires c.Moves(Store) ==> forall j :: 0 <= j < |w.results| ==> c.elementOffset + c.elementCount <= |w.results[j].delivered|
      ensures v == WalkStore(w, storeResults, c)
      ensures |v.results| == |w.results|
      ensures forall j :: 0 <= j < |w.results| ==> |v.results[j].delivered| == |w.results[j].delivered|
    {
      v := w;
      if w.short || !c.Moves(Store) { return; }
      if w.current >= |w.results| { v := w.(short := true); return; }
      var r := w.results[w.current];
      var clash := w.clash || (c.token in storeResults && storeResults[c.token] != r.token);
      var marked, counted, full := InitializeRange(r.delivered, r.deliveredRows, c.elementOffset, c.elementCount);
      v := Walk(w.results[w.current := r.(delivered := marked, deliveredRows := counted)],
                if full then w.current + 1 else w.current, false, clash);
    }

    /** Waiting Stores fit the rows of the result slots. */
    ghost predicate StoresFit(a: Array)
      reads a
    {
      && (forall j :: 0 <= j < |a.results| ==> |a.results[j].delivered| == a.activeRows)
      && (forall k :: 0 <= k < |a.queue| && a.queue[k].cmd.Moves(Store) ==>
            a.queue[k].cmd.elementOffset + a.queue[k].cmd.elementCount <= a.activeRows)
      && (a.active.Some? && a.active.value.cmd.Moves(Store) ==>
            a.active.value.cmd.elementOffset + a.active.value.cmd.elementCount <= a.activeRows)
    }

    lemma GoodFits(a: Array)
      requires Good(a)
      ensures StoresFit(a)
    {
      forall k | 0 <= k < |a.queue| ensures Legal(cfg, a.activeRows, a.activeCols, a.queue[k].cmd) {}
      forall j | 0 <= j < |a.results| ensures ResultOk(a.State(), a.results[j]) {}
    }

    /** The result slot a further Store will read, when one is certain; waiting Stores are projected in order. */
    method ProjectedStoreResult(a: Array) returns (token: Option<Token>, clash: bool)
      requires StoresFit(a)
      ensures token == ProjectedResult(StoreWalk(a.State(), storeResults))
      ensures clash == StoreWalk(a.State(), storeResults).clash
    {
      var w := Walk(a.results, 0, false, false);
      if a.active.Some? {
        w := WalkOne(w, a.active.value.cmd);
        assert InFlight(a.State())[0] == a.active.value && InFlight(a.State())[1..] == a.queue;
      } else {
        assert InFlight(a.State()) == a.queue;
      }
      var k := 0;
      while k < |a.queue|
        invariant 0 <= k <= |a.queue|
        invariant forall j :: 0 <= j < |w.results| ==> |w.results[j].delivered| == a.activeRows
        invariant WalkStores(w, storeResults, a.queue[k..]) == StoreWalk(a.State(), storeResults)
      {
        assert a.queue[k..][0] == a.queue[k] && a.queue[k..][1..] == a.queue[k + 1..];
        w := WalkOne(w, a.queue[k].cmd);
        k := k + 1;
      }
      assert a.queue[k..] == [];
      token := if w.short || w.current >= |w.results| then None else Some(w.results[w.current].token);
      clash := w.clash;
    }

    /** Blocking mode: whether the output is certain to be valid after the waiting commands. */
    method ProjectedNonpipelineOutput(a: Array) returns (valid: bool)
      ensures valid == ProjectedOutput(OutputAfterActive(a.State()), a.queue)
    {
      valid := a.out.computed;
      if a.active.Some? {
        var c := a.active.value.cmd;
        if c.operation == Execute {
          valid := true;
        } else if c.elementCount > 0 && c.Input() {
          valid := false;
        }
      }
      var k := 0;
      while k < |a.queue|
        invariant 0 <= k <= |a.queue|
        invariant ProjectedOutput(valid, a.queue[k..]) == ProjectedOutput(OutputAfterActive(a.State()), a.queue)
      {
        assert a.queue[k..][0] == a.queue[k] && a.queue[k..][1..] == a.queue[k + 1..];
        var c := a.queue[k].cmd;
        if c.operation == Execute || (c.elementCount > 0 && c.Input()) { valid := false; }
        k := k + 1;
      }
      assert a.queue[k..] == [];
    }

    method AnyExecute(q: seq<Entry>) returns (found: bool)
      ensures found == exists k :: 0 <= k < |q| && q[k].cmd.operation == Execute
    {
      found := false;
      var k := 0;
      while k < |q| && !found
        invariant 0 <= k <= |q|
        invariant found == exists j :: 0 <= j < k && q[j].cmd.operation == Execute
      {
        found := q[k].cmd.operation == Execute;
        k := k + 1;
      }
    }

    /** The checks that answer Error. */
    method Validate(a: Array, r: Command) returns (ok: bool)
      requires cfg.cols > 0
      ensures ok == Admissible(cfg, a.State(), r)
    {
      ok := false;
      var elements := match r.operation
        case Program => cfg.rows * cfg.cols
        case Load => a.activeCols
        case Store => a.activeRows
        case _ => 0;
      if (r.deferred && r.operation == Execute) || r.elementOffset > elements || r.elementCount > elements - r.elementOffset
         || r.elementCount * 4 >= UINT32_RANGE
         || (if r.Input() then |r.payload| != r.elementCount * 4 else r.payload != [])
      {
        return;
      }
      if r.Moves(Program) {
        var firstRow, firstCol := r.elementOffset / cfg.cols, r.elementOffset % cfg.cols;
        var lastRow := (r.elementOffset + r.elementCount - 1) / cfg.cols;
        if lastRow >= a.activeRows || firstCol >= a.activeCols
           || (if firstRow == lastRow then firstCol + r.elementCount > a.activeCols else a.activeCols != cfg.cols)
        {
          return;
        }
        if cfg.initialProgram && a.mem.initialProgramClosed { return; }
        if cfg.pipeline {
          var queued := AnyExecute(a.queue);
          if a.results != [] || queued { return; }
        }
      }
      ok := true;
    }

    method ConfigureArray(a: Array, r: Command) returns (status: Status)
      modifies a
      ensures status == if Configurable(cfg, old(a.State()), r) then Status.Complete else Error
      ensures a.State() == if Configurable(cfg, old(a.State()), r) then Configured(cfg, old(a.State()), r) else old(a.State())
    {
      var rows, cols := ConfiguredRows(r), ConfiguredCols(r);
      if rows == 0 || cols == 0 || rows > cfg.rows || cols > cfg.cols
         || a.active.Some? || a.compute.entry.Some? || a.queue != [] || a.results != []
         || (!cfg.pipeline && a.out.computed && a.out.deliveredRows < a.activeRows)
      {
        return Error;
      }
      ApplyConfigure(a, r);
      status := Status.Complete;
    }

    method ApplyConfigure(a: Array, r: Command)
      modifies a
      ensures a.State() == Configured(cfg, old(a.State()), r)
    {
      var e := Entry(r, |a.log|);
      a.log := a.log + [r];
      a.Reply(e, Accepted, []);
      // Coverage is invalidated; the resident weights and inputs stay where they are.
      a.activeRows, a.activeCols := ConfiguredRows(r), ConfiguredCols(r);
      a.mem := a.mem.(weightInitialized := Zeros(|a.mem.weightInitialized|), initializedWeights := 0,
                      inputInitialized := Zeros(a.activeCols), initializedInputs := 0,
                      programmed := false, loaded := false, initialProgramClosed := false, charges := 0);
      a.x := a.x.(programDelayCharged := false);
      a.projection := Projection([], 0);
      a.out := a.out.(computed := false, delivered := [], deliveredRows := 0);
      a.Reply(e, Status.Complete, []);
    }

    /** The projection part of an arrival; `ok` is false when a deferred Program comes too late. */
    method ProjectProgram(a: Array, r: Command) returns (ok: bool)
      requires ProgramsFit(a)
      requires r.Moves(Program) ==> r.elementOffset + r.elementCount <= |a.mem.weightInitialized|
      modifies a`projection
      ensures a.State() == Projected(cfg, old(a.State()), r).0 && ok == Projected(cfg, old(a.State()), r).1
    {
      ok := true;
      if cfg.initialProgram && r.Moves(Program) {
        if r.deferred { InitializeProgramProjection(a); }
        if a.projection.initialized != [] {
          if r.deferred && a.projection.count == a.activeRows * a.activeCols { return false; }
          ReserveProgram(a, r);
        }
      }
    }

    /** Whether the command is answered Guaranteed; a guaranteed Store reserves its result. */
    method PromiseFor(a: Array, r: Command) returns (promise: bool)
      requires StoresFit(a)
      modifies a`fault, this`storeResults
      ensures var p := Promise(cfg, old(a.State()), old(Tokens()), r);
              && promise == p.0
              && storeResults == if p.1.Some? then old(storeResults)[r.token := p.1.value] else old(storeResults)
      ensures a.fault == (old(a.fault) || (cfg.pipeline && r.deferred && r.Moves(Store)
                                           && StoreWalk(old(a.State()), old(storeResults)).clash))
    {
      promise := r.deferred;
      if promise && r.Moves(Store) {
        if cfg.pipeline {
          var token, clash := ProjectedStoreResult(a);
          a.Check(clash);
          promise := token.Some?;
          if token.Some? { storeResults := storeResults[r.token := token.value]; }
        } else {
          promise := ProjectedNonpipelineOutput(a);
        }
      }
    }

    method Admit(a: Array, r: Command) returns (status: Status)
      requires StoresFit(a)
      modifies a, this`tokens, this`guaranteed, this`storeResults
      ensures (CellOf(a), status) == Enqueue(cfg, old(a.State()), old(Tokens()), r)
    {
      var e := Entry(r, |a.log|);
      var promise := PromiseFor(a, r);
      if promise { guaranteed := guaranteed + {r.token}; }
      tokens := tokens + {r.token};
      a.queue, a.log := a.queue + [e], a.log + [r];
      status := if promise then Guaranteed else Accepted;
      a.Reply(e, status, []);
    }

    method ArriveTransfer(a: Array, r: Command) returns (status: Status)
      requires Good(a) && r.operation != Configure && Admissible(cfg, a.State(), r) && Occupied(a.State()) < QUEUE_ENTRIES
      modifies a, this`tokens, this`guaranteed, this`storeResults
      ensures (CellOf(a), status) == Arrive(cfg, old(CellOf(a)), r)
    {
      GoodFits(a);
      GoodProgramsFit(a);
      AdmitGood(CellOf(a), r);
      var ok := ProjectProgram(a, r);
      if !ok { return Error; }
      status := Admit(a, r);
    }

    /** Arrival of a command at one array. */
    method ArriveAt(a: Array, r: Command) returns (status: Status)
      requires Good(a)
      modifies a, this`tokens, this`guaranteed, this`storeResults
      ensures (CellOf(a), status) == Arrive(cfg, old(CellOf(a)), r)
    {
      if r.operation == Configure {
        if r.deferred || r.elementCount > 0 || r.payload != [] { return Error; }
        status := ConfigureArray(a, r);
        return;
      }
      var ok := Validate(a, r);
      if !ok { return Error; }
      if |a.queue| + (if a.active.Some? then 1 else 0) + (if a.compute.entry.Some? then 1 else 0) >= QUEUE_ENTRIES {
        return Busy;
      }
      status := ArriveTransfer(a, r);
    }

    /** After the projection step the array may still enqueue: bounds and identities are untouched. */
    lemma AdmitGood(u: Cell, r: Command)
      requires Sound(cfg, u) && r.operation != Configure && Admissible(cfg, u.a, r)
      ensures var b := Projected(cfg, u.a, r).0; Admissible(cfg, b, r) && b == u.a.(projection := b.projection)
    {
      Arrivals.ProjectedSound(cfg, u, r);
    }

    // ---- the whole component ----

    ghost function States(): (r: seq<ArrayState>)
      reads this, arrays
      ensures |r| == |arrays| && forall i :: 0 <= i < |arrays| ==> r[i] == arrays[i].State()
    {
      seq(|arrays|, i requires 0 <= i < |arrays| reads this, arrays => arrays[i].State())
    }

    ghost function Snapshot(): Component
      reads this, arrays
    {
      Component(States(), Tokens(), cursor)
    }

    /** The arrays are distinct objects, so that updating one leaves the others as they are. */
    ghost predicate Separate()
      reads this
    {
      forall i, j :: 0 <= i < j < |arrays| ==> arrays[i] != arrays[j]
    }

    ghost predicate Valid()
      reads this, arrays
    {
      && Separate() && arrays != [] && cursor < |arrays|
      && ComponentOk(cfg, Snapshot())
      && forall i :: 0 <= i < |arrays| ==> !arrays[i].fault
    }

    lemma NoFaults()
      requires ComponentOk(cfg, Snapshot())
      ensures forall i :: 0 <= i < |arrays| ==> !arrays[i].fault
    {
      forall i | 0 <= i < |arrays| ensures !arrays[i].fault {
        assert Sound(cfg, Cell(States()[i], Tokens()));
      }
    }

    constructor (config: Config, count: nat)
      requires config.Valid() && count > 0
      ensures cfg == config && Valid() && fresh(arrays)
      ensures Snapshot() == InitialComponent(config, count)
    {
      cfg := config;
      arrays, tokens, guaranteed, storeResults, cursor := [], {}, {}, map[], 0;
      new;
      for i := 0 to count
        invariant |arrays| == i && fresh(arrays) && Separate()
        invariant tokens == {} && guaranteed == {} && storeResults == map[] && cursor == 0
        invariant forall k :: 0 <= k < i ==> arrays[k].State() == InitialArray(cfg)
      {
        var a := new Array(cfg);
        arrays := arrays + [a];
      }
      assert States() == InitialComponent(cfg, count).arrays;
      InitialOk(cfg, count);
      NoFaults();
    }

    ghost predicate Healthy()
      reads this, arrays
    {
      Separate() && cfg.Valid() && AllSound(cfg, States(), Tokens()) && TokensOk(States(), Tokens())
    }

    /** `run` ticks the arrays from number i on. */
    ghost predicate Ticking(run: (seq<ArrayState>, Shared, nat) -> (seq<ArrayState>, Shared), now: nat, states: seq<ArrayState>,
                            t: Shared, i: nat) {
      run(states, t, i) == TickFrom(cfg, states, t, i, now)
    }

    /** `good` is the invariant of all arrays. */
    ghost predicate Watching(good: (seq<ArrayState>, Shared) -> bool, states: seq<ArrayState>, t: Shared) {
      good(states, t) == (cfg.Valid() && AllSound(cfg, states, t) && TokensOk(states, t))
    }

    method TickNext(i: nat, now: nat, ghost run: (seq<ArrayState>, Shared, nat) -> (seq<ArrayState>, Shared),
                    ghost good: (seq<ArrayState>, Shared) -> bool)
      requires Separate() && good(States(), Tokens()) && i < |arrays|
      requires forall states: seq<ArrayState>, t: Shared, k: nat :: Ticking(run, now, states, t, k)
      requires forall states: seq<ArrayState>, t: Shared :: Watching(good, states, t)
      modifies arrays[i], this`tokens, this`guaranteed, this`storeResults
      ensures good(States(), Tokens()) && run(States(), Tokens(), i + 1) == run(old(States()), old(Tokens()), i)
    {
      assert Ticking(run, now, States(), Tokens(), i) && Watching(good, States(), Tokens());
      TickStep(i, now);
      assert Ticking(run, now, States(), Tokens(), i + 1) && Watching(good, States(), Tokens());
    }

    method TickAll(now: nat, ghost run: (seq<ArrayState>, Shared, nat) -> (seq<ArrayState>, Shared),
                   ghost good: (seq<ArrayState>, Shared) -> bool)
      requires Separate() && good(States(), Tokens())
      requires forall states: seq<ArrayState>, t: Shared, i: nat :: Ticking(run, now, states, t, i)
      requires forall states: seq<ArrayState>, t: Shared :: Watching(good, states, t)
      modifies arrays, this`tokens, this`guaranteed, this`storeResults
      ensures (States(), Tokens()) == run(old(States()), old(Tokens()), 0)
    {
      var i := 0;
      while i < |arrays|
        invariant 0 <= i <= |arrays| && good(States(), Tokens())
        invariant run(States(), Tokens(), i) == run(old(States()), old(Tokens()), 0)
      {
        TickNext(i, now, run, good);
        i := i + 1;
      }
      TicksEnd(States(), Tokens(), now, run);
    }

    lemma TicksEnd(states: seq<ArrayState>, t: Shared, now: nat, run: (seq<ArrayState>, Shared, nat) -> (seq<ArrayState>, Shared))
      requires Ticking(run, now, states, t, |states|)
      ensures run(states, t, |states|) == (states, t)
    {
    }

    /** Phase 1 of a cycle: every array in order. */
    method TickArrays(now: nat)
      requires Healthy()
      modifies arrays, this`tokens, this`guaranteed, this`storeResults
      ensures (States(), Tokens()) == TickFrom(cfg, old(States()), old(Tokens()), 0, now)
    {
      ghost var run := (states: seq<ArrayState>, t: Shared, i: nat) => TickFrom(cfg, states, t, i, now);
      ghost var good := (states: seq<ArrayState>, t: Shared) => cfg.Valid() && AllSound(cfg, states, t) && TokensOk(states, t);
      forall states: seq<ArrayState>, t: Shared, i: nat ensures Ticking(run, now, states, t, i) {}
      forall states: seq<ArrayState>, t: Shared ensures Watching(good, states, t) {}
      TickAll(now, run, good);
    }

    method TickStep(i: nat, now: nat)
      requires Healthy() && i < |arrays|
      modifies arrays[i], this`tokens, this`guaranteed, this`storeResults
      ensures Healthy()
      ensures TickFrom(cfg, States(), Tokens(), i + 1, now) == TickFrom(cfg, old(States()), old(Tokens()), i, now)
    {
      Runs.TickOne(cfg, States(), Tokens(), i, now);
      TickOneAt(i, now);
    }

    method TickOneAt(i: nat, now: nat)
      requires Separate() && i < |arrays| && Good(arrays[i])
      modifies arrays[i], this`tokens, this`guaranteed, this`storeResults
      ensures var v := TickArray(cfg, Cell(old(States())[i], old(Tokens())), now);
              States() == old(States())[i := v.a] && Tokens() == v.s
    {
      ghost var before := States();
      TickOne(arrays[i], now);
      OnlyOneChanged(before, i);
    }

    lemma OnlyOneChanged(before: seq<ArrayState>, i: nat)
      requires |before| == |arrays| && i < |arrays|
      requires forall k :: 0 <= k < |arrays| && k != i ==> arrays[k].State() == before[k]
      ensures States() == before[i := arrays[i].State()]
    {
    }

    /** The array n places after the rotating cursor. */
    method Rotated(n: nat) returns (i: nat)
      requires cursor < |arrays| && n < |arrays|
      ensures i == Turn(cursor, n, |arrays|)
    {
      TurnIsModulo(cursor, n, |arrays|);
      i := (cursor + n) % |arrays|;
    }

    method LinkArrays(now: nat)
      requires Separate() && cursor < |arrays|
      modifies arrays
      ensures States() == LinkFrom(cfg, Quiescence.LinkBudget(cfg, old(States())), cursor, 0, now).arrays
    {
      var readBudget: nat, writeBudget: nat := cfg.linkWidth, if cfg.independent then cfg.linkWidth else 0;
      ghost var target := LinkFrom(cfg, Service(States(), readBudget, writeBudget), cursor, 0, now);
      var n := 0;
      while n < |arrays|
        invariant 0 <= n <= |arrays|
        invariant LinkFrom(cfg, Service(States(), readBudget, writeBudget), cursor, n, now) == target
      {
        readBudget, writeBudget := ServeNext(n, readBudget, writeBudget, now);
        n := n + 1;
      }
    }

    method ServeNext(n: nat, read: nat, write: nat, now: nat) returns (readLeft: nat, writeLeft: nat)
      requires Separate() && cursor < |arrays| && n < |arrays|
      modifies arrays
      ensures LinkFrom(cfg, Service(States(), readLeft, writeLeft), cursor, n + 1, now)
           == LinkFrom(cfg, Service(old(States()), read, write), cursor, n, now)
    {
      Quiescence.LinkUnfold(cfg, Service(States(), read, write), cursor, n, now);
      var i := Rotated(n);
      readLeft, writeLeft := ServeAt(i, read, write, now);
    }

    /** Phase 2 of a cycle: link service in rotation, then the cursor advances. */
    method Link(now: nat)
      requires Separate() && cursor < |arrays|
      modifies arrays, this`cursor
      ensures Snapshot() == Engine.Link(cfg, old(Snapshot()), now) && cursor < |arrays|
    {
      LinkArrays(now);
      Divide(0, |arrays|, cursor);
      cursor := (cursor + 1) % |arrays|;
    }

    method ServeAt(i: nat, read: nat, write: nat, now: nat) returns (readLeft: nat, writeLeft: nat)
      requires Separate() && i < |arrays|
      modifies arrays[i]
      ensures Service(States(), readLeft, writeLeft) == Serve(cfg, Service(old(States()), read, write), i, now)
    {
      readLeft, writeLeft := read, write;
      var a := arrays[i];
      ghost var before := States();
      if a.active.None? || now < a.x.ready {
        assert States() == before;
        return;
      }
      if cfg.independent && a.active.value.cmd.operation == Store {
        writeLeft := a.ServeChunks(write, now);
      } else {
        readLeft := a.ServeChunks(read, now);
      }
      OnlyOneChanged(before, i);
    }

    method TickPhases(now: nat)
      requires Healthy() && cursor < |arrays|
      modifies this, arrays
      ensures Separate() && arrays == old(arrays) && cursor < |arrays|
      ensures Snapshot() == Engine.Tick(cfg, old(Snapshot()), now)
    {
      TickArrays(now);
      Link(now);
    }

    /** The clock handler. */
    method Tick(now: nat)
      requires Valid()
      modifies this, arrays
      ensures Valid() && arrays == old(arrays)
      ensures Snapshot() == Engine.Tick(cfg, old(Snapshot()), now)
    {
      TickOk(cfg, Snapshot(), now);
      TickPhases(now);
      NoFaults();
    }

    method CommandAt(r: Commands.Command) returns (status: Status)
      requires Separate() && r.target < |arrays| && Good(arrays[r.target])
      modifies arrays[r.target], this`tokens, this`guaranteed, this`storeResults
      ensures var v := Arrive(cfg, Cell(old(States())[r.target], old(Tokens())), r);
              States() == old(States())[r.target := v.0.a] && Tokens() == v.0.s && status == v.1
    {
      ghost var before := States();
      status := ArriveAt(arrays[r.target], r);
      OnlyOneChanged(before, r.target);
    }

    lemma GoodArray(i: nat)
      requires cfg.Valid() && AllSound(cfg, States(), Tokens()) && i < |arrays|
      ensures Good(arrays[i])
    {
      assert Sound(cfg, Cell(States()[i], Tokens()));
    }

    /** The command handler; the result is the last immediate reply. */
    method Command(r: Commands.Command) returns (status: Status)
      requires Valid()
      modifies this, arrays
      ensures Valid() && arrays == old(arrays)
      ensures (Snapshot(), status) == Submit(cfg, old(Snapshot()), r)
    {
      if r.status != Request || r.target >= |arrays| || r.token in tokens {
        return Error;
      }
      SubmitOk(cfg, Snapshot(), r);
      GoodArray(r.target);
      status := CommandAt(r);
      NoFaults();
    }
  }
}
