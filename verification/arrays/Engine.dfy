/** One clocked analog array and the component that owns several of them, as functions
    from state to state. Every runtime check that the component treats as fatal sets the
    sticky `fault` flag of the array instead of stopping. */
module Engine {
  import opened Options
  import opened Vectors
  import opened Commands

  // ---- state ----

  /** An accepted command and its ordinal among the commands the array accepted. */
  datatype Entry = Entry(cmd: Command, id: nat)

  /** A reply about an accepted command. */
  datatype Reply = Reply(request: Entry, status: Status, payload: seq<Byte>)

  datatype Chunk = Chunk(offset: nat, bytes: int, linked: int, linkReady: nat, data: seq<Byte>)

  datatype Result = Result(
    values: seq<Word>, delivered: seq<bool>, deliveredRows: nat, ready: bool, token: Token)

  /** The transfer engine: byte counters and chunks of the active command. */
  datatype Transfer = Transfer(
    ready: nat, total: nat, issued: nat, complete: int, buffered: int,
    programming: bool, inputCaptured: bool, programDelayCharged: bool,
    bytes: seq<Byte>, chunks: seq<Chunk>)

  /** Resident weights and inputs with their coverage; `charges` counts programming delays
      charged in the current epoch. */
  datatype Memory = Memory(
    weights: seq<Word>, weightInitialized: seq<bool>, initializedWeights: nat,
    programmed: bool, initialProgramClosed: bool, charges: nat,
    input: seq<Word>, inputInitialized: seq<bool>, initializedInputs: nat, loaded: bool)

  /** The single output of blocking mode. */
  datatype Output = Output(values: seq<Word>, computed: bool, delivered: seq<bool>, deliveredRows: nat)

  /** The compute engine of pipelined mode with its input snapshot. */
  datatype Compute = Compute(entry: Option<Entry>, ready: nat, input: seq<Word>)

  /** Projected coverage of the deferred initial epoch; empty until first needed. */
  datatype Projection = Projection(initialized: seq<bool>, count: nat)

  /** `log` and `sent` are history: the commands accepted and the replies sent about them. */
  datatype ArrayState = ArrayState(
    activeRows: nat, activeCols: nat, queue: seq<Entry>, active: Option<Entry>,
    compute: Compute, results: seq<Result>, x: Transfer, mem: Memory, out: Output,
    projection: Projection, log: seq<Command>, sent: seq<Reply>, fault: bool)

  /** The token sets shared by all arrays of the component. */
  datatype Shared = Shared(tokens: set<Token>, guaranteed: set<Token>, storeResults: map<Token, Token>)

  datatype Cell = Cell(a: ArrayState, s: Shared)

  const IDLE_TRANSFER := Transfer(0, 0, 0, 0, 0, false, false, false, [], [])

  function InitialMemory(cfg: Config): Memory {
    Memory(ZeroWords(cfg.rows * cfg.cols), Zeros(cfg.rows * cfg.cols), 0, false, false, 0,
           ZeroWords(cfg.cols), Zeros(cfg.cols), 0, false)
  }

  function InitialArray(cfg: Config): ArrayState {
    ArrayState(cfg.rows, cfg.cols, [], None, Compute(None, 0, []), [], IDLE_TRANSFER, InitialMemory(cfg),
               Output(ZeroWords(cfg.rows), false, [], 0), Projection([], 0), [], [], false)
  }

  // ---- replies ----

  function Send(a: ArrayState, e: Entry, status: Status, payload: seq<Byte>): ArrayState {
    a.(sent := a.sent + [Reply(e, status, payload)])
  }

  function Fault(a: ArrayState, bad: bool): ArrayState {
    a.(fault := a.fault || bad)
  }

  // ---- completion ----

  /** A finished Store marks its rows of the oldest result and releases it once all are read. */
  function DeliverFront(results: seq<Result>, c: Command): seq<Result> {
    if results == [] then results
    else
      var r := results[0];
      var count := r.deliveredRows + Newly(r.delivered, c.elementOffset, c.elementCount);
      if count == |r.delivered| then results[1..]
      else [r.(delivered := Mark(r.delivered, c.elementOffset, c.elementCount), deliveredRows := count)] + results[1..]
  }

  function DeliverOutput(out: Output, c: Command): Output {
    out.(delivered := Mark(out.delivered, c.elementOffset, c.elementCount),
         deliveredRows := out.deliveredRows + Newly(out.delivered, c.elementOffset, c.elementCount))
  }

  function Delivered(cfg: Config, a: ArrayState, c: Command): ArrayState {
    if !c.Moves(Store) then a
    else if cfg.pipeline then a.(results := DeliverFront(a.results, c))
    else a.(out := DeliverOutput(a.out, c))
  }

  function Forget(s: Shared, token: Token): Shared {
    Shared(s.tokens - {token}, s.guaranteed - {token}, s.storeResults - {token})
  }

  function CompleteActive(cfg: Config, u: Cell, status: Status): Cell
    requires u.a.active.Some?
  {
    var e := u.a.active.value;
    var bad := (status != Complete && e.cmd.token in u.s.guaranteed) || u.a.x.chunks != [] || u.a.x.buffered != 0
               || (status == Complete && cfg.pipeline && e.cmd.Moves(Store) && u.a.results == []);
    var payload := if status == Complete && e.cmd.operation == Store then u.a.x.bytes else [];
    var a := if status == Complete then Delivered(cfg, u.a, e.cmd) else u.a;
    Cell(Send(Fault(a, bad), e, status, payload).(active := None, x := u.a.x.(bytes := [])),
         Forget(u.s, e.cmd.token))
  }

  function RejectQueued(u: Cell, e: Entry): Cell {
    Cell(Send(Fault(u.a, e.cmd.token in u.s.guaranteed), e, Error, []),
         u.s.(tokens := u.s.tokens - {e.cmd.token}))
  }

  // ---- transfers ----

  function BeginTransfer(cfg: Config, u: Cell, now: nat): Cell
    requires u.a.active.Some?
  {
    var c := u.a.active.value.cmd;
    var total := c.elementCount * 4;
    var fetches := c.operation == Store && total > 0;
    var bad := fetches && ((c.token in u.s.storeResults && (u.a.results == [] || u.a.results[0].token != u.s.storeResults[c.token]))
                         || (cfg.pipeline && u.a.results == []));
    var source := if cfg.pipeline then (if u.a.results == [] then [] else u.a.results[0].values) else u.a.out.values;
    var bytes := if fetches then Encode(Slice(source, c.elementOffset, c.elementCount)) else ZeroBytes(total);
    Cell(Fault(u.a, bad).(
           x := Transfer(now + (if c.operation == Execute then cfg.execCost else 0), total, 0, 0, 0, false, false, false,
                         bytes, u.a.x.chunks),
           mem := u.a.mem.(programmed := u.a.mem.programmed && !c.Moves(Program)),
           out := u.a.out.(computed := u.a.out.computed && !c.Moves(Program) && !c.Moves(Load))),
         u.s)
  }

  function CaptureInput(u: Cell): Cell
    requires u.a.active.Some?
  {
    var e := u.a.active.value;
    if e.cmd.deferred && !u.a.x.inputCaptured && e.cmd.Input() then
      var bad := u.a.x.complete != u.a.x.total || u.a.x.chunks != [] || u.a.x.buffered != 0;
      u.(a := Send(Fault(u.a, bad), e, Captured, []).(x := u.a.x.(inputCaptured := true)))
    else u
  }

  /** Chunks that crossed the link leave the buffer; the bytes of an input chunk land at its offset. */
  function Release(x: Transfer, pending: seq<Chunk>, kept: seq<Chunk>, write: bool, now: nat): Transfer
    decreases |pending|
  {
    if pending == [] then x.(chunks := kept)
    else
      var c := pending[0];
      if c.linked != c.bytes || c.linkReady > now then Release(x, pending[1..], kept + [c], write, now)
      else Release(x.(bytes := if write then x.bytes else Write(x.bytes, c.offset, c.data),
                      complete := x.complete + c.bytes, buffered := x.buffered - c.bytes),
                   pending[1..], kept, write, now)
  }

  function Min(a: int, b: int): int {
    if a <= b then a else b
  }

  /** Remaining bytes enter the buffer while the in-flight window has room. */
  function Issue(x: Transfer, source: seq<Byte>, window: nat): Transfer
    decreases x.total - x.issued
  {
    if x.issued < x.total && x.buffered < window then
      var n := Min(x.total - x.issued, window - x.buffered);
      Issue(x.(chunks := x.chunks + [Chunk(x.issued, n, 0, 0, Slice(source, x.issued, n))],
               issued := x.issued + n, buffered := x.buffered + n), source, window)
    else x
  }

  /** All bytes of a Program arrived: coverage is extended and the delay, if charged, starts. */
  function Receive(cfg: Config, a: ArrayState, c: Command, now: nat): ArrayState {
    var initialized := Mark(a.mem.weightInitialized, c.elementOffset, a.x.total / 4);
    var count := a.mem.initializedWeights + Newly(a.mem.weightInitialized, c.elementOffset, a.x.total / 4);
    var full := count == a.activeRows * a.activeCols;
    var charged := !cfg.initialProgram || full;
    a.(mem := a.mem.(weightInitialized := initialized, initializedWeights := count,
                     initialProgramClosed := a.mem.initialProgramClosed || (charged && cfg.initialProgram),
                     charges := a.mem.charges + (if charged then 1 else 0)),
       x := a.x.(ready := now + (if charged then cfg.programCost else 0), programming := true,
                 programDelayCharged := charged))
  }

  function CommitProgram(a: ArrayState, c: Command): ArrayState {
    a.(mem := a.mem.(weights := Write(a.mem.weights, c.elementOffset, Decode(a.x.bytes)),
                     programmed := a.mem.initializedWeights == a.activeRows * a.activeCols))
  }

  function CommitLoad(a: ArrayState, c: Command): ArrayState {
    var count := a.mem.initializedInputs + Newly(a.mem.inputInitialized, c.elementOffset, a.x.total / 4);
    a.(mem := a.mem.(input := Write(a.mem.input, c.elementOffset, Decode(a.x.bytes)),
                     inputInitialized := Mark(a.mem.inputInitialized, c.elementOffset, a.x.total / 4),
                     initializedInputs := count,
                     loaded := count == |a.mem.inputInitialized|))
  }

  function CommitExecute(cfg: Config, a: ArrayState): ArrayState {
    a.(out := Output(Write(a.out.values, 0, Mvm(cfg, a.mem.weights, a.mem.input, a.activeRows, a.activeCols)),
                     true, Zeros(a.activeRows), 0))
  }

  /** The last byte has been consumed. */
  function Finish(cfg: Config, u: Cell, now: nat): Cell
    requires u.a.active.Some?
  {
    var c := u.a.active.value.cmd;
    var v := CaptureInput(u);
    if c.operation == Program then
      var w := if v.a.x.programming then v else v.(a := Receive(cfg, v.a, c, now));
      if now < w.a.x.ready then w else CompleteActive(cfg, w.(a := CommitProgram(w.a, c)), Complete)
    else if c.operation == Load then CompleteActive(cfg, v.(a := CommitLoad(v.a, c)), Complete)
    else CompleteActive(cfg, v, Complete)
  }

  /** One cycle of the chunk buffer. */
  function Move(cfg: Config, a: ArrayState, now: nat): ArrayState
    requires a.active.Some?
  {
    var c := a.active.value.cmd;
    var x := Release(a.x, a.x.chunks, [], c.operation == Store, now);
    a.(x := Issue(x, if c.operation == Store then x.bytes else c.payload, cfg.inflightBytes))
  }

  function Progress(cfg: Config, u: Cell, now: nat): Cell {
    if u.a.active.None? || now < u.a.x.ready then u
    else if u.a.active.value.cmd.operation == Execute then
      CompleteActive(cfg, u.(a := CommitExecute(cfg, u.a)), Complete)
    else if u.a.x.total == 0 then CompleteActive(cfg, CaptureInput(u), Complete)
    else
      var v := u.(a := Move(cfg, u.a, now));
      if v.a.x.complete == v.a.x.total then Finish(cfg, v, now) else v
  }

  // ---- blocking mode ----

  function Start(cfg: Config, u: Cell, now: nat): Cell {
    if u.a.active.Some? || u.a.queue == [] then u
    else
      var e := u.a.queue[0];
      var v := u.(a := u.a.(active := Some(e), queue := u.a.queue[1..]));
      if (cfg.initialProgram && v.a.mem.initialProgramClosed && e.cmd.Moves(Program))
         || (e.cmd.operation == Execute && (!v.a.mem.programmed || !v.a.mem.loaded))
         || (e.cmd.Moves(Store) && !v.a.out.computed)
      then CompleteActive(cfg, v, Error)
      else BeginTransfer(cfg, v, now)
  }

  // ---- pipelined mode ----

  function StartCompute(cfg: Config, u: Cell, e: Entry, now: nat): Cell {
    var bad := u.a.compute.entry.Some? || |u.a.results| >= RESULT_SLOTS;
    var slot := Result(ZeroWords(u.a.activeRows), Zeros(u.a.activeRows), 0, false, e.cmd.token);
    Cell(Send(Fault(u.a, bad), e, Started, []).(
           compute := Compute(Some(e), now + cfg.execCost, u.a.mem.input),
           results := u.a.results + [slot]), u.s)
  }

  function ProgressCompute(cfg: Config, u: Cell, now: nat): Cell {
    if u.a.compute.entry.None? || now < u.a.compute.ready then u
    else
      var e := u.a.compute.entry.value;
      var n := |u.a.results|;
      var bad := n == 0 || u.a.results[n - 1].ready;
      var y := Mvm(cfg, u.a.mem.weights, u.a.compute.input, u.a.activeRows, u.a.activeCols);
      var results := if n == 0 then [] else u.a.results[n - 1 := u.a.results[n - 1].(values := y, ready := true)];
      Cell(Send(Fault(u.a, bad), e, Complete, []).(
             compute := Compute(None, u.a.compute.ready, []), results := results),
           u.s.(tokens := u.s.tokens - {e.cmd.token}))
  }

  /** First queued Store at or after position k. */
  function FirstStore(queue: seq<Entry>, k: nat): (r: Option<nat>)
    ensures r.Some? ==> k <= r.value < |queue| && queue[r.value].cmd.operation == Store
    ensures r.Some? ==> forall j :: k <= j < r.value ==> queue[j].cmd.operation != Store
    ensures r.None? ==> forall j :: k <= j < |queue| ==> queue[j].cmd.operation != Store
    decreases |queue| - k
  {
    if k >= |queue| then None
    else if queue[k].cmd.operation == Store then Some(k)
    else FirstStore(queue, k + 1)
  }

  predicate ComputeBusy(a: ArrayState) {
    a.compute.entry.Some? || |a.results| >= RESULT_SLOTS
  }

  /** The queue position that may start now: the head, or a Store behind a blocked Execute. */
  function Select(a: ArrayState): (r: Option<nat>)
    ensures r.Some? ==> r.value < |a.queue|
  {
    if a.queue == [] then None
    else
      var execute := a.queue[0].cmd.operation == Execute;
      if a.active.Some? then
        if a.active.value.cmd.operation != Store || !execute || ComputeBusy(a) then None else Some(0)
      else if execute && ComputeBusy(a) then FirstStore(a.queue, 1)
      else Some(0)
  }

  function Without<T>(s: seq<T>, k: nat): seq<T>
    requires k < |s|
  {
    s[..k] + s[k + 1..]
  }

  function StartPipeline(cfg: Config, u: Cell, now: nat, attempts: nat): Cell
    decreases attempts
  {
    var selected := Select(u.a);
    if attempts == 0 || selected.None? then u
    else
      var e := u.a.queue[selected.value];
      var v := u.(a := u.a.(queue := Without(u.a.queue, selected.value)));
      if cfg.initialProgram && u.a.mem.initialProgramClosed && e.cmd.Moves(Program) then
        StartPipeline(cfg, RejectQueued(v, e), now, attempts - 1)
      else if e.cmd.operation == Execute then
        if !u.a.mem.programmed || !u.a.mem.loaded then StartPipeline(cfg, RejectQueued(v, e), now, attempts - 1)
        else StartPipeline(cfg, StartCompute(cfg, v, e, now), now, attempts - 1)
      else if u.a.active.Some? then u
      else if e.cmd.Moves(Store) && u.a.results == [] then
        StartPipeline(cfg, RejectQueued(v, e), now, attempts - 1)
      else if e.cmd.Moves(Store) && !u.a.results[0].ready then u
      else if e.cmd.Moves(Program) && u.a.results != [] then
        StartPipeline(cfg, RejectQueued(v, e), now, attempts - 1)
      else BeginTransfer(cfg, v.(a := v.a.(active := Some(e))), now)
  }

  // ---- one cycle of one array ----

  function TickArray(cfg: Config, u: Cell, now: nat): Cell {
    if !cfg.pipeline then Progress(cfg, Start(cfg, u, now), now)
    else
      var p := Progress(cfg, ProgressCompute(cfg, u, now), now);
      var q := StartPipeline(cfg, p, now, QUEUE_ENTRIES);
      ProgressCompute(cfg, if p.a.active.Some? then q else Progress(cfg, q, now), now)
  }

  // ---- the component ----

  datatype Component = Component(arrays: seq<ArrayState>, s: Shared, cursor: nat)

  function InitialComponent(cfg: Config, count: nat): Component {
    Component(seq(count, i => InitialArray(cfg)), Shared({}, {}, map[]), 0)
  }

  function TickFrom(cfg: Config, arrays: seq<ArrayState>, s: Shared, i: nat, now: nat): (r: (seq<ArrayState>, Shared))
    ensures |r.0| == |arrays|
    decreases |arrays| - i
  {
    if i >= |arrays| then (arrays, s)
    else
      var u := TickArray(cfg, Cell(arrays[i], s), now);
      TickFrom(cfg, arrays[i := u.a], u.s, i + 1, now)
  }

  /** Chunks take link service in offset order until the budget is spent. */
  function LinkChunks(chunks: seq<Chunk>, budget: nat, now: nat): (r: (seq<Chunk>, nat))
    ensures |r.0| == |chunks| && r.1 <= budget
    decreases |chunks|
  {
    if chunks == [] || budget == 0 then (chunks, budget)
    else
      var c := chunks[0];
      if c.linked >= c.bytes then
        var rest := LinkChunks(chunks[1..], budget, now);
        ([c] + rest.0, rest.1)
      else
        var n := Min(budget, c.bytes - c.linked);
        var rest := LinkChunks(chunks[1..], budget - n, now);
        ([c.(linked := c.linked + n, linkReady := now + 1)] + rest.0, rest.1)
  }

  predicate OnLink(a: ArrayState, now: nat) {
    a.active.Some? && a.x.ready <= now
  }

  /** The direction whose budget the array draws from: outputs have their own only when independent. */
  predicate WriteSide(cfg: Config, a: ArrayState)
    requires a.active.Some?
  {
    cfg.independent && a.active.value.cmd.operation == Store
  }

  /** The arrays and what is left of the read and write budgets. */
  datatype Service = Service(arrays: seq<ArrayState>, read: nat, write: nat)

  /** One array draws on the budget of its direction. */
  function Serve(cfg: Config, v: Service, i: nat, now: nat): (r: Service)
    requires i < |v.arrays|
    ensures |r.arrays| == |v.arrays|
  {
    var a := v.arrays[i];
    if !OnLink(a, now) then v
    else
      var l := LinkChunks(a.x.chunks, if WriteSide(cfg, a) then v.write else v.read, now);
      var next := v.arrays[i := a.(x := a.x.(chunks := l.0))];
      if WriteSide(cfg, a) then Service(next, v.read, l.1) else Service(next, l.1, v.write)
  }

  /** The array at distance n from the rotating cursor. */
  function Turn(cursor: nat, n: nat, count: nat): (i: nat)
    requires cursor < count && n < count
    ensures i < count
  {
    if cursor + n < count then cursor + n else cursor + n - count
  }

  lemma TurnIsModulo(cursor: nat, n: nat, count: nat)
    requires cursor < count && n < count
    ensures Turn(cursor, n, count) == (cursor + n) % count
  {
    if cursor + n < count {
      Divide(0, count, cursor + n);
    } else {
      Divide(1, count, cursor + n - count);
    }
  }

  /** Round-robin service of the arrays at distance n, n + 1, ... from the cursor. */
  function LinkFrom(cfg: Config, v: Service, cursor: nat, n: nat, now: nat): (r: Service)
    requires cursor < |v.arrays|
    ensures |r.arrays| == |v.arrays|
    decreases |v.arrays| - n
  {
    if n >= |v.arrays| then v
    else LinkFrom(cfg, Serve(cfg, v, Turn(cursor, n, |v.arrays|), now), cursor, n + 1, now)
  }

  function Link(cfg: Config, c: Component, now: nat): Component {
    if c.arrays == [] then c
    else c.(arrays := LinkFrom(cfg, Service(c.arrays, cfg.linkWidth, if cfg.independent then cfg.linkWidth else 0), c.cursor % |c.arrays|, 0, now).arrays,
            cursor := (c.cursor + 1) % |c.arrays|)
  }

  function Tick(cfg: Config, c: Component, now: nat): Component {
    var r := TickFrom(cfg, c.arrays, c.s, 0, now);
    Link(cfg, c.(arrays := r.0, s := r.1), now)
  }
}
