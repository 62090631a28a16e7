/** The inductive invariant of one array: shape of its storage, its result slots and transfer,
    and the simulation that ties everything in flight to the serial meaning of its log. */
module Invariant {
  import opened Options
  import opened Vectors
  import opened Commands
  import opened Engine
  import opened Serial

  // ---- storage ----

  ghost predicate ActiveIs(a: ArrayState, op: Operation) {
    a.active.Some? && a.active.value.cmd.Moves(op)
  }

  ghost predicate MemoryOk(cfg: Config, a: ArrayState)
    requires cfg.Valid()
  {
    var m := a.mem;
    && 0 < a.activeRows <= cfg.rows && 0 < a.activeCols <= cfg.cols
    && |m.weights| == |m.weightInitialized| == cfg.rows * cfg.cols
    && |m.input| == cfg.cols && |m.inputInitialized| == a.activeCols
    && m.initializedWeights == Count(m.weightInitialized)
    && Contained(m.weightInitialized, cfg.cols, a.activeRows, a.activeCols)
    && m.initializedInputs == Count(m.inputInitialized)
  }

  /** The readiness flags say what the coverage says, except while a Program is in progress. */
  ghost predicate FlagsOk(cfg: Config, a: ArrayState)
    requires cfg.Valid()
  {
    var m := a.mem;
    var covered := Covered(m.weightInitialized, cfg.cols, a.activeRows, a.activeCols);
    && (m.loaded <==> All(m.inputInitialized))
    && (m.programmed <==> covered && !ActiveIs(a, Program))
    && (m.initialProgramClosed <==> cfg.initialProgram && covered)
    && (cfg.initialProgram ==> m.charges == if covered then 1 else 0)
  }

  ghost predicate OutputOk(cfg: Config, a: ArrayState) {
    && |a.out.values| == cfg.rows
    && (a.out.computed ==> |a.out.delivered| == a.activeRows && a.out.deliveredRows == Count(a.out.delivered))
    && (cfg.pipeline ==> !a.out.computed && a.out.delivered == [])
  }

  ghost predicate ResultOk(a: ArrayState, r: Result) {
    && |r.values| == |r.delivered| == a.activeRows
    && r.deliveredRows == Count(r.delivered) < a.activeRows
  }

  ghost predicate ResultsOk(cfg: Config, a: ArrayState) {
    && |a.results| <= RESULT_SLOTS
    && (forall i :: 0 <= i < |a.results| ==> ResultOk(a, a.results[i]))
    && (forall i :: 0 <= i < |a.results| - 1 ==> a.results[i].ready)
    && (a.results != [] ==> (a.results[|a.results| - 1].ready <==> a.compute.entry.None?))
    && (a.compute.entry.Some? ==>
          && a.results != []
          && |a.compute.input| == cfg.cols
          && a.compute.entry.value.cmd.operation == Execute)
    && (!cfg.pipeline ==> a.results == [] && a.compute.entry.None?)
  }

  // ---- accepted commands ----

  /** What admission established about a command, relative to the current active rectangle. */
  ghost predicate Legal(cfg: Config, rows: nat, cols: nat, c: Command)
    requires cfg.Valid()
  {
    match c.operation
    case Program =>
      && c.elementOffset + c.elementCount <= cfg.rows * cfg.cols
      && |c.payload| == 4 * c.elementCount
      && forall i :: c.elementOffset <= i < c.elementOffset + c.elementCount ==> Inside(cfg.cols, rows, cols, i)
    case Load => c.elementOffset + c.elementCount <= cols && |c.payload| == 4 * c.elementCount
    case Execute => c.elementCount == 0 && c.payload == [] && !c.deferred
    case Store => c.elementOffset + c.elementCount <= rows && c.payload == []
    case Configure => false
  }

  ghost predicate QueueOk(cfg: Config, a: ArrayState)
    requires cfg.Valid()
  {
    && |a.queue| + (if a.active.Some? then 1 else 0) + (if a.compute.entry.Some? then 1 else 0) <= QUEUE_ENTRIES
    && (forall i :: 0 <= i < |a.queue| ==> Legal(cfg, a.activeRows, a.activeCols, a.queue[i].cmd))
    && (a.active.Some? ==> Legal(cfg, a.activeRows, a.activeCols, a.active.value.cmd))
    && (a.active.Some? && a.active.value.cmd.operation == Execute ==> !cfg.pipeline)
  }

  /** Weights are stable while a result is pending: no nonempty Program is active or queued behind
      an Execute, and none is queued at all while a result slot is in use. */
  ghost predicate WeightsHeld(cfg: Config, a: ArrayState) {
    cfg.pipeline ==>
      && (ActiveIs(a, Program) ==> a.results == [])
      && (forall k :: 0 <= k < |a.queue| && a.queue[k].cmd.Moves(Program) ==>
            a.results == [] && forall j :: 0 <= j < k ==> a.queue[j].cmd.operation != Execute)
  }

  // ---- the transfer in progress ----

  ghost function Source(a: ArrayState): seq<Byte>
    requires a.active.Some?
  {
    if a.active.value.cmd.operation == Store then a.x.bytes else a.active.value.cmd.payload
  }

  /** At most one chunk is live; it holds exactly the issued bytes that have not completed, and it is
      as large as the in-flight window unless it is the last one. */
  ghost predicate ChunksOk(cfg: Config, x: Transfer, source: seq<Byte>) {
    && 0 <= x.complete && x.complete + x.buffered == x.issued <= x.total == |source|
    && (x.buffered == 0 ==> x.chunks == [])
    && (x.buffered != 0 ==>
          && |x.chunks| == 1
          && x.chunks[0].offset == x.complete && x.chunks[0].bytes == x.buffered
          && 0 < x.buffered <= cfg.inflightBytes
          && (x.issued < x.total ==> x.buffered == cfg.inflightBytes)
          && 0 <= x.chunks[0].linked <= x.chunks[0].bytes
          && x.chunks[0].data == source[x.complete..x.issued])
  }

  ghost predicate TransferOk(cfg: Config, a: ArrayState)
    requires cfg.Valid()
  {
    var x := a.x;
    if a.active.None? then x.chunks == [] && x.buffered == 0
    else
      var c := a.active.value.cmd;
      && x.total == 4 * c.elementCount == |x.bytes|
      && ChunksOk(cfg, x, Source(a))
      && (c.Input() ==> x.bytes[..x.complete] == c.payload[..x.complete])
      && (x.inputCaptured ==> x.complete == x.total)
      && (x.programming ==>
            && c.Moves(Program) && x.complete == x.total
            && Mark(a.mem.weightInitialized, c.elementOffset, c.elementCount) == a.mem.weightInitialized)
      && (c.Moves(Program) && !x.programming ==> !a.mem.initialProgramClosed)
      && (c.operation == Execute ==> a.mem.programmed && a.mem.loaded)
      && (c.Moves(Store) ==> if cfg.pipeline then a.results != [] && a.results[0].ready else a.out.computed)
      && ((c.Moves(Program) || c.Moves(Load)) ==> !a.out.computed)
  }

  // ---- simulation ----

  ghost function SlotOf(cfg: Config, a: ArrayState, r: Result): Slot {
    Slot(r.token,
         if r.ready then r.values else Mvm(cfg, a.mem.weights, a.compute.input, a.activeRows, a.activeCols),
         r.delivered)
  }

  ghost function Slots(cfg: Config, a: ArrayState): seq<Slot> {
    seq(|a.results|, i requires 0 <= i < |a.results| => SlotOf(cfg, a, a.results[i]))
  }

  /** The architectural state with the active transfer not yet applied and the running compute applied. */
  ghost function Abs(cfg: Config, a: ArrayState): Arch {
    Arch(a.activeRows, a.activeCols, a.mem.weights, a.mem.weightInitialized, a.mem.initialProgramClosed,
         a.mem.input, a.mem.inputInitialized, Slots(cfg, a), a.out.computed,
         if a.out.computed then Slice(a.out.values, 0, a.activeRows) else [], a.out.delivered)
  }

  /** ... and once the active transfer has been applied too. */
  ghost function After(cfg: Config, a: ArrayState): Arch
    requires cfg.Valid()
  {
    if a.active.None? then Abs(cfg, a) else Effect(cfg, Abs(cfg, a), a.active.value.cmd)
  }

  ghost function Cmds(q: seq<Entry>): seq<Command> {
    seq(|q|, i requires 0 <= i < |q| => q[i].cmd)
  }

  ghost predicate Logged(log: seq<Command>, e: Entry) {
    e.id < |log| && log[e.id] == e.cmd
  }

  /** What the active command will be answered. */
  ghost function ActiveAnswer(cfg: Config, a: ArrayState): Outcome
    requires a.active.Some?
  {
    var c := a.active.value.cmd;
    if !c.Moves(Store) then Done([], None)
    else Done(a.x.bytes, if cfg.pipeline && a.results != [] then Some(a.results[0].token) else None)
  }

  ghost predicate QueueSim(cfg: Config, log: seq<Command>, x: Arch, queue: seq<Entry>)
    requires cfg.Valid()
  {
    && (forall k :: 0 <= k < |queue| ==> Logged(log, queue[k]))
    && Run(cfg, x, Cmds(queue)) == Final(cfg, log)
    && (forall k :: 0 <= k < |queue| ==>
          AnswerAt(cfg, x, Cmds(queue), k) == Verdict(cfg, log, queue[k].id))
  }

  ghost predicate Sim(cfg: Config, a: ArrayState)
    requires cfg.Valid()
  {
    && QueueSim(cfg, a.log, After(cfg, a), a.queue)
    && (a.active.Some? ==>
          Logged(a.log, a.active.value) && Verdict(cfg, a.log, a.active.value.id) == ActiveAnswer(cfg, a))
    && (a.compute.entry.Some? ==>
          Logged(a.log, a.compute.entry.value) && Verdict(cfg, a.log, a.compute.entry.value.id) == Done([], None))
  }

  /** Every accepted input command carries four payload bytes per element. */
  ghost predicate LogOk(log: seq<Command>) {
    forall n :: 0 <= n < |log| && log[n].Input() ==> |log[n].payload| == 4 * log[n].elementCount
  }

  // ---- identities ----

  ghost predicate Apart(e: Entry, f: Entry) {
    e.id != f.id && e.cmd.token != f.cmd.token
  }

  /** Live commands have distinct ordinals and distinct tokens. */
  ghost predicate Distinct(a: ArrayState) {
    && (forall i, j :: 0 <= i < j < |a.queue| ==> Apart(a.queue[i], a.queue[j]))
    && (a.active.Some? ==> forall i :: 0 <= i < |a.queue| ==> Apart(a.active.value, a.queue[i]))
    && (a.compute.entry.Some? ==> forall i :: 0 <= i < |a.queue| ==> Apart(a.compute.entry.value, a.queue[i]))
    && (a.active.Some? && a.compute.entry.Some? ==> Apart(a.active.value, a.compute.entry.value))
  }

  ghost function LiveTokens(a: ArrayState): set<Token> {
    (set i | 0 <= i < |a.queue| :: a.queue[i].cmd.token)
    + (if a.active.Some? then {a.active.value.cmd.token} else {})
    + (if a.compute.entry.Some? then {a.compute.entry.value.cmd.token} else {})
  }

  ghost function LiveIds(a: ArrayState): set<nat> {
    (set i | 0 <= i < |a.queue| :: a.queue[i].id)
    + (if a.active.Some? then {a.active.value.id} else {})
    + (if a.compute.entry.Some? then {a.compute.entry.value.id} else {})
  }

  // ---- the reply trace ----

  ghost predicate Terminal(s: Status) {
    s == Complete || s == Error
  }

  /** The terminal reply that a verdict prescribes. */
  ghost predicate Matches(r: Reply, v: Outcome) {
    if v.Done? then r.status == Complete && r.payload == v.payload
    else r.status == Error && r.payload == []
  }

  ghost predicate ReplyOk(cfg: Config, a: ArrayState, r: Reply)
    requires cfg.Valid()
  {
    && Logged(a.log, r.request)
    && (Terminal(r.status) ==> Matches(r, Verdict(cfg, a.log, r.request.id)) && r.request.id !in LiveIds(a))
    && (r.status == Guaranteed || r.status == Started ==> Verdict(cfg, a.log, r.request.id).Done?)
  }

  ghost predicate AnsweredAt(a: ArrayState, n: nat, k: nat) {
    k < |a.sent| && Terminal(a.sent[k].status) && a.sent[k].request.id == n
  }

  ghost predicate Answered(a: ArrayState, n: nat) {
    exists k :: AnsweredAt(a, n, k)
  }

  /** Every reply tells the serial truth; each accepted command is live or has exactly one terminal reply. */
  ghost predicate TraceOk(cfg: Config, a: ArrayState)
    requires cfg.Valid()
  {
    && (forall k :: 0 <= k < |a.sent| ==> ReplyOk(cfg, a, a.sent[k]))
    && (forall n: nat, j: nat, k: nat :: AnsweredAt(a, n, j) && AnsweredAt(a, n, k) ==> j == k)
    && (forall n: nat :: n < |a.log| && n !in LiveIds(a) ==> Answered(a, n))
  }

  // ---- token sets and promises ----

  ghost predicate EntryShared(cfg: Config, a: ArrayState, s: Shared, e: Entry)
    requires cfg.Valid()
  {
    && Logged(a.log, e)
    && e.cmd.token in s.tokens
    && (e.cmd.token in s.guaranteed ==> e.cmd.operation != Execute && Verdict(cfg, a.log, e.id).Done?)
    && (e.cmd.token in s.storeResults ==>
          && e.cmd.Moves(Store) && cfg.pipeline
          && Verdict(cfg, a.log, e.id).Done?
          && Verdict(cfg, a.log, e.id).source == Some(s.storeResults[e.cmd.token]))
  }

  ghost predicate SharedOk(cfg: Config, a: ArrayState, s: Shared)
    requires cfg.Valid()
  {
    && (forall i :: 0 <= i < |a.queue| ==> EntryShared(cfg, a, s, a.queue[i]))
    && (a.active.Some? ==> EntryShared(cfg, a, s, a.active.value))
    && (a.compute.entry.Some? ==> EntryShared(cfg, a, s, a.compute.entry.value))
  }

  /** A projected epoch covers at least what the accepted Programs will have covered. */
  ghost predicate ProjectionOk(cfg: Config, a: ArrayState)
    requires cfg.Valid()
  {
    a.projection.initialized != [] ==>
      && cfg.initialProgram
      && |a.projection.initialized| == cfg.rows * cfg.cols
      && a.projection.count == Count(a.projection.initialized)
      && Contained(a.projection.initialized, cfg.cols, a.activeRows, a.activeCols)
      && var received := Final(cfg, a.log).weightsReceived;
         |received| == cfg.rows * cfg.cols
         && forall i :: 0 <= i < |received| && received[i] ==> a.projection.initialized[i]
  }

  ghost predicate Sound(cfg: Config, u: Cell) {
    && cfg.Valid()
    && !u.a.fault
    && MemoryOk(cfg, u.a) && FlagsOk(cfg, u.a) && OutputOk(cfg, u.a) && ResultsOk(cfg, u.a)
    && QueueOk(cfg, u.a) && WeightsHeld(cfg, u.a) && TransferOk(cfg, u.a)
    && LogOk(u.a.log) && Sim(cfg, u.a) && Distinct(u.a) && TraceOk(cfg, u.a)
    && SharedOk(cfg, u.a, u.s) && ProjectionOk(cfg, u.a)
  }

  /** The token sets after the commands with tokens in `gone` have been retired. */
  ghost function Drop(s: Shared, gone: set<Token>): Shared {
    Shared(s.tokens - gone, s.guaranteed - gone, s.storeResults - gone)
  }

  /** What one internal step may do: the log stays, and exactly the tokens of retired commands go. */
  ghost predicate Advances(u: Cell, v: Cell) {
    && v.a.log == u.a.log
    && LiveTokens(v.a) <= LiveTokens(u.a)
    && v.s == Drop(u.s, LiveTokens(u.a) - LiveTokens(v.a))
    && v.a.activeRows == u.a.activeRows && v.a.activeCols == u.a.activeCols
    && v.a.projection == u.a.projection
  }
}
