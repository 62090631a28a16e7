/** Command arrival: validation, configuration, and the projections that let a deferred
    command be answered Guaranteed. */
module Admission {
  import opened Options
  import opened Vectors
  import opened Commands
  import opened Engine

  // ---- projections ----

  /** Coverage once the nonempty Programs of `entries` have also arrived. */
  function ReserveAll(p: Projection, entries: seq<Entry>): Projection
    decreases |entries|
  {
    if entries == [] then p else ReserveAll(Reserve(p, entries[0].cmd), entries[1..])
  }

  function Reserve(p: Projection, c: Command): Projection {
    if c.Moves(Program) then
      Projection(Mark(p.initialized, c.elementOffset, c.elementCount),
                 p.count + Newly(p.initialized, c.elementOffset, c.elementCount))
    else p
  }

  /** Transfers that are active or queued, in queue order. */
  function InFlight(a: ArrayState): seq<Entry> {
    (if a.active.Some? then [a.active.value] else []) + a.queue
  }

  function InitializeProjection(a: ArrayState): ArrayState {
    if a.projection.initialized != [] then a
    else a.(projection := ReserveAll(Projection(a.mem.weightInitialized, a.mem.initializedWeights), InFlight(a)))
  }

  /** Walk of the waiting Stores over copies of the result slots. `clash` records that a guaranteed
      Store no longer projects to the result it was promised. */
  datatype Walk = Walk(results: seq<Result>, current: nat, short: bool, clash: bool)

  function WalkStore(w: Walk, reserved: map<Token, Token>, c: Command): Walk {
    if w.short || !c.Moves(Store) then w
    else if w.current >= |w.results| then w.(short := true)
    else
      var r := w.results[w.current];
      var count := r.deliveredRows + Newly(r.delivered, c.elementOffset, c.elementCount);
      Walk(w.results[w.current := r.(delivered := Mark(r.delivered, c.elementOffset, c.elementCount), deliveredRows := count)],
           if count == |r.delivered| then w.current + 1 else w.current,
           false,
           w.clash || (c.token in reserved && reserved[c.token] != r.token))
  }

  function WalkStores(w: Walk, reserved: map<Token, Token>, entries: seq<Entry>): Walk
    decreases |entries|
  {
    if entries == [] then w else WalkStores(WalkStore(w, reserved, entries[0].cmd), reserved, entries[1..])
  }

  function StoreWalk(a: ArrayState, reserved: map<Token, Token>): Walk {
    WalkStores(Walk(a.results, 0, false, false), reserved, InFlight(a))
  }

  /** The result slot a further Store will read, when one is certain. */
  function ProjectedResult(w: Walk): (r: Option<Token>) {
    if w.short || w.current >= |w.results| then None else Some(w.results[w.current].token)
  }

  /** Blocking mode: whether an output is certain to be valid once the waiting commands are done. */
  function ProjectedOutput(valid: bool, queue: seq<Entry>): bool
    decreases |queue|
  {
    if queue == [] then valid
    else
      var c := queue[0].cmd;
      ProjectedOutput(if c.operation == Execute || c.Moves(Program) || c.Moves(Load) then false else valid, queue[1..])
  }

  function OutputAfterActive(a: ArrayState): bool {
    if a.active.None? then a.out.computed
    else
      var c := a.active.value.cmd;
      if c.operation == Execute then true
      else a.out.computed && !c.Moves(Program) && !c.Moves(Load)
  }

  // ---- validation ----

  /** Elements addressable by the operation. */
  function Capacity(cfg: Config, a: ArrayState, op: Operation): nat {
    match op
    case Program => cfg.rows * cfg.cols
    case Load => a.activeCols
    case Store => a.activeRows
    case _ => 0
  }

  predicate RangeOk(cfg: Config, a: ArrayState, r: Command) {
    && !(r.deferred && r.operation == Execute)
    && r.elementOffset <= Capacity(cfg, a, r.operation)
    && r.elementCount <= Capacity(cfg, a, r.operation) - r.elementOffset
    && r.elementCount * 4 < UINT32_RANGE
    && (if r.Input() then |r.payload| == r.elementCount * 4 else r.payload == [])
  }

  /** A nonempty Program range stays inside the active rectangle. */
  predicate ProgramRegionOk(cfg: Config, a: ArrayState, r: Command)
    requires cfg.cols > 0 && r.elementCount > 0
  {
    var firstRow := r.elementOffset / cfg.cols;
    var firstCol := r.elementOffset % cfg.cols;
    var lastRow := (r.elementOffset + r.elementCount - 1) / cfg.cols;
    lastRow < a.activeRows && firstCol < a.activeCols
    && (if firstRow == lastRow then firstCol + r.elementCount <= a.activeCols else a.activeCols == cfg.cols)
  }

  /** Every check that answers Error, in the order of arrival. */
  predicate Admissible(cfg: Config, a: ArrayState, r: Command)
    requires cfg.cols > 0
  {
    && RangeOk(cfg, a, r)
    && (r.Moves(Program) ==>
          && ProgramRegionOk(cfg, a, r)
          && !(cfg.initialProgram && a.mem.initialProgramClosed)
          && !(cfg.pipeline && (a.results != [] || exists k :: 0 <= k < |a.queue| && a.queue[k].cmd.operation == Execute)))
  }

  function Occupied(a: ArrayState): nat {
    |a.queue| + (if a.active.Some? then 1 else 0) + (if a.compute.entry.Some? then 1 else 0)
  }

  // ---- arrival ----

  function Configured(cfg: Config, a: ArrayState, r: Command): ArrayState {
    var e := Entry(r, |a.log|);
    var b := a.(
      activeRows := ConfiguredRows(r), activeCols := ConfiguredCols(r),
      mem := a.mem.(weightInitialized := Zeros(|a.mem.weightInitialized|), initializedWeights := 0,
                    inputInitialized := Zeros(ConfiguredCols(r)), initializedInputs := 0,
                    programmed := false, loaded := false, initialProgramClosed := false, charges := 0),
      x := a.x.(programDelayCharged := false),
      out := a.out.(computed := false, delivered := [], deliveredRows := 0),
      projection := Projection([], 0),
      log := a.log + [r]);
    Send(Send(b, e, Accepted, []), e, Complete, [])
  }

  predicate Configurable(cfg: Config, a: ArrayState, r: Command) {
    && 0 < ConfiguredRows(r) <= cfg.rows && 0 < ConfiguredCols(r) <= cfg.cols
    && a.active.None? && a.compute.entry.None? && a.queue == [] && a.results == []
    && !(!cfg.pipeline && a.out.computed && a.out.deliveredRows < a.activeRows)
  }

  /** A nonempty Program of a projected initial epoch: refused when a deferred one could arrive
      after the epoch closed, otherwise added to the projection. */
  function Projected(cfg: Config, a: ArrayState, r: Command): (ArrayState, bool) {
    if !(cfg.initialProgram && r.Moves(Program)) then (a, true)
    else
      var b := if r.deferred then InitializeProjection(a) else a;
      if b.projection.initialized == [] then (b, true)
      else if r.deferred && b.projection.count == a.activeRows * a.activeCols then (b, false)
      else (b.(projection := Reserve(b.projection, r)), true)
  }

  /** Whether the command is answered Guaranteed, and the result a guaranteed Store reserves. */
  function Promise(cfg: Config, a: ArrayState, s: Shared, r: Command): (bool, Option<Token>) {
    if !r.deferred then (false, None)
    else if !r.Moves(Store) then (true, None)
    else if cfg.pipeline then
      var p := ProjectedResult(StoreWalk(a, s.storeResults));
      (p.Some?, p)
    else (ProjectedOutput(OutputAfterActive(a), a.queue), None)
  }

  function Enqueue(cfg: Config, a: ArrayState, s: Shared, r: Command): (Cell, Status) {
    var p := Promise(cfg, a, s, r);
    var bad := cfg.pipeline && r.deferred && r.Moves(Store) && StoreWalk(a, s.storeResults).clash;
    var status := if p.0 then Guaranteed else Accepted;
    var e := Entry(r, |a.log|);
    (Cell(Send(Fault(a, bad).(queue := a.queue + [e], log := a.log + [r]), e, status, []),
          Shared(s.tokens + {r.token},
                 if p.0 then s.guaranteed + {r.token} else s.guaranteed,
                 if p.1.Some? then s.storeResults[r.token := p.1.value] else s.storeResults)),
     status)
  }

  /** Arrival at one array of a command whose token is not live. */
  function Arrive(cfg: Config, u: Cell, r: Command): (Cell, Status)
    requires cfg.cols > 0
  {
    if r.operation == Configure then
      if r.deferred || r.elementCount > 0 || r.payload != [] || !Configurable(cfg, u.a, r) then (u, Error)
      else (u.(a := Configured(cfg, u.a, r)), Complete)
    else if !Admissible(cfg, u.a, r) then (u, Error)
    else if Occupied(u.a) >= QUEUE_ENTRIES then (u, Busy)
    else
      var p := Projected(cfg, u.a, r);
      if !p.1 then (u.(a := p.0), Error) else Enqueue(cfg, p.0, u.s, r)
  }

  /** Arrival at the component; the status is the last immediate reply. */
  function Submit(cfg: Config, c: Component, r: Command): (Component, Status)
    requires cfg.cols > 0
  {
    if r.status != Request || r.target >= |c.arrays| || r.token in c.s.tokens then (c, Error)
    else
      var v := Arrive(cfg, Cell(c.arrays[r.target], c.s), r);
      (c.(arrays := c.arrays[r.target := v.0.a], s := v.0.s), v.1)
  }
}
