/** The serial interpreter does what the history of its commands says: its state after each command is
    described by that history, and so are its answers. */
module Explained {
  import opened Arithmetic
  import opened Options
  import opened Vectors
  import opened Commands
  import opened Serial
  import opened Invariant
  import opened History

  // ---- the history of a log ----

  /** The results waiting after the command at k: where in the log their Executes are. In blocking mode
      the last Execute. */
  ghost function PendingAfter(cfg: Config, x: Arch, c: Command, k: nat, pending: seq<nat>): seq<nat>
    requires cfg.Valid()
  {
    if !Accepts(cfg, x, c) then pending
    else if c.operation == Execute then (if cfg.pipeline then pending + [k] else [k])
    else if cfg.pipeline && c.Moves(Store) && pending != [] && x.fifo != []
            && All(Mark(x.fifo[0].read, c.elementOffset, c.elementCount)) then pending[1..]
    else pending
  }

  ghost function Pending(cfg: Config, log: seq<Command>, k: nat): seq<nat>
    requires cfg.Valid() && k <= |log|
  {
    if k == 0 then []
    else PendingAfter(cfg, Final(cfg, log[..k - 1]), log[k - 1], k - 1, Pending(cfg, log, k - 1))
  }

  ghost function First(pending: seq<nat>): nat {
    if pending == [] then 0 else pending[0]
  }

  ghost function HistoryOf(cfg: Config, log: seq<Command>): (h: History)
    requires cfg.Valid()
    ensures h.Shaped() && h.log == log
    ensures forall k :: 0 <= k < |log| ==> h.done[k] == Verdict(cfg, log, k).Done?
    ensures forall k :: 0 <= k < |log| ==> h.source[k] == First(Pending(cfg, log, k))
  {
    History(log, seq(|log|, k requires 0 <= k < |log| => Verdict(cfg, log, k).Done?),
            seq(|log|, k requires 0 <= k < |log| => First(Pending(cfg, log, k))))
  }

  // ---- what the history says about the state before the k-th command ----

  ghost predicate DimensionsAre(cfg: Config, h: History, k: nat, x: Arch) {
    x.rows == Rows(cfg, h, k) && x.cols == Cols(cfg, h, k) && 0 < x.rows <= cfg.rows && 0 < x.cols <= cfg.cols
  }

  ghost predicate CellsAre(values: seq<Word>, received: seq<bool>, h: History, op: Operation, k: nat) {
    && (forall i: nat :: i < |received| ==> (received[i] <==> Given(h, op, k, i)))
    && forall i: nat :: i < |values| ==> values[i] == Value(h, op, k, i)
  }

  ghost predicate MemoryIs(cfg: Config, h: History, k: nat, x: Arch) {
    && |x.weights| == |x.weightsReceived| == cfg.rows * cfg.cols && CellsAre(x.weights, x.weightsReceived, h, Program, k)
    && |x.input| == cfg.cols && |x.inputReceived| == x.cols && CellsAre(x.input, x.inputReceived, h, Load, k)
  }

  ghost predicate ClosedIs(cfg: Config, x: Arch)
    requires cfg.Valid()
  {
    x.closed <==> cfg.initialProgram && Covered(x.weightsReceived, cfg.cols, x.rows, x.cols)
  }

  ghost predicate ResultIs(cfg: Config, h: History, k: nat, e: nat, values: seq<Word>, read: seq<bool>) {
    && e < k && Did(h, Execute, e) && |values| == |read| == Rows(cfg, h, e)
    && (forall r: nat :: r < |values| ==> values[r] == Product(cfg, h, e, r))
    && forall r: nat :: r < |read| ==> (read[r] <==> RowRead(h, e, k, r))
  }

  ghost predicate SlotIs(cfg: Config, h: History, k: nat, e: nat, s: Slot) {
    && e < |h.log| && ResultIs(cfg, h, k, e, s.values, s.read) && !All(s.read)
    && s.token == h.log[e].token && Start(h, e) == Start(h, k)
  }

  /** The waiting results are those of Executes not completely read, oldest first. */
  ghost predicate FifoIs(cfg: Config, h: History, k: nat, fifo: seq<Slot>, pending: seq<nat>) {
    && |pending| == |fifo|
    && (forall n :: 0 <= n < |fifo| ==> SlotIs(cfg, h, k, pending[n], fifo[n]))
    && (forall m, n :: 0 <= m < n < |pending| ==> pending[m] < pending[n])
    && forall e: nat :: e < k && Did(h, Execute, e) && e !in pending ==> AllRead(cfg, h, e, k)
  }

  /** Nothing since e has changed weights, inputs or dimensions, and no other Execute was done. */
  ghost predicate Valid(h: History, k: nat, e: nat) {
    e < k && Did(h, Execute, e) && forall j: nat :: e < j < k ==> Leaves(h, j)
  }

  ghost predicate OutputIs(cfg: Config, h: History, k: nat, x: Arch, pending: seq<nat>) {
    && (x.computed ==> pending != [] && Valid(h, k, pending[0]) && ResultIs(cfg, h, k, pending[0], x.output, x.outputRead))
    && (!x.computed ==> forall e: nat :: !Valid(h, k, e))
  }

  ghost predicate ResultsAre(cfg: Config, h: History, k: nat, x: Arch, pending: seq<nat>) {
    if cfg.pipeline then !x.computed && FifoIs(cfg, h, k, x.fifo, pending)
    else x.fifo == [] && OutputIs(cfg, h, k, x, pending)
  }

  /** The command that follows is legal, and its place in the history is what the serial state says. */
  ghost predicate Next(cfg: Config, h: History, k: nat, x: Arch, pending: seq<nat>)
    requires cfg.Valid()
  {
    && h.Shaped() && k < |h.log|
    && (h.log[k].operation != Configure ==> Legal(cfg, x.rows, x.cols, h.log[k]))
    && h.done[k] == Accepts(cfg, x, h.log[k]) && h.source[k] == First(pending)
  }

  // ---- dimensions ----

  lemma DimensionsNext(cfg: Config, h: History, k: nat, x: Arch, pending: seq<nat>)
    requires cfg.Valid() && DimensionsAre(cfg, h, k, x) && Next(cfg, h, k, x, pending)
    ensures DimensionsAre(cfg, h, k + 1, Perform(cfg, x, h.log[k]))
  {
    assert Start(h, k + 1) == if Did(h, Configure, k) then k + 1 else Start(h, k);
  }

  // ---- memory ----

  lemma CellsWritten(values: seq<Word>, received: seq<bool>, h: History, op: Operation, k: nat)
    requires CellsAre(values, received, h, op, k) && Did(h, op, k) && op != Configure
    requires |h.log[k].payload| == 4 * h.log[k].elementCount
    ensures var c := h.log[k];
            CellsAre(Write(values, c.elementOffset, Decode(c.payload)), Mark(received, c.elementOffset, c.elementCount), h, op, k + 1)
  {
    var c := h.log[k];
    var w := Write(values, c.elementOffset, Decode(c.payload));
    forall i: nat | i < |received| ensures Mark(received, c.elementOffset, c.elementCount)[i] <==> Given(h, op, k + 1, i) {
      NextGiven(h, op, k, i);
    }
    forall i: nat | i < |values| ensures w[i] == Value(h, op, k + 1, i) {
      NextValue(h, op, k, i);
      if Covers(c, i) { DecodedElement(c, i); }
    }
  }

  lemma DecodedElement(c: Command, i: nat)
    requires Covers(c, i) && |c.payload| == 4 * c.elementCount
    ensures |Decode(c.payload)| == c.elementCount && Decode(c.payload)[i - c.elementOffset] == Element(c, i)
  {
  }

  lemma CellsKept(values: seq<Word>, received: seq<bool>, h: History, op: Operation, k: nat)
    requires CellsAre(values, received, h, op, k) && h.Shaped() && k < |h.log|
    requires !Did(h, Configure, k) && (Did(h, op, k) ==> h.log[k].elementCount == 0)
    ensures CellsAre(values, received, h, op, k + 1)
  {
    forall i: nat ensures Given(h, op, k + 1, i) <==> Given(h, op, k, i) { NextGiven(h, op, k, i); }
    forall i: nat ensures Value(h, op, k + 1, i) == Value(h, op, k, i) { NextValue(h, op, k, i); }
  }

  lemma CellsForgotten(values: seq<Word>, received: seq<bool>, n: nat, h: History, op: Operation, k: nat)
    requires CellsAre(values, received, h, op, k) && Did(h, Configure, k) && op != Configure
    ensures CellsAre(values, Zeros(n), h, op, k + 1)
  {
    var next := k + 1;
    forall i: nat ensures !Given(h, op, next, i) { NextGiven(h, op, k, i); }
    forall i: nat ensures Value(h, op, k + 1, i) == Value(h, op, k, i) { NextValue(h, op, k, i); }
  }

  lemma MemoryNext(cfg: Config, h: History, k: nat, x: Arch, pending: seq<nat>)
    requires cfg.Valid() && MemoryIs(cfg, h, k, x) && Next(cfg, h, k, x, pending)
    ensures MemoryIs(cfg, h, k + 1, Perform(cfg, x, h.log[k]))
  {
    var c := h.log[k];
    if Did(h, Configure, k) {
      CellsForgotten(x.weights, x.weightsReceived, |x.weightsReceived|, h, Program, k);
      CellsForgotten(x.input, x.inputReceived, ConfiguredCols(c), h, Load, k);
    } else {
      if Did(h, Program, k) && c.elementCount > 0 {
        CellsWritten(x.weights, x.weightsReceived, h, Program, k);
      } else {
        CellsKept(x.weights, x.weightsReceived, h, Program, k);
      }
      if Did(h, Load, k) && c.elementCount > 0 {
        CellsWritten(x.input, x.inputReceived, h, Load, k);
      } else {
        CellsKept(x.input, x.inputReceived, h, Load, k);
      }
    }
  }

  // ---- readiness ----

  lemma CoveredGives(cfg: Config, h: History, k: nat, received: seq<bool>, rows: nat, cols: nat, r: nat, c: nat)
    requires cfg.Valid() && |received| == cfg.rows * cfg.cols && (forall i: nat :: i < |received| ==> (received[i] <==> Given(h, Program, k, i)))
    requires rows <= cfg.rows && cols <= cfg.cols && r < rows && c < cols && Covered(received, cfg.cols, rows, cols)
    ensures Given(h, Program, k, CellAt(cfg, r, c))
  {
    CellInRange(cfg, r, c);
    CellOf(cfg.cols, r, c);
    assert received[CellAt(cfg, r, c)];
  }

  lemma GivenCovers(cfg: Config, h: History, k: nat, received: seq<bool>, rows: nat, cols: nat, i: nat)
    requires cfg.Valid() && i < |received| && (received[i] <==> Given(h, Program, k, i)) && Inside(cfg.cols, rows, cols, i)
    requires forall r: nat, c: nat :: r < rows && c < cols ==> Given(h, Program, k, CellAt(cfg, r, c))
    ensures received[i]
  {
    var r, c := i / cfg.cols, i % cfg.cols;
    assert CellAt(cfg, r, c) == i;
  }

  lemma CoveredMeans(cfg: Config, h: History, k: nat, x: Arch)
    requires cfg.Valid() && MemoryIs(cfg, h, k, x) && DimensionsAre(cfg, h, k, x)
    ensures Covered(x.weightsReceived, cfg.cols, x.rows, x.cols) <==> FullyProgrammed(cfg, h, k)
  {
    if Covered(x.weightsReceived, cfg.cols, x.rows, x.cols) {
      forall r: nat, c: nat | r < Rows(cfg, h, k) && c < Cols(cfg, h, k) ensures Given(h, Program, k, CellAt(cfg, r, c)) {
        CoveredGives(cfg, h, k, x.weightsReceived, x.rows, x.cols, r, c);
      }
    }
    if FullyProgrammed(cfg, h, k) {
      forall i | 0 <= i < |x.weightsReceived| && Inside(cfg.cols, x.rows, x.cols, i) ensures x.weightsReceived[i] {
        GivenCovers(cfg, h, k, x.weightsReceived, x.rows, x.cols, i);
      }
    }
  }

  lemma LoadedMeans(cfg: Config, h: History, k: nat, x: Arch)
    requires cfg.Valid() && MemoryIs(cfg, h, k, x) && DimensionsAre(cfg, h, k, x)
    ensures All(x.inputReceived) <==> FullyLoaded(cfg, h, k)
  {
    if FullyLoaded(cfg, h, k) {
      forall c | 0 <= c < |x.inputReceived| ensures x.inputReceived[c] {
        assert Given(h, Load, k, c);
      }
    }
  }

  lemma CellInRange(cfg: Config, r: nat, c: nat)
    requires r < cfg.rows && c < cfg.cols
    ensures CellAt(cfg, r, c) < cfg.rows * cfg.cols
  {
    Monotone(r + 1, cfg.rows, cfg.cols);
    assert (r + 1) * cfg.cols == r * cfg.cols + cfg.cols;
  }

  lemma ClosedNext(cfg: Config, x: Arch, c: Command)
    requires cfg.Valid() && ClosedIs(cfg, x) && |x.weightsReceived| == cfg.rows * cfg.cols
    ensures ClosedIs(cfg, Perform(cfg, x, c))
  {
    var y := Perform(cfg, x, c);
    if c.operation == Configure && Accepts(cfg, x, c) {
      CellInRange(cfg, 0, 0);
      CellOf(cfg.cols, 0, 0);
      assert CellAt(cfg, 0, 0) == 0 && !y.weightsReceived[0] && Inside(cfg.cols, y.rows, y.cols, 0);
    }
  }

  // ---- results ----

  lemma ComputedRow(cfg: Config, h: History, k: nat, x: Arch, r: nat)
    requires cfg.Valid() && MemoryIs(cfg, h, k, x) && DimensionsAre(cfg, h, k, x) && r < x.rows
    ensures Mvm(cfg, x.weights, x.input, x.rows, x.cols)[r] == Product(cfg, h, k, r)
  {
    CellInRange(cfg, r, cfg.cols - 1);
    assert r * cfg.cols + x.cols <= |x.weights|;
    var row := Slice(x.weights, r * cfg.cols, x.cols);
    assert row == x.weights[r * cfg.cols..r * cfg.cols + x.cols];
    forall c: nat | c < x.cols ensures row[c] == Value(h, Program, k, CellAt(cfg, r, c)) {
      assert row[c] == x.weights[r * cfg.cols + c];
    }
    assert row == WeightRow(cfg, h, k, r);
    assert Slice(x.input, 0, x.cols) == Inputs(cfg, h, k);
  }

  /** What an Execute leaves, unread. */
  lemma FreshResult(cfg: Config, h: History, k: nat, x: Arch)
    requires cfg.Valid() && MemoryIs(cfg, h, k, x) && DimensionsAre(cfg, h, k, x) && Did(h, Execute, k)
    ensures ResultIs(cfg, h, k + 1, k, Mvm(cfg, x.weights, x.input, x.rows, x.cols), Zeros(x.rows))
    ensures !All(Zeros(x.rows))
  {
    forall r: nat | r < x.rows ensures Mvm(cfg, x.weights, x.input, x.rows, x.cols)[r] == Product(cfg, h, k, r) {
      ComputedRow(cfg, h, k, x, r);
    }
    assert !Zeros(x.rows)[0];
  }

  /** A result that the command does not read. */
  lemma ResultKept(cfg: Config, h: History, k: nat, e: nat, values: seq<Word>, read: seq<bool>)
    requires ResultIs(cfg, h, k, e, values, read) && (forall r: nat :: !ReadsAt(h, e, k, r))
    ensures ResultIs(cfg, h, k + 1, e, values, read)
  {
    forall r: nat ensures RowRead(h, e, k + 1, r) <==> RowRead(h, e, k, r) { NextRead(h, e, k, r); }
  }

  /** A result of which the command reads its rows. */
  lemma ResultRead(cfg: Config, h: History, k: nat, e: nat, values: seq<Word>, read: seq<bool>)
    requires ResultIs(cfg, h, k, e, values, read) && Did(h, Store, k) && h.source[k] == e
    ensures ResultIs(cfg, h, k + 1, e, values, Mark(read, h.log[k].elementOffset, h.log[k].elementCount))
  {
    forall r: nat | r < |read|
      ensures Mark(read, h.log[k].elementOffset, h.log[k].elementCount)[r] <==> RowRead(h, e, k + 1, r)
    {
      NextRead(h, e, k, r);
    }
  }

  lemma AllReadMeans(cfg: Config, h: History, k: nat, e: nat, values: seq<Word>, read: seq<bool>)
    requires ResultIs(cfg, h, k, e, values, read)
    ensures AllRead(cfg, h, e, k) <==> All(read)
  {
  }

  lemma StaysRead(cfg: Config, h: History, e: nat, k: nat)
    requires AllRead(cfg, h, e, k) && e < k
    ensures AllRead(cfg, h, e, k + 1)
  {
    var next := k + 1;
    forall r: nat | r < Rows(cfg, h, e) ensures RowRead(h, e, next, r) { NextRead(h, e, k, r); }
  }

  // ---- pipelined mode ----

  ghost predicate ReadsNothing(h: History, k: nat) {
    forall e: nat, r: nat :: !ReadsAt(h, e, k, r)
  }

  lemma SlotKept(cfg: Config, h: History, k: nat, e: nat, s: Slot)
    requires SlotIs(cfg, h, k, e, s) && !Did(h, Configure, k) && forall r: nat :: !ReadsAt(h, e, k, r)
    ensures SlotIs(cfg, h, k + 1, e, s)
  {
    ResultKept(cfg, h, k, e, s.values, s.read);
  }

  lemma OthersRead(cfg: Config, h: History, k: nat, fifo: seq<Slot>, pending: seq<nat>)
    requires FifoIs(cfg, h, k, fifo, pending)
    ensures forall e: nat :: e < k && Did(h, Execute, e) && e !in pending ==> AllRead(cfg, h, e, k + 1)
  {
    var next := k + 1;
    forall e: nat | e < k && Did(h, Execute, e) && e !in pending ensures AllRead(cfg, h, e, next) {
      StaysRead(cfg, h, e, k);
    }
  }

  lemma FifoKept(cfg: Config, h: History, k: nat, fifo: seq<Slot>, pending: seq<nat>)
    requires FifoIs(cfg, h, k, fifo, pending) && ReadsNothing(h, k) && !Did(h, Execute, k)
    requires Did(h, Configure, k) ==> fifo == []
    ensures FifoIs(cfg, h, k + 1, fifo, pending)
  {
    forall n | 0 <= n < |fifo| ensures SlotIs(cfg, h, k + 1, pending[n], fifo[n]) {
      SlotKept(cfg, h, k, pending[n], fifo[n]);
    }
    OthersRead(cfg, h, k, fifo, pending);
  }

  lemma FifoGrows(cfg: Config, h: History, k: nat, fifo: seq<Slot>, pending: seq<nat>, s: Slot)
    requires FifoIs(cfg, h, k, fifo, pending) && Did(h, Execute, k) && SlotIs(cfg, h, k + 1, k, s)
    ensures FifoIs(cfg, h, k + 1, fifo + [s], pending + [k])
  {
    var slots, places := fifo + [s], pending + [k];
    forall n | 0 <= n < |slots| ensures SlotIs(cfg, h, k + 1, places[n], slots[n]) {
      if n < |fifo| { SlotKept(cfg, h, k, pending[n], fifo[n]); }
    }
    forall m, n | 0 <= m < n < |places| ensures places[m] < places[n] {
      if n == |pending| { assert SlotIs(cfg, h, k, pending[m], fifo[m]); }
    }
    OthersRead(cfg, h, k, fifo, pending);
    forall e: nat | e < k + 1 && Did(h, Execute, e) && e !in places ensures AllRead(cfg, h, e, k + 1) {
      assert places[|pending|] == k;
      assert forall n :: 0 <= n < |pending| ==> places[n] == pending[n];
    }
  }

  /** The Store reads the front and leaves some of it. */
  lemma FrontRead(cfg: Config, h: History, k: nat, fifo: seq<Slot>, pending: seq<nat>, read: seq<bool>)
    requires FifoIs(cfg, h, k, fifo, pending) && fifo != [] && Did(h, Store, k) && h.source[k] == pending[0]
    requires read == Mark(fifo[0].read, h.log[k].elementOffset, h.log[k].elementCount) && !All(read)
    ensures FifoIs(cfg, h, k + 1, [fifo[0].(read := read)] + fifo[1..], pending)
  {
    var slots := [fifo[0].(read := read)] + fifo[1..];
    assert SlotIs(cfg, h, k, pending[0], fifo[0]);
    ResultRead(cfg, h, k, pending[0], fifo[0].values, fifo[0].read);
    forall n | 0 <= n < |slots| ensures SlotIs(cfg, h, k + 1, pending[n], slots[n]) {
      if n > 0 { SlotKept(cfg, h, k, pending[n], fifo[n]); }
    }
    OthersRead(cfg, h, k, fifo, pending);
  }

  /** The Store reads the last of the front, which goes. */
  lemma FrontDone(cfg: Config, h: History, k: nat, fifo: seq<Slot>, pending: seq<nat>)
    requires FifoIs(cfg, h, k, fifo, pending) && fifo != [] && Did(h, Store, k) && h.source[k] == pending[0]
    requires All(Mark(fifo[0].read, h.log[k].elementOffset, h.log[k].elementCount))
    ensures FifoIs(cfg, h, k + 1, fifo[1..], pending[1..])
  {
    assert SlotIs(cfg, h, k, pending[0], fifo[0]);
    ResultRead(cfg, h, k, pending[0], fifo[0].values, fifo[0].read);
    AllReadMeans(cfg, h, k + 1, pending[0], fifo[0].values, Mark(fifo[0].read, h.log[k].elementOffset, h.log[k].elementCount));
    var slots, places := fifo[1..], pending[1..];
    forall n | 0 <= n < |slots| ensures SlotIs(cfg, h, k + 1, places[n], slots[n]) {
      SlotKept(cfg, h, k, pending[n + 1], fifo[n + 1]);
    }
    OthersRead(cfg, h, k, fifo, pending);
    forall e: nat | e < k + 1 && Did(h, Execute, e) && e !in places ensures AllRead(cfg, h, e, k + 1) {
      if e in pending {
        InRest(pending, e);
      }
    }
  }

  lemma InRest(pending: seq<nat>, e: nat)
    requires e in pending
    ensures e == pending[0] || e in pending[1..]
  {
  }

  lemma FifoNext(cfg: Config, h: History, k: nat, x: Arch, pending: seq<nat>)
    requires cfg.Valid() && cfg.pipeline && FifoIs(cfg, h, k, x.fifo, pending) && Next(cfg, h, k, x, pending)
    requires MemoryIs(cfg, h, k, x) && DimensionsAre(cfg, h, k, x)
    ensures FifoIs(cfg, h, k + 1, Perform(cfg, x, h.log[k]).fifo, PendingAfter(cfg, x, h.log[k], k, pending))
  {
    var c := h.log[k];
    if Did(h, Execute, k) {
      FreshResult(cfg, h, k, x);
      FifoGrows(cfg, h, k, x.fifo, pending, Slot(c.token, Mvm(cfg, x.weights, x.input, x.rows, x.cols), Zeros(x.rows)));
    } else if Did(h, Store, k) && c.elementCount > 0 {
      var read := Mark(x.fifo[0].read, c.elementOffset, c.elementCount);
      if All(read) {
        FrontDone(cfg, h, k, x.fifo, pending);
      } else {
        FrontRead(cfg, h, k, x.fifo, pending, read);
      }
    } else {
      FifoKept(cfg, h, k, x.fifo, pending);
    }
  }

  // ---- blocking mode ----

  lemma OutputNext(cfg: Config, h: History, k: nat, x: Arch, pending: seq<nat>)
    requires cfg.Valid() && !cfg.pipeline && OutputIs(cfg, h, k, x, pending) && Next(cfg, h, k, x, pending)
    requires MemoryIs(cfg, h, k, x) && DimensionsAre(cfg, h, k, x)
    ensures OutputIs(cfg, h, k + 1, Perform(cfg, x, h.log[k]), PendingAfter(cfg, x, h.log[k], k, pending))
  {
    var c := h.log[k];
    if Did(h, Execute, k) {
      FreshResult(cfg, h, k, x);
    } else if Leaves(h, k) {
      OutputKept(cfg, h, k, x, pending);
    } else {
      var next := k + 1;
      forall e: nat ensures !Valid(h, next, e) { ValidNext(h, k, e); }
    }
  }

  lemma OutputKept(cfg: Config, h: History, k: nat, x: Arch, pending: seq<nat>)
    requires cfg.Valid() && !cfg.pipeline && OutputIs(cfg, h, k, x, pending) && Next(cfg, h, k, x, pending)
    requires !Did(h, Execute, k) && Leaves(h, k)
    ensures OutputIs(cfg, h, k + 1, Perform(cfg, x, h.log[k]), pending)
  {
    var next, c := k + 1, h.log[k];
    forall e: nat ensures Valid(h, next, e) <==> Valid(h, k, e) { ValidNext(h, k, e); }
    if x.computed {
      assert Valid(h, next, pending[0]);
      if Did(h, Store, k) && c.elementCount > 0 {
        ResultRead(cfg, h, k, pending[0], x.output, x.outputRead);
      } else {
        ResultKept(cfg, h, k, pending[0], x.output, x.outputRead);
      }
    }
  }

  lemma ValidNext(h: History, k: nat, e: nat)
    requires h.Shaped() && k < |h.log| && !Did(h, Execute, k)
    ensures Valid(h, k + 1, e) <==> Valid(h, k, e) && Leaves(h, k)
  {
  }

  // ---- all of it, after every command ----

  ghost predicate StateIs(cfg: Config, h: History, k: nat, x: Arch, pending: seq<nat>)
    requires cfg.Valid()
  {
    DimensionsAre(cfg, h, k, x) && MemoryIs(cfg, h, k, x) && ClosedIs(cfg, x) && ResultsAre(cfg, h, k, x, pending)
  }

  lemma StateNext(cfg: Config, h: History, k: nat, x: Arch, pending: seq<nat>)
    requires cfg.Valid() && StateIs(cfg, h, k, x, pending) && Next(cfg, h, k, x, pending)
    ensures StateIs(cfg, h, k + 1, Perform(cfg, x, h.log[k]), PendingAfter(cfg, x, h.log[k], k, pending))
  {
    DimensionsNext(cfg, h, k, x, pending);
    MemoryNext(cfg, h, k, x, pending);
    ClosedNext(cfg, x, h.log[k]);
    if cfg.pipeline {
      FifoNext(cfg, h, k, x, pending);
    } else {
      OutputNext(cfg, h, k, x, pending);
    }
  }

  lemma StateFirst(cfg: Config, h: History)
    requires cfg.Valid() && h.Shaped()
    ensures StateIs(cfg, h, 0, Reset(cfg), [])
  {
    CellInRange(cfg, 0, 0);
    CellOf(cfg.cols, 0, 0);
    assert CellAt(cfg, 0, 0) == 0 && Inside(cfg.cols, cfg.rows, cfg.cols, 0) && !Reset(cfg).weightsReceived[0];
  }

  /** Every command was legal when it was accepted. */
  ghost predicate LegalLog(cfg: Config, log: seq<Command>)
    requires cfg.Valid()
  {
    forall k :: 0 <= k < |log| && log[k].operation != Configure ==>
      Legal(cfg, Final(cfg, log[..k]).rows, Final(cfg, log[..k]).cols, log[k])
  }

  lemma NextAt(cfg: Config, log: seq<Command>, k: nat)
    requires cfg.Valid() && LegalLog(cfg, log) && k < |log|
    ensures Next(cfg, HistoryOf(cfg, log), k, Final(cfg, log[..k]), Pending(cfg, log, k))
  {
  }

  lemma FinalNext(cfg: Config, log: seq<Command>, k: nat)
    requires cfg.Valid() && k < |log|
    ensures Final(cfg, log[..k + 1]) == Perform(cfg, Final(cfg, log[..k]), log[k])
  {
    assert log[..k + 1] == log[..k] + [log[k]];
    RunAppend(cfg, Reset(cfg), log[..k], log[k]);
  }

  lemma {:induction false} StateAt(cfg: Config, log: seq<Command>, k: nat)
    requires cfg.Valid() && LegalLog(cfg, log) && k <= |log|
    ensures StateIs(cfg, HistoryOf(cfg, log), k, Final(cfg, log[..k]), Pending(cfg, log, k))
  {
    if k == 0 {
      StateFirst(cfg, HistoryOf(cfg, log));
    } else {
      StateAt(cfg, log, k - 1);
      NextAt(cfg, log, k - 1);
      StateNext(cfg, HistoryOf(cfg, log), k - 1, Final(cfg, log[..k - 1]), Pending(cfg, log, k - 1));
      FinalNext(cfg, log, k - 1);
    }
  }

  // ---- when a command is done ----

  lemma OldestReads(cfg: Config, h: History, k: nat, fifo: seq<Slot>, pending: seq<nat>)
    requires cfg.pipeline && FifoIs(cfg, h, k, fifo, pending) && fifo != []
    ensures Reads(cfg, h, k, pending[0])
  {
    assert SlotIs(cfg, h, k, pending[0], fifo[0]);
    AllReadMeans(cfg, h, k, pending[0], fifo[0].values, fifo[0].read);
    forall d: nat | d < pending[0] && Did(h, Execute, d) ensures AllRead(cfg, h, d, k) {
      assert d !in pending;
    }
  }

  lemma NoneReads(cfg: Config, h: History, k: nat, pending: seq<nat>)
    requires cfg.pipeline && FifoIs(cfg, h, k, [], pending)
    ensures forall e: nat :: e < k && Did(h, Execute, e) ==> AllRead(cfg, h, e, k)
    ensures forall e: nat :: !Reads(cfg, h, k, e)
  {
  }

  lemma StoreCan(cfg: Config, h: History, k: nat, x: Arch, pending: seq<nat>)
    requires cfg.Valid() && ResultsAre(cfg, h, k, x, pending)
    ensures (if cfg.pipeline then x.fifo != [] else x.computed) <==> exists e: nat :: Reads(cfg, h, k, e)
    ensures (if cfg.pipeline then x.fifo != [] else x.computed) ==> Reads(cfg, h, k, First(pending))
  {
    if cfg.pipeline {
      if x.fifo != [] { OldestReads(cfg, h, k, x.fifo, pending); } else { NoneReads(cfg, h, k, pending); }
    } else {
      forall e: nat ensures Reads(cfg, h, k, e) <==> Valid(h, k, e) {}
    }
  }

  lemma NoLaterExecute(h: History, k: nat, e: nat)
    requires Valid(h, k, e)
    ensures forall f: nat :: e < f < k ==> !Did(h, Execute, f)
  {
    forall f: nat | e < f < k ensures !Did(h, Execute, f) {
      assert Leaves(h, f);
    }
  }

  lemma OneValid(h: History, k: nat, e: nat, f: nat)
    requires Valid(h, k, e) && Valid(h, k, f)
    ensures e == f
  {
    NoLaterExecute(h, k, e);
    NoLaterExecute(h, k, f);
  }

  lemma NothingWaitsMeans(cfg: Config, h: History, k: nat, x: Arch, pending: seq<nat>)
    requires cfg.Valid() && ResultsAre(cfg, h, k, x, pending)
    ensures x.fifo == [] && (x.computed ==> All(x.outputRead)) <==> NothingWaits(cfg, h, k)
  {
    if cfg.pipeline {
      if x.fifo != [] { OldestReads(cfg, h, k, x.fifo, pending); } else { NoneReads(cfg, h, k, pending); }
    } else {
      forall e: nat ensures Reads(cfg, h, k, e) <==> Valid(h, k, e) {}
      if x.computed {
        AllReadMeans(cfg, h, k, pending[0], x.output, x.outputRead);
        forall e: nat | Valid(h, k, e) ensures e == pending[0] { OneValid(h, k, e, pending[0]); }
      }
    }
  }

  lemma StepIsTrue(cfg: Config, h: History, k: nat, x: Arch, pending: seq<nat>)
    requires cfg.Valid() && StateIs(cfg, h, k, x, pending) && Next(cfg, h, k, x, pending)
    ensures StepTrue(cfg, h, k)
  {
    match h.log[k].operation
    case Program => CoveredMeans(cfg, h, k, x);
    case Load =>
    case Execute => CoveredMeans(cfg, h, k, x); LoadedMeans(cfg, h, k, x);
    case Store => StoreCan(cfg, h, k, x, pending);
    case Configure => NothingWaitsMeans(cfg, h, k, x, pending);
  }

  // ---- what a Store carries ----

  lemma EncodedElement(words: seq<Word>, j: nat)
    requires j < |words|
    ensures 4 * j + 4 <= |Encode(words)| && Assembled(Encode(words), 4 * j) == words[j]
  {
    EncodedWord(words, j);
    WordBytes(words[j]);
    var quad := Encode(words)[4 * j..4 * j + 4];
    assert Encode(words)[4 * j] == quad[0] && Encode(words)[4 * j + 1] == quad[1];
    assert Encode(words)[4 * j + 2] == quad[2] && Encode(words)[4 * j + 3] == quad[3];
  }

  lemma SliceElement(values: seq<Word>, offset: nat, count: nat, r: nat)
    requires offset <= r < offset + count <= |values|
    ensures 4 * (r - offset) + 4 <= |Encode(Slice(values, offset, count))|
    ensures Assembled(Encode(Slice(values, offset, count)), 4 * (r - offset)) == values[r]
  {
    var words := Slice(values, offset, count);
    EncodedElement(words, r - offset);
    assert words[r - offset] == values[r];
  }

  lemma SliceCarries(cfg: Config, h: History, k: nat, c: Command, e: nat, values: seq<Word>, read: seq<bool>)
    requires ResultIs(cfg, h, k, e, values, read) && c.elementOffset + c.elementCount <= |values|
    ensures Carries(cfg, h, c, e, Encode(Slice(values, c.elementOffset, c.elementCount)))
  {
    var payload := Encode(Slice(values, c.elementOffset, c.elementCount));
    forall r: nat | Covers(c, r) ensures Assembled(payload, 4 * (r - c.elementOffset)) == Product(cfg, h, e, r) {
      SliceElement(values, c.elementOffset, c.elementCount, r);
    }
  }

  lemma {:induction false} ValidStart(h: History, k: nat, e: nat)
    requires Valid(h, k, e)
    ensures Start(h, e) == Start(h, k)
    decreases k
  {
    assert Leaves(h, k - 1) || k - 1 == e;
    if k - 1 > e {
      assert Valid(h, k - 1, e);
      ValidStart(h, k - 1, e);
    }
  }

  lemma AnswerCarries(cfg: Config, h: History, k: nat, x: Arch, pending: seq<nat>)
    requires cfg.Valid() && StateIs(cfg, h, k, x, pending) && Next(cfg, h, k, x, pending)
    requires h.done[k] && h.log[k].Moves(Store)
    ensures h.source[k] < |h.log| && Answer(cfg, x, h.log[k]).Done?
    ensures cfg.pipeline ==> Answer(cfg, x, h.log[k]).source == Some(h.log[h.source[k]].token)
    ensures Carries(cfg, h, h.log[k], h.source[k], Answer(cfg, x, h.log[k]).payload)
  {
    var c := h.log[k];
    if cfg.pipeline {
      assert SlotIs(cfg, h, k, pending[0], x.fifo[0]);
      SliceCarries(cfg, h, k, c, pending[0], x.fifo[0].values, x.fifo[0].read);
    } else {
      ValidStart(h, k, pending[0]);
      SliceCarries(cfg, h, k, c, pending[0], x.output, x.outputRead);
    }
  }

  // ---- the theorem, for any log of legal commands ----

  lemma Tells(cfg: Config, log: seq<Command>, k: nat)
    requires cfg.Valid() && LegalLog(cfg, log) && k < |log|
    ensures StepTrue(cfg, HistoryOf(cfg, log), k)
    ensures Verdict(cfg, log, k).Done? && log[k].Moves(Store) ==>
              var h := HistoryOf(cfg, log);
              && h.source[k] < |log| && Carries(cfg, h, log[k], h.source[k], Verdict(cfg, log, k).payload)
              && (cfg.pipeline ==> Verdict(cfg, log, k).source == Some(log[h.source[k]].token))
    ensures Verdict(cfg, log, k).Done? && !log[k].Moves(Store) ==> Verdict(cfg, log, k).payload == []
  {
    var h, x, pending := HistoryOf(cfg, log), Final(cfg, log[..k]), Pending(cfg, log, k);
    StateAt(cfg, log, k);
    NextAt(cfg, log, k);
    StepIsTrue(cfg, h, k, x, pending);
    if h.done[k] && log[k].Moves(Store) {
      AnswerCarries(cfg, h, k, x, pending);
    }
  }

  /** The history of a log of legal commands is true. */
  lemma HistoryIsTrue(cfg: Config, log: seq<Command>)
    requires cfg.Valid() && LegalLog(cfg, log)
    ensures True(cfg, HistoryOf(cfg, log))
  {
    forall k: nat | k < |log| ensures StepTrue(cfg, HistoryOf(cfg, log), k) {
      Tells(cfg, log, k);
    }
  }
}
