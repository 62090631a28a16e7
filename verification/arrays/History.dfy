/** What an array answers, said of the commands it accepted and of nothing else: a command is done or
    refused, and each result that is read comes from one Execute. There is no state and no time here. */
module History {
  import opened Vectors
  import opened Commands

  /** The accepted commands in order, which of them were done, and for each Store that read something the
      place of the Execute it read. */
  datatype History = History(log: seq<Command>, done: seq<bool>, source: seq<nat>) {
    predicate Shaped() {
      |done| == |log| && |source| == |log|
    }
  }

  /** The k-th command is an `op` and was done. */
  predicate Did(h: History, op: Operation, k: nat) {
    h.Shaped() && k < |h.log| && h.done[k] && h.log[k].operation == op
  }

  predicate Covers(c: Command, i: nat) {
    c.elementOffset <= i < c.elementOffset + c.elementCount
  }

  // ---- what an Execute sees ----

  /** The place after the last Configure done before k, or 0. */
  function Start(h: History, k: nat): (from: nat)
    ensures from <= k && (from == 0 || Did(h, Configure, from - 1))
    ensures forall j :: from <= j < k ==> !Did(h, Configure, j)
  {
    if k == 0 then 0 else if Did(h, Configure, k - 1) then k else Start(h, k - 1)
  }

  /** The active rectangle: that of the last Configure, or the physical one. */
  function Rows(cfg: Config, h: History, k: nat): nat {
    if Start(h, k) == 0 then cfg.rows else h.log[Start(h, k) - 1].elementOffset / 0x1_0000_0000 % 0x1_0000_0000
  }

  function Cols(cfg: Config, h: History, k: nat): nat {
    if Start(h, k) == 0 then cfg.cols else h.log[Start(h, k) - 1].elementOffset % 0x1_0000_0000
  }

  ghost predicate Gives(h: History, op: Operation, j: nat, i: nat) {
    Did(h, op, j) && Covers(h.log[j], i)
  }

  /** Element i was given since the last Configure. */
  ghost predicate Given(h: History, op: Operation, k: nat, i: nat) {
    exists j: nat :: Start(h, k) <= j < k && Gives(h, op, j, i)
  }

  function CellAt(cfg: Config, r: nat, c: nat): nat {
    r * cfg.cols + c
  }

  ghost predicate FullyProgrammed(cfg: Config, h: History, k: nat) {
    forall r: nat, c: nat :: r < Rows(cfg, h, k) && c < Cols(cfg, h, k) ==> Given(h, Program, k, CellAt(cfg, r, c))
  }

  ghost predicate FullyLoaded(cfg: Config, h: History, k: nat) {
    forall c: nat :: c < Cols(cfg, h, k) ==> Given(h, Load, k, c)
  }

  /** The last command before k that gave element i, or -1. */
  ghost function Last(h: History, op: Operation, k: nat, i: nat): (j: int)
    ensures -1 <= j < k && (j >= 0 ==> Gives(h, op, j, i))
    ensures forall l: nat :: j < l < k ==> !Gives(h, op, l, i)
  {
    if k == 0 then -1 else if Gives(h, op, k - 1, i) then k - 1 else Last(h, op, k - 1, i)
  }

  /** Four bytes, the lowest first. */
  function Assembled(bytes: seq<Byte>, at: nat): (w: nat)
    requires at + 4 <= |bytes|
    ensures w < 0x1_0000_0000
  {
    var b0: nat, b1: nat, b2: nat, b3: nat := bytes[at], bytes[at + 1], bytes[at + 2], bytes[at + 3];
    b0 + 0x100 * b1 + 0x1_0000 * b2 + 0x100_0000 * b3
  }

  /** The word that the command carries for element i. */
  function Element(c: Command, i: nat): Word
    requires Covers(c, i) && |c.payload| == 4 * c.elementCount
  {
    Assembled(c.payload, 4 * (i - c.elementOffset))
  }

  /** What element i holds before the k-th command: what was last given, or zero. */
  ghost function Value(h: History, op: Operation, k: nat, i: nat): Word {
    var j := Last(h, op, k, i);
    if j >= 0 && |h.log[j].payload| == 4 * h.log[j].elementCount then Element(h.log[j], i) else 0
  }

  ghost function WeightRow(cfg: Config, h: History, k: nat, r: nat): seq<Word> {
    seq(Cols(cfg, h, k), c requires 0 <= c => Value(h, Program, k, CellAt(cfg, r, c)))
  }

  ghost function Inputs(cfg: Config, h: History, k: nat): seq<Word> {
    seq(Cols(cfg, h, k), c requires 0 <= c => Value(h, Load, k, c))
  }

  /** Element r of what the Execute at e computes: the dot product of row r of the weights and the inputs
      that the Programs and Loads before e last gave. */
  ghost function Product(cfg: Config, h: History, e: nat, r: nat): Word {
    cfg.dot(WeightRow(cfg, h, e, r), Inputs(cfg, h, e))
  }

  // ---- who reads what ----

  ghost predicate ReadsAt(h: History, e: nat, t: nat, r: nat) {
    Did(h, Store, t) && h.source[t] == e && Covers(h.log[t], r)
  }

  /** Some Store before k has read row r of the result of e. */
  ghost predicate RowRead(h: History, e: nat, k: nat, r: nat) {
    exists t: nat :: e < t < k && ReadsAt(h, e, t, r)
  }

  ghost predicate AllRead(cfg: Config, h: History, e: nat, k: nat) {
    forall r: nat :: r < Rows(cfg, h, e) ==> RowRead(h, e, k, r)
  }

  /** A command that leaves a single output valid. */
  predicate Leaves(h: History, j: nat) {
    h.Shaped() && j < |h.log| &&
    (h.done[j] ==>
       || h.log[j].operation == Store
       || ((h.log[j].operation == Program || h.log[j].operation == Load) && h.log[j].elementCount == 0))
  }

  /** The result that a Store at k reads. In pipelined mode it is the oldest one not completely read; in
      blocking mode the last one, unless weights, inputs or dimensions have changed since. */
  ghost predicate Reads(cfg: Config, h: History, k: nat, e: nat) {
    && e < k && Did(h, Execute, e)
    && if cfg.pipeline then
         !AllRead(cfg, h, e, k) && forall d: nat :: d < e && Did(h, Execute, d) ==> AllRead(cfg, h, d, k)
       else
         forall j: nat :: e < j < k ==> Leaves(h, j)
  }

  /** No result waits to be read: in pipelined mode none at all, in blocking mode not the valid one. */
  ghost predicate NothingWaits(cfg: Config, h: History, k: nat) {
    if cfg.pipeline then forall e: nat :: e < k && Did(h, Execute, e) ==> AllRead(cfg, h, e, k)
    else forall e: nat :: Reads(cfg, h, k, e) ==> AllRead(cfg, h, e, k)
  }

  /** When the k-th command can be done. */
  ghost predicate Can(cfg: Config, h: History, k: nat)
    requires k < |h.log|
  {
    var c := h.log[k];
    match c.operation
    case Program => c.elementCount == 0 || !(cfg.initialProgram && FullyProgrammed(cfg, h, k))
    case Load => true
    case Execute => FullyProgrammed(cfg, h, k) && FullyLoaded(cfg, h, k)
    case Store => c.elementCount == 0 || exists e: nat :: Reads(cfg, h, k, e)
    case Configure =>
      && 0 < c.elementOffset / 0x1_0000_0000 % 0x1_0000_0000 <= cfg.rows
      && 0 < c.elementOffset % 0x1_0000_0000 <= cfg.cols
      && NothingWaits(cfg, h, k)
  }

  ghost predicate StepTrue(cfg: Config, h: History, k: nat)
    requires h.Shaped() && k < |h.log|
  {
    && (h.done[k] <==> Can(cfg, h, k))
    && (h.done[k] && h.log[k].Moves(Store) ==> Reads(cfg, h, k, h.source[k]))
  }

  /** Commands are done when they can be, and Stores read the result they have to read. */
  ghost predicate True(cfg: Config, h: History) {
    h.Shaped() && forall k: nat :: k < |h.log| ==> StepTrue(cfg, h, k)
  }

  /** The payload of a Store: its rows of the result of e as little-endian words, and nothing else. */
  ghost predicate Carries(cfg: Config, h: History, c: Command, e: nat, payload: seq<Byte>) {
    && |payload| == 4 * c.elementCount
    && forall r: nat :: Covers(c, r) ==> Assembled(payload, 4 * (r - c.elementOffset)) == Product(cfg, h, e, r)
  }

  // ---- one command more ----

  lemma NextGiven(h: History, op: Operation, k: nat, i: nat)
    ensures Did(h, Configure, k) ==> !Given(h, op, k + 1, i)
    ensures !Did(h, Configure, k) ==> (Given(h, op, k + 1, i) <==> Given(h, op, k, i) || Gives(h, op, k, i))
  {
    assert Start(h, k + 1) == if Did(h, Configure, k) then k + 1 else Start(h, k);
    if Given(h, op, k, i) {
      var j: nat :| Start(h, k) <= j < k && Gives(h, op, j, i);
      assert j < k + 1;
    }
  }

  lemma NextValue(h: History, op: Operation, k: nat, i: nat)
    ensures Gives(h, op, k, i) && |h.log[k].payload| == 4 * h.log[k].elementCount ==> Value(h, op, k + 1, i) == Element(h.log[k], i)
    ensures !Gives(h, op, k, i) ==> Value(h, op, k + 1, i) == Value(h, op, k, i)
  {
  }

  lemma NextRead(h: History, e: nat, k: nat, r: nat)
    requires e < k
    ensures RowRead(h, e, k + 1, r) <==> RowRead(h, e, k, r) || ReadsAt(h, e, k, r)
  {
    if RowRead(h, e, k, r) {
      var t: nat :| e < t < k && ReadsAt(h, e, t, r);
      assert t < k + 1;
    }
  }

  // ---- a log has one history ----

  /** The histories say the same of the commands before k. */
  ghost predicate Agree(h: History, g: History, k: nat) {
    && h.Shaped() && g.Shaped() && h.log == g.log && k <= |h.log|
    && (forall j :: 0 <= j < k ==> h.done[j] == g.done[j])
    && forall j :: 0 <= j < k && h.done[j] && h.log[j].Moves(Store) ==> h.source[j] == g.source[j]
  }

  lemma {:induction false} SameStart(h: History, g: History, k: nat)
    requires Agree(h, g, k)
    ensures Start(h, k) == Start(g, k)
    decreases k
  {
    if k > 0 {
      SameStart(h, g, k - 1);
      assert Did(h, Configure, k - 1) <==> Did(g, Configure, k - 1);
    }
  }

  lemma SameDimensions(cfg: Config, h: History, g: History, k: nat)
    requires Agree(h, g, k)
    ensures Rows(cfg, h, k) == Rows(cfg, g, k) && Cols(cfg, h, k) == Cols(cfg, g, k)
  {
    SameStart(h, g, k);
  }

  lemma SameGiven(h: History, g: History, op: Operation, k: nat, i: nat)
    requires Agree(h, g, k) && Given(h, op, k, i)
    ensures Given(g, op, k, i)
  {
    SameStart(h, g, k);
    var j: nat :| Start(h, k) <= j < k && Gives(h, op, j, i);
    assert Gives(g, op, j, i);
  }

  lemma Fully(cfg: Config, h: History, g: History, k: nat)
    requires Agree(h, g, k) && Agree(g, h, k)
    ensures FullyProgrammed(cfg, h, k) ==> FullyProgrammed(cfg, g, k)
    ensures FullyLoaded(cfg, h, k) ==> FullyLoaded(cfg, g, k)
  {
    SameDimensions(cfg, h, g, k);
    forall i: nat, op | Given(h, op, k, i) ensures Given(g, op, k, i) {
      SameGiven(h, g, op, k, i);
    }
  }

  lemma SameRead(h: History, g: History, e: nat, k: nat, r: nat)
    requires Agree(h, g, k) && RowRead(h, e, k, r)
    ensures RowRead(g, e, k, r)
  {
    var t: nat :| e < t < k && ReadsAt(h, e, t, r);
    assert ReadsAt(g, e, t, r);
  }

  lemma SameAllRead(cfg: Config, h: History, g: History, e: nat, k: nat)
    requires Agree(h, g, k) && e < k && AllRead(cfg, h, e, k)
    ensures AllRead(cfg, g, e, k)
  {
    SameDimensions(cfg, h, g, e);
    forall r: nat | r < Rows(cfg, g, e) ensures RowRead(g, e, k, r) {
      SameRead(h, g, e, k, r);
    }
  }

  lemma SameReads(cfg: Config, h: History, g: History, k: nat, e: nat)
    requires Agree(h, g, k) && Agree(g, h, k) && Reads(cfg, h, k, e)
    ensures Reads(cfg, g, k, e)
  {
    if cfg.pipeline {
      if AllRead(cfg, g, e, k) { SameAllRead(cfg, g, h, e, k); }
      forall d: nat | d < e && Did(g, Execute, d) ensures AllRead(cfg, g, d, k) {
        assert Did(h, Execute, d);
        SameAllRead(cfg, h, g, d, k);
      }
    } else {
      forall j: nat | e < j < k ensures Leaves(g, j) {
        assert Leaves(h, j);
      }
    }
  }

  lemma SameWaits(cfg: Config, h: History, g: History, k: nat)
    requires Agree(h, g, k) && Agree(g, h, k) && NothingWaits(cfg, h, k)
    ensures NothingWaits(cfg, g, k)
  {
    if cfg.pipeline {
      forall e: nat | e < k && Did(g, Execute, e) ensures AllRead(cfg, g, e, k) {
        assert Did(h, Execute, e);
        SameAllRead(cfg, h, g, e, k);
      }
    } else {
      forall e: nat | Reads(cfg, g, k, e) ensures AllRead(cfg, g, e, k) {
        SameReads(cfg, g, h, k, e);
        SameAllRead(cfg, h, g, e, k);
      }
    }
  }

  lemma SameCan(cfg: Config, h: History, g: History, k: nat)
    requires Agree(h, g, k) && Agree(g, h, k) && k < |h.log| && Can(cfg, h, k)
    ensures Can(cfg, g, k)
  {
    match h.log[k].operation
    case Program => Fully(cfg, g, h, k);
    case Load =>
    case Execute => Fully(cfg, h, g, k);
    case Store =>
      if h.log[k].elementCount > 0 {
        var e: nat :| Reads(cfg, h, k, e);
        SameReads(cfg, h, g, k, e);
      }
    case Configure => SameWaits(cfg, h, g, k);
  }

  lemma LastExecute(cfg: Config, h: History, k: nat, e: nat)
    requires !cfg.pipeline && Reads(cfg, h, k, e)
    ensures forall f: nat :: e < f < k ==> !Did(h, Execute, f)
  {
    forall f: nat | e < f < k ensures !Did(h, Execute, f) {
      assert Leaves(h, f);
    }
  }

  lemma ReadsOne(cfg: Config, h: History, k: nat, e: nat, f: nat)
    requires Reads(cfg, h, k, e) && Reads(cfg, h, k, f)
    ensures e == f
  {
    if !cfg.pipeline {
      LastExecute(cfg, h, k, e);
      LastExecute(cfg, h, k, f);
    }
  }

  /** A log has one history: which commands are done, and what each Store reads, is determined by what the
      history has to satisfy. */
  lemma {:induction false} HistoryUnique(cfg: Config, h: History, g: History, k: nat)
    requires True(cfg, h) && True(cfg, g) && h.log == g.log && k <= |h.log|
    ensures Agree(h, g, k) && Agree(g, h, k)
    decreases k
  {
    if k > 0 {
      var n := k - 1;
      HistoryUnique(cfg, h, g, n);
      assert StepTrue(cfg, h, n) && StepTrue(cfg, g, n);
      if Can(cfg, h, n) { SameCan(cfg, h, g, n); }
      if Can(cfg, g, n) { SameCan(cfg, g, h, n); }
      if h.done[n] && h.log[n].Moves(Store) {
        SameReads(cfg, h, g, n, h.source[n]);
        ReadsOne(cfg, g, n, h.source[n], g.source[n]);
      }
    }
  }
}
