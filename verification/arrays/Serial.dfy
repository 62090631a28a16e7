/** The in-order meaning of an array: accepted commands take effect one at a time, atomically,
    with an unbounded first-in first-out queue of results and no timing. */
module Serial {
  import opened Options
  import opened Vectors
  import opened Commands

  /** An unread result: the Execute that produced it, its values and the rows already read. */
  datatype Slot = Slot(token: Token, values: seq<Word>, read: seq<bool>)

  /** `output` holds the active rows while `computed`, and nothing otherwise. */
  datatype Arch = Arch(
    rows: nat, cols: nat,
    weights: seq<Word>, weightsReceived: seq<bool>, closed: bool,
    input: seq<Word>, inputReceived: seq<bool>,
    fifo: seq<Slot>,
    computed: bool, output: seq<Word>, outputRead: seq<bool>)

  /** What a command is answered: its payload and the result it read, or failure. */
  datatype Outcome = Done(payload: seq<Byte>, source: Option<Token>) | Failed

  function Reset(cfg: Config): Arch {
    Arch(cfg.rows, cfg.cols, ZeroWords(cfg.rows * cfg.cols), Zeros(cfg.rows * cfg.cols), false,
         ZeroWords(cfg.cols), Zeros(cfg.cols), [], false, [], [])
  }

  predicate Programmed(cfg: Config, x: Arch)
    requires cfg.cols > 0
  {
    Covered(x.weightsReceived, cfg.cols, x.rows, x.cols)
  }

  predicate Accepts(cfg: Config, x: Arch, c: Command)
    requires cfg.cols > 0
  {
    match c.operation
    case Program => c.elementCount == 0 || !(cfg.initialProgram && x.closed)
    case Load => true
    case Execute => Programmed(cfg, x) && All(x.inputReceived)
    case Store => c.elementCount == 0 || (if cfg.pipeline then x.fifo != [] else x.computed)
    case Configure =>
      && 0 < ConfiguredRows(c) <= cfg.rows && 0 < ConfiguredCols(c) <= cfg.cols
      && x.fifo == [] && (x.computed ==> All(x.outputRead))
  }

  function ReadFront(fifo: seq<Slot>, c: Command): seq<Slot> {
    if fifo == [] then []
    else
      var read := Mark(fifo[0].read, c.elementOffset, c.elementCount);
      if All(read) then fifo[1..] else [fifo[0].(read := read)] + fifo[1..]
  }

  function Effect(cfg: Config, x: Arch, c: Command): Arch
    requires cfg.cols > 0
  {
    match c.operation
    case Program =>
      if c.elementCount == 0 then x
      else
        var received := Mark(x.weightsReceived, c.elementOffset, c.elementCount);
        x.(weights := Write(x.weights, c.elementOffset, Decode(c.payload)), weightsReceived := received,
           closed := x.closed || (cfg.initialProgram && Covered(received, cfg.cols, x.rows, x.cols)),
           computed := false, output := [])
    case Load =>
      if c.elementCount == 0 then x
      else x.(input := Write(x.input, c.elementOffset, Decode(c.payload)),
              inputReceived := Mark(x.inputReceived, c.elementOffset, c.elementCount), computed := false, output := [])
    case Execute =>
      var y := Mvm(cfg, x.weights, x.input, x.rows, x.cols);
      if cfg.pipeline then x.(fifo := x.fifo + [Slot(c.token, y, Zeros(x.rows))])
      else x.(output := y, computed := true, outputRead := Zeros(x.rows))
    case Store =>
      if c.elementCount == 0 then x
      else if cfg.pipeline then x.(fifo := ReadFront(x.fifo, c))
      else x.(outputRead := Mark(x.outputRead, c.elementOffset, c.elementCount))
    case Configure =>
      x.(rows := ConfiguredRows(c), cols := ConfiguredCols(c), weightsReceived := Zeros(|x.weightsReceived|),
         closed := false, inputReceived := Zeros(ConfiguredCols(c)), computed := false, output := [], outputRead := [])
  }

  function Answer(cfg: Config, x: Arch, c: Command): Outcome
    requires cfg.cols > 0
  {
    if !Accepts(cfg, x, c) then Failed
    else if !c.Moves(Store) then Done([], None)
    else if cfg.pipeline then
      Done(Encode(Slice(x.fifo[0].values, c.elementOffset, c.elementCount)), Some(x.fifo[0].token))
    else Done(Encode(Slice(x.output, c.elementOffset, c.elementCount)), None)
  }

  /** A refused command changes nothing. */
  function Perform(cfg: Config, x: Arch, c: Command): Arch
    requires cfg.cols > 0
  {
    if Accepts(cfg, x, c) then Effect(cfg, x, c) else x
  }

  function Run(cfg: Config, x: Arch, cs: seq<Command>): Arch
    requires cfg.cols > 0
    decreases |cs|
  {
    if cs == [] then x else Run(cfg, Perform(cfg, x, cs[0]), cs[1..])
  }

  /** The answer to the k-th command of `cs` started in x. */
  function AnswerAt(cfg: Config, x: Arch, cs: seq<Command>, k: nat): Outcome
    requires cfg.cols > 0 && k < |cs|
  {
    Answer(cfg, Run(cfg, x, cs[..k]), cs[k])
  }

  function Final(cfg: Config, log: seq<Command>): Arch
    requires cfg.cols > 0
  {
    Run(cfg, Reset(cfg), log)
  }

  function Verdict(cfg: Config, log: seq<Command>, id: nat): Outcome
    requires cfg.cols > 0 && id < |log|
  {
    AnswerAt(cfg, Reset(cfg), log, id)
  }

  // ---- run algebra ----

  lemma {:induction false} RunConcat(cfg: Config, x: Arch, p: seq<Command>, q: seq<Command>)
    requires cfg.cols > 0
    ensures Run(cfg, x, p + q) == Run(cfg, Run(cfg, x, p), q)
    decreases |p|
  {
    if p == [] {
      assert p + q == q;
    } else {
      assert (p + q)[0] == p[0] && (p + q)[1..] == p[1..] + q;
      RunConcat(cfg, Perform(cfg, x, p[0]), p[1..], q);
    }
  }

  lemma RunAppend(cfg: Config, x: Arch, p: seq<Command>, c: Command)
    requires cfg.cols > 0
    ensures Run(cfg, x, p + [c]) == Perform(cfg, Run(cfg, x, p), c)
  {
    RunConcat(cfg, x, p, [c]);
    assert [c][1..] == [];
  }

  /** Answers given so far do not change when further commands are accepted. */
  lemma VerdictStable(cfg: Config, log: seq<Command>, c: Command, id: nat)
    requires cfg.cols > 0 && id < |log|
    ensures Verdict(cfg, log + [c], id) == Verdict(cfg, log, id)
  {
    assert (log + [c])[..id] == log[..id];
  }

  lemma VerdictLast(cfg: Config, log: seq<Command>, c: Command)
    requires cfg.cols > 0
    ensures Verdict(cfg, log + [c], |log|) == Answer(cfg, Final(cfg, log), c)
    ensures Final(cfg, log + [c]) == Perform(cfg, Final(cfg, log), c)
  {
    assert (log + [c])[..|log|] == log;
    RunAppend(cfg, Reset(cfg), log, c);
  }

  lemma AnswerHead(cfg: Config, x: Arch, cs: seq<Command>)
    requires cfg.cols > 0 && cs != []
    ensures AnswerAt(cfg, x, cs, 0) == Answer(cfg, x, cs[0])
  {
    assert cs[..0] == [];
  }

  lemma AnswerTail(cfg: Config, x: Arch, cs: seq<Command>, k: nat)
    requires cfg.cols > 0 && k + 1 < |cs|
    ensures AnswerAt(cfg, x, cs, k + 1) == AnswerAt(cfg, Perform(cfg, x, cs[0]), cs[1..], k)
  {
    assert cs[..k + 1][0] == cs[0] && cs[..k + 1][1..] == cs[1..][..k];
  }
}
