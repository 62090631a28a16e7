/** The command protocol of the analog arrays and the parameters of the component. */
module Commands {
  import opened Vectors

  type Token = nat

  datatype Operation = Program | Load | Execute | Store | Configure

  datatype Status = Request | Accepted | Complete | Busy | Error | Started | Guaranteed | Captured

  datatype Command = Command(
    operation: Operation,
    status: Status,
    target: nat,
    token: Token,
    elementOffset: nat,
    elementCount: nat,
    payload: seq<Byte>,
    deferred: bool)
  {
    /** A transfer that moves at least one element. */
    predicate Moves(op: Operation) {
      operation == op && elementCount > 0
    }

    /** An input command: its payload is register bytes on their way to the array. */
    predicate Input() {
      operation == Program || operation == Load
    }
  }

  /** Command slots of one array. */
  const QUEUE_ENTRIES: nat := 4

  /** Output slots of one array. */
  const RESULT_SLOTS: nat := 2

  const UINT32_RANGE: nat := 0x1_0000_0000

  /** Component parameters. `dot` is the fixed-order float32 dot product of one matrix row
      with the input vector; nothing is assumed about it. */
  datatype Config = Config(
    rows: nat,
    cols: nat,
    linkWidth: nat,
    inflightBytes: nat,
    programCost: nat,
    execCost: nat,
    independent: bool,
    pipeline: bool,
    initialProgram: bool,
    dot: (seq<Word>, seq<Word>) -> Word)
  {
    predicate Valid() {
      rows > 0 && cols > 0 && linkWidth > 0 && inflightBytes > 0
      && rows * cols <= (UINT32_RANGE - 1) / 4
    }
  }

  /** Active rows carried by a Configure command in the upper half of its element offset. */
  function ConfiguredRows(c: Command): nat {
    c.elementOffset / UINT32_RANGE % UINT32_RANGE
  }

  /** Active columns carried in the lower half. */
  function ConfiguredCols(c: Command): nat {
    c.elementOffset % UINT32_RANGE
  }

  /** y = W * x over the active rectangle of row-major weights with `cfg.cols` physical columns. */
  function Mvm(cfg: Config, weights: seq<Word>, input: seq<Word>, rows: nat, cols: nat): (y: seq<Word>)
    ensures |y| == rows
  {
    seq<Word>(rows, r requires 0 <= r < rows => cfg.dot(Slice(weights, r * cfg.cols, cols), Slice(input, 0, cols)))
  }
}
