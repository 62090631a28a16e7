/** Configure starts afresh: although old weight and input storage is not cleared, nothing of it can
    show in a later reply. */
module Stale {
  import opened Arithmetic
  import opened Vectors
  import opened Commands
  import opened Engine
  import opened Serial
  import opened Invariant
  import opened Runs
  import opened ArrayTheorems

  /** Two architectural states that differ only in cells not received since Configure. */
  ghost predicate Similar(cfg: Config, x: Arch, y: Arch)
    requires cfg.Valid()
  {
    && 0 < x.cols <= cfg.cols && x.rows <= cfg.rows
    && |x.weights| == |y.weights| == |x.weightsReceived| == cfg.rows * cfg.cols
    && |x.input| == |y.input| == cfg.cols && |x.inputReceived| == x.cols
    && y == x.(weights := y.weights, input := y.input)
    && (forall i :: 0 <= i < |x.weights| && x.weightsReceived[i] ==> x.weights[i] == y.weights[i])
    && (forall i :: 0 <= i < x.cols && x.inputReceived[i] ==> x.input[i] == y.input[i])
  }

  ghost predicate WellFormed(c: Command) {
    c.Input() ==> |c.payload| == 4 * c.elementCount
  }

  lemma SameRow(cfg: Config, x: Arch, y: Arch, r: nat)
    requires cfg.Valid() && Similar(cfg, x, y) && Programmed(cfg, x) && r < x.rows
    ensures Slice(x.weights, r * cfg.cols, x.cols) == Slice(y.weights, r * cfg.cols, x.cols)
  {
    Monotone(r + 1, cfg.rows, cfg.cols);
    assert (r + 1) * cfg.cols == r * cfg.cols + cfg.cols;
    BaseProduct(cfg.cols, r);
    forall i | r * cfg.cols <= i < r * cfg.cols + x.cols
      ensures x.weights[i] == y.weights[i]
    {
      RowCells(cfg.cols, x.rows, x.cols, r, i);
    }
  }

  lemma SameMvm(cfg: Config, x: Arch, y: Arch)
    requires cfg.Valid() && Similar(cfg, x, y) && Programmed(cfg, x) && All(x.inputReceived)
    ensures Mvm(cfg, x.weights, x.input, x.rows, x.cols) == Mvm(cfg, y.weights, y.input, x.rows, x.cols)
  {
    assert Slice(x.input, 0, x.cols) == Slice(y.input, 0, x.cols);
    forall r | 0 <= r < x.rows
      ensures Slice(x.weights, r * cfg.cols, x.cols) == Slice(y.weights, r * cfg.cols, x.cols)
    {
      SameRow(cfg, x, y, r);
    }
  }

  lemma SimilarInput(cfg: Config, x: Arch, y: Arch, c: Command)
    requires cfg.Valid() && Similar(cfg, x, y) && WellFormed(c) && c.Input()
    ensures Answer(cfg, x, c) == Answer(cfg, y, c)
    ensures Similar(cfg, Perform(cfg, x, c), Perform(cfg, y, c))
  {
  }

  /** Similar states give every command the same answer and stay similar. */
  lemma SimilarStep(cfg: Config, x: Arch, y: Arch, c: Command)
    requires cfg.Valid() && Similar(cfg, x, y) && WellFormed(c)
    ensures Answer(cfg, x, c) == Answer(cfg, y, c)
    ensures Similar(cfg, Perform(cfg, x, c), Perform(cfg, y, c))
  {
    match c.operation
    case Program => SimilarInput(cfg, x, y, c);
    case Load => SimilarInput(cfg, x, y, c);
    case Execute => if Accepts(cfg, x, c) { SameMvm(cfg, x, y); }
    case Store =>
    case Configure =>
  }

  lemma {:induction false} SimilarRun(cfg: Config, x: Arch, y: Arch, cs: seq<Command>)
    requires cfg.Valid() && Similar(cfg, x, y)
    requires forall k :: 0 <= k < |cs| ==> WellFormed(cs[k])
    ensures Similar(cfg, Run(cfg, x, cs), Run(cfg, y, cs))
    decreases |cs|
  {
    if cs != [] {
      SimilarStep(cfg, x, y, cs[0]);
      SimilarRun(cfg, Perform(cfg, x, cs[0]), Perform(cfg, y, cs[0]), cs[1..]);
    }
  }

  /** Storage sizes never change. */
  ghost predicate Sized(cfg: Config, x: Arch)
    requires cfg.Valid()
  {
    |x.weights| == |x.weightsReceived| == cfg.rows * cfg.cols && |x.input| == cfg.cols
  }

  lemma {:induction false} SizedRun(cfg: Config, x: Arch, cs: seq<Command>)
    requires cfg.Valid() && Sized(cfg, x)
    ensures Sized(cfg, Run(cfg, x, cs))
    decreases |cs|
  {
    if cs != [] { SizedRun(cfg, Perform(cfg, x, cs[0]), cs[1..]); }
  }

  lemma ConfiguredSimilar(cfg: Config, x: Arch, y: Arch, c: Command)
    requires cfg.Valid() && Sized(cfg, x) && Sized(cfg, y) && c.operation == Configure
    requires Accepts(cfg, x, c) && Accepts(cfg, y, c)
    ensures Similar(cfg, Perform(cfg, x, c), Perform(cfg, y, c))
  {
  }

  lemma SplitLog(cfg: Config, log: seq<Command>, m: nat, d: nat)
    requires cfg.Valid() && m < |log| && d < |log| - m - 1
    ensures Final(cfg, log[..m + 1 + d]) == Run(cfg, Perform(cfg, Final(cfg, log[..m]), log[m]), log[m + 1..][..d])
    ensures log[m + 1 + d] == log[m + 1..][d]
  {
    assert log[..m + 1 + d] == log[..m] + ([log[m]] + log[m + 1..][..d]);
    RunConcat(cfg, Reset(cfg), log[..m], [log[m]] + log[m + 1..][..d]);
    assert ([log[m]] + log[m + 1..][..d])[1..] == log[m + 1..][..d];
  }

  /** Serially, what follows an accepted Configure does not depend on what preceded it. */
  lemma VerdictsAfterConfigure(cfg: Config, p: seq<Command>, m: nat, q: seq<Command>, n: nat, d: nat)
    requires cfg.Valid() && LogOk(p) && LogOk(q) && m < |p| && n < |q| && p[m..] == q[n..]
    requires p[m].operation == Configure && Verdict(cfg, p, m).Done? && Verdict(cfg, q, n).Done?
    requires d < |p| - m - 1
    ensures Verdict(cfg, p, m + 1 + d) == Verdict(cfg, q, n + 1 + d)
  {
    assert p[m] == p[m..][0] == q[n];
    var rest := p[m + 1..];
    assert rest == p[m..][1..] && q[n + 1..] == q[n..][1..];
    assert q[n + 1..] == rest;
    var x, y := Final(cfg, p[..m]), Final(cfg, q[..n]);
    SizedRun(cfg, Reset(cfg), p[..m]);
    SizedRun(cfg, Reset(cfg), q[..n]);
    ConfiguredSimilar(cfg, x, y, p[m]);
    SplitLog(cfg, p, m, d);
    SplitLog(cfg, q, n, d);
    SuffixFormed(p, m, d);
    SimilarRun(cfg, Perform(cfg, x, p[m]), Perform(cfg, y, p[m]), rest[..d]);
    SimilarStep(cfg, Run(cfg, Perform(cfg, x, p[m]), rest[..d]), Run(cfg, Perform(cfg, y, p[m]), rest[..d]), rest[d]);
  }

  lemma SuffixFormed(p: seq<Command>, m: nat, d: nat)
    requires LogOk(p) && m < |p| && d < |p| - m - 1
    ensures var prefix := p[m + 1..][..d]; forall k :: 0 <= k < |prefix| ==> WellFormed(prefix[k])
    ensures WellFormed(p[m + 1..][d])
  {
    var prefix := p[m + 1..][..d];
    forall k | 0 <= k < |prefix| ensures WellFormed(prefix[k]) {
      assert prefix[k] == p[m + 1 + k];
    }
  }

  /** The terminal reply `reply` follows the completed Configure `configured` at distance d. */
  ghost predicate Following(a: ArrayState, configured: nat, reply: nat, d: nat) {
    && configured < |a.sent| && a.sent[configured].status == Complete
    && a.sent[configured].request.cmd.operation == Configure
    && reply < |a.sent| && Terminal(a.sent[reply].status)
    && a.sent[reply].request.id == a.sent[configured].request.id + 1 + d
  }

  /** Commands accepted from a reply's command on. */
  ghost function Since(a: ArrayState, k: nat): seq<Command>
    requires k < |a.sent|
  {
    if a.sent[k].request.id <= |a.log| then a.log[a.sent[k].request.id..] else []
  }

  lemma FollowingVerdict(cfg: Config, a: ArrayState, configured: nat, reply: nat, d: nat)
    requires cfg.Valid() && TraceOk(cfg, a) && Following(a, configured, reply, d)
    ensures var m := a.sent[configured].request.id;
            && m < |a.log| && d < |a.log| - m - 1 && a.log[m].operation == Configure
            && Verdict(cfg, a.log, m).Done? && Matches(a.sent[reply], Verdict(cfg, a.log, m + 1 + d))
  {
    assert ReplyOk(cfg, a, a.sent[configured]);
    assert ReplyOk(cfg, a, a.sent[reply]);
  }

  lemma MatchSame(r: Reply, s: Reply, v: Outcome)
    requires Matches(r, v) && Matches(s, v)
    ensures r.status == s.status && r.payload == s.payload
  {
  }

  lemma SameReplies(cfg: Config, a: ArrayState, configuredA: nat, replyA: nat,
                    b: ArrayState, configuredB: nat, replyB: nat, d: nat)
    requires cfg.Valid() && TraceOk(cfg, a) && TraceOk(cfg, b) && LogOk(a.log) && LogOk(b.log)
    requires Following(a, configuredA, replyA, d) && Following(b, configuredB, replyB, d)
    requires Since(a, configuredA) == Since(b, configuredB)
    ensures a.sent[replyA].status == b.sent[replyB].status && a.sent[replyA].payload == b.sent[replyB].payload
  {
    FollowingVerdict(cfg, a, configuredA, replyA, d);
    FollowingVerdict(cfg, b, configuredB, replyB, d);
    var m, n := a.sent[configuredA].request.id, b.sent[configuredB].request.id;
    assert a.log[m..] == b.log[n..];
    VerdictsAfterConfigure(cfg, a.log, m, b.log, n, d);
    MatchSame(a.sent[replyA], b.sent[replyB], Verdict(cfg, a.log, m + 1 + d));
  }

  /** Take any two arrays in any two runs. If each completed the same Configure and has accepted the
      same commands since, then corresponding terminal replies agree in status and payload: no weight,
      input or output from before the Configure is visible. */
  lemma NoStaleData(cfg: Config,
                    countA: nat, eventsA: seq<Event>, i: nat, configuredA: nat, replyA: nat,
                    countB: nat, eventsB: seq<Event>, j: nat, configuredB: nat, replyB: nat, d: nat)
    requires Ran(cfg, countA, eventsA, i) && Ran(cfg, countB, eventsB, j)
    requires Following(State(cfg, countA, eventsA, i), configuredA, replyA, d)
    requires Following(State(cfg, countB, eventsB, j), configuredB, replyB, d)
    requires Since(State(cfg, countA, eventsA, i), configuredA) == Since(State(cfg, countB, eventsB, j), configuredB)
    ensures var a := State(cfg, countA, eventsA, i); var b := State(cfg, countB, eventsB, j);
            a.sent[replyA].status == b.sent[replyB].status && a.sent[replyA].payload == b.sent[replyB].payload
  {
    StateSound(cfg, countA, eventsA, i);
    StateSound(cfg, countB, eventsB, j);
    SameReplies(cfg, State(cfg, countA, eventsA, i), configuredA, replyA,
                State(cfg, countB, eventsB, j), configuredB, replyB, d);
  }
}
