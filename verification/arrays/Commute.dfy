/** Why a Store may overtake: reading the oldest result commutes with everything that may be queued
    between a blocked Execute and the Store, answers included. */
module Commute {
  import opened Commands
  import opened Engine
  import opened Serial
  import opened Invariant

  /** Commands a Store may pass. */
  ghost predicate Passable(c: Command) {
    c.operation != Store && c.operation != Configure && !c.Moves(Program)
  }

  /** The Store has something to read, or nothing to do. */
  ghost predicate Readable(x: Arch, s: Command) {
    s.operation == Store && (s.elementCount == 0 || x.fifo != [])
  }

  lemma StoreSwap(cfg: Config, x: Arch, c: Command, s: Command)
    requires cfg.Valid() && cfg.pipeline && Passable(c) && Readable(x, s)
    ensures Perform(cfg, Perform(cfg, x, c), s) == Perform(cfg, Perform(cfg, x, s), c)
    ensures Answer(cfg, x, s) == Answer(cfg, Perform(cfg, x, c), s)
    ensures Answer(cfg, x, c) == Answer(cfg, Perform(cfg, x, s), c)
    ensures Readable(Perform(cfg, x, c), s)
  {
    if c.operation == Execute && Accepts(cfg, x, c) && s.elementCount > 0 {
      var y := Perform(cfg, x, c);
      assert y.fifo[0] == x.fifo[0] && y.fifo[1..] == x.fifo[1..] + [y.fifo[|x.fifo|]];
      assert ReadFront(y.fifo, s) == ReadFront(x.fifo, s) + [y.fifo[|x.fifo|]];
    }
  }

  /** Running a passable prefix before or after the Store makes no difference to either. */
  lemma {:induction false} PrefixSwap(cfg: Config, x: Arch, cs: seq<Command>, s: Command)
    requires cfg.Valid() && cfg.pipeline && Readable(x, s)
    requires forall j :: 0 <= j < |cs| ==> Passable(cs[j])
    ensures Run(cfg, Perform(cfg, x, s), cs) == Perform(cfg, Run(cfg, x, cs), s)
    ensures Answer(cfg, Run(cfg, x, cs), s) == Answer(cfg, x, s)
    ensures Readable(Run(cfg, x, cs), s)
    decreases |cs|
  {
    if cs != [] {
      StoreSwap(cfg, x, cs[0], s);
      PrefixSwap(cfg, Perform(cfg, x, cs[0]), cs[1..], s);
    }
  }

  /** A command may be taken from position k: it is the head, or a Store behind passable commands. */
  ghost predicate Takeable(cfg: Config, x: Arch, cs: seq<Command>, k: nat) {
    && k < |cs|
    && (k > 0 ==> cfg.pipeline && Readable(x, cs[k]) && forall j :: 0 <= j < k ==> Passable(cs[j]))
  }

  lemma TakePrefix(cfg: Config, x: Arch, cs: seq<Command>, k: nat)
    requires cfg.Valid() && Takeable(cfg, x, cs, k)
    ensures AnswerAt(cfg, x, cs, k) == Answer(cfg, x, cs[k])
    ensures Run(cfg, Perform(cfg, x, cs[k]), cs[..k]) == Run(cfg, x, cs[..k + 1])
  {
    assert cs[..k + 1] == cs[..k] + [cs[k]];
    RunAppend(cfg, x, cs[..k], cs[k]);
    if k > 0 {
      PrefixSwap(cfg, x, cs[..k], cs[k]);
    } else {
      assert cs[..0] == [];
    }
  }

  lemma TakeTail(cfg: Config, x: Arch, cs: seq<Command>, k: nat, j: nat)
    requires cfg.Valid() && Takeable(cfg, x, cs, k) && k <= j < |cs|
    ensures Run(cfg, Perform(cfg, x, cs[k]), Without(cs, k)[..j]) == Run(cfg, x, cs[..j + 1])
  {
    TakePrefix(cfg, x, cs, k);
    assert Without(cs, k)[..j] == cs[..k] + cs[k + 1..j + 1];
    assert cs[..j + 1] == cs[..k + 1] + cs[k + 1..j + 1];
    RunConcat(cfg, Perform(cfg, x, cs[k]), cs[..k], cs[k + 1..j + 1]);
    RunConcat(cfg, x, cs[..k + 1], cs[k + 1..j + 1]);
  }

  lemma TakeHead(cfg: Config, x: Arch, cs: seq<Command>, k: nat, j: nat)
    requires cfg.Valid() && Takeable(cfg, x, cs, k) && j < k
    ensures AnswerAt(cfg, Perform(cfg, x, cs[k]), Without(cs, k), j) == AnswerAt(cfg, x, cs, j)
  {
    assert Without(cs, k)[..j] == cs[..j] && Without(cs, k)[j] == cs[j];
    PrefixSwap(cfg, x, cs[..j], cs[k]);
    StoreSwap(cfg, Run(cfg, x, cs[..j]), cs[j], cs[k]);
  }

  lemma TakeRest(cfg: Config, x: Arch, cs: seq<Command>, k: nat, j: nat)
    requires cfg.Valid() && Takeable(cfg, x, cs, k) && k <= j < |cs| - 1
    ensures AnswerAt(cfg, Perform(cfg, x, cs[k]), Without(cs, k), j) == AnswerAt(cfg, x, cs, j + 1)
  {
    assert Without(cs, k)[j] == cs[j + 1];
    TakeTail(cfg, x, cs, k, j);
  }

  lemma CmdsWithout(q: seq<Entry>, k: nat)
    requires k < |q|
    ensures Cmds(Without(q, k)) == Without(Cmds(q), k)
  {
  }

  /** Performing the taken command first leaves every other answer and the final state as they were. */
  lemma TakeSim(cfg: Config, log: seq<Command>, x: Arch, q: seq<Entry>, k: nat)
    requires cfg.Valid() && QueueSim(cfg, log, x, q) && Takeable(cfg, x, Cmds(q), k)
    ensures Logged(log, q[k]) && Verdict(cfg, log, q[k].id) == Answer(cfg, x, q[k].cmd)
    ensures QueueSim(cfg, log, Perform(cfg, x, q[k].cmd), Without(q, k))
  {
    var cs := Cmds(q);
    var y := Perform(cfg, x, cs[k]);
    CmdsWithout(q, k);
    TakePrefix(cfg, x, cs, k);
    TakeTail(cfg, x, cs, k, |cs| - 1);
    assert Without(cs, k)[..|cs| - 1] == Without(cs, k) && cs[..|cs|] == cs;
    forall j | 0 <= j < |q| - 1
      ensures AnswerAt(cfg, y, Without(cs, k), j) == Verdict(cfg, log, Without(q, k)[j].id)
    {
      if j < k { TakeHead(cfg, x, cs, k, j); } else { TakeRest(cfg, x, cs, k, j); }
    }
  }

  /** An Execute taken from the head while a Store is active commutes with that Store's effect. */
  lemma ExecutePassesStore(cfg: Config, x: Arch, c: Command, s: Command)
    requires cfg.Valid() && cfg.pipeline && c.operation == Execute && Readable(x, s)
    ensures Perform(cfg, Perform(cfg, x, s), c) == Perform(cfg, Perform(cfg, x, c), s)
    ensures Answer(cfg, Perform(cfg, x, s), c) == Answer(cfg, x, c)
  {
    StoreSwap(cfg, x, c, s);
  }
}
