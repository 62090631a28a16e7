/** Bookkeeping steps: how identities, the reply trace and the token sets change when an accepted
    command starts, is answered, or is retired. */
module Books {
  import opened Options
  import opened Vectors
  import opened Commands
  import opened Engine
  import opened Serial
  import opened Invariant

  ghost predicate BooksOk(cfg: Config, u: Cell)
    requires cfg.Valid()
  {
    Distinct(u.a) && TraceOk(cfg, u.a) && SharedOk(cfg, u.a, u.s)
  }

  /** The bookkeeping part of an internal step. */
  ghost predicate BookAdvances(u: Cell, v: Cell) {
    && v.a.log == u.a.log
    && LiveTokens(v.a) <= LiveTokens(u.a)
    && v.s == Drop(u.s, LiveTokens(u.a) - LiveTokens(v.a))
  }

  /** The trace after one more reply. */
  lemma TraceExtends(cfg: Config, a: ArrayState, b: ArrayState, r: Reply)
    requires cfg.Valid() && TraceOk(cfg, a)
    requires b.log == a.log && b.sent == a.sent + [r]
    requires LiveIds(b) <= LiveIds(a)
    requires LiveIds(a) - LiveIds(b) <= if Terminal(r.status) then {r.request.id} else {}
    requires Terminal(r.status) ==> r.request.id in LiveIds(a)
    requires ReplyOk(cfg, b, r)
    ensures TraceOk(cfg, b)
  {
    forall k | 0 <= k < |b.sent|
      ensures ReplyOk(cfg, b, b.sent[k])
    {
      if k < |a.sent| { assert ReplyOk(cfg, a, a.sent[k]); }
    }
    forall n: nat, j: nat, k: nat | AnsweredAt(b, n, j) && AnsweredAt(b, n, k)
      ensures j == k
    {
      if j < |a.sent| {
        assert AnsweredAt(a, n, j);
        assert ReplyOk(cfg, a, a.sent[j]);
      }
      if k < |a.sent| {
        assert AnsweredAt(a, n, k);
        assert ReplyOk(cfg, a, a.sent[k]);
      }
    }
    forall n: nat | n < |b.log| && n !in LiveIds(b)
      ensures Answered(b, n)
    {
      if n in LiveIds(a) {
        assert AnsweredAt(b, n, |a.sent|);
      } else {
        var k :| AnsweredAt(a, n, k);
        assert AnsweredAt(b, n, k);
      }
    }
  }

  lemma TraceSame(cfg: Config, a: ArrayState, b: ArrayState)
    requires cfg.Valid() && TraceOk(cfg, a)
    requires b.log == a.log && b.sent == a.sent && LiveIds(b) == LiveIds(a)
    ensures TraceOk(cfg, b)
  {
    forall k | 0 <= k < |b.sent|
      ensures ReplyOk(cfg, b, b.sent[k])
    {
      assert ReplyOk(cfg, a, a.sent[k]);
    }
    forall n: nat, j: nat, k: nat | AnsweredAt(b, n, j) && AnsweredAt(b, n, k)
      ensures j == k
    {
      assert AnsweredAt(a, n, j) && AnsweredAt(a, n, k);
    }
    forall n: nat | n < |b.log| && n !in LiveIds(b)
      ensures Answered(b, n)
    {
      var k :| AnsweredAt(a, n, k);
      assert AnsweredAt(b, n, k);
    }
  }

  /** Retiring the active command with its terminal reply. */
  lemma RetireActive(cfg: Config, u: Cell, v: Cell, status: Status, payload: seq<Byte>)
    requires cfg.Valid() && BooksOk(cfg, u) && u.a.active.Some?
    requires v.a.queue == u.a.queue && v.a.active == None && v.a.compute.entry == u.a.compute.entry
    requires v.a.log == u.a.log && v.a.sent == u.a.sent + [Reply(u.a.active.value, status, payload)]
    requires v.s == Forget(u.s, u.a.active.value.cmd.token)
    requires Terminal(status) && Logged(u.a.log, u.a.active.value)
    requires Matches(Reply(u.a.active.value, status, payload), Verdict(cfg, u.a.log, u.a.active.value.id))
    ensures BooksOk(cfg, v) && BookAdvances(u, v)
  {
    var e := u.a.active.value;
    assert LiveTokens(u.a) - LiveTokens(v.a) == {e.cmd.token};
    assert LiveIds(u.a) - LiveIds(v.a) == {e.id};
    assert LiveIds(v.a) <= LiveIds(u.a);
    TraceExtends(cfg, u.a, v.a, Reply(e, status, payload));
  }

  lemma WithoutAt<T>(s: seq<T>, k: nat, i: nat)
    requires k < |s| && i < |s| - 1
    ensures Without(s, k)[i] == s[if i < k then i else i + 1]
  {
  }

  lemma DistinctWithout(a: ArrayState, b: ArrayState, k: nat)
    requires Distinct(a) && k < |a.queue|
    requires b.queue == Without(a.queue, k) && b.active == a.active && b.compute.entry == a.compute.entry
    ensures Distinct(b)
    ensures forall i :: 0 <= i < |b.queue| ==> Apart(a.queue[k], b.queue[i])
  {
    forall i | 0 <= i < |b.queue|
      ensures b.queue[i] == a.queue[if i < k then i else i + 1] && Apart(a.queue[k], b.queue[i])
    {
      WithoutAt(a.queue, k, i);
    }
  }

  /** Position i of the queue survives at some position once k is taken out. */
  lemma Survives(q: seq<Entry>, k: nat, i: nat) returns (j: nat)
    requires k < |q| && i < |q| && i != k
    ensures j < |Without(q, k)| && Without(q, k)[j] == q[i]
  {
    j := if i < k then i else i - 1;
    WithoutAt(q, k, j);
  }

  /** Taking position k out of the queue removes exactly its identity. */
  lemma TokensWithout(a: ArrayState, b: ArrayState, k: nat)
    requires Distinct(a) && k < |a.queue|
    requires b.queue == Without(a.queue, k) && b.active == a.active && b.compute.entry == a.compute.entry
    ensures LiveTokens(b) == LiveTokens(a) - {a.queue[k].cmd.token}
  {
    DistinctWithout(a, b, k);
    forall t | t in LiveTokens(a) && t != a.queue[k].cmd.token
      ensures t in LiveTokens(b)
    {
      if i :| 0 <= i < |a.queue| && a.queue[i].cmd.token == t {
        var j := Survives(a.queue, k, i);
      }
    }
    forall i | 0 <= i < |b.queue|
      ensures b.queue[i].cmd.token in LiveTokens(a) - {a.queue[k].cmd.token}
    {
      WithoutAt(a.queue, k, i);
      assert Apart(a.queue[k], b.queue[i]);
    }
  }

  lemma IdsWithout(a: ArrayState, b: ArrayState, k: nat)
    requires Distinct(a) && k < |a.queue|
    requires b.queue == Without(a.queue, k) && b.active == a.active && b.compute.entry == a.compute.entry
    ensures LiveIds(b) == LiveIds(a) - {a.queue[k].id}
    ensures a.queue[k].id in LiveIds(a)
  {
    DistinctWithout(a, b, k);
    forall n | n in LiveIds(a) && n != a.queue[k].id
      ensures n in LiveIds(b)
    {
      if i :| 0 <= i < |a.queue| && a.queue[i].id == n {
        var j := Survives(a.queue, k, i);
      }
    }
    forall i | 0 <= i < |b.queue|
      ensures b.queue[i].id in LiveIds(a) - {a.queue[k].id}
    {
      WithoutAt(a.queue, k, i);
      assert Apart(a.queue[k], b.queue[i]);
    }
  }

  lemma SharedWithout(cfg: Config, u: Cell, v: Cell, k: nat)
    requires cfg.Valid() && SharedOk(cfg, u.a, u.s) && Distinct(u.a) && k < |u.a.queue|
    requires v.a.queue == Without(u.a.queue, k) && v.a.active == u.a.active && v.a.compute.entry == u.a.compute.entry
    requires v.a.log == u.a.log
    requires v.s == u.s.(tokens := u.s.tokens - {u.a.queue[k].cmd.token})
    ensures SharedOk(cfg, v.a, v.s)
  {
    DistinctWithout(u.a, v.a, k);
    forall i | 0 <= i < |v.a.queue|
      ensures EntryShared(cfg, v.a, v.s, v.a.queue[i])
    {
      WithoutAt(u.a.queue, k, i);
      assert EntryShared(cfg, u.a, u.s, v.a.queue[i]);
      assert Apart(u.a.queue[k], v.a.queue[i]);
    }
  }

  /** Retiring a queued command with an Error reply; only its token leaves the token set. */
  lemma RetireQueued(cfg: Config, u: Cell, v: Cell, k: nat)
    requires cfg.Valid() && BooksOk(cfg, u) && k < |u.a.queue|
    requires v.a.queue == Without(u.a.queue, k) && v.a.active == u.a.active && v.a.compute.entry == u.a.compute.entry
    requires v.a.log == u.a.log && v.a.sent == u.a.sent + [Reply(u.a.queue[k], Error, [])]
    requires v.s == u.s.(tokens := u.s.tokens - {u.a.queue[k].cmd.token})
    requires Verdict(cfg, u.a.log, u.a.queue[k].id) == Failed
    ensures BooksOk(cfg, v) && BookAdvances(u, v)
    ensures u.a.queue[k].cmd.token !in u.s.guaranteed
  {
    var e := u.a.queue[k];
    assert EntryShared(cfg, u.a, u.s, e);
    DistinctWithout(u.a, v.a, k);
    TokensWithout(u.a, v.a, k);
    IdsWithout(u.a, v.a, k);
    SharedWithout(cfg, u, v, k);
    assert v.s == Drop(u.s, {e.cmd.token});
    assert LiveTokens(u.a) - LiveTokens(v.a) == {e.cmd.token} by {
      assert e.cmd.token in LiveTokens(u.a);
    }
    TraceExtends(cfg, u.a, v.a, Reply(e, Error, []));
  }

  /** The running compute finishes: its Complete reply, and only its token leaves the token set. */
  lemma RetireCompute(cfg: Config, u: Cell, v: Cell)
    requires cfg.Valid() && BooksOk(cfg, u) && u.a.compute.entry.Some?
    requires v.a.queue == u.a.queue && v.a.active == u.a.active && v.a.compute.entry == None
    requires v.a.log == u.a.log && v.a.sent == u.a.sent + [Reply(u.a.compute.entry.value, Complete, [])]
    requires v.s == u.s.(tokens := u.s.tokens - {u.a.compute.entry.value.cmd.token})
    requires u.a.compute.entry.value.cmd.operation == Execute
    requires Verdict(cfg, u.a.log, u.a.compute.entry.value.id) == Done([], None)
    ensures BooksOk(cfg, v) && BookAdvances(u, v)
  {
    var e := u.a.compute.entry.value;
    assert EntryShared(cfg, u.a, u.s, e);
    assert u.s.guaranteed - {e.cmd.token} == u.s.guaranteed;
    assert u.s.storeResults - {e.cmd.token} == u.s.storeResults;
    assert LiveTokens(u.a) - LiveTokens(v.a) == {e.cmd.token};
    assert LiveIds(u.a) - LiveIds(v.a) == {e.id};
    TraceExtends(cfg, u.a, v.a, Reply(e, Complete, []));
  }

  /** Position k of the queue has moved to the free active or compute slot. */
  ghost predicate Moved(u: Cell, v: Cell, k: nat)
    requires k < |u.a.queue|
  {
    && v.a.queue == Without(u.a.queue, k) && v.a.log == u.a.log && v.s == u.s
    && ((u.a.active.None? && v.a.active == Some(u.a.queue[k]) && v.a.compute.entry == u.a.compute.entry)
        || (u.a.compute.entry.None? && v.a.compute.entry == Some(u.a.queue[k]) && v.a.active == u.a.active))
  }

  lemma MovedIds(u: Cell, v: Cell, k: nat)
    requires Distinct(u.a) && k < |u.a.queue| && Moved(u, v, k)
    ensures Distinct(v.a) && LiveIds(v.a) == LiveIds(u.a) && LiveTokens(v.a) == LiveTokens(u.a)
  {
    var m := u.a.(queue := Without(u.a.queue, k));
    DistinctWithout(u.a, m, k);
    TokensWithout(u.a, m, k);
    IdsWithout(u.a, m, k);
    var e := u.a.queue[k];
    assert LiveIds(v.a) == LiveIds(m) + {e.id};
    assert LiveTokens(v.a) == LiveTokens(m) + {e.cmd.token};
    assert e.cmd.token in LiveTokens(u.a);
  }

  lemma MovedShared(cfg: Config, u: Cell, v: Cell, k: nat)
    requires cfg.Valid() && SharedOk(cfg, u.a, u.s) && k < |u.a.queue| && Moved(u, v, k)
    ensures SharedOk(cfg, v.a, v.s)
  {
    assert EntryShared(cfg, u.a, u.s, u.a.queue[k]);
    forall i | 0 <= i < |v.a.queue|
      ensures EntryShared(cfg, v.a, v.s, v.a.queue[i])
    {
      WithoutAt(u.a.queue, k, i);
      assert EntryShared(cfg, u.a, u.s, v.a.queue[i]);
    }
  }

  /** A queued command becomes the active transfer. */
  lemma MoveToActive(cfg: Config, u: Cell, v: Cell, k: nat)
    requires cfg.Valid() && BooksOk(cfg, u) && k < |u.a.queue| && Moved(u, v, k)
    requires v.a.sent == u.a.sent
    ensures BooksOk(cfg, v) && BookAdvances(u, v)
  {
    MovedIds(u, v, k);
    MovedShared(cfg, u, v, k);
    TraceSame(cfg, u.a, v.a);
    assert v.s == Drop(u.s, {});
  }

  lemma StartedTrace(cfg: Config, u: Cell, v: Cell, k: nat)
    requires cfg.Valid() && TraceOk(cfg, u.a) && SharedOk(cfg, u.a, u.s) && k < |u.a.queue|
    requires v.a.log == u.a.log && LiveIds(v.a) == LiveIds(u.a)
    requires v.a.sent == u.a.sent + [Reply(u.a.queue[k], Started, [])]
    requires Verdict(cfg, u.a.log, u.a.queue[k].id).Done?
    ensures TraceOk(cfg, v.a)
  {
    assert EntryShared(cfg, u.a, u.s, u.a.queue[k]);
    TraceExtends(cfg, u.a, v.a, Reply(u.a.queue[k], Started, []));
  }

  /** A queued Execute enters the compute engine and is answered Started. */
  lemma MoveToCompute(cfg: Config, u: Cell, v: Cell, k: nat)
    requires cfg.Valid() && BooksOk(cfg, u) && k < |u.a.queue| && Moved(u, v, k)
    requires v.a.sent == u.a.sent + [Reply(u.a.queue[k], Started, [])]
    requires Verdict(cfg, u.a.log, u.a.queue[k].id).Done?
    ensures BooksOk(cfg, v) && BookAdvances(u, v)
  {
    MovedIds(u, v, k);
    MovedShared(cfg, u, v, k);
    StartedTrace(cfg, u, v, k);
    assert v.s == Drop(u.s, {});
  }

  /** Advances that touch no identity: at most a nonterminal reply about the active command. */
  lemma SameBooks(cfg: Config, u: Cell, v: Cell)
    requires cfg.Valid() && BooksOk(cfg, u)
    requires v.a.queue == u.a.queue && v.a.active == u.a.active && v.a.compute.entry == u.a.compute.entry
    requires v.a.log == u.a.log && v.s == u.s
    requires v.a.sent == u.a.sent || (u.a.active.Some? && Logged(u.a.log, u.a.active.value)
                                      && v.a.sent == u.a.sent + [Reply(u.a.active.value, Captured, [])])
    ensures BooksOk(cfg, v) && BookAdvances(u, v)
  {
    assert LiveIds(v.a) == LiveIds(u.a);
    assert LiveTokens(v.a) == LiveTokens(u.a);
    assert v.s == Drop(u.s, {});
    if v.a.sent == u.a.sent {
      TraceSame(cfg, u.a, v.a);
    } else {
      TraceExtends(cfg, u.a, v.a, Reply(u.a.active.value, Captured, []));
    }
  }

  lemma BookAdvancesTrans(u: Cell, v: Cell, w: Cell)
    requires BookAdvances(u, v) && BookAdvances(v, w)
    ensures BookAdvances(u, w)
  {
    var d, e := LiveTokens(u.a) - LiveTokens(v.a), LiveTokens(v.a) - LiveTokens(w.a);
    assert d + e == LiveTokens(u.a) - LiveTokens(w.a);
    assert w.s.storeResults == u.s.storeResults - (d + e);
  }
}
