/** What the audit of maximal input runs counts, told by which descriptors share a request. */
module RunCounters {
  import opened Sums
  import opened DmaTables
  import opened RunPacking

  /** Runs of at least two descriptors, how many descriptors they hold and how many requests they make. */
  function RunsOf(t: Table, i: int, ends: seq<int>): (nat, nat, nat)
    requires Accepted(t) && 0 <= i <= |t.descriptors| && IsSplit(t, i, ends)
    decreases |ends|
  {
    if i == |t.descriptors| then (0, 0, 0)
    else
      assert DescriptorOk(t, i);
      var rest := RunsOf(t, ends[0], ends[1..]);
      if ends[0] - i < 2 then rest else (rest.0 + 1, rest.1 + (ends[0] - i), rest.2 + Occurrences(t.descriptors[i]))
  }

  // ---- sharing ----

  /** Descriptor k is in the same part as the one before it. */
  predicate Joined(i: int, ends: seq<int>, k: int) {
    i < k && k !in ends
  }

  predicate StartsRun(i: int, ends: seq<int>, k: int) {
    !Joined(i, ends, k) && Joined(i, ends, k + 1)
  }

  predicate InRun(i: int, ends: seq<int>, k: int) {
    Joined(i, ends, k) || Joined(i, ends, k + 1)
  }

  /** The descriptors that share a request with the next one and not with the one before. */
  ghost function RunStarts(t: Table, i: int, ends: seq<int>): set<int> {
    set k | i <= k < |t.descriptors| && StartsRun(i, ends, k)
  }

  /** The descriptors that share a request with another one. */
  ghost function RunMembers(t: Table, i: int, ends: seq<int>): set<int> {
    set k | i <= k < |t.descriptors| && InRun(i, ends, k)
  }

  ghost function OccurrencesAt(t: Table): int -> int {
    (k: int) => if 0 <= k < |t.descriptors| && HasInterval(t.descriptors[k]) then Occurrences(t.descriptors[k]) else 0
  }

  predicate Lies(lo: int, hi: int, k: int) {
    lo <= k < hi
  }

  ghost function Between(lo: int, hi: int): set<int> {
    set k | lo <= k < hi && Lies(lo, hi, k)
  }

  lemma {:induction false} BetweenSize(lo: int, hi: int)
    requires lo <= hi
    ensures |Between(lo, hi)| == hi - lo
    decreases hi - lo
  {
    if lo < hi {
      BetweenSize(lo, hi - 1);
      forall k ensures k in Between(lo, hi) <==> k in Between(lo, hi - 1) + {hi - 1} {
        assert Lies(lo, hi, k) <==> Lies(lo, hi - 1, k) || k == hi - 1;
      }
      assert Between(lo, hi) == Between(lo, hi - 1) + {hi - 1};
    } else {
      assert Between(lo, hi) == {};
    }
  }

  lemma {:induction false} EndsLater(t: Table, i: int, ends: seq<int>)
    requires 0 <= i <= |t.descriptors| && IsSplit(t, i, ends)
    ensures forall e :: e in ends ==> i < e <= |t.descriptors|
    ensures i < |t.descriptors| ==> |t.descriptors| in ends
    decreases |ends|
  {
    if i < |t.descriptors| {
      EndsLater(t, ends[0], ends[1..]);
      assert ends == [ends[0]] + ends[1..];
    }
  }

  /** Sharing in the first part, and behind it. */
  lemma JoinedParts(t: Table, i: int, ends: seq<int>, k: int)
    requires 0 <= i < |t.descriptors| && IsSplit(t, i, ends) && i <= k <= |t.descriptors|
    ensures k < ends[0] ==> (Joined(i, ends, k) <==> i < k)
    ensures ends[0] <= k ==> (Joined(i, ends, k) <==> Joined(ends[0], ends[1..], k))
  {
    EndsLater(t, ends[0], ends[1..]);
    assert ends == [ends[0]] + ends[1..];
  }

  lemma StartsParts(t: Table, i: int, ends: seq<int>)
    requires 0 <= i < |t.descriptors| && IsSplit(t, i, ends)
    ensures RunStarts(t, i, ends) == (if ends[0] - i >= 2 then {i} else {}) + RunStarts(t, ends[0], ends[1..])
    ensures i !in RunStarts(t, ends[0], ends[1..])
  {
    forall k | i <= k < |t.descriptors|
      ensures k in RunStarts(t, i, ends) <==> k in (if ends[0] - i >= 2 then {i} else {}) + RunStarts(t, ends[0], ends[1..])
    {
      JoinedParts(t, i, ends, k);
      JoinedParts(t, i, ends, k + 1);
    }
  }

  lemma MembersParts(t: Table, i: int, ends: seq<int>)
    requires 0 <= i < |t.descriptors| && IsSplit(t, i, ends)
    ensures RunMembers(t, i, ends) == (if ends[0] - i >= 2 then Between(i, ends[0]) else {}) + RunMembers(t, ends[0], ends[1..])
    ensures Between(i, ends[0]) !! RunMembers(t, ends[0], ends[1..])
  {
    forall k | i <= k < |t.descriptors|
      ensures k in RunMembers(t, i, ends)
         <==> k in (if ends[0] - i >= 2 then Between(i, ends[0]) else {}) + RunMembers(t, ends[0], ends[1..])
    {
      JoinedParts(t, i, ends, k);
      JoinedParts(t, i, ends, k + 1);
    }
  }

  lemma RunsNext(t: Table, i: int, ends: seq<int>)
    requires Accepted(t) && 0 <= i < |t.descriptors| && IsSplit(t, i, ends) && IsSplit(t, ends[0], ends[1..])
    ensures var rest, long := RunsOf(t, ends[0], ends[1..]), ends[0] - i >= 2;
            && RunsOf(t, i, ends).0 == rest.0 + (if long then 1 else 0)
            && RunsOf(t, i, ends).1 == rest.1 + (if long then ends[0] - i else 0)
            && RunsOf(t, i, ends).2 == rest.2 + (if long then OccurrencesAt(t)(i) else 0)
  {
    assert DescriptorOk(t, i);
  }

  /** The sets grow in the same way. */
  lemma SetsNext(t: Table, i: int, ends: seq<int>)
    requires 0 <= i < |t.descriptors| && IsSplit(t, i, ends)
    ensures var starts, members, long := RunStarts(t, ends[0], ends[1..]), RunMembers(t, ends[0], ends[1..]), ends[0] - i >= 2;
            && |RunStarts(t, i, ends)| == |starts| + (if long then 1 else 0)
            && |RunMembers(t, i, ends)| == |members| + (if long then ends[0] - i else 0)
            && Sum(RunStarts(t, i, ends), OccurrencesAt(t)) == Sum(starts, OccurrencesAt(t)) + (if long then OccurrencesAt(t)(i) else 0)
  {
    var starts, members := RunStarts(t, ends[0], ends[1..]), RunMembers(t, ends[0], ends[1..]);
    StartsParts(t, i, ends);
    MembersParts(t, i, ends);
    BetweenSize(i, ends[0]);
    if ends[0] - i >= 2 {
      assert RunStarts(t, i, ends) == starts + {i};
      SumAdd(starts, OccurrencesAt(t), i);
    } else {
      assert RunStarts(t, i, ends) == starts && RunMembers(t, i, ends) == members;
    }
  }

  /** The three counters of a split. */
  lemma {:induction false} RunsMean(t: Table, i: int, ends: seq<int>)
    requires Accepted(t) && 0 <= i <= |t.descriptors| && IsSplit(t, i, ends)
    ensures RunsOf(t, i, ends).0 == |RunStarts(t, i, ends)| && RunsOf(t, i, ends).1 == |RunMembers(t, i, ends)|
    ensures RunsOf(t, i, ends).2 == Sum(RunStarts(t, i, ends), OccurrencesAt(t))
    decreases |ends|
  {
    if i < |t.descriptors| {
      RunsMean(t, ends[0], ends[1..]);
      RunsNext(t, i, ends);
      SetsNext(t, i, ends);
    } else {
      assert RunStarts(t, i, ends) == {} && RunMembers(t, i, ends) == {};
    }
  }

  /** The counters of the greedy runs: how many there are, how many descriptors are in one, and how many
      requests they make over all iterations. */
  ghost predicate CountsRuns(t: Table, runs: nat, descriptors: nat, requests: nat) {
    var ends := GreedyEnds(t, 0);
    && runs == |RunStarts(t, 0, ends)| && descriptors == |RunMembers(t, 0, ends)|
    && requests == Sum(RunStarts(t, 0, ends), OccurrencesAt(t))
  }
}
