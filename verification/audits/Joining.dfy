/** Which neighboring input descriptors share a request, told by the fields of their records. */
module Joining {
  import opened Arithmetic
  import opened DmaTables
  import opened RunPacking

  /** An input descriptor that transfers one piece, once, in each iteration, and fits into a frame. */
  ghost predicate OnePiece(t: Table, d: Descriptor) {
    && d.direction == 0 && d.segmentCount == 1 && d.segmentOffset < |t.segments|
    && 0 < d.bytesPerIteration <= t.maximumFrame
    && var s := t.segments[d.segmentOffset];
       && s.descriptorId == d.id && s.repeatCount == 1 && s.pieceCount == 1 && s.byteSize == d.bytesPerIteration
  }

  /** Flags may differ in bits 4 and 5, which carry the compact roles. */
  ghost predicate SameFlags(f: nat, g: nat) {
    f % 16 == g % 16 && f / 64 == g / 64
  }

  /** What two records must agree on to be moved together. */
  ghost predicate Alike(l: Descriptor, r: Descriptor, left: Segment, right: Segment) {
    && SameFlags(l.flags, r.flags)
    && l.operationId == r.operationId && l.epochId == r.epochId && l.workUnitId == r.workUnitId && l.tensorId == r.tensorId
    && l.loopId == r.loopId && l.templateKind == r.templateKind
    && l.iterationBegin == r.iterationBegin && l.iterationEnd == r.iterationEnd && l.iterationStep == r.iterationStep
    && l.scratchpadSlotStride == r.scratchpadSlotStride && l.ringSlots == r.ringSlots
    && left.relationId == right.relationId && left.relationPieceOrdinal == right.relationPieceOrdinal
    && left.globalResourceId == right.globalResourceId
    && left.globalIterationStride == right.globalIterationStride && left.scratchpadIterationStride == right.scratchpadIterationStride
    && left.globalRepeatStride == right.globalRepeatStride && left.scratchpadRepeatStride == right.scratchpadRepeatStride
    && left.globalPieceStride == right.globalPieceStride && left.scratchpadPieceStride == right.scratchpadPieceStride
  }

  /** The second record comes next in every numbering and begins where the first one ends on both sides. */
  ghost predicate ComesNext(l: Descriptor, r: Descriptor, left: Segment, right: Segment) {
    && r.id == l.id + 1 && r.portNumber == l.portNumber + 1 && r.segmentOffset == l.segmentOffset + 1
    && right.globalByteOffset == left.globalByteOffset + left.byteSize
    && r.scratchpadRingBase + right.scratchpadByteOffset == l.scratchpadRingBase + left.scratchpadByteOffset + left.byteSize
  }

  ghost predicate Continues(t: Table, k: int) {
    && 0 <= k && k + 1 < |t.descriptors| && OnePiece(t, t.descriptors[k]) && OnePiece(t, t.descriptors[k + 1])
    && var l, r := t.descriptors[k], t.descriptors[k + 1];
       && Alike(l, r, t.segments[l.segmentOffset], t.segments[r.segmentOffset])
       && ComesNext(l, r, t.segments[l.segmentOffset], t.segments[r.segmentOffset])
  }

  function TotalBytes(ds: seq<Descriptor>): nat {
    if ds == [] then 0 else TotalBytes(ds[..|ds| - 1]) + ds[|ds| - 1].bytesPerIteration
  }

  /** Descriptors i .. j-1 continue each other, and all of them together fit into a frame. */
  ghost predicate Shares(t: Table, i: int, j: int) {
    && 0 <= i < j <= |t.descriptors|
    && (forall k :: i <= k < j - 1 ==> Continues(t, k))
    && TotalBytes(t.descriptors[i..j]) <= t.maximumFrame
  }

  lemma BitsApart(f: nat)
    ensures OtherFlags(f) == f % 16 + f / 64 * 64
  {
    var d, c, b := f % 16, f / 16 % 2, f / 32 % 2;
    var q := f / 16;
    var h := q / 2;
    assert f == q * 16 + d && q == h * 2 + c;
    DivisionUnique(f, 32, h, 16 * c + d);
    var g := h / 2;
    assert h == g * 2 + b;
    DivisionUnique(f, 64, g, 32 * b + 16 * c + d);
  }

  lemma SameOtherFlags(f: nat, g: nat)
    ensures OtherFlags(f) == OtherFlags(g) <==> SameFlags(f, g)
  {
    BitsApart(f);
    BitsApart(g);
  }

  lemma ContinuingJoins(t: Table, k: int)
    requires 0 <= k && k + 1 < |t.descriptors|
    ensures Joins(t, k) <==> Continues(t, k)
  {
    SameOtherFlags(t.descriptors[k].flags, t.descriptors[k + 1].flags);
  }

  lemma {:induction false} BytesOfRun(t: Table, i: int, j: int)
    requires 0 <= i <= j <= |t.descriptors|
    ensures RunBytes(t, i, j) == TotalBytes(t.descriptors[i..j])
    decreases j - i
  {
    if i < j {
      BytesOfRun(t, i, j - 1);
      assert t.descriptors[i..j][..j - i - 1] == t.descriptors[i..j - 1];
    }
  }

  lemma SharedIsRun(t: Table, i: int, j: int)
    requires 0 <= i && i + 1 < j <= |t.descriptors|
    ensures Shares(t, i, j) <==> IsRun(t, i, j)
  {
    BytesOfRun(t, i, j);
    forall k | i <= k < j - 1 ensures Joins(t, k) <==> Continues(t, k) {
      ContinuingJoins(t, k);
    }
    if Shares(t, i, j) {
      forall k | i <= k < j ensures IsSingleRequest(t, t.descriptors[k]) {
        assert if k < j - 1 then Continues(t, k) else Continues(t, k - 1);
      }
    }
  }

  /** The greedy request that starts at descriptor i takes in descriptor j - 1 exactly when all records from
      i to there continue each other and fit into one frame together. */
  lemma GreedyTakesIn(t: Table, i: int, j: int)
    requires 0 <= i && i + 1 < j <= |t.descriptors|
    ensures j <= GreedyEnd(t, i) <==> Shares(t, i, j)
  {
    SharedIsRun(t, i, j);
    if IsRun(t, i, j) {
      GreedyIsLongest(t, i, j);
    }
    if j <= GreedyEnd(t, i) {
      RunPrefix(t, i, GreedyEnd(t, i), j);
    }
  }

  /** What a run begins with is a run. */
  lemma RunPrefix(t: Table, i: int, e: int, j: int)
    requires IsRun(t, i, e) && i < j <= e
    ensures IsRun(t, i, j)
  {
    RunBytesSplit(t, i, j, e);
  }

  // ---- the compact roles do not matter ----

  /** The tables differ at most in bits 4 and 5 of flags. */
  ghost predicate SameButRoles(t: Table, u: Table) {
    && u.segments == t.segments && u.maximumFrame == t.maximumFrame && |u.descriptors| == |t.descriptors|
    && forall k :: 0 <= k < |t.descriptors| ==>
         && u.descriptors[k] == t.descriptors[k].(flags := u.descriptors[k].flags)
         && SameFlags(u.descriptors[k].flags, t.descriptors[k].flags)
  }

  lemma RolesNotJoined(t: Table, u: Table, k: int)
    requires SameButRoles(t, u)
    ensures Continues(t, k) <==> Continues(u, k)
  {
  }

  lemma {:induction false} RolesWeighNothing(t: Table, u: Table, i: int, j: int)
    requires SameButRoles(t, u) && 0 <= i <= j <= |t.descriptors|
    ensures TotalBytes(t.descriptors[i..j]) == TotalBytes(u.descriptors[i..j])
    decreases j - i
  {
    if i < j {
      RolesWeighNothing(t, u, i, j - 1);
      assert t.descriptors[i..j][..j - i - 1] == t.descriptors[i..j - 1] && u.descriptors[i..j][..j - i - 1] == u.descriptors[i..j - 1];
    }
  }

  lemma RolesShareAlike(t: Table, u: Table, i: int, j: int)
    requires SameButRoles(t, u) && 0 <= i && i + 1 < j <= |t.descriptors|
    ensures j <= GreedyEnd(t, i) <==> j <= GreedyEnd(u, i)
  {
    GreedyTakesIn(t, i, j);
    GreedyTakesIn(u, i, j);
    RolesWeighNothing(t, u, i, j);
    forall k | i <= k < j - 1 ensures Continues(t, k) <==> Continues(u, k) {
      RolesNotJoined(t, u, k);
    }
  }

  lemma RolesEndAlike(t: Table, u: Table, i: int)
    requires SameButRoles(t, u) && 0 <= i < |t.descriptors|
    ensures GreedyEnd(t, i) == GreedyEnd(u, i)
  {
    var d, e := GreedyEnd(t, i), GreedyEnd(u, i);
    if d > i + 1 { RolesShareAlike(t, u, i, d); }
    if e > i + 1 { RolesShareAlike(t, u, i, e); }
  }

  /** The packing does not depend on the compact roles. */
  lemma {:induction false} RolesPackAlike(t: Table, u: Table, i: int)
    requires SameButRoles(t, u) && 0 <= i <= |t.descriptors|
    ensures GreedyEnds(t, i) == GreedyEnds(u, i)
    decreases |t.descriptors| - i
  {
    if i < |t.descriptors| {
      RolesEndAlike(t, u, i);
      RolesPackAlike(t, u, GreedyEnd(t, i));
    }
  }
}
