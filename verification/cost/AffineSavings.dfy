/** What affine packing saves the memory controller: at least one setup for every request less. */
module AffineSavings {
  import opened Arithmetic
  import opened Histograms
  import opened ControllerCost
  import opened DmaTables
  import opened Copies
  import opened AffineAudit
  import opened AffineTable

  lemma JoinedService(a: seq<Move>, b: seq<Move>, f: Tariff)
    ensures Service(Sized(a + b), f) == Service(Sized(a), f) + Service(Sized(b), f)
  {
    SizedJoin(a, b);
    ServiceJoin(Sized(a), Sized(b), f);
  }

  lemma OneService(m: Move, f: Tariff)
    ensures Service(Sized([m]), f) == f(m.bytes)
  {
    SizedOne(m);
    OneMoreService([], Batch(m.bytes, 1), f);
    assert [] + [Batch(m.bytes, 1)] == [Batch(m.bytes, 1)];
  }

  /** The size of n equal requests carried out as one. */
  function Merged(n: nat, size: nat): nat {
    n * size
  }

  /** With this tariff, merging n equal requests saves the setup of all but one. */
  ghost predicate MergingSaves(f: Tariff, setup: nat) {
    forall size: nat, n: nat {:trigger Merged(n, size)} :: n > 0 ==> f(Merged(n, size)) + (n - 1) * setup <= n * f(size)
  }

  lemma ControllerSaves(c: Controller)
    requires Configured(c)
    ensures MergingSaves(TariffOf(c), c.setupCycles)
  {
    forall size: nat, n: nat {:trigger Merged(n, size)} | n > 0
      ensures TariffOf(c)(Merged(n, size)) + (n - 1) * c.setupCycles <= n * TariffOf(c)(size)
    {
      MergeMany(size, n, c);
    }
  }

  lemma Together(a: nat, b: nat, x: nat)
    ensures a * x + b * x == (a + b) * x
  {
  }

  /** What the first request of a longer line saves, on top of what the rest saves. */
  lemma FirstSaves(f: Tariff, setup: nat, size: nat, n: nat, width: nat, rest: nat, service: nat)
    requires MergingSaves(f, setup) && 0 < width < n && rest <= n - width
    requires service + (n - width - rest) * setup <= (n - width) * f(size)
    ensures f(width * size) + service + (n - (1 + rest)) * setup <= n * f(size)
  {
    assert f(Merged(width, size)) + (width - 1) * setup <= width * f(size);
    Together(width - 1, n - width - rest, setup);
    Together(width, n - width, f(size));
    assert width - 1 + (n - width - rest) == n - (1 + rest);
  }

  /** The requests do the work of so many transfers, which took `total`, and save a setup for every
      request less. */
  ghost predicate LineSaves(moves: seq<Move>, transfers: nat, total: nat, f: Tariff, setup: nat) {
    |moves| <= transfers && Service(Sized(moves), f) + (transfers - |moves|) * setup <= total
  }

  /** Packing a line saves a setup for every request it does without. */
  lemma {:induction false} PackSaves(from: int, to: int, size: nat, n: nat, width: nat, f: Tariff, setup: nat)
    requires MergingSaves(f, setup) && width > 0
    ensures LineSaves(Pack(from, to, size, n, width), n, n * f(size), f, setup)
    decreases n
  {
    if 0 < n <= width {
      OneService(Move(from, to, Merged(n, size)), f);
    } else if n > width {
      var first, rest := Move(from, to, width * size), Pack(from + width * size, to + width * size, size, n - width, width);
      PackSaves(from + width * size, to + width * size, size, n - width, width, f, setup);
      OneService(first, f);
      JoinedService([first], rest, f);
      FirstSaves(f, setup, size, n, width, |rest|, Service(Sized(rest), f));
    }
  }

  /** Adding what two parts save. */
  lemma AddSavings(x: nat, y: nat, p: nat, q: nat, m: nat, n: nat, setup: nat, u: nat, v: nat)
    requires p <= m && q <= n && x + (m - p) * setup <= u && y + (n - q) * setup <= v
    ensures x + y + (m + n - (p + q)) * setup <= u + v
  {
    Together(m - p, n - q, setup);
    assert m - p + (n - q) == m + n - (p + q);
  }

  lemma LineSavesJoin(a: seq<Move>, b: seq<Move>, m: nat, n: nat, u: nat, v: nat, f: Tariff, setup: nat)
    requires LineSaves(a, m, u, f, setup) && LineSaves(b, n, v, f, setup)
    ensures LineSaves(a + b, m + n, u + v, f, setup)
  {
    JoinedService(a, b, f);
    AddSavings(Service(Sized(a), f), Service(Sized(b), f), |a|, |b|, m, n, setup, u, v);
  }

  lemma {:induction false} RowsSave(s: Segment, from: int, to: int, n: nat, width: nat, cycles: nat, f: Tariff, setup: nat)
    requires MergingSaves(f, setup) && width > 0 && cycles == s.pieceCount * f(s.byteSize)
    ensures LineSaves(PackRows(s, from, to, n, width), Times(n, s.pieceCount), Times(n, cycles), f, setup)
  {
    if n > 0 {
      var g, h := RowFrom(s, from, n - 1), RowTo(s, to, n - 1);
      RowsSave(s, from, to, n - 1, width, cycles, f, setup);
      PackSaves(g, h, s.byteSize, s.pieceCount, width, f, setup);
      LineSavesJoin(PackRows(s, from, to, n - 1, width), Pack(g, h, s.byteSize, s.pieceCount, width),
                    Times(n - 1, s.pieceCount), s.pieceCount, Times(n - 1, cycles), cycles, f, setup);
    }
  }

  lemma AllRowsSave(s: Segment, width: nat, f: Tariff, setup: nat)
    requires MergingSaves(f, setup) && width > 0
    ensures LineSaves(PackRows(s, 0, 0, s.repeatCount, width), Transfers(s), Transfers(s) * f(s.byteSize), f, setup)
  {
    RowsSave(s, 0, 0, s.repeatCount, width, s.pieceCount * f(s.byteSize), f, setup);
    TimesProduct(s.repeatCount, s.pieceCount, f(s.byteSize));
  }

  lemma {:induction false} TimesProduct(n: nat, x: nat, y: nat)
    ensures Times(n, x * y) == Times(n, x) * y
    decreases n
  {
    if n > 0 {
      TimesProduct(n - 1, x, y);
      Together(Times(n - 1, x), x, y);
    }
  }

  lemma {:induction false} SameSizeService(moves: seq<Move>, size: nat, f: Tariff)
    requires forall i :: 0 <= i < |moves| ==> moves[i].bytes == size
    ensures Service(Sized(moves), f) == |moves| * f(size)
  {
    if moves != [] {
      var init := moves[..|moves| - 1];
      SameSizeService(init, size, f);
      OneMoreService(Sized(init), Batch(size, 1), f);
      Together(|init|, 1, f(size));
    }
  }

  lemma {:induction false} PiecesSize(s: Segment, from: int, to: int, n: nat)
    ensures forall i :: 0 <= i < n ==> Pieces(s, from, to, n)[i].bytes == s.byteSize
  {
    if n > 0 { PiecesSize(s, from, to, n - 1); }
  }

  lemma {:induction false} TransferredSize(s: Segment, from: int, to: int, n: nat)
    ensures forall i :: 0 <= i < |Transferred(s, from, to, n)| ==> Transferred(s, from, to, n)[i].bytes == s.byteSize
  {
    if n > 0 {
      TransferredSize(s, from, to, n - 1);
      PiecesSize(s, RowFrom(s, from, n - 1), RowTo(s, to, n - 1), s.pieceCount);
    }
  }

  /** A packed segment saves a setup for every request it does without. */
  lemma SegmentSaves(s: Segment, frame: nat, f: Tariff, setup: nat)
    requires s.byteSize > 0 && MergingSaves(f, setup)
    ensures LineSaves(Packed(s, frame, 0, 0), Transfers(s), Transfers(s) * f(s.byteSize), f, setup)
  {
    PackedCount(s, frame, 0, 0);
    TransfersAre(s);
    match StrategyOf(s, frame)
    case Full => PackSaves(0, 0, s.byteSize, s.repeatCount * s.pieceCount, frame / s.byteSize, f, setup);
    case Rows => AllRowsSave(s, frame / s.byteSize, f, setup);
    case Unpacked =>
      TransferredSize(s, 0, 0, s.repeatCount);
      SameSizeService(Transferred(s, 0, 0, s.repeatCount), s.byteSize, f);
  }

  /** `packed` does the work of `plain` and saves a setup for every request it does without. */
  ghost predicate Saves(packed: seq<Batch>, plain: seq<Batch>, f: Tariff, setup: nat) {
    Requests(packed) <= Requests(plain) && Service(packed, f) + (Requests(plain) - Requests(packed)) * setup <= Service(plain, f)
  }

  lemma SavesJoin(a: seq<Batch>, b: seq<Batch>, p: seq<Batch>, q: seq<Batch>, f: Tariff, setup: nat)
    requires Saves(a, p, f, setup) && Saves(b, q, f, setup)
    ensures Saves(a + b, p + q, f, setup)
  {
    JoinedSums(a, b);
    JoinedSums(p, q);
    ServiceJoin(a, b, f);
    ServiceJoin(p, q, f);
    AddSavings(Service(a, f), Service(b, f), Requests(a), Requests(b), Requests(p), Requests(q), setup, Service(p, f), Service(q, f));
  }

  lemma SavesRepeated(a: seq<Batch>, p: seq<Batch>, times: nat, f: Tariff, setup: nat)
    requires Saves(a, p, f, setup)
    ensures Saves(Repeated(a, times), Repeated(p, times), f, setup)
  {
    RepeatedSums(a, times);
    RepeatedSums(p, times);
    ServiceRepeated(a, times, f);
    ServiceRepeated(p, times, f);
    ScaleSavings(times, Service(a, f), Requests(p), Requests(a), setup, Service(p, f));
  }

  lemma ScaleSavings(k: nat, x: nat, m: nat, p: nat, setup: nat, u: nat)
    requires p <= m && x + (m - p) * setup <= u
    ensures k * p <= k * m && k * x + (k * m - k * p) * setup <= k * u
  {
    Monotone(p, m, k);
    Monotone(x + (m - p) * setup, u, k);
    Distribute(k, x, (m - p) * setup);
    assert k * ((m - p) * setup) == (k * (m - p)) * setup;
    assert k * (m - p) == k * m - k * p;
  }

  lemma OneSegmentSaves(moves: seq<Move>, size: nat, transfers: nat, f: Tariff, setup: nat)
    requires LineSaves(moves, transfers, transfers * f(size), f, setup)
    ensures Saves(Sized(moves), [Batch(size, transfers)], f, setup)
  {
    SizedTotals(moves);
    OneOrderedBatch(size, transfers);
    OneMoreService([], Batch(size, transfers), f);
    assert [] + [Batch(size, transfers)] == [Batch(size, transfers)];
  }

  lemma OneMoreSaves(t: Table, lo: int, hi: int, f: Tariff, setup: nat)
    requires 0 <= lo < hi <= |t.segments| && t.segments[hi - 1].byteSize > 0 && MergingSaves(f, setup)
    requires Saves(SegmentsPacked(t, lo, hi - 1), SegmentBatches(t, lo, hi - 1), f, setup)
    ensures Saves(SegmentsPacked(t, lo, hi), SegmentBatches(t, lo, hi), f, setup)
  {
    var s := t.segments[hi - 1];
    var moves := Packed(s, t.maximumFrame, 0, 0);
    SegmentSaves(s, t.maximumFrame, f, setup);
    OneSegmentSaves(moves, s.byteSize, Transfers(s), f, setup);
    OneMorePacked(t, lo, hi - 1);
    SavesJoin(SegmentsPacked(t, lo, hi - 1), Sized(moves), SegmentBatches(t, lo, hi - 1), [Batch(s.byteSize, Transfers(s))], f, setup);
  }

  lemma NoneSaves(t: Table, lo: int, f: Tariff, setup: nat)
    requires 0 <= lo <= |t.segments|
    ensures Saves(SegmentsPacked(t, lo, lo), SegmentBatches(t, lo, lo), f, setup)
  {
    assert SegmentsPacked(t, lo, lo) == [] && SegmentBatches(t, lo, lo) == [];
  }

  lemma {:induction false} SegmentsSave(t: Table, lo: int, hi: int, f: Tariff, setup: nat)
    requires 0 <= lo <= hi <= |t.segments| && forall j :: lo <= j < hi ==> t.segments[j].byteSize > 0
    requires MergingSaves(f, setup)
    ensures Saves(SegmentsPacked(t, lo, hi), SegmentBatches(t, lo, hi), f, setup)
    decreases hi - lo
  {
    if lo == hi {
      NoneSaves(t, lo, f, setup);
    } else {
      SegmentsSave(t, lo, hi - 1, f, setup);
      OneMoreSaves(t, lo, hi, f, setup);
    }
  }

  lemma RangeSaves(t: Table, lo: int, hi: int, occurrences: nat, f: Tariff, setup: nat)
    requires 0 <= lo <= hi <= |t.segments| && forall j :: lo <= j < hi ==> t.segments[j].byteSize > 0
    requires MergingSaves(f, setup)
    ensures Saves(RangePacked(t, lo, hi, occurrences), Repeated(SegmentBatches(t, lo, hi), occurrences), f, setup)
  {
    SegmentsSave(t, lo, hi, f, setup);
    SavesRepeated(SegmentsPacked(t, lo, hi), SegmentBatches(t, lo, hi), occurrences, f, setup);
  }

  lemma PlainSaves(t: Table, i: int, lo: int, hi: int, occurrences: nat, f: Tariff, setup: nat)
    requires PlainAt(t, i, lo, hi, occurrences) && MergingSaves(f, setup)
    ensures Saves(AffineBatches(t, i), DescriptorBatches(t, i), f, setup)
  {
    PlainPacked(t, i, lo, hi, occurrences);
    PlainTransfers(t, i, lo, hi, occurrences);
    PlainRange(t, i, lo, hi, occurrences);
    RangeSaves(t, lo, hi, occurrences, f, setup);
  }

  lemma DescriptorSaves(t: Table, i: int, f: Tariff, setup: nat)
    requires 0 <= i < |t.descriptors| && DescriptorOk(t, i) && MergingSaves(f, setup)
    ensures Saves(AffineBatches(t, i), DescriptorBatches(t, i), f, setup)
  {
    var d := t.descriptors[i];
    if RoleOf(d.flags) == Plain {
      PlainSaves(t, i, d.segmentOffset, d.segmentOffset + d.segmentCount, Occurrences(d), f, setup);
    }
  }

  lemma {:induction false} TableSaves(t: Table, direction: int, n: nat, f: Tariff, setup: nat)
    requires n <= |t.descriptors| && AcceptedUpTo(t, n) && MergingSaves(f, setup)
    ensures Saves(AffineUpTo(t, direction, n), PhysicalBatches(t, direction, n), f, setup)
  {
    if n > 0 {
      assert DescriptorOk(t, n - 1);
      TableSaves(t, direction, n - 1, f, setup);
      if t.descriptors[n - 1].direction == direction {
        DescriptorSaves(t, n - 1, f, setup);
        SavesJoin(AffineUpTo(t, direction, n - 1), AffineBatches(t, n - 1), PhysicalBatches(t, direction, n - 1), DescriptorBatches(t, n - 1),
                  f, setup);
      } else {
        assert AffineUpTo(t, direction, n) == AffineUpTo(t, direction, n - 1);
        assert PhysicalBatches(t, direction, n) == PhysicalBatches(t, direction, n - 1);
      }
    }
  }

  /** On every accepted table, affine packing never raises the controller's service time: it saves at
      least the setup of every request it does without. */
  lemma AffinePackingSaves(t: Table, direction: int, c: Controller)
    requires Accepted(t) && Configured(c)
    ensures var n := |t.descriptors|; var packed, plain := AffineUpTo(t, direction, n), PhysicalBatches(t, direction, n);
            Requests(packed) <= Requests(plain)
            && Service(packed, TariffOf(c)) + (Requests(plain) - Requests(packed)) * c.setupCycles <= Service(plain, TariffOf(c))
  {
    ControllerSaves(c);
    TableSaves(t, direction, |t.descriptors|, TariffOf(c), c.setupCycles);
  }
}
