/** The mesh that the partition divides: which tiles are neighbors, and the weights of their edges. */
module Mesh {
  import opened Arithmetic
  import opened Options
  import opened Cuts

  // ---- coordinates ----

  function TileAt(columns: nat, x: int, y: int): int {
    y * columns + x
  }

  function Distance(a: int, b: int): nat {
    if a < b then b - a else a - b
  }

  predicate Inside(rows: nat, columns: nat, x: int, y: int) {
    0 <= x < columns && 0 <= y < rows
  }

  /** Tiles one step apart in one of the two directions. */
  ghost predicate IsNeighbor(rows: nat, columns: nat, i: int, j: int)
    requires columns > 0
  {
    && 0 <= i < rows * columns && 0 <= j < rows * columns
    && Distance(i % columns, j % columns) + Distance(i / columns, j / columns) == 1
  }

  lemma NeighborsAgree(rows: nat, columns: nat, i: int, j: int)
    requires columns > 0
    ensures IsNeighbor(rows, columns, i, j) <==> IsNeighbor(rows, columns, j, i)
  {
  }

  /** Number and coordinates determine each other. */
  lemma Located(rows: nat, columns: nat, x: int, y: int)
    requires Inside(rows, columns, x, y)
    ensures 0 <= TileAt(columns, x, y) < rows * columns
    ensures TileAt(columns, x, y) % columns == x && TileAt(columns, x, y) / columns == y
  {
    Monotone(y + 1, rows, columns);
    assert (y + 1) * columns == y * columns + columns;
    DivisionUnique(TileAt(columns, x, y), columns, y, x);
  }

  lemma Coordinates(rows: nat, columns: nat, i: int)
    requires columns > 0 && 0 <= i < rows * columns
    ensures Inside(rows, columns, i % columns, i / columns) && TileAt(columns, i % columns, i / columns) == i
  {
    var y := i / columns;
    assert i == y * columns + i % columns;
    if y >= rows { Monotone(rows, y, columns); }
  }

  /** The four directions, by the number of the tile. */
  ghost predicate OneStep(rows: nat, columns: nat, i: int, j: int)
    requires columns > 0
  {
    var x, y := i % columns, i / columns;
    || (x > 0 && j == i - 1) || (x + 1 < columns && j == i + 1)
    || (y > 0 && j == i - columns) || (y + 1 < rows && j == i + columns)
  }

  lemma Stepped(rows: nat, columns: nat, i: int, x: int, y: int)
    requires columns > 0 && 0 <= i < rows * columns && Inside(rows, columns, x, y)
    requires Distance(i % columns, x) + Distance(i / columns, y) == 1
    ensures IsNeighbor(rows, columns, i, TileAt(columns, x, y))
  {
    Located(rows, columns, x, y);
  }

  lemma TilesAround(columns: nat, x: int, y: int)
    ensures TileAt(columns, x - 1, y) == TileAt(columns, x, y) - 1 && TileAt(columns, x + 1, y) == TileAt(columns, x, y) + 1
    ensures TileAt(columns, x, y - 1) == TileAt(columns, x, y) - columns && TileAt(columns, x, y + 1) == TileAt(columns, x, y) + columns
  {
    assert (y - 1) * columns == y * columns - columns && (y + 1) * columns == y * columns + columns;
  }

  lemma StepIsNeighbor(rows: nat, columns: nat, i: int, j: int)
    requires columns > 0 && 0 <= i < rows * columns && OneStep(rows, columns, i, j)
    ensures IsNeighbor(rows, columns, i, j)
  {
    var x, y := i % columns, i / columns;
    Coordinates(rows, columns, i);
    TilesAround(columns, x, y);
    if x > 0 && j == i - 1 { Stepped(rows, columns, i, x - 1, y); }
    else if x + 1 < columns && j == i + 1 { Stepped(rows, columns, i, x + 1, y); }
    else if y > 0 && j == i - columns { Stepped(rows, columns, i, x, y - 1); }
    else { Stepped(rows, columns, i, x, y + 1); }
  }

  lemma NeighborIsStep(rows: nat, columns: nat, i: int, j: int)
    requires columns > 0 && IsNeighbor(rows, columns, i, j)
    ensures OneStep(rows, columns, i, j)
  {
    var x, y, u, v := i % columns, i / columns, j % columns, j / columns;
    Coordinates(rows, columns, i);
    Coordinates(rows, columns, j);
    TilesAround(columns, x, y);
    if v == y {
      assert u == x - 1 || u == x + 1;
    } else {
      assert u == x && (v == y - 1 || v == y + 1);
    }
  }

  // ---- adjacency ----

  method NeighborsOf(rows: nat, columns: nat, tile: nat) returns (neighbors: seq<int>)
    requires columns > 0 && tile < rows * columns
    ensures forall j :: j in neighbors <==> IsNeighbor(rows, columns, tile, j)
  {
    var x, y := tile % columns, tile / columns;
    neighbors := [];
    if x > 0 { neighbors := neighbors + [tile - 1]; }
    if x + 1 < columns { neighbors := neighbors + [tile + 1]; }
    if y > 0 { neighbors := neighbors + [tile - columns]; }
    if y + 1 < rows { neighbors := neighbors + [tile + columns]; }
    forall j ensures j in neighbors <==> IsNeighbor(rows, columns, tile, j) {
      if j in neighbors { StepIsNeighbor(rows, columns, tile, j); }
      if IsNeighbor(rows, columns, tile, j) { NeighborIsStep(rows, columns, tile, j); }
    }
  }

  ghost predicate IsAdjacency(rows: nat, columns: nat, adjacency: seq<seq<int>>)
    requires columns > 0
  {
    && |adjacency| == rows * columns
    && forall i, j :: 0 <= i < |adjacency| ==> (j in adjacency[i] <==> IsNeighbor(rows, columns, i, j))
  }

  method MeshAdjacency(rows: nat, columns: nat) returns (adjacency: seq<seq<int>>)
    requires rows > 0 && columns > 0
    ensures IsAdjacency(rows, columns, adjacency)
  {
    adjacency := [];
    for tile := 0 to rows * columns
      invariant |adjacency| == tile
      invariant forall i, j :: 0 <= i < tile ==> (j in adjacency[i] <==> IsNeighbor(rows, columns, i, j))
    {
      var neighbors := NeighborsOf(rows, columns, tile);
      adjacency := adjacency + [neighbors];
    }
  }

  // ---- traffic ----

  datatype Direction = East | West | North | South

  /** Flits that a router forwarded in one direction. */
  datatype Record = Record(x: int, y: int, direction: Direction, flits: int)

  function StepX(d: Direction): int {
    match d case East => 1 case West => -1 case _ => 0
  }

  function StepY(d: Direction): int {
    match d case North => -1 case South => 1 case _ => 0
  }

  /** A record inside the mesh; links that leave the mesh do not count. */
  predicate Counts(rows: nat, columns: nat, r: Record) {
    Inside(rows, columns, r.x, r.y) && Inside(rows, columns, r.x + StepX(r.direction), r.y + StepY(r.direction))
  }

  function SourceOf(columns: nat, r: Record): int {
    TileAt(columns, r.x, r.y)
  }

  function TargetOf(columns: nat, r: Record): int {
    TileAt(columns, r.x + StepX(r.direction), r.y + StepY(r.direction))
  }

  /** The record is about the edge between i and j, in either direction. */
  predicate About(rows: nat, columns: nat, r: Record, i: int, j: int) {
    && Counts(rows, columns, r)
    && ((SourceOf(columns, r) == i && TargetOf(columns, r) == j) || (SourceOf(columns, r) == j && TargetOf(columns, r) == i))
  }

  /** Flits between two tiles in both directions together. */
  function FlitsBetween(rows: nat, columns: nat, records: seq<Record>, i: int, j: int): int {
    if records == [] then 0
    else
      var last := records[|records| - 1];
      FlitsBetween(rows, columns, records[..|records| - 1], i, j) + if About(rows, columns, last, i, j) then last.flits else 0
  }

  lemma {:induction false} FlitsAgree(rows: nat, columns: nat, records: seq<Record>, i: int, j: int)
    ensures FlitsBetween(rows, columns, records, i, j) == FlitsBetween(rows, columns, records, j, i)
    decreases |records|
  {
    if records != [] { FlitsAgree(rows, columns, records[..|records| - 1], i, j); }
  }

  lemma RecordIsEdge(rows: nat, columns: nat, r: Record)
    requires Counts(rows, columns, r)
    ensures columns > 0 && IsNeighbor(rows, columns, SourceOf(columns, r), TargetOf(columns, r))
  {
    Located(rows, columns, r.x, r.y);
    Stepped(rows, columns, SourceOf(columns, r), r.x + StepX(r.direction), r.y + StepY(r.direction));
  }

  lemma SameTile(rows: nat, columns: nat, x: int, y: int, u: int, v: int)
    requires Inside(rows, columns, x, y) && Inside(rows, columns, u, v)
    ensures TileAt(columns, x, y) == TileAt(columns, u, v) <==> x == u && y == v
  {
    Located(rows, columns, x, y);
    Located(rows, columns, u, v);
  }

  lemma JoinedBy(rows: nat, columns: nat, r: Record, x: int, y: int, u: int, v: int)
    requires Inside(rows, columns, x, y) && Inside(rows, columns, u, v)
    ensures About(rows, columns, r, TileAt(columns, x, y), TileAt(columns, u, v))
       <==> var tx, ty := r.x + StepX(r.direction), r.y + StepY(r.direction);
            (r.x == x && r.y == y && tx == u && ty == v) || (r.x == u && r.y == v && tx == x && ty == y)
  {
    if Counts(rows, columns, r) {
      var tx, ty := r.x + StepX(r.direction), r.y + StepY(r.direction);
      SameTile(rows, columns, r.x, r.y, x, y);
      SameTile(rows, columns, r.x, r.y, u, v);
      SameTile(rows, columns, tx, ty, x, y);
      SameTile(rows, columns, tx, ty, u, v);
    }
  }

  /** The records about an edge: those of the left router for the east and of the right one for the west,
      or those of the upper router for the south and of the lower one for the north. */
  lemma RecordsOfEdge(rows: nat, columns: nat, r: Record, x: int, y: int)
    requires Inside(rows, columns, x, y)
    ensures x + 1 < columns ==>
              (About(rows, columns, r, TileAt(columns, x, y), TileAt(columns, x + 1, y))
               <==> r.y == y && ((r.x == x && r.direction == East) || (r.x == x + 1 && r.direction == West)))
    ensures y + 1 < rows ==>
              (About(rows, columns, r, TileAt(columns, x, y), TileAt(columns, x, y + 1))
               <==> r.x == x && ((r.y == y && r.direction == South) || (r.y == y + 1 && r.direction == North)))
  {
    if x + 1 < columns { JoinedBy(rows, columns, r, x, y, x + 1, y); }
    if y + 1 < rows { JoinedBy(rows, columns, r, x, y, x, y + 1); }
  }

  function FlowTo(traffic: map<int, nat>, j: int): nat {
    if j in traffic then traffic[j] else 0
  }

  function WithFlow(traffic: map<int, nat>, j: int, flits: nat): map<int, nat> {
    traffic[j := FlowTo(traffic, j) + flits]
  }

  ghost predicate IsTraffic(rows: nat, columns: nat, records: seq<Record>, traffic: Weights) {
    && |traffic| == rows * columns
    && forall i, j :: 0 <= i < |traffic| ==> FlowTo(traffic[i], j) == FlitsBetween(rows, columns, records, i, j)
  }

  predicate Readable(rows: nat, columns: nat, r: Record) {
    Inside(rows, columns, r.x, r.y) && (Counts(rows, columns, r) ==> r.flits >= 0)
  }

  /** One more record: its flits are added on both ends of its edge. */
  method AddRecord(rows: nat, columns: nat, ghost records: seq<Record>, traffic: Weights, r: Record) returns (more: Weights)
    requires IsTraffic(rows, columns, records, traffic) && Readable(rows, columns, r)
    ensures IsTraffic(rows, columns, records + [r], more)
  {
    more := traffic;
    assert (records + [r])[..|records|] == records;
    if Counts(rows, columns, r) {
      var source, target := SourceOf(columns, r), TargetOf(columns, r);
      RecordIsEdge(rows, columns, r);
      more := more[source := WithFlow(more[source], target, r.flits)];
      more := more[target := WithFlow(more[target], source, r.flits)];
    }
  }

  /** Adds up the statistics; fails exactly at a router outside the mesh or at a negative count. */
  method RouterTraffic(rows: nat, columns: nat, records: seq<Record>) returns (traffic: Option<Weights>)
    ensures traffic.Some? <==> forall k :: 0 <= k < |records| ==> Readable(rows, columns, records[k])
    ensures traffic.Some? ==> IsTraffic(rows, columns, records, traffic.value)
  {
    var sum: Weights := seq(rows * columns, _ => map[]);
    for k := 0 to |records|
      invariant IsTraffic(rows, columns, records[..k], sum)
      invariant forall l :: 0 <= l < k ==> Readable(rows, columns, records[l])
    {
      if !Readable(rows, columns, records[k]) { return None; }
      sum := AddRecord(rows, columns, records[..k], sum, records[k]);
      assert records[..k] + [records[k]] == records[..k + 1];
    }
    assert records[..|records|] == records;
    traffic := Some(sum);
  }

  // ---- edge weights ----

  /** Every edge of the mesh, with one for the topology and the flits that cross it. */
  ghost predicate IsMeshEdges(rows: nat, columns: nat, records: seq<Record>, edges: Weights)
    requires columns > 0
  {
    && |edges| == rows * columns
    && forall i, j :: 0 <= i < |edges| ==>
         && (j in edges[i] <==> IsNeighbor(rows, columns, i, j))
         && (j in edges[i] ==> edges[i][j] == 1 + FlitsBetween(rows, columns, records, i, j))
  }

  method MeshEdges(rows: nat, columns: nat, adjacency: seq<seq<int>>, traffic: Weights, ghost records: seq<Record>) returns (edges: Weights)
    requires columns > 0 && IsAdjacency(rows, columns, adjacency) && IsTraffic(rows, columns, records, traffic)
    ensures IsMeshEdges(rows, columns, records, edges)
  {
    edges := seq(|adjacency|, i requires 0 <= i < |adjacency| && |traffic| == |adjacency| =>
                   map j | j in adjacency[i] :: 1 + FlowTo(traffic[i], j));
  }

  /** What the searches need of the weights: both ends of an edge agree on it, and no tile is its own
      neighbor. */
  lemma MeshIsSymmetric(rows: nat, columns: nat, records: seq<Record>, edges: Weights)
    requires columns > 0 && IsMeshEdges(rows, columns, records, edges)
    ensures Symmetric(edges)
  {
    forall i, j {:trigger j in edges[i]} | 0 <= i < |edges| && j in edges[i]
      ensures 0 <= j < |edges| && j != i && i in edges[j] && edges[j][i] == edges[i][j]
    {
      assert IsNeighbor(rows, columns, i, j);
      NeighborsAgree(rows, columns, i, j);
      FlitsAgree(rows, columns, records, i, j);
    }
  }
}
