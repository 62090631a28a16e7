/** The weighted cut of a partition, and how moving a tile or exchanging two tiles changes it. */
module Cuts {
  import opened SortedSets
  import opened Sums

  /** For each tile the weights of the edges to its neighbors. */
  type Weights = seq<map<int, nat>>

  /** Both ends of an edge know it, with the same weight; no tile is its own neighbor. */
  ghost predicate Symmetric(ew: Weights) {
    forall i, j {:trigger j in ew[i]} :: 0 <= i < |ew| && j in ew[i] ==> 0 <= j < |ew| && j != i && i in ew[j] && ew[j][i] == ew[i][j]
  }

  /** Each edge once, from its lower to its higher end. */
  ghost function Edges(ew: Weights): set<(int, int)> {
    set i, j | 0 <= i < |ew| && j in ew[i] && i < j :: (i, j)
  }

  function WeightOf(ew: Weights, e: (int, int)): nat {
    if 0 <= e.0 < |ew| && e.1 in ew[e.0] then ew[e.0][e.1] else 0
  }

  predicate Crosses(a: seq<int>, e: (int, int)) {
    0 <= e.0 < |a| && 0 <= e.1 < |a| && a[e.0] != a[e.1]
  }

  function Crossing(a: seq<int>, ew: Weights): ((int, int)) -> int {
    (e: (int, int)) => if Crosses(a, e) then WeightOf(ew, e) else 0
  }

  /** The total weight of the edges between different threads. */
  ghost function Cut(a: seq<int>, ew: Weights): int {
    Sum(Edges(ew), Crossing(a, ew))
  }

  lemma CutNonNegative(a: seq<int>, ew: Weights)
    ensures Cut(a, ew) >= 0
  {
    SumNonNegative(Edges(ew), Crossing(a, ew));
  }

  // ---- the double loop over all edges ----

  ghost function EdgesFrom(ew: Weights, i: int, keys: set<int>): set<(int, int)> {
    set j | j in keys && i < j :: (i, j)
  }

  ghost function EdgesBefore(ew: Weights, n: nat): set<(int, int)>
    requires n <= |ew|
  {
    set i, j | 0 <= i < n && j in ew[i] && i < j :: (i, j)
  }

  lemma {:induction false} LaterEdges(ew: Weights, tile: int, keys: set<int>, f: int -> int, g: ((int, int)) -> int)
    requires forall j :: j in keys ==> f(j) == if tile < j then g((tile, j)) else 0
    ensures Sum(keys, f) == Sum(EdgesFrom(ew, tile, keys), g)
    decreases keys
  {
    if keys == {} {
      assert EdgesFrom(ew, tile, keys) == {};
    } else {
      var j := Member(keys);
      LaterEdges(ew, tile, keys - {j}, f, g);
      SumTake(keys, f, j);
      if tile < j {
        assert EdgesFrom(ew, tile, keys) - {(tile, j)} == EdgesFrom(ew, tile, keys - {j});
        SumTake(EdgesFrom(ew, tile, keys), g, (tile, j));
      } else {
        assert EdgesFrom(ew, tile, keys) == EdgesFrom(ew, tile, keys - {j});
      }
    }
  }

  /** What the edge to a later neighbor adds to the cut. */
  function LaterCut(a: seq<int>, links: map<int, nat>, tile: nat): int -> int
    requires tile < |a|
  {
    (j: int) => if j in links && tile < j < |a| && a[tile] != a[j] then links[j] else 0
  }

  /** The edges to later neighbors on other threads. */
  method SumLater(a: seq<int>, links: map<int, nat>, tile: nat) returns (cut: int)
    requires tile < |a| && forall j :: j in links ==> 0 <= j < |a|
    ensures cut == Sum(links.Keys, LaterCut(a, links, tile))
  {
    cut := 0;
    var neighbors := ListOf(links.Keys);
    for k := 0 to |neighbors|
      invariant cut == SumOver(neighbors[..k], LaterCut(a, links, tile))
    {
      var neighbor := neighbors[k];
      assert neighbor in links;
      if tile < neighbor && a[tile] != a[neighbor] { cut := cut + links[neighbor]; }
      NextItem(neighbors, k, LaterCut(a, links, tile));
    }
    AllItems(neighbors, links.Keys, LaterCut(a, links, tile));
  }

  lemma LaterCutIs(a: seq<int>, ew: Weights, tile: nat, j: int)
    requires |a| == |ew| && Symmetric(ew) && tile < |a| && j in ew[tile]
    ensures 0 <= j < |a| && LaterCut(a, ew[tile], tile)(j) == if tile < j then Crossing(a, ew)((tile, j)) else 0
  {
    assert 0 <= j < |ew| && WeightOf(ew, (tile, j)) == ew[tile][j];
  }

  method CutFromTile(a: seq<int>, ew: Weights, tile: nat) returns (cut: int)
    requires |a| == |ew| && Symmetric(ew) && tile < |a|
    ensures cut == Sum(EdgesFrom(ew, tile, ew[tile].Keys), Crossing(a, ew))
  {
    forall j | j in ew[tile]
      ensures 0 <= j < |a| && LaterCut(a, ew[tile], tile)(j) == if tile < j then Crossing(a, ew)((tile, j)) else 0
    {
      LaterCutIs(a, ew, tile, j);
    }
    cut := SumLater(a, ew[tile], tile);
    LaterEdges(ew, tile, ew[tile].Keys, LaterCut(a, ew[tile], tile), Crossing(a, ew));
  }

  method WeightedEdgeCut(a: seq<int>, ew: Weights) returns (cut: int)
    requires |a| == |ew| && Symmetric(ew)
    ensures cut == Cut(a, ew)
  {
    cut := 0;
    for tile := 0 to |ew|
      invariant cut == Sum(EdgesBefore(ew, tile), Crossing(a, ew))
    {
      var here := CutFromTile(a, ew, tile);
      EdgesOfTile(a, ew, tile);
      cut := cut + here;
    }
    assert EdgesBefore(ew, |ew|) == Edges(ew);
  }

  lemma EdgesOfTile(a: seq<int>, ew: Weights, tile: nat)
    requires tile < |ew|
    ensures Sum(EdgesBefore(ew, tile + 1), Crossing(a, ew))
         == Sum(EdgesBefore(ew, tile), Crossing(a, ew)) + Sum(EdgesFrom(ew, tile, ew[tile].Keys), Crossing(a, ew))
  {
    SumUnion(EdgesBefore(ew, tile), EdgesFrom(ew, tile, ew[tile].Keys), Crossing(a, ew));
    assert EdgesBefore(ew, tile + 1) == EdgesBefore(ew, tile) + EdgesFrom(ew, tile, ew[tile].Keys);
  }

  // ---- changing the assignment of some tiles ----

  function EdgeBetween(i: int, j: int): (int, int) {
    if i < j then (i, j) else (j, i)
  }

  /** The edges at tile i. */
  function EdgesAt(ew: Weights, i: int): set<(int, int)> {
    if 0 <= i < |ew| then set j | j in ew[i] :: EdgeBetween(i, j) else {}
  }

  lemma EdgesAtAreEdges(ew: Weights, i: int)
    requires Symmetric(ew) && 0 <= i < |ew|
    ensures EdgesAt(ew, i) <= Edges(ew)
    ensures forall e :: e in Edges(ew) && (e.0 == i || e.1 == i) ==> e in EdgesAt(ew, i)
  {
    forall e | e in Edges(ew) && e.1 == i ensures e in EdgesAt(ew, i) {
      assert e.0 in ew[i];
      assert EdgeBetween(i, e.0) == e;
    }
    forall e | e in Edges(ew) && e.0 == i ensures e in EdgesAt(ew, i) {
      assert EdgeBetween(i, e.1) == e;
    }
    forall j | j in ew[i] ensures EdgeBetween(i, j) in Edges(ew) {
      assert 0 <= j < |ew| && i in ew[j];
    }
  }

  /** Only the edges in `changed` can change their part in the cut. */
  lemma CutChange(a: seq<int>, b: seq<int>, ew: Weights, changed: set<(int, int)>)
    requires changed <= Edges(ew)
    requires forall e :: e in Edges(ew) && e !in changed ==> Crosses(a, e) == Crosses(b, e)
    ensures Cut(b, ew) - Cut(a, ew) == Sum(changed, Crossing(b, ew)) - Sum(changed, Crossing(a, ew))
  {
    var rest := Edges(ew) - changed;
    SumUnion(changed, rest, Crossing(a, ew));
    SumUnion(changed, rest, Crossing(b, ew));
    assert changed + rest == Edges(ew);
    SumSame(rest, Crossing(a, ew), Crossing(b, ew));
  }

  // ---- exchanging two tiles ----

  function Swapped(a: seq<int>, first: int, second: int): (b: seq<int>)
    requires 0 <= first < |a| && 0 <= second < |a|
    ensures |b| == |a| && b[first] == a[second] && b[second] == a[first]
    ensures forall i :: 0 <= i < |a| && i != first && i != second ==> b[i] == a[i]
  {
    a[first := a[second]][second := a[first]]
  }

  /** The thread of a tile once the two have been exchanged. */
  function After(a: seq<int>, first: int, second: int, tile: int): int
    requires 0 <= first < |a| && 0 <= second < |a| && 0 <= tile < |a|
  {
    if tile == first then a[second] else if tile == second then a[first] else a[tile]
  }

  lemma SwapAffects(a: seq<int>, ew: Weights, first: int, second: int)
    requires |a| == |ew| && Symmetric(ew) && 0 <= first < |a| && 0 <= second < |a|
    ensures var affected := EdgesAt(ew, first) + EdgesAt(ew, second); var b := Swapped(a, first, second);
            && affected <= Edges(ew)
            && Cut(b, ew) - Cut(a, ew) == Sum(affected, Crossing(b, ew)) - Sum(affected, Crossing(a, ew))
  {
    EdgesAtAreEdges(ew, first);
    EdgesAtAreEdges(ew, second);
    CutChange(a, Swapped(a, first, second), ew, EdgesAt(ew, first) + EdgesAt(ew, second));
  }

  predicate EdgeOk(a: seq<int>, ew: Weights, e: (int, int)) {
    0 <= e.0 < |a| && 0 <= e.1 < |a| && e.0 < |ew| && e.1 in ew[e.0]
  }

  /** What the edges contribute before and after the exchange. */
  method SumShares(edges: seq<(int, int)>, a: seq<int>, ew: Weights, first: int, second: int) returns (before: int, after: int)
    requires 0 <= first < |a| && 0 <= second < |a| && forall k :: 0 <= k < |edges| ==> EdgeOk(a, ew, edges[k])
    ensures before == SumOver(edges[..|edges|], Crossing(a, ew))
    ensures after == SumOver(edges[..|edges|], Crossing(Swapped(a, first, second), ew))
  {
    before, after := 0, 0;
    for k := 0 to |edges|
      invariant before == SumOver(edges[..k], Crossing(a, ew)) && after == SumOver(edges[..k], Crossing(Swapped(a, first, second), ew))
    {
      var e := edges[k];
      assert EdgeOk(a, ew, e);
      NextItem(edges, k, Crossing(a, ew));
      NextItem(edges, k, Crossing(Swapped(a, first, second), ew));
      var weight := ew[e.0][e.1];
      if a[e.0] != a[e.1] { before := before + weight; }
      if After(a, first, second, e.0) != After(a, first, second, e.1) { after := after + weight; }
    }
  }

  lemma ListedEdgesOk(edges: seq<(int, int)>, affected: set<(int, int)>, a: seq<int>, ew: Weights)
    requires |a| == |ew| && Symmetric(ew) && Lists(edges, affected) && affected <= Edges(ew)
    ensures forall k :: 0 <= k < |edges| ==> EdgeOk(a, ew, edges[k])
  {
    forall k | 0 <= k < |edges| ensures EdgeOk(a, ew, edges[k]) {
      var e := edges[k];
      assert e in affected && e in Edges(ew) && e.1 in ew[e.0];
    }
  }

  /** The change of the cut when two tiles exchange their threads, from the edges at the two alone. */
  method SwapCutDelta(a: seq<int>, ew: Weights, first: int, second: int) returns (delta: int)
    requires |a| == |ew| && Symmetric(ew) && 0 <= first < |a| && 0 <= second < |a|
    ensures delta == Cut(Swapped(a, first, second), ew) - Cut(a, ew)
  {
    ghost var affected := EdgesAt(ew, first) + EdgesAt(ew, second);
    SwapAffects(a, ew, first, second);
    var edges := ListOf(EdgesAt(ew, first) + EdgesAt(ew, second));
    ListedEdgesOk(edges, affected, a, ew);
    var before, after := SumShares(edges, a, ew, first, second);
    AllItems(edges, affected, Crossing(a, ew));
    AllItems(edges, affected, Crossing(Swapped(a, first, second), ew));
    delta := after - before;
  }

  // ---- moving one tile ----

  /** The edge weights of a tile towards the neighbors on a thread. */
  function Towards(a: seq<int>, links: map<int, nat>, thread: int): int -> int {
    (j: int) => if j in links && 0 <= j < |a| && a[j] == thread then links[j] else 0
  }

  ghost function NeighborWeight(a: seq<int>, ew: Weights, tile: int, thread: int): int
    requires 0 <= tile < |ew|
  {
    Sum(ew[tile].Keys, Towards(a, ew[tile], thread))
  }

  method SumLinks(a: seq<int>, links: map<int, nat>, thread: int) returns (sum: int)
    requires forall j :: j in links ==> 0 <= j < |a|
    ensures sum == Sum(links.Keys, Towards(a, links, thread))
  {
    sum := 0;
    var neighbors := ListOf(links.Keys);
    for k := 0 to |neighbors|
      invariant sum == SumOver(neighbors[..k], Towards(a, links, thread))
    {
      var neighbor := neighbors[k];
      assert neighbor in links;
      if a[neighbor] == thread { sum := sum + links[neighbor]; }
      NextItem(neighbors, k, Towards(a, links, thread));
    }
    AllItems(neighbors, links.Keys, Towards(a, links, thread));
  }

  method SumNeighbors(a: seq<int>, ew: Weights, tile: int, thread: int) returns (sum: int)
    requires |a| == |ew| && Symmetric(ew) && 0 <= tile < |a|
    ensures sum == NeighborWeight(a, ew, tile, thread)
  {
    sum := SumLinks(a, ew[tile], thread);
  }

  function Link(ew: Weights, tile: int): int -> int {
    (j: int) => if 0 <= tile < |ew| && j in ew[tile] then ew[tile][j] else 0
  }

  function ToEdge(tile: int): int -> (int, int) {
    (j: int) => EdgeBetween(tile, j)
  }

  /** The edge weights of a tile towards the neighbors on other threads. */
  function Away(a: seq<int>, ew: Weights, tile: int): int -> int {
    (j: int) => if 0 <= tile < |ew| && j in ew[tile] && 0 <= tile < |a| && 0 <= j < |a| && a[j] != a[tile] then ew[tile][j] else 0
  }

  lemma EdgesByNeighbor(a: seq<int>, ew: Weights, tile: int)
    requires |a| == |ew| && Symmetric(ew) && 0 <= tile < |a|
    ensures Sum(EdgesAt(ew, tile), Crossing(a, ew)) == Sum(ew[tile].Keys, Away(a, ew, tile))
  {
    var keys := ew[tile].Keys;
    forall j | j in keys
      ensures ToEdge(tile)(j) in EdgesAt(ew, tile) && Crossing(a, ew)(ToEdge(tile)(j)) == Away(a, ew, tile)(j)
    {
      assert j in ew[tile];
    }
    forall z | z in EdgesAt(ew, tile) ensures exists j :: j in keys && ToEdge(tile)(j) == z {
      var j :| j in ew[tile] && EdgeBetween(tile, j) == z;
      assert ToEdge(tile)(j) == z;
    }
    SumRenamed(keys, EdgesAt(ew, tile), ToEdge(tile), Away(a, ew, tile), Crossing(a, ew));
  }

  /** What the edges at a tile contribute to the cut: all of them but those within its thread. */
  lemma CutAtTile(a: seq<int>, ew: Weights, tile: int)
    requires |a| == |ew| && Symmetric(ew) && 0 <= tile < |a|
    ensures Sum(EdgesAt(ew, tile), Crossing(a, ew))
         == Sum(ew[tile].Keys, Link(ew, tile)) - NeighborWeight(a, ew, tile, a[tile])
  {
    EdgesByNeighbor(a, ew, tile);
    forall j | j in ew[tile].Keys
      ensures Away(a, ew, tile)(j) == Link(ew, tile)(j) - Towards(a, ew[tile], a[tile])(j)
    {
      assert j in ew[tile];
    }
    SumMinus(ew[tile].Keys, Link(ew, tile), Towards(a, ew[tile], a[tile]), Away(a, ew, tile));
  }

  lemma {:induction false} SumMinus<T>(s: set<T>, f: T -> int, g: T -> int, h: T -> int)
    requires forall x :: x in s ==> h(x) == f(x) - g(x)
    ensures Sum(s, h) == Sum(s, f) - Sum(s, g)
    decreases s
  {
    if s != {} {
      var x := Member(s);
      SumTake(s, f, x);
      SumTake(s, g, x);
      SumTake(s, h, x);
      SumMinus(s - {x}, f, g, h);
    }
  }

  /** Only edges at the tile can change their part when it moves. */
  lemma MoveAffects(a: seq<int>, ew: Weights, tile: int, thread: int)
    requires |a| == |ew| && Symmetric(ew) && 0 <= tile < |a|
    ensures var b := a[tile := thread];
            Cut(b, ew) - Cut(a, ew) == Sum(EdgesAt(ew, tile), Crossing(b, ew)) - Sum(EdgesAt(ew, tile), Crossing(a, ew))
  {
    EdgesAtAreEdges(ew, tile);
    CutChange(a, a[tile := thread], ew, EdgesAt(ew, tile));
  }

  /** Where the tile itself is does not matter for its neighbors. */
  lemma TowardsSame(a: seq<int>, ew: Weights, tile: int, thread: int)
    requires |a| == |ew| && Symmetric(ew) && 0 <= tile < |a|
    ensures NeighborWeight(a[tile := thread], ew, tile, thread) == NeighborWeight(a, ew, tile, thread)
  {
    var b := a[tile := thread];
    forall j | j in ew[tile].Keys ensures Towards(a, ew[tile], thread)(j) == Towards(b, ew[tile], thread)(j) {
      assert j in ew[tile];
    }
    SumSame(ew[tile].Keys, Towards(a, ew[tile], thread), Towards(b, ew[tile], thread));
  }

  /** The weight towards the old thread less the weight towards the new one is the change of the cut. */
  lemma MoveCutDelta(a: seq<int>, ew: Weights, tile: int, thread: int)
    requires |a| == |ew| && Symmetric(ew) && 0 <= tile < |a|
    ensures Cut(a[tile := thread], ew) - Cut(a, ew)
         == NeighborWeight(a, ew, tile, a[tile]) - NeighborWeight(a, ew, tile, thread)
  {
    MoveAffects(a, ew, tile, thread);
    CutAtTile(a, ew, tile);
    CutAtTile(a[tile := thread], ew, tile);
    TowardsSame(a, ew, tile, thread);
  }
}
