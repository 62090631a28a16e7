/** The depth-first search itself, with its mutable index, number, low-link, stack and component
    variables. */
module Tarjan {
  import opened SortedSets
  import opened Reachability
  import opened TarjanState

  class Finder {
    const adjacency: Graph
    ghost const nodes: set<int>
    var index: nat
    var indices: map<int, nat>
    var lowlinks: map<int, nat>
    var stack: seq<int>
    var onStack: set<int>
    var components: seq<seq<int>>

    ghost function Env(): Search
      reads this
    {
      Search(index, indices, stack, onStack, components)
    }

    ghost predicate Closed() {
      forall u, v :: u in nodes && Arc(adjacency, u, v) ==> v in nodes
    }

    ghost predicate Running(gray: set<int>)
      reads this
    {
      Closed() && Inv(adjacency, Env(), gray) && indices.Keys <= nodes && lowlinks.Keys == indices.Keys
    }

    constructor (adjacency: Graph, ghost nodes: set<int>)
      requires forall u, v :: u in nodes && Arc(adjacency, u, v) ==> v in nodes
      ensures this.adjacency == adjacency && this.nodes == nodes
      ensures Running({}) && indices == map[] && components == []
    {
      this.adjacency, this.nodes := adjacency, nodes;
      index, indices, lowlinks, stack, onStack, components := 0, map[], map[], [], {}, [];
    }

    // ---- one visit ----

    /** Arcs from stack nodes above x to stack nodes below it are accounted for in `low`. */
    ghost predicate Crossed(e: Search, x: int, low: nat) {
      forall z, y :: Below(e, x, z) && z != x && Below(e, y, x) && y != x && Arc(adjacency, z, y) ==> low <= e.indices[y]
    }

    /** The first n successors of x are discovered and accounted for in `low`. */
    ghost predicate Seen(e: Search, x: int, n: nat, low: nat) {
      n <= |Next(adjacency, x)|
      && forall j :: 0 <= j < n ==>
           var v := Next(adjacency, x)[j];
           v in e.indices && (Below(e, v, x) && v != x ==> low <= e.indices[v])
    }

    ghost predicate LowReached(e: Search, x: int, low: nat) {
      exists y :: Witness(adjacency, e, x, low, y)
    }

    /** Between two successors of x. */
    ghost predicate Examining(e: Search, gray: set<int>, x: int, n: nat, low: nat) {
      && Inv(adjacency, e, gray + {x})
      && x in e.onStack && x in e.indices && low <= e.indices[x]
      && LowReached(e, x, low) && Crossed(e, x, low) && Seen(e, x, n, low)
    }

    /** What a finished visit of x tells its caller. */
    ghost predicate Visited(e: Search, f: Search, x: int, low: nat) {
      && Extends(e, f) && x in f.indices && f.indices[x] == e.index && low <= f.indices[x]
      && (x in f.onStack ==> LowReached(f, x, low))
      && (x !in f.onStack ==> low == f.indices[x])
      && (forall z, y :: z in f.onStack && z !in e.onStack && y in e.onStack && y in e.indices && Arc(adjacency, z, y) ==> low <= e.indices[y])
    }

    lemma FirstSuccessor(e: Search, gray: set<int>, x: int)
      requires Inv(adjacency, e, gray) && x !in e.indices
      requires forall a :: a in gray ==> Reach(adjacency, a, x)
      ensures Examining(Discover(e, x), gray, x, 0, e.index)
      ensures Extends(e, Discover(e, x))
    {
      DiscoverInv(adjacency, e, gray, x);
      ReachSelf(adjacency, x);
      assert Witness(adjacency, Discover(e, x), x, e.index, x);
    }

    lemma MinWitness(e: Search, x: int, low: nat, v: int, other: nat)
      requires LowReached(e, x, low) && Reach(adjacency, x, v) && LowReached(e, v, other)
      ensures LowReached(e, x, if other < low then other else low)
    {
      if other < low {
        var y :| Witness(adjacency, e, v, other, y);
        ReachTrans(adjacency, x, v, y);
        assert Witness(adjacency, e, x, other, y);
      }
    }

    lemma WitnessKept(e: Search, f: Search, x: int, low: nat)
      requires LowReached(e, x, low) && Extends(e, f)
      ensures LowReached(f, x, low)
    {
      var y :| Witness(adjacency, e, x, low, y);
      assert Witness(adjacency, f, x, low, y);
    }

    /** Crossing arcs after a successor has been visited: old ones were accounted for, new ones by the visit. */
    lemma CrossedAfter(e: Search, f: Search, x: int, low: nat, other: nat)
      requires Numbered(e) && Stacked(e) && Crossed(e, x, low) && x in e.onStack && x in e.indices
      requires Extends(e, f)
      requires forall z, y :: z in f.onStack && z !in e.onStack && y in e.onStack && y in e.indices && Arc(adjacency, z, y) ==> other <= e.indices[y]
      requires forall u :: u in f.indices && u !in e.indices ==> e.index <= f.indices[u]
      ensures Crossed(f, x, if other < low then other else low)
    {
      forall z, y | Below(f, x, z) && z != x && Below(f, y, x) && y != x && Arc(adjacency, z, y)
        ensures (if other < low then other else low) <= f.indices[y]
      {
        assert y in e.indices && y in e.onStack;
        if z in e.onStack { assert Below(e, x, z) && Below(e, y, x); }
      }
    }

    /** A node undiscovered so far gets a number of its own, at least the next one. */
    ghost predicate Fresh(e: Search, f: Search) {
      forall u :: u in f.indices && u !in e.indices ==> e.index <= f.indices[u]
    }

    lemma SeenAfter(e: Search, f: Search, x: int, n: nat, low: nat, lower: nat)
      requires Seen(e, x, n, low) && Extends(e, f) && lower <= low && Stacked(e)
      requires x in e.onStack && x in e.indices
      ensures Seen(f, x, n, lower)
    {
    }

    /** After the visit of an undiscovered successor. */
    lemma AfterVisit(e: Search, f: Search, gray: set<int>, x: int, n: nat, low: nat, other: nat)
      requires Examining(e, gray, x, n, low) && n < |Next(adjacency, x)|
      requires var v := Next(adjacency, x)[n]; v !in e.indices && Visited(e, f, v, other)
      requires Inv(adjacency, f, gray + {x}) && Fresh(e, f)
      ensures Examining(f, gray, x, n + 1, if other < low then other else low)
    {
      var v := Next(adjacency, x)[n];
      var lower := if other < low then other else low;
      ReachArc(adjacency, x, v);
      WitnessKept(e, f, x, low);
      if other < low {
        assert v in f.onStack;
        MinWitness(f, x, low, v, other);
      }
      CrossedAfter(e, f, x, low, other);
      SeenAfter(e, f, x, n, low, lower);
    }

    /** After an already discovered successor on the stack. */
    lemma AfterStacked(e: Search, gray: set<int>, x: int, n: nat, low: nat)
      requires Examining(e, gray, x, n, low) && n < |Next(adjacency, x)|
      requires var v := Next(adjacency, x)[n]; v in e.onStack && v in e.indices
      ensures var v := Next(adjacency, x)[n];
              Examining(e, gray, x, n + 1, if e.indices[v] < low then e.indices[v] else low)
    {
      var v := Next(adjacency, x)[n];
      ReachArc(adjacency, x, v);
      ReachSelf(adjacency, v);
      assert Witness(adjacency, e, v, e.indices[v], v);
      MinWitness(e, x, low, v, e.indices[v]);
    }

    lemma AfterRetired(e: Search, gray: set<int>, x: int, n: nat, low: nat)
      requires Examining(e, gray, x, n, low) && n < |Next(adjacency, x)|
      requires var v := Next(adjacency, x)[n]; v in e.indices && v !in e.onStack
      ensures Examining(e, gray, x, n + 1, low)
    {
    }

    /** All successors seen: the low link decides soundly. */
    lemma AllExamined(e: Search, gray: set<int>, x: int, low: nat)
      requires Examining(e, gray, x, |Next(adjacency, x)|, low)
      ensures Examined(adjacency, e, x, low)
    {
    }

    // ---- leaving a node ----

    lemma VisitedLeaves(e: Search, f: Search, gray: set<int>, x: int, low: nat)
      requires Inv(adjacency, e, gray) && x !in e.indices && Extends(Discover(e, x), f)
      requires Examining(f, gray, x, |Next(adjacency, x)|, low) && low < f.indices[x]
      requires x !in gray && Fresh(Discover(e, x), f)
      ensures Inv(adjacency, f, gray) && Visited(e, f, x, low)
    {
      AllExamined(f, gray, x, low);
      var y :| Witness(adjacency, f, x, low, y);
      LeaveInv(adjacency, f, gray, x, low, y);
      VisitedCrossing(e, f, gray, x, low);
      ExtendsDiscovered(e, f, x);
    }

    lemma ExtendsDiscovered(e: Search, f: Search, x: int)
      requires x !in e.indices && Stacked(e) && Extends(Discover(e, x), f)
      ensures Extends(e, f)
    {
    }

    lemma VisitedCrossing(e: Search, f: Search, gray: set<int>, x: int, low: nat)
      requires Numbered(e) && Stacked(e) && Stacked(f) && x !in e.indices && Extends(Discover(e, x), f) && Fresh(Discover(e, x), f)
      requires Examining(f, gray, x, |Next(adjacency, x)|, low)
      ensures forall z, y :: z in f.onStack && z !in e.onStack && y in e.onStack && y in e.indices && Arc(adjacency, z, y) ==> low <= e.indices[y]
    {
      forall z, y | z in f.onStack && z !in e.onStack && y in e.onStack && y in e.indices && Arc(adjacency, z, y)
        ensures low <= e.indices[y]
      {
        assert Below(f, y, x) && y != x;
        if z == x {
          var j :| 0 <= j < |Next(adjacency, x)| && Next(adjacency, x)[j] == y;
        } else {
          assert z !in Discover(e, x).onStack;
          assert Below(f, x, z);
        }
      }
    }

    // ---- popping a component ----

    /** The top of the stack, from the position of x on. */
    lemma TopOfStack(e: Search, k: nat)
      requires Stacked(e) && k < |e.stack|
      ensures Elements(e.stack[k..]) == Top(e, e.stack[k])
      ensures |e.stack| - k == |Top(e, e.stack[k])|
      ensures Elements(e.stack[..k]) == e.onStack - Top(e, e.stack[k])
    {
      var x := e.stack[k];
      forall u | u in e.onStack
        ensures u in Elements(e.stack[k..]) <==> u in Top(e, x)
        ensures u in Elements(e.stack[..k]) <==> u !in Top(e, x)
      {
        StackPosition(e, k, u);
      }
      DistinctSize(e.stack[k..]);
    }

    lemma StackPosition(e: Search, k: nat, u: int)
      requires Stacked(e) && k < |e.stack| && u in e.onStack
      ensures u in Elements(e.stack[k..]) <==> u in Top(e, e.stack[k])
      ensures u in Elements(e.stack[..k]) <==> u !in Top(e, e.stack[k])
    {
      var i :| 0 <= i < |e.stack| && e.stack[i] == u;
      assert e.stack[k] in Elements(e.stack);
      if i < k {
        assert e.stack[..k][i] == u;
        assert u !in e.stack[k..];
      } else {
        assert e.stack[k..][i - k] == u;
        assert u !in e.stack[..k];
      }
    }

    /** After some nodes of e have been popped into `component`. */
    ghost predicate Popping(e: Search, f: Search, k: nat, component: seq<int>) {
      && |component| <= |e.stack| - k
      && f.stack == e.stack[..|e.stack| - |component|]
      && Elements(component) == Elements(e.stack[|e.stack| - |component|..])
      && f.onStack == e.onStack - Elements(component)
      && f.index == e.index && f.indices == e.indices && f.components == e.components
    }

    lemma PoppedOne(e: Search, f: Search, h: Search, k: nat, component: seq<int>)
      requires Stacked(e) && k < |e.stack| && Popping(e, f, k, component) && k < |f.stack|
      requires var m := |f.stack| - 1; h == f.(stack := f.stack[..m], onStack := f.onStack - {f.stack[m]})
      ensures Popping(e, h, k, component + [f.stack[|f.stack| - 1]])
      ensures f.stack[|f.stack| - 1] == e.stack[k] <==> |component| + 1 == |e.stack| - k
    {
      var m := |f.stack| - 1;
      var after := component + [f.stack[m]];
      assert Elements(after) == Elements(component) + {e.stack[m]};
      assert e.stack[m..] == [e.stack[m]] + e.stack[m + 1..];
      assert Elements(e.stack[m..]) == {e.stack[m]} + Elements(e.stack[m + 1..]);
      PositionOf(e, m, k);
    }

    lemma PoppedAll(e: Search, f: Search, h: Search, k: nat, component: seq<int>, ordered: seq<int>)
      requires Stacked(e) && k < |e.stack| && Popping(e, f, k, component) && |component| == |e.stack| - k
      requires Increasing(ordered) && Elements(ordered) == Elements(component)
      requires h == f.(components := f.components + [ordered])
      ensures Popped(e, h, e.stack[k], ordered)
    {
      TopOfStack(e, k);
      IncreasingSize(ordered);
      assert Elements(h.stack) == h.onStack;
    }

    /** Pops down to x, the node at position k, and records what was popped as a component. */
    method PopComponent(x: int, ghost k: nat)
      requires Stacked(Env()) && k < |stack| && stack[k] == x
      modifies this`stack, this`onStack, this`components
      ensures stack == old(stack)[..k]
      ensures components != [] && Increasing(components[|components| - 1])
      ensures Popped(old(Env()), Env(), x, components[|components| - 1])
    {
      ghost var e := Env();
      var component: seq<int> := [];
      var done := false;
      while !done
        invariant Popping(e, Env(), k, component)
        invariant done <==> |component| == |e.stack| - k
        decreases |stack|
      {
        ghost var f := Env();
        var m := |stack| - 1;
        var member := stack[m];
        stack, onStack := stack[..m], onStack - {member};
        PoppedOne(e, f, Env(), k, component);
        component := component + [member];
        done := member == x;
      }
      ghost var f := Env();
      var members := set u | u in component;
      assert members == Elements(component);
      var ordered := Sorted(members);
      components := components + [ordered];
      PoppedAll(e, f, Env(), k, component, ordered);
    }

    lemma PositionOf(e: Search, m: nat, k: nat)
      requires Stacked(e) && m < |e.stack| && k < |e.stack|
      ensures e.stack[m] == e.stack[k] <==> m == k
    {
    }

    // ---- the recursive visit ----

    lemma PoppedBack(e: Search, f: Search, h: Search, gray: set<int>, x: int, component: seq<int>)
      requires Inv(adjacency, e, gray) && x !in e.indices && x !in gray
      requires Extends(Discover(e, x), f) && Fresh(Discover(e, x), f)
      requires Examining(f, gray, x, |Next(adjacency, x)|, f.indices[x])
      requires forall a :: a in gray ==> Reach(adjacency, a, x)
      requires Popped(f, h, x, component) && h.stack == e.stack
      ensures Inv(adjacency, h, gray) && Visited(e, h, x, h.indices[x])
    {
      AllExamined(f, gray, x, f.indices[x]);
      GrayBelow(e, f, gray, x);
      PopInv(adjacency, f, h, gray, x, component);
      ExtendsDiscovered(e, f, x);
    }

    lemma GrayBelow(e: Search, f: Search, gray: set<int>, x: int)
      requires Numbered(e) && Stacked(e) && gray <= e.onStack && x !in e.indices && Extends(Discover(e, x), f)
      ensures forall a :: a in gray ==> a !in Top(f, x)
    {
    }

    /** Low links outside `own` are untouched, and only increasing lists are added to the components. */
    ghost predicate Kept(low: map<int, nat>, after: map<int, nat>, keys: set<int>, components: seq<seq<int>>, more: seq<seq<int>>) {
      && (forall u :: u in keys && u in low ==> u in after && after[u] == low[u])
      && components <= more
      && forall k :: |components| <= k < |more| ==> Increasing(more[k])
    }

    lemma KeptTrans(a: map<int, nat>, b: map<int, nat>, c: map<int, nat>, keys: set<int>, more: set<int>,
                    r: seq<seq<int>>, s: seq<seq<int>>, t: seq<seq<int>>)
      requires Kept(a, b, keys, r, s) && Kept(b, c, more, s, t) && keys <= more
      ensures Kept(a, c, keys, r, t)
    {
      forall k | |r| <= k < |t| ensures Increasing(t[k]) {
        if k < |s| { assert t[k] == s[k]; }
      }
    }

    /** What the loop over the successors of x keeps: d is the state right after the discovery of x. */
    ghost predicate Looping(d: Search, f: Search, gray: set<int>, x: int, n: nat, low: map<int, nat>) {
      && f.indices.Keys <= nodes && low.Keys == f.indices.Keys
      && x in low && Examining(f, gray, x, n, low[x])
      && Extends(d, f) && Fresh(d, f) && d.index <= f.index
    }

    method Enter(x: int, ghost gray: set<int>)
      requires Running(gray) && x in nodes && x !in indices
      requires forall a :: a in gray ==> Reach(adjacency, a, x)
      modifies this`index, this`indices, this`lowlinks, this`stack, this`onStack
      ensures Env() == Discover(old(Env()), x)
      ensures Looping(Env(), Env(), gray, x, 0, lowlinks)
      ensures Kept(old(lowlinks), lowlinks, old(indices).Keys, components, components)
    {
      ghost var e := Env();
      FirstSuccessor(e, gray, x);
      indices, lowlinks := indices[x := index], lowlinks[x := index];
      index := index + 1;
      stack, onStack := stack + [x], onStack + {x};
    }

    lemma BottomOfVisit(e: Search, f: Search, x: int)
      requires Extends(Discover(e, x), f)
      ensures |e.stack| < |f.stack| && f.stack[|e.stack|] == x && f.stack[..|e.stack|] == e.stack
    {
      assert Discover(e, x).stack[|e.stack|] == x;
      assert Discover(e, x).stack[..|e.stack|] == e.stack;
    }

    /** All successors of x have been seen: x stays on the stack, or its component is recorded. */
    method Leave(ghost e: Search, x: int, ghost gray: set<int>)
      requires Inv(adjacency, e, gray) && x !in e.indices
      requires forall a :: a in gray ==> Reach(adjacency, a, x)
      requires Looping(Discover(e, x), Env(), gray, x, |Next(adjacency, x)|, lowlinks)
      modifies this`stack, this`onStack, this`components
      ensures Inv(adjacency, Env(), gray) && x in lowlinks && Visited(e, Env(), x, lowlinks[x])
      ensures Fresh(e, Env())
      ensures Kept(lowlinks, lowlinks, lowlinks.Keys, old(components), components)
    {
      ghost var f := Env();
      NotGray(e, gray, x);
      if lowlinks[x] != indices[x] {
        VisitedLeaves(e, f, gray, x, lowlinks[x]);
      } else {
        BottomOfVisit(e, f, x);
        PopComponent(x, |e.stack|);
        PoppedBack(e, f, Env(), gray, x, components[|components| - 1]);
      }
    }

    lemma NotGray(e: Search, gray: set<int>, x: int)
      requires gray <= e.onStack && Stacked(e) && x !in e.indices
      ensures x !in gray
    {
    }

    lemma KeysGrow(e: Search, f: Search)
      requires Extends(e, f)
      ensures e.indices.Keys <= f.indices.Keys
    {
      forall u | u in e.indices ensures u in f.indices {}
    }

    lemma Looped(d: Search, f: Search, h: Search, gray: set<int>, x: int, n: nat, low: map<int, nat>, after: map<int, nat>)
      requires Looping(d, f, gray, x, n, low)
      requires h.indices.Keys <= nodes && after.Keys == h.indices.Keys && x in after
      requires Examining(h, gray, x, n + 1, after[x]) && Extends(f, h) && Fresh(f, h) && f.index <= h.index
      ensures Looping(d, h, gray, x, n + 1, after)
    {
      ExtendsTrans(d, f, h);
    }

    /** The loop over the successors of the node x just discovered. */
    method Examine(x: int, ghost gray: set<int>)
      requires Closed() && x in nodes && Looping(Env(), Env(), gray, x, 0, lowlinks)
      requires forall a :: a in gray ==> Reach(adjacency, a, x)
      modifies this
      decreases nodes - indices.Keys, 3
      ensures Looping(old(Env()), Env(), gray, x, |Next(adjacency, x)|, lowlinks)
      ensures Kept(old(lowlinks), lowlinks, old(indices).Keys - {x}, old(components), components)
    {
      ghost var d := Env();
      var successors := Next(adjacency, x);
      var n := 0;
      while n < |successors|
        invariant 0 <= n <= |successors|
        invariant Looping(d, Env(), gray, x, n, lowlinks)
        invariant Kept(old(lowlinks), lowlinks, d.indices.Keys - {x}, d.components, components)
      {
        ghost var f, low := Env(), lowlinks;
        KeysGrow(d, f);
        Step(x, n, gray);
        Looped(d, f, Env(), gray, x, n, low, lowlinks);
        KeptTrans(old(lowlinks), low, lowlinks, d.indices.Keys - {x}, low.Keys - {x}, d.components, f.components, components);
        n := n + 1;
      }
    }

    method Explore(x: int, ghost gray: set<int>)
      requires Running(gray) && x in nodes && x !in indices
      requires forall a :: a in gray ==> Reach(adjacency, a, x)
      modifies this
      decreases nodes - indices.Keys, 0
      ensures Looping(Discover(old(Env()), x), Env(), gray, x, |Next(adjacency, x)|, lowlinks)
      ensures Kept(old(lowlinks), lowlinks, old(indices).Keys, old(components), components)
    {
      ghost var e := Env();
      Enter(x, gray);
      ghost var low := lowlinks;
      Examine(x, gray);
      KeptTrans(old(lowlinks), low, lowlinks, e.indices.Keys, low.Keys - {x}, e.components, e.components, components);
    }

    /** Discovers everything reachable from x that was undiscovered; afterwards x is either on the stack
        with a smaller low link, or its component has been recorded. */
    method Visit(x: int, ghost gray: set<int>)
      requires Running(gray) && x in nodes && x !in indices
      requires forall a :: a in gray ==> Reach(adjacency, a, x)
      modifies this
      decreases nodes - indices.Keys, 1
      ensures Running(gray)
      ensures x in lowlinks && Visited(old(Env()), Env(), x, lowlinks[x]) && Fresh(old(Env()), Env()) && old(index) <= index
      ensures Kept(old(lowlinks), lowlinks, old(indices).Keys, old(components), components)
    {
      ghost var e := Env();
      Explore(x, gray);
      ghost var low, had := lowlinks, components;
      KeysGrow(Discover(e, x), Env());
      Leave(e, x, gray);
      KeptTrans(old(lowlinks), low, lowlinks, e.indices.Keys, low.Keys, e.components, had, components);
    }

    lemma GrayReaches(gray: set<int>, x: int, v: int)
      requires forall a :: a in gray ==> Reach(adjacency, a, x)
      requires Arc(adjacency, x, v)
      ensures forall a :: a in gray + {x} ==> Reach(adjacency, a, v)
    {
      ReachArc(adjacency, x, v);
      forall a | a in gray ensures Reach(adjacency, a, v) {
        ReachTrans(adjacency, a, x, v);
      }
    }

    /** Examines successor n of x: visits it when it is undiscovered, and lowers the low link of x. */
    method Step(x: int, n: nat, ghost gray: set<int>)
      requires x in nodes && n < |Next(adjacency, x)|
      requires forall a :: a in gray ==> Reach(adjacency, a, x)
      requires Closed() && indices.Keys <= nodes && lowlinks.Keys == indices.Keys && x in indices
      requires Examining(Env(), gray, x, n, lowlinks[x])
      modifies this
      decreases nodes - indices.Keys, 2
      ensures indices.Keys <= nodes && lowlinks.Keys == indices.Keys && x in indices
      ensures Examining(Env(), gray, x, n + 1, lowlinks[x])
      ensures Extends(old(Env()), Env()) && Fresh(old(Env()), Env()) && old(index) <= index
      ensures Kept(old(lowlinks), lowlinks, old(indices).Keys - {x}, old(components), components)
    {
      ghost var e := Env();
      var successor := Next(adjacency, x)[n];
      if successor !in indices {
        GrayReaches(gray, x, successor);
        Visit(successor, gray + {x});
        AfterVisit(e, Env(), gray, x, n, lowlinks[x], lowlinks[successor]);
        lowlinks := lowlinks[x := if lowlinks[successor] < lowlinks[x] then lowlinks[successor] else lowlinks[x]];
      } else if successor in onStack {
        AfterStacked(e, gray, x, n, lowlinks[x]);
        lowlinks := lowlinks[x := if indices[successor] < lowlinks[x] then indices[successor] else lowlinks[x]];
      } else {
        AfterRetired(e, gray, x, n, lowlinks[x]);
      }
    }
  }
}
