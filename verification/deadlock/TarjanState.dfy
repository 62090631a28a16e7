/** The bookkeeping of the depth-first search for strongly connected components, its invariant, and
    why each of its steps keeps it. */
module TarjanState {
  import opened SortedSets
  import opened Reachability

  /** Discovery numbers, the node stack, its element set and the components found. Low links are kept
      apart: they steer the search and appear only in the contract of a visit. */
  datatype Search = Search(index: nat, indices: map<int, nat>, stack: seq<int>, onStack: set<int>, components: seq<seq<int>>)

  // ---- the invariant ----

  /** Discovery numbers are distinct and below the next one. */
  ghost predicate Numbered(e: Search) {
    && (forall u :: u in e.indices ==> e.indices[u] < e.index)
    && (forall u, v :: u in e.indices && v in e.indices && u != v ==> e.indices[u] != e.indices[v])
  }

  /** The stack holds discovered nodes in the order of discovery. */
  ghost predicate Stacked(e: Search) {
    && e.onStack == Elements(e.stack)
    && (forall u :: u in e.onStack ==> u in e.indices)
    && (forall i, j :: 0 <= i < j < |e.stack| ==> e.stack[i] in e.indices && e.stack[j] in e.indices
                                                  && e.indices[e.stack[i]] < e.indices[e.stack[j]])
  }

  /** u is on the stack and was discovered no later than v, also on the stack. */
  ghost predicate Below(e: Search, u: int, v: int) {
    u in e.onStack && v in e.onStack && u in e.indices && v in e.indices && e.indices[u] <= e.indices[v]
  }

  /** Earlier stack nodes reach later ones. */
  ghost predicate Ordered(g: Graph, e: Search) {
    forall u, v :: Below(e, u, v) ==> Reach(g, u, v)
  }

  /** z reaches a node still being visited that is below it. */
  ghost predicate HasAnchor(g: Graph, e: Search, gray: set<int>, z: int) {
    exists a :: a in gray && Below(e, a, z) && Reach(g, z, a)
  }

  ghost predicate Anchored(g: Graph, e: Search, gray: set<int>) {
    gray <= e.onStack && forall z {:trigger HasAnchor(g, e, gray, z)} :: z in e.onStack ==> HasAnchor(g, e, gray, z)
  }

  /** The successors of a finished node have been discovered. */
  ghost predicate Explored(g: Graph, e: Search, gray: set<int>) {
    forall u, v :: u in e.indices && u !in gray && Arc(g, u, v) ==> v in e.indices
  }

  ghost predicate InComponent(components: seq<seq<int>>, u: int) {
    exists k :: 0 <= k < |components| && u in components[k]
  }

  /** The components found are strongly connected components without repetition, pairwise disjoint. */
  ghost predicate Found(g: Graph, components: seq<seq<int>>) {
    && (forall k :: 0 <= k < |components| ==>
          IsComponent(g, Elements(components[k])) && |Elements(components[k])| == |components[k]|)
    && (forall j, k :: 0 <= j < k < |components| ==> Elements(components[j]) !! Elements(components[k]))
  }

  /** A node is in a component exactly when it has been discovered and is off the stack. */
  ghost predicate Classified(e: Search) {
    forall u :: InComponent(e.components, u) <==> u in e.indices && u !in e.onStack
  }

  ghost predicate Inv(g: Graph, e: Search, gray: set<int>) {
    && Numbered(e) && Stacked(e) && Ordered(g, e) && Anchored(g, e, gray) && Explored(g, e, gray)
    && Found(g, e.components) && Classified(e)
  }

  /** What was there before is still there. */
  ghost predicate Extends(e: Search, f: Search) {
    && e.stack <= f.stack && e.onStack <= f.onStack
    && (forall u :: u in f.onStack && u in e.indices ==> u in e.onStack)
    && forall u :: u in e.indices ==> u in f.indices && f.indices[u] == e.indices[u]
  }

  lemma ExtendsTrans(e: Search, f: Search, h: Search)
    requires Extends(e, f) && Extends(f, h)
    ensures Extends(e, h)
  {
  }

  // ---- discovering a node ----

  function Discover(e: Search, x: int): Search {
    Search(e.index + 1, e.indices[x := e.index], e.stack + [x], e.onStack + {x}, e.components)
  }

  /** Everything on the stack reaches what every gray node reaches. */
  lemma StackReaches(g: Graph, e: Search, gray: set<int>, x: int, z: int)
    requires HasAnchor(g, e, gray, z)
    requires forall a :: a in gray ==> Reach(g, a, x)
    ensures Reach(g, z, x)
  {
    var a :| a in gray && Below(e, a, z) && Reach(g, z, a);
    ReachTrans(g, z, a, x);
  }

  lemma DiscoverStacked(e: Search, x: int)
    requires Numbered(e) && Stacked(e) && x !in e.indices
    ensures Numbered(Discover(e, x)) && Stacked(Discover(e, x)) && Extends(e, Discover(e, x))
  {
    var f := Discover(e, x);
    assert f.stack[|e.stack|] == x;
    assert forall i :: 0 <= i < |e.stack| ==> f.stack[i] == e.stack[i] && e.stack[i] in e.onStack;
    forall u | u in f.onStack ensures u in f.stack {
      if u in e.stack { var i :| 0 <= i < |e.stack| && e.stack[i] == u; assert f.stack[i] == u; }
    }
  }

  lemma DiscoverOrdered(g: Graph, e: Search, gray: set<int>, x: int)
    requires Numbered(e) && Ordered(g, e) && Anchored(g, e, gray) && x !in e.indices
    requires forall a :: a in gray ==> Reach(g, a, x)
    ensures Ordered(g, Discover(e, x))
  {
    var f := Discover(e, x);
    forall u, v | Below(f, u, v)
      ensures Reach(g, u, v)
    {
      if v != x {
        assert u != x;
        assert Below(e, u, v);
      } else if u == x {
        ReachSelf(g, x);
      } else {
        StackReaches(g, e, gray, x, u);
      }
    }
  }

  lemma AnchorKept(g: Graph, e: Search, f: Search, gray: set<int>, more: set<int>, z: int)
    requires HasAnchor(g, e, gray, z) && Extends(e, f)
    ensures HasAnchor(g, f, gray + more, z)
  {
    var a :| a in gray && Below(e, a, z) && Reach(g, z, a);
    assert a in gray + more && Below(f, a, z);
  }

  lemma DiscoverAnchored(g: Graph, e: Search, gray: set<int>, x: int)
    requires Numbered(e) && Stacked(e) && Anchored(g, e, gray) && x !in e.indices
    ensures Anchored(g, Discover(e, x), gray + {x})
  {
    var f := Discover(e, x);
    DiscoverStacked(e, x);
    forall z | z in f.onStack
      ensures HasAnchor(g, f, gray + {x}, z)
    {
      if z == x {
        ReachSelf(g, x);
        assert x in gray + {x} && Below(f, x, x);
      } else {
        AnchorKept(g, e, f, gray, {x}, z);
      }
    }
  }

  lemma DiscoverInv(g: Graph, e: Search, gray: set<int>, x: int)
    requires Inv(g, e, gray) && x !in e.indices
    requires forall a :: a in gray ==> Reach(g, a, x)
    ensures Inv(g, Discover(e, x), gray + {x}) && Extends(e, Discover(e, x))
  {
    DiscoverStacked(e, x);
    DiscoverOrdered(g, e, gray, x);
    DiscoverAnchored(g, e, gray, x);
  }

  // ---- finishing a node ----

  /** All successors of x have been discovered, and every arc from x or a later stack node to an
      earlier one has been taken into account in `low`. */
  ghost predicate Examined(g: Graph, e: Search, x: int, low: nat) {
    && x in e.onStack && x in e.indices
    && (forall v :: Arc(g, x, v) ==> v in e.indices)
    && (forall z, y :: Below(e, x, z) && Below(e, y, x) && y != x && Arc(g, z, y) ==> low <= e.indices[y])
  }

  /** A stack node with the number `low` that x reaches. */
  ghost predicate Witness(g: Graph, e: Search, x: int, low: nat, y: int) {
    y in e.onStack && y in e.indices && e.indices[y] == low && Reach(g, x, y)
  }

  // ... when the low link is smaller: x stays on the stack

  lemma LeaveAnchor(g: Graph, e: Search, gray: set<int>, x: int, b: int, z: int)
    requires HasAnchor(g, e, gray + {x}, z) && b in gray && Below(e, b, x) && Reach(g, x, b)
    ensures HasAnchor(g, e, gray, z)
  {
    var a :| a in gray + {x} && Below(e, a, z) && Reach(g, z, a);
    if a == x {
      ReachTrans(g, z, x, b);
      assert Below(e, b, z);
    } else {
      assert a in gray;
    }
  }

  /** Through the witness x reaches a gray node below it. */
  lemma LowerAnchor(g: Graph, e: Search, gray: set<int>, x: int, low: nat, y: int) returns (b: int)
    requires Numbered(e) && HasAnchor(g, e, gray + {x}, y) && x in e.onStack && x in e.indices
    requires Witness(g, e, x, low, y) && low < e.indices[x]
    ensures b in gray && Below(e, b, x) && Reach(g, x, b)
  {
    b :| b in gray + {x} && Below(e, b, y) && Reach(g, y, b);
    ReachTrans(g, x, y, b);
  }

  lemma LeaveExplored(g: Graph, e: Search, gray: set<int>, x: int, low: nat)
    requires Explored(g, e, gray + {x}) && Examined(g, e, x, low)
    ensures Explored(g, e, gray)
  {
  }

  lemma Reanchored(g: Graph, e: Search, gray: set<int>, x: int, b: int)
    requires Anchored(g, e, gray + {x}) && b in gray && Below(e, b, x) && Reach(g, x, b)
    ensures Anchored(g, e, gray)
  {
    forall z | z in e.onStack ensures HasAnchor(g, e, gray, z) {
      LeaveAnchor(g, e, gray, x, b, z);
    }
  }

  lemma LeaveAnchored(g: Graph, e: Search, gray: set<int>, x: int, low: nat, y: int)
    requires Numbered(e) && Anchored(g, e, gray + {x}) && x !in gray && x in e.onStack && x in e.indices
    requires Witness(g, e, x, low, y) && low < e.indices[x]
    ensures Anchored(g, e, gray)
  {
    assert HasAnchor(g, e, gray + {x}, y);
    var b := LowerAnchor(g, e, gray, x, low, y);
    Reanchored(g, e, gray, x, b);
  }

  lemma LeaveInv(g: Graph, e: Search, gray: set<int>, x: int, low: nat, y: int)
    requires Inv(g, e, gray + {x}) && x !in gray && Examined(g, e, x, low)
    requires Witness(g, e, x, low, y) && low < e.indices[x]
    ensures Inv(g, e, gray)
  {
    LeaveAnchored(g, e, gray, x, low, y);
    LeaveExplored(g, e, gray, x, low);
  }

  // ... when the low link is its own number: x and everything above it is a component

  /** x and the stack nodes discovered after it. */
  ghost function Top(e: Search, x: int): set<int> {
    set z | z in e.onStack && Below(e, x, z)
  }

  /** An arc from the top leads, if to a node that is mutually reachable with x, into the top. */
  lemma ArcStaysInTop(g: Graph, e: Search, x: int, z: int, y: int)
    requires Numbered(e) && Found(g, e.components) && Classified(e)
    requires x in e.indices && Examined(g, e, x, e.indices[x])
    requires z in Top(e, x) && Arc(g, z, y) && y in e.indices && Mutual(g, y, x)
    ensures y in Top(e, x)
  {
    if y !in e.onStack {
      assert InComponent(e.components, y);
      var c :| 0 <= c < |e.components| && y in e.components[c];
      assert IsComponent(g, Elements(e.components[c]));
      assert y in Elements(e.components[c]);
      assert x in Elements(e.components[c]) ==> InComponent(e.components, x);
    }
  }

  lemma TopExplored(g: Graph, e: Search, gray: set<int>, x: int, z: int, y: int)
    requires Explored(g, e, gray + {x}) && x in e.indices && Examined(g, e, x, e.indices[x])
    requires forall a :: a in gray ==> a !in Top(e, x)
    requires z in Top(e, x) && Arc(g, z, y)
    ensures y in e.indices
  {
    if z != x { assert z !in gray + {x}; }
  }

  /** The border argument: a node mutually reachable with x lies in the top of the stack. */
  lemma NothingOutside(g: Graph, e: Search, gray: set<int>, x: int, w: int)
    requires Numbered(e) && Explored(g, e, gray + {x}) && Found(g, e.components) && Classified(e)
    requires x in e.indices && Examined(g, e, x, e.indices[x])
    requires forall a :: a in gray ==> a !in Top(e, x)
    requires Mutual(g, x, w)
    ensures w in Top(e, x)
  {
    if w !in Top(e, x) {
      var z, y := Border(g, Top(e, x), x, w);
      ReachArc(g, z, y);
      ReachTrans(g, x, z, y);
      ReachTrans(g, y, w, x);
      TopExplored(g, e, gray, x, z, y);
      ArcStaysInTop(g, e, x, z, y);
    }
  }

  lemma TopReachesX(g: Graph, e: Search, gray: set<int>, x: int, z: int)
    requires HasAnchor(g, e, gray + {x}, z)
    requires forall a :: a in gray ==> Reach(g, a, x)
    ensures Reach(g, z, x)
  {
    ReachSelf(g, x);
    StackReaches(g, e, gray + {x}, x, z);
  }

  lemma TopIsComponent(g: Graph, e: Search, gray: set<int>, x: int)
    requires Inv(g, e, gray + {x}) && x in e.indices && Examined(g, e, x, e.indices[x])
    requires forall a :: a in gray ==> a !in Top(e, x) && Reach(g, a, x)
    ensures IsComponent(g, Top(e, x))
  {
    assert x in Top(e, x);
    forall z | z in Top(e, x) ensures Reach(g, z, x) && Reach(g, x, z) {
      TopReachesX(g, e, gray, x, z);
    }
    forall u, v | u in Top(e, x) && v in Top(e, x) ensures Reach(g, u, v) {
      ReachTrans(g, u, x, v);
    }
    forall u, v | u in Top(e, x) && Mutual(g, u, v) ensures v in Top(e, x) {
      ReachTrans(g, x, u, v);
      ReachTrans(g, v, u, x);
      NothingOutside(g, e, gray, x, v);
    }
  }

  /** The state after the top has been popped into a component. */
  ghost predicate Popped(e: Search, f: Search, x: int, component: seq<int>) {
    && f.index == e.index && f.indices == e.indices
    && f.onStack == e.onStack - Top(e, x) && f.stack <= e.stack && Elements(f.stack) == f.onStack
    && f.components == e.components + [component]
    && Elements(component) == Top(e, x) && |component| == |Top(e, x)|
  }

  lemma PopFound(g: Graph, e: Search, f: Search, x: int, component: seq<int>)
    requires Stacked(e) && Found(g, e.components) && Classified(e) && Popped(e, f, x, component) && IsComponent(g, Top(e, x))
    ensures Found(g, f.components)
  {
    forall j | 0 <= j < |e.components| ensures Elements(e.components[j]) !! Elements(component) {
      forall u | u in Elements(e.components[j]) ensures u !in Elements(component) {
        assert InComponent(e.components, u);
      }
    }
  }

  lemma PopClassified(e: Search, f: Search, x: int, component: seq<int>)
    requires Stacked(e) && Classified(e) && Popped(e, f, x, component)
    ensures Classified(f)
  {
    forall u ensures InComponent(f.components, u) <==> u in f.indices && u !in f.onStack {
      if InComponent(e.components, u) {
        var k :| 0 <= k < |e.components| && u in e.components[k];
        assert f.components[k] == e.components[k];
      }
      if u in Top(e, x) {
        assert u in Elements(component);
        assert f.components[|e.components|] == component;
      }
      if InComponent(f.components, u) {
        var k :| 0 <= k < |f.components| && u in f.components[k];
        if k < |e.components| { assert e.components[k] == f.components[k]; } else { assert u in Elements(component); }
      }
    }
  }

  lemma PopAnchor(g: Graph, e: Search, f: Search, gray: set<int>, x: int, z: int)
    requires HasAnchor(g, e, gray + {x}, z) && f.indices == e.indices && f.onStack == e.onStack - Top(e, x)
    requires z in f.onStack && forall a :: a in gray ==> a !in Top(e, x)
    ensures HasAnchor(g, f, gray, z)
  {
    var a :| a in gray + {x} && Below(e, a, z) && Reach(g, z, a);
    assert a in gray && Below(f, a, z);
  }

  lemma PopAnchored(g: Graph, e: Search, f: Search, gray: set<int>, x: int, component: seq<int>)
    requires Anchored(g, e, gray + {x}) && Popped(e, f, x, component)
    requires forall a :: a in gray ==> a !in Top(e, x)
    ensures Anchored(g, f, gray)
  {
    forall z | z in f.onStack ensures HasAnchor(g, f, gray, z) {
      PopAnchor(g, e, f, gray, x, z);
    }
  }

  lemma PopInv(g: Graph, e: Search, f: Search, gray: set<int>, x: int, component: seq<int>)
    requires Inv(g, e, gray + {x}) && x in e.indices && Examined(g, e, x, e.indices[x])
    requires forall a :: a in gray ==> a !in Top(e, x) && Reach(g, a, x)
    requires Popped(e, f, x, component)
    ensures Inv(g, f, gray)
  {
    TopIsComponent(g, e, gray, x);
    PopFound(g, e, f, x, component);
    PopClassified(e, f, x, component);
    PopAnchored(g, e, f, gray, x, component);
    PopRest(g, e, f, gray, x, component);
  }

  lemma PopRest(g: Graph, e: Search, f: Search, gray: set<int>, x: int, component: seq<int>)
    requires Numbered(e) && Stacked(e) && Ordered(g, e) && Explored(g, e, gray + {x}) && x in e.indices
    requires Examined(g, e, x, e.indices[x]) && Popped(e, f, x, component)
    ensures Numbered(f) && Stacked(f) && Ordered(g, f) && Explored(g, f, gray)
  {
    forall u, v | Below(f, u, v) ensures Reach(g, u, v) {
      assert Below(e, u, v);
    }
  }
}
