/**
  The invariant of the iterative strongly-connected-components search, and one
  lemma for each kind of step it takes.

  A visited node is on the path being explored (it has a frame on the work
  stack), finished but still on the node stack, or done: its component has been
  taken off the node stack.
 */
module Tarjan {
  import opened Digraph

  /** A node being explored and the successors it has still to look at. */
  datatype Frame = Frame(node: Id, pending: seq<Id>)

  datatype Search = Search(
    index: map<Id, nat>, low: map<Id, nat>, counter: nat,
    stack: seq<Id>, onStack: set<Id>,
    work: seq<Frame>, components: seq<set<Id>>)

  function Min(a: nat, b: nat): nat { if a <= b then a else b }

  // ----- the invariant -----

  predicate SameIndex(s: Search, u: Id, v: Id) {
    u in s.index && v in s.index && s.index[u] == s.index[v]
  }

  ghost predicate Shape(adj: Adjacency, s: Search) {
    && s.index.Keys == s.low.Keys <= adj.Keys
    && (forall v :: v in s.index ==> s.index[v] < s.counter)
    && (forall u, v {:trigger SameIndex(s, u, v)} :: SameIndex(s, u, v) ==> u == v)
    && (forall v :: v in s.onStack <==> v in s.stack)
    && s.onStack <= s.index.Keys
    && (forall i, j :: 0 <= i < j < |s.stack| ==> s.index[s.stack[i]] < s.index[s.stack[j]])
  }

  /** The frames are for stacked nodes, deepest last, each pending only on its own successors. */
  ghost predicate Frames(adj: Adjacency, s: Search)
    requires Shape(adj, s)
  {
    && (forall i :: 0 <= i < |s.work| ==> s.work[i].node in s.onStack)
    && (forall i, x :: 0 <= i < |s.work| && x in s.work[i].pending ==> Edge(adj, s.work[i].node, x))
    && (forall i, j :: 0 <= i < j < |s.work| ==> s.index[s.work[i].node] < s.index[s.work[j].node])
  }

  ghost predicate Pending(s: Search, y: Id, u: Id) {
    exists i :: 0 <= i < |s.work| && s.work[i].node == y && u in s.work[i].pending
  }

  /** A stacked node's successors are visited, unless its frame has yet to look at them. */
  ghost predicate Explored(adj: Adjacency, s: Search) {
    forall y, u :: y in s.onStack && Edge(adj, y, u) && u !in s.index ==> Pending(s, y, u)
  }

  /** Nothing leads out of the done nodes. */
  ghost predicate DoneClosed(adj: Adjacency, s: Search) {
    forall x, u :: x in s.index && x !in s.onStack && Edge(adj, x, u) ==> u in s.index && u !in s.onStack
  }

  /** An earlier stacked node reaches every later one. */
  ghost predicate Downward(adj: Adjacency, s: Search) {
    forall a, b {:trigger NotAfter(s, a, b)} :: NotAfter(s, a, b) ==> Reach(adj, a, b)
  }

  /** Both are stacked, and a was visited no later than b. */
  predicate NotAfter(s: Search, a: Id, b: Id) {
    && a in s.onStack && b in s.onStack
    && a in s.index && b in s.index && s.index[a] <= s.index[b]
  }

  ghost predicate ReachesPath(adj: Adjacency, s: Search, y: Id)
    requires Shape(adj, s) && Frames(adj, s) && y in s.onStack
  {
    exists i :: 0 <= i < |s.work| && s.index[s.work[i].node] <= s.index[y] && Reach(adj, y, s.work[i].node)
  }

  /** A stacked node leads back to a node under exploration that is no later than itself. */
  ghost predicate Upward(adj: Adjacency, s: Search)
    requires Shape(adj, s) && Frames(adj, s)
  {
    forall y {:trigger ReachesPath(adj, s, y)} :: y in s.onStack ==> ReachesPath(adj, s, y)
  }

  /** y was visited while frame i was the deepest one below it. */
  ghost predicate Owned(adj: Adjacency, s: Search, i: nat, y: Id)
    requires Shape(adj, s) && Frames(adj, s) && i < |s.work|
  {
    && y in s.onStack
    && s.index[s.work[i].node] <= s.index[y]
    && (i + 1 < |s.work| ==> s.index[y] < s.index[s.work[i + 1].node])
  }

  /** An edge from y to u that frame i has followed. */
  ghost predicate Followed(adj: Adjacency, s: Search, i: nat, y: Id, u: Id)
    requires Shape(adj, s) && Frames(adj, s) && i < |s.work|
  {
    && Owned(adj, s, i, y) && Edge(adj, y, u) && u in s.onStack
    && !(y == s.work[i].node && u in s.work[i].pending)
  }

  /** No edge already followed from a frame's own nodes lands below the frame's low link. */
  ghost predicate LowBounds(adj: Adjacency, s: Search)
    requires Shape(adj, s) && Frames(adj, s)
  {
    forall i, y, u :: 0 <= i < |s.work| && Followed(adj, s, i, y, u) ==> s.low[s.work[i].node] <= s.index[u]
  }

  ghost predicate LowAttained(adj: Adjacency, s: Search, v: Id)
    requires Shape(adj, s) && v in s.low
  {
    exists u :: u in s.onStack && s.index[u] == s.low[v] && Reach(adj, v, u)
  }

  /** A frame's low link is the index of a stacked node that the frame's node reaches. */
  ghost predicate LowWitnessed(adj: Adjacency, s: Search)
    requires Shape(adj, s) && Frames(adj, s)
  {
    forall i :: 0 <= i < |s.work| ==>
      s.low[s.work[i].node] <= s.index[s.work[i].node] && LowAttained(adj, s, s.work[i].node)
  }

  ghost predicate Listed(components: seq<set<Id>>, x: Id) {
    exists k :: 0 <= k < |components| && x in components[k]
  }

  /** The list holds exactly the components of the done nodes that lie on cycles. */
  ghost predicate Collected(adj: Adjacency, s: Search) {
    && (forall k :: 0 <= k < |s.components| ==> IsComponent(adj, s.components[k]) && s.components[k] != {})
    && (forall k, x :: 0 <= k < |s.components| && x in s.components[k] ==> x in s.index && x !in s.onStack)
    && (forall x :: x in s.index && x !in s.onStack ==> (Listed(s.components, x) <==> OnCycle(adj, x)))
    && (forall i, j :: 0 <= i < j < |s.components| ==> s.components[i] !! s.components[j])
  }

  ghost predicate Inv(adj: Adjacency, s: Search) {
    && Closed(adj)
    && Shape(adj, s)
    && Frames(adj, s)
    && Explored(adj, s)
    && DoneClosed(adj, s)
    && Downward(adj, s)
    && Upward(adj, s)
    && LowBounds(adj, s)
    && LowWitnessed(adj, s)
    && Collected(adj, s)
  }

  // ----- consequences -----

  lemma FrameReachesTop(adj: Adjacency, s: Search, y: Id, i: nat)
    requires Shape(adj, s) && Frames(adj, s) && Downward(adj, s)
    requires i < |s.work| && Reach(adj, y, s.work[i].node)
    ensures Reach(adj, y, s.work[|s.work| - 1].node)
  {
    var top := s.work[|s.work| - 1].node;
    assert NotAfter(s, s.work[i].node, top);
    ReachTrans(adj, y, s.work[i].node, top);
  }

  /** Every stacked node reaches the node on top of the work stack. */
  lemma ReachesTop(adj: Adjacency, s: Search, y: Id)
    requires Shape(adj, s) && Frames(adj, s) && Downward(adj, s) && y in s.onStack && ReachesPath(adj, s, y)
    ensures s.work != [] && Reach(adj, y, s.work[|s.work| - 1].node)
  {
    var i :| 0 <= i < |s.work| && s.index[s.work[i].node] <= s.index[y] && Reach(adj, y, s.work[i].node);
    FrameReachesTop(adj, s, y, i);
  }

  lemma NoWorkNoStack(adj: Adjacency, s: Search)
    requires Inv(adj, s) && s.work == []
    ensures s.onStack == {}
  {
    assert forall y :: y in s.onStack ==> ReachesPath(adj, s, y);
  }

  // ----- entering a node -----

  /** Visits v, reached by the next pending edge of the top frame, or as a new root. */
  ghost function Enter(adj: Adjacency, s: Search, v: Id): Search
    requires v in adj
  {
    s.(index := s.index[v := s.counter], low := s.low[v := s.counter], counter := s.counter + 1,
       stack := s.stack + [v], onStack := s.onStack + {v}, work := s.work + [Frame(v, adj[v])])
  }

  /** Takes the last pending successor off frame k. */
  ghost function Next(s: Search, k: nat): Search
    requires k < |s.work| && s.work[k].pending != []
  {
    s.(work := s.work[k := s.work[k].(pending := s.work[k].pending[..|s.work[k].pending| - 1])])
  }

  ghost function NextNode(s: Search, k: nat): Id
    requires k < |s.work| && s.work[k].pending != []
  {
    s.work[k].pending[|s.work[k].pending| - 1]
  }

  /** A new root, or the next pending successor of the top frame. */
  ghost predicate CanEnter(adj: Adjacency, s: Search, v: Id) {
    && v in adj && v !in s.index
    && (s.work != [] ==> Edge(adj, s.work[|s.work| - 1].node, v))
  }

  lemma EnterShape(adj: Adjacency, s: Search, v: Id)
    requires Shape(adj, s) && CanEnter(adj, s, v)
    ensures Shape(adj, Enter(adj, s, v))
  {
    var t := Enter(adj, s, v);
    forall a, b | SameIndex(t, a, b) ensures a == b {
      if a != v && b != v { assert SameIndex(s, a, b); }
    }
  }

  lemma EnterFrames(adj: Adjacency, s: Search, v: Id)
    requires Shape(adj, s) && Frames(adj, s) && CanEnter(adj, s, v)
    requires Shape(adj, Enter(adj, s, v))
    ensures Frames(adj, Enter(adj, s, v))
  {
  }

  lemma EnterExplored(adj: Adjacency, s: Search, v: Id)
    requires Closed(adj) && Shape(adj, s) && Frames(adj, s) && CanEnter(adj, s, v)
    requires Explored(adj, s) && DoneClosed(adj, s) && Collected(adj, s)
    ensures var t := Enter(adj, s, v); Explored(adj, t) && DoneClosed(adj, t) && Collected(adj, t)
  {
    var t := Enter(adj, s, v);
    forall y, u | y in t.onStack && Edge(adj, y, u) && u !in t.index ensures Pending(t, y, u) {
      if y == v {
        assert t.work[|s.work|].node == y;
      } else {
        assert Pending(s, y, u);
        var i :| 0 <= i < |s.work| && s.work[i].node == y && u in s.work[i].pending;
        assert t.work[i] == s.work[i];
      }
    }
  }

  lemma EnterDownward(adj: Adjacency, s: Search, v: Id)
    requires Shape(adj, s) && Frames(adj, s) && CanEnter(adj, s, v) && Downward(adj, s) && Upward(adj, s)
    ensures Downward(adj, Enter(adj, s, v))
  {
    var t := Enter(adj, s, v);
    ReachRefl(adj, v);
    forall a, b | NotAfter(t, a, b) ensures Reach(adj, a, b) {
      if b != v {
        assert a != v;
        assert NotAfter(s, a, b);
      } else if a != v {
        assert ReachesPath(adj, s, a);
        ReachesTop(adj, s, a);
        var top := s.work[|s.work| - 1].node;
        ReachEdge(adj, top, v);
        ReachTrans(adj, a, top, v);
      }
    }
  }

  lemma EnterUpward(adj: Adjacency, s: Search, v: Id)
    requires Shape(adj, s) && Frames(adj, s) && CanEnter(adj, s, v) && Upward(adj, s)
    requires var t := Enter(adj, s, v); Shape(adj, t) && Frames(adj, t)
    ensures Upward(adj, Enter(adj, s, v))
  {
    var t := Enter(adj, s, v);
    forall y | y in t.onStack ensures ReachesPath(adj, t, y) {
      if y != v { assert ReachesPath(adj, s, y); }
      EnterUpwardOne(adj, s, v, y);
    }
  }

  lemma EnterUpwardOne(adj: Adjacency, s: Search, v: Id, y: Id)
    requires Shape(adj, s) && Frames(adj, s) && CanEnter(adj, s, v)
    requires y == v || (y in s.onStack && ReachesPath(adj, s, y))
    requires var t := Enter(adj, s, v); Shape(adj, t) && Frames(adj, t)
    ensures ReachesPath(adj, Enter(adj, s, v), y)
  {
    var t := Enter(adj, s, v);
    if y == v {
      ReachRefl(adj, v);
      assert t.work[|s.work|].node == v;
    } else {
      SamePath(adj, s, t, y, |s.work|);
    }
  }

  /** A path back to the frames survives while the first n frames and the indices do. */
  lemma SamePath(adj: Adjacency, s: Search, t: Search, y: Id, n: nat)
    requires Shape(adj, s) && Frames(adj, s) && Shape(adj, t) && Frames(adj, t) && y in s.onStack && y in t.onStack
    requires n <= |s.work| && n <= |t.work| && forall i :: 0 <= i < n ==> s.work[i].node == t.work[i].node
    requires forall x :: x in s.index ==> x in t.index && t.index[x] == s.index[x]
    requires exists i :: 0 <= i < n && s.index[s.work[i].node] <= s.index[y] && Reach(adj, y, s.work[i].node)
    ensures ReachesPath(adj, t, y)
  {
    var i :| 0 <= i < n && s.index[s.work[i].node] <= s.index[y] && Reach(adj, y, s.work[i].node);
    assert t.index[t.work[i].node] <= t.index[y] && Reach(adj, y, t.work[i].node);
  }

  lemma EnterLowBounds(adj: Adjacency, s: Search, v: Id)
    requires Shape(adj, s) && Frames(adj, s) && CanEnter(adj, s, v) && LowBounds(adj, s) && LowWitnessed(adj, s)
    requires var t := Enter(adj, s, v); Shape(adj, t) && Frames(adj, t)
    ensures LowBounds(adj, Enter(adj, s, v))
  {
    var t := Enter(adj, s, v);
    forall i, y, u | 0 <= i < |t.work| && Followed(adj, t, i, y, u)
      ensures t.low[t.work[i].node] <= t.index[u]
    {
      if i < |s.work| {
        EnterLowOld(adj, s, v, i, y, u);
      }
    }
  }

  lemma EnterLowOld(adj: Adjacency, s: Search, v: Id, i: nat, y: Id, u: Id)
    requires Shape(adj, s) && Frames(adj, s) && CanEnter(adj, s, v) && LowBounds(adj, s) && LowWitnessed(adj, s)
    requires var t := Enter(adj, s, v); Shape(adj, t) && Frames(adj, t) && i < |s.work| && Followed(adj, t, i, y, u)
    ensures var t := Enter(adj, s, v); t.low[t.work[i].node] <= t.index[u]
  {
    var t := Enter(adj, s, v);
    assert t.work[i] == s.work[i];
    assert y != v;
    assert Owned(adj, s, i, y);
    if u != v {
      assert Followed(adj, s, i, y, u);
    }
  }

  lemma EnterWitness(adj: Adjacency, s: Search, v: Id)
    requires Shape(adj, s) && Frames(adj, s) && CanEnter(adj, s, v) && LowWitnessed(adj, s)
    requires var t := Enter(adj, s, v); Shape(adj, t) && Frames(adj, t)
    ensures LowWitnessed(adj, Enter(adj, s, v))
  {
    var t := Enter(adj, s, v);
    forall i | 0 <= i < |t.work|
      ensures t.low[t.work[i].node] <= t.index[t.work[i].node] && LowAttained(adj, t, t.work[i].node)
    {
      if i < |s.work| {
        assert LowAttained(adj, s, s.work[i].node);
      } else {
        ReachRefl(adj, v);
      }
    }
  }

  lemma EnterKeepsInv(adj: Adjacency, s: Search, v: Id)
    requires Inv(adj, s) && CanEnter(adj, s, v)
    ensures Inv(adj, Enter(adj, s, v))
  {
    EnterShape(adj, s, v);
    EnterFrames(adj, s, v);
    EnterExplored(adj, s, v);
    EnterDownward(adj, s, v);
    EnterUpward(adj, s, v);
    EnterLowBounds(adj, s, v);
    EnterWitness(adj, s, v);
  }

  // ----- looking at a visited successor -----

  /** Drops the next pending edge of frame k, setting the frame's low link to n. */
  ghost function Look(s: Search, k: nat, n: nat): Search
    requires k < |s.work| && s.work[k].pending != []
  {
    Next(s, k).(low := s.low[s.work[k].node := n])
  }

  ghost predicate CanLook(adj: Adjacency, s: Search, k: nat, n: nat)
    requires Shape(adj, s) && Frames(adj, s)
  {
    && k < |s.work| && s.work[k].pending != []
    && NextNode(s, k) in s.index
    && n == if NextNode(s, k) in s.onStack
            then Min(s.low[s.work[k].node], s.index[NextNode(s, k)])
            else s.low[s.work[k].node]
  }

  lemma NextFrames(s: Search, k: nat)
    requires k < |s.work| && s.work[k].pending != []
    ensures var t := Next(s, k);
            && |t.work| == |s.work|
            && (forall i :: 0 <= i < |s.work| ==> t.work[i].node == s.work[i].node)
            && (forall i, x :: 0 <= i < |s.work| && x in t.work[i].pending ==> x in s.work[i].pending)
            && (forall i, x :: 0 <= i < |s.work| && x in s.work[i].pending && x !in t.work[i].pending
                  ==> i == k && x == NextNode(s, k))
  {
    assert s.work[k].pending == s.work[k].pending[..|s.work[k].pending| - 1] + [NextNode(s, k)];
  }

  lemma LookFrames(adj: Adjacency, s: Search, k: nat, n: nat)
    requires Shape(adj, s) && Frames(adj, s) && CanLook(adj, s, k, n)
    ensures var t := Look(s, k, n); Shape(adj, t) && Frames(adj, t)
  {
    NextFrames(s, k);
    var t := Look(s, k, n);
    forall a, b | SameIndex(t, a, b) ensures a == b {
      assert SameIndex(s, a, b);
    }
  }

  lemma LookExplored(adj: Adjacency, s: Search, k: nat, n: nat)
    requires Shape(adj, s) && Frames(adj, s) && CanLook(adj, s, k, n) && Explored(adj, s)
    ensures Explored(adj, Look(s, k, n))
  {
    NextFrames(s, k);
    var t := Look(s, k, n);
    forall y, u | y in t.onStack && Edge(adj, y, u) && u !in t.index ensures Pending(t, y, u) {
      assert Pending(s, y, u);
      var i :| 0 <= i < |s.work| && s.work[i].node == y && u in s.work[i].pending;
      assert t.work[i].node == y && u in t.work[i].pending;
    }
  }

  lemma LookDownward(adj: Adjacency, s: Search, k: nat, n: nat)
    requires Shape(adj, s) && Frames(adj, s) && CanLook(adj, s, k, n) && Downward(adj, s)
    ensures Downward(adj, Look(s, k, n))
  {
    var t := Look(s, k, n);
    forall a, b | NotAfter(t, a, b) ensures Reach(adj, a, b) {
      assert NotAfter(s, a, b);
    }
  }

  lemma LookUpward(adj: Adjacency, s: Search, k: nat, n: nat)
    requires Shape(adj, s) && Frames(adj, s) && CanLook(adj, s, k, n) && Upward(adj, s)
    requires var t := Look(s, k, n); Shape(adj, t) && Frames(adj, t)
    ensures Upward(adj, Look(s, k, n))
  {
    NextFrames(s, k);
    var t := Look(s, k, n);
    forall y | y in t.onStack ensures ReachesPath(adj, t, y) {
      assert ReachesPath(adj, s, y);
      SamePath(adj, s, t, y, |s.work|);
    }
  }

  lemma SameDone(adj: Adjacency, s: Search, t: Search)
    requires s.index == t.index && s.onStack == t.onStack && s.components == t.components
    requires DoneClosed(adj, s) && Collected(adj, s)
    ensures DoneClosed(adj, t) && Collected(adj, t)
  {
  }

  lemma LookLowOne(adj: Adjacency, s: Search, k: nat, n: nat, i: nat, y: Id, u: Id)
    requires Shape(adj, s) && Frames(adj, s) && CanLook(adj, s, k, n) && LowBounds(adj, s) && LowWitnessed(adj, s)
    requires var t := Look(s, k, n); Shape(adj, t) && Frames(adj, t) && i < |t.work| && Followed(adj, t, i, y, u)
    ensures var t := Look(s, k, n); t.low[t.work[i].node] <= t.index[u]
  {
    NextFrames(s, k);
    var t := Look(s, k, n);
    assert Owned(adj, s, i, y);
    assert i < k || k < i ==> s.work[i].node != s.work[k].node;
    if !(i == k && y == s.work[k].node && u == NextNode(s, k)) {
      assert Followed(adj, s, i, y, u);
    }
  }

  lemma LookLow(adj: Adjacency, s: Search, k: nat, n: nat)
    requires Shape(adj, s) && Frames(adj, s) && CanLook(adj, s, k, n) && LowBounds(adj, s) && LowWitnessed(adj, s)
    requires var t := Look(s, k, n); Shape(adj, t) && Frames(adj, t)
    ensures LowBounds(adj, Look(s, k, n))
  {
    var t := Look(s, k, n);
    forall i, y, u | 0 <= i < |t.work| && Followed(adj, t, i, y, u)
      ensures t.low[t.work[i].node] <= t.index[u]
    {
      LookLowOne(adj, s, k, n, i, y, u);
    }
  }

  lemma LookWitness(adj: Adjacency, s: Search, k: nat, n: nat)
    requires Shape(adj, s) && Frames(adj, s) && CanLook(adj, s, k, n) && LowWitnessed(adj, s)
    requires var t := Look(s, k, n); Shape(adj, t) && Frames(adj, t)
    ensures LowWitnessed(adj, Look(s, k, n))
  {
    NextFrames(s, k);
    var t := Look(s, k, n);
    forall i | 0 <= i < |t.work|
      ensures t.low[t.work[i].node] <= t.index[t.work[i].node] && LowAttained(adj, t, t.work[i].node)
    {
      assert LowAttained(adj, s, s.work[i].node);
      if i == k {
        ReachEdge(adj, s.work[k].node, NextNode(s, k));
      } else {
        assert i < k || k < i;
        assert s.work[i].node != s.work[k].node;
      }
    }
  }

  lemma LookKeepsInv(adj: Adjacency, s: Search, k: nat, n: nat)
    requires Inv(adj, s) && CanLook(adj, s, k, n)
    ensures Inv(adj, Look(s, k, n))
  {
    LookFrames(adj, s, k, n);
    LookExplored(adj, s, k, n);
    LookDownward(adj, s, k, n);
    LookUpward(adj, s, k, n);
    LookLow(adj, s, k, n);
    LookWitness(adj, s, k, n);
    SameDone(adj, s, Look(s, k, n));
  }

  // ----- finishing a node below its component's root -----

  /** Takes the top frame off, passing its low link to the frame below. */
  ghost function Return(s: Search): Search
    requires |s.work| >= 2
    requires s.work[|s.work| - 1].node in s.low && s.work[|s.work| - 2].node in s.low
  {
    var v, p := s.work[|s.work| - 1].node, s.work[|s.work| - 2].node;
    s.(work := s.work[..|s.work| - 1], low := s.low[p := Min(s.low[p], s.low[v])])
  }

  ghost predicate CanReturn(adj: Adjacency, s: Search)
    requires Shape(adj, s) && Frames(adj, s)
  {
    && s.work != [] && s.work[|s.work| - 1].pending == []
    && s.low[s.work[|s.work| - 1].node] < s.index[s.work[|s.work| - 1].node]
  }

  /** The top node reaches a frame strictly below its own. */
  lemma TopReachesLower(adj: Adjacency, s: Search) returns (i: nat)
    requires Shape(adj, s) && Frames(adj, s) && Upward(adj, s) && CanReturn(adj, s)
    requires LowAttained(adj, s, s.work[|s.work| - 1].node)
    ensures i < |s.work| - 1 && Reach(adj, s.work[|s.work| - 1].node, s.work[i].node)
  {
    var v := s.work[|s.work| - 1].node;
    var u :| u in s.onStack && s.index[u] == s.low[v] && Reach(adj, v, u);
    assert ReachesPath(adj, s, u);
    i :| 0 <= i < |s.work| && s.index[s.work[i].node] <= s.index[u] && Reach(adj, u, s.work[i].node);
    ReachTrans(adj, v, u, s.work[i].node);
  }

  lemma ReturnFrames(adj: Adjacency, s: Search)
    requires Shape(adj, s) && Frames(adj, s) && |s.work| >= 2
    ensures var t := Return(s); Shape(adj, t) && Frames(adj, t)
  {
    var t := Return(s);
    forall a, b | SameIndex(t, a, b) ensures a == b {
      assert SameIndex(s, a, b);
    }
  }

  lemma ReturnExplored(adj: Adjacency, s: Search)
    requires Shape(adj, s) && Frames(adj, s) && |s.work| >= 2 && CanReturn(adj, s) && Explored(adj, s)
    ensures Explored(adj, Return(s))
  {
    var t := Return(s);
    forall y, u | y in t.onStack && Edge(adj, y, u) && u !in t.index ensures Pending(t, y, u) {
      assert Pending(s, y, u);
      var i :| 0 <= i < |s.work| && s.work[i].node == y && u in s.work[i].pending;
      assert t.work[i] == s.work[i];
    }
  }

  lemma ReturnDownward(adj: Adjacency, s: Search)
    requires Shape(adj, s) && Frames(adj, s) && |s.work| >= 2 && Downward(adj, s)
    ensures Downward(adj, Return(s))
  {
    var t := Return(s);
    forall a, b | NotAfter(t, a, b) ensures Reach(adj, a, b) {
      assert NotAfter(s, a, b);
    }
  }

  lemma ReturnUpwardOne(adj: Adjacency, s: Search, y: Id, k: nat)
    requires Shape(adj, s) && Frames(adj, s) && |s.work| >= 2 && CanReturn(adj, s)
    requires y in s.onStack && ReachesPath(adj, s, y)
    requires k < |s.work| - 1 && Reach(adj, s.work[|s.work| - 1].node, s.work[k].node)
    requires var t := Return(s); Shape(adj, t) && Frames(adj, t)
    ensures ReachesPath(adj, Return(s), y)
  {
    var t, top := Return(s), |s.work| - 1;
    var i :| 0 <= i < |s.work| && s.index[s.work[i].node] <= s.index[y] && Reach(adj, y, s.work[i].node);
    var j := if i < top then i else k;
    if i == top {
      ReachTrans(adj, y, s.work[top].node, s.work[k].node);
      assert s.index[s.work[k].node] < s.index[s.work[top].node];
    }
    assert t.work[j] == s.work[j];
    assert t.index[t.work[j].node] <= t.index[y] && Reach(adj, y, t.work[j].node);
  }

  lemma ReturnUpward(adj: Adjacency, s: Search)
    requires Shape(adj, s) && Frames(adj, s) && |s.work| >= 2 && CanReturn(adj, s)
    requires Upward(adj, s) && LowWitnessed(adj, s)
    requires var t := Return(s); Shape(adj, t) && Frames(adj, t)
    ensures Upward(adj, Return(s))
  {
    var t := Return(s);
    var k := TopReachesLower(adj, s);
    forall y | y in t.onStack ensures ReachesPath(adj, t, y) {
      assert ReachesPath(adj, s, y);
      ReturnUpwardOne(adj, s, y, k);
    }
  }

  lemma ReturnLowOne(adj: Adjacency, s: Search, i: nat, y: Id, u: Id)
    requires Shape(adj, s) && Frames(adj, s) && |s.work| >= 2 && CanReturn(adj, s) && LowBounds(adj, s)
    requires var t := Return(s); Shape(adj, t) && Frames(adj, t) && i < |t.work| && Followed(adj, t, i, y, u)
    ensures var t := Return(s); t.low[t.work[i].node] <= t.index[u]
  {
    var t := Return(s);
    var top := |s.work| - 1;
    assert t.work[i] == s.work[i];
    assert i < top - 1 ==> s.work[i].node != s.work[top - 1].node;
    if i == top - 1 && s.index[s.work[top].node] <= s.index[y] {
      assert Owned(adj, s, top, y);
      assert Followed(adj, s, top, y, u);
    } else {
      assert Owned(adj, s, i, y);
      assert Followed(adj, s, i, y, u);
    }
  }

  lemma ReturnLow(adj: Adjacency, s: Search)
    requires Shape(adj, s) && Frames(adj, s) && |s.work| >= 2 && CanReturn(adj, s) && LowBounds(adj, s)
    requires var t := Return(s); Shape(adj, t) && Frames(adj, t)
    ensures LowBounds(adj, Return(s))
  {
    var t := Return(s);
    forall i, y, u | 0 <= i < |t.work| && Followed(adj, t, i, y, u)
      ensures t.low[t.work[i].node] <= t.index[u]
    {
      ReturnLowOne(adj, s, i, y, u);
    }
  }

  /** A node that leads to v attains v's low link too. */
  lemma LowThrough(adj: Adjacency, s: Search, p: Id, v: Id)
    requires Shape(adj, s) && Downward(adj, s) && NotAfter(s, p, v) && LowAttained(adj, s, v)
    ensures exists u :: u in s.onStack && s.index[u] == s.low[v] && Reach(adj, p, u)
  {
    var u :| u in s.onStack && s.index[u] == s.low[v] && Reach(adj, v, u);
    ReachTrans(adj, p, v, u);
  }

  lemma ReturnWitnessOne(adj: Adjacency, s: Search, i: nat)
    requires Shape(adj, s) && Frames(adj, s) && |s.work| >= 2 && i < |s.work| - 1
    requires Downward(adj, s) && LowWitnessed(adj, s)
    requires var t := Return(s); Shape(adj, t) && Frames(adj, t)
    ensures var t := Return(s);
            t.low[t.work[i].node] <= t.index[t.work[i].node] && LowAttained(adj, t, t.work[i].node)
  {
    var t, top := Return(s), |s.work| - 1;
    var v, p := s.work[top].node, s.work[top - 1].node;
    assert t.work[i] == s.work[i];
    assert LowAttained(adj, s, s.work[i].node);
    if i == top - 1 {
      assert NotAfter(s, p, v);
      LowThrough(adj, s, p, v);
    } else {
      assert s.work[i].node != p;
    }
  }

  lemma ReturnKeepsInv(adj: Adjacency, s: Search)
    requires Inv(adj, s) && CanReturn(adj, s)
    ensures |s.work| >= 2 && Inv(adj, Return(s))
  {
    var k := TopReachesLower(adj, s);
    var t := Return(s);
    ReturnFrames(adj, s);
    ReturnExplored(adj, s);
    ReturnDownward(adj, s);
    ReturnUpward(adj, s);
    ReturnLow(adj, s);
    forall i | 0 <= i < |t.work|
      ensures t.low[t.work[i].node] <= t.index[t.work[i].node] && LowAttained(adj, t, t.work[i].node)
    {
      ReturnWitnessOne(adj, s, i);
    }
    SameDone(adj, s, t);
  }

  // ----- closing a component -----

  /** The nodes visited no earlier than v that are still stacked. */
  ghost function From(s: Search, v: Id): set<Id> {
    set y | y in s.onStack && NotAfter(s, v, y)
  }

  ghost predicate CanClose(adj: Adjacency, s: Search)
    requires Shape(adj, s) && Frames(adj, s)
  {
    && s.work != [] && s.work[|s.work| - 1].pending == []
    && s.low[s.work[|s.work| - 1].node] == s.index[s.work[|s.work| - 1].node]
  }

  /** Takes the top frame and its component off both stacks, listing it if it is a cycle. */
  ghost function Close(adj: Adjacency, s: Search, rest: seq<Id>): Search
    requires s.work != []
  {
    var v := s.work[|s.work| - 1].node;
    s.(work := s.work[..|s.work| - 1], stack := rest, onStack := s.onStack - From(s, v),
       components := if IsCycle(adj, From(s, v), v) then s.components + [From(s, v)] else s.components)
  }

  predicate IsCycle(adj: Adjacency, c: set<Id>, v: Id) {
    |c| > 1 || Edge(adj, v, v)
  }

  /** Of the frames, only the finished top one belongs to a closing node. */
  lemma NothingPending(adj: Adjacency, s: Search, y: Id, u: Id)
    requires Shape(adj, s) && Frames(adj, s) && CanClose(adj, s)
    requires y in From(s, s.work[|s.work| - 1].node)
    ensures !Pending(s, y, u)
  {
    var top := |s.work| - 1;
    assert NotAfter(s, s.work[top].node, y);
    forall i | 0 <= i < top ensures s.work[i].node != y {
      assert s.index[s.work[i].node] < s.index[s.work[top].node];
    }
  }

  /** Once a root is finished, edges from its nodes stay inside or lead to done nodes. */
  lemma ClosedBelow(adj: Adjacency, s: Search, y: Id, u: Id)
    requires Shape(adj, s) && Frames(adj, s) && CanClose(adj, s) && Explored(adj, s) && LowBounds(adj, s)
    requires var v := s.work[|s.work| - 1].node; y in From(s, v)
    requires Edge(adj, y, u)
    ensures var v := s.work[|s.work| - 1].node; u in s.index && (u in s.onStack ==> u in From(s, v))
  {
    var top := |s.work| - 1;
    var v := s.work[top].node;
    NothingPending(adj, s, y, u);
    if u in s.onStack {
      assert Owned(adj, s, top, y);
      assert Followed(adj, s, top, y, u);
    }
  }

  /** The closed nodes and the done nodes together have no way out. */
  lemma NoWayOut(adj: Adjacency, s: Search, x: Id, u: Id)
    requires Shape(adj, s) && Frames(adj, s) && CanClose(adj, s) && Explored(adj, s) && LowBounds(adj, s)
    requires DoneClosed(adj, s)
    requires var v := s.work[|s.work| - 1].node; var done := s.index.Keys - s.onStack; x in done + From(s, v)
    requires Edge(adj, x, u)
    ensures var v := s.work[|s.work| - 1].node; var done := s.index.Keys - s.onStack; u in done + From(s, v)
  {
    if x in s.onStack {
      ClosedBelow(adj, s, x, u);
    }
  }

  /** What is taken off the stack is exactly the component of the finished node. */
  lemma ClosesComponent(adj: Adjacency, s: Search, x: Id)
    requires Inv(adj, s) && CanClose(adj, s)
    ensures var v := s.work[|s.work| - 1].node; x in From(s, v) <==> Mutual(adj, v, x)
  {
    var v := s.work[|s.work| - 1].node;
    var done := s.index.Keys - s.onStack;
    if x in From(s, v) {
      assert NotAfter(s, v, x);
      assert ReachesPath(adj, s, x);
      ReachesTop(adj, s, x);
    }
    if Mutual(adj, v, x) {
      forall y, u | y in done + From(s, v) && Edge(adj, y, u) ensures u in done + From(s, v) {
        NoWayOut(adj, s, y, u);
      }
      ReachStaysInside(adj, done + From(s, v), v, x);
      if x in done {
        ReachStaysInside(adj, done, x, v);
      }
    }
  }

  ghost predicate IsRest(s: Search, rest: seq<Id>) {
    exists k :: 0 <= k < |s.stack| && s.work != [] && s.stack[k] == s.work[|s.work| - 1].node && rest == s.stack[..k]
  }

  /** Cutting the node stack at v leaves exactly the nodes visited before v. */
  lemma RestMembers(adj: Adjacency, s: Search, v: Id, k: nat, y: Id)
    requires Shape(adj, s) && k < |s.stack| && s.stack[k] == v
    ensures y in s.onStack - From(s, v) <==> y in s.stack[..k]
  {
    if y in s.stack {
      var j :| 0 <= j < |s.stack| && s.stack[j] == y;
      assert j < k <==> s.index[y] < s.index[v];
      assert NotAfter(s, v, y) <==> k <= j;
      if j < k { assert s.stack[..k][j] == y; }
    }
    if y in s.stack[..k] {
      var j :| 0 <= j < k && s.stack[..k][j] == y;
      assert s.stack[j] == y && s.index[y] < s.index[v];
      assert !NotAfter(s, v, y);
    }
  }

  lemma CloseShape(adj: Adjacency, s: Search, rest: seq<Id>)
    requires Shape(adj, s) && s.work != [] && IsRest(s, rest)
    ensures Shape(adj, Close(adj, s, rest))
  {
    var v := s.work[|s.work| - 1].node;
    var k :| 0 <= k < |s.stack| && s.stack[k] == v && rest == s.stack[..k];
    var t := Close(adj, s, rest);
    forall y ensures y in t.onStack <==> y in rest {
      RestMembers(adj, s, v, k, y);
    }
    forall a, b | SameIndex(t, a, b) ensures a == b {
      assert SameIndex(s, a, b);
    }
  }

  lemma CloseFrames(adj: Adjacency, s: Search, rest: seq<Id>)
    requires Shape(adj, s) && Frames(adj, s) && s.work != [] && Shape(adj, Close(adj, s, rest))
    ensures Frames(adj, Close(adj, s, rest))
  {
    var v := s.work[|s.work| - 1].node;
    var t := Close(adj, s, rest);
    forall i | 0 <= i < |t.work| ensures t.work[i].node in t.onStack {
      assert t.work[i] == s.work[i];
      assert !NotAfter(s, v, t.work[i].node);
    }
  }

  lemma CloseExplored(adj: Adjacency, s: Search, rest: seq<Id>)
    requires Shape(adj, s) && Frames(adj, s) && CanClose(adj, s) && Explored(adj, s)
    ensures Explored(adj, Close(adj, s, rest))
  {
    var t := Close(adj, s, rest);
    forall y, u | y in t.onStack && Edge(adj, y, u) && u !in t.index ensures Pending(t, y, u) {
      assert Pending(s, y, u);
      var i :| 0 <= i < |s.work| && s.work[i].node == y && u in s.work[i].pending;
      assert t.work[i] == s.work[i];
    }
  }

  lemma CloseReach(adj: Adjacency, s: Search, rest: seq<Id>)
    requires Shape(adj, s) && Frames(adj, s) && CanClose(adj, s) && Downward(adj, s) && Upward(adj, s)
    requires var t := Close(adj, s, rest); Shape(adj, t) && Frames(adj, t)
    ensures var t := Close(adj, s, rest); Downward(adj, t) && Upward(adj, t)
  {
    var t := Close(adj, s, rest);
    forall a, b | NotAfter(t, a, b) ensures Reach(adj, a, b) {
      assert NotAfter(s, a, b);
    }
    forall y | y in t.onStack ensures ReachesPath(adj, t, y) {
      assert ReachesPath(adj, s, y);
      CloseUpwardOne(adj, s, rest, y);
    }
  }

  lemma CloseUpwardOne(adj: Adjacency, s: Search, rest: seq<Id>, y: Id)
    requires Shape(adj, s) && Frames(adj, s) && CanClose(adj, s)
    requires y in s.onStack && ReachesPath(adj, s, y)
    requires var t := Close(adj, s, rest); Shape(adj, t) && Frames(adj, t) && y in t.onStack
    ensures ReachesPath(adj, Close(adj, s, rest), y)
  {
    var t, v := Close(adj, s, rest), s.work[|s.work| - 1].node;
    var i :| 0 <= i < |s.work| && s.index[s.work[i].node] <= s.index[y] && Reach(adj, y, s.work[i].node);
    assert !NotAfter(s, v, y);
    assert t.work[i] == s.work[i];
  }

  lemma CloseLowOne(adj: Adjacency, s: Search, rest: seq<Id>, i: nat, y: Id, u: Id)
    requires Shape(adj, s) && Frames(adj, s) && CanClose(adj, s) && LowBounds(adj, s)
    requires var t := Close(adj, s, rest);
             Shape(adj, t) && Frames(adj, t) && i < |t.work| && Followed(adj, t, i, y, u)
    ensures var t := Close(adj, s, rest); t.low[t.work[i].node] <= t.index[u]
  {
    var t, v := Close(adj, s, rest), s.work[|s.work| - 1].node;
    assert t.work[i] == s.work[i];
    assert !NotAfter(s, v, y);
    assert Owned(adj, s, i, y);
    assert Followed(adj, s, i, y, u);
  }

  lemma CloseWitnessOne(adj: Adjacency, s: Search, rest: seq<Id>, i: nat)
    requires Shape(adj, s) && Frames(adj, s) && CanClose(adj, s) && i < |s.work| - 1
    requires s.low[s.work[i].node] <= s.index[s.work[i].node] && LowAttained(adj, s, s.work[i].node)
    requires var t := Close(adj, s, rest); Shape(adj, t) && Frames(adj, t)
    ensures var t := Close(adj, s, rest);
            t.low[t.work[i].node] <= t.index[t.work[i].node] && LowAttained(adj, t, t.work[i].node)
  {
    var t, v := Close(adj, s, rest), s.work[|s.work| - 1].node;
    var u :| u in s.onStack && s.index[u] == s.low[s.work[i].node] && Reach(adj, s.work[i].node, u);
    assert !NotAfter(s, v, u);
    assert t.work[i] == s.work[i];
  }

  lemma CloseLow(adj: Adjacency, s: Search, rest: seq<Id>)
    requires Shape(adj, s) && Frames(adj, s) && CanClose(adj, s) && LowBounds(adj, s) && LowWitnessed(adj, s)
    requires var t := Close(adj, s, rest); Shape(adj, t) && Frames(adj, t)
    ensures var t := Close(adj, s, rest); LowBounds(adj, t) && LowWitnessed(adj, t)
  {
    var t := Close(adj, s, rest);
    forall i, y, u | 0 <= i < |t.work| && Followed(adj, t, i, y, u)
      ensures t.low[t.work[i].node] <= t.index[u]
    {
      CloseLowOne(adj, s, rest, i, y, u);
    }
    forall i | 0 <= i < |t.work|
      ensures t.low[t.work[i].node] <= t.index[t.work[i].node] && LowAttained(adj, t, t.work[i].node)
    {
      CloseWitnessOne(adj, s, rest, i);
    }
  }

  lemma CloseDone(adj: Adjacency, s: Search, rest: seq<Id>)
    requires Shape(adj, s) && Frames(adj, s) && CanClose(adj, s) && Explored(adj, s) && LowBounds(adj, s)
    requires DoneClosed(adj, s)
    ensures DoneClosed(adj, Close(adj, s, rest))
  {
    var t := Close(adj, s, rest);
    forall x, u | x in t.index && x !in t.onStack && Edge(adj, x, u) ensures u in t.index && u !in t.onStack {
      NoWayOut(adj, s, x, u);
    }
  }

  /** A component is cyclic exactly when it has two nodes or its one node a self-loop. */
  lemma ComponentOnCycle(adj: Adjacency, c: set<Id>, v: Id, x: Id)
    requires Closed(adj) && v in c && x in c && forall y :: y in c <==> Mutual(adj, v, y)
    ensures OnCycle(adj, x) <==> IsCycle(adj, c, v)
  {
    if |c| > 1 {
      assert |c - {x}| == |c| - 1;
      var y :| y in c - {x};
      MutualEquivalence(adj, v, x, y);
      MutualOnCycle(adj, x, y);
    } else {
      assert c == {v} by {
        assert |c - {v}| == |c| - 1;
        assert c == (c - {v}) + {v};
      }
      OnCycleByEdge(adj, v);
      if Edge(adj, v, v) { ReachInGraph(adj, v, v); }
      if m :| Edge(adj, v, m) && Reach(adj, m, v) {
        ReachEdge(adj, v, m);
        assert Mutual(adj, v, m);
      }
    }
  }

  lemma CloseCollects(adj: Adjacency, s: Search, rest: seq<Id>)
    requires Closed(adj) && Shape(adj, s) && Frames(adj, s) && s.work != [] && Collected(adj, s)
    requires var v := s.work[|s.work| - 1].node; forall y :: y in From(s, v) <==> Mutual(adj, v, y)
    ensures Collected(adj, Close(adj, s, rest))
  {
    var v := s.work[|s.work| - 1].node;
    var c, t := From(s, v), Close(adj, s, rest);
    assert NotAfter(s, v, v);
    assert IsComponent(adj, c);
    forall x | x in t.index && x !in t.onStack ensures Listed(t.components, x) <==> OnCycle(adj, x) {
      if x in c {
        ComponentOnCycle(adj, c, v, x);
        if IsCycle(adj, c, v) { assert t.components[|s.components|] == c; }
      } else {
        assert Listed(s.components, x) <==> OnCycle(adj, x);
        ListedAppend(s.components, c, x);
      }
    }
  }

  lemma ListedAppend(components: seq<set<Id>>, c: set<Id>, x: Id)
    ensures Listed(components + [c], x) <==> Listed(components, x) || x in c
  {
    if Listed(components, x) {
      var k :| 0 <= k < |components| && x in components[k];
      assert (components + [c])[k] == components[k];
    }
    if x in c { assert (components + [c])[|components|] == c; }
  }

  lemma CloseKeepsInv(adj: Adjacency, s: Search, rest: seq<Id>)
    requires Inv(adj, s) && CanClose(adj, s) && IsRest(s, rest)
    ensures Inv(adj, Close(adj, s, rest))
  {
    CloseShape(adj, s, rest);
    CloseFrames(adj, s, rest);
    CloseExplored(adj, s, rest);
    CloseReach(adj, s, rest);
    CloseLow(adj, s, rest);
    CloseDone(adj, s, rest);
    var v := s.work[|s.work| - 1].node;
    forall x ensures x in From(s, v) <==> Mutual(adj, v, x) {
      ClosesComponent(adj, s, x);
    }
    CloseCollects(adj, s, rest);
  }

  // ----- the steps as the search takes them -----

  /** Visiting the next successor of the top frame, dropping the edge to it. */
  ghost function Visited(adj: Adjacency, s: Search): Search
    requires s.work != [] && s.work[|s.work| - 1].pending != [] && NextNode(s, |s.work| - 1) in adj
  {
    var k := |s.work| - 1;
    Next(Enter(adj, s, NextNode(s, k)), k)
  }

  lemma NextIsNode(adj: Adjacency, s: Search, k: nat)
    requires Closed(adj) && Shape(adj, s) && Frames(adj, s) && k < |s.work| && s.work[k].pending != []
    ensures NextNode(s, k) in adj && Edge(adj, s.work[k].node, NextNode(s, k))
  {
    assert NextNode(s, k) in s.work[k].pending;
  }

  lemma EnteredCanLook(adj: Adjacency, s: Search, k: nat)
    requires Shape(adj, s) && Frames(adj, s) && LowWitnessed(adj, s) && k < |s.work| && s.work[k].pending != []
    requires var v := NextNode(s, k); CanEnter(adj, s, v)
    requires var t := Enter(adj, s, NextNode(s, k)); Shape(adj, t) && Frames(adj, t)
    ensures var t := Enter(adj, s, NextNode(s, k)); CanLook(adj, t, k, s.low[s.work[k].node])
    ensures var t := Enter(adj, s, NextNode(s, k)); Look(t, k, s.low[s.work[k].node]) == Next(t, k)
  {
    var t, n := Enter(adj, s, NextNode(s, k)), s.low[s.work[k].node];
    assert t.work[k] == s.work[k];
    assert t.low[t.work[k].node := n] == t.low;
  }

  lemma VisitStep(adj: Adjacency, s: Search)
    requires Inv(adj, s) && s.work != [] && s.work[|s.work| - 1].pending != []
    requires NextNode(s, |s.work| - 1) !in s.index
    ensures NextNode(s, |s.work| - 1) in adj && Inv(adj, Visited(adj, s))
  {
    var k := |s.work| - 1;
    NextIsNode(adj, s, k);
    EnterKeepsInv(adj, s, NextNode(s, k));
    EnteredCanLook(adj, s, k);
    LookKeepsInv(adj, Enter(adj, s, NextNode(s, k)), k, s.low[s.work[k].node]);
  }

  lemma StackTop(adj: Adjacency, s: Search)
    requires Inv(adj, s) && s.work != []
    ensures var v := s.work[|s.work| - 1].node;
            && v in s.stack && v in adj && v in s.index && v in s.low && s.low[v] <= s.index[v]
            && Distinct(s.stack) && forall x :: x in s.onStack <==> x in s.stack
    ensures s.index.Keys <= adj.Keys && forall x :: x in s.work[|s.work| - 1].pending ==> x in adj
  {
    forall i, j | 0 <= i < j < |s.stack| ensures s.stack[i] != s.stack[j] {
      assert s.index[s.stack[i]] < s.index[s.stack[j]];
    }
    forall x | x in s.work[|s.work| - 1].pending ensures x in adj {
      assert Edge(adj, s.work[|s.work| - 1].node, x);
    }
  }

  /** What is popped, read off the stack, is what the search calls the closing nodes. */
  lemma PoppedIsFrom(adj: Adjacency, s: Search, p: nat)
    requires Shape(adj, s) && p < |s.stack|
    ensures (set x | x in s.stack[p..]) == From(s, s.stack[p])
  {
    forall y ensures y in s.stack[p..] <==> y in From(s, s.stack[p]) {
      RestMembers(adj, s, s.stack[p], p, y);
      assert s.stack == s.stack[..p] + s.stack[p..];
      if y in s.stack[p..] {
        var j :| p <= j < |s.stack| && s.stack[j] == y;
        assert NotAfter(s, s.stack[p], y);
      }
    }
  }
}
