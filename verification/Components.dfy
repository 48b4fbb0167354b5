/**
  The cyclic strongly connected components of a graph, found by an iterative
  depth-first search with low links.
 */
module Components {
  import opened Digraph
  import opened Tarjan

  /** A component that forms a cycle: two nodes or more, or one node with a self-loop. */
  ghost predicate IsCyclicComponent(adj: Adjacency, c: set<Id>) {
    IsComponent(adj, c) && (|c| >= 2 || exists x :: x in c && Edge(adj, x, x))
  }

  ghost function WorkSize(work: seq<Frame>): nat {
    if work == [] then 0 else WorkSize(work[..|work| - 1]) + 1 + |work[|work| - 1].pending|
  }

  lemma ShorterFrame(work: seq<Frame>, work': seq<Frame>, k: nat)
    requires |work| == |work'| == k + 1 && work[..k] == work'[..k] && |work'[k].pending| < |work[k].pending|
    ensures WorkSize(work') < WorkSize(work)
  {
  }

  lemma GrowsByOne(m: map<Id, nat>, x: Id, n: nat)
    requires x !in m
    ensures m.Keys < m[x := n].Keys
  {
    assert x in m[x := n].Keys;
  }

  lemma SameLow(low: map<Id, nat>, v: Id, n: nat)
    requires v in low
    ensures low[v] == n ==> low[v := n] == low
  {
  }

  lemma ClosesRest(adj: Adjacency, s: Search, rest: seq<Id>, component: set<Id>)
    requires Inv(adj, s) && s.work != [] && |rest| < |s.stack| && rest == s.stack[..|rest|]
    requires s.stack[|rest|] == s.work[|s.work| - 1].node && component == set x | x in s.stack[|rest|..]
    requires s.work[|s.work| - 1].pending == []
    requires var v := s.work[|s.work| - 1].node; v in s.low && v in s.index && s.low[v] == s.index[v]
    ensures IsRest(s, rest) && component == From(s, s.work[|s.work| - 1].node)
    ensures Inv(adj, Close(adj, s, rest))
  {
    CloseKeepsInv(adj, s, rest);
    PoppedIsFrom(adj, s, |rest|);
  }

  lemma ReturnsLow(adj: Adjacency, s: Search)
    requires Inv(adj, s) && s.work != [] && s.work[|s.work| - 1].pending == []
    requires var v := s.work[|s.work| - 1].node; v in s.low && v in s.index && s.low[v] != s.index[v]
    ensures |s.work| >= 2 && s.work[|s.work| - 2].node in s.low && s.work[|s.work| - 1].node in s.low
    ensures Inv(adj, Return(s))
  {
    assert s.low[s.work[|s.work| - 1].node] <= s.index[s.work[|s.work| - 1].node];
    ReturnKeepsInv(adj, s);
  }

  lemma LooksBack(adj: Adjacency, s: Search, n: nat)
    requires Inv(adj, s) && s.work != [] && s.work[|s.work| - 1].pending != []
    requires var v, nxt := s.work[|s.work| - 1].node, NextNode(s, |s.work| - 1);
             && v in s.low && nxt in s.index
             && n == if nxt in s.onStack then Min(s.low[v], s.index[nxt]) else s.low[v]
    ensures Inv(adj, Look(s, |s.work| - 1, n))
  {
    LookKeepsInv(adj, s, |s.work| - 1, n);
  }

  /** Passing the low link down does nothing after a component is closed. */
  lemma PassLow(adj: Adjacency, s: Search)
    requires Inv(adj, s) && |s.work| >= 2 && s.work[|s.work| - 1].pending == []
    ensures var v, p := s.work[|s.work| - 1].node, s.work[|s.work| - 2].node;
            && v in s.low && v in s.index && p in s.low
            && (s.low[v] == s.index[v] ==> s.low[p := Min(s.low[p], s.low[v])] == s.low)
  {
    var v, p := s.work[|s.work| - 1].node, s.work[|s.work| - 2].node;
    assert s.index[p] < s.index[v] && s.low[p] <= s.index[p];
  }

  lemma NothingVisited(adj: Adjacency)
    requires Closed(adj)
    ensures Inv(adj, Search(map[], map[], 0, [], {}, [], []))
  {
  }

  lemma RootIsMutual(adj: Adjacency, c: set<Id>, x: Id)
    requires IsComponent(adj, c) && x in c
    ensures forall y :: y in c <==> Mutual(adj, x, y)
  {
    var r :| r in adj && forall y :: y in c <==> Mutual(adj, r, y);
    forall y ensures y in c <==> Mutual(adj, x, y) {
      if y in c { MutualEquivalence(adj, r, x, y); }
      if Mutual(adj, x, y) {
        ReachTrans(adj, r, x, y);
        ReachTrans(adj, y, x, r);
      }
    }
  }

  /** All nodes of a component lie on cycles, or none do. */
  lemma CyclicComponentNodes(adj: Adjacency, c: set<Id>, x: Id)
    requires Closed(adj) && IsComponent(adj, c) && x in c
    ensures OnCycle(adj, x) <==> IsCyclicComponent(adj, c)
  {
    RootIsMutual(adj, c, x);
    ComponentOnCycle(adj, c, x, x);
    if y :| y in c && Edge(adj, y, y) {
      RootIsMutual(adj, c, y);
      ComponentOnCycle(adj, c, y, x);
    }
  }

  lemma ListedIsCyclic(adj: Adjacency, components: seq<set<Id>>, k: nat)
    requires Closed(adj) && k < |components| && IsComponent(adj, components[k]) && components[k] != {}
    requires forall x :: x in adj ==> (Listed(components, x) <==> OnCycle(adj, x))
    ensures IsCyclicComponent(adj, components[k])
  {
    var x :| x in components[k];
    RootIsMutual(adj, components[k], x);
    assert Mutual(adj, x, x);
    ReachInGraph(adj, x, x);
    assert Listed(components, x);
    CyclicComponentNodes(adj, components[k], x);
  }

  lemma CyclicIsListed(adj: Adjacency, components: seq<set<Id>>, c: set<Id>)
    requires Closed(adj) && IsCyclicComponent(adj, c)
    requires forall k :: 0 <= k < |components| ==> IsComponent(adj, components[k])
    requires forall x :: x in adj ==> (Listed(components, x) <==> OnCycle(adj, x))
    ensures c in components
  {
    var r :| r in adj && forall y :: y in c <==> Mutual(adj, r, y);
    ReachRefl(adj, r);
    CyclicComponentNodes(adj, c, r);
    assert Listed(components, r);
    var k :| 0 <= k < |components| && r in components[k];
    SameComponent(adj, components[k], c, r);
  }

  lemma SameComponent(adj: Adjacency, c: set<Id>, d: set<Id>, r: Id)
    requires IsComponent(adj, c) && r in c && forall y :: y in d <==> Mutual(adj, r, y)
    ensures c == d
  {
    RootIsMutual(adj, c, r);
  }

  /** When the search is over, the list holds exactly the cyclic components. */
  lemma SearchOver(adj: Adjacency, s: Search)
    requires Inv(adj, s) && s.work == [] && adj.Keys <= s.index.Keys
    ensures forall c :: c in s.components <==> IsCyclicComponent(adj, c)
    ensures forall i, j :: 0 <= i < j < |s.components| ==> s.components[i] !! s.components[j]
    ensures forall x :: x in adj ==> (Listed(s.components, x) <==> OnCycle(adj, x))
  {
    NoWorkNoStack(adj, s);
    forall c ensures c in s.components <==> IsCyclicComponent(adj, c) {
      OneListed(adj, s.components, c);
    }
  }

  lemma OneListed(adj: Adjacency, components: seq<set<Id>>, c: set<Id>)
    requires Closed(adj)
    requires forall k :: 0 <= k < |components| ==> IsComponent(adj, components[k]) && components[k] != {}
    requires forall x :: x in adj ==> (Listed(components, x) <==> OnCycle(adj, x))
    ensures c in components <==> IsCyclicComponent(adj, c)
  {
    if c in components {
      var k :| 0 <= k < |components| && components[k] == c;
      ListedIsCyclic(adj, components, k);
    }
    if IsCyclicComponent(adj, c) {
      CyclicIsListed(adj, components, c);
    }
  }

  /** The strongly connected components that form a cycle, each listed once. */
  method StronglyConnected(ids: seq<Id>, adj: Adjacency) returns (components: seq<set<Id>>)
    requires Closed(adj) && forall x :: x in ids <==> x in adj
    ensures forall c :: c in components <==> IsCyclicComponent(adj, c)
    ensures forall i, j :: 0 <= i < j < |components| ==> components[i] !! components[j]
    ensures forall x :: x in adj ==> (Listed(components, x) <==> OnCycle(adj, x))
  {
    hide Inv;
    var s := Search(map[], map[], 0, [], {}, [], []);
    NothingVisited(adj);
    for r := 0 to |ids|
      invariant Inv(adj, s) && s.work == []
      invariant forall x :: x in ids[..r] ==> x in s.index
    {
      var root := ids[r];
      assert ids[..r + 1] == ids[..r] + [root];
      if root in s.index { continue; }
      assert root in ids;
      s := Explore(adj, root, s);
    }
    assert ids[..|ids|] == ids;
    SearchOver(adj, s);
    components := s.components;
  }

  /** Explores everything reachable from an unvisited root. */
  method Explore(adj: Adjacency, root: Id, s: Search) returns (t: Search)
    requires Inv(adj, s) && s.work == []
    requires root in adj && root !in s.index
    ensures Inv(adj, t) && t.work == []
    ensures s.index.Keys + {root} <= t.index.Keys
  {
    hide Inv;
    EnterKeepsInv(adj, s, root);
    t := s.(index := s.index[root := s.counter], low := s.low[root := s.counter], counter := s.counter + 1,
            stack := s.stack + [root], onStack := s.onStack + {root},
            work := s.work + [Frame(root, adj[root])]);
    while t.work != []
      invariant Inv(adj, t)
      invariant s.index.Keys + {root} <= t.index.Keys
      decreases adj.Keys - t.index.Keys, WorkSize(t.work)
    {
      ghost var before := t;
      if t.work[|t.work| - 1].pending != [] {
        t := LookNext(adj, t);
      } else {
        t := Finish(adj, t);
      }
    }
  }

  /** Takes the top frame's next successor: visits it, or lowers the low link. */
  method LookNext(adj: Adjacency, s: Search) returns (t: Search)
    requires Inv(adj, s) && s.work != [] && s.work[|s.work| - 1].pending != []
    ensures Inv(adj, t)
    ensures || (t.index == s.index && WorkSize(t.work) < WorkSize(s.work))
            || s.index.Keys < t.index.Keys <= adj.Keys
  {
    hide Inv;
    var k := |s.work| - 1;
    var top := s.work[k];
    var nxt := top.pending[|top.pending| - 1];
    StackTop(adj, s);
    t := s.(work := s.work[k := Frame(top.node, top.pending[..|top.pending| - 1])]);
    if nxt !in s.index {
      VisitStep(adj, s);
      t := t.(index := t.index[nxt := t.counter], low := t.low[nxt := t.counter], counter := t.counter + 1,
              stack := t.stack + [nxt], onStack := t.onStack + {nxt},
              work := t.work + [Frame(nxt, adj[nxt])]);
      assert t == Visited(adj, s);
      GrowsByOne(s.index, nxt, s.counter);
    } else {
      if nxt in s.onStack {
        t := t.(low := t.low[top.node := Min(t.low[top.node], t.index[nxt])]);
      }
      SameLow(s.low, top.node, t.low[top.node]);
      LooksBack(adj, s, t.low[top.node]);
      assert t == Look(s, k, t.low[top.node]);
      ShorterFrame(s.work, t.work, k);
    }
  }

  /** Pops the finished top frame, taking its component off the stack if it is the root of one. */
  method Finish(adj: Adjacency, s: Search) returns (t: Search)
    requires Inv(adj, s) && s.work != [] && s.work[|s.work| - 1].pending == []
    ensures Inv(adj, t)
    ensures t.index == s.index && WorkSize(t.work) < WorkSize(s.work)
  {
    hide Inv;
    var k := |s.work| - 1;
    var nodeId := s.work[k].node;
    StackTop(adj, s);
    t := s.(work := s.work[..k]);
    if s.low[nodeId] == s.index[nodeId] {
      var stack, onStack, component := PopComponent(nodeId, s.stack, s.onStack);
      ClosesRest(adj, s, stack, component);
      t := t.(stack := stack, onStack := onStack);
      if |component| > 1 || nodeId in adj[nodeId] {
        t := t.(components := t.components + [component]);
      }
      assert t == Close(adj, s, stack);
    } else {
      ReturnsLow(adj, s);
    }
    if t.work != [] {
      var parent := t.work[k - 1].node;
      PassLow(adj, s);
      t := t.(low := t.low[parent := Min(t.low[parent], t.low[nodeId])]);
    }
  }

  /** Pops the node stack down to and including the given node. */
  method PopComponent(nodeId: Id, stack0: seq<Id>, onStack0: set<Id>)
    returns (stack: seq<Id>, onStack: set<Id>, component: set<Id>)
    requires nodeId in stack0 && Distinct(stack0) && forall x :: x in onStack0 <==> x in stack0
    ensures |stack| < |stack0| && stack0[|stack|] == nodeId && stack == stack0[..|stack|]
    ensures component == set x | x in stack0[|stack|..]
    ensures onStack == onStack0 - component
  {
    var at :| 0 <= at < |stack0| && stack0[at] == nodeId;
    stack, onStack, component := stack0, onStack0, {};
    while true
      invariant at < |stack| <= |stack0| && stack == stack0[..|stack|]
      invariant component == set x | x in stack0[|stack|..]
      invariant onStack == onStack0 - component
      decreases |stack|
    {
      var member := stack[|stack| - 1];
      assert stack0[|stack| - 1..] == [member] + stack0[|stack|..];
      stack := stack[..|stack| - 1];
      onStack := onStack - {member};
      component := component + {member};
      if member == nodeId { break; }
    }
  }
}
