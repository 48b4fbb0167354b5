/**
  Finite directed graphs given by their successor lists, with the reachability
  notions that the dependency graph's algorithms are specified by.
 */
module Digraph {

  type Id = string
  type Adjacency = map<Id, seq<Id>>

  /** Every listed successor is itself a node. */
  ghost predicate Closed(adj: Adjacency) {
    forall u, v :: u in adj && v in adj[u] ==> v in adj
  }

  predicate Edge(adj: Adjacency, u: Id, v: Id) {
    u in adj && v in adj[u]
  }

  /** A walk through the graph: a non-empty list of nodes joined by edges. */
  ghost predicate IsPath(adj: Adjacency, p: seq<Id>) {
    && |p| > 0
    && p[0] in adj
    && forall i :: 0 <= i < |p| - 1 ==> Edge(adj, p[i], p[i + 1])
  }

  ghost predicate PathBetween(adj: Adjacency, p: seq<Id>, a: Id, b: Id) {
    IsPath(adj, p) && p[0] == a && p[|p| - 1] == b
  }

  /** There is a path, possibly of no edges, from a to b. */
  ghost predicate Reach(adj: Adjacency, a: Id, b: Id) {
    exists p :: PathBetween(adj, p, a, b)
  }

  /** There is a path of at least one edge from a node back to itself. */
  ghost predicate OnCycle(adj: Adjacency, a: Id) {
    exists p :: PathBetween(adj, p, a, a) && |p| >= 2
  }

  ghost predicate Acyclic(adj: Adjacency) {
    forall a :: !OnCycle(adj, a)
  }

  ghost predicate Mutual(adj: Adjacency, a: Id, b: Id) {
    Reach(adj, a, b) && Reach(adj, b, a)
  }

  /** A strongly connected component: mutually reachable, and maximal so. */
  ghost predicate IsComponent(adj: Adjacency, c: set<Id>) {
    exists r :: r in adj && forall x :: x in c <==> Mutual(adj, r, x)
  }

  /** The number of edges of the longest path that ends at v is k. */
  ghost predicate LongestPathTo(adj: Adjacency, v: Id, k: nat) {
    && (exists p :: IsPath(adj, p) && p[|p| - 1] == v && |p| == k + 1)
    && (forall p :: IsPath(adj, p) && p[|p| - 1] == v ==> |p| <= k + 1)
  }

  ghost predicate Distinct<T>(s: seq<T>) {
    forall i, j :: 0 <= i < j < |s| ==> s[i] != s[j]
  }

  // ----- reachability -----

  lemma ReachRefl(adj: Adjacency, a: Id)
    requires a in adj
    ensures Reach(adj, a, a)
  {
    assert PathBetween(adj, [a], a, a);
  }

  lemma JoinPaths(adj: Adjacency, p: seq<Id>, q: seq<Id>, a: Id, b: Id, c: Id)
    requires PathBetween(adj, p, a, b) && PathBetween(adj, q, b, c)
    ensures PathBetween(adj, p + q[1..], a, c)
  {
    var r := p + q[1..];
    forall i | 0 <= i < |r| - 1
      ensures Edge(adj, r[i], r[i + 1])
    {
      if i < |p| - 1 {
        assert r[i] == p[i] && r[i + 1] == p[i + 1];
      } else {
        assert r[i] == q[i + 1 - |p|] && r[i + 1] == q[i + 2 - |p|];
      }
    }
  }

  lemma ReachTrans(adj: Adjacency, a: Id, b: Id, c: Id)
    requires Reach(adj, a, b) && Reach(adj, b, c)
    ensures Reach(adj, a, c)
  {
    var p :| PathBetween(adj, p, a, b);
    var q :| PathBetween(adj, q, b, c);
    JoinPaths(adj, p, q, a, b, c);
  }

  lemma ReachEdge(adj: Adjacency, a: Id, b: Id)
    requires Edge(adj, a, b)
    ensures Reach(adj, a, b)
  {
    assert PathBetween(adj, [a, b], a, b);
  }

  lemma MutualEquivalence(adj: Adjacency, a: Id, b: Id, c: Id)
    requires Mutual(adj, a, b) && Mutual(adj, a, c)
    ensures Mutual(adj, b, c)
  {
    ReachTrans(adj, b, a, c);
    ReachTrans(adj, c, a, b);
  }

  /** Paths cannot leave a set that is closed under successors. */
  lemma {:induction false} PathStaysInside(adj: Adjacency, s: set<Id>, p: seq<Id>, k: nat)
    requires IsPath(adj, p) && k < |p| && p[0] in s
    requires forall x, y :: x in s && Edge(adj, x, y) ==> y in s
    ensures p[k] in s
  {
    if k > 0 {
      PathStaysInside(adj, s, p, k - 1);
      assert Edge(adj, p[k - 1], p[k - 1 + 1]);
    }
  }

  lemma ReachStaysInside(adj: Adjacency, s: set<Id>, a: Id, b: Id)
    requires a in s && Reach(adj, a, b)
    requires forall x, y :: x in s && Edge(adj, x, y) ==> y in s
    ensures b in s
  {
    var p :| PathBetween(adj, p, a, b);
    PathStaysInside(adj, s, p, |p| - 1);
  }

  lemma ReachInGraph(adj: Adjacency, a: Id, b: Id)
    requires Closed(adj) && Reach(adj, a, b)
    ensures a in adj && b in adj
  {
    ReachStaysInside(adj, adj.Keys, a, b);
  }

  /** A node lies on a cycle exactly when some successor leads back to it. */
  lemma OnCycleByEdge(adj: Adjacency, a: Id)
    requires Closed(adj)
    ensures OnCycle(adj, a) <==> exists m :: Edge(adj, a, m) && Reach(adj, m, a)
  {
    if OnCycle(adj, a) {
      var p :| PathBetween(adj, p, a, a) && |p| >= 2;
      var q := p[1..];
      assert Edge(adj, p[0], p[0 + 1]);
      forall i | 0 <= i < |q| - 1 ensures Edge(adj, q[i], q[i + 1]) {
        assert Edge(adj, p[i + 1], p[i + 1 + 1]);
      }
      assert PathBetween(adj, q, p[1], a);
    }
    if m :| Edge(adj, a, m) && Reach(adj, m, a) {
      var q :| PathBetween(adj, q, m, a);
      assert PathBetween(adj, [a, m], a, m);
      JoinPaths(adj, [a, m], q, a, m, a);
      assert |[a, m] + q[1..]| >= 2;
    }
  }

  /** Two different nodes that reach each other both lie on a cycle. */
  lemma MutualOnCycle(adj: Adjacency, a: Id, b: Id)
    requires Closed(adj) && a != b && Mutual(adj, a, b)
    ensures OnCycle(adj, a)
  {
    var p :| PathBetween(adj, p, a, b);
    var q :| PathBetween(adj, q, b, a);
    JoinPaths(adj, p, q, a, b, a);
    assert |p + q[1..]| >= 2;
  }

  // ----- cycles and ranks -----

  lemma PrependEdge(adj: Adjacency, u: Id, p: seq<Id>)
    requires IsPath(adj, p) && Edge(adj, u, p[0])
    ensures IsPath(adj, [u] + p)
  {
    var q := [u] + p;
    forall i | 0 <= i < |q| - 1 ensures Edge(adj, q[i], q[i + 1]) {
      if i > 0 {
        assert Edge(adj, p[i - 1], p[i - 1 + 1]);
        assert q[i] == p[i - 1] && q[i + 1] == p[i];
      }
    }
  }

  lemma PathPrefix(adj: Adjacency, p: seq<Id>, n: nat)
    requires IsPath(adj, p) && 0 < n <= |p|
    ensures IsPath(adj, p[..n])
  {
    var q := p[..n];
    forall i | 0 <= i < |q| - 1 ensures Edge(adj, q[i], q[i + 1]) {
      assert Edge(adj, p[i], p[i + 1]);
    }
  }

  ghost predicate HasPredIn(adj: Adjacency, s: set<Id>, v: Id) {
    exists u :: u in s && Edge(adj, u, v)
  }

  /** Every node of s has a predecessor inside s. */
  ghost predicate Sourceless(adj: Adjacency, s: set<Id>) {
    forall v {:trigger HasPredIn(adj, s, v)} :: v in s ==> HasPredIn(adj, s, v)
  }

  /** A non-empty set in which every node has a predecessor contains a cycle. */
  lemma {:induction false} NoSourceMeansCycle(adj: Adjacency, s: set<Id>, p: seq<Id>)
    requires Sourceless(adj, s)
    requires IsPath(adj, p) && Distinct(p) && forall i :: 0 <= i < |p| ==> p[i] in s
    ensures !Acyclic(adj)
    decreases |s| - |p|
  {
    assert HasPredIn(adj, s, p[0]);
    var u :| u in s && Edge(adj, u, p[0]);
    var q := [u] + p;
    PrependEdge(adj, u, p);
    if k :| 0 <= k < |p| && p[k] == u {
      var c := q[..k + 2];
      PathPrefix(adj, q, k + 2);
      assert c[|c| - 1] == q[k + 1] == p[k];
      assert PathBetween(adj, c, u, u) && |c| >= 2;
      assert OnCycle(adj, u);
    } else {
      DistinctFits(q, s);
      NoSourceMeansCycle(adj, s, q);
    }
  }

  /** A list without repetitions is no longer than a set that holds its elements. */
  lemma {:induction false} DistinctFits<T>(p: seq<T>, s: set<T>)
    requires Distinct(p) && forall i :: 0 <= i < |p| ==> p[i] in s
    ensures |p| <= |s|
  {
    if p != [] {
      var front := p[..|p| - 1];
      assert forall i :: 0 <= i < |front| ==> front[i] in s - {p[|p| - 1]};
      DistinctFits(front, s - {p[|p| - 1]});
    }
  }

  lemma {:induction false} DistinctCard<T>(p: seq<T>)
    requires Distinct(p)
    ensures |set x | x in p| == |p|
  {
    if p != [] {
      var front, last := p[..|p| - 1], p[|p| - 1];
      DistinctCard(front);
      assert (set x | x in p) == (set x | x in front) + {last} by {
        assert p == front + [last];
      }
      assert last !in front;
    }
  }

  /** Every edge goes from a lower rank to a higher one. */
  ghost predicate Climbs(adj: Adjacency, rank: map<Id, nat>)
    requires adj.Keys <= rank.Keys && Closed(adj)
  {
    forall u, v :: Edge(adj, u, v) ==> rank[u] < rank[v]
  }

  ghost predicate HasPredAt(adj: Adjacency, rank: map<Id, nat>, w: Id)
    requires adj.Keys <= rank.Keys && w in adj
  {
    exists u :: Edge(adj, u, w) && rank[u] + 1 == rank[w]
  }

  /** Every node above rank 0 has a predecessor exactly one rank below it. */
  ghost predicate Grounded(adj: Adjacency, rank: map<Id, nat>)
    requires adj.Keys <= rank.Keys && Closed(adj)
  {
    forall w {:trigger HasPredAt(adj, rank, w)} :: w in adj && rank[w] > 0 ==> HasPredAt(adj, rank, w)
  }

  /** If every edge climbs in rank, a path climbs at least one rank a step. */
  lemma {:induction false} RankBoundsPath(adj: Adjacency, rank: map<Id, nat>, p: seq<Id>, k: nat)
    requires IsPath(adj, p) && k < |p|
    requires adj.Keys <= rank.Keys && Closed(adj)
    requires Climbs(adj, rank)
    ensures p[k] in adj && rank[p[k]] >= k
  {
    if k > 0 {
      RankBoundsPath(adj, rank, p, k - 1);
      assert Edge(adj, p[k - 1], p[k - 1 + 1]);
    }
  }

  lemma {:induction false} RankClimbs(adj: Adjacency, rank: map<Id, nat>, p: seq<Id>, k: nat)
    requires IsPath(adj, p) && 0 < k < |p|
    requires adj.Keys <= rank.Keys && Closed(adj)
    requires Climbs(adj, rank)
    ensures p[k] in adj && rank[p[0]] < rank[p[k]]
  {
    assert Edge(adj, p[k - 1], p[k - 1 + 1]);
    if k > 1 {
      RankClimbs(adj, rank, p, k - 1);
    }
  }

  lemma RankedIsAcyclic(adj: Adjacency, rank: map<Id, nat>)
    requires adj.Keys <= rank.Keys && Closed(adj)
    requires Climbs(adj, rank)
    ensures Acyclic(adj)
  {
    forall a ensures !OnCycle(adj, a) {
      if OnCycle(adj, a) {
        var p :| PathBetween(adj, p, a, a) && |p| >= 2;
        RankClimbs(adj, rank, p, |p| - 1);
      }
    }
  }

  /** A node of rank k whose rank is witnessed step by step ends a path of k edges. */
  lemma {:induction false} RankWitness(adj: Adjacency, rank: map<Id, nat>, v: Id) returns (p: seq<Id>)
    requires adj.Keys == rank.Keys && Closed(adj) && v in adj
    requires Grounded(adj, rank)
    ensures IsPath(adj, p) && p[|p| - 1] == v && |p| == rank[v] + 1
    decreases rank[v]
  {
    if rank[v] == 0 {
      p := [v];
    } else {
      assert HasPredAt(adj, rank, v);
      var u :| Edge(adj, u, v) && rank[u] + 1 == rank[v];
      var q := RankWitness(adj, rank, u);
      p := q + [v];
      forall i | 0 <= i < |p| - 1 ensures Edge(adj, p[i], p[i + 1]) {
        if i < |q| - 1 { assert Edge(adj, q[i], q[i + 1]); }
      }
    }
  }

  lemma RankIsLongestPath(adj: Adjacency, rank: map<Id, nat>, v: Id)
    requires adj.Keys == rank.Keys && Closed(adj) && v in adj
    requires Climbs(adj, rank) && Grounded(adj, rank)
    ensures LongestPathTo(adj, v, rank[v])
  {
    var q := RankWitness(adj, rank, v);
    assert exists p :: IsPath(adj, p) && p[|p| - 1] == v && |p| == rank[v] + 1;
    forall p | IsPath(adj, p) && p[|p| - 1] == v ensures |p| <= rank[v] + 1 {
      RankBoundsPath(adj, rank, p, |p| - 1);
    }
  }
}
