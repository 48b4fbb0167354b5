/**
  The mutable dependency graph: insertion-ordered nodes, successor and
  predecessor lists kept in step, and the wave-by-wave topological levelling.
 */
module Graphs {
  import opened Wrappers
  import opened Digraph
  import Ordering
  import Decimal

  datatype EdgeRecord = EdgeRecord(source: Id, target: Id, metadata: map<string, string>)

  datatype GraphError =
    | UnknownNode(id: Id)
    | UnknownParent(id: Id, parent: Id)
    | ContainsCycle

  // ----- the invariant on the representation -----

  /** The two adjacency maps are over the same nodes and mirror each other. */
  ghost predicate Mirrored(succ: Adjacency, pred: Adjacency) {
    && succ.Keys == pred.Keys
    && Closed(succ)
    && Closed(pred)
    && (forall u, v :: Edge(succ, u, v) <==> Edge(pred, v, u))
    && (forall u :: u in succ ==> Distinct(succ[u]) && Distinct(pred[u]))
  }

  ghost predicate WellFormed(ids: seq<Id>, succ: Adjacency, pred: Adjacency, edges: seq<EdgeRecord>) {
    && Distinct(ids)
    && (forall x :: x in ids <==> x in succ)
    && Mirrored(succ, pred)
    && (forall u, v :: Edge(succ, u, v) <==> exists e :: e in edges && e.source == u && e.target == v)
  }

  function Link(adj: Adjacency, u: Id, v: Id): Adjacency
    requires u in adj
  {
    if v in adj[u] then adj else adj[u := adj[u] + [v]]
  }

  lemma LinkAddsOneEdge(adj: Adjacency, u: Id, v: Id)
    requires u in adj
    ensures forall a, b :: Edge(Link(adj, u, v), a, b) <==> Edge(adj, a, b) || (a == u && b == v)
    ensures Link(adj, u, v).Keys == adj.Keys
    ensures (forall a :: a in adj ==> Distinct(adj[a])) ==> forall a :: a in adj ==> Distinct(Link(adj, u, v)[a])
  {
  }

  lemma LinkKeepsMirror(succ: Adjacency, pred: Adjacency, u: Id, v: Id)
    requires Mirrored(succ, pred) && u in succ && v in succ
    ensures Mirrored(Link(succ, u, v), Link(pred, v, u))
  {
    LinkAddsOneEdge(succ, u, v);
    LinkAddsOneEdge(pred, v, u);
    var s, p := Link(succ, u, v), Link(pred, v, u);
    forall a, b | a in s && b in s[a] ensures b in s {
      assert Edge(s, a, b);
      assert Edge(succ, a, b) || (a == u && b == v);
    }
    forall a, b | a in p && b in p[a] ensures b in p {
      assert Edge(p, a, b);
      assert Edge(pred, a, b) || (a == v && b == u);
    }
  }

  lemma NewNodeKeepsForm(ids: seq<Id>, succ: Adjacency, pred: Adjacency, edges: seq<EdgeRecord>, id: Id)
    requires WellFormed(ids, succ, pred, edges) && id !in succ
    ensures WellFormed(ids + [id], succ[id := []], pred[id := []], edges)
  {
    var s, p := succ[id := []], pred[id := []];
    assert forall u, v :: Edge(s, u, v) <==> Edge(succ, u, v);
    assert forall u, v :: Edge(p, u, v) <==> Edge(pred, u, v);
    assert Mirrored(s, p);
  }

  lemma NewEdgeKeepsForm(ids: seq<Id>, succ: Adjacency, pred: Adjacency, edges: seq<EdgeRecord>, e: EdgeRecord)
    requires WellFormed(ids, succ, pred, edges) && e.source in succ && e.target in succ
    ensures e.target in pred
    ensures WellFormed(ids, Link(succ, e.source, e.target), Link(pred, e.target, e.source), edges + [e])
  {
    LinkKeepsMirror(succ, pred, e.source, e.target);
    LinkAddsOneEdge(succ, e.source, e.target);
    var s, all := Link(succ, e.source, e.target), edges + [e];
    forall u, v ensures Edge(s, u, v) <==> exists f :: f in all && f.source == u && f.target == v {
      if Edge(succ, u, v) {
        var f :| f in edges && f.source == u && f.target == v;
        assert f in all;
      }
      if u == e.source && v == e.target { assert e in all; }
    }
  }

  // ----- levellings -----

  /**
    What a successful levelling is: every node occurs exactly once, each wave is
    in ascending order, and the number of a node's wave is the length of the
    longest path that ends at the node.
   */
  ghost predicate IsLevelling(adj: Adjacency, waves: seq<seq<Id>>) {
    && (forall v :: v in adj <==> exists i :: 0 <= i < |waves| && v in waves[i])
    && (forall i :: 0 <= i < |waves| ==> waves[i] != [] && Distinct(waves[i]) && Ordering.Ascending(waves[i]))
    && (forall i, v :: 0 <= i < |waves| && v in waves[i] ==> LongestPathTo(adj, v, i))
  }

  /** The longest-path length to a node is unique, so no node is in two waves. */
  lemma WavesAreDisjoint(adj: Adjacency, waves: seq<seq<Id>>, i: nat, j: nat, v: Id)
    requires IsLevelling(adj, waves) && i < |waves| && j < |waves| && v in waves[i] && v in waves[j]
    ensures i == j
  {
    assert LongestPathTo(adj, v, i) && LongestPathTo(adj, v, j);
  }

  function Flatten(waves: seq<seq<Id>>): seq<Id> {
    if waves == [] then [] else Flatten(waves[..|waves| - 1]) + waves[|waves| - 1]
  }

  /** Every node once, and no edge pointing backwards. */
  ghost predicate IsTopologicalOrder(adj: Adjacency, order: seq<Id>) {
    && (forall v :: v in adj <==> v in order)
    && Forward(adj, order)
  }

  /** An edge leads to a strictly later wave. */
  lemma EdgesClimbWaves(adj: Adjacency, i: nat, j: nat, u: Id, v: Id)
    requires LongestPathTo(adj, u, i) && LongestPathTo(adj, v, j) && Edge(adj, u, v)
    ensures i < j
  {
    var p :| IsPath(adj, p) && p[|p| - 1] == u && |p| == i + 1;
    var q := p + [v];
    forall k | 0 <= k < |q| - 1 ensures Edge(adj, q[k], q[k + 1]) {
      if k < |p| - 1 { assert Edge(adj, p[k], p[k + 1]); }
    }
    assert IsPath(adj, q);
  }

  lemma {:induction false} FlattenMembers(waves: seq<seq<Id>>, v: Id)
    ensures v in Flatten(waves) <==> exists i :: 0 <= i < |waves| && v in waves[i]
  {
    if waves != [] {
      var front, last := waves[..|waves| - 1], waves[|waves| - 1];
      FlattenMembers(front, v);
      if i :| 0 <= i < |waves| && v in waves[i] {
        if i < |front| { assert v in front[i]; }
      }
    }
  }

  /** No node repeats and no edge points backwards. */
  ghost predicate Forward(adj: Adjacency, order: seq<Id>) {
    && Distinct(order)
    && forall i, j :: 0 <= i < |order| && 0 <= j < |order| && Edge(adj, order[i], order[j]) ==> i < j
  }

  lemma AppendWave(adj: Adjacency, before: seq<Id>, last: seq<Id>)
    requires Forward(adj, before) && Distinct(last)
    requires forall u, v :: u in before && v in last ==> u != v && !Edge(adj, v, u)
    requires forall u, v :: u in last && v in last ==> !Edge(adj, u, v)
    ensures Forward(adj, before + last)
  {
    var order := before + last;
    forall i, j | 0 <= i < j < |order| ensures order[i] != order[j] {
      if i < |before| <= j { assert order[i] in before && order[j] in last; }
    }
    forall i, j | 0 <= i < |order| && 0 <= j < |order| && i >= j ensures !Edge(adj, order[i], order[j]) {
      if |before| <= j {
        assert order[i] in last && order[j] in last;
      } else if |before| <= i {
        assert order[i] in last && order[j] in before;
      }
    }
  }

  lemma {:induction false} FlattenPrefix(adj: Adjacency, waves: seq<seq<Id>>, n: nat)
    requires IsLevelling(adj, waves) && n <= |waves|
    ensures Forward(adj, Flatten(waves[..n]))
  {
    if n > 0 {
      FlattenPrefix(adj, waves, n - 1);
      assert waves[..n][..n - 1] == waves[..n - 1];
      var before, last := Flatten(waves[..n - 1]), waves[n - 1];
      forall u, v | u in before && v in last ensures u != v && !Edge(adj, v, u) {
        EarlierWave(adj, waves, n - 1, u, v);
      }
      forall u, v | u in last && v in last ensures !Edge(adj, u, v) {
        if Edge(adj, u, v) { EdgesClimbWaves(adj, n - 1, n - 1, u, v); }
      }
      AppendWave(adj, before, last);
    }
  }

  lemma EarlierWave(adj: Adjacency, waves: seq<seq<Id>>, n: nat, u: Id, v: Id)
    requires IsLevelling(adj, waves) && n < |waves| && u in Flatten(waves[..n]) && v in waves[n]
    ensures u != v && !Edge(adj, v, u)
  {
    FlattenMembers(waves[..n], u);
    var k :| 0 <= k < n && u in waves[..n][k];
    assert u in waves[k];
    if u == v { WavesAreDisjoint(adj, waves, k, n, u); }
    if Edge(adj, v, u) { EdgesClimbWaves(adj, n, k, v, u); }
  }

  lemma FlattenedLevelling(adj: Adjacency, waves: seq<seq<Id>>)
    requires IsLevelling(adj, waves)
    ensures IsTopologicalOrder(adj, Flatten(waves))
  {
    FlattenPrefix(adj, waves, |waves|);
    assert waves[..|waves|] == waves;
    forall v ensures v in adj <==> v in Flatten(waves) {
      FlattenMembers(waves, v);
    }
  }

  // ----- attaching a node -----

  /** The edges after hanging the new node n under the listed parents. */
  ghost predicate Hung(before: Adjacency, after: Adjacency, n: Id, parents: set<Id>) {
    && after.Keys == before.Keys + {n}
    && forall u, v :: Edge(after, u, v) <==> Edge(before, u, v) || (v == n && u in parents)
  }

  lemma HangOne(before: Adjacency, during: Adjacency, n: Id, parents: set<Id>, p: Id)
    requires Hung(before, during, n, parents) && p in during
    ensures Hung(before, Link(during, p, n), n, parents + {p})
  {
    LinkAddsOneEdge(during, p, n);
  }

  /**
    Attaching keeps the graph acyclic unless the new node is named as its own
    parent; that case is accepted by attach and makes a self-loop.
   */
  lemma AttachKeepsAcyclic(before: Adjacency, after: Adjacency, n: Id, parents: set<Id>)
    requires Closed(before) && Closed(after) && n !in before
    requires Hung(before, after, n, parents)
    ensures Acyclic(after) <==> Acyclic(before) && n !in parents
  {
    if n in parents {
      assert Edge(after, n, n);
      assert PathBetween(after, [n, n], n, n);
      assert OnCycle(after, n);
    } else {
      if a :| OnCycle(before, a) {
        var p :| PathBetween(before, p, a, a) && |p| >= 2;
        assert IsPath(after, p);
        assert OnCycle(after, a);
      }
      if a :| OnCycle(after, a) {
        LeafIsOffCycles(before, after, n, parents, a);
      }
    }
  }

  lemma LeafIsOffCycles(before: Adjacency, after: Adjacency, n: Id, parents: set<Id>, a: Id)
    requires Closed(before) && Closed(after) && n !in before && n !in parents
    requires Hung(before, after, n, parents) && OnCycle(after, a)
    ensures OnCycle(before, a)
  {
    var p :| PathBetween(after, p, a, a) && |p| >= 2;
    forall k | 0 <= k < |p| - 1 ensures p[k] != n {
      assert Edge(after, p[k], p[k + 1]);
      assert !Edge(before, n, p[k + 1]);
    }
    assert p[|p| - 1] == p[0] != n;
    forall k | 0 <= k < |p| - 1 ensures Edge(before, p[k], p[k + 1]) {
      assert Edge(after, p[k], p[k + 1]);
    }
    assert Edge(before, p[0], p[0 + 1]);
    assert PathBetween(before, p, a, a);
  }

  /** How many parents are known before the first unknown one. */
  function KnownPrefix(parents: seq<Parent>, nodes: set<Id>): (n: nat)
    ensures n <= |parents|
    ensures forall i :: 0 <= i < n ==> parents[i].id in nodes
    ensures n < |parents| ==> parents[n].id !in nodes
  {
    if parents == [] || parents[0].id !in nodes then 0
    else 1 + KnownPrefix(parents[1..], nodes)
  }

  lemma ParentIdsStep(parents: seq<Parent>, k: nat)
    requires k < |parents|
    ensures ParentIds(parents[..k + 1]) == ParentIds(parents[..k]) + {parents[k].id}
  {
    assert parents[..k + 1] == parents[..k] + [parents[k]];
  }

  function Suffixed(base: Id, n: nat): Id {
    base + "#" + Decimal.Numeral(n)
  }

  lemma SuffixedInjective(base: Id, m: nat, n: nat)
    requires Suffixed(base, m) == Suffixed(base, n)
    ensures m == n
  {
    assert Decimal.Numeral(m) == Suffixed(base, m)[|base + "#"|..];
    assert Decimal.Numeral(n) == Suffixed(base, n)[|base + "#"|..];
    Decimal.NumeralInjective(m, n);
  }

  /** The id attach gives a node: the wanted one, or the first free numbered variant. */
  ghost predicate IsFreshId(taken: set<Id>, count: nat, wanted: Id, id: Id) {
    && id !in taken
    && (wanted !in taken ==> id == wanted)
    && (wanted in taken ==> exists n :: n >= count && id == wanted + "#" + Decimal.Numeral(n)
                              && forall k :: count <= k < n ==> Suffixed(wanted, k) in taken)
  }

  /** A parent to hang a node under, with the metadata its edge carries. */
  datatype Parent = Parent(id: Id, metadata: map<string, string>)

  function AsParents(needs: seq<Id>, kwargs: seq<(string, Id)>): seq<Parent> {
    seq(|needs|, i requires 0 <= i < |needs| => Parent(needs[i], map[]))
    + seq(|kwargs|, i requires 0 <= i < |kwargs| => Parent(kwargs[i].1, map["role" := "kwarg", "name" := kwargs[i].0]))
  }

  /** First what the node needs, and then its keyword arguments, whose edges say so and by which name. */
  lemma ParentsAre(needs: seq<Id>, kwargs: seq<(string, Id)>)
    ensures var parents := AsParents(needs, kwargs);
            && |parents| == |needs| + |kwargs|
            && (forall i :: 0 <= i < |needs| ==> parents[i].id == needs[i] && parents[i].metadata == map[])
            && forall i {:trigger kwargs[i]} :: 0 <= i < |kwargs| ==>
                 var p := parents[|needs| + i];
                 p.id == kwargs[i].1 && p.metadata == map["role" := "kwarg", "name" := kwargs[i].0]
  {
  }

  /** One record for each parent, in order, with what the parent is to the node. */
  function Records(parents: seq<Parent>, n: Id): seq<EdgeRecord> {
    seq(|parents|, i requires 0 <= i < |parents| => EdgeRecord(parents[i].id, n, parents[i].metadata))
  }

  lemma NoParents(parents: seq<Parent>, n: Id)
    ensures Records(parents[..0], n) == [] && ParentIds(parents[..0]) == {}
  {
  }

  lemma RecordsStep(parents: seq<Parent>, k: nat, n: Id)
    requires k < |parents|
    ensures Records(parents[..k + 1], n)
         == Records(parents[..k], n) + [EdgeRecord(parents[k].id, n, parents[k].metadata)]
  {
  }

  function ParentIds(parents: seq<Parent>): set<Id> {
    set p | p in parents :: p.id
  }

  /**
    The bookkeeping of a partial levelling: rank numbers the nodes placed so far,
    rem[v] holds the predecessors of v that are not yet placed.
   */
  ghost predicate Placed(adj: Adjacency, waves: seq<seq<Id>>, rank: map<Id, nat>) {
    && rank.Keys <= adj.Keys
    && (forall v :: v in rank ==> rank[v] < |waves| && v in waves[rank[v]])
    && (forall i, v :: 0 <= i < |waves| && v in waves[i] ==> v in rank && rank[v] == i)
    && (forall i :: 0 <= i < |waves| ==> waves[i] != [] && Distinct(waves[i]) && Ordering.Ascending(waves[i]))
  }

  ghost predicate RankedSoFar(adj: Adjacency, rank: map<Id, nat>) {
    && (forall u, v :: Edge(adj, u, v) && v in rank ==> u in rank && rank[u] < rank[v])
    && (forall v {:trigger StepBelow(adj, rank, v)} :: v in rank && rank[v] > 0 ==> StepBelow(adj, rank, v))
  }

  ghost predicate StepBelow(adj: Adjacency, rank: map<Id, nat>, v: Id)
    requires v in rank
  {
    exists u :: Edge(adj, u, v) && u in rank && rank[u] + 1 == rank[v]
  }

  /** The nodes whose predecessors are all placed, each just below some placed node. */
  ghost predicate IsFront(adj: Adjacency, rank: map<Id, nat>, level: nat, wave: seq<Id>) {
    && Distinct(wave)
    && (forall v {:trigger v in wave} {:trigger AllPlaced(adj, rank, v)} ::
          v in wave <==> v in adj && v !in rank && AllPlaced(adj, rank, v))
    && (forall v {:trigger TouchesLevel(adj, rank, level, v)} ::
          v in wave && level > 0 ==> TouchesLevel(adj, rank, level, v))
  }

  ghost predicate AllPlaced(adj: Adjacency, rank: map<Id, nat>, v: Id) {
    forall u :: Edge(adj, u, v) ==> u in rank
  }

  ghost predicate TouchesLevel(adj: Adjacency, rank: map<Id, nat>, level: nat, v: Id) {
    exists u :: Edge(adj, u, v) && u in rank && rank[u] + 1 == level
  }

  ghost function Extend(rank: map<Id, nat>, wave: seq<Id>, level: nat): map<Id, nat> {
    rank + map v | v in wave :: level
  }

  lemma PlaceWave(adj: Adjacency, waves: seq<seq<Id>>, rank: map<Id, nat>, wave: seq<Id>)
    requires Placed(adj, waves, rank) && IsFront(adj, rank, |waves|, wave)
    requires wave != [] && Ordering.Ascending(wave)
    ensures Placed(adj, waves + [wave], Extend(rank, wave, |waves|))
  {
    var rank', waves' := Extend(rank, wave, |waves|), waves + [wave];
    forall i, v | 0 <= i < |waves'| && v in waves'[i] ensures v in rank' && rank'[v] == i {
      if i < |waves| { assert v in waves[i]; }
    }
  }

  lemma RankWave(adj: Adjacency, waves: seq<seq<Id>>, rank: map<Id, nat>, wave: seq<Id>)
    requires Placed(adj, waves, rank) && RankedSoFar(adj, rank) && IsFront(adj, rank, |waves|, wave)
    ensures RankedSoFar(adj, Extend(rank, wave, |waves|))
  {
    var rank' := Extend(rank, wave, |waves|);
    hide Placed, IsFront, Extend, StepBelow, Edge;
    forall u, v | Edge(adj, u, v) && v in rank' ensures u in rank' && rank'[u] < rank'[v] {
      EdgesRise(adj, waves, rank, wave, u, v);
    }
    forall v {:trigger StepBelow(adj, rank', v)} | v in rank' && rank'[v] > 0 ensures StepBelow(adj, rank', v) {
      Ranks(rank, wave, |waves|, v);
      if v in wave {
        NewRank(adj, rank, wave, |waves|, v);
      } else {
        OldRank(adj, rank, wave, |waves|, v);
      }
    }
  }

  lemma Ranks(rank: map<Id, nat>, wave: seq<Id>, level: nat, v: Id)
    ensures v in Extend(rank, wave, level) <==> v in rank || v in wave
    ensures v in wave ==> Extend(rank, wave, level)[v] == level
    ensures v !in wave && v in rank ==> Extend(rank, wave, level)[v] == rank[v]
  {
  }

  lemma EdgesRise(adj: Adjacency, waves: seq<seq<Id>>, rank: map<Id, nat>, wave: seq<Id>, u: Id, v: Id)
    requires Placed(adj, waves, rank) && RankedSoFar(adj, rank) && IsFront(adj, rank, |waves|, wave)
    requires Edge(adj, u, v) && v in Extend(rank, wave, |waves|)
    ensures u in Extend(rank, wave, |waves|) && Extend(rank, wave, |waves|)[u] < Extend(rank, wave, |waves|)[v]
  {
    Ranks(rank, wave, |waves|, u);
    Ranks(rank, wave, |waves|, v);
    hide Extend;
    if v in wave {
      assert AllPlaced(adj, rank, v);
    }
  }

  lemma NewRank(adj: Adjacency, rank: map<Id, nat>, wave: seq<Id>, level: nat, v: Id)
    requires IsFront(adj, rank, level, wave) && v in wave && level > 0
    ensures StepBelow(adj, Extend(rank, wave, level), v)
  {
    assert TouchesLevel(adj, rank, level, v);
    var u :| Edge(adj, u, v) && u in rank && rank[u] + 1 == level;
    assert u !in wave;
    assert Extend(rank, wave, level)[u] + 1 == Extend(rank, wave, level)[v];
  }

  lemma OldRank(adj: Adjacency, rank: map<Id, nat>, wave: seq<Id>, level: nat, v: Id)
    requires IsFront(adj, rank, level, wave) && v !in wave && v in rank && StepBelow(adj, rank, v)
    ensures StepBelow(adj, Extend(rank, wave, level), v)
  {
    var u :| Edge(adj, u, v) && u in rank && rank[u] + 1 == rank[v];
    assert u !in wave;
    assert Extend(rank, wave, level)[u] + 1 == Extend(rank, wave, level)[v];
  }

  /** When the front is empty, either everything is placed or what is left has a cycle. */
  lemma EmptyFront(adj: Adjacency, waves: seq<seq<Id>>, rank: map<Id, nat>)
    requires Closed(adj) && Placed(adj, waves, rank) && RankedSoFar(adj, rank) && IsFront(adj, rank, |waves|, [])
    ensures rank.Keys == adj.Keys ==> Acyclic(adj) && IsLevelling(adj, waves)
    ensures rank.Keys != adj.Keys ==> !Acyclic(adj)
  {
    if rank.Keys == adj.Keys {
      FullRankIsLevelling(adj, waves, rank);
    } else {
      StuckMeansCycle(adj, rank);
    }
  }

  lemma SingleNodePath(adj: Adjacency, v: Id)
    requires v in adj
    ensures IsPath(adj, [v])
  {
  }

  lemma StuckNode(adj: Adjacency, rank: map<Id, nat>, v: Id)
    requires IsFront(adj, rank, 0, []) && v in adj && v !in rank
    ensures HasPredIn(adj, adj.Keys - rank.Keys, v)
  {
    assert !AllPlaced(adj, rank, v);
    var u :| Edge(adj, u, v) && u !in rank;
    assert u in adj.Keys - rank.Keys;
  }

  lemma StuckMeansCycle(adj: Adjacency, rank: map<Id, nat>)
    requires rank.Keys < adj.Keys && IsFront(adj, rank, 0, [])
    ensures !Acyclic(adj)
  {
    var left := adj.Keys - rank.Keys;
    forall v | v in left ensures HasPredIn(adj, left, v) {
      StuckNode(adj, rank, v);
    }
    assert left != {} by { assert rank.Keys + left == adj.Keys; }
    var v :| v in left;
    SingleNodePath(adj, v);
    hide *;
    NoSourceMeansCycle(adj, left, [v]);
  }

  lemma FullRankIsLevelling(adj: Adjacency, waves: seq<seq<Id>>, rank: map<Id, nat>)
    requires Closed(adj) && Placed(adj, waves, rank) && RankedSoFar(adj, rank) && rank.Keys == adj.Keys
    ensures Acyclic(adj) && IsLevelling(adj, waves)
  {
    assert Climbs(adj, rank);
    RankedIsAcyclic(adj, rank);
    assert Grounded(adj, rank) by {
      forall w | w in adj && rank[w] > 0 ensures HasPredAt(adj, rank, w) {
        assert StepBelow(adj, rank, w);
      }
    }
    forall i, v | 0 <= i < |waves| && v in waves[i] ensures LongestPathTo(adj, v, i) {
      RankIsLongestPath(adj, rank, v);
    }
  }

  // ----- releasing the successors of a wave -----

  /** Edge p -> v counts as released once p is placed or its list has been walked up to v. */
  ghost predicate Released(succ: Adjacency, rank: map<Id, nat>, wave: seq<Id>, i: nat, j: nat, p: Id, v: Id)
    requires i <= |wave|
  {
    || p in rank
    || p in wave[..i]
    || (i < |wave| && p == wave[i] && p in succ && j <= |succ[p]| && v in succ[p][..j])
  }

  ghost predicate Countdown(succ: Adjacency, pred: Adjacency, rank: map<Id, nat>, wave: seq<Id>, i: nat, j: nat,
                            rem: map<Id, set<Id>>, indeg: map<Id, int>)
    requires i <= |wave|
  {
    && rem.Keys == indeg.Keys == pred.Keys
    && (forall v :: v in pred ==> indeg[v] == |rem[v]|)
    && (forall v, p :: v in pred ==>
        (p in rem[v] <==> p in pred[v] && !Released(succ, rank, wave, i, j, p, v)))
  }

  /** nxt collects the nodes whose last missing predecessor has just been released. */
  ghost predicate Collected(succ: Adjacency, rank: map<Id, nat>, wave: seq<Id>, rem: map<Id, set<Id>>, nxt: seq<Id>) {
    && Distinct(nxt)
    && (forall v :: v in nxt <==> v in rem && rem[v] == {} && v !in rank && v !in wave)
    && (forall v {:trigger FedBy(succ, wave, v)} :: v in nxt ==> FedBy(succ, wave, v))
  }

  ghost predicate FedBy(succ: Adjacency, wave: seq<Id>, v: Id) {
    exists u :: u in wave && Edge(succ, u, v)
  }

  lemma ReleasedNext(succ: Adjacency, rank: map<Id, nat>, wave: seq<Id>, i: nat, j: nat, p: Id, w: Id)
    requires i < |wave| && wave[i] in succ && j < |succ[wave[i]]|
    ensures Released(succ, rank, wave, i, j + 1, p, w) <==>
              Released(succ, rank, wave, i, j, p, w) || (p == wave[i] && w == succ[wave[i]][j])
  {
    assert succ[wave[i]][..j + 1] == succ[wave[i]][..j] + [succ[wave[i]][j]];
  }

  /** The node being released has not released this successor before. */
  lemma NotYetReleased(succ: Adjacency, rank: map<Id, nat>, wave: seq<Id>, i: nat, j: nat)
    requires Distinct(wave) && i < |wave| && wave[i] in succ && j < |succ[wave[i]]| && Distinct(succ[wave[i]])
    requires wave[i] !in rank
    ensures !Released(succ, rank, wave, i, j, wave[i], succ[wave[i]][j])
  {
    assert succ[wave[i]][j] !in succ[wave[i]][..j];
    assert wave[i] !in wave[..i];
  }

  lemma ReleaseOne(succ: Adjacency, pred: Adjacency, rank: map<Id, nat>, wave: seq<Id>, i: nat, j: nat,
                   rem: map<Id, set<Id>>, indeg: map<Id, int>)
    requires Mirrored(succ, pred) && Distinct(wave) && i < |wave| && wave[i] in succ && j < |succ[wave[i]]|
    requires wave[i] !in rank
    requires Countdown(succ, pred, rank, wave, i, j, rem, indeg)
    ensures var v := succ[wave[i]][j];
            && v in rem && wave[i] in rem[v]
            && Countdown(succ, pred, rank, wave, i, j + 1, rem[v := rem[v] - {wave[i]}], indeg[v := indeg[v] - 1])
  {
    var u := wave[i];
    var v := succ[u][j];
    assert Edge(succ, u, v);
    assert Edge(pred, v, u);
    NotYetReleased(succ, rank, wave, i, j);
    hide Mirrored, Released, Edge;
    forall w, p | w in pred
      ensures Released(succ, rank, wave, i, j + 1, p, w) <==>
                Released(succ, rank, wave, i, j, p, w) || (p == u && w == v)
    {
      ReleasedNext(succ, rank, wave, i, j, p, w);
    }
  }

  lemma ReleaseRow(succ: Adjacency, pred: Adjacency, rank: map<Id, nat>, wave: seq<Id>, i: nat,
                   rem: map<Id, set<Id>>, indeg: map<Id, int>)
    requires Mirrored(succ, pred) && i < |wave| && wave[i] in succ
    requires Countdown(succ, pred, rank, wave, i, |succ[wave[i]]|, rem, indeg)
    ensures Countdown(succ, pred, rank, wave, i + 1, 0, rem, indeg)
  {
    hide Mirrored, Released;
    forall v, p | v in pred
      ensures p in rem[v] <==> p in pred[v] && !Released(succ, rank, wave, i + 1, 0, p, v)
    {
      if p in pred[v] { RowReleased(succ, pred, rank, wave, i, v, p); }
    }
  }

  lemma RowReleased(succ: Adjacency, pred: Adjacency, rank: map<Id, nat>, wave: seq<Id>, i: nat, v: Id, p: Id)
    requires Mirrored(succ, pred) && i < |wave| && wave[i] in succ && v in pred && p in pred[v]
    ensures Released(succ, rank, wave, i, |succ[wave[i]]|, p, v) <==> Released(succ, rank, wave, i + 1, 0, p, v)
  {
    var u := wave[i];
    assert wave[..i + 1] == wave[..i] + [u];
    assert succ[u][..|succ[u]|] == succ[u];
    assert Edge(pred, v, p) && Edge(succ, p, v);
  }

  /** Once the wave is fully released, what is left to release depends on the ranks alone. */
  lemma WaveReleased(succ: Adjacency, pred: Adjacency, rank: map<Id, nat>, level: nat, wave: seq<Id>,
                     rem: map<Id, set<Id>>, indeg: map<Id, int>, next: seq<Id>)
    requires Countdown(succ, pred, rank, wave, |wave|, 0, rem, indeg)
    ensures Countdown(succ, pred, Extend(rank, wave, level), next, 0, 0, rem, indeg)
  {
    var rank' := Extend(rank, wave, level);
    assert wave[..|wave|] == wave;
    forall v, p | v in pred
      ensures p in rem[v] <==> p in pred[v] && !Released(succ, rank', next, 0, 0, p, v)
    {
      assert Released(succ, rank, wave, |wave|, 0, p, v) <==> p in rank';
      assert Released(succ, rank', next, 0, 0, p, v) <==> p in rank';
    }
  }

  /** The collected nodes are then exactly the next front. */
  lemma NextFront(succ: Adjacency, pred: Adjacency, rank: map<Id, nat>, level: nat, wave: seq<Id>,
                  rem: map<Id, set<Id>>, indeg: map<Id, int>, nxt: seq<Id>)
    requires Mirrored(succ, pred) && forall v :: v in wave ==> v in succ && v !in rank
    requires Countdown(succ, pred, Extend(rank, wave, level), nxt, 0, 0, rem, indeg)
    requires Collected(succ, rank, wave, rem, nxt)
    ensures IsFront(succ, Extend(rank, wave, level), level + 1, nxt)
  {
    var rank' := Extend(rank, wave, level);
    forall v ensures v in nxt <==> v in succ && v !in rank' && AllPlaced(succ, rank', v) {
      if v in succ {
        WaitsFor(succ, pred, rank', nxt, rem, indeg, v);
      }
    }
    forall v | v in nxt ensures TouchesLevel(succ, rank', level + 1, v) {
      FedTouches(succ, rank, level, wave, v);
    }
  }

  lemma FedTouches(succ: Adjacency, rank: map<Id, nat>, level: nat, wave: seq<Id>, v: Id)
    requires FedBy(succ, wave, v)
    ensures TouchesLevel(succ, Extend(rank, wave, level), level + 1, v)
  {
    var u :| u in wave && Edge(succ, u, v);
    assert Extend(rank, wave, level)[u] + 1 == level + 1;
  }

  lemma WaitsFor(succ: Adjacency, pred: Adjacency, rank: map<Id, nat>, wave: seq<Id>,
                 rem: map<Id, set<Id>>, indeg: map<Id, int>, v: Id)
    requires Mirrored(succ, pred) && v in succ
    requires Countdown(succ, pred, rank, wave, 0, 0, rem, indeg)
    ensures rem[v] == {} <==> AllPlaced(succ, rank, v)
  {
    forall p ensures p in rem[v] <==> p in pred[v] && p !in rank {
      assert Released(succ, rank, wave, 0, 0, p, v) <==> p in rank;
    }
    EmptiedNode(succ, pred, rank, rem, v);
  }

  lemma EmptiedNode(succ: Adjacency, pred: Adjacency, rank: map<Id, nat>, rem: map<Id, set<Id>>, v: Id)
    requires Mirrored(succ, pred) && v in pred && v in rem
    requires forall p :: p in rem[v] <==> p in pred[v] && p !in rank
    ensures rem[v] == {} <==> AllPlaced(succ, rank, v)
  {
    if rem[v] == {} {
      forall u | Edge(succ, u, v) ensures u in rank {
        assert Edge(pred, v, u);
        assert u !in rem[v];
      }
    } else {
      var u :| u in rem[v];
      assert Edge(pred, v, u);
      assert Edge(succ, u, v) && u !in rank;
    }
  }

  lemma InitialCountdown(succ: Adjacency, pred: Adjacency, rem: map<Id, set<Id>>, indeg: map<Id, int>, wave: seq<Id>)
    requires Mirrored(succ, pred)
    requires rem == map v | v in pred :: set p | p in pred[v]
    requires indeg == map v | v in pred :: |pred[v]|
    ensures Countdown(succ, pred, map[], wave, 0, 0, rem, indeg)
  {
    forall v | v in pred ensures indeg[v] == |rem[v]| {
      DistinctCard(pred[v]);
    }
  }

  lemma InitialFront(succ: Adjacency, pred: Adjacency, wave: seq<Id>)
    requires Mirrored(succ, pred) && Distinct(wave)
    requires forall v :: v in wave <==> v in pred && |pred[v]| == 0
    ensures IsFront(succ, map[], 0, wave)
  {
    forall v | v in succ ensures |pred[v]| == 0 <==> AllPlaced(succ, map[], v) {
      if |pred[v]| > 0 {
        assert Edge(pred, v, pred[v][0]);
        assert Edge(succ, pred[v][0], v);
      }
    }
  }

  /** Decrementing one counter collects the node exactly when nothing else is missing. */
  lemma CollectOne(succ: Adjacency, rank: map<Id, nat>, wave: seq<Id>, rem: map<Id, set<Id>>, nxt: seq<Id>, u: Id,
                   v: Id)
    requires Collected(succ, rank, wave, rem, nxt) && u in wave && Edge(succ, u, v)
    requires v in rem && u in rem[v] && v !in rank && v !in wave
    ensures var rem' := rem[v := rem[v] - {u}];
            Collected(succ, rank, wave, rem', if rem'[v] == {} then nxt + [v] else nxt)
  {
    var rem' := rem[v := rem[v] - {u}];
    assert v !in nxt;
    assert FedBy(succ, wave, v);
    forall w
      ensures w in (if rem'[v] == {} then nxt + [v] else nxt) <==>
                w in rem' && rem'[w] == {} && w !in rank && w !in wave
    {
    }
  }

  /** A node of the wave, or an earlier one, has no unreleased predecessor. */
  lemma FrontIsReleased(succ: Adjacency, pred: Adjacency, rank: map<Id, nat>, wave: seq<Id>, i: nat, j: nat,
                        rem: map<Id, set<Id>>, indeg: map<Id, int>, level: nat, u: Id, v: Id)
    requires Mirrored(succ, pred) && RankedSoFar(succ, rank) && IsFront(succ, rank, level, wave) && i <= |wave|
    requires Countdown(succ, pred, rank, wave, i, j, rem, indeg)
    requires v in rem && u in rem[v]
    ensures v !in rank && v !in wave
  {
    assert Edge(pred, v, u);
    assert Edge(succ, u, v);
    assert !Released(succ, rank, wave, i, j, u, v);
    assert !AllPlaced(succ, rank, v);
  }

  lemma SortedFront(adj: Adjacency, rank: map<Id, nat>, level: nat, wave: seq<Id>)
    requires IsFront(adj, rank, level, wave)
    ensures IsFront(adj, rank, level, Ordering.Sort(wave))
  {
    Ordering.SortKeepsElements(wave);
  }

  /** The nodes without predecessors, ascending. */
  method Sources(ids: seq<Id>, succ: Adjacency, pred: Adjacency, ghost edges: seq<EdgeRecord>, indeg: map<Id, int>)
    returns (wave: seq<Id>)
    requires WellFormed(ids, succ, pred, edges) && indeg == map v | v in pred :: |pred[v]|
    ensures Distinct(wave) && Ordering.Ascending(wave)
    ensures forall v :: v in wave <==> v in pred && |pred[v]| == 0
  {
    wave := [];
    for k := 0 to |ids|
      invariant Distinct(wave)
      invariant forall v :: v in wave <==> v in ids[..k] && v in pred && |pred[v]| == 0
    {
      assert ids[..k + 1] == ids[..k] + [ids[k]];
      assert ids[k] !in ids[..k];
      if indeg[ids[k]] == 0 { wave := wave + [ids[k]]; }
    }
    assert ids[..|ids|] == ids;
    Ordering.SortKeepsElements(wave);
    wave := Ordering.Sort(wave);
  }

  /** Counts down the successors of every node in the wave, collecting those that reach zero. */
  method ReleaseWave(succ: Adjacency, ghost pred: Adjacency, ghost rank: map<Id, nat>, ghost level: nat, wave: seq<Id>,
                     indeg0: map<Id, int>, ghost rem0: map<Id, set<Id>>)
    returns (indeg: map<Id, int>, nxt: seq<Id>, ghost rem: map<Id, set<Id>>)
    requires Mirrored(succ, pred) && RankedSoFar(succ, rank) && IsFront(succ, rank, level, wave)
    requires Countdown(succ, pred, rank, wave, 0, 0, rem0, indeg0)
    ensures Countdown(succ, pred, rank, wave, |wave|, 0, rem, indeg)
    ensures Collected(succ, rank, wave, rem, nxt)
  {
    indeg, nxt, rem := indeg0, [], rem0;
    NothingCollected(succ, pred, rank, wave, rem, indeg, level);
    for i := 0 to |wave|
      invariant Countdown(succ, pred, rank, wave, i, 0, rem, indeg)
      invariant Collected(succ, rank, wave, rem, nxt)
    {
      var u := wave[i];
      assert u in wave;
      for j := 0 to |succ[u]|
        invariant Countdown(succ, pred, rank, wave, i, j, rem, indeg)
        invariant Collected(succ, rank, wave, rem, nxt)
      {
        var v := succ[u][j];
        ReleaseOne(succ, pred, rank, wave, i, j, rem, indeg);
        FrontIsReleased(succ, pred, rank, wave, i, j, rem, indeg, level, u, v);
        assert Edge(succ, u, v);
        CollectOne(succ, rank, wave, rem, nxt, u, v);
        rem := rem[v := rem[v] - {u}];
        indeg := indeg[v := indeg[v] - 1];
        if indeg[v] == 0 {
          nxt := nxt + [v];
        }
      }
      ReleaseRow(succ, pred, rank, wave, i, rem, indeg);
    }
  }

  lemma CountsEveryId(ids: seq<Id>, succ: Adjacency, pred: Adjacency, edges: seq<EdgeRecord>)
    requires WellFormed(ids, succ, pred, edges)
    ensures |ids| == |succ| && |succ| == |succ.Keys| && Mirrored(succ, pred) && Closed(succ)
  {
    DistinctCard(ids);
    assert (set x | x in ids) == succ.Keys;
  }

  method FirstWave(ids: seq<Id>, succ: Adjacency, pred: Adjacency, ghost edges: seq<EdgeRecord>)
    returns (indeg: map<Id, int>, wave: seq<Id>, ghost rem: map<Id, set<Id>>)
    requires WellFormed(ids, succ, pred, edges)
    ensures IsFront(succ, map[], 0, wave) && Ordering.Ascending(wave)
    ensures Countdown(succ, pred, map[], wave, 0, 0, rem, indeg)
  {
    indeg := map v | v in pred :: |pred[v]|;
    rem := map v | v in pred :: set p | p in pred[v];
    wave := Sources(ids, succ, pred, edges, indeg);
    InitialFront(succ, pred, wave);
    InitialCountdown(succ, pred, rem, indeg, wave);
  }

  /** Kahn's algorithm: wave by wave, the nodes whose predecessors have all been placed. */
  method FindLevels(ids: seq<Id>, succ: Adjacency, pred: Adjacency, ghost edges: seq<EdgeRecord>)
    returns (r: Result<seq<seq<Id>>, GraphError>)
    requires WellFormed(ids, succ, pred, edges)
    ensures r.Ok? <==> Acyclic(succ)
    ensures r.Ok? ==> IsLevelling(succ, r.value)
    ensures r.Err? ==> r.error == ContainsCycle
  {
    hide *;
    NothingPlaced(succ);
    CountsEveryId(ids, succ, pred, edges);
    var indeg, wave;
    ghost var rem;
    indeg, wave, rem := FirstWave(ids, succ, pred, edges);
    ghost var rank: map<Id, nat> := map[];
    var waves: seq<seq<Id>>, seen := [], 0;
    while wave != []
      invariant Placed(succ, waves, rank) && RankedSoFar(succ, rank)
      invariant IsFront(succ, rank, |waves|, wave) && Ordering.Ascending(wave)
      invariant Countdown(succ, pred, rank, wave, 0, 0, rem, indeg)
      invariant seen == |rank|
      decreases succ.Keys - rank.Keys
    {
      ghost var level := |waves|;
      PlaceWave(succ, waves, rank, wave);
      RankWave(succ, waves, rank, wave);
      FrontIsNew(succ, rank, level, wave);
      waves := waves + [wave];
      seen := seen + |wave|;
      var nxt: seq<Id> := [];
      indeg, nxt, rem := ReleaseWave(succ, pred, rank, level, wave, indeg, rem);
      NextWave(succ, pred, rank, level, wave, rem, indeg, nxt);
      assert |waves| == level + 1;
      rank := Extend(rank, wave, level);
      wave := Ordering.Sort(nxt);
      assert IsFront(succ, rank, level + 1, wave);
    }
    EmptyFront(succ, waves, rank);
    PlacedKeys(succ, waves, rank);
    if seen != |ids| {
      return Err(ContainsCycle);
    }
    EqualCard(rank.Keys, succ.Keys);
    return Ok(waves);
  }

  lemma NothingPlaced(adj: Adjacency)
    ensures Placed(adj, [], map[]) && RankedSoFar(adj, map[])
  {
  }

  lemma PlacedKeys(adj: Adjacency, waves: seq<seq<Id>>, rank: map<Id, nat>)
    requires Placed(adj, waves, rank)
    ensures rank.Keys <= adj.Keys
  {
  }

  lemma FrontIsNew(adj: Adjacency, rank: map<Id, nat>, level: nat, wave: seq<Id>)
    requires IsFront(adj, rank, level, wave) && wave != []
    ensures |Extend(rank, wave, level)| == |rank| + |wave|
    ensures adj.Keys - Extend(rank, wave, level).Keys < adj.Keys - rank.Keys
  {
    ExtendCard(rank, wave, level);
    assert wave[0] in wave && wave[0] in adj && wave[0] !in rank;
  }

  lemma NextWave(succ: Adjacency, pred: Adjacency, rank: map<Id, nat>, level: nat, wave: seq<Id>,
                 rem: map<Id, set<Id>>, indeg: map<Id, int>, nxt: seq<Id>)
    requires Mirrored(succ, pred) && IsFront(succ, rank, level, wave)
    requires Countdown(succ, pred, rank, wave, |wave|, 0, rem, indeg) && Collected(succ, rank, wave, rem, nxt)
    ensures IsFront(succ, Extend(rank, wave, level), level + 1, Ordering.Sort(nxt))
    ensures Ordering.Ascending(Ordering.Sort(nxt))
    ensures Countdown(succ, pred, Extend(rank, wave, level), Ordering.Sort(nxt), 0, 0, rem, indeg)
  {
    WaveReleased(succ, pred, rank, level, wave, rem, indeg, nxt);
    WaveReleased(succ, pred, rank, level, wave, rem, indeg, Ordering.Sort(nxt));
    hide Countdown, Collected, Extend;
    NextFront(succ, pred, rank, level, wave, rem, indeg, nxt);
    SortedFront(succ, Extend(rank, wave, level), level + 1, nxt);
  }

  // ----- the class -----

  class Graph<D(==)> {
    var ids: seq<Id>
    var data: map<Id, Option<D>>
    var succ: Adjacency
    var pred: Adjacency
    var edges: seq<EdgeRecord>

    ghost predicate Valid()
      reads this
    {
      data.Keys == succ.Keys && WellFormed(ids, succ, pred, edges)
    }

    constructor ()
      ensures Valid() && ids == [] && data == map[] && succ == map[] && pred == map[] && edges == []
    {
      ids, data, succ, pred, edges := [], map[], map[], map[], [];
    }

    /** Adding a node twice keeps the first payload and only fills in a missing one. */
    method AddNode(id: Id, payload: Option<D>)
      requires Valid()
      modifies this
      ensures Valid() && edges == old(edges) && id in succ
      ensures id in old(succ) ==> ids == old(ids) && succ == old(succ) && pred == old(pred)
      ensures id !in old(succ) ==>
                ids == old(ids) + [id] && succ == old(succ)[id := []] && pred == old(pred)[id := []]
      ensures data == if id in old(data) && old(data)[id].Some? then old(data) else old(data)[id := payload]
    {
      hide WellFormed;
      if id !in data {
        NewNodeKeepsForm(ids, succ, pred, edges, id);
        data, succ, pred := data[id := payload], succ[id := []], pred[id := []];
        ids := ids + [id];
      } else if data[id].None? {
        data := data[id := payload];
      }
    }

    /** Both ends must exist; a repeated edge is recorded but not listed twice. */
    method AddEdge(source: Id, target: Id, metadata: map<string, string>) returns (r: Result<EdgeRecord, GraphError>)
      requires Valid()
      modifies this`edges, this`succ, this`pred
      ensures Valid()
      ensures succ.Keys == old(succ.Keys)
      ensures r.Ok? <==> source in old(succ) && target in old(succ)
      ensures r.Ok? ==>
                && r.value == EdgeRecord(source, target, metadata)
                && edges == old(edges) + [r.value]
                && succ == Link(old(succ), source, target)
                && pred == Link(old(pred), target, source)
      ensures r.Err? ==>
                && r.error == UnknownNode(if source !in old(succ) then source else target)
                && edges == old(edges) && succ == old(succ) && pred == old(pred)
    {
      hide WellFormed;
      if source !in data { return Err(UnknownNode(source)); }
      if target !in data { return Err(UnknownNode(target)); }
      var edge := EdgeRecord(source, target, metadata);
      NewEdgeKeepsForm(ids, succ, pred, edges, edge);
      edges := edges + [edge];
      if target !in succ[source] { succ := succ[source := succ[source] + [target]]; }
      if source !in pred[target] { pred := pred[target := pred[target] + [source]]; }
      return Ok(edge);
    }

    /** Groups the nodes into waves, or reports that the graph contains a cycle. */
    method Levels() returns (r: Result<seq<seq<Id>>, GraphError>)
      requires Valid()
      ensures r.Ok? <==> Acyclic(succ)
      ensures r.Ok? ==> IsLevelling(succ, r.value)
      ensures r.Err? ==> r.error == ContainsCycle
    {
      r := FindLevels(ids, succ, pred, edges);
    }

    /** The nodes with every edge pointing forwards, or an error on a cyclic graph. */
    method TopologicalOrder() returns (r: Result<seq<Id>, GraphError>)
      requires Valid()
      ensures r.Ok? <==> Acyclic(succ)
      ensures r.Ok? ==> IsTopologicalOrder(succ, r.value)
      ensures r.Err? ==> r.error == ContainsCycle
    {
      var levels := Levels();
      match levels
      case Ok(waves) =>
        FlattenedLevelling(succ, waves);
        return Ok(Flatten(waves));
      case Err(e) =>
        return Err(e);
    }

    /**
      Adds a node under parents that are already present. An unknown parent is an
      error, and the node and the edges wired before it stay behind.
     */
    method Attach(wanted: Id, payload: Option<D>, needs: seq<Id>, kwargs: seq<(string, Id)>)
      returns (id: Id, r: Result<Id, GraphError>)
      requires Valid()
      modifies this
      ensures Valid() && IsFreshId(old(succ).Keys, |old(ids)|, wanted, id)
      ensures ids == old(ids) + [id] && data == old(data)[id := payload]
      ensures var parents := AsParents(needs, kwargs);
              var known := KnownPrefix(parents, succ.Keys);
              && Hung(old(succ), succ, id, ParentIds(parents[..known]))
              && edges == old(edges) + Records(parents[..known], id)
              && r == if known == |parents| then Ok(id) else Err(UnknownParent(id, parents[known].id))
    {
      id := FreshId(wanted);
      AddNode(id, payload);
      r := HangUnder(id, AsParents(needs, kwargs), old(succ));
    }

    /** Wires the new node to its parents in order, stopping at the first unknown one. */
    method HangUnder(id: Id, parents: seq<Parent>, ghost before: Adjacency) returns (r: Result<Id, GraphError>)
      requires Valid() && id in succ && Hung(before, succ, id, {})
      modifies this`edges, this`succ, this`pred
      ensures Valid() && succ.Keys == old(succ).Keys
      ensures var known := KnownPrefix(parents, succ.Keys);
              && Hung(before, succ, id, ParentIds(parents[..known]))
              && edges == old(edges) + Records(parents[..known], id)
              && r == if known == |parents| then Ok(id) else Err(UnknownParent(id, parents[known].id))
    {
      hide WellFormed, Hung, Records, ParentIds, KnownPrefix, Link;
      ghost var known := KnownPrefix(parents, succ.Keys);
      NoParents(parents, id);
      for k := 0 to |parents|
        invariant Valid() && succ.Keys == old(succ).Keys && k <= known
        invariant Hung(before, succ, id, ParentIds(parents[..k]))
        invariant edges == old(edges) + Records(parents[..k], id)
      {
        var p := parents[k];
        if p.id !in data {
          return Err(UnknownParent(id, p.id));
        }
        HangOne(before, succ, id, ParentIds(parents[..k]), p.id);
        var _ := AddEdge(p.id, id, p.metadata);
        ParentIdsStep(parents, k);
        RecordsStep(parents, k, id);
      }
      return Ok(id);
    }

    /** Bumps a numeric suffix until the id is genuinely unused. */
    method FreshId(wanted: Id) returns (id: Id)
      requires Valid()
      ensures IsFreshId(succ.Keys, |ids|, wanted, id)
    {
      if wanted !in data { return wanted; }
      var count := |ids|;
      var n := count;
      while Suffixed(wanted, n) in data
        invariant n >= count
        invariant forall k :: count <= k < n ==> Suffixed(wanted, k) in succ
        decreases count + |succ.Keys| - n
      {
        ManyTried(wanted, count, n + 1, succ.Keys);
        n := n + 1;
      }
      return Suffixed(wanted, n);
    }
  }

  /** Different numbers make different ids, so only so many can be taken. */
  lemma {:induction false} ManyTried(wanted: Id, count: nat, n: nat, keys: set<Id>)
    requires count <= n && forall k :: count <= k < n ==> Suffixed(wanted, k) in keys
    ensures n - count <= |keys|
    decreases n
  {
    if count < n {
      var last := Suffixed(wanted, n - 1);
      forall k | count <= k < n - 1 ensures Suffixed(wanted, k) in keys - {last} {
        if Suffixed(wanted, k) == last { SuffixedInjective(wanted, k, n - 1); }
      }
      ManyTried(wanted, count, n - 1, keys - {last});
    }
  }

  /** Before any release, a node outside the front still waits for some predecessor. */
  lemma NothingCollected(succ: Adjacency, pred: Adjacency, rank: map<Id, nat>, wave: seq<Id>,
                         rem: map<Id, set<Id>>, indeg: map<Id, int>, level: nat)
    requires Mirrored(succ, pred) && IsFront(succ, rank, level, wave)
    requires Countdown(succ, pred, rank, wave, 0, 0, rem, indeg)
    ensures Collected(succ, rank, wave, rem, [])
  {
    forall v | v in rem && rem[v] == {} && v !in rank ensures v in wave {
      WaitsFor(succ, pred, rank, wave, rem, indeg, v);
    }
  }

  lemma ExtendCard(rank: map<Id, nat>, wave: seq<Id>, level: nat)
    requires Distinct(wave) && forall v :: v in wave ==> v !in rank
    ensures |Extend(rank, wave, level)| == |rank| + |wave|
  {
    DistinctCard(wave);
    assert Extend(rank, wave, level).Keys == rank.Keys + (set x | x in wave);
  }

  lemma EqualCard(a: set<Id>, b: set<Id>)
    requires a <= b && |a| == |b|
    ensures a == b
  {
    assert b == a + (b - a);
    assert |b - a| == 0;
  }
}
