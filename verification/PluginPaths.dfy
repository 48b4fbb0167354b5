/** What depends on what among the registered plugins, and the graph that says the same of their nodes. */
module PluginPaths {
  import opened Digraph
  import opened Requirements
  import Graphs

  // ----- plugins -----

  /** No later registration is of the same instance; it stands for the instance. */
  predicate IsLast(plugins: seq<PluginInfo>, i: nat) {
    i < |plugins| && forall k :: i < k < |plugins| ==> plugins[k].instance != plugins[i].instance
  }

  /** Some registration of j's instance requires a kind that some registration of i's, another one, is of. */
  ghost predicate Needs(plugins: seq<PluginInfo>, i: nat, j: nat)
    requires i < |plugins| && j < |plugins|
  {
    && plugins[i].instance != plugins[j].instance
    && exists a, b, d :: 0 <= a < |plugins| && 0 <= b < |plugins| && 0 <= d < |plugins[b].requirements|
         && plugins[a].instance == plugins[i].instance && plugins[b].instance == plugins[j].instance
         && plugins[b].requirements[d] in plugins[a].kinds
  }

  /** Plugin i provides something that plugin j requires. */
  ghost predicate Feeds(plugins: seq<PluginInfo>, i: nat, j: nat) {
    IsLast(plugins, i) && IsLast(plugins, j) && Needs(plugins, i, j)
  }

  ghost predicate IsChain(plugins: seq<PluginInfo>, p: seq<nat>) {
    && p != [] && p[0] < |plugins|
    && forall k, l :: 0 <= k < l < |p| && l == k + 1 ==> Feeds(plugins, p[k], p[l])
  }

  /** Plugin j depends on plugin i, directly or through others, or is it. */
  ghost predicate Leads(plugins: seq<PluginInfo>, i: nat, j: nat) {
    exists p :: IsChain(plugins, p) && p[0] == i && p[|p| - 1] == j
  }

  /** Plugin i depends on itself through others. */
  ghost predicate Loops(plugins: seq<PluginInfo>, i: nat) {
    exists p :: IsChain(plugins, p) && p[0] == i == p[|p| - 1] && |p| >= 2
  }

  ghost predicate NoLoops(plugins: seq<PluginInfo>) {
    forall i: nat :: !Loops(plugins, i)
  }

  /** These are positions of registered plugins, none of them twice. */
  ghost predicate Positions(plugins: seq<PluginInfo>, at: seq<nat>) {
    Distinct(at) && forall k :: 0 <= k < |at| ==> at[k] < |plugins|
  }

  /** The plugins at these positions, in this order. */
  ghost predicate Lists(plugins: seq<PluginInfo>, at: seq<nat>, r: seq<PluginInfo>) {
    Positions(plugins, at) && |r| == |at| && forall k :: 0 <= k < |at| ==> r[k] == plugins[at[k]]
  }

  ghost predicate ListsNames(plugins: seq<PluginInfo>, at: seq<nat>, r: seq<string>) {
    Positions(plugins, at) && |r| == |at| && forall k :: 0 <= k < |at| ==> r[k] == plugins[at[k]].name
  }

  ghost predicate ProvidersFirst(plugins: seq<PluginInfo>, at: seq<nat>) {
    forall x, y :: 0 <= x < |at| && 0 <= y < |at| && Feeds(plugins, at[x], at[y]) ==> x < y
  }

  ghost predicate Ascending(at: seq<nat>) {
    forall x, y :: 0 <= x < y < |at| ==> at[x] < at[y]
  }

  /** The given plugins once each: providers first, or as registered when some plugin depends on itself. */
  ghost predicate InOrder(plugins: seq<PluginInfo>, at: seq<nat>) {
    if NoLoops(plugins) then ProvidersFirst(plugins, at) else Ascending(at)
  }

  // ----- every plugin once -----

  function Picked(plugins: seq<PluginInfo>, at: seq<nat>): seq<PluginInfo>
    requires forall k :: 0 <= k < |at| ==> at[k] < |plugins|
  {
    seq(|at|, k requires 0 <= k < |at| => plugins[at[k]])
  }

  /** Exactly the positions below n. */
  ghost predicate Covers(at: seq<nat>, n: nat) {
    |at| == n && (forall k :: 0 <= k < |at| ==> at[k] < n) && forall i: nat {:trigger i in at} :: i < n ==> i in at
  }

  lemma AtOf(at: seq<nat>, n: nat, i: nat) returns (k: nat)
    requires Covers(at, n) && i < n
    ensures k < |at| && at[k] == i
  {
    assert i in at;
    k :| k < |at| && at[k] == i;
  }

  /** Positions that leave none out give the plugins in another order. */
  lemma {:induction false} AllOnce(plugins: seq<PluginInfo>, at: seq<nat>, n: nat)
    requires n <= |plugins| && Distinct(at) && Covers(at, n)
    ensures multiset(Picked(plugins, at)) == multiset(plugins[..n])
  {
    if n == 0 {
      assert Picked(plugins, at) == [] == plugins[..n];
    } else {
      hide Picked, Covers, Distinct;
      var k := AtOf(at, n, n - 1);
      InRange(plugins, at, n);
      WithoutOne(at, k, n);
      var rest := at[..k] + at[k + 1..];
      InRange(plugins, rest, n - 1);
      AllOnce(plugins, rest, n - 1);
      PickedWithoutOne(plugins, at, k, rest);
      LastOfFirst(plugins, n);
    }
  }

  lemma InRange(plugins: seq<PluginInfo>, at: seq<nat>, n: nat)
    requires n <= |plugins| && Covers(at, n)
    ensures forall k :: 0 <= k < |at| ==> at[k] < |plugins|
  {
  }

  lemma LastOfFirst(plugins: seq<PluginInfo>, n: nat)
    requires 0 < n <= |plugins|
    ensures multiset(plugins[..n]) == multiset(plugins[..n - 1]) + multiset{plugins[n - 1]}
  {
    assert plugins[..n] == plugins[..n - 1] + [plugins[n - 1]];
  }

  lemma PickedWithoutOne(plugins: seq<PluginInfo>, at: seq<nat>, k: nat, rest: seq<nat>)
    requires k < |at| && forall m :: 0 <= m < |at| ==> at[m] < |plugins|
    requires rest == at[..k] + at[k + 1..] && forall m :: 0 <= m < |rest| ==> rest[m] < |plugins|
    ensures multiset(Picked(plugins, at)) == multiset(Picked(plugins, rest)) + multiset{plugins[at[k]]}
  {
    var all := Picked(plugins, at);
    assert Picked(plugins, rest) == all[..k] + all[k + 1..];
    assert all == all[..k] + [all[k]] + all[k + 1..];
    hide Picked;
    assert multiset(all) == multiset(all[..k]) + multiset{all[k]} + multiset(all[k + 1..]);
  }

  lemma WithoutOne(at: seq<nat>, k: nat, n: nat)
    requires 0 < n && Distinct(at) && k < |at| && at[k] == n - 1 && Covers(at, n)
    ensures Distinct(at[..k] + at[k + 1..]) && Covers(at[..k] + at[k + 1..], n - 1)
  {
    var rest := at[..k] + at[k + 1..];
    forall m | 0 <= m < |rest| ensures rest[m] < n - 1 {
      assert rest[m] == at[if m < k then m else m + 1];
    }
    forall i: nat | i < n - 1 ensures i in rest {
      var m := AtOf(at, n, i);
      assert rest[if m < k then m else m - 1] == i;
    }
  }

  /** With every instance registered once, whatever satisfies a requirement comes before what requires it. */
  lemma ProvidersBefore(plugins: seq<PluginInfo>, at: seq<nat>, r: seq<PluginInfo>, x: nat, y: nat)
    requires Lists(plugins, at, r) && ProvidersFirst(plugins, at) && x < |r| && y < |r|
    requires forall i, j :: 0 <= i < j < |plugins| ==> plugins[i].instance != plugins[j].instance
    requires r[x].instance != r[y].instance && exists dep :: dep in r[y].requirements && dep in r[x].kinds
    ensures x < y
  {
    var dep :| dep in r[y].requirements && dep in r[x].kinds;
    var d :| 0 <= d < |r[y].requirements| && r[y].requirements[d] == dep;
    assert Needs(plugins, at[x], at[y]) by {
      assert plugins[at[y]].requirements[d] in plugins[at[x]].kinds;
    }
    assert Feeds(plugins, at[x], at[y]);
  }

  // ----- the graph -----

  /** The graph has one node a plugin and an edge exactly where one plugin feeds another. */
  ghost predicate Models(plugins: seq<PluginInfo>, ids: seq<Id>, adj: Adjacency) {
    && |ids| == |plugins| && Distinct(ids) && (forall x :: x in ids <==> x in adj)
    && (forall u, v :: Edge(adj, u, v) ==> v in adj)
    && forall i, j :: 0 <= i < |ids| && 0 <= j < |ids| ==> (Edge(adj, ids[i], ids[j]) <==> Feeds(plugins, i, j))
  }

  function At(ids: seq<Id>, p: seq<nat>): (q: seq<Id>)
    requires forall k :: 0 <= k < |p| ==> p[k] < |ids|
    ensures |q| == |p|
  {
    seq(|p|, k requires 0 <= k < |p| => ids[p[k]])
  }

  lemma ChainIsPath(plugins: seq<PluginInfo>, ids: seq<Id>, adj: Adjacency, p: seq<nat>)
    requires Models(plugins, ids, adj) && IsChain(plugins, p)
    ensures forall k :: 0 <= k < |p| ==> p[k] < |ids|
    ensures IsPath(adj, At(ids, p)) && At(ids, p)[0] == ids[p[0]] && At(ids, p)[|p| - 1] == ids[p[|p| - 1]]
  {
    hide Needs;
    forall k | 0 <= k < |p| ensures p[k] < |ids| {
      if k > 0 { assert Feeds(plugins, p[k - 1], p[k]); }
    }
    var q := At(ids, p);
    forall k | 0 <= k < |q| - 1 ensures Edge(adj, q[k], q[k + 1]) {
      assert Feeds(plugins, p[k], p[k + 1]);
    }
  }

  lemma {:induction false} PathIsChain(plugins: seq<PluginInfo>, ids: seq<Id>, adj: Adjacency, q: seq<Id>)
    returns (p: seq<nat>)
    requires Models(plugins, ids, adj) && IsPath(adj, q)
    ensures IsChain(plugins, p) && |p| == |q| > 0 && forall k :: 0 <= k < |p| ==> p[k] < |ids| && q[k] == ids[p[k]]
  {
    hide Feeds;
    p := IndicesOf(ids, adj, q);
    forall k, l | 0 <= k < l < |p| && l == k + 1 ensures Feeds(plugins, p[k], p[l]) {
      assert Edge(adj, q[k], q[k + 1]);
    }
  }

  lemma {:induction false} IndicesOf(ids: seq<Id>, adj: Adjacency, q: seq<Id>) returns (p: seq<nat>)
    requires (forall x :: x in ids <==> x in adj) && (forall u, v :: Edge(adj, u, v) ==> v in adj) && IsPath(adj, q)
    ensures |p| == |q| && forall k :: 0 <= k < |p| ==> p[k] < |ids| && q[k] == ids[p[k]]
  {
    forall k | 0 <= k < |q| ensures q[k] in ids {
      if k > 0 { assert Edge(adj, q[k - 1], q[k - 1 + 1]); }
    }
    p := IndicesIn(ids, q);
  }

  lemma {:induction false} IndicesIn(ids: seq<Id>, q: seq<Id>) returns (p: seq<nat>)
    requires forall k :: 0 <= k < |q| ==> q[k] in ids
    ensures |p| == |q| && forall k :: 0 <= k < |p| ==> p[k] < |ids| && q[k] == ids[p[k]]
  {
    if q == [] {
      p := [];
    } else {
      var n := |q| - 1;
      var before := IndicesIn(ids, q[..n]);
      assert q[n] in ids;
      var i: nat :| i < |ids| && ids[i] == q[n];
      p := before + [i];
    }
  }

  lemma ReachIsLeads(plugins: seq<PluginInfo>, ids: seq<Id>, adj: Adjacency, i: nat, j: nat)
    requires Models(plugins, ids, adj) && i < |ids| && j < |ids|
    ensures Reach(adj, ids[i], ids[j]) <==> Leads(plugins, i, j)
  {
    hide Models, Feeds;
    ModelsDistinct(plugins, ids, adj);
    if Leads(plugins, i, j) {
      var p :| IsChain(plugins, p) && p[0] == i && p[|p| - 1] == j;
      ChainIsPath(plugins, ids, adj, p);
      assert PathBetween(adj, At(ids, p), ids[i], ids[j]);
    }
    if Reach(adj, ids[i], ids[j]) {
      var q :| PathBetween(adj, q, ids[i], ids[j]);
      var p := PathIsChain(plugins, ids, adj, q);
      assert p[0] == i && p[|p| - 1] == j;
    }
  }

  lemma CycleIsLoop(plugins: seq<PluginInfo>, ids: seq<Id>, adj: Adjacency, i: nat)
    requires Models(plugins, ids, adj) && i < |ids|
    ensures OnCycle(adj, ids[i]) <==> Loops(plugins, i)
  {
    hide Models, Feeds;
    ModelsDistinct(plugins, ids, adj);
    if Loops(plugins, i) {
      var p :| IsChain(plugins, p) && p[0] == i == p[|p| - 1] && |p| >= 2;
      ChainIsPath(plugins, ids, adj, p);
      assert PathBetween(adj, At(ids, p), ids[i], ids[i]);
    }
    if OnCycle(adj, ids[i]) {
      var q :| PathBetween(adj, q, ids[i], ids[i]) && |q| >= 2;
      var p := PathIsChain(plugins, ids, adj, q);
      assert p[0] == i && p[|p| - 1] == i;
    }
  }

  lemma ModelsDistinct(plugins: seq<PluginInfo>, ids: seq<Id>, adj: Adjacency)
    requires Models(plugins, ids, adj)
    ensures |ids| == |plugins| && Distinct(ids) && (forall x :: x in ids <==> x in adj)
    ensures forall i, j :: 0 <= i < |ids| && 0 <= j < |ids| && ids[i] == ids[j] ==> i == j
  {
  }

  lemma AcyclicIsNoLoops(plugins: seq<PluginInfo>, ids: seq<Id>, adj: Adjacency)
    requires Models(plugins, ids, adj)
    ensures Acyclic(adj) <==> NoLoops(plugins)
  {
    ModelsDistinct(plugins, ids, adj);
    hide Models, OnCycle, Loops;
    forall i: nat | i < |ids| ensures OnCycle(adj, ids[i]) <==> Loops(plugins, i) {
      CycleIsLoop(plugins, ids, adj, i);
    }
    forall i: nat ensures Loops(plugins, i) ==> i < |ids| { LoopsInside(plugins, i); }
    if a :| OnCycle(adj, a) {
      CycleInside(adj, a);
      var i: nat :| i < |ids| && ids[i] == a;
      assert Loops(plugins, i);
    }
    if i: nat :| Loops(plugins, i) {
      assert OnCycle(adj, ids[i]);
    }
  }

  lemma LoopsInside(plugins: seq<PluginInfo>, i: nat)
    ensures Loops(plugins, i) ==> i < |plugins|
  {
  }

  lemma LedInside(plugins: seq<PluginInfo>, i: nat, j: nat)
    requires Leads(plugins, i, j)
    ensures j < |plugins|
  {
    var p :| IsChain(plugins, p) && p[0] == i && p[|p| - 1] == j;
    if |p| >= 2 {
      assert Feeds(plugins, p[|p| - 2], p[|p| - 1]);
    }
  }

  lemma CycleInside(adj: Adjacency, a: Id)
    requires OnCycle(adj, a)
    ensures a in adj
  {
  }

  /** An order of the nodes without backward edges is one of their plugins with providers first. */
  lemma ForwardIsProvidersFirst(plugins: seq<PluginInfo>, ids: seq<Id>, adj: Adjacency, order: seq<Id>)
    returns (at: seq<nat>)
    requires Models(plugins, ids, adj) && Distinct(order) && forall k :: 0 <= k < |order| ==> order[k] in ids
    ensures Positions(plugins, at) && |at| == |order| && forall k :: 0 <= k < |at| ==> order[k] == ids[at[k]]
    ensures Graphs.Forward(adj, order) ==> ProvidersFirst(plugins, at)
    ensures forall i: nat {:trigger i in at} :: i in at <==> i < |ids| && ids[i] in order
  {
    ModelsDistinct(plugins, ids, adj);
    at := IndicesIn(ids, order);
    hide Feeds;
    forall i: nat ensures i in at <==> i < |ids| && ids[i] in order {
      if i < |ids| && ids[i] in order {
        var k :| 0 <= k < |order| && order[k] == ids[i];
        assert at[k] == i;
      }
    }
    if Graphs.Forward(adj, order) {
      forall x, y | 0 <= x < |at| && 0 <= y < |at| && Feeds(plugins, at[x], at[y]) ensures x < y {
        assert Edge(adj, order[x], order[y]);
      }
    }
  }
}
