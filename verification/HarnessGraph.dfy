/**
  The harness's plugins as a dependency graph: strongly connected components by
  an iterative search, cycle members, start-up order and impact analysis.
 */
module HarnessGraphs {
  import opened Wrappers
  import opened Digraph
  import Components
  import Tarjan
  import Decimal
  import Graphs
  import opened Requirements
  import opened PluginPaths

  // ----- plugins and their wiring -----

  datatype PluginRef = ByInstance(instance: nat) | ByName(name: string)

  datatype LookupError = NoSuchPlugin(ref: PluginRef)

  /** The plugins that make every start-up order impossible. */
  datatype DependencyCycleError = DependencyCycleError(members: seq<string>)

  function NodeId(index: nat, info: PluginInfo): Id {
    Decimal.Numeral(index) + ":" + info.qualifiedName
  }

  function ColonAt(s: string): nat {
    if s == [] || s[0] == ':' then 0 else 1 + ColonAt(s[1..])
  }

  lemma {:induction false} ColonAfter(a: string, x: string)
    requires ':' !in a
    ensures ColonAt(a + ":" + x) == |a|
  {
    if a != [] {
      assert (a + ":" + x)[1..] == a[1..] + ":" + x;
      ColonAfter(a[1..], x);
    }
  }

  /** Two plugins never share a node id, whatever their qualified names. */
  lemma NodeIdInjective(i: nat, p: PluginInfo, j: nat, q: PluginInfo)
    requires NodeId(i, p) == NodeId(j, q)
    ensures i == j
  {
    var a, b := Decimal.Numeral(i), Decimal.Numeral(j);
    ColonAfter(a, p.qualifiedName);
    ColonAfter(b, q.qualifiedName);
    assert a == NodeId(i, p)[..|a|] && b == NodeId(j, q)[..|b|];
    Decimal.NumeralInjective(i, j);
  }

  function RequiresEdge(provider: Id, dependent: Id, dep: string): Graphs.EdgeRecord {
    Graphs.EdgeRecord(provider, dependent, Via(dep))
  }

  function Via(dep: string): map<string, string> {
    map["role" := "requires", "via" := dep]
  }

  /** Edge e records that one of the first n plugins satisfies requirement dep of plugin j. */
  ghost predicate WiresBelow(plugins: seq<PluginInfo>, nodeOf: map<nat, Id>, n: nat, j: nat, dep: string,
                             e: Graphs.EdgeRecord)
    requires n <= |plugins| && j < |plugins| && forall p :: p in plugins ==> p.instance in nodeOf
  {
    exists i :: 0 <= i < n && Satisfies(plugins, i, j, dep)
      && e == RequiresEdge(nodeOf[plugins[i].instance], nodeOf[plugins[j].instance], dep)
  }

  /** Edge e records that some plugin satisfies requirement dep of plugin j. */
  ghost predicate Wires(plugins: seq<PluginInfo>, nodeOf: map<nat, Id>, j: nat, dep: string, e: Graphs.EdgeRecord)
    requires j < |plugins| && forall p :: p in plugins ==> p.instance in nodeOf
  {
    WiresBelow(plugins, nodeOf, |plugins|, j, dep, e)
  }

  /** Edge e records a satisfied requirement of some plugin. */
  ghost predicate FullyWires(plugins: seq<PluginInfo>, nodeOf: map<nat, Id>, e: Graphs.EdgeRecord)
    requires forall p :: p in plugins ==> p.instance in nodeOf
  {
    exists j, d :: 0 <= j < |plugins| && 0 <= d < |plugins[j].requirements|
      && Wires(plugins, nodeOf, j, plugins[j].requirements[d], e)
  }

  /** The recorded edges are exactly the satisfied requirements. */
  ghost predicate FullyWired(plugins: seq<PluginInfo>, nodeOf: map<nat, Id>, edges: seq<Graphs.EdgeRecord>)
    requires forall p :: p in plugins ==> p.instance in nodeOf
  {
    forall e :: e in edges <==> FullyWires(plugins, nodeOf, e)
  }

  /** As far as requirement d of plugin j, not included. */
  ghost predicate WiredUpTo(plugins: seq<PluginInfo>, nodeOf: map<nat, Id>, j: nat, d: nat, e: Graphs.EdgeRecord)
    requires forall p :: p in plugins ==> p.instance in nodeOf
  {
    exists j', d' :: 0 <= j' < |plugins| && 0 <= d' < |plugins[j'].requirements|
      && (j' < j || (j' == j && d' < d)) && Wires(plugins, nodeOf, j', plugins[j'].requirements[d'], e)
  }

  lemma NothingWired(plugins: seq<PluginInfo>, nodeOf: map<nat, Id>)
    requires forall p :: p in plugins ==> p.instance in nodeOf
    ensures forall e :: !WiredUpTo(plugins, nodeOf, 0, 0, e)
  {
  }

  lemma WiredStep(plugins: seq<PluginInfo>, nodeOf: map<nat, Id>, j: nat, d: nat, e: Graphs.EdgeRecord)
    requires forall p :: p in plugins ==> p.instance in nodeOf
    requires j < |plugins| && d < |plugins[j].requirements|
    ensures WiredUpTo(plugins, nodeOf, j, d + 1, e)
       <==> WiredUpTo(plugins, nodeOf, j, d, e) || Wires(plugins, nodeOf, j, plugins[j].requirements[d], e)
  {
  }

  lemma WiredRow(plugins: seq<PluginInfo>, nodeOf: map<nat, Id>, j: nat, e: Graphs.EdgeRecord)
    requires forall p :: p in plugins ==> p.instance in nodeOf
    requires j < |plugins|
    ensures WiredUpTo(plugins, nodeOf, j + 1, 0, e) <==> WiredUpTo(plugins, nodeOf, j, |plugins[j].requirements|, e)
  {
  }

  lemma WiredAll(plugins: seq<PluginInfo>, nodeOf: map<nat, Id>, e: Graphs.EdgeRecord)
    requires forall p :: p in plugins ==> p.instance in nodeOf
    ensures WiredUpTo(plugins, nodeOf, |plugins|, 0, e) <==> FullyWires(plugins, nodeOf, e)
  {
  }

  /** The nodes and the two lookup tables after registering a prefix of the plugins. */
  ghost predicate Nodes(ids: seq<Id>, succ: Adjacency, plugins: seq<PluginInfo>, nodeOf: map<nat, Id>,
                        infoOf: map<Id, PluginInfo>) {
    && Registered(ids, plugins) && NodeInfos(ids, succ, plugins, infoOf)
    && NodeInstances(plugins, nodeOf, infoOf) && NodeOfLast(ids, plugins, nodeOf)
  }

  /** An instance that is registered more than once goes by its last node. */
  ghost predicate NodeOfLast(ids: seq<Id>, plugins: seq<PluginInfo>, nodeOf: map<nat, Id>)
    requires |ids| == |plugins|
  {
    && (forall i: nat {:trigger IsLast(plugins, i)} :: IsLast(plugins, i) ==>
          plugins[i].instance in nodeOf && nodeOf[plugins[i].instance] == ids[i])
    && (forall p :: p in nodeOf ==> exists i :: 0 <= i < |plugins| && plugins[i].instance == p)
  }

  /** Every node has its plugin's info, and nothing else has any. */
  ghost predicate NodeInfos(ids: seq<Id>, succ: Adjacency, plugins: seq<PluginInfo>, infoOf: map<Id, PluginInfo>)
    requires |ids| == |plugins|
  {
    && succ.Keys == infoOf.Keys
    && (forall i :: 0 <= i < |plugins| ==> ids[i] in infoOf && infoOf[ids[i]] == plugins[i])
    && (forall x :: x in infoOf ==> x in ids)
  }

  /** Every instance leads to a node of its own. */
  ghost predicate NodeInstances(plugins: seq<PluginInfo>, nodeOf: map<nat, Id>, infoOf: map<Id, PluginInfo>) {
    && (forall p :: p in plugins ==> p.instance in nodeOf)
    && (forall p :: p in nodeOf ==> nodeOf[p] in infoOf && infoOf[nodeOf[p]].instance == p)
  }

  /** One node a plugin, in registration order. */
  predicate Registered(ids: seq<Id>, plugins: seq<PluginInfo>) {
    |ids| == |plugins| && forall i :: 0 <= i < |plugins| ==> ids[i] == NodeId(i, plugins[i])
  }

  lemma FreshNode(ids: seq<Id>, plugins: seq<PluginInfo>, k: nat)
    requires k < |plugins| && Registered(ids, plugins[..k])
    ensures NodeId(k, plugins[k]) !in ids
  {
    if NodeId(k, plugins[k]) in ids {
      var i :| 0 <= i < |ids| && ids[i] == NodeId(k, plugins[k]);
      NodeIdInjective(i, plugins[i], k, plugins[k]);
    }
  }

  lemma NoNodes()
    ensures Nodes([], map[], [], map[], map[])
  {
  }

  lemma SameKeys(ids: seq<Id>, succ: Adjacency, succ': Adjacency, plugins: seq<PluginInfo>, nodeOf: map<nat, Id>,
                 infoOf: map<Id, PluginInfo>)
    requires Nodes(ids, succ, plugins, nodeOf, infoOf) && succ.Keys == succ'.Keys
    ensures Nodes(ids, succ', plugins, nodeOf, infoOf)
  {
  }

  lemma InstancesHaveNodes(ids: seq<Id>, succ: Adjacency, plugins: seq<PluginInfo>, nodeOf: map<nat, Id>,
                           infoOf: map<Id, PluginInfo>)
    requires Nodes(ids, succ, plugins, nodeOf, infoOf)
    ensures forall p :: p in plugins ==> p.instance in nodeOf && nodeOf[p.instance] in succ
  {
  }

  lemma AddsNode(ids: seq<Id>, succ: Adjacency, plugins: seq<PluginInfo>, k: nat, nodeOf: map<nat, Id>,
                 infoOf: map<Id, PluginInfo>)
    requires k < |plugins| && Nodes(ids, succ, plugins[..k], nodeOf, infoOf)
    ensures var id := NodeId(k, plugins[k]);
            && id !in succ
            && Nodes(ids + [id], succ[id := []], plugins[..k + 1],
                     nodeOf[plugins[k].instance := id], infoOf[id := plugins[k]])
  {
    FreshNode(ids, plugins, k);
    RegisteredOneMore(ids, plugins, k);
    var id := NodeId(k, plugins[k]);
    assert id !in infoOf;
    hide NodeId, Registered, NodeInfos, NodeInstances, NodeOfLast;
    InfosOneMore(ids, succ, plugins, k, id, infoOf);
    InstancesOneMore(plugins, k, id, nodeOf, infoOf);
    LastOneMore(ids, plugins, k, id, nodeOf);
  }

  lemma LastOneMore(ids: seq<Id>, plugins: seq<PluginInfo>, k: nat, id: Id, nodeOf: map<nat, Id>)
    requires k < |plugins| && |ids| == k && NodeOfLast(ids, plugins[..k], nodeOf)
    ensures NodeOfLast(ids + [id], plugins[..k + 1], nodeOf[plugins[k].instance := id])
  {
    var nodeOf' := nodeOf[plugins[k].instance := id];
    forall i: nat | IsLast(plugins[..k + 1], i)
      ensures plugins[i].instance in nodeOf' && nodeOf'[plugins[i].instance] == (ids + [id])[i]
    {
      if i < k {
        assert plugins[..k + 1][k].instance != plugins[i].instance;
        forall m | i < m < k ensures plugins[..k][m].instance != plugins[..k][i].instance {
          assert plugins[..k + 1][m].instance != plugins[..k + 1][i].instance;
        }
        assert IsLast(plugins[..k], i);
      }
    }
    var before, now := plugins[..k], plugins[..k + 1];
    forall p | p in nodeOf' ensures exists i :: 0 <= i < |now| && now[i].instance == p {
      if p in nodeOf {
        var i :| 0 <= i < |before| && before[i].instance == p;
        assert now[i].instance == p;
      } else {
        assert now[k].instance == p;
      }
    }
  }

  // ----- the graph of the plugins -----

  lemma {:induction false} LastRegistration(plugins: seq<PluginInfo>, i: nat) returns (m: nat)
    requires i < |plugins|
    ensures IsLast(plugins, m) && plugins[m].instance == plugins[i].instance
    decreases |plugins| - i
  {
    if k :| i < k < |plugins| && plugins[k].instance == plugins[i].instance {
      m := LastRegistration(plugins, k);
    } else {
      m := i;
    }
  }

  /** The edges recorded are between the nodes of plugins of which one feeds the other. */
  lemma EdgeIsFeed(plugins: seq<PluginInfo>, ids: seq<Id>, nodeOf: map<nat, Id>, edges: seq<Graphs.EdgeRecord>,
                   i: nat, j: nat)
    requires |ids| == |plugins| && Distinct(ids) && NodeOfLast(ids, plugins, nodeOf)
    requires (forall p :: p in plugins ==> p.instance in nodeOf) && FullyWired(plugins, nodeOf, edges)
    requires i < |ids| && j < |ids|
    ensures (exists e :: e in edges && e.source == ids[i] && e.target == ids[j]) <==> Feeds(plugins, i, j)
  {
    if Feeds(plugins, i, j) { FeedIsWired(plugins, ids, nodeOf, edges, i, j); }
    if e :| e in edges && e.source == ids[i] && e.target == ids[j] {
      WiredIsFeed(plugins, ids, nodeOf, edges, i, j, e);
    }
  }

  lemma FeedIsWired(plugins: seq<PluginInfo>, ids: seq<Id>, nodeOf: map<nat, Id>, edges: seq<Graphs.EdgeRecord>,
                    i: nat, j: nat)
    requires |ids| == |plugins| && NodeOfLast(ids, plugins, nodeOf)
    requires (forall p :: p in plugins ==> p.instance in nodeOf) && FullyWired(plugins, nodeOf, edges)
    requires Feeds(plugins, i, j)
    ensures exists e :: e in edges && e.source == ids[i] && e.target == ids[j]
  {
    var a, b, d :| 0 <= a < |plugins| && 0 <= b < |plugins| && 0 <= d < |plugins[b].requirements|
      && plugins[a].instance == plugins[i].instance && plugins[b].instance == plugins[j].instance
      && plugins[b].requirements[d] in plugins[a].kinds;
    var dep := plugins[b].requirements[d];
    var e := RequiresEdge(ids[i], ids[j], dep);
    assert Satisfies(plugins, a, b, dep);
    assert Wires(plugins, nodeOf, b, dep, e);
    assert FullyWires(plugins, nodeOf, e);
    assert e in edges;
  }

  lemma WiredIsFeed(plugins: seq<PluginInfo>, ids: seq<Id>, nodeOf: map<nat, Id>, edges: seq<Graphs.EdgeRecord>,
                    i: nat, j: nat, e: Graphs.EdgeRecord)
    requires |ids| == |plugins| && Distinct(ids) && NodeOfLast(ids, plugins, nodeOf)
    requires (forall p :: p in plugins ==> p.instance in nodeOf) && FullyWired(plugins, nodeOf, edges)
    requires i < |ids| && j < |ids| && e in edges && e.source == ids[i] && e.target == ids[j]
    ensures Feeds(plugins, i, j)
  {
    assert FullyWires(plugins, nodeOf, e);
    var b, d :| 0 <= b < |plugins| && 0 <= d < |plugins[b].requirements|
      && Wires(plugins, nodeOf, b, plugins[b].requirements[d], e);
    var a :| 0 <= a < |plugins| && Satisfies(plugins, a, b, plugins[b].requirements[d])
      && e == RequiresEdge(nodeOf[plugins[a].instance], nodeOf[plugins[b].instance], plugins[b].requirements[d]);
    hide Wires, FullyWires, FullyWired, WiresBelow;
    var p := LastRegistration(plugins, a);
    var q := LastRegistration(plugins, b);
    assert ids[p] == ids[i] && ids[q] == ids[j];
    assert p == i && q == j;
  }

  lemma NodeIdsDistinct(ids: seq<Id>, plugins: seq<PluginInfo>)
    requires Registered(ids, plugins)
    ensures Distinct(ids)
  {
    forall i, j | 0 <= i < j < |ids| ensures ids[i] != ids[j] {
      if ids[i] == ids[j] { NodeIdInjective(i, plugins[i], j, plugins[j]); }
    }
  }

  /** So the graph says of the nodes what the requirements say of the plugins. */
  lemma ModelsPlugins(plugins: seq<PluginInfo>, ids: seq<Id>, succ: Adjacency, pred: Adjacency,
                      edges: seq<Graphs.EdgeRecord>, nodeOf: map<nat, Id>, infoOf: map<Id, PluginInfo>)
    requires Graphs.WellFormed(ids, succ, pred, edges) && Nodes(ids, succ, plugins, nodeOf, infoOf)
    requires (forall p :: p in plugins ==> p.instance in nodeOf) && FullyWired(plugins, nodeOf, edges)
    ensures Models(plugins, ids, succ)
  {
    NodeIdsDistinct(ids, plugins);
    hide NodeOfLast, FullyWired, Feeds, Registered;
    forall i, j | 0 <= i < |ids| && 0 <= j < |ids| ensures Edge(succ, ids[i], ids[j]) <==> Feeds(plugins, i, j) {
      EdgeIsFeed(plugins, ids, nodeOf, edges, i, j);
    }
  }

  lemma InfosOneMore(ids: seq<Id>, succ: Adjacency, plugins: seq<PluginInfo>, k: nat, id: Id,
                     infoOf: map<Id, PluginInfo>)
    requires k < |plugins| && |ids| == k && id !in infoOf && NodeInfos(ids, succ, plugins[..k], infoOf)
    ensures id !in succ
    ensures NodeInfos(ids + [id], succ[id := []], plugins[..k + 1], infoOf[id := plugins[k]])
  {
    assert plugins[..k + 1] == plugins[..k] + [plugins[k]];
  }

  lemma InstancesOneMore(plugins: seq<PluginInfo>, k: nat, id: Id, nodeOf: map<nat, Id>, infoOf: map<Id, PluginInfo>)
    requires k < |plugins| && id !in infoOf && NodeInstances(plugins[..k], nodeOf, infoOf)
    ensures NodeInstances(plugins[..k + 1], nodeOf[plugins[k].instance := id], infoOf[id := plugins[k]])
  {
    assert plugins[..k + 1] == plugins[..k] + [plugins[k]];
  }

  lemma RegisteredOneMore(ids: seq<Id>, plugins: seq<PluginInfo>, k: nat)
    requires k < |plugins| && Registered(ids, plugins[..k])
    ensures Registered(ids + [NodeId(k, plugins[k])], plugins[..k + 1]) && |ids| == k
  {
    hide NodeId;
  }

  /** The edges that the first n plugins contribute to requirement dep of plugin j, in order. */
  function ProviderEdges(plugins: seq<PluginInfo>, nodeOf: map<nat, Id>, n: nat, j: nat,
                         dep: string): seq<Graphs.EdgeRecord>
    requires n <= |plugins| && j < |plugins|
    requires forall k :: 0 <= k < |plugins| ==> plugins[k].instance in nodeOf
  {
    if n == 0 then []
    else
      ProviderEdges(plugins, nodeOf, n - 1, j, dep)
      + if Satisfies(plugins, n - 1, j, dep)
        then [RequiresEdge(nodeOf[plugins[n - 1].instance], nodeOf[plugins[j].instance], dep)] else []
  }

  lemma {:induction false} ProviderEdgesWire(plugins: seq<PluginInfo>, nodeOf: map<nat, Id>, n: nat, j: nat,
                                             dep: string, e: Graphs.EdgeRecord)
    requires n <= |plugins| && j < |plugins| && forall p :: p in plugins ==> p.instance in nodeOf
    requires forall k :: 0 <= k < |plugins| ==> plugins[k].instance in nodeOf
    ensures e in ProviderEdges(plugins, nodeOf, n, j, dep) <==> WiresBelow(plugins, nodeOf, n, j, dep, e)
  {
    if n > 0 {
      ProviderEdgesWire(plugins, nodeOf, n - 1, j, dep, e);
    }
  }

  /** Adds an edge for each plugin, each of its requirements, and each other plugin that satisfies it. */
  method WireDependencies(graph: Graphs.Graph<PluginInfo>, plugins: seq<PluginInfo>, nodeOf: map<nat, Id>)
    requires graph.Valid() && graph.edges == []
    requires forall p :: p in plugins ==> p.instance in nodeOf && nodeOf[p.instance] in graph.succ
    modifies graph
    ensures graph.Valid() && graph.ids == old(graph.ids) && graph.succ.Keys == old(graph.succ.Keys)
    ensures FullyWired(plugins, nodeOf, graph.edges)
  {
    hide Graphs.WellFormed, WiredUpTo, FullyWires, Wires;
    NothingWired(plugins, nodeOf);
    for j := 0 to |plugins|
      invariant graph.Valid() && graph.ids == old(graph.ids) && graph.succ.Keys == old(graph.succ.Keys)
      invariant forall e :: e in graph.edges <==> WiredUpTo(plugins, nodeOf, j, 0, e)
    {
      WireRequirements(graph, plugins, nodeOf, j);
      forall e { WiredRow(plugins, nodeOf, j, e); }
    }
    forall e { WiredAll(plugins, nodeOf, e); }
  }

  method WireRequirements(graph: Graphs.Graph<PluginInfo>, plugins: seq<PluginInfo>, nodeOf: map<nat, Id>, j: nat)
    requires graph.Valid() && j < |plugins|
    requires forall p :: p in plugins ==> p.instance in nodeOf && nodeOf[p.instance] in graph.succ
    requires forall e :: e in graph.edges <==> WiredUpTo(plugins, nodeOf, j, 0, e)
    modifies graph
    ensures graph.Valid() && graph.ids == old(graph.ids) && graph.succ.Keys == old(graph.succ.Keys)
    ensures forall e :: e in graph.edges <==> WiredUpTo(plugins, nodeOf, j, |plugins[j].requirements|, e)
  {
    hide Graphs.WellFormed, WiredUpTo, Wires;
    var requirements := plugins[j].requirements;
    for d := 0 to |requirements|
      invariant graph.Valid() && graph.ids == old(graph.ids) && graph.succ.Keys == old(graph.succ.Keys)
      invariant forall e :: e in graph.edges <==> WiredUpTo(plugins, nodeOf, j, d, e)
    {
      WireOne(graph, plugins, nodeOf, j, requirements[d]);
      forall e { WiredStep(plugins, nodeOf, j, d, e); }
    }
  }

  method WireOne(graph: Graphs.Graph<PluginInfo>, plugins: seq<PluginInfo>, nodeOf: map<nat, Id>, j: nat, dep: string)
    requires graph.Valid() && j < |plugins|
    requires forall p :: p in plugins ==> p.instance in nodeOf && nodeOf[p.instance] in graph.succ
    modifies graph
    ensures graph.Valid() && graph.ids == old(graph.ids) && graph.succ.Keys == old(graph.succ.Keys)
    ensures forall e :: e in graph.edges <==> e in old(graph.edges) || Wires(plugins, nodeOf, j, dep, e)
  {
    hide Graphs.WellFormed;
    assert forall k :: 0 <= k < |plugins| ==> plugins[k] in plugins;
    for i := 0 to |plugins|
      invariant graph.Valid() && graph.ids == old(graph.ids) && graph.succ.Keys == old(graph.succ.Keys)
      invariant graph.edges == old(graph.edges) + ProviderEdges(plugins, nodeOf, i, j, dep)
    {
      if plugins[i].instance != plugins[j].instance && dep in plugins[i].kinds {
        var _ := graph.AddEdge(nodeOf[plugins[i].instance], nodeOf[plugins[j].instance], Via(dep));
      }
    }
    forall e { ProviderEdgesWire(plugins, nodeOf, |plugins|, j, dep, e); }
  }

  // ----- filtering nodes -----

  function Keep(ids: seq<Id>, chosen: set<Id>): (r: seq<Id>)
    ensures forall x :: x in r <==> x in ids && x in chosen
  {
    if ids == [] then []
    else (if ids[0] in chosen then [ids[0]] else []) + Keep(ids[1..], chosen)
  }

  lemma {:induction false} KeepNone(ids: seq<Id>)
    ensures Keep(ids, {}) == []
  {
    if ids != [] { KeepNone(ids[1..]); }
  }

  /** Filtering keeps the order, so what held of the positions still holds. */
  lemma {:induction false} KeepForward(adj: Adjacency, ids: seq<Id>, chosen: set<Id>)
    requires Distinct(ids)
    ensures Distinct(Keep(ids, chosen))
    ensures Graphs.Forward(adj, ids) ==> Graphs.Forward(adj, Keep(ids, chosen))
  {
    if ids != [] {
      var head, rest := ids[0], ids[1..];
      assert Distinct(rest) && head !in rest;
      if Graphs.Forward(adj, ids) {
        forall i, j | 0 <= i < |rest| && 0 <= j < |rest| && Edge(adj, rest[i], rest[j]) ensures i < j {
          assert rest[i] == ids[i + 1] && rest[j] == ids[j + 1];
        }
        assert Graphs.Forward(adj, rest);
      }
      KeepForward(adj, rest, chosen);
      if head in chosen {
        var kept := Keep(rest, chosen);
        assert head !in kept;
        if Graphs.Forward(adj, ids) {
          NothingEntersHead(adj, ids);
          PrependForward(adj, head, kept);
        }
      }
    }
  }

  lemma PrependForward(adj: Adjacency, head: Id, rest: seq<Id>)
    requires Graphs.Forward(adj, rest) && head !in rest && !Edge(adj, head, head)
    requires forall x :: x in rest ==> !Edge(adj, x, head)
    ensures Graphs.Forward(adj, [head] + rest)
  {
    var order := [head] + rest;
    forall i, j | 0 <= i < |order| && 0 <= j < |order| && Edge(adj, order[i], order[j]) ensures i < j {
      if i > 0 && j > 0 {
        assert Edge(adj, rest[i - 1], rest[j - 1]);
      }
    }
  }

  lemma NothingEntersHead(adj: Adjacency, ids: seq<Id>)
    requires ids != [] && Graphs.Forward(adj, ids)
    ensures forall x :: x in ids ==> !Edge(adj, x, ids[0])
  {
    forall x | x in ids ensures !Edge(adj, x, ids[0]) {
      var i :| 0 <= i < |ids| && ids[i] == x;
    }
  }

  /** The chosen nodes once each: providers first if that is possible, else as in ids. */
  ghost predicate InStartupOrder(adj: Adjacency, ids: seq<Id>, chosen: set<Id>, r: seq<Id>) {
    && Distinct(r)
    && (forall x :: x in r <==> x in chosen)
    && (Acyclic(adj) ==> Graphs.Forward(adj, r))
    && (!Acyclic(adj) ==> r == Keep(ids, chosen))
  }

  lemma KeepsStartupOrder(adj: Adjacency, ids: seq<Id>, order: seq<Id>, chosen: set<Id>)
    requires Distinct(ids) && (forall x :: x in ids <==> x in adj) && chosen <= adj.Keys
    requires Acyclic(adj) ==> Graphs.IsTopologicalOrder(adj, order)
    requires !Acyclic(adj) ==> order == ids
    ensures InStartupOrder(adj, ids, chosen, Keep(order, chosen))
  {
    hide Acyclic;
    KeepForward(adj, order, chosen);
  }

  function NamesOf(ids: seq<Id>, infoOf: map<Id, PluginInfo>): (r: seq<string>)
    requires forall x :: x in ids ==> x in infoOf
    ensures |r| == |ids|
  {
    seq(|ids|, i requires 0 <= i < |ids| => assert ids[i] in ids; infoOf[ids[i]].name)
  }

  function InfosOf(ids: seq<Id>, infoOf: map<Id, PluginInfo>): (r: seq<PluginInfo>)
    requires forall x :: x in ids ==> x in infoOf
    ensures |r| == |ids|
  {
    seq(|ids|, i requires 0 <= i < |ids| => assert ids[i] in ids; infoOf[ids[i]])
  }

  /** The kept nodes are those of some registrations, in registration order. */
  lemma {:induction false} KeptPositions(ids: seq<Id>, chosen: set<Id>) returns (at: seq<nat>)
    requires Distinct(ids)
    ensures |at| == |Keep(ids, chosen)| && Ascending(at)
    ensures forall k :: 0 <= k < |at| ==> at[k] < |ids| && Keep(ids, chosen)[k] == ids[at[k]]
    ensures forall i: nat {:trigger i in at} :: i in at <==> i < |ids| && ids[i] in chosen
  {
    if ids == [] {
      at := [];
    } else {
      var rest := KeptPositions(ids[1..], chosen);
      var shifted: seq<nat> := seq(|rest|, k requires 0 <= k < |rest| => rest[k] + 1);
      var first: seq<nat> := if ids[0] in chosen then [0] else [];
      at := first + shifted;
      KeepOne(ids, chosen);
      hide Keep;
      forall k | 0 <= k < |at| ensures at[k] < |ids| && Keep(ids, chosen)[k] == ids[at[k]] {
        if k >= |first| { assert at[k] == rest[k - |first|] + 1; }
      }
      forall i: nat ensures i in at <==> i < |ids| && ids[i] in chosen {
        ShiftedPositions(ids, chosen, rest, first, shifted, i);
      }
    }
  }

  lemma KeepOne(ids: seq<Id>, chosen: set<Id>)
    requires ids != []
    ensures Keep(ids, chosen) == (if ids[0] in chosen then [ids[0]] else []) + Keep(ids[1..], chosen)
  {
  }

  lemma ShiftedPositions(ids: seq<Id>, chosen: set<Id>, rest: seq<nat>, first: seq<nat>, shifted: seq<nat>, i: nat)
    requires ids != [] && first == if ids[0] in chosen then [0] else []
    requires |shifted| == |rest| && forall k :: 0 <= k < |rest| ==> shifted[k] == rest[k] + 1
    requires forall j: nat {:trigger j in rest} :: j in rest <==> j < |ids[1..]| && ids[1..][j] in chosen
    ensures i in first + shifted <==> i < |ids| && ids[i] in chosen
  {
    if i == 0 {
      assert 0 !in shifted;
    } else {
      var j: nat := i - 1;
      assert j in rest <==> i < |ids| && ids[i] in chosen;
      if j in rest {
        var k :| 0 <= k < |rest| && rest[k] == j;
        assert shifted[k] == i;
      }
      if i in shifted {
        var k :| 0 <= k < |shifted| && shifted[k] == i;
        assert rest[k] == j;
      }
    }
  }

  /** Every node carries the plugin registered at its place. */
  lemma InfosAreListed(plugins: seq<PluginInfo>, ids: seq<Id>, succ: Adjacency, infoOf: map<Id, PluginInfo>,
                       nodes: seq<Id>, at: seq<nat>)
    requires |ids| == |plugins| && NodeInfos(ids, succ, plugins, infoOf) && Distinct(ids) && Distinct(nodes)
    requires |at| == |nodes| && forall k :: 0 <= k < |at| ==> at[k] < |ids| && nodes[k] == ids[at[k]]
    ensures forall x :: x in nodes ==> x in infoOf
    ensures Lists(plugins, at, InfosOf(nodes, infoOf)) && ListsNames(plugins, at, NamesOf(nodes, infoOf))
  {
    forall x, y | 0 <= x < y < |at| ensures at[x] != at[y] {
      assert nodes[x] != nodes[y];
    }
  }

  predicate Named(info: PluginInfo, name: string) {
    name == info.qualifiedName || name == info.name
  }

  /** The last registration of the instance, or the first plugin of that name. */
  ghost predicate RefersTo(plugins: seq<PluginInfo>, ref: PluginRef, k: nat) {
    match ref
    case ByInstance(p) => IsLast(plugins, k) && plugins[k].instance == p
    case ByName(name) =>
      && k < |plugins| && (plugins[k].name == name || plugins[k].qualifiedName == name)
      && forall j :: 0 <= j < k ==> plugins[j].name != name && plugins[j].qualifiedName != name
  }

  /** A requirement is met exactly when the graph has an edge for it into the plugin's node. */
  lemma MetIffWired(plugins: seq<PluginInfo>, nodeOf: map<nat, Id>, edges: seq<Graphs.EdgeRecord>, j: nat, d: nat)
    requires forall p :: p in plugins ==> p.instance in nodeOf
    requires forall p, q :: p in nodeOf && q in nodeOf && nodeOf[p] == nodeOf[q] ==> p == q
    requires j < |plugins| && d < |plugins[j].requirements| && FullyWired(plugins, nodeOf, edges)
    ensures Met(plugins, j, plugins[j].requirements[d]) <==>
              exists e :: e in edges && e.target == nodeOf[plugins[j].instance]
                && e.metadata == map["role" := "requires", "via" := plugins[j].requirements[d]]
  {
    var dep := plugins[j].requirements[d];
    if Met(plugins, j, dep) {
      var i :| 0 <= i < |plugins| && Satisfies(plugins, i, j, dep);
      var e := RequiresEdge(nodeOf[plugins[i].instance], nodeOf[plugins[j].instance], dep);
      assert Wires(plugins, nodeOf, j, dep, e);
      assert FullyWires(plugins, nodeOf, e);
    }
    if e :| e in edges && e.target == nodeOf[plugins[j].instance] && e.metadata == Via(dep) {
      assert FullyWires(plugins, nodeOf, e);
      var j', d' :| 0 <= j' < |plugins| && 0 <= d' < |plugins[j'].requirements|
        && Wires(plugins, nodeOf, j', plugins[j'].requirements[d'], e);
      ViaInjective(dep, plugins[j'].requirements[d']);
      var i :| 0 <= i < |plugins| && Satisfies(plugins, i, j', dep)
        && e == RequiresEdge(nodeOf[plugins[i].instance], nodeOf[plugins[j'].instance], dep);
      assert plugins[j].instance == plugins[j'].instance;
      assert Satisfies(plugins, i, j, dep);
    }
  }

  lemma ViaInjective(a: string, b: string)
    ensures Via(a) == Via(b) ==> a == b
  {
    assert Via(a)["via"] == a && Via(b)["via"] == b;
  }

  ghost function CyclicNodes(adj: Adjacency): set<Id> {
    set x | x in adj && OnCycle(adj, x)
  }

  lemma UnionIsCyclic(adj: Adjacency, components: seq<set<Id>>, cyclic: set<Id>)
    requires Closed(adj)
    requires forall c :: c in components <==> Components.IsCyclicComponent(adj, c)
    requires forall x :: x in adj ==> (Tarjan.Listed(components, x) <==> OnCycle(adj, x))
    requires forall x :: x in cyclic <==> Tarjan.Listed(components, x)
    ensures cyclic == CyclicNodes(adj)
  {
    forall x | x in cyclic ensures x in adj {
      var k :| 0 <= k < |components| && x in components[k];
      assert components[k] in components;
      var r :| r in adj && forall y :: y in components[k] <==> Mutual(adj, r, y);
      assert Mutual(adj, r, x);
      ReachInGraph(adj, r, x);
    }
  }

  lemma NoMembersMeansNoLoops(plugins: seq<PluginInfo>, at: seq<nat>, members: seq<string>)
    requires ListsNames(plugins, at, members) && forall i: nat {:trigger i in at} :: i in at <==> Loops(plugins, i)
    ensures members == [] <==> NoLoops(plugins)
  {
    hide Loops;
    if at != [] {
      assert at[0] in at;
    }
    if i: nat :| Loops(plugins, i) {
      assert i in at;
    }
  }

  /** The nodes that some successor of the start leads to, by a work list. */
  method Downstream(adj: Adjacency, start: Id) returns (affected: set<Id>)
    requires Closed(adj) && start in adj
    ensures affected <= adj.Keys
    ensures forall x :: x != start ==> (x in affected <==> Reach(adj, start, x))
  {
    affected := {};
    var stack := adj[start];
    forall x | x in stack ensures Reach(adj, start, x) { ReachEdge(adj, start, x); }
    while stack != []
      invariant affected <= adj.Keys && forall x :: x in stack ==> x in adj
      invariant forall x :: x in affected || x in stack ==> Reach(adj, start, x)
      invariant forall x :: x in adj[start] ==> x in affected || x in stack
      invariant forall x, y :: x in affected && Edge(adj, x, y) ==> y in affected || y in stack
      decreases adj.Keys - affected, |stack|
    {
      var node := stack[|stack| - 1];
      stack := stack[..|stack| - 1];
      if node in affected { continue; }
      forall x | x in adj[node] ensures Reach(adj, start, x) {
        ReachEdge(adj, node, x);
        ReachTrans(adj, start, node, x);
      }
      affected := affected + {node};
      stack := stack + adj[node];
    }
    forall x | x != start && Reach(adj, start, x) ensures x in affected {
      FirstEdge(adj, start, x);
      var m :| Edge(adj, start, m) && Reach(adj, m, x);
      ReachStaysInside(adj, affected, m, x);
    }
  }

  /** From one node to another, a path leaves by some edge. */
  lemma FirstEdge(adj: Adjacency, a: Id, b: Id)
    requires Reach(adj, a, b) && a != b && Closed(adj)
    ensures exists m :: Edge(adj, a, m) && Reach(adj, m, b)
  {
    var p :| PathBetween(adj, p, a, b);
    assert Edge(adj, p[0], p[0 + 1]);
    var q := p[1..];
    forall i | 0 <= i < |q| - 1 ensures Edge(adj, q[i], q[i + 1]) {
      assert Edge(adj, p[i + 1], p[i + 1 + 1]);
    }
    assert PathBetween(adj, q, p[1], b);
  }

  lemma MemberIsLoop(plugins: seq<PluginInfo>, ids: seq<Id>, adj: Adjacency, cyclic: set<Id>, i: nat)
    requires Models(plugins, ids, adj) && cyclic == CyclicNodes(adj)
    ensures Loops(plugins, i) <==> i < |ids| && ids[i] in cyclic
  {
    LoopsInside(plugins, i);
    ModelsDistinct(plugins, ids, adj);
    if i < |ids| {
      CycleIsLoop(plugins, ids, adj, i);
      assert ids[i] in adj;
    }
  }

  lemma AllOrdered(ids: seq<Id>, adj: Adjacency, order: seq<Id>)
    requires Distinct(ids) && (forall x :: x in ids <==> x in adj) && Graphs.IsTopologicalOrder(adj, order)
    ensures Graphs.Forward(adj, order) && Distinct(order) && |order| == |ids|
    ensures (forall k :: 0 <= k < |order| ==> order[k] in ids) && forall k :: 0 <= k < |ids| ==> ids[k] in order
  {
    DistinctCard(ids);
    DistinctCard(order);
    assert (set x | x in ids) == (set x | x in order);
  }

  lemma CoversAll(plugins: seq<PluginInfo>, at: seq<nat>, ids: seq<Id>, order: seq<Id>, r: seq<PluginInfo>)
    requires |ids| == |plugins| == |order| && Lists(plugins, at, r) && |at| == |order|
    requires forall i: nat {:trigger i in at} :: i in at <==> i < |ids| && ids[i] in order
    requires forall k :: 0 <= k < |ids| ==> ids[k] in order
    ensures Covers(at, |plugins|) && multiset(r) == multiset(plugins)
  {
    assert Covers(at, |plugins|);
    AllOnce(plugins, at, |plugins|);
    assert r == Picked(plugins, at);
    assert plugins[..|plugins|] == plugins;
  }

  lemma OrderedPositions(plugins: seq<PluginInfo>, ids: seq<Id>, adj: Adjacency, chosen: set<Id>, nodes: seq<Id>)
    returns (at: seq<nat>)
    requires Models(plugins, ids, adj) && InStartupOrder(adj, ids, chosen, nodes) && chosen <= adj.Keys
    ensures |at| == |nodes| && (forall k :: 0 <= k < |at| ==> at[k] < |ids| && nodes[k] == ids[at[k]])
    ensures Distinct(nodes) && InOrder(plugins, at)
    ensures forall i: nat {:trigger i in at} :: i in at <==> i < |ids| && ids[i] in chosen
  {
    AcyclicIsNoLoops(plugins, ids, adj);
    ModelsDistinct(plugins, ids, adj);
    hide Models, Acyclic, NoLoops, ProvidersFirst;
    if Acyclic(adj) {
      at := ForwardIsProvidersFirst(plugins, ids, adj, nodes);
    } else {
      at := KeptPositions(ids, chosen);
    }
  }

  lemma AffectedIsLed(plugins: seq<PluginInfo>, ids: seq<Id>, adj: Adjacency, start: nat, affected: set<Id>, i: nat)
    requires Models(plugins, ids, adj) && start < |ids| && affected <= adj.Keys
    requires forall x :: x != ids[start] ==> (x in affected <==> Reach(adj, ids[start], x))
    ensures (i < |ids| && ids[i] in affected - {ids[start]}) <==> i != start && Leads(plugins, start, i)
  {
    ModelsDistinct(plugins, ids, adj);
    if Leads(plugins, start, i) { LedInside(plugins, start, i); }
    hide Models, Reach, Leads;
    if i < |ids| { ReachIsLeads(plugins, ids, adj, start, i); }
  }

  class HarnessGraph {
    const plugins: seq<PluginInfo>
    const graph: Graphs.Graph<PluginInfo>
    var nodeOf: map<nat, Id>
    var infoOf: map<Id, PluginInfo>

    ghost predicate Valid()
      reads this, graph
    {
      && graph.Valid() && Nodes(graph.ids, graph.succ, plugins, nodeOf, infoOf)
      && (forall p :: p in plugins ==> p.instance in nodeOf) && FullyWired(plugins, nodeOf, graph.edges)
    }

    /** Builds one node a plugin and wires every satisfied requirement. */
    constructor (plugins: seq<PluginInfo>)
      ensures Valid() && this.plugins == plugins && fresh(graph)
      ensures FullyWired(plugins, nodeOf, graph.edges)
    {
      hide Graphs.WellFormed, Nodes;
      NoNodes();
      this.plugins := plugins;
      var g := new Graphs.Graph<PluginInfo>();
      var byInstance: map<nat, Id>, infos: map<Id, PluginInfo> := map[], map[];
      for k := 0 to |plugins|
        invariant g.Valid() && fresh(g) && g.edges == []
        invariant Nodes(g.ids, g.succ, plugins[..k], byInstance, infos)
      {
        var id := NodeId(k, plugins[k]);
        AddsNode(g.ids, g.succ, plugins, k, byInstance, infos);
        byInstance := byInstance[plugins[k].instance := id];
        infos := infos[id := plugins[k]];
        g.AddNode(id, Some(plugins[k]));
      }
      assert plugins[..|plugins|] == plugins;
      graph, nodeOf, infoOf := g, byInstance, infos;
      new;
      ghost var before := g.succ;
      InstancesHaveNodes(g.ids, before, plugins, byInstance, infos);
      WireDependencies(g, plugins, byInstance);
      SameKeys(g.ids, before, g.succ, plugins, byInstance, infos);
    }

    /** The names of the plugins that lie on a dependency cycle, in registration order. */
    method CycleMembers() returns (members: seq<string>, ghost at: seq<nat>)
      requires Valid()
      ensures ListsNames(plugins, at, members) && Ascending(at)
      ensures forall i: nat {:trigger i in at} :: i in at <==> Loops(plugins, i)
      ensures members == [] <==> NoLoops(plugins)
    {
      hide *;
      IdsAreNodes();
      ModelsThese();
      var components := Components.StronglyConnected(graph.ids, graph.succ);
      var cyclic: set<Id> := {};
      for k := 0 to |components|
        invariant forall x :: x in cyclic <==> exists i :: 0 <= i < k && x in components[i]
      {
        cyclic := cyclic + components[k];
      }
      ListedIs(components, cyclic);
      UnionIsCyclic(graph.succ, components, cyclic);
      at := MembersAt(cyclic);
      members := NamesOf(Keep(graph.ids, cyclic), infoOf);
      NoMembersMeansNoLoops(plugins, at, members);
    }

    method HasCycle() returns (b: bool)
      requires Valid()
      ensures b <==> !NoLoops(plugins)
    {
      var members, at := CycleMembers();
      b := members != [];
    }

    /**
      All plugins, each once and providers before dependents; or the names of those
      that depend on themselves. The two cycle detectors agree, so a failure always
      names somebody.
     */
    method StartupOrder() returns (r: Result<seq<PluginInfo>, DependencyCycleError>, ghost at: seq<nat>)
      requires Valid()
      ensures r.Ok? <==> NoLoops(plugins)
      ensures r.Ok? ==> Lists(plugins, at, r.value) && Covers(at, |plugins|) && ProvidersFirst(plugins, at)
      ensures r.Ok? ==> multiset(r.value) == multiset(plugins)
      ensures r.Err? ==> ListsNames(plugins, at, r.error.members) && Ascending(at) && r.error.members != []
      ensures r.Err? ==> forall i: nat {:trigger i in at} :: i in at <==> Loops(plugins, i)
    {
      hide *;
      GraphIsValid();
      ModelsThese();
      AcyclicIsNoLoops(plugins, graph.ids, graph.succ);
      var sorted := graph.TopologicalOrder();
      match sorted
      case Ok(ids) =>
        at := OrderAt(ids);
        r := Ok(InfosOf(ids, infoOf));
      case Err(_) =>
        var members;
        members, at := CycleMembers();
        r := Err(DependencyCycleError(members));
    }

    /** The node a reference stands for: an instance's, or the first plugin of that name. */
    method Resolve(ref: PluginRef) returns (r: Result<Id, LookupError>, ghost k: nat)
      requires Valid()
      ensures r.Ok? ==> RefersTo(plugins, ref, k) && k < |plugins| == |graph.ids| && r.value == graph.ids[k]
      ensures r.Ok? ==> r.value == Decimal.Numeral(k) + ":" + plugins[k].qualifiedName
      ensures r.Err? ==> r.error == NoSuchPlugin(ref) && forall i: nat :: !RefersTo(plugins, ref, i)
    {
      hide *;
      match ref
      case ByInstance(p) =>
        k := InstanceIs(p);
        if p in nodeOf { IdIs(k); }
        return if p in nodeOf then Ok(nodeOf[p]) else Err(NoSuchPlugin(ref)), k;
      case ByName(name) =>
        IdsAreNodes();
        for i := 0 to |plugins|
          invariant forall j :: 0 <= j < i ==> !Named(plugins[j], name)
        {
          if Named(plugins[i], name) {
            FirstOfName(name, i);
            IdIs(i);
            return Ok(graph.ids[i]), i;
          }
        }
        NoneOfName(name);
        return Err(NoSuchPlugin(ref)), 0;
    }

    /** Every registration's node is named after its place and its class. */
    lemma IdIs(k: nat)
      requires Valid() && k < |graph.ids|
      ensures |graph.ids| == |plugins| && graph.ids[k] == Decimal.Numeral(k) + ":" + plugins[k].qualifiedName
    {
      hide FullyWired, NodeInstances, NodeInfos, NodeOfLast, Graphs.WellFormed;
    }

    lemma InstanceIs(p: nat) returns (k: nat)
      requires Valid()
      ensures p in nodeOf ==> RefersTo(plugins, ByInstance(p), k) && k < |graph.ids| && nodeOf[p] == graph.ids[k]
      ensures p !in nodeOf ==> forall i: nat :: !RefersTo(plugins, ByInstance(p), i)
    {
      hide Graphs.WellFormed, FullyWired, NodeInfos, NodeInstances;
      k := 0;
      if p in nodeOf {
        var i :| 0 <= i < |plugins| && plugins[i].instance == p;
        k := LastRegistration(plugins, i);
      }
    }

    lemma FirstOfName(name: string, i: nat)
      requires i < |plugins| && Named(plugins[i], name) && forall j :: 0 <= j < i ==> !Named(plugins[j], name)
      ensures RefersTo(plugins, ByName(name), i)
    {
    }

    lemma NoneOfName(name: string)
      requires forall j :: 0 <= j < |plugins| ==> !Named(plugins[j], name)
      ensures forall i: nat :: !RefersTo(plugins, ByName(name), i)
    {
    }

    /**
      The plugins that depend on the given one, directly or through others, and not
      itself; each once, providers first when an order exists.
     */
    method ImpactOf(ref: PluginRef)
      returns (r: Result<seq<PluginInfo>, LookupError>, ghost start: nat, ghost at: seq<nat>)
      requires Valid()
      ensures r.Ok? ==> RefersTo(plugins, ref, start)
      ensures r.Ok? ==> Lists(plugins, at, r.value) && InOrder(plugins, at)
      ensures r.Ok? ==> forall i: nat {:trigger i in at} :: i in at <==> i != start && Leads(plugins, start, i)
      ensures r.Err? ==> r.error == NoSuchPlugin(ref) && forall i: nat :: !RefersTo(plugins, ref, i)
    {
      hide *;
      var resolved;
      resolved, start := Resolve(ref);
      match resolved
      case Err(e) =>
        at := [];
        r := Err(e);
      case Ok(id) =>
        var infos;
        infos, at := ImpactFrom(id, start);
        r := Ok(infos);
    }

    method ImpactFrom(id: Id, ghost start: nat) returns (infos: seq<PluginInfo>, ghost at: seq<nat>)
      requires Valid() && start < |graph.ids| && id == graph.ids[start]
      ensures Lists(plugins, at, infos) && InOrder(plugins, at)
      ensures forall i: nat {:trigger i in at} :: i in at <==> i != start && Leads(plugins, start, i)
    {
      hide *;
      IdsAreNodes();
      StartIsNode(start);
      var affected := Downstream(graph.succ, id);
      var ids := Ordered(affected - {id});
      at := ImpactAt(id, start, affected, ids);
      infos := InfosOf(ids, infoOf);
    }

    /** The given nodes in start-up order, or in registration order when a cycle prevents one. */
    method Ordered(chosen: set<Id>) returns (r: seq<Id>)
      requires Valid() && chosen <= graph.succ.Keys
      ensures InStartupOrder(graph.succ, graph.ids, chosen, r)
    {
      hide Acyclic, Graphs.WellFormed, Graphs.IsTopologicalOrder, InStartupOrder;
      var sorted := graph.TopologicalOrder();
      IdsAreNodes();
      var order := if sorted.Ok? then sorted.value else graph.ids;
      KeepsStartupOrder(graph.succ, graph.ids, order, chosen);
      r := Keep(order, chosen);
    }

    lemma ModelsThese()
      requires Valid()
      ensures Models(plugins, graph.ids, graph.succ)
    {
      ModelsPlugins(plugins, graph.ids, graph.succ, graph.pred, graph.edges, nodeOf, infoOf);
    }

    lemma GraphIsValid()
      requires Valid()
      ensures graph.Valid()
    {
    }

    lemma StartIsNode(k: nat)
      requires Valid() && k < |graph.ids|
      ensures graph.ids[k] in graph.succ
    {
    }

    lemma ListedIs(components: seq<set<Id>>, cyclic: set<Id>)
      requires forall x :: x in cyclic <==> exists i :: 0 <= i < |components| && x in components[i]
      ensures forall x :: x in cyclic <==> Tarjan.Listed(components, x)
    {
    }

    lemma InfosOfNodes(nodes: seq<Id>, at: seq<nat>)
      requires Valid() && Distinct(nodes)
      requires |at| == |nodes| && forall k :: 0 <= k < |at| ==> at[k] < |graph.ids| && nodes[k] == graph.ids[at[k]]
      ensures forall x :: x in nodes ==> x in infoOf
      ensures Lists(plugins, at, InfosOf(nodes, infoOf)) && ListsNames(plugins, at, NamesOf(nodes, infoOf))
    {
      InfosAreListed(plugins, graph.ids, graph.succ, infoOf, nodes, at);
    }

    lemma MembersAt(cyclic: set<Id>) returns (at: seq<nat>)
      requires Valid() && cyclic == CyclicNodes(graph.succ)
      ensures forall x :: x in Keep(graph.ids, cyclic) ==> x in infoOf
      ensures ListsNames(plugins, at, NamesOf(Keep(graph.ids, cyclic), infoOf)) && Ascending(at)
      ensures forall i: nat {:trigger i in at} :: i in at <==> Loops(plugins, i)
    {
      ModelsThese();
      IdsAreNodes();
      hide *;
      at := KeptPositions(graph.ids, cyclic);
      KeepForward(graph.succ, graph.ids, cyclic);
      InfosOfNodes(Keep(graph.ids, cyclic), at);
      forall i: nat ensures i in at <==> Loops(plugins, i) {
        MemberIsLoop(plugins, graph.ids, graph.succ, cyclic, i);
      }
    }

    /** Where the plugins of a topological order are registered. */
    lemma OrderAt(order: seq<Id>) returns (at: seq<nat>)
      requires Valid() && Graphs.IsTopologicalOrder(graph.succ, order)
      ensures forall x :: x in order ==> x in infoOf
      ensures Lists(plugins, at, InfosOf(order, infoOf)) && Covers(at, |plugins|) && ProvidersFirst(plugins, at)
      ensures multiset(InfosOf(order, infoOf)) == multiset(plugins)
    {
      ModelsThese();
      IdsAreNodes();
      AllOrdered(graph.ids, graph.succ, order);
      hide *;
      at := ForwardIsProvidersFirst(plugins, graph.ids, graph.succ, order);
      InfosOfNodes(order, at);
      CoversAll(plugins, at, graph.ids, order, InfosOf(order, infoOf));
    }

    lemma ImpactAt(id: Id, start: nat, affected: set<Id>, nodes: seq<Id>) returns (at: seq<nat>)
      requires Valid() && start < |graph.ids| && id == graph.ids[start] && affected <= graph.succ.Keys
      requires InStartupOrder(graph.succ, graph.ids, affected - {id}, nodes)
      requires forall x :: x != id ==> (x in affected <==> Reach(graph.succ, id, x))
      ensures forall x :: x in nodes ==> x in infoOf
      ensures Lists(plugins, at, InfosOf(nodes, infoOf)) && InOrder(plugins, at)
      ensures forall i: nat {:trigger i in at} :: i in at <==> i != start && Leads(plugins, start, i)
    {
      ModelsThese();
      IdsAreNodes();
      hide *;
      at := OrderedPositions(plugins, graph.ids, graph.succ, affected - {id}, nodes);
      InfosOfNodes(nodes, at);
      forall i: nat ensures i in at <==> i != start && Leads(plugins, start, i) {
        AffectedIsLed(plugins, graph.ids, graph.succ, start, affected, i);
      }
    }

    lemma IdsAreNodes()
      requires Valid()
      ensures |graph.ids| == |plugins| && Distinct(graph.ids) && forall x :: x in graph.ids <==> x in graph.succ
      ensures Closed(graph.succ) && graph.succ.Keys == infoOf.Keys
    {
    }

    /** The (plugin, requirement) pairs that no other plugin satisfies. */
    method UnmetRequirements() returns (unmet: seq<(string, string)>)
      ensures forall u :: u in unmet <==> UnmetBefore(plugins, |plugins|, 0, u)
    {
      unmet := FindUnmet(plugins);
    }
  }
}
