/** Which plugins require what of each other, and which requirements nobody meets. */
module Requirements {
  /** A registered plugin: its identity, its names, what it requires and the types it is an instance of. */
  datatype PluginInfo = PluginInfo(instance: nat, name: string, qualifiedName: string,
                                   requirements: seq<string>, kinds: set<string>)

  /** Provider i satisfies requirement dep of dependent j; never a plugin of itself. */
  predicate Satisfies(plugins: seq<PluginInfo>, i: nat, j: nat, dep: string)
    requires i < |plugins| && j < |plugins|
  {
    plugins[i].instance != plugins[j].instance && dep in plugins[i].kinds
  }

  /** Some other plugin satisfies the requirement. */
  predicate Met(plugins: seq<PluginInfo>, j: nat, dep: string)
    requires j < |plugins|
  {
    exists i :: 0 <= i < |plugins| && Satisfies(plugins, i, j, dep)
  }

  /** u names a plugin, before requirement d of plugin j, and a requirement of it that nobody meets. */
  ghost predicate UnmetBefore(plugins: seq<PluginInfo>, j: nat, d: nat, u: (string, string)) {
    exists j', d' :: 0 <= j' < |plugins| && 0 <= d' < |plugins[j'].requirements| && (j' < j || (j' == j && d' < d))
      && u == (plugins[j'].name, plugins[j'].requirements[d']) && !Met(plugins, j', plugins[j'].requirements[d'])
  }

  lemma NoneUnmet(plugins: seq<PluginInfo>)
    ensures forall u :: !UnmetBefore(plugins, 0, 0, u)
  {
  }

  lemma UnmetStep(plugins: seq<PluginInfo>, j: nat, d: nat, u: (string, string))
    requires j < |plugins| && d < |plugins[j].requirements|
    ensures UnmetBefore(plugins, j, d + 1, u) <==>
              || UnmetBefore(plugins, j, d, u)
              || (u == (plugins[j].name, plugins[j].requirements[d]) && !Met(plugins, j, plugins[j].requirements[d]))
  {
  }

  lemma UnmetRow(plugins: seq<PluginInfo>, j: nat, u: (string, string))
    requires j < |plugins|
    ensures UnmetBefore(plugins, j + 1, 0, u) <==> UnmetBefore(plugins, j, |plugins[j].requirements|, u)
  {
  }

  /** Nothing is missing. */
  predicate AllMet(plugins: seq<PluginInfo>) {
    forall j, d :: 0 <= j < |plugins| && 0 <= d < |plugins[j].requirements| ==>
      Met(plugins, j, plugins[j].requirements[d])
  }

  /** Looks through the plugins in order; nothing is found exactly when every requirement is met. */
  method FindUnmet(plugins: seq<PluginInfo>) returns (unmet: seq<(string, string)>)
    ensures forall u :: u in unmet <==> UnmetBefore(plugins, |plugins|, 0, u)
    ensures unmet == [] <==> AllMet(plugins)
  {
    hide UnmetBefore;
    unmet := [];
    NoneUnmet(plugins);
    for j := 0 to |plugins|
      invariant forall u :: u in unmet <==> UnmetBefore(plugins, j, 0, u)
    {
      var info := plugins[j];
      for d := 0 to |info.requirements|
        invariant forall u :: u in unmet <==> UnmetBefore(plugins, j, d, u)
      {
        ghost var before := unmet;
        if !Met(plugins, j, info.requirements[d]) {
          unmet := unmet + [(info.name, info.requirements[d])];
        }
        forall u ensures u in unmet <==> UnmetBefore(plugins, j, d + 1, u) {
          UnmetStep(plugins, j, d, u);
          assert u in unmet <==>
                   u in before || (u == (info.name, info.requirements[d]) && !Met(plugins, j, info.requirements[d]));
        }
      }
      forall u { UnmetRow(plugins, j, u); }
    }
    NothingUnmet(plugins, unmet);
  }

  lemma NothingUnmet(plugins: seq<PluginInfo>, unmet: seq<(string, string)>)
    requires forall u :: u in unmet <==> UnmetBefore(plugins, |plugins|, 0, u)
    ensures unmet == [] <==> AllMet(plugins)
  {
    if unmet != [] {
      assert unmet[0] in unmet;
    }
    if !AllMet(plugins) {
      var j, d :| 0 <= j < |plugins| && 0 <= d < |plugins[j].requirements|
        && !Met(plugins, j, plugins[j].requirements[d]);
      assert UnmetBefore(plugins, |plugins|, 0, (plugins[j].name, plugins[j].requirements[d]));
    }
  }
}
