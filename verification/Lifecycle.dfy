/** Starting, stopping and removing plugins, with a rollback when a start fails. */
module Lifecycle {
  import opened Wrappers
  import opened Requirements

  datatype Plugin = Plugin(info: PluginInfo, lifecycle: bool)

  datatype Status = Registered | Started | Failed

  datatype Registration = Registration(plugin: Plugin, status: Status)

  /** A call of a plugin's start or stop. released: the harness then no longer counts it as started. */
  datatype Call = StartOk(p: Plugin) | StartRaised(p: Plugin) | Stop(p: Plugin, released: bool)

  // ----- what the calls say -----

  /** The plugin was started and has not been stopped for good since. */
  ghost predicate Up(trace: seq<Call>, p: Plugin) {
    trace != [] &&
    var last, before := trace[|trace| - 1], trace[..|trace| - 1];
    last == StartOk(p) || (last != Stop(p, true) && Up(before, p))
  }

  /** start is called only on a plugin that is not up, stop only on one that is. */
  ghost predicate Legal(before: seq<Call>, c: Call) {
    Up(before, c.p) <==> c.Stop?
  }

  ghost predicate WellFormed(trace: seq<Call>) {
    forall k {:trigger trace[k]} :: 0 <= k < |trace| ==> Legal(trace[..k], trace[k])
  }

  lemma {:induction false} StaysUp(trace: seq<Call>, p: Plugin, i: nat, j: nat)
    requires i <= j <= |trace| && Up(trace[..i], p)
    requires forall k :: i <= k < j ==> trace[k] != Stop(p, true)
    ensures Up(trace[..j], p)
    decreases j
  {
    if i < j {
      StaysUp(trace, p, i, j - 1);
      assert trace[..j][..j - 1] == trace[..j - 1];
    }
  }

  /** Between two successful starts of a plugin there is a stop. */
  lemma StopBetweenStarts(trace: seq<Call>, p: Plugin, i: nat, j: nat)
    requires WellFormed(trace) && i < j < |trace| && trace[i] == StartOk(p) == trace[j]
    ensures exists k :: i < k < j && trace[k] == Stop(p, true)
  {
    assert trace[..i + 1][..i] == trace[..i];
    assert Legal(trace[..j], trace[j]);
    if forall k :: i < k < j ==> trace[k] != Stop(p, true) {
      StaysUp(trace, p, i + 1, j);
    }
  }

  lemma WellFormedSnoc(trace: seq<Call>, c: Call)
    requires WellFormed(trace) && Legal(trace, c)
    ensures WellFormed(trace + [c])
  {
    var t := trace + [c];
    forall k | 0 <= k < |t| ensures Legal(t[..k], t[k]) {
      if k < |trace| {
        assert t[..k] == trace[..k];
        assert Legal(trace[..k], trace[k]);
      } else {
        assert t[..k] == trace;
      }
    }
  }

  lemma UpSnoc(trace: seq<Call>, c: Call, q: Plugin)
    ensures Up(trace + [c], q) <==> c == StartOk(q) || (c != Stop(q, true) && Up(trace, q))
  {
    assert (trace + [c])[..|trace|] == trace;
  }

  // ----- the registry's entries -----

  predicate Holds(entries: seq<Registration>, p: Plugin) {
    exists i :: 0 <= i < |entries| && entries[i].plugin == p
  }

  ghost predicate IsStarted(entries: seq<Registration>, p: Plugin) {
    exists i :: 0 <= i < |entries| && entries[i] == Registration(p, Started)
  }

  ghost predicate Distinct(entries: seq<Registration>) {
    forall i, j :: 0 <= i < j < |entries| ==> entries[i].plugin != entries[j].plugin
  }

  /** r is what is left, in order, when those that go are gone. */
  ghost predicate Leaves<T>(all: seq<T>, goes: T -> bool, r: seq<T>) {
    exists at: seq<nat> :: LeavesAt(all, goes, r, at)
  }

  ghost predicate LeavesAt<T>(all: seq<T>, goes: T -> bool, r: seq<T>, at: seq<nat>) {
    && |r| == |at|
    && (forall k {:trigger at[k]} :: 0 <= k < |at| ==> at[k] < |all| && !goes(all[at[k]]) && r[k] == all[at[k]])
    && (forall j, k :: 0 <= j < k < |at| ==> at[j] < at[k])
    && (forall i: nat {:trigger all[i]} :: i < |all| && !goes(all[i]) ==> i in at)
  }

  lemma LeavesNothing<T>(goes: T -> bool)
    ensures Leaves([], goes, [])
  {
    assert LeavesAt([], goes, [], []);
  }

  lemma LeavesSnoc<T>(all: seq<T>, goes: T -> bool, r: seq<T>, x: T)
    requires Leaves(all, goes, r)
    ensures Leaves(all + [x], goes, r + if goes(x) then [] else [x])
  {
    var at: seq<nat> :| LeavesAt(all, goes, r, at);
    var all', at' := all + [x], at + if goes(x) then [] else [|all|];
    forall i: nat {:trigger all'[i]} | i < |all'| && !goes(all'[i]) ensures i in at' {
      if i < |all| { assert all'[i] == all[i]; } else { assert at'[|at|] == i; }
    }
    assert LeavesAt(all', goes, r + if goes(x) then [] else [x], at');
  }

  /** The same entries, with the status of some plugins set. */
  function With(entries: seq<Registration>, ps: set<Plugin>, status: Status): seq<Registration> {
    seq(|entries|, i requires 0 <= i < |entries| =>
      if entries[i].plugin in ps then Registration(entries[i].plugin, status) else entries[i])
  }

  /** Sets the status of the first entry of a plugin. */
  function SetStatus(entries: seq<Registration>, p: Plugin, status: Status): seq<Registration> {
    if entries == [] then []
    else if entries[0].plugin == p then [Registration(p, status)] + entries[1..]
    else [entries[0]] + SetStatus(entries[1..], p, status)
  }

  lemma {:induction false} SetStatusIsWith(entries: seq<Registration>, p: Plugin, status: Status)
    requires Distinct(entries)
    ensures SetStatus(entries, p, status) == With(entries, {p}, status)
  {
    if entries != [] {
      SetStatusIsWith(entries[1..], p, status);
    }
  }

  function Select(entries: seq<Registration>, status: Status): seq<Plugin> {
    if entries == [] then []
    else
      var last := entries[|entries| - 1];
      Select(entries[..|entries| - 1], status)
      + if last.plugin.lifecycle && last.status == status then [last.plugin] else []
  }

  /** The plugins to start or stop are those of the entries with the status, in order. */
  lemma {:induction false} SelectIs(entries: seq<Registration>, status: Status) returns (chosen: seq<Registration>)
    ensures Leaves(entries, (e: Registration) => !e.plugin.lifecycle || e.status != status, chosen)
    ensures |chosen| == |Select(entries, status)|
    ensures forall k :: 0 <= k < |chosen| ==> chosen[k].plugin == Select(entries, status)[k]
  {
    var goes := (e: Registration) => !e.plugin.lifecycle || e.status != status;
    chosen := [];
    if entries == [] {
      LeavesNothing(goes);
    } else {
      var n := |entries| - 1;
      chosen := SelectIs(entries[..n], status);
      assert entries == entries[..n] + [entries[n]];
      LeavesSnoc(entries[..n], goes, chosen, entries[n]);
      chosen := chosen + if goes(entries[n]) then [] else [entries[n]];
    }
  }

  lemma {:induction false} SelectHas(entries: seq<Registration>, status: Status, p: Plugin)
    ensures p in Select(entries, status) <==> p.lifecycle && Registration(p, status) in entries
  {
    if entries != [] {
      var n := |entries| - 1;
      SelectHas(entries[..n], status, p);
      assert entries == entries[..n] + [entries[n]];
    }
  }

  lemma {:induction false} SelectDistinct(entries: seq<Registration>, status: Status)
    requires Distinct(entries)
    ensures forall i, j :: 0 <= i < j < |Select(entries, status)| ==>
              Select(entries, status)[i] != Select(entries, status)[j]
  {
    if entries != [] {
      var n := |entries| - 1;
      SelectDistinct(entries[..n], status);
      forall i | 0 <= i < |Select(entries[..n], status)| ensures Select(entries[..n], status)[i] != entries[n].plugin {
        var p := Select(entries[..n], status)[i];
        SelectHas(entries[..n], status, p);
        assert p in Select(entries[..n], status);
      }
    }
  }

  // ----- agreement of the registry with the calls -----

  /** The statuses say exactly which plugins are up, and no subscription outlives its owner's being up. */
  ghost predicate Agrees(entries: seq<Registration>, subs: seq<Option<Plugin>>, trace: seq<Call>) {
    && Distinct(entries) && WellFormed(trace)
    && (forall p {:trigger Up(trace, p)} :: Up(trace, p) <==> IsStarted(entries, p))
    && (forall p {:trigger IsStarted(entries, p)} :: IsStarted(entries, p) ==> p.lifecycle)
    && (forall s :: s in subs && s.Some? ==> IsStarted(entries, s.value))
  }

  function DropOwned(subs: seq<Option<Plugin>>, p: Plugin): seq<Option<Plugin>> {
    if subs == [] then []
    else DropOwned(subs[..|subs| - 1], p) + if subs[|subs| - 1] == Some(p) then [] else [subs[|subs| - 1]]
  }

  lemma {:induction false} DropOwnedLeaves(subs: seq<Option<Plugin>>, p: Plugin)
    ensures Leaves(subs, s => s == Some(p), DropOwned(subs, p))
  {
    var goes := s => s == Some(p);
    if subs == [] {
      LeavesNothing(goes);
    } else {
      var n := |subs| - 1;
      DropOwnedLeaves(subs[..n], p);
      assert subs == subs[..n] + [subs[n]];
      LeavesSnoc(subs[..n], goes, DropOwned(subs[..n], p), subs[n]);
    }
  }

  lemma {:induction false} DropOwnedDrops(subs: seq<Option<Plugin>>, p: Plugin)
    ensures forall s :: s in DropOwned(subs, p) <==> s in subs && s != Some(p)
  {
    if subs != [] {
      DropOwnedDrops(subs[..|subs| - 1], p);
      assert subs == subs[..|subs| - 1] + [subs[|subs| - 1]];
    }
  }

  lemma WithStarted(entries: seq<Registration>, p: Plugin, status: Status, q: Plugin)
    requires Distinct(entries) && Holds(entries, p)
    ensures IsStarted(With(entries, {p}, status), q) <==> if q == p then status.Started? else IsStarted(entries, q)
  {
    var e := With(entries, {p}, status);
    var k :| 0 <= k < |entries| && entries[k].plugin == p;
    assert e[k] == Registration(p, status);
    forall i | 0 <= i < |e| && i != k ensures e[i] == entries[i] {
      assert entries[i].plugin != p;
    }
    if q != p && IsStarted(entries, q) {
      var i :| 0 <= i < |entries| && entries[i] == Registration(q, Started);
      assert e[i] == entries[i];
    }
  }

  /** One call, and the status that goes with it; the plugin may have subscribed to something meanwhile. */
  lemma StepAgrees(entries: seq<Registration>, subs0: seq<Option<Plugin>>, trace: seq<Call>, c: Call, status: Status,
                   subs: seq<Option<Plugin>>)
    requires Agrees(entries, subs0, trace) && Holds(entries, c.p) && c.p.lifecycle
    requires c.Stop? <==> IsStarted(entries, c.p)
    requires status.Started? <==> c.StartOk? || (c.Stop? && !c.released)
    requires forall s :: s in subs ==> s in subs0 || s == Some(c.p)
    ensures status.Started? ==> Agrees(With(entries, {c.p}, status), subs, trace + [c])
    ensures Agrees(With(entries, {c.p}, status), DropOwned(subs, c.p), trace + [c])
  {
    var e, t := With(entries, {c.p}, status), trace + [c];
    assert Up(trace, c.p) <==> IsStarted(entries, c.p);
    WellFormedSnoc(trace, c);
    forall q ensures (Up(t, q) <==> IsStarted(e, q)) && (IsStarted(e, q) ==> q.lifecycle) {
      UpSnoc(trace, c, q);
      WithStarted(entries, c.p, status, q);
      assert Up(trace, q) <==> IsStarted(entries, q);
    }
    DropOwnedDrops(subs, c.p);
    forall s | s in subs && s.Some? && (status.Started? || s.value != c.p) ensures IsStarted(e, s.value) {
      WithStarted(entries, c.p, status, s.value);
    }
  }

  // ----- a start, with its rollback -----

  function Starts(ps: seq<Plugin>): seq<Call> {
    seq(|ps|, k requires 0 <= k < |ps| => StartOk(ps[k]))
  }

  /** The stops of the first k plugins, last one first. */
  function Stops(ps: seq<Plugin>, k: nat): seq<Call>
    requires k <= |ps|
  {
    if k == 0 then [] else [Stop(ps[k - 1], true)] + Stops(ps, k - 1)
  }

  function SetOf(ps: seq<Plugin>): set<Plugin> {
    set p | p in ps
  }

  /** What a pass over these plugins does to the entries and in which calls, up to the one whose start raised. */
  ghost predicate PassResult(entries0: seq<Registration>, trace0: seq<Call>, ps: seq<Plugin>,
                             entries: seq<Registration>, trace: seq<Call>, failed: Option<nat>) {
    match failed
    case None =>
      && entries == With(entries0, SetOf(ps), Started)
      && trace == trace0 + Starts(ps)
    case Some(k) =>
      && k < |ps|
      && entries == With(entries0, {ps[k]}, Failed)
      && trace == trace0 + Starts(ps[..k]) + [StartRaised(ps[k])] + Stops(ps, k)
  }

  /** These plugins are registered, distinct and not yet started. */
  ghost predicate Startable(entries: seq<Registration>, ps: seq<Plugin>) {
    && (forall i {:trigger ps[i]} :: 0 <= i < |ps| ==> ps[i].lifecycle && Registration(ps[i], Registered) in entries)
    && (forall i, j :: 0 <= i < j < |ps| ==> ps[i] != ps[j])
  }

  lemma StartOne(entries0: seq<Registration>, ps: seq<Plugin>, k: nat)
    requires Distinct(entries0) && Startable(entries0, ps) && k < |ps|
    ensures var e := With(entries0, SetOf(ps[..k]), Started);
            && Distinct(e) && Holds(e, ps[k]) && ps[k].lifecycle && !IsStarted(e, ps[k])
            && With(e, {ps[k]}, Started) == With(entries0, SetOf(ps[..k + 1]), Started)
            && With(e, {ps[k]}, Failed) == With(With(entries0, {ps[k]}, Failed), SetOf(ps[..k]), Started)
  {
    var e := With(entries0, SetOf(ps[..k]), Started);
    var i :| 0 <= i < |entries0| && entries0[i] == Registration(ps[k], Registered);
    assert ps[k] !in ps[..k];
    assert e[i] == entries0[i];
    assert SetOf(ps[..k + 1]) == SetOf(ps[..k]) + {ps[k]};
    assert Distinct(e) by {
      forall x, y | 0 <= x < y < |e| ensures e[x].plugin != e[y].plugin {
        assert e[x].plugin == entries0[x].plugin && e[y].plugin == entries0[y].plugin;
      }
    }
    forall j | 0 <= j < |e| ensures e[j] != Registration(ps[k], Started) {
      assert e[j].plugin == entries0[j].plugin;
      assert j != i ==> entries0[j].plugin != entries0[i].plugin;
    }
  }

  /** Taking back one start of the failed pass. */
  lemma UndoOne(entries0: seq<Registration>, ps: seq<Plugin>, n: nat, k: nat)
    requires Distinct(entries0) && Startable(entries0, ps) && k < n < |ps|
    ensures var base := With(entries0, {ps[n]}, Failed);
            var e := With(base, SetOf(ps[..k + 1]), Started);
            && Distinct(e) && Holds(e, ps[k]) && ps[k].lifecycle && IsStarted(e, ps[k])
            && With(e, {ps[k]}, Registered) == With(base, SetOf(ps[..k]), Started)
  {
    var base := With(entries0, {ps[n]}, Failed);
    var e := With(base, SetOf(ps[..k + 1]), Started);
    var i :| 0 <= i < |entries0| && entries0[i] == Registration(ps[k], Registered);
    assert ps[..k + 1][k] == ps[k];
    assert base[i] == entries0[i] && e[i] == Registration(ps[k], Started);
    assert SetOf(ps[..k + 1]) == SetOf(ps[..k]) + {ps[k]};
    assert ps[k] !in ps[..k];
    forall x, y | 0 <= x < y < |e| ensures e[x].plugin != e[y].plugin {
      assert e[x].plugin == entries0[x].plugin && e[y].plugin == entries0[y].plugin;
    }
    forall x | 0 <= x < |e| ensures With(e, {ps[k]}, Registered)[x] == With(base, SetOf(ps[..k]), Started)[x] {
      if e[x].plugin == ps[k] {
        assert entries0[x].plugin == ps[k];
        assert x == i;
      }
    }
  }

  /** What a plugin's start or stop subscribed the plugin to: any number of events. */
  function Owned(p: Plugin, n: nat): seq<Option<Plugin>> {
    seq(n, _ => Some(p))
  }

  /** The last one first. */
  lemma {:induction false} StopsReverse(ps: seq<Plugin>, k: nat)
    requires k <= |ps|
    ensures |Stops(ps, k)| == k && forall i :: 0 <= i < k ==> Stops(ps, k)[i] == Stop(ps[k - 1 - i], true)
  {
    if k > 0 { StopsReverse(ps, k - 1); }
  }

  lemma StopsSnoc(ps: seq<Plugin>, k: nat)
    requires 0 < k <= |ps|
    ensures Stops(ps, k) == [Stop(ps[k - 1], true)] + Stops(ps, k - 1)
  {
  }

  /** Stops the plugins started in this pass, last one first, whatever their stops do. */
  method RollBack(ghost entries0: seq<Registration>, ps: seq<Plugin>, n: nat, before: seq<Registration>,
                  subs0: seq<Option<Plugin>>, ghost trace0: seq<Call>)
    returns (entries: seq<Registration>, subs: seq<Option<Plugin>>, ghost trace: seq<Call>)
    requires n < |ps| && Distinct(entries0) && Startable(entries0, ps) && Agrees(before, subs0, trace0)
    requires before == With(With(entries0, {ps[n]}, Failed), SetOf(ps[..n]), Started)
    ensures Agrees(entries, subs, trace)
    ensures entries == With(entries0, {ps[n]}, Failed) && trace == trace0 + Stops(ps, n)
  {
    entries, subs, trace := before, subs0, trace0;
    ghost var done: seq<Call> := [];
    var k := n;
    while k > 0
      invariant 0 <= k <= n && Agrees(entries, subs, trace)
      invariant entries == With(With(entries0, {ps[n]}, Failed), SetOf(ps[..k]), Started)
      invariant trace == trace0 + done && done + Stops(ps, k) == Stops(ps, n)
    {
      hide Agrees, Startable, SetStatus, With, Stops, Distinct, DropOwned, Holds, IsStarted;
      k := k - 1;
      var p := ps[k];
      UndoOne(entries0, ps, n, k);
      SetStatusIsWith(entries, p, Registered);
      StepAgrees(entries, subs, trace, Stop(p, true), Registered, subs);
      StopsSnoc(ps, k + 1);
      entries, subs := SetStatus(entries, p, Registered), DropOwned(subs, p);
      trace, done := trace + [Stop(p, true)], done + [Stop(p, true)];
    }
    NoneSet(With(entries0, {ps[n]}, Failed), ps);
  }

  lemma NoneSet(entries: seq<Registration>, ps: seq<Plugin>)
    ensures With(entries, SetOf(ps[..0]), Started) == entries
  {
  }

  lemma StartsSnoc(ps: seq<Plugin>, k: nat)
    requires k < |ps|
    ensures Starts(ps[..k + 1]) == Starts(ps[..k]) + [StartOk(ps[k])]
  {
  }

  /**
    Starts the plugins in order. How a start or a stop ends, and what it subscribed
    to, is up to the plugin. When a start raises, the plugins started in this pass
    are stopped again, last one first.
   */
  method StartPass(entries0: seq<Registration>, subs0: seq<Option<Plugin>>, ghost trace0: seq<Call>, ps: seq<Plugin>)
    returns (entries: seq<Registration>, subs: seq<Option<Plugin>>, ghost trace: seq<Call>, failed: Option<nat>)
    requires Agrees(entries0, subs0, trace0) && Startable(entries0, ps)
    ensures Agrees(entries, subs, trace) && PassResult(entries0, trace0, ps, entries, trace, failed)
  {
    entries, subs, trace, failed := entries0, subs0, trace0, None;
    NoneSet(entries0, ps);
    var k := 0;
    while k < |ps|
      invariant k <= |ps| && Agrees(entries, subs, trace)
      invariant entries == With(entries0, SetOf(ps[..k]), Started)
      invariant trace == trace0 + Starts(ps[..k])
    {
      hide Agrees, Startable, SetStatus, With, Stops, Distinct, DropOwned, Holds, IsStarted, Starts, Owned;
      var current := ps[k];
      var subscribed: nat, raised: bool := *, *;
      StartOne(entries0, ps, k);
      SetStatusIsWith(entries, current, if raised then Failed else Started);
      OnlyOwn(subs, current, subscribed);
      if raised {
        StepAgrees(entries, subs, trace, StartRaised(current), Failed, subs + Owned(current, subscribed));
        subs := DropOwned(subs + Owned(current, subscribed), current);
        entries := SetStatus(entries, current, Failed);
        trace := trace + [StartRaised(current)];
        entries, subs, trace := RollBack(entries0, ps, k, entries, subs, trace);
        failed := Some(k);
        return;
      }
      StepAgrees(entries, subs, trace, StartOk(current), Started, subs + Owned(current, subscribed));
      StartsSnoc(ps, k);
      subs := subs + Owned(current, subscribed);
      entries := SetStatus(entries, current, Started);
      trace := trace + [StartOk(current)];
      k := k + 1;
    }
    assert ps[..|ps|] == ps;
  }

  lemma OnlyOwn(subs: seq<Option<Plugin>>, p: Plugin, n: nat)
    ensures forall s :: s in subs + Owned(p, n) ==> s in subs || s == Some(p)
  {
  }

  // ----- a stop -----

  lemma StopOne(entries0: seq<Registration>, ps: seq<Plugin>, k: nat)
    requires Distinct(entries0) && k < |ps| && ps[k].lifecycle && Registration(ps[k], Started) in entries0
    requires forall i, j :: 0 <= i < j < |ps| ==> ps[i] != ps[j]
    ensures var e := With(entries0, SetOf(ps[k + 1..]), Registered);
            && Distinct(e) && Holds(e, ps[k]) && IsStarted(e, ps[k])
            && With(e, {ps[k]}, Registered) == With(entries0, SetOf(ps[k..]), Registered)
  {
    var e := With(entries0, SetOf(ps[k + 1..]), Registered);
    var i :| 0 <= i < |entries0| && entries0[i] == Registration(ps[k], Started);
    assert ps[k] !in ps[k + 1..];
    assert e[i] == entries0[i];
    assert SetOf(ps[k..]) == SetOf(ps[k + 1..]) + {ps[k]} by {
      assert ps[k..] == [ps[k]] + ps[k + 1..];
    }
    forall x, y | 0 <= x < y < |e| ensures e[x].plugin != e[y].plugin {
      assert e[x].plugin == entries0[x].plugin && e[y].plugin == entries0[y].plugin;
    }
  }

  lemma NoneStopped(entries: seq<Registration>, ps: seq<Plugin>)
    ensures With(entries, SetOf(ps[|ps|..]), Registered) == entries
    ensures Stops(ps, 0) == []
  {
  }

  lemma StopStep(entries0: seq<Registration>, subs0: seq<Option<Plugin>>, trace0: seq<Call>, ps: seq<Plugin>, k: nat,
                 entries: seq<Registration>, subs: seq<Option<Plugin>>, trace: seq<Call>)
    requires Agrees(entries0, subs0, trace0) && ps == Select(entries0, Started) && k < |ps|
    requires entries == With(entries0, SetOf(ps[k + 1..]), Registered) && Agrees(entries, subs, trace)
    ensures SetStatus(entries, ps[k], Registered) == With(entries0, SetOf(ps[k..]), Registered)
    ensures Agrees(SetStatus(entries, ps[k], Registered), DropOwned(subs, ps[k]), trace + [Stop(ps[k], true)])
  {
    DistinctEntries(entries0, subs0, trace0);
    SelectDistinct(entries0, Started);
    SelectHas(entries0, Started, ps[k]);
    hide *;
    StopOne(entries0, ps, k);
    SetStatusIsWith(entries, ps[k], Registered);
    StepAgrees(entries, subs, trace, Stop(ps[k], true), Registered, subs);
  }

  /** Stops every started plugin, last one first; one that raises does not keep the rest from being stopped. */
  method StopPass(entries0: seq<Registration>, subs0: seq<Option<Plugin>>, ghost trace0: seq<Call>)
    returns (entries: seq<Registration>, subs: seq<Option<Plugin>>, ghost trace: seq<Call>, raised: bool)
    requires Agrees(entries0, subs0, trace0)
    ensures Agrees(entries, subs, trace)
    ensures var ps := Select(entries0, Started);
            entries == With(entries0, SetOf(ps), Registered) && trace == trace0 + Stops(ps, |ps|)
  {
    hide *;
    var ps := Select(entries0, Started);
    entries, subs, trace, raised := entries0, subs0, trace0, false;
    ghost var done: seq<Call> := [];
    NoneStopped(entries0, ps);
    var k := |ps|;
    while k > 0
      invariant 0 <= k <= |ps| && Agrees(entries, subs, trace)
      invariant entries == With(entries0, SetOf(ps[k..]), Registered)
      invariant trace == trace0 + done && done + Stops(ps, k) == Stops(ps, |ps|)
    {
      k := k - 1;
      var p := ps[k];
      var error: bool := *;
      raised := raised || error;
      StopStep(entries0, subs0, trace0, ps, k, entries, subs, trace);
      StopsSnoc(ps, k + 1);
      entries, subs := SetStatus(entries, p, Registered), DropOwned(subs, p);
      trace, done := trace + [Stop(p, true)], done + [Stop(p, true)];
    }
    assert ps[0..] == ps;
  }

  lemma DistinctEntries(entries: seq<Registration>, subs: seq<Option<Plugin>>, trace: seq<Call>)
    requires Agrees(entries, subs, trace)
    ensures Distinct(entries)
  {
  }

  // ----- leaving entries out -----

  /** Entries may come and go as long as no started one goes. */
  lemma SameStarted(entries0: seq<Registration>, entries: seq<Registration>, subs0: seq<Option<Plugin>>,
                    subs: seq<Option<Plugin>>,
                    trace: seq<Call>)
    requires Agrees(entries0, subs0, trace) && Distinct(entries)
    requires forall p {:trigger IsStarted(entries, p)} :: IsStarted(entries, p) <==> IsStarted(entries0, p)
    requires forall s :: s in subs ==> s in subs0
    ensures Agrees(entries, subs, trace)
  {
  }

  function Without(entries: seq<Registration>, p: Plugin): seq<Registration> {
    if entries == [] then []
    else
      Without(entries[..|entries| - 1], p)
      + if entries[|entries| - 1].plugin == p then [] else [entries[|entries| - 1]]
  }

  lemma {:induction false} WithoutLeaves(entries: seq<Registration>, p: Plugin)
    ensures Leaves(entries, (e: Registration) => e.plugin == p, Without(entries, p))
  {
    var goes := (e: Registration) => e.plugin == p;
    if entries == [] {
      LeavesNothing(goes);
    } else {
      var n := |entries| - 1;
      WithoutLeaves(entries[..n], p);
      assert entries == entries[..n] + [entries[n]];
      LeavesSnoc(entries[..n], goes, Without(entries[..n], p), entries[n]);
    }
  }

  lemma {:induction false} WithoutHas(entries: seq<Registration>, p: Plugin)
    requires Distinct(entries)
    ensures forall e :: e in Without(entries, p) <==> e in entries && e.plugin != p
    ensures Distinct(Without(entries, p))
  {
    if entries != [] {
      var n := |entries| - 1;
      WithoutHas(entries[..n], p);
      assert entries == entries[..n] + [entries[n]];
      forall i | 0 <= i < |Without(entries[..n], p)| ensures Without(entries[..n], p)[i].plugin != entries[n].plugin {
        assert Without(entries[..n], p)[i] in entries[..n];
      }
    }
  }

  lemma StartedWithout(entries: seq<Registration>, p: Plugin, q: Plugin)
    requires Distinct(entries)
    ensures IsStarted(Without(entries, p), q) <==> q != p && IsStarted(entries, q)
  {
    WithoutHas(entries, p);
    assert Registration(q, Started) in Without(entries, p) <==> IsStarted(Without(entries, p), q);
    assert Registration(q, Started) in entries <==> IsStarted(entries, q);
  }

  /** A start's outcome: all are up, requirements are missing, or the start of the pass's k-th plugin raised. */
  datatype Outcome = AllUp | Invalid(missing: seq<(string, string)>) | Raised(k: nat)

  function Infos(entries: seq<Registration>): seq<PluginInfo> {
    seq(|entries|, i requires 0 <= i < |entries| => entries[i].plugin.info)
  }

  lemma FailedIsNotStarted(entries: seq<Registration>, p: Plugin, q: Plugin)
    ensures IsStarted(With(entries, {p}, Failed), q) ==> IsStarted(entries, q)
  {
    if IsStarted(With(entries, {p}, Failed), q) {
      var i :| 0 <= i < |entries| && With(entries, {p}, Failed)[i] == Registration(q, Started);
      assert entries[i] == Registration(q, Started);
    }
  }

  lemma NoneLeft(entries: seq<Registration>, subs: seq<Option<Plugin>>, trace: seq<Call>, q: Plugin)
    requires Agrees(entries, subs, trace)
    ensures !IsStarted(With(entries, SetOf(Select(entries, Started)), Registered), q)
  {
    var e := With(entries, SetOf(Select(entries, Started)), Registered);
    SelectHas(entries, Started, q);
    forall i | 0 <= i < |e| ensures e[i] != Registration(q, Started) {
      if entries[i] == Registration(q, Started) {
        assert IsStarted(entries, q);
        assert entries[i] in entries;
      }
    }
  }

  // ----- replacing -----

  function Rest(entries: seq<Registration>, f: Plugin -> bool): seq<Registration> {
    if entries == [] then []
    else (if f(entries[0].plugin) then [] else [entries[0]]) + Rest(entries[1..], f)
  }

  /** The first match gives way to the new plugin, the other matches go. */
  function Replaced(entries: seq<Registration>, f: Plugin -> bool, p: Plugin): seq<Registration> {
    if entries == [] then []
    else if f(entries[0].plugin) then [Registration(p, Registered)] + Rest(entries[1..], f)
    else [entries[0]] + Replaced(entries[1..], f, p)
  }

  /** At the first match's place stands the new plugin; before it nothing changes, and behind it the matches go. */
  ghost predicate Swaps(entries: seq<Registration>, f: Plugin -> bool, p: Plugin, r: seq<Registration>, i: nat) {
    && i < |entries| && f(entries[i].plugin) && (forall j :: 0 <= j < i ==> !f(entries[j].plugin))
    && i < |r| && r[..i] == entries[..i] && r[i] == Registration(p, Registered)
    && Leaves(entries[i + 1..], (e: Registration) => f(e.plugin), r[i + 1..])
  }

  lemma {:induction false} RestSnoc(entries: seq<Registration>, f: Plugin -> bool, e: Registration)
    ensures Rest(entries + [e], f) == Rest(entries, f) + if f(e.plugin) then [] else [e]
  {
    if entries == [] {
      assert entries + [e] == [e] && [e][1..] == [];
    } else {
      RestSnoc(entries[1..], f, e);
      assert (entries + [e])[1..] == entries[1..] + [e];
    }
  }

  lemma {:induction false} RestLeaves(entries: seq<Registration>, f: Plugin -> bool)
    ensures Leaves(entries, (e: Registration) => f(e.plugin), Rest(entries, f))
  {
    var goes := (e: Registration) => f(e.plugin);
    if entries == [] {
      LeavesNothing(goes);
    } else {
      var n := |entries| - 1;
      RestLeaves(entries[..n], f);
      assert entries == entries[..n] + [entries[n]];
      RestSnoc(entries[..n], f, entries[n]);
      LeavesSnoc(entries[..n], goes, Rest(entries[..n], f), entries[n]);
    }
  }

  lemma {:induction false} ReplacedSwaps(entries: seq<Registration>, f: Plugin -> bool, p: Plugin) returns (i: nat)
    requires exists k :: 0 <= k < |entries| && f(entries[k].plugin)
    ensures Swaps(entries, f, p, Replaced(entries, f, p), i)
  {
    var r := Replaced(entries, f, p);
    if f(entries[0].plugin) {
      i := 0;
      RestLeaves(entries[1..], f);
      assert r[1..] == Rest(entries[1..], f);
    } else {
      assert entries == [entries[0]] + entries[1..];
      var j := ReplacedSwaps(entries[1..], f, p);
      i := j + 1;
      assert r[1..] == Replaced(entries[1..], f, p);
      assert r[i + 1..] == r[1..][j + 1..] && entries[i + 1..] == entries[1..][j + 1..];
      assert r[..i] == [r[0]] + r[1..][..j] && entries[..i] == [entries[0]] + entries[1..][..j];
      assert r[i] == r[1..][j] && entries[i] == entries[1..][j];
    }
  }

  lemma {:induction false} DropAllLeaves(subs: seq<Option<Plugin>>, f: Plugin -> bool)
    ensures Leaves(subs, (s: Option<Plugin>) => s.Some? && f(s.value), DropAll(subs, f))
  {
    var goes := (s: Option<Plugin>) => s.Some? && f(s.value);
    if subs == [] {
      LeavesNothing(goes);
    } else {
      var n := |subs| - 1;
      DropAllLeaves(subs[..n], f);
      assert subs == subs[..n] + [subs[n]];
      LeavesSnoc(subs[..n], goes, DropAll(subs[..n], f), subs[n]);
    }
  }

  lemma {:induction false} RestHas(entries: seq<Registration>, f: Plugin -> bool)
    requires Distinct(entries)
    ensures forall e :: e in Rest(entries, f) <==> e in entries && !f(e.plugin)
    ensures Distinct(Rest(entries, f))
  {
    if entries != [] {
      RestHas(entries[1..], f);
      assert entries == [entries[0]] + entries[1..];
      forall i | 0 <= i < |Rest(entries[1..], f)| ensures Rest(entries[1..], f)[i].plugin != entries[0].plugin {
        assert Rest(entries[1..], f)[i] in entries[1..];
      }
    }
  }

  lemma {:induction false} ReplacedHas(entries: seq<Registration>, f: Plugin -> bool, p: Plugin)
    requires Distinct(entries) && f(p)
    ensures forall e :: e in Replaced(entries, f, p) ==>
              e == Registration(p, Registered) || (e in entries && !f(e.plugin))
    ensures forall e :: e in entries && !f(e.plugin) ==> e in Replaced(entries, f, p)
    ensures (exists i :: 0 <= i < |entries| && f(entries[i].plugin)) ==>
              Registration(p, Registered) in Replaced(entries, f, p)
    ensures Distinct(Replaced(entries, f, p))
  {
    if entries != [] {
      assert entries == [entries[0]] + entries[1..];
      if f(entries[0].plugin) {
        RestHas(entries[1..], f);
        forall i | 0 <= i < |Rest(entries[1..], f)| ensures Rest(entries[1..], f)[i].plugin != p {
          assert Rest(entries[1..], f)[i] in Rest(entries[1..], f);
        }
      } else {
        ReplacedHas(entries[1..], f, p);
        forall i | 0 <= i < |Replaced(entries[1..], f, p)|
          ensures Replaced(entries[1..], f, p)[i].plugin != entries[0].plugin
        {
          assert Replaced(entries[1..], f, p)[i] in Replaced(entries[1..], f, p);
        }
      }
    }
  }

  function DropAll(subs: seq<Option<Plugin>>, f: Plugin -> bool): seq<Option<Plugin>> {
    if subs == [] then []
    else
      var last := subs[|subs| - 1];
      DropAll(subs[..|subs| - 1], f) + if last.Some? && f(last.value) then [] else [last]
  }

  lemma {:induction false} DropAllHas(subs: seq<Option<Plugin>>, f: Plugin -> bool)
    ensures forall s :: s in DropAll(subs, f) ==> s in subs
  {
    if subs != [] {
      DropAllHas(subs[..|subs| - 1], f);
    }
  }

  // ----- the same plugin registered twice -----

  /** A pass that goes well starts a plugin once for every time it is registered and not yet started. */
  lemma {:induction false} StartedAsOftenAsRegistered(entries: seq<Registration>, p: Plugin)
    requires p.lifecycle
    ensures multiset(Select(entries, Registered))[p] == multiset(entries)[Registration(p, Registered)]
  {
    if entries != [] {
      var n := |entries| - 1;
      assert entries == entries[..n] + [entries[n]];
      StartedAsOftenAsRegistered(entries[..n], p);
    }
  }

  lemma {:induction false} UpAfterStarts(trace: seq<Call>, ps: seq<Plugin>, q: Plugin)
    ensures Up(trace + Starts(ps), q) <==> q in ps || Up(trace, q)
  {
    if ps == [] {
      assert trace + Starts(ps) == trace;
    } else {
      var n := |ps| - 1;
      UpAfterStarts(trace, ps[..n], q);
      assert ps == ps[..n] + [ps[n]];
      assert trace + Starts(ps) == trace + Starts(ps[..n]) + [StartOk(ps[n])];
      UpSnoc(trace + Starts(ps[..n]), StartOk(ps[n]), q);
    }
  }

  lemma WellFormedIffLast(trace: seq<Call>, c: Call)
    ensures WellFormed(trace + [c]) <==> WellFormed(trace) && Legal(trace, c)
  {
    var t := trace + [c];
    if WellFormed(t) {
      assert t[..|trace|] == trace && Legal(t[..|trace|], t[|trace|]);
      forall k | 0 <= k < |trace| ensures Legal(trace[..k], trace[k]) {
        assert t[..k] == trace[..k] && Legal(t[..k], t[k]);
      }
    } else if WellFormed(trace) && Legal(trace, c) {
      WellFormedSnoc(trace, c);
    }
  }

  /** Among these starts, the plugin's is the only one, and the plugin was not up before. */
  ghost predicate StartsOnce(trace: seq<Call>, ps: seq<Plugin>, q: Plugin) {
    q in ps ==> multiset(ps)[q] == 1 && !Up(trace, q)
  }

  lemma {:induction false} StartsWellFormed(trace: seq<Call>, ps: seq<Plugin>)
    requires WellFormed(trace)
    ensures WellFormed(trace + Starts(ps)) <==> forall q :: StartsOnce(trace, ps, q)
  {
    if ps == [] {
      assert trace + Starts(ps) == trace;
    } else {
      var n := |ps| - 1;
      var before, p := ps[..n], ps[n];
      StartsWellFormed(trace, before);
      UpAfterStarts(trace, before, p);
      assert trace + Starts(ps) == trace + Starts(before) + [StartOk(p)];
      WellFormedIffLast(trace + Starts(before), StartOk(p));
      OneMoreStart(trace, before, p);
      assert ps == before + [p];
    }
  }

  lemma OneMoreStart(trace: seq<Call>, ps: seq<Plugin>, p: Plugin)
    ensures (forall q :: StartsOnce(trace, ps + [p], q)) <==>
              (forall q :: StartsOnce(trace, ps, q)) && p !in ps && !Up(trace, p)
  {
    hide Up;
    var more := ps + [p];
    assert multiset(more) == multiset(ps) + multiset{p};
    assert p in more;
    if forall q :: StartsOnce(trace, more, q) {
      assert StartsOnce(trace, more, p);
      assert multiset(more)[p] == multiset(ps)[p] + 1;
      forall q ensures StartsOnce(trace, ps, q) {
        assert StartsOnce(trace, more, q);
      }
    }
    if (forall q :: StartsOnce(trace, ps, q)) && p !in ps && !Up(trace, p) {
      forall q ensures StartsOnce(trace, more, q) {
        assert StartsOnce(trace, ps, q);
      }
    }
  }

  /** At most one of these entries of the plugin waits to be started, and none if the plugin is started already. */
  ghost predicate WaitsOnceIn(part: seq<Registration>, entries: seq<Registration>, q: Plugin) {
    var waiting := multiset(part)[Registration(q, Registered)];
    waiting <= 1 && (waiting == 1 ==> !IsStarted(entries, q))
  }

  ghost predicate WaitsOnce(entries: seq<Registration>, q: Plugin) {
    WaitsOnceIn(entries, entries, q)
  }

  /** The statuses say which plugins are up. */
  ghost predicate Matches(entries: seq<Registration>, trace: seq<Call>) {
    forall q {:trigger Up(trace, q)} :: Up(trace, q) <==> IsStarted(entries, q)
  }

  lemma StartsOfPart(part: seq<Registration>, entries: seq<Registration>, trace: seq<Call>)
    requires WellFormed(trace) && Matches(entries, trace)
    ensures WellFormed(trace + Starts(Select(part, Registered))) <==>
              forall q: Plugin :: q.lifecycle ==> WaitsOnceIn(part, entries, q)
  {
    var ps := Select(part, Registered);
    StartsWellFormed(trace, ps);
    forall q: Plugin ensures StartsOnce(trace, ps, q) <==> (q.lifecycle ==> WaitsOnceIn(part, entries, q)) {
      hide Up, IsStarted, Select;
      SelectHas(part, Registered, q);
      if q.lifecycle { StartedAsOftenAsRegistered(part, q); }
      assert Up(trace, q) <==> IsStarted(entries, q);
    }
  }

  /**
    Exactly when a pass that goes well starts no plugin that is already up: when
    every plugin waits at most once, and not while it is started.
   */
  lemma StartsAreLegalIff(entries: seq<Registration>, trace: seq<Call>)
    requires WellFormed(trace) && Matches(entries, trace)
    ensures WellFormed(trace + Starts(Select(entries, Registered))) <==>
              forall q: Plugin :: q.lifecycle ==> WaitsOnce(entries, q)
  {
    StartsOfPart(entries, entries, trace);
    forall q: Plugin ensures WaitsOnce(entries, q) <==> WaitsOnceIn(entries, entries, q) {
    }
  }

  lemma WellFormedPrefix(a: seq<Call>, b: seq<Call>)
    requires WellFormed(a + b)
    ensures WellFormed(a)
  {
    forall k | 0 <= k < |a| ensures Legal(a[..k], a[k]) {
      assert (a + b)[..k] == a[..k] && Legal((a + b)[..k], (a + b)[k]);
    }
  }

  lemma {:induction false} StopsWellFormed(trace: seq<Call>, ps: seq<Plugin>, k: nat)
    requires WellFormed(trace) && k <= |ps|
    requires forall i :: 0 <= i < k ==> Up(trace, ps[i])
    requires forall i, j :: 0 <= i < j < k ==> ps[i] != ps[j]
    ensures WellFormed(trace + Stops(ps, k))
    decreases k
  {
    hide *;
    if k == 0 {
      NoneStopped([], ps);
      assert trace + Stops(ps, k) == trace;
    } else {
      var c := Stop(ps[k - 1], true);
      StopsSnoc(ps, k);
      LegalStop(trace, ps[k - 1]);
      WellFormedSnoc(trace, c);
      forall i | 0 <= i < k - 1 ensures Up(trace + [c], ps[i]) {
        UpSnoc(trace, c, ps[i]);
      }
      StopsWellFormed(trace + [c], ps, k - 1);
      assert trace + ([c] + Stops(ps, k - 1)) == trace + [c] + Stops(ps, k - 1);
    }
  }

  lemma LegalStop(trace: seq<Call>, p: Plugin)
    requires Up(trace, p)
    ensures Legal(trace, Stop(p, true))
  {
  }

  /**
    The same of a pass in which the m-th entry's start raises, with its rollback:
    it depends on the entries up to that one.
   */
  lemma RaisingPassIsLegalIff(entries: seq<Registration>, trace: seq<Call>, m: nat)
    requires WellFormed(trace) && Matches(entries, trace)
    requires m < |entries| && entries[m].status.Registered? && entries[m].plugin.lifecycle
    ensures var ps := Select(entries[..m], Registered);
            WellFormed(trace + Starts(ps) + [StartRaised(entries[m].plugin)] + Stops(ps, |ps|)) <==>
              forall q: Plugin :: q.lifecycle ==> WaitsOnceIn(entries[..m + 1], entries, q)
  {
    var ps, p := Select(entries[..m], Registered), entries[m].plugin;
    var begun := trace + Starts(ps);
    var raised := begun + [StartRaised(p)];
    StartsOfPart(entries[..m + 1], entries, trace);
    assert entries[..m + 1][..m] == entries[..m];
    assert Select(entries[..m + 1], Registered) == ps + [p];
    assert trace + Starts(ps + [p]) == begun + [StartOk(p)];
    WellFormedIffLast(begun, StartOk(p));
    WellFormedIffLast(begun, StartRaised(p));
    if WellFormed(raised + Stops(ps, |ps|)) {
      WellFormedPrefix(raised, Stops(ps, |ps|));
    }
    if WellFormed(raised) {
      StartsWellFormed(trace, ps);
      NoRepeats(trace, ps);
      forall i | 0 <= i < |ps| ensures Up(raised, ps[i]) {
        UpAfterStarts(trace, ps, ps[i]);
        UpSnoc(begun, StartRaised(p), ps[i]);
      }
      StopsWellFormed(raised, ps, |ps|);
    }
  }

  lemma NoRepeats(trace: seq<Call>, ps: seq<Plugin>)
    requires forall q :: StartsOnce(trace, ps, q)
    ensures forall i, j :: 0 <= i < j < |ps| ==> ps[i] != ps[j]
  {
    forall i, j | 0 <= i < j < |ps| ensures ps[i] != ps[j] {
      assert StartsOnce(trace, ps, ps[i]);
      if ps[i] == ps[j] { TwoOfThem(ps, i, j); }
    }
  }

  lemma TwoOfThem<T>(s: seq<T>, i: nat, j: nat)
    requires i < j < |s| && s[i] == s[j]
    ensures multiset(s)[s[i]] >= 2
  {
    assert s == s[..j] + s[j..];
    assert s[..j][i] == s[i] && s[i] in multiset(s[..j]);
    assert s[j..][0] == s[i] && s[i] in multiset(s[j..]);
  }

  // ----- from pass to pass -----

  /** Only a plugin's first entry ever has another status than registered, as statuses are set there. */
  ghost predicate FirstOnly(entries: seq<Registration>) {
    forall i, j :: 0 <= i < j < |entries| && entries[i].plugin == entries[j].plugin ==> entries[j].status.Registered?
  }

  function StatusAfter(c: Call): Status {
    match c
    case StartOk(_) => Started
    case StartRaised(_) => Failed
    case Stop(_, _) => Registered
  }

  lemma {:induction false} SetStatusAt(entries: seq<Registration>, p: Plugin, status: Status) returns (k: nat)
    requires Holds(entries, p)
    ensures k < |entries| && entries[k].plugin == p && forall i :: 0 <= i < k ==> entries[i].plugin != p
    ensures SetStatus(entries, p, status) == entries[k := Registration(p, status)]
  {
    if entries[0].plugin == p {
      k := 0;
    } else {
      var i :| 0 <= i < |entries| && entries[i].plugin == p;
      assert entries[1..][i - 1].plugin == p;
      var j := SetStatusAt(entries[1..], p, status);
      k := j + 1;
      forall i | 0 <= i < k ensures entries[i].plugin != p {
        if i > 0 { assert entries[1..][i - 1].plugin != p; }
      }
    }
  }

  /**
    With several entries for a plugin, its status still follows its calls, but for
    a start that raises while the plugin is up: the plugin then counts as failed.
   */
  lemma SetStatusMatches(entries: seq<Registration>, trace: seq<Call>, c: Call)
    requires FirstOnly(entries) && Holds(entries, c.p) && Matches(entries, trace) && (c.Stop? ==> c.released)
    ensures FirstOnly(SetStatus(entries, c.p, StatusAfter(c)))
    ensures Matches(SetStatus(entries, c.p, StatusAfter(c)), trace + [c]) <==> (c.StartRaised? ==> !Up(trace, c.p))
  {
    var status := StatusAfter(c);
    var k := SetStatusAt(entries, c.p, status);
    var e, t := SetStatus(entries, c.p, status), trace + [c];
    hide SetStatus;
    assert FirstOnly(e) by {
      forall i, j | 0 <= i < j < |e| && e[i].plugin == e[j].plugin ensures e[j].status.Registered? {
        assert entries[i].plugin == entries[j].plugin;
      }
    }
    forall q ensures IsStarted(e, q) <==> if q == c.p then status.Started? else IsStarted(entries, q) {
      StartedAfterSet(entries, c.p, status, k, q);
    }
    forall q ensures q != c.p ==> (Up(t, q) <==> Up(trace, q)) {
      UpSnoc(trace, c, q);
    }
    UpSnoc(trace, c, c.p);
    hide Up, IsStarted;
    assert Up(t, c.p) <==> c.StartOk? || (c.StartRaised? && Up(trace, c.p));
    if c.StartRaised? ==> !Up(trace, c.p) {
      forall q ensures Up(t, q) <==> IsStarted(e, q) {
        assert Up(trace, q) <==> IsStarted(entries, q);
      }
    } else {
      assert Up(t, c.p) && !IsStarted(e, c.p);
    }
  }

  lemma StartedAfterSet(entries: seq<Registration>, p: Plugin, status: Status, k: nat, q: Plugin)
    requires FirstOnly(entries) && k < |entries| && entries[k].plugin == p
    requires forall i :: 0 <= i < k ==> entries[i].plugin != p
    ensures IsStarted(entries[k := Registration(p, status)], q) <==>
              if q == p then status.Started? else IsStarted(entries, q)
  {
    var e := entries[k := Registration(p, status)];
    assert e[k] == Registration(p, status);
    forall i | 0 <= i < |e| && i != k ensures e[i] == entries[i] && (e[i].plugin == p ==> e[i].status.Registered?) {
    }
    if q != p && IsStarted(entries, q) {
      var i :| 0 <= i < |entries| && entries[i] == Registration(q, Started);
      assert e[i] == entries[i];
    }
  }

  /** The entries after a pass that goes well over these plugins. */
  function StartAll(entries: seq<Registration>, ps: seq<Plugin>): seq<Registration> {
    if ps == [] then entries
    else SetStatus(StartAll(entries, ps[..|ps| - 1]), ps[|ps| - 1], Started)
  }

  ghost predicate SamePlugins(a: seq<Registration>, b: seq<Registration>) {
    |a| == |b| && forall i :: 0 <= i < |a| ==> a[i].plugin == b[i].plugin
  }

  lemma {:induction false} StartAllMatches(entries: seq<Registration>, trace: seq<Call>, ps: seq<Plugin>)
    requires FirstOnly(entries) && Matches(entries, trace) && forall p :: p in ps ==> Holds(entries, p)
    ensures FirstOnly(StartAll(entries, ps)) && SamePlugins(entries, StartAll(entries, ps))
    ensures Matches(StartAll(entries, ps), trace + Starts(ps))
  {
    if ps == [] {
      assert trace + Starts(ps) == trace;
    } else {
      var n := |ps| - 1;
      assert ps == ps[..n] + [ps[n]];
      StartAllMatches(entries, trace, ps[..n]);
      assert trace + Starts(ps) == trace + Starts(ps[..n]) + [StartOk(ps[n])];
      var before := StartAll(entries, ps[..n]);
      StillHolds(entries, before, ps[n]);
      hide Matches, FirstOnly, Holds;
      SetStatusMatches(before, trace + Starts(ps[..n]), StartOk(ps[n]));
      var k := SetStatusAt(before, ps[n], Started);
    }
  }

  lemma StillHolds(entries: seq<Registration>, entries': seq<Registration>, p: Plugin)
    requires Holds(entries, p) && SamePlugins(entries, entries')
    ensures Holds(entries', p)
  {
    var i :| 0 <= i < |entries| && entries[i].plugin == p;
    assert entries'[i].plugin == p;
  }

  /** Entries and calls after n passes that go well. */
  function Passes(entries: seq<Registration>, trace: seq<Call>, n: nat): (seq<Registration>, seq<Call>) {
    if n == 0 then (entries, trace)
    else
      var before := Passes(entries, trace, n - 1);
      var ps := Select(before.0, Registered);
      (StartAll(before.0, ps), before.1 + Starts(ps))
  }

  lemma SelectedAreHeld(entries: seq<Registration>)
    ensures forall p :: p in Select(entries, Registered) ==> Holds(entries, p)
  {
    forall p | p in Select(entries, Registered) ensures Holds(entries, p) {
      SelectHas(entries, Registered, p);
    }
  }

  lemma {:induction false} PassesMatch(entries: seq<Registration>, trace: seq<Call>, n: nat)
    requires FirstOnly(entries) && Matches(entries, trace)
    ensures var after := Passes(entries, trace, n);
            FirstOnly(after.0) && SamePlugins(entries, after.0) && Matches(after.0, after.1)
  {
    if n > 0 {
      PassesMatch(entries, trace, n - 1);
      var before := Passes(entries, trace, n - 1);
      SelectedAreHeld(before.0);
      hide Matches, FirstOnly, Holds, Select;
      StartAllMatches(before.0, before.1, Select(before.0, Registered));
    }
  }

  ghost predicate RegisteredOnce(entries: seq<Registration>, q: Plugin) {
    forall i, j :: 0 <= i < j < |entries| ==> !(entries[i].plugin == q == entries[j].plugin)
  }

  lemma OnceWaitsOnce(entries: seq<Registration>, q: Plugin)
    requires RegisteredOnce(entries, q)
    ensures WaitsOnce(entries, q)
  {
    var e := Registration(q, Registered);
    if e in entries {
      var i :| 0 <= i < |entries| && entries[i] == e;
      assert entries == entries[..i] + [e] + entries[i + 1..];
      assert e !in entries[..i] && e !in entries[i + 1..];
      assert multiset(entries) == multiset(entries[..i]) + multiset{e} + multiset(entries[i + 1..]);
    }
  }

  lemma {:induction false} PassesLegal(entries: seq<Registration>, trace: seq<Call>, n: nat)
    requires WellFormed(trace) && FirstOnly(entries) && Matches(entries, trace)
    requires forall q: Plugin :: q.lifecycle ==> RegisteredOnce(entries, q)
    ensures WellFormed(Passes(entries, trace, n).1)
  {
    if n > 0 {
      PassesLegal(entries, trace, n - 1);
      PassesMatch(entries, trace, n - 1);
      var before := Passes(entries, trace, n - 1);
      forall q: Plugin | q.lifecycle ensures WaitsOnce(before.0, q) {
        assert RegisteredOnce(entries, q);
        OnceWaitsOnce(before.0, q);
      }
      hide Matches, FirstOnly, WaitsOnce, WellFormed, StartAll, RegisteredOnce, SamePlugins;
      StartsAreLegalIff(before.0, before.1);
    }
  }

  /** After a pass, a plugin with two entries is up and still waits. */
  lemma SecondPassIsIllegal(entries: seq<Registration>, trace: seq<Call>, i: nat, j: nat)
    requires FirstOnly(entries) && Matches(entries, trace)
    requires i < j < |entries| && entries[i].plugin == entries[j].plugin && entries[j].plugin.lifecycle
    ensures !WellFormed(Passes(entries, trace, 2).1)
  {
    var q, ps := entries[j].plugin, Select(entries, Registered);
    var once := Passes(entries, trace, 1);
    assert Passes(entries, trace, 0) == (entries, trace);
    PassesMatch(entries, trace, 1);
    assert Registration(q, Registered) == entries[j];
    SelectHas(entries, Registered, q);
    UpAfterStarts(trace, ps, q);
    assert once.1 == trace + Starts(ps) && Up(once.1, q) && IsStarted(once.0, q);
    assert once.0[i].plugin == once.0[j].plugin == q;
    assert once.0[j] == Registration(q, Registered) && once.0[j] in multiset(once.0);
    hide Up, IsStarted, StartAll, Select;
    assert !WaitsOnce(once.0, q);
    var twice := Passes(entries, trace, 2);
    assert twice.1 == once.1 + Starts(Select(once.0, Registered));
    if WellFormed(twice.1) {
      WellFormedPrefix(once.1, Starts(Select(once.0, Registered)));
      StartsAreLegalIff(once.0, once.1);
      assert false;
    }
  }

  lemma {:induction false} PassesOnlyAdd(entries: seq<Registration>, trace: seq<Call>, n: nat, more: nat)
    requires n <= more && WellFormed(Passes(entries, trace, more).1)
    ensures WellFormed(Passes(entries, trace, n).1)
    decreases more
  {
    if n < more {
      var last := Passes(entries, trace, more - 1);
      WellFormedPrefix(last.1, Starts(Select(last.0, Registered)));
      PassesOnlyAdd(entries, trace, n, more - 1);
    }
  }

  /**
    So from pass to pass no plugin is started while it is up if and only if no
    plugin with a lifecycle is registered twice, whatever the statuses are.
   */
  lemma EveryPassIsLegalIff(entries: seq<Registration>, trace: seq<Call>, n: nat)
    requires WellFormed(trace) && FirstOnly(entries) && Matches(entries, trace) && n >= 2
    ensures WellFormed(Passes(entries, trace, n).1) <==> forall q: Plugin :: q.lifecycle ==> RegisteredOnce(entries, q)
  {
    hide Matches, FirstOnly, Passes, WellFormed;
    if forall q: Plugin :: q.lifecycle ==> RegisteredOnce(entries, q) {
      PassesLegal(entries, trace, n);
    } else {
      var q: Plugin :| q.lifecycle && !RegisteredOnce(entries, q);
      var i, j :| 0 <= i < j < |entries| && entries[i].plugin == q == entries[j].plugin;
      SecondPassIsIllegal(entries, trace, i, j);
      if WellFormed(Passes(entries, trace, n).1) {
        PassesOnlyAdd(entries, trace, 2, n);
      }
    }
  }

  /** Used again after its start failed: one pass is in order, the next starts the plugin although it is up. */
  lemma FailedAndUsedAgain(p: Plugin)
    requires p.lifecycle
    ensures var entries := [Registration(p, Failed), Registration(p, Registered)];
            && Matches(entries, [StartRaised(p)])
            && WellFormed(Passes(entries, [StartRaised(p)], 1).1)
            && !WellFormed(Passes(entries, [StartRaised(p)], 2).1)
  {
    var entries, trace := [Registration(p, Failed), Registration(p, Registered)], [StartRaised(p)];
    assert trace[..0] == [];
    assert Legal(trace[..0], trace[0]);
    forall q ensures !Up(trace, q) {
      assert trace == trace[..0] + [StartRaised(p)];
      UpSnoc(trace[..0], StartRaised(p), q);
    }
    SecondPassIsIllegal(entries, trace, 0, 1);
    assert Passes(entries, trace, 0) == (entries, trace);
    forall q: Plugin ensures WaitsOnce(entries, q) {
      assert multiset(entries) == multiset{Registration(p, Failed), Registration(p, Registered)};
    }
    hide WaitsOnce, Matches, WellFormed, StartAll;
    StartsAreLegalIff(entries, trace);
  }

  /** Used, started and used again, or used twice: the next pass starts the plugin although it is up. */
  lemma RegisteredTwiceStartsTwice(p: Plugin)
    requires p.lifecycle
    ensures var again := [Registration(p, Started), Registration(p, Registered)];
            !WellFormed([StartOk(p)] + Starts(Select(again, Registered)))
    ensures !WellFormed(Starts(Select([Registration(p, Registered), Registration(p, Registered)], Registered)))
  {
    var waiting, trace := Registration(p, Registered), [StartOk(p), StartOk(p)];
    TwoSelected(Registration(p, Started), waiting);
    TwoSelected(waiting, waiting);
    assert [StartOk(p)] + Starts([p]) == trace == Starts([p, p]);
    assert trace[..1] == [StartOk(p)] && Up(trace[..1], p) && !Legal(trace[..1], trace[1]);
  }

  lemma TwoSelected(a: Registration, b: Registration)
    requires a.plugin == b.plugin && a.plugin.lifecycle && b.status.Registered?
    ensures Select([a, b], Registered) == if a.status.Registered? then [b.plugin, b.plugin] else [b.plugin]
  {
    assert [a, b][..1] == [a] && [a][..0] == [];
    assert Select([a], Registered) == if a.status.Registered? then [a.plugin] else [];
  }

  class Harness {
    var entries: seq<Registration>
    var subs: seq<Option<Plugin>>
    var started: bool
    /** Every call of a plugin's start or stop so far. */
    ghost var trace: seq<Call>

    ghost predicate Inv()
      reads this
    {
      && Agrees(entries, subs, trace)
      && (!started ==> forall p {:trigger IsStarted(entries, p)} :: !IsStarted(entries, p))
    }

    constructor ()
      ensures Inv() && entries == [] && trace == [] && !started
    {
      entries, subs, started := [], [], false;
      trace := [];
    }

    /** The same plugin is not registered twice. */
    method Use(p: Plugin)
      requires Inv() && !Holds(entries, p)
      modifies this
      ensures Inv() && entries == old(entries) + [Registration(p, Registered)]
      ensures trace == old(trace) && started == old(started)
    {
      var entries1 := entries + [Registration(p, Registered)];
      forall q ensures IsStarted(entries1, q) <==> IsStarted(entries, q) {
        StartedSnoc(entries, Registration(p, Registered), q);
      }
      SameStarted(entries, entries1, subs, subs, trace);
      entries := entries1;
    }

    /**
      Starts what is registered and not yet started, in registration order. When
      one start raises, that plugin has failed and all others are as before. If
      some plugin requires what no other one provides, nothing is called.
     */
    method Start() returns (r: Outcome)
      requires Inv()
      modifies this
      ensures Inv()
      ensures r.Invalid? <==> !AllMet(Infos(old(entries)))
      ensures r.Invalid? ==>
                var plugins := Infos(old(entries));
                forall u :: u in r.missing <==> UnmetBefore(plugins, |plugins|, 0, u)
      ensures r.Invalid? ==> entries == old(entries) && trace == old(trace)
      ensures !r.Invalid? ==>
                PassResult(old(entries), old(trace), old(Select(entries, Registered)), entries, trace,
                           if r.AllUp? then None else Some(r.k))
      ensures started == (r.AllUp? || old(started))
    {
      hide Agrees, Startable, Select, AllMet, UnmetBefore, Infos;
      var missing := FindUnmet(Infos(entries));
      if missing != [] { return Invalid(missing); }
      var ps := Select(entries, Registered);
      AreStartable(entries, subs, trace);
      var e, s, failed;
      ghost var t;
      e, s, t, failed := StartPass(entries, subs, trace, ps);
      if failed.Some? {
        forall q {:trigger IsStarted(e, q)} ensures IsStarted(e, q) ==> IsStarted(entries, q) {
          FailedIsNotStarted(entries, ps[failed.value], q);
        }
        entries, subs, trace := e, s, t;
        return Raised(failed.value);
      }
      entries, subs, trace := e, s, t;
      started := true;
      return AllUp;
    }

    /** Stops everything that is started, last one first; nothing stays started, even if some stops raise. */
    method StopAll() returns (raised: bool)
      requires Inv()
      modifies this
      ensures Inv() && !started
      ensures !old(started) ==> entries == old(entries) && trace == old(trace) && !raised
      ensures old(started) ==> entries == old(With(entries, SetOf(Select(entries, Started)), Registered))
      ensures old(started) ==> trace == old(trace) + old(Stops(Select(entries, Started), |Select(entries, Started)|))
    {
      if !started { return false; }
      var e, s;
      ghost var t;
      hide Agrees, Select, With;
      e, s, t, raised := StopPass(entries, subs, trace);
      forall q {:trigger IsStarted(e, q)} ensures !IsStarted(e, q) {
        NoneLeft(entries, subs, trace, q);
      }
      entries, subs, trace := e, s, t;
      started := false;
    }

    /** Removes a plugin, stopping it first if it is started; if that raises, it stays. */
    method Unuse(p: Plugin) returns (raised: bool)
      requires Inv()
      modifies this
      ensures Inv() && started == old(started)
      ensures entries == if raised then old(entries) else Without(old(entries), p)
      ensures if raised then subs == old(subs)
              else Leaves(old(entries), (e: Registration) => e.plugin == p, entries)
                   && Leaves(old(subs), s => s == Some(p), subs)
      ensures trace == old(trace) + if old(IsStarted(entries, p)) then [Stop(p, !raised)] else []
      ensures raised ==> old(IsStarted(entries, p))
    {
      raised := false;
      StartedIn(entries, p);
      if p.lifecycle && Registration(p, Started) in entries {
        raised := *;
        RemoveAgrees(entries, subs, trace, p, !raised);
        trace := trace + [Stop(p, !raised)];
        if raised { return; }
      } else {
        RemoveIdle(entries, subs, trace, p);
      }
      DistinctEntries(entries, subs, old(trace));
      forall q ensures IsStarted(Without(entries, p), q) ==> IsStarted(entries, q) {
        StartedWithout(entries, p, q);
      }
      WithoutLeaves(entries, p);
      DropOwnedLeaves(subs, p);
      entries, subs := Without(entries, p), DropOwned(subs, p);
    }

    /**
      Replacing drops entries without stopping them; that is safe because it is
      refused once the harness is started.
     */
    method Replace(f: Plugin -> bool, p: Plugin) returns (ok: bool)
      requires Inv()
      modifies this
      ensures Inv() && trace == old(trace) && started == old(started)
      ensures ok <==> !started && f(p) && exists i :: 0 <= i < |old(entries)| && f(old(entries)[i].plugin)
      ensures entries == if ok then Replaced(old(entries), f, p) else old(entries)
      ensures ok ==> exists i :: Swaps(old(entries), f, p, entries, i)
      ensures if ok then Leaves(old(subs), (s: Option<Plugin>) => s.Some? && f(s.value), subs) else subs == old(subs)
    {
      if started { return false; }
      if !f(p) { return false; }
      if forall i :: 0 <= i < |entries| ==> !f(entries[i].plugin) { return false; }
      ok := true;
      ReplaceAgrees(entries, subs, trace, f, p);
      ghost var i := ReplacedSwaps(entries, f, p);
      DropAllLeaves(subs, f);
      entries, subs := Replaced(entries, f, p), DropAll(subs, f);
    }
  }

  lemma StartedIn(entries: seq<Registration>, p: Plugin)
    ensures IsStarted(entries, p) <==> Registration(p, Started) in entries
  {
  }

  lemma RemoveAgrees(entries: seq<Registration>, subs: seq<Option<Plugin>>, trace: seq<Call>, p: Plugin, released: bool)
    requires Agrees(entries, subs, trace) && IsStarted(entries, p)
    ensures released ==> Agrees(Without(entries, p), DropOwned(subs, p), trace + [Stop(p, true)])
    ensures !released ==> Agrees(entries, subs, trace + [Stop(p, false)])
  {
    var k :| 0 <= k < |entries| && entries[k] == Registration(p, Started);
    assert Holds(entries, p);
    if released {
      StepAgrees(entries, subs, trace, Stop(p, true), Registered, subs);
      WithoutHas(entries, p);
      var e := With(entries, {p}, Registered);
      forall q {:trigger IsStarted(Without(entries, p), q)}
        ensures IsStarted(Without(entries, p), q) <==> IsStarted(e, q)
      {
        StartedWithout(entries, p, q);
        WithStarted(entries, p, Registered, q);
      }
      SameStarted(e, Without(entries, p), DropOwned(subs, p), DropOwned(subs, p), trace + [Stop(p, true)]);
    } else {
      StepAgrees(entries, subs, trace, Stop(p, false), Started, subs);
      assert With(entries, {p}, Started) == entries;
    }
  }

  lemma RemoveIdle(entries: seq<Registration>, subs: seq<Option<Plugin>>, trace: seq<Call>, p: Plugin)
    requires Agrees(entries, subs, trace) && !(p.lifecycle && IsStarted(entries, p))
    ensures !IsStarted(entries, p) && Agrees(Without(entries, p), DropOwned(subs, p), trace)
  {
    WithoutHas(entries, p);
    DropOwnedDrops(subs, p);
    forall q {:trigger IsStarted(Without(entries, p), q)}
      ensures IsStarted(Without(entries, p), q) <==> IsStarted(entries, q)
    {
      StartedWithout(entries, p, q);
    }
    SameStarted(entries, Without(entries, p), subs, DropOwned(subs, p), trace);
  }

  lemma ReplaceAgrees(entries: seq<Registration>, subs: seq<Option<Plugin>>, trace: seq<Call>, f: Plugin -> bool,
                      p: Plugin)
    requires Agrees(entries, subs, trace) && f(p)
    requires forall q {:trigger IsStarted(entries, q)} :: !IsStarted(entries, q)
    ensures Agrees(Replaced(entries, f, p), DropAll(subs, f), trace)
    ensures forall q {:trigger IsStarted(Replaced(entries, f, p), q)} :: !IsStarted(Replaced(entries, f, p), q)
  {
    ReplacedHas(entries, f, p);
    DropAllHas(subs, f);
    var e := Replaced(entries, f, p);
    forall q {:trigger IsStarted(e, q)} ensures !IsStarted(e, q) {
      StartedIn(e, q);
      StartedIn(entries, q);
    }
    SameStarted(entries, e, subs, DropAll(subs, f), trace);
  }

  lemma StartedSnoc(entries: seq<Registration>, e: Registration, q: Plugin)
    ensures IsStarted(entries + [e], q) <==> IsStarted(entries, q) || e == Registration(q, Started)
  {
    assert Registration(q, Started) in entries + [e] <==> IsStarted(entries + [e], q);
    assert Registration(q, Started) in entries <==> IsStarted(entries, q);
  }

  lemma AreStartable(entries: seq<Registration>, subs: seq<Option<Plugin>>, trace: seq<Call>)
    requires Agrees(entries, subs, trace)
    ensures Startable(entries, Select(entries, Registered))
  {
    SelectDistinct(entries, Registered);
    forall i {:trigger Select(entries, Registered)[i]} | 0 <= i < |Select(entries, Registered)|
      ensures Select(entries, Registered)[i].lifecycle
      ensures Registration(Select(entries, Registered)[i], Registered) in entries
    {
      SelectHas(entries, Registered, Select(entries, Registered)[i]);
    }
  }
}
