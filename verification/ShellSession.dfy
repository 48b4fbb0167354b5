/** The state carried between shell calls of one session, which may overlap. */
module ShellSession {
  import opened Wrappers

  const MAX_ENV_VARS: nat := 256

  /** What a finished call has to say: its ticket, and where it went if it left the directory it was started in. */
  datatype Report = Report(ticket: nat, moved: Option<string>)

  // ----- the directory -----

  /** Of the calls that moved, the one with the highest ticket. */
  function Latest(reports: seq<Report>): (r: Option<Report>)
    ensures r.Some? ==> r.value.moved.Some?
  {
    if reports == [] then None
    else
      var last, before := reports[|reports| - 1], Latest(reports[..|reports| - 1]);
      if last.moved.Some? && (before.None? || before.value.ticket <= last.ticket) then Some(last) else before
  }

  ghost predicate DistinctTickets(reports: seq<Report>) {
    forall i, j :: 0 <= i < j < |reports| ==> reports[i].ticket != reports[j].ticket
  }

  ghost predicate IsLatest(reports: seq<Report>, r: Report) {
    r in reports && r.moved.Some? && forall o :: o in reports && o.moved.Some? ==> o.ticket <= r.ticket
  }

  lemma {:induction false} LatestIsLatest(reports: seq<Report>)
    ensures match Latest(reports)
            case None => forall o :: o in reports ==> o.moved.None?
            case Some(r) => IsLatest(reports, r)
  {
    if reports != [] {
      var n := |reports| - 1;
      LatestIsLatest(reports[..n]);
      assert reports == reports[..n] + [reports[n]];
    }
  }

  lemma TicketNames(reports: seq<Report>, a: Report, b: Report)
    requires DistinctTickets(reports) && a in reports && b in reports && a.ticket == b.ticket
    ensures a == b
  {
    var i :| 0 <= i < |reports| && reports[i] == a;
    var j :| 0 <= j < |reports| && reports[j] == b;
    assert i == j;
  }

  /** The calls may finish in any order: it does not matter for where the session ends up. */
  lemma OrderDoesNotMatter(a: seq<Report>, b: seq<Report>)
    requires multiset(a) == multiset(b) && DistinctTickets(a)
    ensures Latest(a) == Latest(b)
  {
    LatestIsLatest(a);
    LatestIsLatest(b);
    forall o ensures o in a <==> o in b {
      assert o in multiset(a) <==> o in multiset(b);
    }
    if Latest(a).Some? {
      var r := Latest(a).value;
      assert r in b;
      TicketNames(a, r, Latest(b).value);
    } else {
      forall o | o in b ensures o.moved.None? {
        assert o in a;
      }
    }
  }

  // ----- the variables -----

  /** A dict in the order its keys were first set. */
  type Env = seq<(string, Option<string>)>

  function KeysOf(env: Env): seq<string> {
    seq(|env|, k requires 0 <= k < |env| => env[k].0)
  }

  ghost predicate NoRepeats(keys: seq<string>) {
    forall i, j :: 0 <= i < j < |keys| ==> keys[i] != keys[j]
  }

  function Lookup(env: Env, key: string): Option<Option<string>> {
    if env == [] then None else if env[0].0 == key then Some(env[0].1) else Lookup(env[1..], key)
  }

  /** Setting a known key keeps its place; a new one goes last. */
  function Put(env: Env, key: string, value: Option<string>): Env {
    if env == [] then [(key, value)]
    else if env[0].0 == key then [(key, value)] + env[1..]
    else [env[0]] + Put(env[1..], key, value)
  }

  function Merge(env: Env, changes: Env): Env {
    if changes == [] then env
    else
      var n := |changes| - 1;
      Put(Merge(env, changes[..n]), changes[n].0, changes[n].1)
  }

  /** The keys that are new, in order. */
  function NewKeys(env: Env, changes: Env): seq<string> {
    if changes == [] then []
    else
      var key := changes[|changes| - 1].0;
      NewKeys(env, changes[..|changes| - 1]) + if key in KeysOf(env) then [] else [key]
  }

  lemma {:induction false} PutKeys(env: Env, key: string, value: Option<string>)
    ensures KeysOf(Put(env, key, value)) == KeysOf(env) + if key in KeysOf(env) then [] else [key]
  {
    if env != [] {
      assert KeysOf(env) == [env[0].0] + KeysOf(env[1..]);
      if env[0].0 != key {
        PutKeys(env[1..], key, value);
        assert KeysOf(Put(env, key, value)) == [env[0].0] + KeysOf(Put(env[1..], key, value));
      } else {
        assert KeysOf(Put(env, key, value)) == [key] + KeysOf(env[1..]);
      }
    }
  }

  /** Known variables keep their places, and new ones come behind them in the order of the changes. */
  lemma {:induction false} MergeKeepsOrder(env: Env, changes: Env)
    requires NoRepeats(KeysOf(changes))
    ensures KeysOf(Merge(env, changes)) == KeysOf(env) + NewKeys(env, changes)
  {
    if changes != [] {
      var n := |changes| - 1;
      var key := changes[n].0;
      assert KeysOf(changes[..n]) == KeysOf(changes)[..n];
      MergeKeepsOrder(env, changes[..n]);
      PutKeys(Merge(env, changes[..n]), key, changes[n].1);
      NewKeysAreKeys(env, changes[..n]);
      assert key !in KeysOf(changes[..n]) by {
        assert KeysOf(changes)[n] == key;
      }
    }
  }

  lemma {:induction false} NewKeysAreKeys(env: Env, changes: Env)
    ensures forall k :: k in NewKeys(env, changes) ==> k in KeysOf(changes)
  {
    if changes != [] {
      var n := |changes| - 1;
      NewKeysAreKeys(env, changes[..n]);
      assert KeysOf(changes) == KeysOf(changes[..n]) + [changes[n].0];
    }
  }

  lemma {:induction false} LookupPut(env: Env, key: string, value: Option<string>, k: string)
    ensures Lookup(Put(env, key, value), k) == if k == key then Some(value) else Lookup(env, k)
  {
    if env != [] && env[0].0 != key {
      LookupPut(env[1..], key, value, k);
    }
  }

  lemma {:induction false} LookupMerge(env: Env, changes: Env, k: string)
    requires NoRepeats(KeysOf(changes))
    ensures Lookup(Merge(env, changes), k) == if Lookup(changes, k).Some? then Lookup(changes, k) else Lookup(env, k)
  {
    if changes != [] {
      var n := |changes| - 1;
      assert KeysOf(changes[..n]) == KeysOf(changes)[..n];
      LookupMerge(env, changes[..n], k);
      LookupPut(Merge(env, changes[..n]), changes[n].0, changes[n].1, k);
      LookupSnoc(changes[..n], changes[n], k);
      assert changes == changes[..n] + [changes[n]];
      if Lookup(changes[..n], k).Some? {
        LookupHas(changes[..n], k);
        var i :| 0 <= i < n && changes[..n][i].0 == k;
        assert KeysOf(changes)[i] == k && KeysOf(changes)[n] == changes[n].0;
      }
    }
  }

  lemma {:induction false} LookupHas(env: Env, k: string)
    requires Lookup(env, k).Some?
    ensures exists i :: 0 <= i < |env| && env[i].0 == k
  {
    if env[0].0 != k {
      LookupHas(env[1..], k);
      var i :| 0 <= i < |env[1..]| && env[1..][i].0 == k;
      assert env[i + 1].0 == k;
    }
  }

  lemma {:induction false} LookupSnoc(env: Env, e: (string, Option<string>), k: string)
    ensures Lookup(env + [e], k) ==
              if Lookup(env, k).Some? then Lookup(env, k) else if e.0 == k then Some(e.1) else None
  {
    if env != [] {
      LookupSnoc(env[1..], e, k);
      assert (env + [e])[1..] == env[1..] + [e];
    } else {
      assert (env + [e])[1..] == [];
    }
  }

  /** The newest entries, as many as the cap allows. */
  function Capped(env: Env): Env {
    if |env| <= MAX_ENV_VARS then env else env[|env| - MAX_ENV_VARS..]
  }

  /** Merges the changes, then drops the oldest entries over the cap. */
  method ApplyEnvChanges(env0: Env, changes: Env) returns (env: Env)
    ensures env == Capped(Merge(env0, changes))
    ensures var all := Merge(env0, changes);
            |env| == (if |all| < 256 then |all| else 256) && env == all[|all| - |env|..]
  {
    env := env0;
    for i := 0 to |changes|
      invariant env == Merge(env0, changes[..i])
    {
      assert changes[..i + 1][..i] == changes[..i];
      env := Put(env, changes[i].0, changes[i].1);
    }
    assert changes[..|changes|] == changes;
    ghost var merged := env;
    while |env| > MAX_ENV_VARS
      invariant |env| <= |merged| && env == merged[|merged| - |env|..]
      invariant |merged| > MAX_ENV_VARS ==> |env| >= MAX_ENV_VARS
      invariant |merged| <= MAX_ENV_VARS ==> env == merged
    {
      env := env[1..];
    }
  }

  // ----- the session -----

  /** Where a call went, if that is not where it started. */
  function Moved(started: Option<string>, result: Option<string>, base: string): Option<string> {
    if result.Some? && result.value != (if started.Some? then started.value else base) then result else None
  }

  /** A session at the workspace root has no directory of its own. */
  function Normal(directory: Option<string>, base: string): Option<string> {
    if directory == Some(base) then None else directory
  }

  /** Where the session is after these calls have finished: where the latest issued of those that moved went. */
  function Directory(initial: Option<string>, base: string, reports: seq<Report>): Option<string> {
    match Latest(reports)
    case None => initial
    case Some(r) => Normal(r.moved, base)
  }

  lemma OnlyLatest(reports: seq<Report>)
    requires DistinctTickets(reports)
    ensures forall r :: IsLatest(reports, r) <==> Latest(reports) == Some(r)
  {
    LatestIsLatest(reports);
    forall r | IsLatest(reports, r) ensures Latest(reports) == Some(r) {
      TicketNames(reports, r, Latest(reports).value);
    }
  }

  lemma DirectoryIs(initial: Option<string>, base: string, reports: seq<Report>)
    ensures match Latest(reports)
            case Some(r) => Directory(initial, base, reports) == if r.moved == Some(base) then None else r.moved
            case None => Directory(initial, base, reports) == initial && forall r :: r in reports ==> r.moved.None?
  {
    LatestIsLatest(reports);
  }

  lemma LatestSnoc(reports: seq<Report>, r: Report)
    ensures Latest(reports + [r]) ==
            var last := Latest(reports);
            if r.moved.Some? && (last.None? || last.value.ticket <= r.ticket) then Some(r) else last
  {
    assert (reports + [r])[..|reports|] == reports;
  }

  lemma DistinctSnoc(reports: seq<Report>, r: Report)
    requires DistinctTickets(reports) && forall o :: o in reports ==> o.ticket != r.ticket
    ensures DistinctTickets(reports + [r])
  {
    forall i | 0 <= i < |reports| ensures reports[i].ticket != r.ticket {
      assert reports[i] in reports;
    }
  }

  class ShellState {
    const base: string
    ghost const initial: Option<string>
    var cwd: Option<string>
    var env: Env
    var seqNo: nat
    var cwdSeq: nat
    /** The calls that have finished, in that order. */
    ghost var reports: seq<Report>

    ghost predicate Inv()
      reads this
    {
      && DistinctTickets(reports)
      && (forall r :: r in reports ==> r.ticket < seqNo)
      && cwd == Directory(initial, base, reports)
      && cwdSeq == (if Latest(reports).Some? then Latest(reports).value.ticket else 0)
    }

    constructor (base: string, cwd: Option<string>)
      ensures Inv() && reports == [] && initial == cwd && this.base == base
    {
      this.base, this.cwd, env, seqNo, cwdSeq := base, cwd, [], 0, 0;
      reports, initial := [], cwd;
    }

    /** A call starts: it is given a ticket and the directory of the moment. */
    method Begin() returns (ticket: nat, started: Option<string>)
      requires Inv()
      modifies this`seqNo
      ensures Inv() && ticket == old(seqNo) && seqNo == ticket + 1 && started == cwd
      ensures forall r :: r in reports ==> r.ticket != ticket
    {
      started, ticket := cwd, seqNo;
      seqNo := seqNo + 1;
    }

    /** A call finishes. result is the directory it ended in, if its shell could say. */
    method Finish(ticket: nat, started: Option<string>, result: Option<string>, changes: Env)
      requires Inv() && ticket < seqNo && forall r :: r in reports ==> r.ticket != ticket
      modifies this`cwd, this`cwdSeq, this`env, this`reports
      ensures Inv() && reports == old(reports) + [Report(ticket, Moved(started, result, base))]
      ensures env == Capped(Merge(old(env), changes))
      ensures forall d :: reports[|old(reports)|].moved == Some(d) <==>
                result == Some(d) && d != if started.Some? then started.value else base
      ensures forall r :: IsLatest(reports, r) ==> cwd == if r.moved.value == base then None else r.moved
      ensures (forall r :: r in reports ==> r.moved.None?) ==> cwd == initial
    {
      var moved := Moved(started, result, base);
      LatestSnoc(reports, Report(ticket, moved));
      DistinctSnoc(reports, Report(ticket, moved));
      hide Latest, DistinctTickets;
      if moved.Some? && ticket >= cwdSeq {
        cwd := if result.value == base then None else result;
        cwdSeq := ticket;
      }
      reports := reports + [Report(ticket, moved)];
      env := ApplyEnvChanges(env, changes);
      OnlyLatest(reports);
      hide IsLatest, Directory;
      DirectoryIs(initial, base, reports);
    }
  }
}
