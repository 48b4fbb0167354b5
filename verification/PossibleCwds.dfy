/** Which directories a redirection may resolve against when the command changes directory on the way. */
module PossibleCwds {
  import opened Wrappers

  const MAX_TRACKED_CDS: nat := 4

  type Path = seq<string>

  // ----- subsets -----

  function Pow2(n: nat): (p: nat)
    ensures p >= 1
  {
    if n == 0 then 1 else 2 * Pow2(n - 1)
  }

  /** Bit i of a mask says whether part i is in. */
  function Chosen(parts: Path, mask: nat): Path {
    if parts == [] then [] else (if mask % 2 == 1 then [parts[0]] else []) + Chosen(parts[1..], mask / 2)
  }

  /** a is b with some elements left out. */
  ghost predicate Subsequence(a: Path, b: Path) {
    if b == [] then a == []
    else Subsequence(a, b[1..]) || (a != [] && a[0] == b[0] && Subsequence(a[1..], b[1..]))
  }

  lemma {:induction false} ChosenIsSubsequence(parts: Path, mask: nat)
    ensures Subsequence(Chosen(parts, mask), parts)
  {
    if parts != [] {
      ChosenIsSubsequence(parts[1..], mask / 2);
      var rest := Chosen(parts[1..], mask / 2);
      var a := Chosen(parts, mask);
      if mask % 2 == 1 {
        assert a == [parts[0]] + rest;
        assert a[1..] == rest;
      } else {
        assert a == rest;
      }
    }
  }

  /** The masks miss no subset. */
  lemma {:induction false} SomeMaskChooses(a: Path, parts: Path) returns (mask: nat)
    requires Subsequence(a, parts)
    ensures mask < Pow2(|parts|) && Chosen(parts, mask) == a
  {
    if parts == [] {
      mask := 0;
    } else if Subsequence(a, parts[1..]) {
      var m := SomeMaskChooses(a, parts[1..]);
      mask := 2 * m;
    } else {
      var m := SomeMaskChooses(a[1..], parts[1..]);
      mask := 2 * m + 1;
      assert [parts[0]] + a[1..] == a;
    }
  }

  lemma {:induction false} NothingIsSubsequence(b: Path)
    ensures Subsequence([], b)
  {
    if b != [] {
      NothingIsSubsequence(b[1..]);
    }
  }

  lemma {:induction false} SubsequenceJoin(a: Path, b: Path, c: Path, d: Path)
    requires Subsequence(a, b) && Subsequence(c, d)
    ensures Subsequence(a + c, b + d)
    decreases |b|
  {
    if b == [] {
      assert a + c == c && b + d == d;
    } else {
      assert (b + d)[1..] == b[1..] + d;
      if Subsequence(a, b[1..]) {
        SubsequenceJoin(a, b[1..], c, d);
      } else {
        SubsequenceJoin(a[1..], b[1..], c, d);
        assert (a + c)[1..] == a[1..] + c;
      }
    }
  }

  // ----- what a command may do -----

  /** A command as far as its directory goes: a cd, a redirection, or a subshell. */
  datatype Shell = Cd(dir: string) | Redirect | Subshell(body: seq<Shell>)

  /** The targets of the cds, in order. */
  function Targets(cmds: seq<Shell>): Path
    decreases cmds
  {
    if cmds == [] then []
    else
      (match cmds[0]
       case Cd(dir) => [dir]
       case Redirect => []
       case Subshell(body) => Targets(body)) + Targets(cmds[1..])
  }

  /**
    A run from directory cwd: the directories its redirections resolve against, and
    the one it ends in. fate says of each cd, by number, whether it takes effect; it
    may fail or never be reached. A subshell's changes end with it.
   */
  function Exec(cmds: seq<Shell>, cwd: Path, fate: nat -> bool, k: nat): (r: (set<Path>, Path))
    decreases cmds
  {
    if cmds == [] then ({}, cwd)
    else
      match cmds[0]
      case Cd(dir) => Exec(cmds[1..], if fate(k) then cwd + [dir] else cwd, fate, k + 1)
      case Redirect =>
        var (seen, end) := Exec(cmds[1..], cwd, fate, k);
        (seen + {cwd}, end)
      case Subshell(body) =>
        var (inner, _) := Exec(body, cwd, fate, k);
        var (seen, end) := Exec(cmds[1..], cwd, fate, k + |Targets(body)|);
        (inner + seen, end)
  }

  /** p is the start directory followed by some of the targets, in order. */
  ghost predicate Follows(p: Path, start: Path, targets: Path) {
    start <= p && Subsequence(p[|start|..], targets)
  }

  lemma FollowsMore(p: Path, start: Path, a: Path, b: Path)
    requires Follows(p, start, b)
    ensures Follows(p, start, a + b)
  {
    NothingIsSubsequence(a);
    SubsequenceJoin([], a, p[|start|..], b);
    assert [] + p[|start|..] == p[|start|..];
  }

  lemma FollowsFewer(p: Path, start: Path, a: Path, b: Path)
    requires Follows(p, start, a)
    ensures Follows(p, start, a + b)
  {
    NothingIsSubsequence(b);
    SubsequenceJoin(p[|start|..], a, [], b);
    assert p[|start|..] + [] == p[|start|..];
  }

  lemma FollowsCd(p: Path, start: Path, dir: string, b: Path)
    requires Follows(p, start + [dir], b)
    ensures Follows(p, start, [dir] + b)
  {
    var rest := p[|start| + 1..];
    assert p[|start|] == (start + [dir])[|start|];
    assert p[|start|..] == [dir] + rest;
    assert Subsequence([dir], [dir]) by {
      assert [dir][1..] == [];
    }
    SubsequenceJoin([dir], [dir], rest, b);
  }

  /** Whatever the cds do, every redirection resolves against the start directory and some of the targets, in order. */
  lemma {:induction false} RunsFollow(cmds: seq<Shell>, cwd: Path, fate: nat -> bool, k: nat, p: Path)
    requires p in Exec(cmds, cwd, fate, k).0
    ensures Follows(p, cwd, Targets(cmds))
    decreases cmds
  {
    var rest := Targets(cmds[1..]);
    match cmds[0]
    case Cd(dir) =>
      RunsFollow(cmds[1..], if fate(k) then cwd + [dir] else cwd, fate, k + 1, p);
      if fate(k) { FollowsCd(p, cwd, dir, rest); } else { FollowsMore(p, cwd, [dir], rest); }
    case Redirect =>
      if p == cwd {
        NothingIsSubsequence(Targets(cmds));
        assert p[|cwd|..] == [];
      } else {
        RunsFollow(cmds[1..], cwd, fate, k, p);
        assert [] + rest == rest;
      }
    case Subshell(body) =>
      if p in Exec(body, cwd, fate, k).0 {
        RunsFollow(body, cwd, fate, k, p);
        FollowsFewer(p, cwd, Targets(body), rest);
      } else {
        RunsFollow(cmds[1..], cwd, fate, k + |Targets(body)|, p);
        FollowsMore(p, cwd, Targets(body), rest);
      }
  }

  // ----- the enumeration -----

  function Known(directories: seq<Option<string>>): Path {
    if directories == [] then []
    else Known(directories[..|directories| - 1])
         + if directories[|directories| - 1].Some? then [directories[|directories| - 1].value] else []
  }

  /** A literal target that only ever leads further down; what the path syntax makes of it is up to the outside. */
  ghost predicate AllTrackable(directories: seq<Option<string>>, trackable: string -> bool) {
    forall d :: d in directories ==> d.Some? && trackable(d.value)
  }

  /** The directories are exactly those that some choice among the targets leads to. */
  ghost predicate IsEvery(cwds: seq<Path>, start: Path, targets: Path) {
    forall p :: p in cwds <==> Follows(p, start, targets)
  }

  lemma StartAlone(start: Path)
    ensures IsEvery([start], start, [])
  {
    assert start[|start|..] == [];
    forall p | Follows(p, start, []) ensures p == start {
      assert p[|start|..] == [];
      assert p == p[..|start|] + p[|start|..];
    }
  }

  lemma ListsAll(cwds: seq<Path>, start: Path, parts: Path)
    requires |cwds| == Pow2(|parts|) && forall m :: 0 <= m < |cwds| ==> cwds[m] == start + Chosen(parts, m)
    ensures IsEvery(cwds, start, parts)
  {
    forall p ensures p in cwds <==> Follows(p, start, parts) {
      if p in cwds {
        var m :| 0 <= m < |cwds| && cwds[m] == p;
        ChosenIsSubsequence(parts, m);
        assert p[|start|..] == Chosen(parts, m);
      }
      if Follows(p, start, parts) {
        var m := SomeMaskChooses(p[|start|..], parts);
        assert cwds[m] == p;
      }
    }
  }

  /** Every directory a redirection might resolve against, or None when that cannot be told. */
  method Possible(start: Path, directories: seq<Option<string>>, repeats: bool, trackable: string -> bool)
    returns (cwds: Option<seq<Path>>)
    ensures cwds.Some? <==>
              || directories == []
              || (!repeats && |directories| <= 4 && AllTrackable(directories, trackable))
    ensures cwds.Some? ==> IsEvery(cwds.value, start, Known(directories))
  {
    if directories == [] {
      StartAlone(start);
      return Some([start]);
    }
    if repeats || |directories| > MAX_TRACKED_CDS { return None; }
    var parts: Path := [];
    for k := 0 to |directories|
      invariant parts == Known(directories[..k])
      invariant AllTrackable(directories[..k], trackable)
    {
      assert directories[..k + 1][..k] == directories[..k];
      var d := directories[k];
      if d.None? || !trackable(d.value) { return None; }
      parts := parts + [d.value];
    }
    assert directories[..|directories|] == directories;
    var all: seq<Path> := [];
    for mask := 0 to Pow2(|parts|)
      invariant |all| == mask && forall m :: 0 <= m < mask ==> all[m] == start + Chosen(parts, m)
    {
      all := all + [start + Chosen(parts, mask)];
    }
    ListsAll(all, start, parts);
    return Some(all);
  }

  /**
    So whichever cds of a command take effect, wherever its redirections stand and
    whatever subshells it has, each redirection resolves against a listed directory.
   */
  lemma NoRedirectionIsMissed(cmds: seq<Shell>, start: Path, fate: nat -> bool, cwds: seq<Path>, p: Path)
    requires IsEvery(cwds, start, Targets(cmds)) && p in Exec(cmds, start, fate, 0).0
    ensures p in cwds
  {
    RunsFollow(cmds, start, fate, 0, p);
  }
}
