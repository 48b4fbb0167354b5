/** Where the verbatim tail may begin. */
module Cuts {
  import opened Wrappers
  import opened Messages
  import opened Truncation

  /** Message i forbids a cut at c: it is a result there, or its call lies before c and it does not. */
  ghost predicate Blocks(h: seq<Message>, i: nat, c: nat)
    requires i < |h|
  {
    h[i].role.Tool? && (c == i || (Parent(h, i).Some? && Parent(h, i).value < c <= i))
  }

  ghost predicate IsBlocked(h: seq<Message>, n: nat, c: nat)
    requires n <= |h|
  {
    exists i: nat {:trigger Blocks(h, i, c)} :: i < n && Blocks(h, i, c)
  }

  /** A tail from c on opens on no tool result, and answers no call made before it. */
  ghost predicate Clean(h: seq<Message>, c: nat) {
    && c < |h| && !h[c].role.Tool?
    && forall i {:trigger AnswersFrom(h, c, i)} :: c <= i < |h| ==> AnswersFrom(h, c, i)
  }

  /** The cuts no message blocks are exactly the clean ones. */
  lemma UnblockedIsClean(h: seq<Message>, c: nat)
    requires c < |h|
    ensures !IsBlocked(h, |h|, c) <==> Clean(h, c)
  {
    if !IsBlocked(h, |h|, c) {
      assert !Blocks(h, c, c);
      forall i | c <= i < |h| ensures AnswersFrom(h, c, i) {
        assert !Blocks(h, i, c);
      }
    }
    if Clean(h, c) {
      forall i: nat | i < |h| ensures !Blocks(h, i, c) {
        if c <= i { assert AnswersFrom(h, c, i); }
      }
    }
  }

  lemma CleanIsWhole(h: seq<Message>, c: nat)
    requires Clean(h, c)
    ensures Whole(h, c)
  {
    forall i | c <= i < |h| ensures CallKept(h, c, i) {
      assert AnswersFrom(h, c, i);
    }
  }

  /** The index of the latest caller for each id, over the first n messages. */
  ghost predicate IsCallIndex(h: seq<Message>, n: nat, index: map<string, nat>)
    requires n <= |h|
  {
    forall id {:trigger LastCaller(h, n, id)} ::
      LastCaller(h, n, id) == if id in index then Some(index[id]) else None
  }

  /** Enters one message's calls. */
  method EnterCalls(h: seq<Message>, n: nat, index0: map<string, nat>) returns (index: map<string, nat>)
    requires n < |h| && IsCallIndex(h, n, index0)
    ensures IsCallIndex(h, n + 1, index)
  {
    var calls := h[n].calls;
    index := index0;
    for k := 0 to |calls|
      invariant forall id :: (exists j :: 0 <= j < k && calls[j].id == Some(id)) ==> id in index && index[id] == n
      invariant forall id :: !(exists j :: 0 <= j < k && calls[j].id == Some(id)) ==>
                  ((id in index <==> id in index0) && (id in index ==> index[id] == index0[id]))
    {
      if calls[k].id.Some? {
        index := index[calls[k].id.value := n];
      }
    }
    forall id
      ensures LastCaller(h, n + 1, id) == if id in index then Some(index[id]) else None
    {
      assert LastCaller(h, n, id) == if id in index0 then Some(index0[id]) else None;
      assert Makes(h[n], id) <==> exists j :: 0 <= j < |calls| && calls[j].id == Some(id);
    }
  }

  /** The indices from lo up to hi. */
  function Span(lo: nat, hi: nat): (s: set<nat>)
    ensures forall c: nat :: c in s <==> lo <= c < hi
    decreases hi
  {
    if hi <= lo then {} else Span(lo, hi - 1) + {hi - 1}
  }

  /** Every index at which a cut would orphan a tool result. */
  method BlockedCuts(h: seq<Message>) returns (blocked: set<nat>)
    ensures forall c: nat :: c in blocked <==> IsBlocked(h, |h|, c)
  {
    blocked := {};
    var callIndex: map<string, nat> := map[];
    for i := 0 to |h|
      invariant IsCallIndex(h, i, callIndex)
      invariant forall c: nat :: c in blocked <==> IsBlocked(h, i, c)
    {
      hide LastCaller, IsCallIndex;
      var m := h[i];
      ghost var before := blocked;
      if m.role.Tool? {
        blocked := blocked + {i};
        if m.toolUseId.Some? {
          Indexed(h, i, callIndex, m.toolUseId.value);
          if m.toolUseId.value in callIndex {
            var parent := callIndex[m.toolUseId.value];
            blocked := blocked + Span(parent + 1, i + 1);
          }
        }
      }
      forall c: nat ensures c in blocked <==> IsBlocked(h, i + 1, c) {
        BlockedOneMore(h, i, c);
      }
      callIndex := EnterCalls(h, i, callIndex);
    }
  }

  lemma Indexed(h: seq<Message>, n: nat, index: map<string, nat>, id: string)
    requires n <= |h| && IsCallIndex(h, n, index)
    ensures LastCaller(h, n, id) == if id in index then Some(index[id]) else None
  {
  }

  lemma BlockedOneMore(h: seq<Message>, n: nat, c: nat)
    requires n < |h|
    ensures IsBlocked(h, n + 1, c) <==> IsBlocked(h, n, c) || Blocks(h, n, c)
  {
    if IsBlocked(h, n, c) {
      var i: nat :| i < n && Blocks(h, i, c);
      assert i < n + 1 && Blocks(h, i, c);
    }
  }

  /** The clean cut nearest the target, later ones first; or the start, if there is none after it. */
  ghost predicate IsSafeCut(h: seq<Message>, start: nat, target: nat, r: nat) {
    if exists c: nat :: target <= c && Clean(h, c) then
      target <= r && Clean(h, r) && forall c :: target <= c < r ==> !Clean(h, c)
    else if exists c :: start < c < target && Clean(h, c) then
      start < r < target && Clean(h, r) && forall c :: r < c < target ==> !Clean(h, c)
    else r == start
  }

  method SafeCut(h: seq<Message>, start: nat, target: nat) returns (r: nat)
    requires start <= target < |h|
    ensures IsSafeCut(h, start, target, r)
  {
    hide Clean, IsBlocked;
    var blocked := BlockedCuts(h);
    forall c: nat | c < |h| ensures c in blocked <==> !Clean(h, c) {
      UnblockedIsClean(h, c);
    }
    CleanInside(h);
    for idx := target to |h|
      invariant forall c :: target <= c < idx ==> !Clean(h, c)
    {
      if idx !in blocked { return idx; }
    }
    var idx := target - 1;
    while idx > start
      invariant start - 1 <= idx < target
      invariant forall c :: idx < c < target ==> !Clean(h, c)
    {
      if idx !in blocked { return idx; }
      idx := idx - 1;
    }
    return start;
  }

  lemma CleanInside(h: seq<Message>)
    ensures forall c: nat :: Clean(h, c) ==> c < |h|
  {
  }

  /** The tail begins no earlier than this, so that at most keepRecent messages stay, and at least one. */
  function RecentFrom(n: nat, start: nat, keepRecent: nat): (t: nat)
    requires start < n
    ensures start <= t < n
  {
    var t := if n - keepRecent > start then n - keepRecent else start;
    if t < n - 1 then t else n - 1
  }

  /**
    From the start on, the first cut that keeps no more than the wanted number of
    messages, or one if none is wanted.
   */
  ghost predicate IsRecent(n: nat, start: nat, keepRecent: nat, t: nat) {
    var most := if keepRecent == 0 then 1 else keepRecent;
    start <= t < n && n - t <= most && (start < t ==> n - (t - 1) > most)
  }

  lemma RecentIs(n: nat, start: nat, keepRecent: nat)
    requires start < n
    ensures IsRecent(n, start, keepRecent, RecentFrom(n, start, keepRecent))
  {
  }

  /** The first cut from lo on whose tail fits, or the newest message alone. */
  ghost predicate IsFittingCut(h: seq<Message>, lo: nat, room: int, g: Gauge, t: nat) {
    && lo <= t < |h|
    && (t == |h| - 1 || TotalTokens(h[t..], g) <= room)
    && forall c :: lo <= c < t ==> TotalTokens(h[c..], g) > room
  }

  lemma TotalSplitsFirst(s: seq<Message>, g: Gauge)
    requires s != []
    ensures TotalTokens(s, g) == g.estimate([s[0]]) + TotalTokens(s[1..], g) && TotalTokens([], g) == 0
  {
    if |s| == 1 {
      assert s[..0] == [];
    } else {
      TotalSplitsFirst(s[..|s| - 1], g);
      assert s[1..][..|s| - 2] == s[..|s| - 1][1..];
    }
  }

  method DropUntilFits(h: seq<Message>, lo: nat, room: int, g: Gauge) returns (target: nat)
    requires lo < |h|
    ensures IsFittingCut(h, lo, room, g, target)
  {
    target := lo;
    var tail := Sum(h[lo..], g);
    while target < |h| - 1 && tail > room
      invariant lo <= target < |h| && tail == TotalTokens(h[target..], g)
      invariant forall c :: lo <= c < target ==> TotalTokens(h[c..], g) > room
    {
      TotalSplitsFirst(h[target..], g);
      assert h[target..][1..] == h[target + 1..];
      tail := tail - g.Tokens(h[target]);
      target := target + 1;
    }
  }

  method Sum(s: seq<Message>, g: Gauge) returns (total: nat)
    ensures total == TotalTokens(s, g)
  {
    total := 0;
    for i := 0 to |s|
      invariant total == TotalTokens(s[..i], g)
    {
      assert s[..i + 1][..i] == s[..i];
      total := total + g.Tokens(s[i]);
    }
    assert s[..|s|] == s;
  }

  /** How a cut is chosen: what fits, moved to the nearest clean cut. */
  ghost predicate IsChosenCutoff(h: seq<Message>, start: nat, keepRecent: nat, room: Option<int>, g: Gauge, r: nat) {
    if |h| <= start + 1 then r == start
    else exists lo, t {:trigger IsRecent(|h|, start, keepRecent, lo), IsSafeCut(h, start, t, r)} ::
        && IsRecent(|h|, start, keepRecent, lo) && IsSafeCut(h, start, t, r)
        && match room
           case None => t == lo
           case Some(n) => IsFittingCut(h, lo, n, g, t)
  }

  /** room is half of what the head and the notes leave of the token budget, if there is one. */
  method ChooseCutoff(h: seq<Message>, start: nat, keepRecent: nat, room: Option<int>, g: Gauge) returns (r: nat)
    requires start <= |h|
    ensures IsChosenCutoff(h, start, keepRecent, room, g, r)
    ensures r == start || (start < r && Clean(h, r))
  {
    hide Clean, TotalTokens;
    if |h| <= start + 1 { return start; }
    var target := RecentFrom(|h|, start, keepRecent);
    RecentIs(|h|, start, keepRecent);
    if room.Some? {
      target := DropUntilFits(h, target, room.value, g);
    }
    r := SafeCut(h, start, target);
  }
}
