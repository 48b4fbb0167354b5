/**
  Keeping the prompt within a message and a token budget: old messages are folded
  into a summary, or left out, and what is left may be shortened.
 */
module Compaction {
  import opened Wrappers
  import opened Messages
  import opened Layouts
  import opened TextCuts
  import opened Truncation
  import opened Cuts
  import opened Recaps
  import opened Accounting

  datatype Limits = Limits(maxMessages: Option<nat>, keepRecent: nat, maxTokens: Option<nat>, maxSummaryTokens: nat)
  {
    /** What the constructor accepts. */
    predicate Ok() {
      && (maxMessages.Some? || maxTokens.Some?)
      && (maxMessages.Some? ==> keepRecent < maxMessages.value)
      && (maxTokens.Some? ==> maxTokens.value > 0)
      && maxSummaryTokens > 0
    }

    /** The transcript of one request: half the budget, at about four characters per token. */
    function ChunkChars(): nat {
      if maxTokens.None? then DEFAULT_CHUNK_CHARS else Max(maxTokens.value * 2, RENDER_CHARS)
    }

    function SummaryLimit(): nat {
      if maxTokens.None? || maxSummaryTokens <= Max(maxTokens.value / 4, 1) then maxSummaryTokens
      else Max(maxTokens.value / 4, 1)
    }

    predicate OverTokens(view: seq<Message>, g: Gauge) {
      maxTokens.Some? && g.Prompt(view) > maxTokens.value
    }

    /** The budget that is exceeded when live messages follow the head and the notes. */
    function OverBudget(live: nat, view: seq<Message>, g: Gauge): Option<Reason> {
      if maxMessages.Some? && live > maxMessages.value then Some(MessageBudget)
      else if OverTokens(view, g) then Some(TokenBudget)
      else None
    }

    /** How many characters of the head's user message fit half the token budget; 0 to leave it alone. */
    function HeadLimit(head: seq<Message>, g: Gauge): (r: nat)
      ensures r == 0 || (EndsOnUser(head) && MIN_TRUNCATED_CHARS <= r < |head[|head| - 1].content|)
    {
      if maxTokens.None? || !EndsOnUser(head) then 0
      else
        var excess := g.Prompt(head) - maxTokens.value / 2;
        if excess <= 0 then 0
        else
          var m := head[|head| - 1];
          var tokens := g.Tokens(m);
          var keep := Max(g.scale(|m.content|, Max(tokens - excess, 0), tokens), MIN_TRUNCATED_CHARS);
          if keep < |m.content| then keep else 0
    }
  }

  datatype Reason = MessageBudget | TokenBudget

  /** What a compaction event reports. */
  datatype Strategy = Summarized | Dropped | Shortening | Overflowing

  // ----- the stable prefix -----

  function Systems(h: seq<Message>): (n: nat)
    ensures n <= |h| && (n < |h| ==> !h[n].role.System?)
    ensures forall k :: 0 <= k < n ==> h[k].role.System?
  {
    if h == [] || !h[0].role.System? then 0 else 1 + Systems(h[1..])
  }

  /** The leading system messages and the first user message after them. */
  function PrefixEnd(h: seq<Message>): (n: nat)
    ensures n <= |h|
  {
    var k := Systems(h);
    if k < |h| && h[k].role.User? then k + 1 else k
  }

  lemma SystemsIs(h: seq<Message>, k: nat)
    requires k <= |h| && (forall i :: 0 <= i < k ==> h[i].role.System?) && (k < |h| ==> !h[k].role.System?)
    ensures Systems(h) == k
  {
  }

  method FindPrefixEnd(h: seq<Message>) returns (i: nat)
    ensures i == PrefixEnd(h)
  {
    i := 0;
    while i < |h| && h[i].role.System?
      invariant i <= |h| && forall k :: 0 <= k < i ==> h[k].role.System?
    {
      i := i + 1;
    }
    SystemsIs(h, i);
    if i < |h| && h[i].role.User? {
      i := i + 1;
    }
  }

  /** The prefix stays the same once something follows it. */
  lemma PrefixStays(h: seq<Message>, h': seq<Message>)
    requires h <= h'
    ensures PrefixEnd(h) < |h| ==> PrefixEnd(h') == PrefixEnd(h)
    ensures PrefixEnd(h') < |h| ==> PrefixEnd(h) == PrefixEnd(h')
  {
    if Systems(h) < |h| {
      SystemsIs(h', Systems(h));
    } else if Systems(h') < |h| {
      SystemsIs(h, Systems(h'));
    }
  }

  lemma PrefixIsWhole(h: seq<Message>)
    ensures Whole(h, PrefixEnd(h))
  {
    forall i | PrefixEnd(h) <= i < |h| ensures CallKept(h, PrefixEnd(h), i) {
      if Parent(h, i).Some? { ParentBefore(h, i); }
    }
  }

  // ----- the layout a state stands for -----

  /** What is remembered: up to where messages are folded into the text, or left out, and the head's limit. */
  datatype Summary = Summary(upto: nat, text: string, droppedUpto: nat, headChars: nat)

  const NOTHING := Summary(0, "", 0, 0)

  function CutHead(head: seq<Message>, limit: nat): seq<Message> {
    if limit == 0 || !EndsOnUser(head) then head
    else
      var last := head[|head| - 1];
      head[..|head| - 1] + [last.(content := TruncateText(last.content, limit))]
  }

  function Cutoff(h: seq<Message>, s: Summary): nat {
    Max(s.upto, PrefixEnd(h))
  }

  function Start(h: seq<Message>, s: Summary): nat {
    Max(Cutoff(h, s), s.droppedUpto)
  }

  predicate Fits(h: seq<Message>, s: Summary) {
    s.upto <= |h| && s.droppedUpto <= |h|
  }

  /** Cuts made for a longer history are forgotten. */
  function Settled(h: seq<Message>, s: Summary): Summary {
    if Fits(h, s) then s else NOTHING
  }

  lemma SettledIs(h: seq<Message>, s: Summary)
    ensures s.upto <= |h| && s.droppedUpto <= |h| ==> Settled(h, s) == s
    ensures s.upto > |h| || s.droppedUpto > |h| ==> Settled(h, s) == Summary(0, "", 0, 0)
  {
  }

  /** Head, notes and tail: the history but for the folded and the omitted messages, which the notes stand for. */
  function Arrange(h: seq<Message>, s: Summary): Layout
    requires Fits(h, s)
  {
    Layout(CutHead(h[..PrefixEnd(h)], s.headChars), Notes(s.text, Start(h, s) - Cutoff(h, s)), h[Start(h, s)..])
  }

  /** A cut is behind the prefix and separates no result from its call; 0 is no cut. */
  ghost predicate CutOk(h: seq<Message>, c: nat) {
    c == 0 || (PrefixEnd(h) < c <= |h| && Whole(h, c))
  }

  /**
    Every message is accounted for: the text stands for exactly the messages from
    the prefix to upto, each given to one successful fold, in order.
   */
  ghost predicate StateOk(h: seq<Message>, s: Summary, folded: seq<Message>) {
    && CutOk(h, s.upto) && CutOk(h, s.droppedUpto)
    && (s.text == "" <==> s.upto == 0)
    && (if s.upto == 0 then folded == [] else PrefixEnd(h) <= s.upto <= |h| && folded == h[PrefixEnd(h)..s.upto])
  }

  /** A view shows what the state says, with the tail's texts cut at most. */
  ghost predicate ShownBy(h: seq<Message>, s: Summary, view: seq<Message>, l: Layout) {
    && Fits(h, s) && view == View(l)
    && l.head == Arrange(h, s).head && l.notes == Arrange(h, s).notes && SameShapes(Arrange(h, s).tail, l.tail)
  }

  lemma PrefixIsHead(h: seq<Message>)
    ensures IsHead(h, PrefixEnd(h))
  {
    var n := Systems(h);
    assert IsHeadAt(h, PrefixEnd(h), n);
  }

  lemma HeadIsCut(head: seq<Message>, limit: nat)
    ensures IsCutHead(head, limit, CutHead(head, limit))
  {
    hide IsCutTo, TruncateText;
    if limit != 0 && EndsOnUser(head) {
      TruncatedIsCut(head[|head| - 1].content, limit);
    }
  }

  /** So a view says where every message of the history has gone. */
  lemma ShownAccounts(h: seq<Message>, s: Summary, view: seq<Message>, l: Layout)
    requires ShownBy(h, s, view, l)
    ensures AccountsFor(h, s.upto, s.text, s.droppedUpto, s.headChars, l.tail, view)
  {
    hide *;
    ShownParts(h, s, view, l);
    var e := PrefixEnd(h);
    PrefixIsHead(h);
    HeadIsCut(h[..e], s.headChars);
    ViewSays(l, s.text, Start(h, s) - Cutoff(h, s));
    PartsAccount(h, s, view, l, e);
  }

  lemma ShownParts(h: seq<Message>, s: Summary, view: seq<Message>, l: Layout)
    requires ShownBy(h, s, view, l)
    ensures Fits(h, s) && view == View(l) && Cutoff(h, s) <= Start(h, s) <= |h|
    ensures l.head == CutHead(h[..PrefixEnd(h)], s.headChars)
    ensures l.notes == Notes(s.text, Start(h, s) - Cutoff(h, s)) && SameShapes(h[Start(h, s)..], l.tail)
  {
    hide PrefixEnd, CutHead, View, SameShapes, Notes;
  }

  lemma PartsAccount(h: seq<Message>, s: Summary, view: seq<Message>, l: Layout, e: nat)
    requires e == PrefixEnd(h) && IsHead(h, e) && IsCutHead(h[..e], s.headChars, l.head)
    requires Cutoff(h, s) <= Start(h, s) <= |h| && SameShapes(h[Start(h, s)..], l.tail)
    requires Says(l.head, s.text, Start(h, s) - Cutoff(h, s), l.tail, view)
    ensures AccountsFor(h, s.upto, s.text, s.droppedUpto, s.headChars, l.tail, view)
  {
    hide PrefixEnd, IsHead, IsCutHead, Says, SameShapes;
    assert AccountsAt(h, s.upto, s.text, s.droppedUpto, s.headChars, l.tail, view, e, l.head);
  }

  lemma StartOk(h: seq<Message>, s: Summary, folded: seq<Message>)
    requires StateOk(h, s, folded)
    ensures Fits(h, s) && PrefixEnd(h) <= Start(h, s) <= |h| && Whole(h, Start(h, s))
    ensures Notes(s.text, Start(h, s) - Cutoff(h, s)) == [] ==> Start(h, s) == PrefixEnd(h)
  {
    PrefixIsWhole(h);
  }

  lemma HeadRoles(h: seq<Message>, limit: nat)
    ensures var head := CutHead(h[..PrefixEnd(h)], limit);
            && |head| == PrefixEnd(h)
            && forall k :: 0 <= k < |head| ==> head[k].role == h[k].role && !head[k].role.Tool?
  {
  }

  lemma WholeAfterUser(h: seq<Message>, c: nat)
    requires Whole(h, c) && c < |h| && h[c].role.User?
    ensures Whole(h, c + 1)
  {
    var d := c + 1;
    forall i | d <= i < |h| ensures CallKept(h, d, i) {
      assert CallKept(h, c, i);
      if Parent(h, i).Some? { ParentBefore(h, i); }
    }
  }

  /** No view orphans a tool result. */
  lemma ViewKeepsPairs(h: seq<Message>, s: Summary, folded: seq<Message>, view: seq<Message>, l: Layout)
    requires StateOk(h, s, folded) && ShownBy(h, s, view, l)
    ensures KeepsPairs(h, view)
  {
    StartOk(h, s, folded);
    HeadRoles(h, s.headChars);
    hide StateOk, Whole, SameShape, CutHead, Notes, Start, PrefixEnd;
    var start := Start(h, s);
    assert SameShapes(h[start..], l.tail);
    if l.notes == [] {
      PlainShows(h, l, start);
      assert ShowsFrom(h, view, start, |l.head|);
    } else {
      var s' := if OpensOnUser(l.tail) then start + 1 else start;
      SeamShows(h, l, start);
      assert ShowsFrom(h, view, s', |Before(l)| + 1);
    }
  }

  lemma PlainShows(h: seq<Message>, l: Layout, start: nat)
    requires start <= |h| && Whole(h, start) && SameShapes(h[start..], l.tail) && l.notes == []
    requires forall k :: 0 <= k < |l.head| ==> !l.head[k].role.Tool?
    ensures ShowsFrom(h, View(l), start, |l.head|)
  {
    hide SameShape, Whole;
    var view, n := View(l), |l.head|;
    forall k | n <= k < |view| ensures SameShape(h[start + (k - n)], view[k]) {
      assert view[k] == l.tail[k - n];
      assert SameShape(h[start..][k - n], l.tail[k - n]);
    }
  }

  /** Behind the seam comes the tail, but for a first message that the seam took in. */
  lemma BehindTheSeam(l: Layout, k: nat)
    requires l.notes != [] && |Before(l)| < k < |View(l)|
    ensures var t := k - (|Before(l)| + 1) + (if OpensOnUser(l.tail) then 1 else 0);
            t < |l.tail| && View(l)[k] == l.tail[t]
  {
    var at := k - (|Before(l)| + 1);
    assert View(l)[k] == After(l)[at];
  }

  lemma BeforeTheSeam(l: Layout)
    requires l.notes != [] && forall k :: 0 <= k < |l.head| ==> !l.head[k].role.Tool?
    ensures |Before(l)| + 1 <= |View(l)|
    ensures |View(l)| - (|Before(l)| + 1) == |l.tail| - (if OpensOnUser(l.tail) then 1 else 0)
    ensures forall k :: 0 <= k < |Before(l)| + 1 ==> !View(l)[k].role.Tool?
  {
    forall k | 0 <= k < |Before(l)| + 1 ensures !View(l)[k].role.Tool? {
      if k < |Before(l)| {
        assert View(l)[k] == l.head[k];
      } else {
        assert View(l)[k] == Seam(l);
      }
    }
  }

  lemma SeamShows(h: seq<Message>, l: Layout, start: nat)
    requires start <= |h| && Whole(h, start) && SameShapes(h[start..], l.tail) && l.notes != []
    requires forall k :: 0 <= k < |l.head| ==> !l.head[k].role.Tool?
    ensures ShowsFrom(h, View(l), if OpensOnUser(l.tail) then start + 1 else start, |Before(l)| + 1)
  {
    hide *;
    TailIsWhole(h, l, start);
    BeforeTheSeam(l);
    var skip := if OpensOnUser(l.tail) then 1 else 0;
    var view, n, s := View(l), |Before(l)| + 1, start + skip;
    forall k | n <= k < |view| ensures s + (k - n) < |h| && SameShape(h[s + (k - n)], view[k]) {
      BehindTheSeam(l, k);
      TailAt(h, l, start, k - n + skip);
    }
    ShowsAll(h, view, s, n);
  }

  lemma ShowsAll(h: seq<Message>, view: seq<Message>, s: nat, n: nat)
    requires s <= |h| && n <= |view| && |view| - n == |h| - s && Whole(h, s)
    requires forall k :: 0 <= k < n ==> !view[k].role.Tool?
    requires forall k :: n <= k < |view| ==> SameShape(h[s + (k - n)], view[k])
    ensures ShowsFrom(h, view, s, n)
  {
    hide SameShape, Whole;
  }

  lemma TailAt(h: seq<Message>, l: Layout, start: nat, t: nat)
    requires start <= |h| && SameShapes(h[start..], l.tail) && t < |l.tail|
    ensures start + t < |h| && SameShape(h[start + t], l.tail[t])
  {
    assert SameShape(h[start..][t], l.tail[t]);
  }

  lemma TailIsWhole(h: seq<Message>, l: Layout, start: nat)
    requires start <= |h| && Whole(h, start) && SameShapes(h[start..], l.tail)
    ensures var s := if OpensOnUser(l.tail) then start + 1 else start;
            s <= |h| && |h| - s == |l.tail| - (s - start) && Whole(h, s)
  {
    if OpensOnUser(l.tail) {
      TailAt(h, l, start, 0);
      WholeAfterUser(h, start);
    }
  }

  /** No view makes user turns adjacent. */
  lemma ViewAlternates(h: seq<Message>, s: Summary, folded: seq<Message>, view: seq<Message>, l: Layout)
    requires StateOk(h, s, folded) && ShownBy(h, s, view, l) && NoAdjacentUsers(h)
    ensures NoAdjacentUsers(view)
  {
    StartOk(h, s, folded);
    HeadRoles(h, s.headChars);
    var start := Start(h, s);
    SameRoles(h[start..], l.tail);
    hide *;
    PartAlternates(h, 0, l.head);
    PartAlternates(h, start, l.tail);
    ViewOfParts(h, l, start);
  }

  lemma ViewOfParts(h: seq<Message>, l: Layout, start: nat)
    requires NoAdjacentUsers(h) && NoAdjacentUsers(l.head) && NoAdjacentUsers(l.tail)
    requires |l.tail| == |h| - start && start <= |h| && |l.head| <= |h|
    requires forall k :: 0 <= k < |l.head| ==> l.head[k].role == h[k].role
    requires forall k :: 0 <= k < |l.tail| ==> l.tail[k].role == h[start..][k].role
    requires l.notes == [] ==> start == |l.head|
    ensures NoAdjacentUsers(View(l))
  {
    hide NoAdjacentUsers;
    if l.notes == [] {
      forall k | 0 <= k < |h| ensures (l.head + l.tail)[k].role == h[k].role {
        if k >= start { assert h[start..][k - start] == h[k]; }
      }
      SameRolesNoAdjacentUsers(h, View(l));
    } else {
      SeamSeparates(l);
    }
  }

  /** A stretch of the history, shown with the same roles. */
  lemma PartAlternates(h: seq<Message>, start: nat, part: seq<Message>)
    requires NoAdjacentUsers(h) && start + |part| <= |h|
    requires forall k :: 0 <= k < |part| ==> part[k].role == h[start..][k].role
    ensures NoAdjacentUsers(part)
  {
    forall i, j | 0 <= i < j < |part| && j == i + 1 ensures !(part[i].role.User? && part[j].role.User?) {
      assert h[start..][i] == h[start + i] && h[start..][j] == h[start + j];
    }
  }

  lemma SameRoles(a: seq<Message>, b: seq<Message>)
    requires SameShapes(a, b)
    ensures |a| == |b| && forall i :: 0 <= i < |a| ==> b[i].role == a[i].role
  {
    forall i | 0 <= i < |a| ensures b[i].role == a[i].role {
      assert SameShape(a[i], b[i]);
    }
  }

  // ----- how a conversation goes on between two calls -----

  /**
    It grows, or is rewound to an earlier point, or is cut so short (or replaced by
    one so short) that the cuts are stale.
   */
  ghost predicate Continues(seen: seq<Message>, h: seq<Message>, s: Summary) {
    Grows(seen, h) || h <= seen || !Fits(h, s)
  }

  lemma CutCarries(seen: seq<Message>, h: seq<Message>, c: nat)
    requires CutOk(seen, c) && c <= |h| && (Grows(seen, h) || h <= seen)
    ensures CutOk(h, c)
    ensures c > 0 ==> PrefixEnd(h) == PrefixEnd(seen) && h[..c] == seen[..c]
  {
    if c > 0 {
      if Grows(seen, h) {
        PrefixStays(seen, h);
        WholeGrows(seen, h, c);
      } else {
        PrefixStays(h, seen);
        WholeInPrefix(h, seen, c);
      }
    }
  }

  lemma StateCarries(seen: seq<Message>, h: seq<Message>, s: Summary, folded: seq<Message>)
    requires StateOk(seen, s, folded) && Fits(h, s) && (Grows(seen, h) || h <= seen)
    ensures StateOk(h, s, folded)
  {
    CutCarries(seen, h, s.upto);
    CutCarries(seen, h, s.droppedUpto);
    if s.upto > 0 {
      hide Whole, PrefixEnd, Grows;
      assert h[PrefixEnd(h)..s.upto] == h[..s.upto][PrefixEnd(h)..];
      assert seen[PrefixEnd(h)..s.upto] == seen[..s.upto][PrefixEnd(h)..];
    }
  }

  // ----- moving a cut -----

  lemma FoldedOk(h: seq<Message>, s: Summary, folded: seq<Message>, text: string, target: nat)
    requires StateOk(h, s, folded) && Start(h, s) < target < |h| && Whole(h, target) && text != ""
    ensures var s' := s.(upto := target, text := text);
            && StateOk(h, s', folded + h[Cutoff(h, s)..target])
            && Fits(h, s') && Start(h, s') == target
  {
    hide Whole;
    if s.upto > 0 {
      assert h[PrefixEnd(h)..s.upto] + h[s.upto..target] == h[PrefixEnd(h)..target];
    }
  }

  lemma DroppedOk(h: seq<Message>, s: Summary, folded: seq<Message>, target: nat)
    requires StateOk(h, s, folded) && Start(h, s) < target < |h| && Whole(h, target)
    ensures var s' := s.(droppedUpto := target);
            StateOk(h, s', folded) && Fits(h, s') && Start(h, s') == target && Cutoff(h, s') == Cutoff(h, s)
  {
    hide Whole;
  }

  // ----- the manager -----

  /** Over the message budget only when no cut is clean among the newest messages. */
  ghost predicate FewOrUncuttable(h: seq<Message>, start: nat, limits: Limits) {
    limits.maxMessages.Some? ==>
      (|h| - start <= limits.maxMessages.value
       || forall c: nat :: |h| - Max(limits.keepRecent, 1) <= c ==> !Clean(h, c))
  }

  lemma ChosenIsFew(h: seq<Message>, start: nat, limits: Limits, room: Option<int>, g: Gauge, r: nat)
    requires limits.Ok() && start <= |h| && IsChosenCutoff(h, start, limits.keepRecent, room, g, r)
    ensures FewOrUncuttable(h, r, limits)
  {
    if limits.maxMessages.Some? && |h| > start + 1 {
      var lo, t :| IsRecent(|h|, start, limits.keepRecent, lo) && IsSafeCut(h, start, t, r)
        && match room
           case None => t == lo
           case Some(n) => IsFittingCut(h, lo, n, g, t);
      hide Clean, TotalTokens;
    }
  }

  /** Over the token budget only when each long message that is shown was tried in vain. */
  ghost predicate LastResort(h: seq<Message>, s: Summary, view: seq<Message>, l: Layout, limits: Limits, g: Gauge)
    requires Fits(h, s)
  {
    limits.OverTokens(view, g) ==> NothingGives(Arrange(h, s), l.tail, limits.maxTokens.value, g)
  }

  lemma PlainlyShown(h: seq<Message>, s: Summary, l: Layout)
    requires Fits(h, s) && l == Arrange(h, s)
    ensures ShownBy(h, s, View(l), l)
  {
    SameShapesReflexive(l.tail);
  }

  lemma FittedShown(h: seq<Message>, s: Summary, l: Layout, budget: nat, g: Gauge)
    requires Fits(h, s) && l == Arrange(h, s)
    ensures var l' := l.(tail := Fitted(l, budget, g));
            && ShownBy(h, s, View(l'), l')
            && (g.Prompt(View(l')) <= budget || NothingGives(l, l'.tail, budget, g))
  {
    FittedResult(l, budget, g);
    hide NothingGives, Fitted, SameShapes, View;
  }

  /** What the summarizing model makes of the messages from the last fold to the target. */
  ghost predicate Recapped(h: seq<Message>, s: Summary, target: nat, limits: Limits, model: Option<Summarizer>,
                           r: Option<string>) {
    && Cutoff(h, s) < target <= |h|
    && (if model.None? then r.None?
        else exists chunk, most :: IsChunkSize(limits, chunk) && IsRecapLimit(limits, most)
               && IsRecap(s.text, h[Cutoff(h, s)..target], chunk, most, model.value, r))
  }

  /** A request's transcript takes half the token budget at four characters a token, but has room for a message. */
  ghost predicate IsChunkSize(limits: Limits, n: nat) {
    match limits.maxTokens
    case None => n == 128_000
    case Some(budget) => n >= 4000 && n >= 2 * budget && (n == 4000 || n == 2 * budget)
  }

  /** A recap keeps to its own limit and to a quarter of the token budget, rounded down but not to nothing. */
  ghost predicate IsRecapLimit(limits: Limits, n: nat) {
    match limits.maxTokens
    case None => n == limits.maxSummaryTokens
    case Some(budget) =>
      var quarter := if budget < 4 then 1 else budget / 4;
      n <= limits.maxSummaryTokens && n <= quarter && (n == limits.maxSummaryTokens || n == quarter)
  }

  /** The messages up to the target are folded, or, without a recap, left out. */
  ghost predicate MovesTo(h: seq<Message>, s0: Summary, s: Summary, target: nat, limits: Limits,
                          model: Option<Summarizer>) {
    || (s == s0.(upto := target, text := s.text) && Recapped(h, s0, target, limits, model, Some(s.text)))
    || (s == s0.(droppedUpto := target) && Recapped(h, s0, target, limits, model, None))
  }

  lemma RecapIs(h: seq<Message>, s: Summary, target: nat, limits: Limits, model: Option<Summarizer>, r: Option<string>)
    requires Start(h, s) < target < |h|
    requires model.None? ==> r.None?
    requires model.Some? && h[Cutoff(h, s)..target] != [] ==>
               IsRecap(s.text, h[Cutoff(h, s)..target], limits.ChunkChars(), limits.SummaryLimit(), model.value, r)
    ensures Recapped(h, s, target, limits, model, r)
  {
    assert |h[Cutoff(h, s)..target]| > 0;
    assert IsChunkSize(limits, limits.ChunkChars()) && IsRecapLimit(limits, limits.SummaryLimit());
    hide IsRecap, IsChunkSize, IsRecapLimit;
  }

  /** Folds the messages up to the target into the text; failing that, leaves them out. */
  method FoldOrDrop(h: seq<Message>, s0: Summary, target: nat, limits: Limits, model: Option<Summarizer>,
                    ghost folded0: seq<Message>)
    returns (s: Summary, strategy: Strategy, ghost folded: seq<Message>)
    requires StateOk(h, s0, folded0) && Start(h, s0) < target < |h| && Whole(h, target)
    ensures StateOk(h, s, folded) && Fits(h, s) && Start(h, s) == target && s.headChars == s0.headChars
    ensures strategy.Summarized? || strategy.Dropped?
    ensures strategy.Summarized? ==>
              model.Some? && s == s0.(upto := target, text := s.text) && folded == folded0 + h[Cutoff(h, s0)..target]
    ensures strategy.Dropped? ==> s == s0.(droppedUpto := target) && folded == folded0
    ensures MovesTo(h, s0, s, target, limits, model)
  {
    var slice := h[Cutoff(h, s0)..target];
    hide StateOk, Whole, Start, Cutoff, IsRecap, Recapped, Fits, Limits.ChunkChars, Limits.SummaryLimit;
    var result := Summarize(s0.text, slice, limits.ChunkChars(), limits.SummaryLimit(), model);
    RecapIs(h, s0, target, limits, model, result);
    if result.Some? {
      FoldedOk(h, s0, folded0, result.value, target);
      s, strategy, folded := s0.(upto := target, text := result.value), Summarized, folded0 + slice;
    } else {
      DroppedOk(h, s0, folded0, target);
      s, strategy, folded := s0.(droppedUpto := target), Dropped, folded0;
    }
  }

  /** Over the token budget, the tail is cut to fit. */
  ghost predicate IsFittedLayout(l0: Layout, l: Layout, limits: Limits, g: Gauge) {
    if limits.maxTokens.Some? && g.Prompt(View(l0)) > limits.maxTokens.value
    then l == l0.(tail := l.tail) && exists states :: IsFitted(l0, states, l.tail, limits.maxTokens.value, g)
    else l == l0
  }

  /** The last resort: the tail's texts are cut. */
  method Fit(h: seq<Message>, s: Summary, l0: Layout, view0: seq<Message>, limits: Limits, g: Gauge)
    returns (view: seq<Message>, cut: bool, ghost l: Layout)
    requires Fits(h, s) && l0 == Arrange(h, s) && view0 == View(l0)
    ensures ShownBy(h, s, view, l)
    ensures LastResort(h, s, view, l, limits, g)
    ensures cut <==> l.tail != l0.tail
    ensures IsFittedLayout(l0, l, limits, g) && view == View(l)
  {
    hide Fits, View, Arrange, ShownBy, Fitted, NothingGives, IsFitted;
    view, l, cut := view0, l0, false;
    PlainlyShown(h, s, l0);
    if limits.maxTokens.Some? && limits.OverTokens(view, g) {
      var shrunk := Truncate(l0, limits.maxTokens.value, g);
      FittedShown(h, s, l0, limits.maxTokens.value, g);
      l := shrunk;
      if shrunk.tail != l0.tail {
        view, cut := View(shrunk), true;
      } else {
        assert shrunk == l0;
      }
    }
  }

  /** With nothing noted and the head whole, the view is the history itself. */
  lemma PlainView(h: seq<Message>, s: Summary, folded: seq<Message>)
    requires StateOk(h, s, folded) && Arrange(h, s).notes == [] && s.headChars == 0
    ensures View(Arrange(h, s)) == h
  {
    StartOk(h, s, folded);
  }

  /** Shortening the head changes nothing else. */
  lemma HeadCut(h: seq<Message>, s: Summary, folded: seq<Message>, limit: nat)
    requires StateOk(h, s, folded) && Fits(h, s) && s.headChars == 0
    ensures var s' := s.(headChars := limit);
            && StateOk(h, s', folded) && Fits(h, s') && Start(h, s') == Start(h, s)
            && Arrange(h, s') == Arrange(h, s).(head := CutHead(Arrange(h, s).head, limit))
  {
    hide PrefixEnd, Whole, TruncateText;
  }

  /** The layout and the view in hand are those of the state. */
  ghost predicate At(h: seq<Message>, s: Summary, folded: seq<Message>, lay: Layout, view: seq<Message>) {
    StateOk(h, s, folded) && Fits(h, s) && lay == Arrange(h, s) && view == View(lay)
  }

  /** The view the state calls for, before anything is done about its size. */
  method Open(h: seq<Message>, s: Summary, ghost folded: seq<Message>)
    returns (start: nat, lay: Layout, view: seq<Message>)
    requires StateOk(h, s, folded) && Fits(h, s)
    ensures At(h, s, folded, lay, view) && start == Start(h, s) <= |h|
  {
    StartOk(h, s, folded);
    hide StateOk, CutHead, Notes, View, PrefixEnd, Whole;
    var headEnd := FindPrefixEnd(h);
    var cutoff := Max(s.upto, headEnd);
    start := Max(cutoff, s.droppedUpto);
    lay := Layout(CutHead(h[..headEnd], s.headChars), Notes(s.text, start - cutoff), h[start..]);
    assert lay == Arrange(h, s);
    if lay.notes != [] || s.headChars != 0 {
      view := View(lay);
    } else {
      PlainView(h, s, folded);
      view := h;
    }
  }

  /** Over the token budget, a head that alone takes more than half of it is cut, once. */
  method LimitHead(h: seq<Message>, s0: Summary, ghost folded: seq<Message>, lay0: Layout, view0: seq<Message>,
                   limits: Limits, g: Gauge)
    returns (s: Summary, lay: Layout, view: seq<Message>, cut: bool)
    requires At(h, s0, folded, lay0, view0)
    ensures At(h, s, folded, lay, view) && Start(h, s) == Start(h, s0)
    ensures cut ==> s0.headChars == 0 && s.headChars >= MIN_TRUNCATED_CHARS && s == s0.(headChars := s.headChars)
    ensures !cut ==> s == s0
    ensures s == if s0.headChars == 0 && limits.OverTokens(view0, g)
                 then s0.(headChars := limits.HeadLimit(lay0.head, g)) else s0
  {
    hide Arrange, StateOk, Fits, View, CutHead, Start, Limits.OverTokens, Limits.HeadLimit;
    s, lay, view, cut := s0, lay0, view0, false;
    if s.headChars == 0 && limits.OverTokens(view, g) {
      var limit := limits.HeadLimit(lay.head, g);
      if limit != 0 {
        HeadCut(h, s, folded, limit);
        s := s.(headChars := limit);
        lay := lay.(head := CutHead(lay.head, limit));
        view := View(lay);
        cut := true;
      }
    }
  }

  /** A fold moves the folded part and its text on; a drop, the omitted part; without either the state stays. */
  ghost predicate FoldMoves(s0: Summary, s: Summary, fold: Option<Strategy>) {
    && fold in {None, Some(Summarized), Some(Dropped)}
    && (fold.None? ==> s == s0)
    && (fold == Some(Summarized) ==> s == s0.(upto := s.upto, text := s.text) && s0.upto < s.upto)
    && (fold == Some(Dropped) ==> s == s0.(droppedUpto := s.droppedUpto) && s0.droppedUpto < s.droppedUpto)
  }

  /** Half of what the head and the notes leave of the token budget, if there is one. */
  function Room(lay: Layout, limits: Limits, g: Gauge): Option<int> {
    if limits.maxTokens.None? then None
    else Some((limits.maxTokens.value - g.Prompt(View(lay.(tail := [])))) / 2)
  }

  /** Under a token overrun alone, folding only helps if the head and the notes fit. */
  predicate Foldable(lay: Layout, limits: Limits, g: Gauge, reason: Reason) {
    reason.MessageBudget?
    || (limits.maxTokens.Some? && g.Prompt(View(lay.(tail := []))) < limits.maxTokens.value)
  }

  /**
    Where the state goes when a budget is exceeded: to the chosen cutoff, if that is
    further on. With a token overrun alone, that is only if the head and the notes
    fit; the cutoff then leaves the tail half of what they leave.
   */
  ghost predicate Advances(h: seq<Message>, s0: Summary, s: Summary, limits: Limits, g: Gauge,
                           model: Option<Summarizer>)
    requires Fits(h, s0)
  {
    var start := Start(h, s0);
    var fixed := g.Prompt(View(Arrange(h, s0).(tail := [])));
    if (limits.maxMessages.Some? && |h| - start > limits.maxMessages.value)
       || (limits.maxTokens.Some? && fixed < limits.maxTokens.value)
    then exists room, target: nat {:trigger IsRoom(limits, fixed, room), MovesTo(h, s0, s, target, limits, model)} ::
        && IsRoom(limits, fixed, room) && IsChosenCutoff(h, start, limits.keepRecent, room, g, target)
        && if target > start then MovesTo(h, s0, s, target, limits, model) else s == s0
    else s == s0
  }

  ghost predicate IsRoom(limits: Limits, fixed: nat, room: Option<int>) {
    match limits.maxTokens
    case None => room == None
    case Some(budget) => room.Some? && 0 <= budget - fixed - 2 * room.value <= 1
  }

  /** Chooses where the tail begins, and folds or leaves out what lies before. */
  method Advance(h: seq<Message>, s0: Summary, ghost folded0: seq<Message>, lay0: Layout, view0: seq<Message>,
                 limits: Limits, g: Gauge, model: Option<Summarizer>, reason: Reason)
    returns (s: Summary, ghost folded: seq<Message>, lay: Layout, view: seq<Message>, fold: Option<Strategy>)
    requires limits.Ok() && At(h, s0, folded0, lay0, view0) && Start(h, s0) <= |h|
    requires Some(reason) == limits.OverBudget(|h| - Start(h, s0), view0, g)
    ensures At(h, s, folded, lay, view)
    ensures FoldMoves(s0, s, fold)
    ensures FewOrUncuttable(h, Start(h, s), limits)
    ensures Fits(h, s0) && Advances(h, s0, s, limits, g, model)
  {
    hide *;
    AtIs(h, s0, folded0, lay0, view0);
    var start := Start(h, s0);
    s, folded, lay, view, fold := s0, folded0, lay0, view0, None;
    StaysPut(s0);
    if !Foldable(lay, limits, g, reason) {
      NotFoldable(lay, limits, g, reason);
      AdvancesNot(h, s0, limits, g, model, reason, view);
      FewLive(h, start, limits, view, g);
      return;
    }
    var room := Room(lay, limits, g);
    var target := ChooseCutoff(h, start, limits.keepRecent, room, g);
    ChosenIsFew(h, start, limits, room, g, target);
    if target > start {
      CleanInsideAt(h, target);
      var strategy;
      s, strategy, folded := FoldOrDrop(h, s0, target, limits, model, folded0);
      MovedFurther(h, s0, s, target);
      fold := Some(strategy);
      FoldMovesTo(s0, s, target, strategy);
      lay := Rearrange(h, lay0, s0, s);
      view := View(lay);
      AtOf(h, s, folded, lay, view);
    }
    AdvancesBy(h, s0, s, limits, g, model, reason, target, view0);
  }

  lemma StaysPut(s: Summary)
    ensures FoldMoves(s, s, None)
  {
  }

  lemma FoldMovesTo(s0: Summary, s: Summary, target: nat, strategy: Strategy)
    requires s0.upto < target && s0.droppedUpto < target
    requires strategy.Summarized? ==> s == s0.(upto := target, text := s.text)
    requires strategy.Dropped? ==> s == s0.(droppedUpto := target)
    requires strategy.Summarized? || strategy.Dropped?
    ensures FoldMoves(s0, s, Some(strategy))
  {
  }

  lemma NotFoldable(lay: Layout, limits: Limits, g: Gauge, reason: Reason)
    requires !Foldable(lay, limits, g, reason)
    ensures reason.TokenBudget?
  {
  }

  lemma AdvancesNot(h: seq<Message>, s: Summary, limits: Limits, g: Gauge, model: Option<Summarizer>, reason: Reason,
                    view: seq<Message>)
    requires Fits(h, s) && !Foldable(Arrange(h, s), limits, g, reason) && Start(h, s) <= |h|
    requires Some(reason) == limits.OverBudget(|h| - Start(h, s), view, g)
    ensures Advances(h, s, s, limits, g, model)
  {
    hide View, Arrange, Start;
  }

  lemma AdvancesBy(h: seq<Message>, s0: Summary, s: Summary, limits: Limits, g: Gauge, model: Option<Summarizer>,
                   reason: Reason, target: nat, view: seq<Message>)
    requires Fits(h, s0) && Foldable(Arrange(h, s0), limits, g, reason) && Start(h, s0) <= |h|
    requires Some(reason) == limits.OverBudget(|h| - Start(h, s0), view, g)
    requires IsChosenCutoff(h, Start(h, s0), limits.keepRecent, Room(Arrange(h, s0), limits, g), g, target)
    requires if target > Start(h, s0) then MovesTo(h, s0, s, target, limits, model) else s == s0
    ensures Advances(h, s0, s, limits, g, model)
  {
    hide IsChosenCutoff, Start, Arrange, View;
    var room := Room(Arrange(h, s0), limits, g);
    assert IsRoom(limits, g.Prompt(View(Arrange(h, s0).(tail := []))), room);
    var moves := MovesTo(h, s0, s, target, limits, model);
  }

  lemma CleanInsideAt(h: seq<Message>, c: nat)
    requires Clean(h, c)
    ensures c < |h| && Whole(h, c)
  {
    CleanIsWhole(h, c);
  }

  lemma MovedFurther(h: seq<Message>, s0: Summary, s: Summary, target: nat)
    requires Start(h, s0) < target == Start(h, s)
    requires s == s0.(upto := target, text := s.text) || s == s0.(droppedUpto := target)
    ensures s0.upto < target && s0.droppedUpto < target
  {
  }

  /** The same head, with the notes and the tail of a state that has moved on. */
  method Rearrange(h: seq<Message>, lay0: Layout, s0: Summary, s: Summary) returns (lay: Layout)
    requires Fits(h, s0) && Fits(h, s) && lay0 == Arrange(h, s0) && s.headChars == s0.headChars
    ensures lay == Arrange(h, s)
  {
    var start, cutoff := Start(h, s), Cutoff(h, s);
    lay := Layout(lay0.head, Notes(s.text, start - cutoff), h[start..]);
  }

  lemma FewLive(h: seq<Message>, start: nat, limits: Limits, view: seq<Message>, g: Gauge)
    requires start <= |h| && limits.OverBudget(|h| - start, view, g) != Some(MessageBudget)
    ensures FewOrUncuttable(h, start, limits)
    ensures limits.OverBudget(|h| - start, view, g).None? ==> !limits.OverTokens(view, g)
  {
  }

  /** What was done, in order: the head, then a fold or a drop, then the tail, then the report. */
  datatype Steps = Steps(head: bool, fold: Option<Strategy>, tail: bool, report: bool)
  {
    function Log(): seq<Strategy> {
      (if head then [Shortening] else []) + (if fold.Some? then [fold.value] else [])
      + (if tail then [Shortening] else []) + (if report then [Overflowing] else [])
    }
  }

  /**
    How the state moves in one call. The cuts only move on, at most one of them;
    the text changes only with its cut and the head is limited only once; and the
    events are exactly those of what was done, in order.
   */
  ghost predicate Moves(h: seq<Message>, s0: Summary, s: Summary, l: Layout, log: seq<Strategy>, wasOver: bool,
                        isOver: bool)
    requires Fits(h, s)
  {
    && s0.upto <= s.upto && s0.droppedUpto <= s.droppedUpto && (s.upto == s0.upto || s.droppedUpto == s0.droppedUpto)
    && (s.upto == s0.upto ==> s.text == s0.text)
    && (s.headChars != s0.headChars ==> s0.headChars == 0 && s.headChars >= MIN_TRUNCATED_CHARS)
    && log == (if s.headChars != s0.headChars then [Shortening] else [])
              + (if s.upto > s0.upto then [Summarized] else [])
              + (if s.droppedUpto > s0.droppedUpto then [Dropped] else [])
              + (if l.tail != Arrange(h, s).tail then [Shortening] else [])
              + (if isOver && !wasOver then [Overflowing] else [])
  }

  lemma MovesBySteps(h: seq<Message>, s0: Summary, s1: Summary, s: Summary, l: Layout, steps: Steps, wasOver: bool,
                     isOver: bool)
    requires s1 == if steps.head then s0.(headChars := s1.headChars) else s0
    requires steps.head ==> s0.headChars == 0 && s1.headChars >= MIN_TRUNCATED_CHARS
    requires FoldMoves(s1, s, steps.fold) && Fits(h, s)
    requires (steps.tail <==> l.tail != Arrange(h, s).tail) && (steps.report <==> isOver && !wasOver)
    ensures Moves(h, s0, s, l, steps.Log(), wasOver, isOver)
  {
    hide Arrange, Fits;
  }

  lemma AtOf(h: seq<Message>, s: Summary, folded: seq<Message>, lay: Layout, view: seq<Message>)
    requires StateOk(h, s, folded) && Fits(h, s) && lay == Arrange(h, s) && view == View(lay)
    ensures At(h, s, folded, lay, view)
  {
  }

  lemma AtIs(h: seq<Message>, s: Summary, folded: seq<Message>, lay: Layout, view: seq<Message>)
    requires At(h, s, folded, lay, view)
    ensures StateOk(h, s, folded) && Fits(h, s) && lay == Arrange(h, s) && view == View(lay)
  {
  }

  /**
    What one compaction decides: over the token budget the head is limited, once;
    still over a budget, the tail is begun further on; and the layout is fitted.
   */
  ghost predicate Decided(h: seq<Message>, s0: Summary, s: Summary, l: Layout, limits: Limits, g: Gauge,
                          model: Option<Summarizer>) {
    exists s1 {:trigger DecidedBy(h, s0, s1, s, l, limits, g, model)} :: DecidedBy(h, s0, s1, s, l, limits, g, model)
  }

  ghost predicate DecidedBy(h: seq<Message>, s0: Summary, s1: Summary, s: Summary, l: Layout, limits: Limits, g: Gauge,
                            model: Option<Summarizer>) {
    && Fits(h, s0) && Fits(h, s1) && Fits(h, s)
    && (if s0.headChars == 0 && TokensOver(h, s0, limits, g)
        then s1 == s0.(headChars := s1.headChars) && IsHeadLimit(Arrange(h, s0).head, limits, g, s1.headChars)
        else s1 == s0)
    && (if MessagesOver(h, s1, limits) || TokensOver(h, s1, limits, g)
        then Advances(h, s1, s, limits, g, model) else s == s1)
    && IsFittedLayout(Arrange(h, s), l, limits, g)
  }

  /** The view the state calls for is over the token budget. */
  ghost predicate TokensOver(h: seq<Message>, s: Summary, limits: Limits, g: Gauge)
    requires Fits(h, s)
  {
    limits.maxTokens.Some? && g.Prompt(View(Arrange(h, s))) > limits.maxTokens.value
  }

  ghost predicate MessagesOver(h: seq<Message>, s: Summary, limits: Limits) {
    limits.maxMessages.Some? && |h| - Start(h, s) > limits.maxMessages.value
  }

  /**
    The limit for the head's user message: none unless the head alone takes more
    than half of the token budget, and then its share of what is left of the
    message's estimate, if that is shorter than the message is.
   */
  ghost predicate IsHeadLimit(head: seq<Message>, limits: Limits, g: Gauge, limit: nat)
    requires limits.maxTokens.Some?
  {
    var excess := g.Prompt(head) - limits.maxTokens.value / 2;
    if head == [] || head[|head| - 1].role != User || excess <= 0 then limit == 0
    else
      var m := head[|head| - 1];
      var tokens := g.estimate([m]);
      var share := g.scale(|m.content|, if tokens < excess then 0 else tokens - excess, tokens);
      var keep := if share < 200 then 200 else share;
      limit == if keep < |m.content| then keep else 0
  }

  lemma HeadLimitIs(head: seq<Message>, limits: Limits, g: Gauge)
    requires limits.maxTokens.Some?
    ensures IsHeadLimit(head, limits, g, limits.HeadLimit(head, g))
  {
  }

  lemma NotOver(h: seq<Message>, s: Summary, view: seq<Message>, l: Layout, limits: Limits, g: Gauge)
    requires Fits(h, s) && !limits.OverTokens(view, g)
    ensures LastResort(h, s, view, l, limits, g)
  {
  }

  lemma WithinIsFitted(h: seq<Message>, s: Summary, limits: Limits, g: Gauge)
    requires Fits(h, s) && limits.OverBudget(|h| - Start(h, s), View(Arrange(h, s)), g).None?
    requires Start(h, s) <= |h|
    ensures IsFittedLayout(Arrange(h, s), Arrange(h, s), limits, g)
  {
    hide Start, Arrange, View, IsFitted;
  }

  lemma DecidedIs(h: seq<Message>, s0: Summary, s1: Summary, s: Summary, l: Layout, limits: Limits, g: Gauge,
                  model: Option<Summarizer>)
    requires Fits(h, s0) && Fits(h, s1) && Fits(h, s) && Start(h, s0) <= |h| && Start(h, s1) <= |h|
    requires s1 == if limits.OverBudget(|h| - Start(h, s0), View(Arrange(h, s0)), g).Some? && s0.headChars == 0
                      && limits.OverTokens(View(Arrange(h, s0)), g)
                   then s0.(headChars := limits.HeadLimit(Arrange(h, s0).head, g)) else s0
    requires if limits.OverBudget(|h| - Start(h, s1), View(Arrange(h, s1)), g).None? then s == s1
             else Advances(h, s1, s, limits, g, model)
    requires IsFittedLayout(Arrange(h, s), l, limits, g)
    ensures Decided(h, s0, s, l, limits, g, model)
  {
    hide Limits.OverBudget, Limits.OverTokens, Limits.HeadLimit, TokensOver, MessagesOver, Advances, IsHeadLimit,
         IsFittedLayout, Arrange, View, Start, Fits;
    OverIs(h, s0, limits, g);
    OverIs(h, s1, limits, g);
    if limits.maxTokens.Some? { HeadLimitIs(Arrange(h, s0).head, limits, g); }
    assert DecidedBy(h, s0, s1, s, l, limits, g, model);
  }

  lemma OverIs(h: seq<Message>, s: Summary, limits: Limits, g: Gauge)
    requires Fits(h, s) && Start(h, s) <= |h|
    ensures limits.OverTokens(View(Arrange(h, s)), g) <==> TokensOver(h, s, limits, g)
    ensures limits.OverBudget(|h| - Start(h, s), View(Arrange(h, s)), g).Some? <==>
            MessagesOver(h, s, limits) || TokensOver(h, s, limits, g)
    ensures TokensOver(h, s, limits, g) ==> limits.maxTokens.Some?
  {
    hide Arrange, View, Start, Fits;
  }

  /** Brings a view within the budgets as far as it can, and moves the state accordingly. */
  method Compact(h: seq<Message>, s0: Summary, wasOver: bool, limits: Limits, g: Gauge, model: Option<Summarizer>,
                 ghost folded0: seq<Message>)
    returns (view: seq<Message>, s: Summary, isOver: bool, log: seq<Strategy>, ghost l: Layout,
             ghost folded: seq<Message>)
    requires limits.Ok() && StateOk(h, s0, folded0) && Fits(h, s0)
    ensures StateOk(h, s, folded) && ShownBy(h, s, view, l)
    ensures isOver <==> limits.OverTokens(view, g)
    ensures LastResort(h, s, view, l, limits, g)
    ensures FewOrUncuttable(h, Start(h, s), limits)
    ensures Moves(h, s0, s, l, log, wasOver, isOver) && Decided(h, s0, s, l, limits, g, model)
  {
    hide *;
    var start, lay;
    start, lay, view := Open(h, s0, folded0);
    AtIs(h, s0, folded0, lay, view);
    s, folded, isOver := s0, folded0, false;
    var steps := Steps(false, None, false, false);
    var reason := limits.OverBudget(|h| - start, view, g);
    if reason.Some? {
      var cut;
      s, lay, view, cut := LimitHead(h, s, folded, lay, view, limits, g);
      AtIs(h, s, folded, lay, view);
      steps := steps.(head := cut);
      reason := limits.OverBudget(|h| - start, view, g);
    }
    ghost var s1 := s;
    if reason.Some? {
      var fold;
      s, folded, lay, view, fold := Advance(h, s, folded, lay, view, limits, g, model, reason.value);
      AtIs(h, s, folded, lay, view);
      steps := steps.(fold := fold);
      var cut;
      view, cut, l := Fit(h, s, lay, view, limits, g);
      isOver := limits.OverTokens(view, g);
      steps := steps.(tail := cut, report := isOver && !wasOver);
    } else {
      PlainlyShown(h, s, lay);
      FewLive(h, start, limits, view, g);
      NotOver(h, s, view, lay, limits, g);
      StaysPut(s);
      WithinIsFitted(h, s, limits, g);
      l := lay;
    }
    DecidedIs(h, s0, s1, s, l, limits, g, model);
    log := steps.Log();
    MovesBySteps(h, s0, s1, s, l, steps, wasOver, isOver);
  }

  /**
    A view as it should be. It shows what the state says: the head, the notes, and
    the history from a cut on, of which only long texts may be shortened. It
    orphans no tool result and makes no user turns adjacent. It is over the token
    budget only if each long message in its tail was tried in vain, and over the
    message budget only if no cut is clean among the newest messages.
   */
  ghost predicate GoodView(h: seq<Message>, s: Summary, view: seq<Message>, l: Layout, isOver: bool, limits: Limits,
                           g: Gauge) {
    && ShownBy(h, s, view, l) && AccountsFor(h, s.upto, s.text, s.droppedUpto, s.headChars, l.tail, view)
    && KeepsPairs(h, view)
    && (NoAdjacentUsers(h) ==> NoAdjacentUsers(view))
    && (isOver <==> limits.OverTokens(view, g))
    && LastResort(h, s, view, l, limits, g)
    && FewOrUncuttable(h, Start(h, s), limits)
  }

  method NextView(h: seq<Message>, s0: Summary, wasOver: bool, limits: Limits, g: Gauge, model: Option<Summarizer>,
                  ghost folded0: seq<Message>)
    returns (view: seq<Message>, s: Summary, isOver: bool, log: seq<Strategy>, ghost l: Layout,
             ghost folded: seq<Message>)
    requires limits.Ok() && StateOk(h, s0, folded0) && Fits(h, s0)
    ensures StateOk(h, s, folded) && GoodView(h, s, view, l, isOver, limits, g)
    ensures Moves(h, s0, s, l, log, wasOver, isOver) && Decided(h, s0, s, l, limits, g, model)
  {
    hide Decided, StateOk, ShownBy, LastResort, FewOrUncuttable, Moves, Start, KeepsPairs, NoAdjacentUsers, Arrange;
    hide Limits.OverBudget, Limits.OverTokens, AccountsFor;
    view, s, isOver, log, l, folded := Compact(h, s0, wasOver, limits, g, model, folded0);
    ShownAccounts(h, s, view, l);
    ViewKeepsPairs(h, s, folded, view, l);
    if NoAdjacentUsers(h) { ViewAlternates(h, s, folded, view, l); }
  }

  /** Every event but a fold counts as a fallback. */
  ghost predicate Tally(events: seq<Strategy>, summaries: nat, fallbacks: nat) {
    summaries == multiset(events)[Summarized] && fallbacks == |events| - summaries
  }

  class Manager {
    const limits: Limits
    var upto: nat
    var text: string
    var droppedUpto: nat
    var headChars: nat
    var overflowed: bool
    var summaries: nat
    var fallbacks: nat
    /** The history of the last call, the messages the text stands for, and the events so far. */
    ghost var seen: seq<Message>
    ghost var folded: seq<Message>
    ghost var events: seq<Strategy>

    function State(): Summary
      reads this
    {
      Summary(upto, text, droppedUpto, headChars)
    }

    ghost predicate Inv()
      reads this
    {
      && limits.Ok()
      && StateOk(seen, State(), folded)
      && Tally(events, summaries, fallbacks)
    }

    constructor (limits: Limits)
      requires limits.Ok()
      ensures Inv() && this.limits == limits && State() == NOTHING && !overflowed && events == [] && seen == []
    {
      this.limits := limits;
      upto, text, droppedUpto, headChars, overflowed := 0, "", 0, 0, false;
      summaries, fallbacks := 0, 0;
      seen, folded, events := [], [], [];
    }

    /** Cuts made for a longer history are forgotten. */
    method Rewind(h: seq<Message>)
      requires Inv() && Continues(seen, h, State())
      modifies this
      ensures Inv() && seen == h && Fits(h, State())
      ensures State() == Settled(h, old(State()))
      ensures overflowed <==> old(overflowed) && Fits(h, old(State()))
      ensures events == old(events)
    {
      if upto > |h| || droppedUpto > |h| {
        upto, text, droppedUpto := 0, "", 0;
        headChars, overflowed := 0, false;
        folded := [];
      } else {
        StateCarries(seen, h, State(), folded);
      }
      seen := h;
    }

    /** Counts and reports what was done. */
    method RecordAll(log: seq<Strategy>)
      requires Tally(events, summaries, fallbacks)
      modifies this`events, this`summaries, this`fallbacks
      ensures Tally(events, summaries, fallbacks) && events == old(events) + log
    {
      for i := 0 to |log|
        invariant Tally(events, summaries, fallbacks) && events == old(events) + log[..i]
      {
        if log[i].Summarized? {
          summaries := summaries + 1;
        } else {
          fallbacks := fallbacks + 1;
        }
        events := events + [log[i]];
      }
    }

    /**
      The view of the history for the next model call. The messages the summary
      stands for stay exactly those between the head and the cut, each folded
      once; the events are exactly those of what was done, and a prompt that stays
      over budget is reported once.
     */
    method Process(h: seq<Message>, g: Gauge, model: Option<Summarizer>)
      returns (view: seq<Message>, ghost l: Layout, ghost log: seq<Strategy>)
      requires Inv() && Continues(seen, h, State())
      modifies this
      ensures Inv() && seen == h
      ensures GoodView(h, State(), view, l, overflowed, limits, g)
      ensures Decided(h, Settled(h, old(State())), State(), l, limits, g, model)
      ensures events == old(events) + log
      ensures Moves(h, Settled(h, old(State())), State(), l, log, old(overflowed) && Fits(h, old(State())), overflowed)
    {
      hide StateOk, Tally, GoodView, Decided, Moves, Continues, Limits.Ok, Fits;
      Rewind(h);
      var s, isOver, steps;
      ghost var after;
      view, s, isOver, steps, l, after := NextView(h, State(), overflowed, limits, g, model, folded);
      upto, text, droppedUpto, headChars := s.upto, s.text, s.droppedUpto, s.headChars;
      overflowed, folded := isOver, after;
      RecordAll(steps);
      log := steps;
    }
  }

  /** A manager with these limits; limits out of range are refused. */
  method Make(limits: Limits) returns (m: Option<Manager>)
    ensures m.Some? <==> limits.Ok()
    ensures m.Some? ==> fresh(m.value) && m.value.Inv() && m.value.limits == limits
    ensures m.Some? ==> forall h :: Continues(m.value.seen, h, m.value.State())
  {
    if !limits.Ok() { return None; }
    var manager := new Manager(limits);
    forall h ensures Continues([], h, NOTHING) {
      FromNothing(h);
    }
    return Some(manager);
  }

  // ----- whole runs -----

  /** One model call: the history then, and what the estimator and the summarizing model are like at that time. */
  datatype Turn = Turn(history: seq<Message>, gauge: Gauge, model: Option<Summarizer>)

  /** From call to call the history grows, or is rewound to an earlier point. */
  ghost predicate Conversation(turns: seq<Turn>) {
    forall i, j :: 0 <= i < j < |turns| && j == i + 1 ==>
      (Grows(turns[i].history, turns[j].history) || turns[j].history <= turns[i].history)
  }

  lemma FromNothing(h: seq<Message>)
    ensures Grows([], h)
  {
    forall i | 0 <= i < |h| ensures AnswersFrom(h, 0, i) {
    }
  }

  /**
    Over a whole conversation, or any stretch of it that goes on from where the
    manager is, whatever the estimators and the models do, no view orphans a tool
    result and none makes user turns adjacent; and in the end the summary stands
    for exactly the messages between the head and the cut.
   */
  method Run(m: Manager, turns: seq<Turn>) returns (views: seq<seq<Message>>)
    requires m.Inv() && Conversation(turns)
    requires turns != [] ==> Continues(m.seen, turns[0].history, m.State())
    modifies m
    ensures m.Inv() && (turns != [] ==> m.seen == turns[|turns| - 1].history)
    ensures |views| == |turns|
    ensures forall k :: 0 <= k < |turns| ==> KeepsPairs(turns[k].history, views[k])
    ensures forall k :: 0 <= k < |turns| && NoAdjacentUsers(turns[k].history) ==> NoAdjacentUsers(views[k])
  {
    hide StateOk, Tally, Moves, Decided, Grows, KeepsPairs, NoAdjacentUsers, ShownBy, LastResort, FewOrUncuttable;
    hide Limits.Ok, Fits, AccountsFor;
    views := [];
    for k := 0 to |turns|
      invariant m.Inv() && (k > 0 ==> m.seen == turns[k - 1].history)
      invariant k < |turns| ==> Continues(m.seen, turns[k].history, m.State())
      invariant |views| == k
      invariant forall i :: 0 <= i < k ==> KeepsPairs(turns[i].history, views[i])
      invariant forall i :: 0 <= i < k && NoAdjacentUsers(turns[i].history) ==> NoAdjacentUsers(views[i])
    {
      var t := turns[k];
      var view;
      ghost var l, log;
      view, l, log := m.Process(t.history, t.gauge, t.model);
      views := views + [view];
    }
  }
}
