/** Shortening the messages of a tail until the prompt fits, for any token estimator. */
module Truncation {
  import opened Wrappers
  import opened Messages
  import opened Layouts
  import opened TextCuts
  import Decimal

  /**
    What the outside says about size: the estimator; the token count reported for
    the last call and the estimate made for it (reported is 0 when there is none
    to go by); and how a length is scaled by a ratio of token counts.
   */
  datatype Gauge = Gauge(estimate: seq<Message> -> nat, reported: nat, sent: nat, scale: (nat, nat, nat) -> nat)
  {
    /** The prompt's tokens, shifted by what the last call really cost. */
    function Prompt(view: seq<Message>): nat {
      if reported > 0 then Max(0, reported + estimate(view) - sent) else estimate(view)
    }

    function Tokens(m: Message): nat {
      estimate([m])
    }
  }

  /** What was sent is known to the token, and any other view differs from it by the difference of their estimates. */
  lemma PromptIsAnchored(g: Gauge, sent: seq<Message>, view: seq<Message>)
    ensures g.reported == 0 ==> g.Prompt(view) == g.estimate(view)
    ensures g.reported > 0 && g.sent == g.estimate(sent) ==>
              var exact := g.reported + g.estimate(view) - g.estimate(sent);
              g.Prompt(sent) == g.reported && g.Prompt(view) == if exact < 0 then 0 else exact
  {
  }

  // ----- shortening one message -----

  function CutValue(text: string, target: nat, tokens: nat, g: Gauge): string {
    if |text| <= MIN_TRUNCATED_CHARS then text
    else TruncateText(text, Max(g.scale(|text|, target, tokens), MIN_TRUNCATED_CHARS))
  }

  function CutEntry(e: (string, Value), target: nat, tokens: nat, g: Gauge): (string, Value) {
    if e.1.Text? then (e.0, Text(CutValue(e.1.text, target, tokens, g))) else e
  }

  function CutCall(c: Call, target: nat, tokens: nat, g: Gauge): Call {
    match c.arguments
    case NotDict(_) => c
    case Dict(entries) =>
      c.(arguments := Dict(seq(|entries|, k requires 0 <= k < |entries| => CutEntry(entries[k], target, tokens, g))))
  }

  /** Scales the content and the long text arguments down towards the target. */
  function Shrink(m: Message, target: int, tokens: nat, g: Gauge): Message {
    var t := Max(target, 0);
    m.(content := CutValue(m.content, t, tokens, g),
       calls := seq(|m.calls|, k requires 0 <= k < |m.calls| => CutCall(m.calls[k], t, tokens, g)))
  }

  predicate HasLongText(c: Call) {
    c.arguments.Dict? && exists e :: e in c.arguments.entries && e.1.Text? && |e.1.text| > MIN_TRUNCATED_CHARS
  }

  predicate Shrinkable(m: Message) {
    |m.content| > MIN_TRUNCATED_CHARS || exists c :: c in m.calls && HasLongText(c)
  }

  lemma CutValueOnlyCuts(text: string, target: nat, tokens: nat, g: Gauge)
    ensures OnlyCut(text, CutValue(text, target, tokens, g))
  {
    if |text| > MIN_TRUNCATED_CHARS {
      TruncatedKeepsEnds(text, Max(g.scale(|text|, target, tokens), MIN_TRUNCATED_CHARS));
    }
  }

  lemma ShrinkKeepsShape(m: Message, target: int, tokens: nat, g: Gauge)
    ensures SameShape(m, Shrink(m, target, tokens, g))
    ensures !Shrinkable(m) ==> Shrink(m, target, tokens, g) == m
  {
    var t := Max(target, 0);
    CutValueOnlyCuts(m.content, t, tokens, g);
    var m' := Shrink(m, target, tokens, g);
    forall k | 0 <= k < |m.calls| ensures SameCall(m.calls[k], m'.calls[k]) {
      CutCallKeepsShape(m.calls[k], t, tokens, g);
    }
    if !Shrinkable(m) {
      forall k | 0 <= k < |m.calls| ensures m'.calls[k] == m.calls[k] {
        NoLongText(m.calls[k], t, tokens, g);
      }
      assert m'.calls == m.calls;
    }
  }

  lemma CutCallKeepsShape(c: Call, target: nat, tokens: nat, g: Gauge)
    ensures SameCall(c, CutCall(c, target, tokens, g))
  {
    hide CutValue, OnlyCut;
    if c.arguments.Dict? {
      forall k | 0 <= k < |c.arguments.entries|
        ensures SameEntry(c.arguments.entries[k], CutEntry(c.arguments.entries[k], target, tokens, g))
      {
        var e := c.arguments.entries[k];
        if e.1.Text? { CutValueOnlyCuts(e.1.text, target, tokens, g); }
      }
    }
  }

  lemma NoLongText(c: Call, target: nat, tokens: nat, g: Gauge)
    requires !HasLongText(c)
    ensures CutCall(c, target, tokens, g) == c
  {
    if c.arguments.Dict? {
      forall k | 0 <= k < |c.arguments.entries|
        ensures CutEntry(c.arguments.entries[k], target, tokens, g) == c.arguments.entries[k]
      {
        assert c.arguments.entries[k] in c.arguments.entries;
      }
      assert CutCall(c, target, tokens, g).arguments.entries == c.arguments.entries;
    }
  }

  // ----- the whole tail -----

  function Cap(budget: nat): nat {
    Max(budget / 8, 1)
  }

  function CapResult(m: Message, cap: nat, g: Gauge): Message {
    if m.role.Tool? && g.Tokens(m) > cap then Shrink(m, cap, g.Tokens(m), g) else m
  }

  function CapResults(tail: seq<Message>, cap: nat, g: Gauge): seq<Message> {
    seq(|tail|, i requires 0 <= i < |tail| => CapResult(tail[i], cap, g))
  }

  /** Of the first n messages that are not stuck and can be shrunk, the largest; of equals the latest. */
  function Largest(tail: seq<Message>, n: nat, stuck: set<nat>, g: Gauge): (r: Option<nat>)
    requires n <= |tail|
    ensures r.Some? ==> r.value < n
  {
    if n == 0 then None
    else
      var best := Largest(tail, n - 1, stuck, g);
      if n - 1 in stuck || !Shrinkable(tail[n - 1]) then best
      else if best.Some? && g.Tokens(tail[best.value]) > g.Tokens(tail[n - 1]) then best
      else Some(n - 1)
  }

  ghost predicate Candidate(tail: seq<Message>, stuck: set<nat>, i: nat) {
    i < |tail| && i !in stuck && Shrinkable(tail[i])
  }

  lemma {:induction false} LargestIsLargest(tail: seq<Message>, n: nat, stuck: set<nat>, g: Gauge)
    requires n <= |tail|
    ensures match Largest(tail, n, stuck, g)
            case None => forall i: nat {:trigger Candidate(tail, stuck, i)} :: i < n ==> !Candidate(tail, stuck, i)
            case Some(b) =>
              && Candidate(tail, stuck, b)
              && forall i: nat {:trigger Candidate(tail, stuck, i)} :: i < n && Candidate(tail, stuck, i) ==>
                   (g.Tokens(tail[i]) < g.Tokens(tail[b]) || (g.Tokens(tail[i]) == g.Tokens(tail[b]) && i <= b))
  {
    if n > 0 {
      LargestIsLargest(tail, n - 1, stuck, g);
    }
  }

  function TotalTokens(tail: seq<Message>, g: Gauge): nat {
    if tail == [] then 0 else TotalTokens(tail[..|tail| - 1], g) + g.Tokens(tail[|tail| - 1])
  }

  lemma {:induction false} TotalAfterUpdate(tail: seq<Message>, i: nat, m: Message, g: Gauge)
    requires i < |tail|
    ensures TotalTokens(tail[i := m], g) == TotalTokens(tail, g) - g.Tokens(tail[i]) + g.Tokens(m)
  {
    var k := |tail| - 1;
    if i == k {
      assert tail[i := m][..k] == tail[..k];
    } else {
      TotalAfterUpdate(tail[..k], i, m, g);
      assert tail[i := m][..k] == tail[..k][i := m];
    }
  }

  ghost predicate Within(stuck: set<nat>, n: nat) {
    forall i :: i in stuck ==> i < n
  }

  lemma {:induction false} WithinSize(stuck: set<nat>, n: nat)
    requires Within(stuck, n)
    ensures |stuck| <= n
  {
    if n > 0 {
      WithinSize(stuck - {n - 1}, n - 1);
    }
  }

  function Overflow(l: Layout, tail: seq<Message>, budget: nat, g: Gauge): int {
    g.Prompt(View(l.(tail := tail))) - budget
  }

  /**
    One round: over budget, the largest message that is not stuck is shrunk by the
    excess, and one that does not get smaller that way is stuck. Nothing happens
    when the prompt fits or every message is stuck or short.
   */
  ghost function Round(l: Layout, tail: seq<Message>, stuck: set<nat>, budget: nat, g: Gauge): (seq<Message>,
                       set<nat>) {
    var excess := Overflow(l, tail, budget, g);
    var best := Largest(tail, |tail|, stuck, g);
    if excess <= 0 || best.None? then (tail, stuck)
    else
      var i := best.value;
      var tokens := g.Tokens(tail[i]);
      var shrunk := Shrink(tail[i], tokens - excess, tokens, g);
      if g.Tokens(shrunk) >= tokens then (tail, stuck + {i}) else (tail[i := shrunk], stuck)
  }

  /**
    The tail after shortening, round by round. It ends whatever the estimator says:
    each round lowers the sum of the messages' estimates, or leaves it and adds a
    stuck one.
   */
  ghost function Shortened(l: Layout, tail: seq<Message>, stuck: set<nat>, budget: nat, g: Gauge): seq<Message>
    requires Within(stuck, |tail|)
    decreases TotalTokens(tail, g), |tail| - |stuck|
  {
    hide Overflow, Largest, TotalTokens, Round;
    if Overflow(l, tail, budget, g) <= 0 || Largest(tail, |tail|, stuck, g).None? then tail
    else
      RoundDescends(l, tail, stuck, budget, g);
      var next := Round(l, tail, stuck, budget, g);
      Shortened(l, next.0, next.1, budget, g)
  }

  lemma RoundDescends(l: Layout, tail: seq<Message>, stuck: set<nat>, budget: nat, g: Gauge)
    requires Within(stuck, |tail|)
    requires Overflow(l, tail, budget, g) > 0 && Largest(tail, |tail|, stuck, g).Some?
    ensures var next := Round(l, tail, stuck, budget, g);
            && |stuck| <= |tail| && Within(next.1, |next.0|)
            && (TotalTokens(next.0, g) < TotalTokens(tail, g)
                || (next.0 == tail && |next.0| - |next.1| < |tail| - |stuck|))
  {
    hide Overflow, Largest, Shrink, TotalTokens;
    var i := Largest(tail, |tail|, stuck, g).value;
    var tokens := g.Tokens(tail[i]);
    Progress(tail, stuck, i, Shrink(tail[i], tokens - Overflow(l, tail, budget, g), tokens, g), g);
  }

  lemma Progress(tail: seq<Message>, stuck: set<nat>, i: nat, shrunk: Message, g: Gauge)
    requires Within(stuck, |tail|) && Largest(tail, |tail|, stuck, g) == Some(i)
    ensures i !in stuck && |stuck + {i}| == |stuck| + 1 <= |tail|
    ensures TotalTokens(tail[i := shrunk], g) == TotalTokens(tail, g) - g.Tokens(tail[i]) + g.Tokens(shrunk)
  {
    LargestIsLargest(tail, |tail|, stuck, g);
    assert Candidate(tail, stuck, i);
    WithinSize(stuck + {i}, |tail|);
    TotalAfterUpdate(tail, i, shrunk, g);
  }

  /** Tail and stuck messages after k rounds. */
  ghost function AfterRounds(l: Layout, start: seq<Message>, k: nat, budget: nat, g: Gauge): (seq<Message>, set<nat>) {
    if k == 0 then (start, {})
    else
      var last := AfterRounds(l, start, k - 1, budget, g);
      Round(l, last.0, last.1, budget, g)
  }

  /**
    After k rounds message i was as it is in r, the prompt was over budget, and
    shrinking just this message, by just the excess, did not lower its estimate.
   */
  ghost predicate TriedAt(l: Layout, start: seq<Message>, k: nat, i: nat, r: seq<Message>, budget: nat, g: Gauge) {
    var (tail, stuck) := AfterRounds(l, start, k, budget, g);
    var excess := Overflow(l, tail, budget, g);
    && excess > 0 && Largest(tail, |tail|, stuck, g) == Some(i)
    && i < |r| && tail[i] == r[i]
    && g.Tokens(Shrink(r[i], g.Tokens(r[i]) - excess, g.Tokens(r[i]), g)) >= g.Tokens(r[i])
  }

  ghost predicate Tried(l: Layout, start: seq<Message>, i: nat, r: seq<Message>, budget: nat, g: Gauge) {
    exists k: nat :: TriedAt(l, start, k, i, r, budget, g)
  }

  ghost predicate AllTried(l: Layout, start: seq<Message>, stuck: set<nat>, r: seq<Message>, budget: nat, g: Gauge) {
    forall i: nat {:trigger Tried(l, start, i, r, budget, g)} :: i in stuck ==> Tried(l, start, i, r, budget, g)
  }

  /** Every message that is still long was tried in vain, as it is now. */
  ghost predicate Exhausted(l: Layout, start: seq<Message>, r: seq<Message>, budget: nat, g: Gauge) {
    forall i: nat {:trigger Tried(l, start, i, r, budget, g)} ::
      i < |r| && Shrinkable(r[i]) ==> Tried(l, start, i, r, budget, g)
  }

  lemma CutOne(tail: seq<Message>, i: nat, target: int, tokens: nat, g: Gauge)
    requires i < |tail|
    ensures SameShapes(tail, tail[i := Shrink(tail[i], target, tokens, g)])
  {
    ShrinkKeepsShape(tail[i], target, tokens, g);
    hide SameShape, Shrink;
    var tail' := tail[i := Shrink(tail[i], target, tokens, g)];
    forall k | 0 <= k < |tail| ensures SameShape(tail[k], tail'[k]) {
      SameShapeReflexive(tail[k]);
    }
  }

  /**
    What the rounds that are left make of a tail: every message in shape, and a
    prompt that fits or nothing left that gives way.
   */
  lemma {:induction false} ShortenedResult(l: Layout, start: seq<Message>, k: nat, tail: seq<Message>, stuck: set<nat>,
                                           budget: nat, g: Gauge)
    requires Within(stuck, |tail|) && AfterRounds(l, start, k, budget, g) == (tail, stuck)
    requires AllTried(l, start, stuck, tail, budget, g)
    ensures var r := Shortened(l, tail, stuck, budget, g);
            && SameShapes(tail, r)
            && TotalTokens(r, g) <= TotalTokens(tail, g)
            && (Overflow(l, r, budget, g) <= 0 || Exhausted(l, start, r, budget, g))
    decreases TotalTokens(tail, g), |tail| - |stuck|
  {
    hide *;
    var excess := Overflow(l, tail, budget, g);
    var best := Largest(tail, |tail|, stuck, g);
    if excess <= 0 || best.None? {
      ShortenedStops(l, tail, stuck, budget, g);
      SameShapesReflexive(tail);
      if best.None? { NothingLeft(l, start, stuck, tail, budget, g); }
    } else {
      var i := best.value;
      var tokens := g.Tokens(tail[i]);
      var shrunk := Shrink(tail[i], tokens - excess, tokens, g);
      LargestIsLargest(tail, |tail|, stuck, g);
      CandidateIs(tail, stuck, i);
      Progress(tail, stuck, i, shrunk, g);
      OneRound(l, start, k, tail, stuck, i, budget, g);
      if g.Tokens(shrunk) >= tokens {
        OneMoreStuck(l, start, k, tail, stuck, i, budget, g);
        ShortenedResult(l, start, k + 1, tail, stuck + {i}, budget, g);
      } else {
        OthersStuck(l, start, tail, stuck, i, shrunk, budget, g);
        CutOne(tail, i, tokens - excess, tokens, g);
        ShortenedResult(l, start, k + 1, tail[i := shrunk], stuck, budget, g);
        SameShapesTransitive(tail, tail[i := shrunk], Shortened(l, tail[i := shrunk], stuck, budget, g));
      }
    }
  }

  lemma CandidateIs(tail: seq<Message>, stuck: set<nat>, i: nat)
    requires Candidate(tail, stuck, i)
    ensures i < |tail| && i !in stuck && Shrinkable(tail[i])
  {
  }

  lemma ShortenedStops(l: Layout, tail: seq<Message>, stuck: set<nat>, budget: nat, g: Gauge)
    requires Within(stuck, |tail|) && (Overflow(l, tail, budget, g) <= 0 || Largest(tail, |tail|, stuck, g).None?)
    ensures Shortened(l, tail, stuck, budget, g) == tail
  {
    hide Overflow, Largest;
  }

  /** A round that is not the last one, and the rounds after it. */
  lemma OneRound(l: Layout, start: seq<Message>, k: nat, tail: seq<Message>, stuck: set<nat>, i: nat, budget: nat,
                 g: Gauge)
    requires Within(stuck, |tail|) && AfterRounds(l, start, k, budget, g) == (tail, stuck)
    requires Overflow(l, tail, budget, g) > 0 && Largest(tail, |tail|, stuck, g) == Some(i)
    ensures Within(stuck + {i}, |tail|)
    ensures var tokens := g.Tokens(tail[i]);
            var shrunk := Shrink(tail[i], tokens - Overflow(l, tail, budget, g), tokens, g);
            var next := if g.Tokens(shrunk) >= tokens then (tail, stuck + {i}) else (tail[i := shrunk], stuck);
            && AfterRounds(l, start, k + 1, budget, g) == next
            && Within(next.1, |next.0|)
            && Shortened(l, tail, stuck, budget, g) == Shortened(l, next.0, next.1, budget, g)
  {
    hide Overflow, Largest, Shrink;
  }

  lemma OneMoreStuck(l: Layout, start: seq<Message>, k: nat, tail: seq<Message>, stuck: set<nat>, i: nat, budget: nat,
                     g: Gauge)
    requires AfterRounds(l, start, k, budget, g) == (tail, stuck) && AllTried(l, start, stuck, tail, budget, g)
    requires Overflow(l, tail, budget, g) > 0 && Largest(tail, |tail|, stuck, g) == Some(i)
    requires var tokens := g.Tokens(tail[i]);
             g.Tokens(Shrink(tail[i], tokens - Overflow(l, tail, budget, g), tokens, g)) >= tokens
    ensures AllTried(l, start, stuck + {i}, tail, budget, g)
  {
    hide AfterRounds, Overflow, Largest, Shrink;
    assert TriedAt(l, start, k, i, tail, budget, g);
  }

  lemma OthersStuck(l: Layout, start: seq<Message>, tail: seq<Message>, stuck: set<nat>, i: nat, m: Message,
                    budget: nat, g: Gauge)
    requires AllTried(l, start, stuck, tail, budget, g) && i < |tail| && i !in stuck
    ensures AllTried(l, start, stuck, tail[i := m], budget, g)
  {
    hide AfterRounds, Overflow, Largest, Shrink;
    var tail' := tail[i := m];
    forall j: nat | j in stuck ensures Tried(l, start, j, tail', budget, g) {
      assert Tried(l, start, j, tail, budget, g);
      var k: nat :| TriedAt(l, start, k, j, tail, budget, g);
      assert TriedAt(l, start, k, j, tail', budget, g);
    }
  }

  lemma NothingLeft(l: Layout, start: seq<Message>, stuck: set<nat>, tail: seq<Message>, budget: nat, g: Gauge)
    requires AllTried(l, start, stuck, tail, budget, g) && Largest(tail, |tail|, stuck, g).None?
    ensures Exhausted(l, start, tail, budget, g)
  {
    LargestIsLargest(tail, |tail|, stuck, g);
    hide Tried, Shrinkable, Largest;
    forall i: nat | i < |tail| && Shrinkable(tail[i]) ensures Tried(l, start, i, tail, budget, g) {
      assert !Candidate(tail, stuck, i);
    }
  }

  /** The tail a layout is left with: oversized tool results are capped first, then the largest messages go. */
  ghost function Fitted(l: Layout, budget: nat, g: Gauge): seq<Message> {
    Shortened(l, CapResults(l.tail, Cap(budget), g), {}, budget, g)
  }

  /** In the rounds from the capped tail on, every message that is still long was tried in vain. */
  ghost predicate NothingGives(l: Layout, r: seq<Message>, budget: nat, g: Gauge) {
    Exhausted(l, CapResults(l.tail, Cap(budget), g), r, budget, g)
  }

  lemma CapResultsCuts(tail: seq<Message>, cap: nat, g: Gauge)
    ensures SameShapes(tail, CapResults(tail, cap, g))
  {
    hide SameShape, Shrink;
    forall i | 0 <= i < |tail| ensures SameShape(tail[i], CapResult(tail[i], cap, g)) {
      ShrinkKeepsShape(tail[i], cap, g.Tokens(tail[i]), g);
      SameShapeReflexive(tail[i]);
    }
  }

  /**
    Shortening a layout ends for every estimator, keeps each tail message's role,
    ids, call names and argument keys, touches no short text and lengthens none;
    and the prompt then fits the budget, or each message that is still long was
    shrunk by the excess of its round and did not get smaller.
   */
  lemma FittedResult(l: Layout, budget: nat, g: Gauge)
    ensures var r := Fitted(l, budget, g);
            && SameShapes(l.tail, r)
            && (g.Prompt(View(l.(tail := r))) <= budget || NothingGives(l, r, budget, g))
  {
    hide SameShapes, CapResults, Shortened, View, Exhausted, Tried, Round;
    var capped := CapResults(l.tail, Cap(budget), g);
    CapResultsCuts(l.tail, Cap(budget), g);
    ShortenedResult(l, capped, 0, capped, {}, budget, g);
    SameShapesTransitive(l.tail, capped, Shortened(l, capped, {}, budget, g));
  }

  // ----- what the loop does, in terms of texts and estimates -----

  /** A long text is cut to its share of the target, and to no less than the least length. */
  ghost predicate IsCutText(text: string, text': string, target: int, tokens: nat, g: Gauge) {
    if |text| <= 200 then text' == text
    else
      var share := g.scale(|text|, if target < 0 then 0 else target, tokens);
      IsCutTo(text, if share < 200 then 200 else share, text')
  }

  ghost predicate IsCutEntry(e: (string, Value), e': (string, Value), target: int, tokens: nat, g: Gauge) {
    && e'.0 == e.0
    && match e.1
       case NotText(_) => e'.1 == e.1
       case Text(text) => e'.1.Text? && IsCutText(text, e'.1.text, target, tokens, g)
  }

  ghost predicate IsCutCall(c: Call, c': Call, target: int, tokens: nat, g: Gauge) {
    && c'.id == c.id && c'.name == c.name
    && match c.arguments
       case NotDict(_) => c'.arguments == c.arguments
       case Dict(entries) =>
         && c'.arguments.Dict? && |c'.arguments.entries| == |entries|
         && forall k :: 0 <= k < |entries| ==> IsCutEntry(entries[k], c'.arguments.entries[k], target, tokens, g)
  }

  /** The content and the text arguments are cut to their share of the target, and nothing else is changed. */
  ghost predicate IsShrunk(m: Message, m': Message, target: int, tokens: nat, g: Gauge) {
    && m' == m.(content := m'.content, calls := m'.calls)
    && IsCutText(m.content, m'.content, target, tokens, g)
    && |m'.calls| == |m.calls|
    && forall k :: 0 <= k < |m.calls| ==> IsCutCall(m.calls[k], m'.calls[k], target, tokens, g)
  }

  lemma CutValueIs(text: string, target: int, tokens: nat, g: Gauge)
    ensures IsCutText(text, CutValue(text, Max(target, 0), tokens, g), target, tokens, g)
  {
    hide IsCutTo, TruncateText;
    if |text| > 200 {
      TruncatedIsCut(text, Max(g.scale(|text|, Max(target, 0), tokens), MIN_TRUNCATED_CHARS));
    }
  }

  lemma CutCallIs(c: Call, target: int, tokens: nat, g: Gauge)
    ensures IsCutCall(c, CutCall(c, Max(target, 0), tokens, g), target, tokens, g)
  {
    hide IsCutText, CutValue;
    if c.arguments.Dict? {
      forall k | 0 <= k < |c.arguments.entries|
        ensures IsCutEntry(c.arguments.entries[k], CutEntry(c.arguments.entries[k], Max(target, 0), tokens, g),
                           target, tokens, g)
      {
        var e := c.arguments.entries[k];
        if e.1.Text? { CutValueIs(e.1.text, target, tokens, g); }
      }
    }
  }

  lemma ShrinkIs(m: Message, target: int, tokens: nat, g: Gauge)
    ensures IsShrunk(m, Shrink(m, target, tokens, g), target, tokens, g)
  {
    hide IsCutText, IsCutCall, CutValue, CutCall;
    CutValueIs(m.content, target, tokens, g);
    forall k | 0 <= k < |m.calls|
      ensures IsCutCall(m.calls[k], Shrink(m, target, tokens, g).calls[k], target, tokens, g)
    {
      CutCallIs(m.calls[k], target, tokens, g);
    }
  }

  /** Only the tool results over the cap are shrunk, each to the cap. */
  ghost predicate IsCapped(tail: seq<Message>, mid: seq<Message>, cap: nat, g: Gauge) {
    && |mid| == |tail|
    && forall i {:trigger mid[i]} :: 0 <= i < |tail| ==>
         if tail[i].role == Tool && g.estimate([tail[i]]) > cap
         then IsShrunk(tail[i], mid[i], cap, g.estimate([tail[i]]), g)
         else mid[i] == tail[i]
  }

  ghost predicate IsLong(m: Message) {
    || |m.content| > 200
    || exists c, e :: c in m.calls && c.arguments.Dict? && e in c.arguments.entries && e.1.Text? && |e.1.text| > 200
  }

  /** The largest long message that is not stuck, of equals the latest. */
  ghost predicate IsPick(tail: seq<Message>, stuck: set<nat>, i: nat, g: Gauge) {
    && i < |tail| && i !in stuck && IsLong(tail[i])
    && forall j: nat {:trigger tail[j]} :: j < |tail| && j !in stuck && IsLong(tail[j]) ==>
         g.estimate([tail[j]]) < g.estimate([tail[i]]) || (g.estimate([tail[j]]) == g.estimate([tail[i]]) && j <= i)
  }

  /** A round over budget: the pick is shrunk by the excess, or is stuck if that does not lower its estimate. */
  ghost predicate IsRoundAt(l: Layout, before: (seq<Message>, set<nat>), after: (seq<Message>, set<nat>), budget: nat,
                            g: Gauge, i: nat, m: Message) {
    var (tail, stuck) := before;
    var excess := g.Prompt(View(l.(tail := tail))) - budget;
    && excess > 0 && IsPick(tail, stuck, i, g)
    && var tokens := g.estimate([tail[i]]);
       && IsShrunk(tail[i], m, tokens - excess, tokens, g)
       && after == if g.estimate([m]) >= tokens then (tail, stuck + {i}) else (tail[i := m], stuck)
  }

  ghost predicate IsRound(l: Layout, before: (seq<Message>, set<nat>), after: (seq<Message>, set<nat>), budget: nat,
                          g: Gauge) {
    exists i, m :: IsRoundAt(l, before, after, budget, g, i, m)
  }

  ghost predicate AreRounds(l: Layout, states: seq<(seq<Message>, set<nat>)>, budget: nat, g: Gauge) {
    states != [] && forall k, j :: 0 <= k < j < |states| && j == k + 1 ==> IsRound(l, states[k], states[j], budget, g)
  }

  /** Nothing more is done once the prompt fits or every long message is stuck. */
  ghost predicate IsEnd(l: Layout, state: (seq<Message>, set<nat>), budget: nat, g: Gauge) {
    || g.Prompt(View(l.(tail := state.0))) <= budget
    || forall i :: 0 <= i < |state.0| && IsLong(state.0[i]) ==> i in state.1
  }

  /** Tool results over an eighth of the budget are capped at it; then come the rounds, as long as they help. */
  ghost predicate IsFitted(l: Layout, states: seq<(seq<Message>, set<nat>)>, r: seq<Message>, budget: nat, g: Gauge) {
    && AreRounds(l, states, budget, g)
    && states[0].1 == {} && IsCapped(l.tail, states[0].0, if budget < 8 then 1 else budget / 8, g)
    && IsEnd(l, states[|states| - 1], budget, g) && r == states[|states| - 1].0
  }

  lemma LongIsShrinkable(m: Message)
    ensures IsLong(m) <==> Shrinkable(m)
  {
    if Shrinkable(m) && |m.content| <= 200 {
      var c :| c in m.calls && HasLongText(c);
      var e :| e in c.arguments.entries && e.1.Text? && |e.1.text| > MIN_TRUNCATED_CHARS;
    }
    if IsLong(m) && |m.content| <= 200 {
      var c, e :| c in m.calls && c.arguments.Dict? && e in c.arguments.entries && e.1.Text? && |e.1.text| > 200;
      assert HasLongText(c);
    }
  }

  lemma LargestIsPick(tail: seq<Message>, stuck: set<nat>, g: Gauge)
    ensures match Largest(tail, |tail|, stuck, g)
            case None => forall i :: 0 <= i < |tail| && IsLong(tail[i]) ==> i in stuck
            case Some(i) => IsPick(tail, stuck, i, g)
  {
    LargestIsLargest(tail, |tail|, stuck, g);
    hide IsLong, Shrinkable, Largest;
    forall i | 0 <= i < |tail| ensures IsLong(tail[i]) <==> Shrinkable(tail[i]) {
      LongIsShrinkable(tail[i]);
    }
    forall i: nat | i < |tail| && i !in stuck && IsLong(tail[i]) ensures Candidate(tail, stuck, i) {
    }
  }

  lemma RoundIs(l: Layout, tail: seq<Message>, stuck: set<nat>, budget: nat, g: Gauge)
    requires Overflow(l, tail, budget, g) > 0 && Largest(tail, |tail|, stuck, g).Some?
    ensures IsRound(l, (tail, stuck), Round(l, tail, stuck, budget, g), budget, g)
  {
    LargestIsPick(tail, stuck, g);
    hide View, Largest, IsPick, IsShrunk, Shrink;
    var i := Largest(tail, |tail|, stuck, g).value;
    var tokens := g.Tokens(tail[i]);
    var m := Shrink(tail[i], tokens - Overflow(l, tail, budget, g), tokens, g);
    ShrinkIs(tail[i], tokens - Overflow(l, tail, budget, g), tokens, g);
    assert IsRoundAt(l, (tail, stuck), Round(l, tail, stuck, budget, g), budget, g, i, m);
  }

  /** The rounds from a tail on. */
  lemma {:induction false} ShortenedRounds(l: Layout, tail: seq<Message>, stuck: set<nat>, budget: nat, g: Gauge)
    returns (states: seq<(seq<Message>, set<nat>)>)
    requires Within(stuck, |tail|)
    ensures AreRounds(l, states, budget, g) && states[0] == (tail, stuck)
    ensures IsEnd(l, states[|states| - 1], budget, g)
    ensures states[|states| - 1].0 == Shortened(l, tail, stuck, budget, g)
    decreases TotalTokens(tail, g), |tail| - |stuck|
  {
    hide Overflow, Largest, Round, TotalTokens, IsRound, IsEnd, Within;
    if Overflow(l, tail, budget, g) <= 0 || Largest(tail, |tail|, stuck, g).None? {
      states := [(tail, stuck)];
      IsAtEnd(l, tail, stuck, budget, g);
    } else {
      RoundDescends(l, tail, stuck, budget, g);
      var next := Round(l, tail, stuck, budget, g);
      var rest := ShortenedRounds(l, next.0, next.1, budget, g);
      RoundIs(l, tail, stuck, budget, g);
      states := [(tail, stuck)] + rest;
    }
  }

  lemma IsAtEnd(l: Layout, tail: seq<Message>, stuck: set<nat>, budget: nat, g: Gauge)
    requires Overflow(l, tail, budget, g) <= 0 || Largest(tail, |tail|, stuck, g).None?
    ensures IsEnd(l, (tail, stuck), budget, g)
  {
    LargestIsPick(tail, stuck, g);
    hide View, Largest, IsPick, IsLong;
  }

  lemma CapResultsIs(tail: seq<Message>, cap: nat, g: Gauge)
    ensures IsCapped(tail, CapResults(tail, cap, g), cap, g)
  {
    hide Shrink, IsShrunk;
    forall i | 0 <= i < |tail| && tail[i].role == Tool && g.estimate([tail[i]]) > cap
      ensures IsShrunk(tail[i], CapResults(tail, cap, g)[i], cap, g.estimate([tail[i]]), g)
    {
      ShrinkIs(tail[i], cap, g.estimate([tail[i]]), g);
    }
  }

  /** The fitted tail is what these rounds lead to. */
  lemma FittedIs(l: Layout, budget: nat, g: Gauge) returns (states: seq<(seq<Message>, set<nat>)>)
    ensures IsFitted(l, states, Fitted(l, budget, g), budget, g)
  {
    var capped := CapResults(l.tail, Cap(budget), g);
    CapResultsIs(l.tail, Cap(budget), g);
    hide IsCapped, CapResults, AreRounds, IsEnd, Shortened;
    states := ShortenedRounds(l, capped, {}, budget, g);
    RoundsExist(l, states, budget, g);
  }

  lemma RoundsExist(l: Layout, states: seq<(seq<Message>, set<nat>)>, budget: nat, g: Gauge)
    requires AreRounds(l, states, budget, g)
    ensures states != []
  {
  }

  // ----- what follows for every fitted tail -----

  lemma CutTextIsNoLonger(text: string, text': string, target: int, tokens: nat, g: Gauge)
    requires IsCutText(text, text', target, tokens, g)
    ensures |text'| <= |text|
    ensures |text| > 200 ==>
              var share := g.scale(|text|, if target < 0 then 0 else target, tokens);
              |text'| <= Max(Max(share, 200), 59 + |Decimal.Numeral(|text|)|)
  {
    if |text| > 200 {
      var share := g.scale(|text|, if target < 0 then 0 else target, tokens);
      var limit := if share < 200 then 200 else share;
      CutIsTruncated(text, limit, text');
      NeverLonger(text, limit);
      TruncatedLength(text, limit);
      NoteIs(|text|);
      hide TruncateText, Note, IsCutTo;
    }
  }

  /** A round shrinks one message at most. */
  lemma RoundShrinks(l: Layout, before: (seq<Message>, set<nat>), after: (seq<Message>, set<nat>), budget: nat,
                     g: Gauge, i: nat)
    returns (target: int, tokens: nat)
    requires IsRound(l, before, after, budget, g) && i < |before.0|
    ensures |after.0| == |before.0|
    ensures after.0[i] == before.0[i] || IsShrunk(before.0[i], after.0[i], target, tokens, g)
  {
    hide IsShrunk, View, IsPick;
    var k: nat, m :| IsRoundAt(l, before, after, budget, g, k, m);
    IsPickInside(before.0, before.1, k, g);
    tokens := g.estimate([before.0[k]]);
    target := tokens - (g.Prompt(View(l.(tail := before.0))) - budget);
  }

  lemma IsPickInside(tail: seq<Message>, stuck: set<nat>, i: nat, g: Gauge)
    requires IsPick(tail, stuck, i, g)
    ensures i < |tail|
  {
  }

  lemma RoundIsNoLonger(l: Layout, before: (seq<Message>, set<nat>), after: (seq<Message>, set<nat>), budget: nat,
                        g: Gauge, i: nat)
    requires IsRound(l, before, after, budget, g) && i < |before.0|
    ensures |after.0| == |before.0| && |after.0[i].content| <= |before.0[i].content|
  {
    hide IsRound;
    var target, tokens := RoundShrinks(l, before, after, budget, g, i);
    if after.0[i] != before.0[i] { ShrunkIsNoLonger(before.0[i], after.0[i], target, tokens, g); }
  }

  lemma ShrunkIsNoLonger(m: Message, m': Message, target: int, tokens: nat, g: Gauge)
    requires IsShrunk(m, m', target, tokens, g)
    ensures |m'.content| <= |m.content|
    ensures |m.content| > 200 ==>
              var share := g.scale(|m.content|, if target < 0 then 0 else target, tokens);
              |m'.content| <= Max(Max(share, 200), 59 + |Decimal.Numeral(|m.content|)|)
  {
    hide IsCutCall, IsCutText;
    CutTextIsNoLonger(m.content, m'.content, target, tokens, g);
  }

  lemma {:induction false} RoundsAreNoLonger(l: Layout, states: seq<(seq<Message>, set<nat>)>, budget: nat, g: Gauge,
                                             k: nat, i: nat)
    requires AreRounds(l, states, budget, g) && k < |states| && i < |states[0].0|
    ensures |states[k].0| == |states[0].0| && |states[k].0[i].content| <= |states[0].0[i].content|
    decreases k
  {
    if k > 0 {
      RoundsAreNoLonger(l, states, budget, g, k - 1, i);
      assert IsRound(l, states[k - 1], states[k], budget, g);
      RoundIsNoLonger(l, states[k - 1], states[k], budget, g, i);
    }
  }

  /** However it goes on, a tool result over the cap does not keep more than its share of the cap. */
  lemma OversizedResultsAreCapped(l: Layout, states: seq<(seq<Message>, set<nat>)>, r: seq<Message>, budget: nat,
                                  g: Gauge, i: nat)
    requires IsFitted(l, states, r, budget, g) && i < |l.tail| && l.tail[i].role == Tool
    requires var cap := if budget < 8 then 1 else budget / 8; g.estimate([l.tail[i]]) > cap
    requires |l.tail[i].content| > 200
    ensures var cap, m := if budget < 8 then 1 else budget / 8, l.tail[i];
            var share := g.scale(|m.content|, cap, g.estimate([m]));
            && i < |r|
            && |r[i].content| <= Max(Max(share, 200), 59 + |Decimal.Numeral(|m.content|)|)
  {
    var cap, m := if budget < 8 then 1 else budget / 8, l.tail[i];
    hide IsShrunk, AreRounds, IsEnd;
    RoundsExist(l, states, budget, g);
    var mid := states[0].0;
    ShrunkIsNoLonger(m, mid[i], cap, g.estimate([m]), g);
    RoundsAreNoLonger(l, states, budget, g, |states| - 1, i);
  }

  /** Any other message is touched only if capping those results was not enough. */
  lemma OthersOnlyWhenOver(l: Layout, states: seq<(seq<Message>, set<nat>)>, r: seq<Message>, budget: nat, g: Gauge,
                           i: nat)
    requires IsFitted(l, states, r, budget, g) && i < |l.tail| && i < |r| && r[i] != l.tail[i]
    requires var cap := if budget < 8 then 1 else budget / 8;
             l.tail[i].role != Tool || g.estimate([l.tail[i]]) <= cap
    ensures g.Prompt(View(l.(tail := states[0].0))) > budget
  {
    hide IsShrunk, IsEnd, View, IsPick;
    assert states[0].0[i] == l.tail[i];
    assert |states| > 1;
    assert IsRound(l, states[0], states[1], budget, g);
  }

  lemma {:induction false} StaysAcross(states: seq<(seq<Message>, set<nat>)>, i: nat, a: nat, b: nat)
    requires a <= b < |states| && forall j :: 0 <= j < |states| ==> i < |states[j].0|
    requires forall j, k :: a <= j < k <= b && k == j + 1 ==> states[k].0[i] == states[j].0[i]
    ensures states[b].0[i] == states[a].0[i]
    decreases b
  {
    if a < b { StaysAcross(states, i, a, b - 1); }
  }

  /** A message that changes in one round only loses no more than its share of that round's excess. */
  lemma ShrunkOnce(l: Layout, states: seq<(seq<Message>, set<nat>)>, r: seq<Message>, budget: nat, g: Gauge,
                   i: nat, k: nat)
    requires IsFitted(l, states, r, budget, g) && k + 1 < |states|
    requires forall j :: 0 <= j < |states| ==> i < |states[j].0|
    requires forall j, n :: 0 <= j < n < |states| && n == j + 1 && j != k ==> states[n].0[i] == states[j].0[i]
    requires r[i] != states[0].0[i]
    ensures var m, excess := states[0].0[i], g.Prompt(View(l.(tail := states[k].0))) - budget;
            excess > 0 && IsShrunk(m, r[i], g.estimate([m]) - excess, g.estimate([m]), g)
  {
    hide IsShrunk, IsEnd, View, IsPick, IsCapped;
    StaysAcross(states, i, 0, k);
    StaysAcross(states, i, k + 1, |states| - 1);
    assert IsRound(l, states[k], states[k + 1], budget, g);
    var n, m :| IsRoundAt(l, states[k], states[k + 1], budget, g, n, m);
  }

  method CapToolResults(original: seq<Message>, cap: nat, g: Gauge) returns (tail: seq<Message>)
    ensures tail == CapResults(original, cap, g)
  {
    hide Shrink;
    tail := original;
    for i := 0 to |tail|
      invariant |tail| == |original|
      invariant forall k :: 0 <= k < i ==> tail[k] == CapResult(original[k], cap, g)
      invariant forall k :: i <= k < |tail| ==> tail[k] == original[k]
    {
      var m := tail[i];
      if m.role.Tool? {
        var tokens := g.Tokens(m);
        if tokens > cap {
          tail := tail[i := Shrink(m, cap, tokens, g)];
        }
      }
    }
  }

  /** The loop itself. */
  method Truncate(l: Layout, budget: nat, g: Gauge) returns (out: Layout)
    ensures out == l.(tail := Fitted(l, budget, g))
    ensures exists states :: IsFitted(l, states, out.tail, budget, g)
  {
    hide Overflow, Shrink, Largest, TotalTokens, Shrinkable, View, CapResults, IsFitted;
    var tail := CapToolResults(l.tail, Cap(budget), g);
    var overflow := Overflow(l, tail, budget, g);
    var stuck: set<nat> := {};
    while overflow > 0
      invariant overflow == Overflow(l, tail, budget, g)
      invariant Within(stuck, |tail|)
      invariant Shortened(l, tail, stuck, budget, g) == Fitted(l, budget, g)
      decreases TotalTokens(tail, g), |tail| - |stuck|
    {
      var best := Largest(tail, |tail|, stuck, g);
      if best.None? { break; }
      var i := best.value;
      var tokens := g.Tokens(tail[i]);
      var shrunk := Shrink(tail[i], tokens - overflow, tokens, g);
      Progress(tail, stuck, i, shrunk, g);
      if g.Tokens(shrunk) >= tokens {
        stuck := stuck + {i};
        continue;
      }
      tail := tail[i := shrunk];
      overflow := Overflow(l, tail, budget, g);
    }
    out := l.(tail := tail);
    ghost var states := FittedIs(l, budget, g);
  }
}
