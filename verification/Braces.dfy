/** Expanding the {a,b} groups of a glob, up to a cap. */
module Braces {
  import opened Texts

  const MAX_BRACE_EXPANSIONS: nat := 64

  // ----- depth -----

  function Change(c: char): int {
    if c == '{' then 1 else if c == '}' then -1 else 0
  }

  /** How many more braces open than close. */
  function Depth(s: string): int {
    if s == [] then 0 else Depth(s[..|s| - 1]) + Change(s[|s| - 1])
  }

  function Opens(s: string): nat {
    if s == [] then 0 else Opens(s[..|s| - 1]) + if s[|s| - 1] == '{' then 1 else 0
  }

  lemma {:induction false} OpensAppend(a: string, b: string)
    ensures Opens(a + b) == Opens(a) + Opens(b)
  {
    if b == [] {
      assert a + b == a;
    } else {
      OpensAppend(a, b[..|b| - 1]);
      assert (a + b)[..|a + b| - 1] == a + b[..|b| - 1];
    }
  }

  // ----- splitting -----

  /** The parts between the commas that no brace encloses. */
  function Split(text: string): (parts: seq<string>)
    ensures parts != []
  {
    if text == [] then [""]
    else
      var n := |text| - 1;
      var parts := Split(text[..n]);
      if text[n] == ',' && Depth(text[..n]) == 0 then parts + [""]
      else parts[..|parts| - 1] + [parts[|parts| - 1] + [text[n]]]
  }

  lemma JoinGrow(init: seq<string>, last: string, c: char)
    ensures Join(init + [last + [c]], ",") == Join(init + [last], ",") + [c]
  {
    hide Join;
    JoinSnoc(init, last, ",");
    JoinSnoc(init, last + [c], ",");
    if init != [] {
      assert Join(init, ",") + "," + (last + [c]) == Join(init, ",") + "," + last + [c];
    }
  }

  /** Every comma lies inside a group. */
  ghost predicate NoTopComma(part: string) {
    forall i :: 0 <= i < |part| && part[i] == ',' ==> Depth(part[..i]) != 0
  }

  lemma NoTopCommaSnoc(part: string, c: char)
    requires NoTopComma(part) && (c == ',' ==> Depth(part) != 0)
    ensures NoTopComma(part + [c])
  {
    forall i | 0 <= i < |part| + 1 && (part + [c])[i] == ',' ensures Depth((part + [c])[..i]) != 0 {
      assert (part + [c])[..i] == part[..i];
      assert part[..|part|] == part;
    }
  }

  lemma SplitSnoc(text: string, c: char)
    ensures var before := Split(text);
            var m := |before| - 1;
            Split(text + [c]) ==
              if c == ',' && Depth(text) == 0 then before + [""] else before[..m] + [before[m] + [c]]
  {
    hide Depth;
    assert (text + [c])[..|text|] == text;
  }

  /** Joined with commas the parts are the text again. */
  lemma {:induction false} SplitJoins(text: string)
    ensures Join(Split(text), ",") == text
  {
    if text != [] {
      hide *;
      var n := |text| - 1;
      SplitJoins(text[..n]);
      SplitSnoc(text[..n], text[n]);
      var before := Split(text[..n]);
      var m := |before| - 1;
      assert before == before[..m] + [before[m]];
      JoinGrow(before[..m], before[m], text[n]);
      JoinSnoc(before, "", ",");
      assert Join(before, ",") + "," + "" == Join(before, ",") + ",";
      assert text == text[..n] + [text[n]];
    }
  }

  lemma DepthNone()
    ensures Depth("") == 0 && Change(',') == 0
  {
  }

  lemma DepthSnoc(s: string, c: char)
    ensures Depth(s + [c]) == Depth(s) + Change(c)
  {
    assert (s + [c])[..|s|] == s;
  }

  /** The last part has the same depth as the whole text, since every split is at depth 0. */
  lemma {:induction false} SplitDepth(text: string)
    ensures Depth(text) == Depth(Split(text)[|Split(text)| - 1])
  {
    if text == [] {
      assert Split(text) == [""];
    } else {
      var n := |text| - 1;
      SplitDepth(text[..n]);
      var before := Split(text[..n]);
      DepthSnoc(text[..n], text[n]);
      DepthSnoc(before[|before| - 1], text[n]);
      DepthNone();
      hide Depth;
      assert text == text[..n] + [text[n]];
    }
  }

  /** No part can be split further. */
  lemma {:induction false} SplitIsComplete(text: string)
    ensures forall p :: p in Split(text) ==> NoTopComma(p)
  {
    if text != [] {
      var n := |text| - 1;
      SplitIsComplete(text[..n]);
      SplitDepth(text[..n]);
      var before := Split(text[..n]);
      var last := before[|before| - 1];
      assert last in before;
      if !(text[n] == ',' && Depth(text[..n]) == 0) {
        NoTopCommaSnoc(last, text[n]);
      }
      hide NoTopComma, Depth;
    } else {
      assert Split(text) == [""];
    }
  }

  lemma {:induction false} SplitOpens(text: string)
    ensures forall k :: 0 <= k < |Split(text)| ==> Opens(Split(text)[k]) <= Opens(text)
  {
    if text != [] {
      var n := |text| - 1;
      SplitOpens(text[..n]);
      var before := Split(text[..n]);
      var last := before[|before| - 1];
      assert (last + [text[n]])[..|last|] == last;
    }
  }

  lemma SplitStart(text: string)
    ensures Split(text[..0]) == [""] && Depth(text[..0]) == 0
  {
  }

  lemma SplitNext(text: string, i: nat)
    requires i < |text|
    ensures Depth(text[..i + 1]) == Depth(text[..i]) + Change(text[i])
    ensures text[i] == ',' ==> Change(text[i]) == 0
    ensures var (before, parts) := (Split(text[..i]), Split(text[..i + 1]));
            parts == if text[i] == ',' && Depth(text[..i]) == 0 then before + [""]
                     else before[..|before| - 1] + [before[|before| - 1] + [text[i]]]
  {
    assert text[..i + 1][..i] == text[..i];
  }

  method SplitTopLevel(text: string) returns (parts: seq<string>)
    ensures parts == Split(text)
  {
    hide *;
    var done: seq<string>, depth, current := [], 0, "";
    SplitStart(text);
    for i := 0 to |text|
      invariant depth == Depth(text[..i])
      invariant done + [current] == Split(text[..i])
    {
      SplitNext(text, i);
      var c := text[i];
      if c == ',' && depth == 0 {
        done := done + [current];
        current := "";
        continue;
      }
      assert (done + [current])[..|done|] == done;
      depth := depth + Change(c);
      current := current + [c];
    }
    assert text[..|text|] == text;
    parts := done + [current];
  }

  // ----- groups -----

  /** The braces at start and end enclose a balanced group of two or more options. */
  predicate IsGroup(pattern: string, start: nat, end: nat) {
    && start < end < |pattern| && pattern[start] == '{' && pattern[end] == '}'
    && |Split(pattern[start + 1..end])| >= 2
  }

  /** Where the scan is after i characters: how deep, and where the outermost open group began. */
  function Scan(pattern: string, i: nat): (r: (nat, nat))
    requires i <= |pattern|
    ensures r.0 > 0 ==> r.1 < i && pattern[r.1] == '{'
  {
    if i == 0 then (0, 0)
    else
      var (depth, start) := Scan(pattern, i - 1);
      match pattern[i - 1]
      case '{' => (depth + 1, if depth == 0 then i - 1 else start)
      case '}' => if depth > 0 then (depth - 1, start) else (depth, start)
      case _ => (depth, start)
  }

  /** A group of options closes at i. */
  predicate ClosesGroup(pattern: string, i: nat) {
    && i < |pattern| && pattern[i] == '}'
    && Scan(pattern, i).0 == 1 && IsGroup(pattern, Scan(pattern, i).1, i)
  }

  /** The first place from i on where a group of options closes, or the pattern's length. */
  function FirstGroup(pattern: string, i: nat): (r: nat)
    requires i <= |pattern|
    ensures i <= r <= |pattern| && (r < |pattern| ==> ClosesGroup(pattern, r))
    ensures forall k :: i <= k < r ==> !ClosesGroup(pattern, k)
    decreases |pattern| - i
  {
    if i == |pattern| || ClosesGroup(pattern, i) then i else FirstGroup(pattern, i + 1)
  }

  // ----- which group that is -----

  /** Between start and end is a group that nothing else encloses and that closes nowhere before. */
  predicate IsOutermost(pattern: string, start: nat, end: nat) {
    && start < end < |pattern| && pattern[start] == '{' && pattern[end] == '}'
    && (forall j {:trigger pattern[j..start]} :: 0 <= j <= start ==> Depth(pattern[j..start]) <= 0)
    && (forall j {:trigger pattern[start..j]} :: start < j <= end ==> Depth(pattern[start..j]) >= 1)
    && Depth(pattern[start..end]) == 1
  }

  /** What the scan knows after i characters. */
  ghost predicate Scanned(pattern: string, i: nat, depth: nat, start: nat)
    requires i <= |pattern|
  {
    && (forall j {:trigger pattern[j..i]} :: 0 <= j <= i ==> Depth(pattern[j..i]) <= depth)
    && (depth > 0 ==>
          && start < i && pattern[start] == '{' && Depth(pattern[start..i]) == depth
          && (forall j {:trigger pattern[j..start]} :: 0 <= j <= start ==> Depth(pattern[j..start]) <= 0)
          && (forall j {:trigger pattern[start..j]} :: start < j <= i ==> Depth(pattern[start..j]) >= 1))
  }

  lemma DepthTo(pattern: string, j: nat, i: nat)
    requires j <= i < |pattern|
    ensures Depth(pattern[j..i + 1]) == Depth(pattern[j..i]) + Change(pattern[i])
  {
    assert pattern[j..i + 1][..i - j] == pattern[j..i];
  }

  /** One character more: no suffix is deeper than the last depth and that character allow. */
  lemma SuffixesNext(pattern: string, i: nat, depth: nat, depth': nat)
    requires i < |pattern| && depth + Change(pattern[i]) <= depth'
    requires forall j {:trigger pattern[j..i]} :: 0 <= j <= i ==> Depth(pattern[j..i]) <= depth
    ensures forall j {:trigger pattern[j..i + 1]} :: 0 <= j <= i + 1 ==> Depth(pattern[j..i + 1]) <= depth'
  {
    forall j {:trigger pattern[j..i + 1]} | 0 <= j <= i + 1 ensures Depth(pattern[j..i + 1]) <= depth' {
      if j <= i { DepthTo(pattern, j, i); }
    }
  }

  lemma GroupGoesOn(pattern: string, i: nat, depth: nat, start: nat)
    requires i < |pattern| && Scanned(pattern, i, depth, start) && depth > 0 && depth + Change(pattern[i]) > 0
    ensures Scanned(pattern, i + 1, depth + Change(pattern[i]), start)
  {
    SuffixesNext(pattern, i, depth, depth + Change(pattern[i]));
    DepthTo(pattern, start, i);
    hide Depth;
  }

  lemma GroupBegins(pattern: string, i: nat, start: nat)
    requires i < |pattern| && Scanned(pattern, i, 0, start) && pattern[i] == '{'
    ensures Scanned(pattern, i + 1, 1, i)
  {
    SuffixesNext(pattern, i, 0, 1);
    DepthTo(pattern, i, i);
    assert pattern[i..i] == "";
    assert Depth(pattern[i..i + 1]) == 1;
    hide Depth;
  }

  lemma NothingOpen(pattern: string, i: nat, depth: nat, start: nat, start': nat)
    requires i < |pattern| && Scanned(pattern, i, depth, start) && depth + Change(pattern[i]) <= 0
    ensures Scanned(pattern, i + 1, 0, start')
  {
    SuffixesNext(pattern, i, depth, 0);
  }

  lemma {:induction false} ScanKnows(pattern: string, i: nat)
    requires i <= |pattern|
    ensures Scanned(pattern, i, Scan(pattern, i).0, Scan(pattern, i).1)
  {
    if i == 0 {
      assert pattern[0..0] == "";
    } else {
      ScanKnows(pattern, i - 1);
      var ((depth, start), (depth', start')) := (Scan(pattern, i - 1), Scan(pattern, i));
      ScanStep(pattern, i - 1);
      hide Scanned, Scan, Depth;
      if depth + Change(pattern[i - 1]) <= 0 {
        NothingOpen(pattern, i - 1, depth, start, start');
      } else if depth == 0 {
        GroupBegins(pattern, i - 1, start);
      } else {
        GroupGoesOn(pattern, i - 1, depth, start);
      }
    }
  }

  lemma ScanStep(pattern: string, i: nat)
    requires i < |pattern|
    ensures var ((depth, start), (depth', start')) := (Scan(pattern, i), Scan(pattern, i + 1));
            && depth' == (if depth + Change(pattern[i]) < 0 then 0 else depth + Change(pattern[i]))
            && (depth' > 0 ==> start' == if depth == 0 then i else start)
            && (depth == 0 && depth' > 0 ==> pattern[i] == '{')
  {
  }

  /** A group closes where an outermost one with two or more options does. */
  lemma OutermostCloses(pattern: string, end: nat)
    requires end <= |pattern|
    ensures ClosesGroup(pattern, end) ==> IsOutermost(pattern, Scan(pattern, end).1, end)
    ensures forall start: nat :: IsOutermost(pattern, start, end) && |Split(pattern[start + 1..end])| >= 2 ==>
              ClosesGroup(pattern, end) && start == Scan(pattern, end).1
  {
    ScanKnows(pattern, end);
    hide Depth, Split, Scan, Scanned;
    if ClosesGroup(pattern, end) { ScannedIsOutermost(pattern, end, Scan(pattern, end).1); }
    hide IsOutermost;
    forall start: nat | IsOutermost(pattern, start, end) ensures Scan(pattern, end) == (1, start) {
      OnlyOne(pattern, end, Scan(pattern, end).0, Scan(pattern, end).1, start);
    }
    assert forall start: nat :: IsOutermost(pattern, start, end) ==>
        start < end < |pattern| && pattern[start] == '{' && pattern[end] == '}' by {
      forall start: nat | IsOutermost(pattern, start, end)
        ensures start < end < |pattern| && pattern[start] == '{' && pattern[end] == '}'
      {
        OutermostBraces(pattern, start, end);
      }
    }
  }

  lemma OutermostBraces(pattern: string, start: nat, end: nat)
    requires IsOutermost(pattern, start, end)
    ensures start < end < |pattern| && pattern[start] == '{' && pattern[end] == '}'
  {
  }

  lemma ScannedIsOutermost(pattern: string, end: nat, start: nat)
    requires end < |pattern| && Scanned(pattern, end, 1, start) && pattern[end] == '}'
    ensures IsOutermost(pattern, start, end)
  {
  }

  lemma Shallow(pattern: string, end: nat, depth: nat, start: nat, j: nat)
    requires end <= |pattern| && j <= start < end
    requires (Scanned(pattern, end, depth, start) && depth > 0) || IsOutermost(pattern, start, end)
    ensures Depth(pattern[j..start]) <= 0
  {
  }

  lemma Deep(pattern: string, end: nat, depth: nat, start: nat, j: nat)
    requires end <= |pattern| && start < j <= end
    requires (Scanned(pattern, end, depth, start) && depth > 0) || IsOutermost(pattern, start, end)
    ensures Depth(pattern[start..j]) >= 1
  {
  }

  lemma StartsBefore(pattern: string, end: nat, depth: nat, start: nat)
    requires end <= |pattern| && Scanned(pattern, end, depth, start) && depth > 0
    ensures start < end && Depth(pattern[start..end]) == depth
  {
  }

  lemma IsOpen(pattern: string, end: nat, depth: nat, begun: nat, start: nat)
    requires end <= |pattern| && Scanned(pattern, end, depth, begun) && IsOutermost(pattern, start, end)
    ensures depth > 0 && start < end && Depth(pattern[start..end]) == 1
  {
  }

  /** The outermost group that is open at the end begins where the scan says. */
  lemma OnlyOne(pattern: string, end: nat, depth: nat, begun: nat, start: nat)
    requires end <= |pattern| && Scanned(pattern, end, depth, begun) && IsOutermost(pattern, start, end)
    ensures (depth, begun) == (1, start)
  {
    hide *;
    IsOpen(pattern, end, depth, begun, start);
    StartsBefore(pattern, end, depth, begun);
    if start < begun {
      Shallow(pattern, end, depth, begun, start);
      Deep(pattern, end, depth, start, begun);
    } else if begun < start {
      Shallow(pattern, end, depth, start, begun);
      Deep(pattern, end, depth, begun, start);
    }
  }

  function Head(pattern: string, end: nat): string
    requires ClosesGroup(pattern, end)
  {
    pattern[..Scan(pattern, end).1]
  }

  function Options(pattern: string, end: nat): (options: seq<string>)
    requires ClosesGroup(pattern, end)
    ensures |options| >= 2
  {
    Split(pattern[Scan(pattern, end).1 + 1..end])
  }

  function Tail(pattern: string, end: nat): string
    requires ClosesGroup(pattern, end)
  {
    pattern[end + 1..]
  }

  /** Putting an option in the group's place leaves fewer open braces. */
  lemma OptionOpensFewer(pattern: string, end: nat, k: nat)
    requires ClosesGroup(pattern, end) && k < |Options(pattern, end)|
    ensures Opens(Head(pattern, end) + Options(pattern, end)[k] + Tail(pattern, end)) < Opens(pattern)
  {
    var start := Scan(pattern, end).1;
    var head, inner, tail := pattern[..start], pattern[start + 1..end], pattern[end + 1..];
    var option := Split(inner)[k];
    SplitOpens(inner);
    assert pattern == head + "{" + inner + "}" + tail;
    OpensAppend(head + "{" + inner + "}", tail);
    OpensAppend(head + "{" + inner, "}");
    OpensAppend(head + "{", inner);
    OpensAppend(head, "{");
    OpensAppend(head + option, tail);
    OpensAppend(head, option);
    assert Opens("{") == 1 by { assert "{"[..0] == ""; }
  }

  // ----- expansion -----

  /** Without a cap: the first group's options one by one, each expanded further. */
  function Expand(pattern: string): (r: seq<string>)
    ensures r != []
    decreases Opens(pattern), 1, 0
  {
    var end := FirstGroup(pattern, 0);
    if end == |pattern| then [pattern] else ExpandEach(pattern, end, |Options(pattern, end)|)
  }

  /** The expansions for the first k options. */
  function ExpandEach(pattern: string, end: nat, k: nat): (r: seq<string>)
    requires ClosesGroup(pattern, end) && k <= |Options(pattern, end)|
    ensures k > 0 ==> r != []
    decreases Opens(pattern), 0, k
  {
    if k == 0 then []
    else
      OptionOpensFewer(pattern, end, k - 1);
      ExpandEach(pattern, end, k - 1) + Expand(Head(pattern, end) + Options(pattern, end)[k - 1] + Tail(pattern, end))
  }

  /** Nothing in an expansion is left to expand. */
  lemma {:induction false} FullyExpanded(pattern: string, r: string)
    requires r in Expand(pattern)
    ensures FirstGroup(r, 0) == |r|
    decreases Opens(pattern), 1, 0
  {
    var end := FirstGroup(pattern, 0);
    if end < |pattern| {
      EachFullyExpanded(pattern, end, |Options(pattern, end)|, r);
    }
  }

  lemma {:induction false} EachFullyExpanded(pattern: string, end: nat, k: nat, r: string)
    requires ClosesGroup(pattern, end) && k <= |Options(pattern, end)| && r in ExpandEach(pattern, end, k)
    ensures FirstGroup(r, 0) == |r|
    decreases Opens(pattern), 0, k
  {
    OptionOpensFewer(pattern, end, k - 1);
    if r in ExpandEach(pattern, end, k - 1) {
      EachFullyExpanded(pattern, end, k - 1, r);
    } else {
      FullyExpanded(Head(pattern, end) + Options(pattern, end)[k - 1] + Tail(pattern, end), r);
    }
  }

  function Take(s: seq<string>): seq<string> {
    if |s| <= MAX_BRACE_EXPANSIONS then s else s[..MAX_BRACE_EXPANSIONS]
  }

  lemma TakeOfTakes(a: seq<string>, b: seq<string>)
    ensures Take(Take(a) + Take(b)) == Take(a + b)
  {
  }

  lemma TakeShort(s: seq<string>)
    ensures |s| <= MAX_BRACE_EXPANSIONS ==> Take(s) == s
    ensures |s| > MAX_BRACE_EXPANSIONS ==> Take(s) == s[..MAX_BRACE_EXPANSIONS]
    ensures Take([]) == []
  {
  }

  /** Once there are enough, more changes nothing. */
  lemma TakeEnough(out: seq<string>, a: seq<string>, b: seq<string>)
    requires out == Take(a) && |out| == MAX_BRACE_EXPANSIONS && a <= b
    ensures Take(b) == out
  {
  }

  lemma EachNext(pattern: string, end: nat, k: nat)
    requires ClosesGroup(pattern, end) && k < |Options(pattern, end)|
    ensures ExpandEach(pattern, end, k + 1) ==
            ExpandEach(pattern, end, k) + Expand(Head(pattern, end) + Options(pattern, end)[k] + Tail(pattern, end))
  {
    hide Expand;
  }

  lemma {:induction false} ExpandEachGrows(pattern: string, end: nat, j: nat, k: nat)
    requires ClosesGroup(pattern, end) && j <= k <= |Options(pattern, end)|
    ensures ExpandEach(pattern, end, j) <= ExpandEach(pattern, end, k)
    decreases k
  {
    if j < k {
      ExpandEachGrows(pattern, end, j, k - 1);
    }
  }

  /** The capped expansion is the start of the full one, whatever was cut along the way. */
  method ExpandBraces(pattern: string) returns (out: seq<string>)
    ensures out == Take(Expand(pattern))
    ensures out != [] && out <= Expand(pattern)
    ensures |out| == if |Expand(pattern)| < 64 then |Expand(pattern)| else 64
    decreases Opens(pattern)
  {
    var depth, start := 0, 0;
    for i := 0 to |pattern|
      invariant (depth, start) == Scan(pattern, i)
      invariant forall k :: 0 <= k < i ==> !ClosesGroup(pattern, k)
    {
      var c := pattern[i];
      if c == '{' {
        if depth == 0 { start := i; }
        depth := depth + 1;
      } else if c == '}' && depth > 0 {
        depth := depth - 1;
        if depth == 0 {
          var options := SplitTopLevel(pattern[start + 1..i]);
          if |options| < 2 { continue; }
          assert ClosesGroup(pattern, i);
          FirstIs(pattern, i);
          out := ExpandOptions(pattern, i, options);
          return;
        }
      }
    }
    FirstIs(pattern, |pattern|);
    return [pattern];
  }

  lemma FirstIs(pattern: string, end: nat)
    requires end <= |pattern| && (end < |pattern| ==> ClosesGroup(pattern, end))
    requires forall k :: 0 <= k < end ==> !ClosesGroup(pattern, k)
    ensures FirstGroup(pattern, 0) == end
  {
  }

  method ExpandOptions(pattern: string, end: nat, options: seq<string>) returns (out: seq<string>)
    requires ClosesGroup(pattern, end) && options == Options(pattern, end)
    ensures out == Take(ExpandEach(pattern, end, |options|))
    decreases Opens(pattern), 0
  {
    hide *;
    var head, tail := Head(pattern, end), Tail(pattern, end);
    out := [];
    EachNone(pattern, end);
    for k := 0 to |options|
      invariant out == Take(ExpandEach(pattern, end, k))
    {
      OptionOpensFewer(pattern, end, k);
      var more := ExpandBraces(head + options[k] + tail);
      EachTaken(pattern, end, k);
      out := out + more;
      TakeShort(out);
      if |out| > MAX_BRACE_EXPANSIONS {
        out := out[..MAX_BRACE_EXPANSIONS];
        ExpandEachGrows(pattern, end, k + 1, |options|);
        TakeEnough(out, ExpandEach(pattern, end, k + 1), ExpandEach(pattern, end, |options|));
        return;
      }
    }
  }

  lemma EachNone(pattern: string, end: nat)
    requires ClosesGroup(pattern, end)
    ensures Take(ExpandEach(pattern, end, 0)) == []
  {
  }

  lemma EachTaken(pattern: string, end: nat, k: nat)
    requires ClosesGroup(pattern, end) && k < |Options(pattern, end)|
    ensures Take(Take(ExpandEach(pattern, end, k))
                 + Take(Expand(Head(pattern, end) + Options(pattern, end)[k] + Tail(pattern, end))))
         == Take(ExpandEach(pattern, end, k + 1))
  {
    EachNext(pattern, end, k);
    hide *;
    TakeOfTakes(ExpandEach(pattern, end, k),
                Expand(Head(pattern, end) + Options(pattern, end)[k] + Tail(pattern, end)));
  }

  // ----- what an expansion is -----

  /** Between commas that no brace encloses; as a whole the parts close what they open. */
  ghost predicate AreOptions(options: seq<string>, inner: string) {
    && |options| >= 2 && Join(options, ",") == inner
    && forall p :: p in options ==> NoTopComma(p) && Depth(p) == 0
  }

  /** The first group with options: outermost, and no outermost group that closes before has any. */
  ghost predicate IsFirstGroup(pattern: string, head: string, options: seq<string>, tail: string) {
    exists inner: string ::
      && pattern == head + "{" + inner + "}" + tail && AreOptions(options, inner)
      && IsOutermost(pattern, |head|, |head| + 1 + |inner|) && NoGroupBefore(pattern, |head| + 1 + |inner|)
  }

  /** An outermost group with a comma between options. */
  ghost predicate HasOptions(pattern: string, start: nat, end: nat) {
    IsOutermost(pattern, start, end) && !NoTopComma(pattern[start + 1..end])
  }

  ghost predicate NoGroupBefore(pattern: string, end: nat) {
    forall i: nat, j: nat {:trigger HasOptions(pattern, i, j)} :: j < end ==> !HasOptions(pattern, i, j)
  }

  function Flat(parts: seq<seq<string>>): seq<string> {
    if parts == [] then [] else Flat(parts[..|parts| - 1]) + parts[|parts| - 1]
  }

  /** Without a group only the pattern itself; else the expansions for each of the first group's options, in order. */
  ghost predicate IsExpansion(pattern: string, all: seq<string>) {
    if NoGroupBefore(pattern, |pattern|) then all == [pattern]
    else exists head, options, tail ::
        IsFirstGroup(pattern, head, options, tail) && InsertsEach(head, options, tail, all)
  }

  ghost predicate InsertsEach(head: string, options: seq<string>, tail: string, all: seq<string>) {
    all == Flat(seq(|options|, k requires 0 <= k < |options| => Expand(head + options[k] + tail)))
  }

  lemma {:induction false} SplitLevel(text: string)
    ensures forall k :: 0 <= k < |Split(text)| - 1 ==> Depth(Split(text)[k]) == 0
  {
    if text != [] {
      var n := |text| - 1;
      SplitLevel(text[..n]);
      SplitDepth(text[..n]);
      hide Depth;
    }
  }

  lemma {:induction false} SplitOnce(text: string)
    ensures |Split(text)| >= 2 <==> !NoTopComma(text)
  {
    SplitIsComplete(text);
    SplitJoins(text);
    if |Split(text)| == 1 {
      assert Split(text)[0] in Split(text);
    } else {
      SplitHasComma(text);
    }
  }

  lemma {:induction false} SplitHasComma(text: string)
    requires |Split(text)| >= 2
    ensures !NoTopComma(text)
  {
    var n := |text| - 1;
    if text[n] == ',' && Depth(text[..n]) == 0 {
    } else {
      SplitHasComma(text[..n]);
      var i :| 0 <= i < n && text[..n][i] == ',' && Depth(text[..n][..i]) == 0;
      assert text[..n][..i] == text[..i];
    }
  }

  lemma SplitIsOptions(inner: string)
    requires |Split(inner)| >= 2 && Depth(inner) == 0
    ensures AreOptions(Split(inner), inner)
  {
    SplitJoins(inner);
    SplitIsComplete(inner);
    SplitLevel(inner);
    SplitDepth(inner);
    hide Depth, NoTopComma, Split, Join;
  }

  /** The options of a group that closes here. */
  lemma OptionsAre(pattern: string, end: nat) returns (inner: string)
    requires ClosesGroup(pattern, end)
    ensures end < |pattern| && pattern == Head(pattern, end) + "{" + inner + "}" + Tail(pattern, end)
    ensures AreOptions(Options(pattern, end), inner) && end == |Head(pattern, end)| + 1 + |inner|
    ensures IsOutermost(pattern, |Head(pattern, end)|, end)
  {
    OutermostCloses(pattern, end);
    var start := Scan(pattern, end).1;
    DepthInside(pattern, start, end);
    inner := pattern[start + 1..end];
    SplitIsOptions(inner);
    hide AreOptions, Split, IsOutermost, Scan;
  }

  lemma DepthInside(pattern: string, start: nat, end: nat)
    requires IsOutermost(pattern, start, end)
    ensures Depth(pattern[start + 1..end]) == 0
  {
    assert pattern[start..end] == ['{'] + pattern[start + 1..end];
    DepthCons('{', pattern[start + 1..end]);
  }

  lemma {:induction false} DepthCons(c: char, s: string)
    ensures Depth([c] + s) == Change(c) + Depth(s)
  {
    if s == "" {
      assert [c] + s == "" + [c];
      DepthSnoc("", c);
    } else {
      var n := |s| - 1;
      DepthCons(c, s[..n]);
      assert [c] + s == [c] + s[..n] + [s[n]];
      DepthSnoc([c] + s[..n], s[n]);
    }
  }

  lemma NoneBefore(pattern: string, end: nat)
    requires end <= |pattern|
    ensures (forall k :: 0 <= k < end ==> !ClosesGroup(pattern, k)) <==> NoGroupBefore(pattern, end)
  {
    hide ClosesGroup, HasOptions;
    if forall k :: 0 <= k < end ==> !ClosesGroup(pattern, k) {
      forall i: nat, j: nat | j < end ensures !HasOptions(pattern, i, j) {
        ClosesAt(pattern, j);
      }
    }
    if NoGroupBefore(pattern, end) {
      forall k: nat | k < end ensures !ClosesGroup(pattern, k) {
        ClosesAt(pattern, k);
      }
    }
  }

  lemma ClosesAt(pattern: string, k: nat)
    requires k < |pattern|
    ensures ClosesGroup(pattern, k) <==> exists i: nat :: HasOptions(pattern, i, k)
  {
    hide *;
    if ClosesGroup(pattern, k) {
      var start: nat := Scan(pattern, k).1;
      ClosesThere(pattern, k);
      assert HasOptions(pattern, start, k);
    }
    forall i: nat | HasOptions(pattern, i, k) ensures ClosesGroup(pattern, k) {
      ClosesIf(pattern, i, k);
    }
  }

  lemma ClosesThere(pattern: string, k: nat)
    requires ClosesGroup(pattern, k)
    ensures HasOptions(pattern, Scan(pattern, k).1, k)
  {
    OutermostCloses(pattern, k);
    SplitOnce(pattern[Scan(pattern, k).1 + 1..k]);
    hide NoTopComma, Split, Scan;
  }

  lemma ClosesIf(pattern: string, i: nat, k: nat)
    requires k < |pattern| && HasOptions(pattern, i, k)
    ensures ClosesGroup(pattern, k)
  {
    OutermostCloses(pattern, k);
    SplitOnce(pattern[i + 1..k]);
    hide NoTopComma, Split, Scan;
  }

  /** The pattern with option k in the group's place. */
  function Inserted(pattern: string, end: nat, k: nat): string
    requires ClosesGroup(pattern, end) && k < |Options(pattern, end)|
  {
    Head(pattern, end) + Options(pattern, end)[k] + Tail(pattern, end)
  }

  lemma {:induction false} EachIsFlat(pattern: string, end: nat, k: nat)
    requires ClosesGroup(pattern, end) && k <= |Options(pattern, end)|
    ensures ExpandEach(pattern, end, k) ==
            Flat(seq(k, j requires 0 <= j < k => Expand(Inserted(pattern, end, j))))
  {
    if k > 0 {
      EachNext(pattern, end, k - 1);
      EachIsFlat(pattern, end, k - 1);
      hide Expand, ExpandEach, Head, Options, Tail;
      var all := seq(k, j requires 0 <= j < k => Expand(Inserted(pattern, end, j)));
      assert all[..k - 1] == seq(k - 1, j requires 0 <= j < k - 1 => Expand(Inserted(pattern, end, j)));
    }
  }

  /** The expansion is just that, for every pattern. */
  lemma ExpandIs(pattern: string)
    ensures IsExpansion(pattern, Expand(pattern))
  {
    hide *;
    var end := FirstGroup(pattern, 0);
    NoneBefore(pattern, end);
    NoneBefore(pattern, |pattern|);
    ExpandOne(pattern, end);
    if end == |pattern| {
      NothingInserted(pattern, Expand(pattern));
    } else {
      var head, options, tail := Head(pattern, end), Options(pattern, end), Tail(pattern, end);
      var inner := OptionsAre(pattern, end);
      EachInserts(pattern, end);
      FirstGroupIs(pattern, head, inner, options, tail);
      SomethingInserted(pattern, end, head, options, tail, Expand(pattern));
    }
  }

  lemma ExpandOne(pattern: string, end: nat)
    requires end == FirstGroup(pattern, 0)
    ensures end <= |pattern| && (forall k :: 0 <= k < end ==> !ClosesGroup(pattern, k))
    ensures end < |pattern| ==> ClosesGroup(pattern, end)
    ensures Expand(pattern) == if end == |pattern| then [pattern] else ExpandEach(pattern, end, |Options(pattern, end)|)
  {
    hide ExpandEach, ClosesGroup, Options;
  }

  lemma NothingInserted(pattern: string, all: seq<string>)
    requires NoGroupBefore(pattern, |pattern|) && all == [pattern]
    ensures IsExpansion(pattern, all)
  {
    hide NoGroupBefore;
  }

  lemma FirstGroupIs(pattern: string, head: string, inner: string, options: seq<string>, tail: string)
    requires pattern == head + "{" + inner + "}" + tail && AreOptions(options, inner)
    requires IsOutermost(pattern, |head|, |head| + 1 + |inner|) && NoGroupBefore(pattern, |head| + 1 + |inner|)
    ensures IsFirstGroup(pattern, head, options, tail)
  {
    hide AreOptions, IsOutermost, NoGroupBefore;
  }

  lemma EachInserts(pattern: string, end: nat)
    requires ClosesGroup(pattern, end)
    ensures InsertsEach(Head(pattern, end), Options(pattern, end), Tail(pattern, end),
                        ExpandEach(pattern, end, |Options(pattern, end)|))
  {
    var head, options, tail := Head(pattern, end), Options(pattern, end), Tail(pattern, end);
    EachIsFlat(pattern, end, |options|);
    hide Expand, ExpandEach, ClosesGroup, Head, Options, Tail, Flat;
    var each := seq(|options|, j requires 0 <= j < |options| => Expand(Inserted(pattern, end, j)));
    assert each == seq(|options|, k requires 0 <= k < |options| => Expand(head + options[k] + tail));
  }

  lemma SomethingInserted(pattern: string, end: nat, head: string, options: seq<string>, tail: string,
                          all: seq<string>)
    requires end < |pattern| && ClosesGroup(pattern, end) && IsFirstGroup(pattern, head, options, tail)
    requires !NoGroupBefore(pattern, |pattern|) && InsertsEach(head, options, tail, all)
    ensures IsExpansion(pattern, all)
  {
    hide NoGroupBefore, IsFirstGroup, InsertsEach;
  }
}
