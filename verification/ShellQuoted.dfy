/** Quoting an argument vector for the shell, and reading it back. */
module ShellQuoted {
  import opened Wrappers
  import opened ShellScan

  /** The text in single quotes; a single quote in it is written outside of them, behind a backslash. */
  function Quote(w: string): (q: string)
    ensures |q| >= 2
    decreases |w|
  {
    var k := Find(w, '\'', 0);
    if k == |w| then "'" + w + "'" else ("'" + w[..k] + "'") + ("\\'" + Quote(w[k + 1..]))
  }

  function QuoteAll(ws: seq<string>): string {
    if ws == [] then "" else Quote(ws[0]) + " " + QuoteAll(ws[1..])
  }

  /** A word that began with a quote. */
  function QuotedWord(text: string): Word {
    Word(text, true, false, false, Some(0))
  }

  function QuotedTokens(ws: seq<string>): seq<Token> {
    seq(|ws|, k requires 0 <= k < |ws| => Text(QuotedWord(ws[k])))
  }

  /** Partway through a quoted word; None before it. */
  function Inside(i: nat, text: Option<string>, tokens: seq<Token>): Lexer {
    Lexer(i, if text.None? then None else Some(QuotedWord(text.value)), tokens, [], None, EMPTY_SCAN)
  }

  function SoFar(text: Option<string>): string {
    if text.None? then "" else text.value
  }

  lemma {:induction false} FindFirst(s: string, c: char, i: nat, at: nat)
    requires i <= at < |s| && s[at] == c && forall k :: i <= k < at ==> s[k] != c
    ensures Find(s, c, i) == at
    decreases at - i
  {
    if i < at {
      FindFirst(s, c, i + 1, at);
    }
  }

  /** Where a stretch in quotes stands, character by character. */
  lemma StretchAt(s: string, i: nat, run: string)
    requires StartsWith(s, "'" + run + "'", i)
    ensures i + |run| + 1 < |s| && s[i] == '\'' && s[i + |run| + 1] == '\'' && s[i + 1..i + |run| + 1] == run
  {
    assert "'" + run + "'" == "'" + (run + "'");
    StartsWithPart(s, "'", run + "'", i);
    StartsWithPart(s, run, "'", i + 1);
    assert s[i] == s[i..i + 1][0];
    assert s[i + |run| + 1] == s[i + 1 + |run|..i + 1 + |run| + 1][0];
  }

  /** One stretch in quotes. */
  lemma QuoteStep(s: string, i: nat, text: Option<string>, tokens: seq<Token>, run: string)
    requires i + |run| + 1 < |s| && s[i] == '\'' && s[i + |run| + 1] == '\'' && s[i + 1..i + |run| + 1] == run
    requires '\'' !in run
    ensures Lex(s, Inside(i, text, tokens)) == Lex(s, Inside(i + |run| + 2, Some(SoFar(text) + run), tokens))
  {
    hide *;
    var at := i + |run| + 1;
    forall k | i + 1 <= k < at ensures s[k] != '\'' {
      assert s[k] == s[i + 1..at][k - i - 1];
    }
    FindFirst(s, '\'', i + 1, at);
    StepInQuotes(s, i, text, tokens, at);
  }

  lemma StepInQuotes(s: string, i: nat, text: Option<string>, tokens: seq<Token>, at: nat)
    requires i + 1 <= at < |s| && s[i] == '\'' && Find(s, '\'', i + 1) == at
    ensures Lex(s, Inside(i, text, tokens)) == Lex(s, Inside(at + 1, Some(SoFar(text) + s[i + 1..at]), tokens))
  {
    hide Find, Expansion, DoubleQuoted, Operator;
    LexOne(s, Inside(i, text, tokens));
    assert !IsBlank('\'') && !IsOperatorChar('\'');
    hide Lex, IsBlank, IsOperatorChar;
    assert Step(s, Inside(i, text, tokens)) == Inside(at + 1, Some(SoFar(text) + s[i + 1..at]), tokens);
  }

  /** A quote behind a backslash. */
  lemma BackslashStep(s: string, i: nat, text: string, tokens: seq<Token>)
    requires i + 1 < |s| && s[i] == '\\' && s[i + 1] == '\''
    ensures Lex(s, Inside(i, Some(text), tokens)) == Lex(s, Inside(i + 2, Some(text + "'"), tokens))
  {
    hide Find, Expansion, DoubleQuoted, Operator;
    assert !StartsWith(s, "\n", i + 1) by {
      assert s[i + 1..i + 2][0] == '\'';
    }
    LexOne(s, Inside(i, Some(text), tokens));
    assert !IsBlank('\\') && !IsOperatorChar('\\');
    hide Lex, StartsWith, IsBlank, IsOperatorChar;
    assert Step(s, Inside(i, Some(text), tokens)) == Inside(i + 2, Some(text + "'"), tokens);
  }

  lemma StartsWithPart(s: string, a: string, b: string, i: nat)
    requires StartsWith(s, a + b, i)
    ensures StartsWith(s, a, i) && StartsWith(s, b, i + |a|)
  {
    assert s[i..i + |a + b|][..|a|] == a;
    assert s[i..i + |a + b|][|a|..] == b;
  }

  /** The pass reads a quoted text as this text, whatever it is. */
  lemma {:induction false} LexQuoted(s: string, i: nat, text: Option<string>, tokens: seq<Token>, w: string)
    requires StartsWith(s, Quote(w), i)
    ensures Lex(s, Inside(i, text, tokens)) == Lex(s, Inside(i + |Quote(w)|, Some(SoFar(text) + w), tokens))
    decreases |w|
  {
    QuoteOne(w);
    hide *;
    var k := Find(w, '\'', 0);
    if k == |w| {
      StretchAt(s, i, w);
      QuoteStep(s, i, text, tokens, w);
    } else {
      var run, rest := w[..k], Quote(w[k + 1..]);
      var open, t := "'" + run + "'", SoFar(text) + w[..k];
      StartsWithPart(s, open, "\\'" + rest, i);
      StartsWithPart(s, "\\'", rest, i + |open|);
      StretchAt(s, i, run);
      QuoteStep(s, i, text, tokens, run);
      Backslashed(s, i + |open|);
      BackslashStep(s, i + |open|, t, tokens);
      LexQuoted(s, i + |open| + 2, Some(t + "'"), tokens, w[k + 1..]);
      TextJoins(SoFar(text), w, k);
      SoFarSome(t + "'");
    }
  }

  lemma QuoteOne(w: string)
    ensures var k := Find(w, '\'', 0);
            && '\'' !in w[..k]
            && (k == |w| ==> Quote(w) == "'" + w + "'" && w[..k] == w)
            && (k < |w| ==> Quote(w) == ("'" + w[..k] + "'") + ("\\'" + Quote(w[k + 1..])))
  {
    var k := Find(w, '\'', 0);
    NoneBefore(w, '\'');
    assert k == |w| ==> w[..k] == w;
  }

  lemma NoneBefore(w: string, c: char)
    ensures c !in w[..Find(w, c, 0)]
  {
  }

  lemma SoFarSome(text: string)
    ensures SoFar(Some(text)) == text
  {
  }

  lemma TextJoins(t: string, w: string, k: nat)
    requires k < |w| && w[k] == '\''
    ensures ((t + w[..k]) + "'") + w[k + 1..] == t + w
  {
  }

  lemma Backslashed(s: string, i: nat)
    requires StartsWith(s, "\\'", i)
    ensures i + 1 < |s| && s[i] == '\\' && s[i + 1] == '\''
  {
    assert s[i..i + 2][0] == s[i] && s[i..i + 2][1] == s[i + 1];
  }

  lemma BlankStep(s: string, i: nat, text: string, tokens: seq<Token>)
    requires i < |s| && s[i] == ' '
    ensures Lex(s, Inside(i, Some(text), tokens)) == Lex(s, Inside(i + 1, None, tokens + [Text(QuotedWord(text))]))
  {
    hide Find, Expansion, DoubleQuoted, Operator;
    LexOne(s, Inside(i, Some(text), tokens));
    hide Lex;
    assert Step(s, Inside(i, Some(text), tokens)) == Inside(i + 1, None, tokens + [Text(QuotedWord(text))]);
  }

  lemma NothingQuoted(s: string, i: nat, tokens: seq<Token>)
    requires i + |QuoteAll([])| == |s|
    ensures Lex(s, Inside(i, None, tokens)).tokens == tokens + QuotedTokens([])
    ensures Lex(s, Inside(i, None, tokens)).scan == EMPTY_SCAN
  {
  }

  lemma QuoteAllOne(ws: seq<string>)
    requires ws != []
    ensures QuoteAll(ws) == Quote(ws[0]) + (" " + QuoteAll(ws[1..]))
    ensures QuotedTokens(ws) == [Text(QuotedWord(ws[0]))] + QuotedTokens(ws[1..])
    ensures SoFar(None) + ws[0] == ws[0]
  {
    hide Quote;
    assert Quote(ws[0]) + " " + QuoteAll(ws[1..]) == Quote(ws[0]) + (" " + QuoteAll(ws[1..]));
  }

  lemma BlankAt(s: string, i: nat)
    requires StartsWith(s, " ", i)
    ensures i < |s| && s[i] == ' '
  {
    assert s[i..i + 1][0] == s[i];
  }

  lemma {:induction false} LexAllQuoted(s: string, i: nat, tokens: seq<Token>, ws: seq<string>)
    requires StartsWith(s, QuoteAll(ws), i) && i + |QuoteAll(ws)| == |s|
    ensures Lex(s, Inside(i, None, tokens)).tokens == tokens + QuotedTokens(ws)
    ensures Lex(s, Inside(i, None, tokens)).scan == EMPTY_SCAN
    decreases |ws|
  {
    hide *;
    if ws == [] {
      NothingQuoted(s, i, tokens);
    } else {
      var q := Quote(ws[0]);
      QuoteAllOne(ws);
      StartsWithPart(s, q, " " + QuoteAll(ws[1..]), i);
      StartsWithPart(s, " ", QuoteAll(ws[1..]), i + |q|);
      BlankAt(s, i + |q|);
      LexQuoted(s, i, None, tokens, ws[0]);
      BlankStep(s, i + |q|, ws[0], tokens);
      LexAllQuoted(s, i + |q| + 1, tokens + [Text(QuotedWord(ws[0]))], ws[1..]);
      assert tokens + [Text(QuotedWord(ws[0]))] + QuotedTokens(ws[1..]) == tokens + QuotedTokens(ws);
    }
  }

  /** Any argument vector, quoted and joined with blanks, is read back word for word, and nothing is reported. */
  lemma QuotedIsReadBack(ws: seq<string>)
    ensures Lex(QuoteAll(ws), START).tokens == QuotedTokens(ws)
    ensures Lex(QuoteAll(ws), START).scan == EMPTY_SCAN
  {
    var s := QuoteAll(ws);
    assert StartsWith(s, s, 0);
    assert Inside(0, None, []) == START;
    LexAllQuoted(s, 0, [], ws);
  }
}
