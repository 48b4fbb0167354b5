/** The scan never forgets a finding, and reports what it cannot see. */
module ShellReports {
  import opened Wrappers
  import opened Texts
  import opened ShellScan
  import opened ShellPlain
  import opened ShellEffects

  /** Everything found before is still there, in the same order. */
  ghost predicate Grew(a: CommandScan, b: CommandScan) {
    && a.programs <= b.programs && a.opacity <= b.opacity && a.assignments <= b.assignments
    && a.redirects <= b.redirects && a.directories <= b.directories && (a.repeats ==> b.repeats)
  }

  /** Only reports and assignments were added. */
  ghost predicate Noted(a: CommandScan, b: CommandScan) {
    && a.opacity <= b.opacity && a.assignments <= b.assignments
    && b == a.(opacity := b.opacity, assignments := b.assignments)
  }

  lemma NotedTrans(a: CommandScan, b: CommandScan, c: CommandScan)
    requires Noted(a, b) && Noted(b, c)
    ensures Noted(a, c)
  {
  }

  lemma {:induction false} DoubleQuotedGrows(s: string, i: nat, w: Word, scan: CommandScan)
    ensures Noted(scan, DoubleQuoted(s, i, w, scan).2)
    decreases if i < |s| then |s| - i else 0
  {
    if i < |s| {
      var c := s[i];
      if c == '"' {
      } else if c == '\\' && i + 1 < |s| && s[i + 1] in "$`\"\\\n" {
        DoubleQuotedGrows(s, i + 2, w.Add([s[i + 1]]), scan);
      } else if c == '`' {
        DoubleQuotedGrows(s, i + 1, w.(dynamic := true), scan.Opaque(CommandSubstitution));
      } else if c == '$' {
        var r := Expansion(s, i, w, scan, true);
        ExpansionGrows(s, i, w, scan, true);
        DoubleQuotedGrows(s, r.0, r.1, r.2);
      } else {
        DoubleQuotedGrows(s, i + 1, w.Add([c]), scan);
      }
    }
  }

  lemma ExpansionGrows(s: string, i: nat, w: Word, scan: CommandScan, inQuotes: bool)
    requires i < |s|
    ensures Noted(scan, Expansion(s, i, w, scan, inQuotes).2)
  {
    hide IsSimpleBraced, IsSpecialParam, IsNameStart, AnsiEnd;
  }

  lemma {:induction false} HeredocsGrow(s: string, i: nat, heredocs: seq<Heredoc>, scan: CommandScan)
    ensures Noted(scan, SkipHeredocs(s, i, heredocs, scan).1)
    decreases |heredocs|
  {
    if heredocs != [] {
      hide HeredocBody, Contains;
      var (j, text) := HeredocBody(s, i, heredocs[0], "", true);
      HeredocsGrow(s, j, heredocs[1..], scan);
      HeredocsGrow(s, j, heredocs[1..], scan.Opaque(HeredocExpansion));
    }
  }

  lemma DescriptorGrows(l: Lexer, c: char)
    ensures Noted(l.scan, TakeDescriptor(l, c).Flush().scan)
  {
    hide FdVariable, IsNumber;
  }

  lemma OperatorGrows(s: string, l: Lexer)
    requires l.i < |s| && IsOperatorChar(s[l.i])
    ensures Noted(l.scan, Operator(s, l).scan)
  {
    hide *;
    DescriptorGrows(l, s[l.i]);
    var f, op := TakeDescriptor(l, s[l.i]).Flush(), OperatorAt(s, l.i);
    ReportsGrow(s, l.i, op, f.scan);
    var found := OperatorReports(s, l.i, op, f.scan);
    NotedTrans(l.scan, f.scan, found);
    HeredocsGrow(s, l.i + |op|, f.heredocs, found);
    NotedTrans(l.scan, found, SkipHeredocs(s, l.i + |op|, f.heredocs, found).1);
    OperatorScan(s, l);
  }

  lemma OperatorScan(s: string, l: Lexer)
    requires l.i < |s| && IsOperatorChar(s[l.i])
    ensures var f, op := TakeDescriptor(l, s[l.i]).Flush(), OperatorAt(s, l.i);
            var found := OperatorReports(s, l.i, op, f.scan);
            Operator(s, l).scan ==
              if op == "\n" && f.heredocs != [] then SkipHeredocs(s, l.i + |op|, f.heredocs, found).1 else found
  {
    hide OperatorAt, StartsWith, TakeDescriptor, Lexer.Flush, SkipHeredocs, OperatorReports;
  }

  lemma ReportsGrow(s: string, i: nat, op: string, scan: CommandScan)
    requires i < |s|
    ensures Noted(scan, OperatorReports(s, i, op, scan))
  {
    hide StartsWith;
  }

  /** Reading on forgets nothing. */
  lemma StepGrows(s: string, l: Lexer)
    requires l.i < |s|
    ensures Noted(l.scan, Step(s, l).scan)
  {
    hide Operator, DoubleQuoted, Expansion, Find, Standalone, StartsWith;
    if IsOperatorChar(s[l.i]) { OperatorGrows(s, l); }
    DoubleQuotedGrows(s, l.i + 1, l.Begin(true), l.scan);
    ExpansionGrows(s, l.i, l.Begin(true), l.scan, false);
  }

  lemma {:induction false} LexGrows(s: string, l: Lexer)
    ensures Noted(l.scan, Lex(s, l).scan)
    decreases if l.i < |s| then |s| - l.i else 0
  {
    if l.i < |s| {
      hide Step;
      StepGrows(s, l);
      LexGrows(s, Step(s, l));
    }
  }

  // ----- the analysis -----

  lemma AnalyzeGrows(words: seq<Word>, scan: CommandScan)
    ensures Grew(scan, Analyze(words, scan))
  {
    hide Analyze, Effect;
    AnalyzeAdds(words, scan);
  }

  lemma RedirectionGrows(op: string, target: Word, scan: CommandScan)
    ensures Grew(scan, Redirection(op, target, scan))
  {
    hide StartsWith, IsNumber;
  }

  /** Nor does going over the tokens. */
  lemma {:induction false} TokensGrow(tokens: seq<Token>, words: seq<Word>, redirect: Option<string>,
                                      previous: Option<Token>,
                                      scan: CommandScan)
    ensures Grew(scan, ScanTokens(tokens, words, redirect, previous, scan))
    decreases |tokens|
  {
    hide Analyze, Redirection, IsRedirect;
    AnalyzeGrows(words, scan);
    if tokens != [] {
      var t := tokens[0];
      var scan1 := if t == Op(")") && previous == Some(Op("(")) then scan.(repeats := true) else scan;
      match t
      case Text(w) =>
        if redirect.Some? {
          RedirectionGrows(redirect.value, w, scan1);
          TokensGrow(tokens[1..], words, None, Some(t), Redirection(redirect.value, w, scan1));
        } else {
          TokensGrow(tokens[1..], words + [w], None, Some(t), scan1);
        }
      case Op(op) =>
        if IsRedirect(op) {
          TokensGrow(tokens[1..], words, Some(op), Some(t), scan1);
        } else {
          AnalyzeGrows(words, scan1);
          TokensGrow(tokens[1..], [], redirect, Some(t), Analyze(words, scan1));
        }
    }
  }

  // ----- what is always reported -----

  /** The scan of a whole command. */
  function Scanned(s: string): CommandScan {
    ScanTokens(Lex(s, START).tokens, [], None, None, Lex(s, START).scan)
  }

  /** A command substitution or an arithmetic expansion begins here. */
  predicate RunsCodeAt(s: string, i: nat) {
    i < |s| && (s[i] == '`' || (s[i] == '$' && i + 1 < |s| && s[i + 1] in "(["))
  }

  /** Once the pass has something to report, the scan has. */
  lemma ReportStays(s: string, l: Lexer)
    requires Lex(s, START) == Lex(s, l) && l.scan.opacity != []
    ensures Scanned(s).opacity != []
  {
    LexGrows(s, l);
    TokensGrow(Lex(s, START).tokens, [], None, None, Lex(s, START).scan);
  }

  lemma StepReports(s: string, l: Lexer)
    requires RunsCodeAt(s, l.i)
    ensures Step(s, l).scan.opacity != []
  {
    hide Operator, DoubleQuoted, Find, Standalone, StartsWith;
  }

  lemma ReportedFrom(s: string, l: Lexer)
    requires Lex(s, START) == Lex(s, l) && RunsCodeAt(s, l.i)
    ensures Scanned(s).opacity != []
  {
    hide Lex, Step, Scanned;
    StepReports(s, l);
    LexOne(s, l);
    ReportStays(s, Step(s, l));
  }

  /** The state of the pass after k rounds, or at its end. */
  ghost function AfterSteps(s: string, k: nat): Lexer {
    if k == 0 then START
    else
      var l := AfterSteps(s, k - 1);
      if l.i < |s| then Step(s, l) else l
  }

  lemma OneMoreStep(s: string, k: nat)
    ensures k == 0 ==> AfterSteps(s, k) == START
    ensures k > 0 ==> var l := AfterSteps(s, k - 1); AfterSteps(s, k) == if l.i < |s| then Step(s, l) else l
  {
    hide Step;
  }

  lemma {:induction false} LexAfterSteps(s: string, k: nat)
    ensures Lex(s, AfterSteps(s, k)) == Lex(s, START)
  {
    hide *;
    OneMoreStep(s, k);
    if k > 0 {
      LexAfterSteps(s, k - 1);
      if AfterSteps(s, k - 1).i < |s| { LexOne(s, AfterSteps(s, k - 1)); }
    }
  }

  /**
    Whatever comes before and however the command goes on: if the pass ever stands
    at a substitution, outside of quotes and comments, the scan reports it.
   */
  lemma SubstitutionIsReported(s: string, k: nat)
    requires RunsCodeAt(s, AfterSteps(s, k).i)
    ensures Scanned(s).opacity != []
  {
    LexAfterSteps(s, k);
    ReportedFrom(s, AfterSteps(s, k));
  }

  /** So behind plain words, which the pass always gets over. */
  lemma PlainSubstitutionIsReported(s: string, n: nat)
    requires PlainUpTo(s, n) && RunsCodeAt(s, n)
    ensures Scanned(s).opacity != []
  {
    assert At(0, "", []) == START;
    hide *;
    var cur, tokens := LexReaches(s, n, 0, "", []);
    AtIndex(n, cur, tokens);
    ReportedFrom(s, At(n, cur, tokens));
  }

  lemma AtIndex(n: nat, cur: string, tokens: seq<Token>)
    ensures At(n, cur, tokens).i == n
  {
  }

  // ----- between double quotes -----

  /** From one character between double quotes to the next one looked at. */
  ghost function QuotedNext(s: string, i: nat): (j: nat)
    requires i < |s| && s[i] != '"'
    ensures j > i
  {
    if s[i] == '\\' && i + 1 < |s| && s[i + 1] in "$`\"\\\n" then i + 2
    else if s[i] == '$' then Expansion(s, i, Word("", false, false, false, None), EMPTY_SCAN, true).0
    else i + 1
  }

  /** The span that i is in goes on to n: no quote closes it before. */
  ghost predicate QuotedUpTo(s: string, i: nat, n: nat)
    decreases n - i
  {
    i == n || (i < n && i < |s| && s[i] != '"' && QuotedUpTo(s, QuotedNext(s, i), n))
  }

  lemma {:induction false} QuotedReports(s: string, i: nat, n: nat, w: Word, scan: CommandScan)
    requires QuotedUpTo(s, i, n) && RunsCodeAt(s, n)
    ensures DoubleQuoted(s, i, w, scan).2.opacity != []
    decreases n - i
  {
    if i < n {
      var c := s[i];
      if c == '\\' && i + 1 < |s| && s[i + 1] in "$`\"\\\n" {
        QuotedReports(s, i + 2, n, w.Add([s[i + 1]]), scan);
      } else if c == '`' {
        QuotedReports(s, i + 1, n, w.(dynamic := true), scan.Opaque(CommandSubstitution));
      } else if c == '$' {
        var r := Expansion(s, i, w, scan, true);
        assert r.0 == QuotedNext(s, i);
        QuotedReports(s, r.0, n, r.1, r.2);
      } else {
        QuotedReports(s, i + 1, n, w.Add([c]), scan);
      }
    } else if s[i] == '`' {
      DoubleQuotedGrows(s, i + 1, w.(dynamic := true), scan.Opaque(CommandSubstitution));
    } else {
      var r := Expansion(s, i, w, scan, true);
      assert r.2.opacity != [];
      DoubleQuotedGrows(s, r.0, r.1, r.2);
    }
  }

  lemma QuoteStepReports(s: string, l: Lexer, n: nat)
    requires l.i < |s| && s[l.i] == '"' && QuotedUpTo(s, l.i + 1, n) && RunsCodeAt(s, n)
    ensures Step(s, l).scan.opacity != []
  {
    QuotedReports(s, l.i + 1, n, l.Begin(true), l.scan);
    hide Operator, DoubleQuoted, Find, Standalone, StartsWith, Expansion;
  }

  /** Double quotes do not hide one, whatever else is between them and wherever they open. */
  lemma QuotedSubstitutionIsReported(s: string, k: nat, n: nat)
    requires var q := AfterSteps(s, k).i;
             q < |s| && s[q] == '"' && QuotedUpTo(s, q + 1, n) && RunsCodeAt(s, n)
    ensures Scanned(s).opacity != []
  {
    var l := AfterSteps(s, k);
    LexAfterSteps(s, k);
    hide AfterSteps, Lex, Step, Scanned, QuotedUpTo;
    QuoteStepReports(s, l, n);
    LexOne(s, l);
    ReportStays(s, Step(s, l));
  }
}
