/** What the scan of a whole command string lists, in terms of its tokens. */
module ShellListing {
  import opened Wrappers
  import opened ShellScan
  import opened ShellEffects
  import opened ShellReports

  const REDIRECTIONS := {"&>>", "<<<", "<<-", "<<", ">>", "<&", ">&", "&>", ">|", "<>", "<", ">"}

  lemma RedirectionsAre(op: string)
    ensures IsRedirect(op) <==> op in REDIRECTIONS
  {
  }

  // ----- redirections -----

  /** Operator j redirects to word k: between them there is neither a word nor another redirection. */
  predicate RedirectsTo(tokens: seq<Token>, j: nat, k: nat) {
    && j < k < |tokens| && tokens[j].Op? && tokens[j].op in REDIRECTIONS && tokens[k].Text?
    && forall m {:trigger tokens[m]} :: j < m < k ==> tokens[m].Op? && tokens[m].op !in REDIRECTIONS
  }

  /** The redirection is to a file, rather than to text that follows or to a descriptor. */
  predicate IsFile(op: string, target: Word) {
    || op in {">", ">>", ">|", "<", "<>", "&>", "&>>"}
    || (op == ">&" && (target.dynamic || (!Numeric(target.text) && target.text != "-")))
  }

  predicate Numeric(text: string) {
    text != "" && forall c :: c in text ==> '0' <= c <= '9'
  }

  predicate BeginsAtHome(target: Word) {
    !target.quoted && target.text != "" && target.text[0] == '~'
  }

  predicate IsLiteral(target: Word) {
    !target.dynamic && !BeginsAtHome(target)
  }

  predicate FileAt(tokens: seq<Token>, j: nat, k: nat) {
    RedirectsTo(tokens, j, k) && IsFile(tokens[j].op, tokens[k].word)
  }

  predicate LiteralFileAt(tokens: seq<Token>, j: nat, k: nat) {
    FileAt(tokens, j, k) && IsLiteral(tokens[k].word)
  }

  /** The listed pairs are the redirections to literal files, in order, operator and text. */
  ghost predicate ListsFiles(tokens: seq<Token>, listed: seq<(string, string)>) {
    exists from: seq<nat>, at: seq<nat> {:trigger ListsFilesAt(tokens, listed, from, at, |tokens|)} ::
      ListsFilesAt(tokens, listed, from, at, |tokens|)
  }

  /** Up to position n. */
  ghost predicate ListsFilesAt(tokens: seq<Token>, listed: seq<(string, string)>, from: seq<nat>, at: seq<nat>, n: nat)
  {
    && |listed| == |from| == |at|
    && (forall m {:trigger at[m]} :: 0 <= m < |at| ==> at[m] < n && ListedAt(tokens, listed[m], from[m], at[m]))
    && (forall m, m' {:trigger at[m], at[m']} :: 0 <= m < m' < |at| ==> at[m] < at[m'])
    && forall j: nat, k: nat {:trigger LiteralFileAt(tokens, j, k)} ::
         k < n && LiteralFileAt(tokens, j, k) ==> k in at
  }

  predicate ListedAt(tokens: seq<Token>, listed: (string, string), j: nat, k: nat) {
    LiteralFileAt(tokens, j, k) && listed == (tokens[j].op, tokens[k].word.text)
  }

  /** From n on, a redirection is to a file that is computed at run time. */
  ghost predicate ComputesFile(tokens: seq<Token>, n: nat) {
    exists j: nat, k: nat {:trigger FileAt(tokens, j, k)} :: k >= n && FileAt(tokens, j, k) && tokens[k].word.dynamic
  }

  /** From n on, one is to a literal path that begins at a home directory. */
  ghost predicate NamesHome(tokens: seq<Token>, n: nat) {
    exists j: nat, k: nat {:trigger FileAt(tokens, j, k)} ::
      k >= n && FileAt(tokens, j, k) && !tokens[k].word.dynamic && BeginsAtHome(tokens[k].word)
  }

  // ----- commands -----

  /** The simple commands of these tokens, in order; the first goes on with the words before them. */
  function CommandsIn(tokens: seq<Token>, words: seq<Word>, redirect: bool): seq<seq<Word>> {
    if tokens == [] then [words]
    else
      match tokens[0]
      case Text(w) => CommandsIn(tokens[1..], if redirect then words else words + [w], false)
      case Op(op) =>
        if op in REDIRECTIONS then CommandsIn(tokens[1..], words, true)
        else [words] + CommandsIn(tokens[1..], [], redirect)
  }

  /** What the analyses of these commands find, one after the other. */
  function Effects(commands: seq<seq<Word>>): CommandScan {
    if commands == [] then EMPTY_SCAN else And(Effect(commands[0]), Effects(commands[1..]))
  }

  // ----- going over the tokens -----

  /** Behind the first n tokens, a word would be the target of this redirection: of operator j, or of none. */
  ghost predicate Awaits(tokens: seq<Token>, n: nat, redirect: Option<string>, j: nat)
    requires n <= |tokens|
  {
    if redirect.None?
    then forall i: nat, k: nat {:trigger RedirectsTo(tokens, i, k)} :: i < n <= k ==> !RedirectsTo(tokens, i, k)
    else
      && j < n && tokens[j] == Op(redirect.value) && redirect.value in REDIRECTIONS
      && forall m {:trigger tokens[m]} :: j < m < n ==> tokens[m].Op? && tokens[m].op !in REDIRECTIONS
  }

  lemma WordTaken(tokens: seq<Token>, n: nat, redirect: Option<string>, j: nat)
    requires n < |tokens| && tokens[n].Text? && Awaits(tokens, n, redirect, j)
    ensures forall i: nat {:trigger RedirectsTo(tokens, i, n)} ::
              RedirectsTo(tokens, i, n) <==> redirect.Some? && i == j
    ensures Awaits(tokens, n + 1, None, 0)
  {
  }

  lemma OperatorTaken(tokens: seq<Token>, n: nat, redirect: Option<string>, j: nat)
    requires n < |tokens| && tokens[n].Op? && Awaits(tokens, n, redirect, j)
    ensures forall i: nat {:trigger RedirectsTo(tokens, i, n)} :: !RedirectsTo(tokens, i, n)
    ensures if tokens[n].op in REDIRECTIONS then Awaits(tokens, n + 1, Some(tokens[n].op), n)
            else Awaits(tokens, n + 1, redirect, j)
  {
  }

  predicate Closes(t: Token, previous: Option<Token>) {
    t == Op(")") && previous == Some(Op("("))
  }

  lemma ScanNext(tokens: seq<Token>, n: nat, words: seq<Word>, redirect: Option<string>, previous: Option<Token>,
                 scan: CommandScan)
    requires n < |tokens|
    ensures var (t, rest) := (tokens[n], tokens[n + 1..]);
            var scan1 := if Closes(t, previous) then scan.(repeats := true) else scan;
            ScanTokens(tokens[n..], words, redirect, previous, scan) ==
              match t
              case Text(w) =>
                if redirect.Some? then ScanTokens(rest, words, None, Some(t), Redirection(redirect.value, w, scan1))
                else ScanTokens(rest, words + [w], None, Some(t), scan1)
              case Op(op) =>
                if op in REDIRECTIONS then ScanTokens(rest, words, Some(op), Some(t), scan1)
                else ScanTokens(rest, [], redirect, Some(t), Analyze(words, scan1))
  {
    assert tokens[n..][1..] == tokens[n + 1..];
    hide Redirection, Analyze, IsRedirect;
    if tokens[n].Op? { RedirectionsAre(tokens[n].op); }
  }

  lemma ScanEnd(words: seq<Word>, redirect: Option<string>, previous: Option<Token>, scan: CommandScan)
    ensures ScanTokens([], words, redirect, previous, scan) == Analyze(words, scan)
  {
    hide Analyze;
  }

  lemma CommandsNext(tokens: seq<Token>, n: nat, words: seq<Word>, redirect: bool)
    requires n < |tokens|
    ensures CommandsIn(tokens[n..], words, redirect) ==
              match tokens[n]
              case Text(w) => CommandsIn(tokens[n + 1..], if redirect then words else words + [w], false)
              case Op(op) =>
                if op in REDIRECTIONS then CommandsIn(tokens[n + 1..], words, true)
                else [words] + CommandsIn(tokens[n + 1..], [], redirect)
  {
    assert tokens[n..][1..] == tokens[n + 1..];
  }

  lemma EffectsCons(words: seq<Word>, rest: seq<seq<Word>>)
    ensures Effects([words] + rest) == And(Effect(words), Effects(rest))
    ensures Effects([words]) == Effect(words)
  {
    hide Effect, And;
    assert ([words] + rest)[1..] == rest && [words][1..] == [];
    AndNothing(Effect(words));
  }

  /** A redirection is listed, reported or left alone. */
  lemma RedirectionIs(op: string, target: Word, scan: CommandScan)
    requires op in REDIRECTIONS
    ensures Redirection(op, target, scan) ==
            if !IsFile(op, target) then scan
            else if target.dynamic then scan.Opaque(ComputedTarget)
            else if BeginsAtHome(target) then scan.Opaque(TildeTarget)
            else scan.(redirects := scan.redirects + [(op, target.text)])
  {
    assert IsNumber(target.text) <==> Numeric(target.text) by {
      if IsNumber(target.text) {
        forall c | c in target.text ensures '0' <= c <= '9' { assert IsDigit(c); }
      }
    }
    hide IsNumber, Numeric;
    assert target.text != "" ==> target.text[0..1] == [target.text[0]];
  }

  // ----- the redirections that are listed -----

  lemma ListsOne(tokens: seq<Token>, listed: seq<(string, string)>, from: seq<nat>, at: seq<nat>, j: nat, n: nat)
    requires n < |tokens| && ListsFilesAt(tokens, listed, from, at, n) && LiteralFileAt(tokens, j, n)
    requires forall i: nat {:trigger RedirectsTo(tokens, i, n)} :: RedirectsTo(tokens, i, n) <==> i == j
    ensures ListsFilesAt(tokens, listed + [(tokens[j].op, tokens[n].word.text)], from + [j], at + [n], n + 1)
  {
    var at' := at + [n];
    hide RedirectsTo, IsFile, IsLiteral;
    forall i: nat, k: nat | k < n + 1 && LiteralFileAt(tokens, i, k) ensures k in at' {
      if k == n { assert at'[|at|] == n; }
    }
  }

  lemma ListsNone(tokens: seq<Token>, listed: seq<(string, string)>, from: seq<nat>, at: seq<nat>, n: nat)
    requires n < |tokens| && ListsFilesAt(tokens, listed, from, at, n)
    requires forall i: nat {:trigger LiteralFileAt(tokens, i, n)} :: !LiteralFileAt(tokens, i, n)
    ensures ListsFilesAt(tokens, listed, from, at, n + 1)
  {
    hide LiteralFileAt;
  }

  /** What the word at n does to the list. */
  lemma WordLists(tokens: seq<Token>, n: nat, redirect: Option<string>, j: nat, scan: CommandScan, scan1: CommandScan,
                  from: seq<nat>, at: seq<nat>)
    returns (from': seq<nat>, at': seq<nat>)
    requires n < |tokens| && tokens[n].Text? && Awaits(tokens, n, redirect, j)
    requires ListsFilesAt(tokens, scan.redirects, from, at, n)
    requires scan1 == if redirect.Some? then Redirection(redirect.value, tokens[n].word, scan) else scan
    ensures ListsFilesAt(tokens, scan1.redirects, from', at', n + 1)
  {
    WordTaken(tokens, n, redirect, j);
    if redirect.Some? { RedirectionIs(redirect.value, tokens[n].word, scan); }
    hide RedirectsTo, IsFile, BeginsAtHome, ListsFilesAt, Redirection, REDIRECTIONS;
    if redirect.Some? && LiteralFileAt(tokens, j, n) {
      ListsOne(tokens, scan.redirects, from, at, j, n);
      return from + [j], at + [n];
    }
    forall i: nat ensures !LiteralFileAt(tokens, i, n) {
      assert RedirectsTo(tokens, i, n) <==> redirect.Some? && i == j;
    }
    ListsNone(tokens, scan.redirects, from, at, n);
    return from, at;
  }

  lemma OperatorLists(tokens: seq<Token>, n: nat, listed: seq<(string, string)>, from: seq<nat>, at: seq<nat>)
    requires n < |tokens| && tokens[n].Op? && ListsFilesAt(tokens, listed, from, at, n)
    ensures ListsFilesAt(tokens, listed, from, at, n + 1)
  {
    hide ListsFilesAt;
    ListsNone(tokens, listed, from, at, n);
  }

  /** The analysis of a command has no part in it. */
  lemma SameRedirects(words: seq<Word>, scan: CommandScan)
    ensures Analyze(words, scan).redirects == scan.redirects
    ensures scan.(repeats := true).redirects == scan.redirects
  {
    hide Effect, Analyze;
    AnalyzeAdds(words, scan);
  }

  lemma {:induction false} TokensListFiles(tokens: seq<Token>, n: nat, words: seq<Word>, redirect: Option<string>,
                                           j: nat, previous: Option<Token>, scan: CommandScan,
                                           from: seq<nat>, at: seq<nat>)
    requires n <= |tokens| && Awaits(tokens, n, redirect, j) && ListsFilesAt(tokens, scan.redirects, from, at, n)
    ensures ListsFiles(tokens, ScanTokens(tokens[n..], words, redirect, previous, scan).redirects)
    decreases |tokens| - n
  {
    hide *;
    if n == |tokens| {
      assert tokens[n..] == [];
      ScanEnd(words, redirect, previous, scan);
      SameRedirects(words, scan);
      ListsAll(tokens, scan.redirects, from, at);
    } else {
      var t, again := tokens[n], scan.(repeats := true);
      var scan1 := if Closes(t, previous) then again else scan;
      ScanNext(tokens, n, words, redirect, previous, scan);
      SameRedirects(words, scan1);
      SameRedirects(words, scan);
      match t
      case Text(w) =>
        WordTaken(tokens, n, redirect, j);
        var scan2 := if redirect.Some? then Redirection(redirect.value, w, scan1) else scan1;
        var from', at' := WordLists(tokens, n, redirect, j, scan1, scan2, from, at);
        var words' := if redirect.Some? then words else words + [w];
        TokensListFiles(tokens, n + 1, words', None, 0, Some(t), scan2, from', at');
      case Op(op) =>
        OperatorTaken(tokens, n, redirect, j);
        OperatorLists(tokens, n, scan.redirects, from, at);
        if op in REDIRECTIONS {
          TokensListFiles(tokens, n + 1, words, Some(op), n, Some(t), scan1, from, at);
        } else {
          TokensListFiles(tokens, n + 1, [], redirect, j, Some(t), Analyze(words, scan1), from, at);
        }
    }
  }

  lemma ListsAll(tokens: seq<Token>, listed: seq<(string, string)>, from: seq<nat>, at: seq<nat>)
    requires ListsFilesAt(tokens, listed, from, at, |tokens|)
    ensures ListsFiles(tokens, listed)
  {
    hide ListsFilesAt;
  }

  /** Of the redirections in a command string, the scan lists exactly those to literal files, in order. */
  lemma ScanListsFiles(command: string)
    ensures ListsFiles(Lex(command, START).tokens, Scanned(command).redirects)
  {
    LexGrows(command, START);
    ScannedIs(command);
    var l := Lex(command, START);
    NothingYet(l.tokens);
    assert l.tokens[0..] == l.tokens && l.scan.redirects == START.scan.redirects;
    assert START.scan.redirects == [];
    hide *;
    TokensListFiles(l.tokens, 0, [], None, 0, None, l.scan, [], []);
  }

  // ----- everything else that is found -----

  /** From n on, a closing parenthesis right behind the opening one: a function is defined. */
  ghost predicate DefinesFunction(tokens: seq<Token>, n: nat) {
    exists k: nat {:trigger tokens[k]} ::
      && n <= k < |tokens| && tokens[k] == Op(")")
      && k > 0 && var before := tokens[k - 1]; before == Op("(")
  }

  /** What is found from n on: what the commands add, in order, and what redirections have to be reported. */
  ghost predicate FindsFrom(tokens: seq<Token>, n: nat, e: CommandScan, scan: CommandScan, scan': CommandScan) {
    && scan'.programs == scan.programs + e.programs
    && scan'.assignments == scan.assignments + e.assignments
    && scan'.directories == scan.directories + e.directories
    && (scan'.repeats <==> scan.repeats || e.repeats || DefinesFunction(tokens, n))
    && (forall r :: r in scan'.opacity <==> r in scan.opacity || r in e.opacity || ReportsTarget(tokens, n, r))
  }

  ghost predicate ReportsTarget(tokens: seq<Token>, n: nat, r: Reason) {
    (r == ComputedTarget && ComputesFile(tokens, n)) || (r == TildeTarget && NamesHome(tokens, n))
  }

  lemma DefinesNext(tokens: seq<Token>, n: nat, previous: Option<Token>)
    requires n < |tokens| && previous == if n == 0 then None else Some(tokens[n - 1])
    ensures DefinesFunction(tokens, n) <==> Closes(tokens[n], previous) || DefinesFunction(tokens, n + 1)
  {
  }

  /** The report the word at n calls for, if any. */
  ghost predicate ReportsAt(tokens: seq<Token>, n: nat, redirect: Option<string>, j: nat, r: Reason) {
    && redirect.Some? && FileAt(tokens, j, n)
    && if tokens[n].word.dynamic then r == ComputedTarget else r == TildeTarget && BeginsAtHome(tokens[n].word)
  }

  lemma ReportsNext(tokens: seq<Token>, n: nat, redirect: Option<string>, j: nat, r: Reason)
    requires n < |tokens| && Awaits(tokens, n, redirect, j)
    ensures ReportsTarget(tokens, n, r) <==> ReportsAt(tokens, n, redirect, j, r) || ReportsTarget(tokens, n + 1, r)
  {
    if tokens[n].Text? { WordTaken(tokens, n, redirect, j); }
    hide RedirectsTo, IsFile, BeginsAtHome, Awaits;
    forall i: nat, k: nat | k >= n && FileAt(tokens, i, k)
      ensures k > n || (redirect.Some? && i == j && tokens[n].Text?)
    {
      assert RedirectsTo(tokens, i, k);
    }
  }

  /** What the word at n has to report. */
  lemma WordReports(tokens: seq<Token>, n: nat, redirect: Option<string>, j: nat, scan: CommandScan, r: Reason)
    requires n < |tokens| && tokens[n].Text? && Awaits(tokens, n, redirect, j) && redirect.Some?
    ensures var scan1 := Redirection(redirect.value, tokens[n].word, scan);
            && (r in scan1.opacity <==> r in scan.opacity || ReportsAt(tokens, n, redirect, j, r))
            && scan1 == scan.(opacity := scan1.opacity, redirects := scan1.redirects)
  {
    WordTaken(tokens, n, redirect, j);
    RedirectionIs(redirect.value, tokens[n].word, scan);
    assert RedirectsTo(tokens, j, n);
    hide RedirectsTo, IsFile, BeginsAtHome, Redirection;
  }

  lemma FindsWord(tokens: seq<Token>, n: nat, redirect: Option<string>, j: nat, previous: Option<Token>,
                  e: CommandScan, scan: CommandScan, scan': CommandScan)
    requires n < |tokens| && tokens[n].Text? && Awaits(tokens, n, redirect, j)
    requires previous == if n == 0 then None else Some(tokens[n - 1])
    requires var scan1 := if redirect.Some? then Redirection(redirect.value, tokens[n].word, scan) else scan;
             FindsFrom(tokens, n + 1, e, scan1, scan')
    ensures FindsFrom(tokens, n, e, scan, scan')
  {
    DefinesNext(tokens, n, previous);
    if redirect.Some? { WordReports(tokens, n, redirect, j, scan, ComputedTarget); }
    hide DefinesFunction, ReportsTarget, ReportsAt, Awaits, Redirection;
    forall r ensures r in scan'.opacity <==> r in scan.opacity || r in e.opacity || ReportsTarget(tokens, n, r) {
      ReportsNext(tokens, n, redirect, j, r);
      if redirect.Some? { WordReports(tokens, n, redirect, j, scan, r); } else { NothingReported(tokens, n, j, r); }
    }
  }

  lemma NothingReported(tokens: seq<Token>, n: nat, j: nat, r: Reason)
    ensures !ReportsAt(tokens, n, None, j, r)
  {
  }

  lemma FindsOperator(tokens: seq<Token>, n: nat, redirect: Option<string>, j: nat, previous: Option<Token>,
                      e: CommandScan, scan: CommandScan, scan': CommandScan)
    requires n < |tokens| && tokens[n].Op? && Awaits(tokens, n, redirect, j)
    requires previous == if n == 0 then None else Some(tokens[n - 1])
    requires var scan1 := if Closes(tokens[n], previous) then scan.(repeats := true) else scan;
             FindsFrom(tokens, n + 1, e, scan1, scan')
    ensures FindsFrom(tokens, n, e, scan, scan')
  {
    DefinesNext(tokens, n, previous);
    hide DefinesFunction, ReportsTarget, Awaits;
    forall r ensures ReportsTarget(tokens, n, r) <==> ReportsTarget(tokens, n + 1, r) {
      ReportsNext(tokens, n, redirect, j, r);
      NoWordNoReport(tokens, n, redirect, j, r);
    }
  }

  lemma NoWordNoReport(tokens: seq<Token>, n: nat, redirect: Option<string>, j: nat, r: Reason)
    requires n < |tokens| && tokens[n].Op?
    ensures !ReportsAt(tokens, n, redirect, j, r)
  {
  }

  /** The analysis of a command comes before what follows. */
  lemma FindsCommand(tokens: seq<Token>, n: nat, words: seq<Word>, rest: seq<seq<Word>>, scan: CommandScan,
                     scan': CommandScan)
    requires FindsFrom(tokens, n, Effects(rest), Analyze(words, scan), scan')
    ensures FindsFrom(tokens, n, Effects([words] + rest), scan, scan')
  {
    hide Analyze, Effect, Effects, DefinesFunction, ReportsTarget;
    AnalyzeAdds(words, scan);
    EffectsCons(words, rest);
  }

  lemma {:induction false} TokensFind(tokens: seq<Token>, n: nat, words: seq<Word>, redirect: Option<string>, j: nat,
                                      previous: Option<Token>, scan: CommandScan)
    requires n <= |tokens| && Awaits(tokens, n, redirect, j)
    requires previous == if n == 0 then None else Some(tokens[n - 1])
    ensures FindsFrom(tokens, n, Effects(CommandsIn(tokens[n..], words, redirect.Some?)), scan,
                      ScanTokens(tokens[n..], words, redirect, previous, scan))
    decreases |tokens| - n
  {
    hide *;
    if n == |tokens| {
      assert tokens[n..] == [];
      EndFinds(tokens, words, redirect, previous, scan);
    } else {
      var t, again := tokens[n], scan.(repeats := true);
      var scan1 := if Closes(t, previous) then again else scan;
      var all, rest := ScanTokens(tokens[n..], words, redirect, previous, scan), tokens[n + 1..];
      ScanNext(tokens, n, words, redirect, previous, scan);
      CommandsNext(tokens, n, words, redirect.Some?);
      match t
      case Text(w) =>
        WordTaken(tokens, n, redirect, j);
        WordCloses(w, previous);
        var words' := if redirect.Some? then words else words + [w];
        TokensFind(tokens, n + 1, words', None, 0, Some(t),
                   if redirect.Some? then Redirection(redirect.value, w, scan) else scan);
        FindsWord(tokens, n, redirect, j, previous, Effects(CommandsIn(rest, words', false)), scan, all);
      case Op(op) =>
        OperatorTaken(tokens, n, redirect, j);
        if op in REDIRECTIONS {
          TokensFind(tokens, n + 1, words, Some(op), n, Some(t), scan1);
          FindsOperator(tokens, n, redirect, j, previous, Effects(CommandsIn(rest, words, true)), scan, all);
        } else {
          var commands := CommandsIn(rest, [], redirect.Some?);
          TokensFind(tokens, n + 1, [], redirect, j, Some(t), Analyze(words, scan1));
          FindsCommand(tokens, n + 1, words, commands, scan1, all);
          FindsOperator(tokens, n, redirect, j, previous, Effects([words] + commands), scan, all);
        }
    }
  }

  lemma WordCloses(w: Word, previous: Option<Token>)
    ensures !Closes(Text(w), previous)
  {
  }

  lemma EndFinds(tokens: seq<Token>, words: seq<Word>, redirect: Option<string>, previous: Option<Token>,
                 scan: CommandScan)
    ensures FindsFrom(tokens, |tokens|, Effects(CommandsIn([], words, redirect.Some?)), scan,
                      ScanTokens([], words, redirect, previous, scan))
  {
    ScanEnd(words, redirect, previous, scan);
    EffectsCons(words, []);
    AnalyzeAdds(words, scan);
    hide Analyze, Effect, Effects, ScanTokens;
    assert CommandsIn([], words, redirect.Some?) == [words];
  }

  /**
    Beyond what the pass over the characters noted, the scan of a command string
    finds what its simple commands add, in order, and reports the redirections to
    files that it cannot list.
   */
  lemma ScanFinds(command: string)
    ensures var l := Lex(command, START);
            FindsFrom(l.tokens, 0, Effects(CommandsIn(l.tokens, [], false)), l.scan, Scanned(command))
  {
    ScannedIs(command);
    var l := Lex(command, START);
    NothingYet(l.tokens);
    assert l.tokens[0..] == l.tokens;
    hide *;
    TokensFind(l.tokens, 0, [], None, 0, None, l.scan);
  }

  lemma NothingYet(tokens: seq<Token>)
    ensures Awaits(tokens, 0, None, 0) && ListsFilesAt(tokens, [], [], [], 0)
  {
  }

  lemma ScannedIs(command: string)
    ensures Scanned(command) == ScanTokens(Lex(command, START).tokens, [], None, None, Lex(command, START).scan)
  {
  }
}
