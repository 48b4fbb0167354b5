/** What the scan makes of commands of plain words. */
module ShellPlain {
  import opened Wrappers
  import opened ShellScan

  // ----- the commands -----

  predicate IsSeparator(c: char) {
    c in ";&|\n"
  }

  /** A character with no meaning of its own to the shell, at least not without quotes. */
  predicate IsPlain(c: char) {
    !IsBlank(c) && !IsOperatorChar(c) && c !in "'\"\\`$#*?[{}"
  }

  /** Up to n, plain words, blanks, and ; & | && || and newlines between commands. */
  ghost predicate PlainUpTo(s: string, n: nat) {
    && n <= |s|
    && (forall k :: 0 <= k < n ==> IsPlain(s[k]) || IsBlank(s[k]) || IsSeparator(s[k]))
    && (forall k :: 0 <= k < n ==> !StartsWith(s, ";;", k))
    && (n < |s| ==> !IsOperatorChar(s[n]))
  }

  ghost predicate PlainCommand(s: string) {
    PlainUpTo(s, |s|)
  }

  /** The length of the run of plain characters at the start. */
  function WordLength(s: string): (n: nat)
    ensures n <= |s| && (s != "" && IsPlain(s[0]) ==> n > 0)
  {
    if s == "" || !IsPlain(s[0]) then 0 else 1 + WordLength(s[1..])
  }

  /**
    The first word of each command. seen: the command's first word has gone by.
   */
  function Heads(s: string, seen: bool): seq<string>
    decreases |s|
  {
    if s == "" then []
    else if IsPlain(s[0]) then
      (if seen then [] else [s[..WordLength(s)]]) + Heads(s[WordLength(s)..], true)
    else Heads(s[1..], seen && !IsSeparator(s[0]))
  }

  /** A word that is the name of a program and nothing else: no reserved word, builtin, assignment, wrapper or find. */
  ghost predicate NamesProgram(w: string) {
    && !IsLoopKeyword(w) && w != "function" && w !in {"while", "until"} && !IsPrefixKeyword(w) && !IsEndKeyword(w)
    && AssignmentEnd(w) == 0
    && !IsCode(w) && ExecBuiltin(w).None? && !IsDirChanger(w) && !IsInert(w)
    && BaseName(w) != "find" && Wrapper(BaseName(w)).None?
  }

  // ----- the tokens of a plain command -----

  function PlainWord(text: string): Word {
    Word(text, false, false, false, None)
  }

  function Pending(cur: string): seq<Token> {
    if cur == "" then [] else [Text(PlainWord(cur))]
  }

  /** The tokens still to come, with cur the start of a word that goes on. */
  function TokensOf(cur: string, s: string, i: nat): seq<Token>
    requires i <= |s|
    decreases |s| - i
  {
    if i == |s| then Pending(cur)
    else if IsOperatorChar(s[i]) then Pending(cur) + [Op(OperatorAt(s, i))] + TokensOf("", s, i + |OperatorAt(s, i)|)
    else if IsBlank(s[i]) then Pending(cur) + TokensOf("", s, i + 1)
    else TokensOf(cur + [s[i]], s, i + 1)
  }

  /** The pass over a plain command, partway: nothing but tokens and at most one plain word. */
  function At(i: nat, cur: string, tokens: seq<Token>): Lexer {
    Lexer(i, if cur == "" then None else Some(PlainWord(cur)), tokens, [], None, EMPTY_SCAN)
  }

  /** One character that differs is enough. */
  lemma Differs(s: string, p: string, i: nat, k: nat)
    requires k < |p| && (i + k < |s| ==> s[i + k] != p[k])
    ensures !StartsWith(s, p, i)
  {
    if i + |p| <= |s| {
      assert s[i..i + |p|][k] == s[i + k];
    }
  }

  lemma StartsIs(s: string, p: string, i: nat, k: nat)
    requires StartsWith(s, p, i) && k < |p|
    ensures i + k < |s| && s[i + k] == p[k]
  {
    assert s[i..i + |p|][k] == s[i + k];
  }

  lemma PlainIsNoRedirect(s: string, n: nat, k: nat)
    requires PlainUpTo(s, n) && k <= n && k < |s|
    ensures s[k] !in "<>()"
  {
    assert k < n ==> IsPlain(s[k]) || IsBlank(s[k]) || IsSeparator(s[k]);
  }

  lemma NoRedirectHere(s: string, n: nat, i: nat)
    requires PlainUpTo(s, n) && i < n
    ensures forall p :: p in {"<<<", "<<-", ">>", "<<", "<&", ">&", ">|", "<>", "((", "&>>", "&>"} ==>
              !StartsWith(s, p, i)
  {
    assert n <= |s|;
    hide StartsWith, PlainUpTo;
    PlainIsNoRedirect(s, n, i);
    if i + 1 < |s| { PlainIsNoRedirect(s, n, i + 1); }
    Differs(s, "<<<", i, 0);
    Differs(s, "<<-", i, 0);
    Differs(s, ">>", i, 0);
    Differs(s, "<<", i, 0);
    Differs(s, "<&", i, 0);
    Differs(s, ">&", i, 0);
    Differs(s, ">|", i, 0);
    Differs(s, "<>", i, 0);
    Differs(s, "((", i, 0);
    Differs(s, "&>>", i, 1);
    Differs(s, "&>", i, 1);
  }

  /** Without redirections and ;; the operator is one of these. */
  lemma OperatorIs(s: string, i: nat)
    requires i < |s| && IsSeparator(s[i]) && !StartsWith(s, ";;", i)
    requires forall p :: p in {"<<<", "<<-", ">>", "<<", "<&", ">&", ">|", "<>", "((", "&>>", "&>"} ==>
               !StartsWith(s, p, i)
    ensures OperatorAt(s, i) in {"&&", "||", "|&", ";", "&", "|", "\n"}
    ensures forall k :: 0 <= k < |OperatorAt(s, i)| ==> IsSeparator(OperatorAt(s, i)[k])
  {
    hide StartsWith;
  }

  lemma PlainSeparator(s: string, n: nat, i: nat)
    requires PlainUpTo(s, n) && i < n && IsSeparator(s[i])
    ensures OperatorAt(s, i) in {"&&", "||", "|&", ";", "&", "|", "\n"}
    ensures !StartsWith(s, "((", i) && i + |OperatorAt(s, i)| <= n
    ensures forall k :: i <= k < i + |OperatorAt(s, i)| ==> k < |s| && IsSeparator(s[k])
  {
    NoRedirectHere(s, n, i);
    NoSeparatorBehind(s, n, i);
    hide *;
    OperatorIs(s, i);
    var op := OperatorAt(s, i);
    forall k | i <= k < i + |op| ensures k < |s| && IsSeparator(s[k]) {
      StartsIs(s, op, i, k - i);
    }
  }

  lemma NoSeparatorBehind(s: string, n: nat, i: nat)
    requires PlainUpTo(s, n) && i < n
    ensures n <= |s| && !StartsWith(s, ";;", i) && (n < |s| ==> !IsSeparator(s[n]))
  {
    hide StartsWith;
  }

  /** The pass's next state, for each kind of character. */
  function Next(s: string, i: nat, cur: string, tokens: seq<Token>): Lexer
    requires i < |s|
  {
    if IsOperatorChar(s[i]) then At(i + |OperatorAt(s, i)|, "", tokens + Pending(cur) + [Op(OperatorAt(s, i))])
    else if IsBlank(s[i]) then At(i + 1, "", tokens + Pending(cur))
    else At(i + 1, cur + [s[i]], tokens)
  }

  lemma FlushAt(i: nat, cur: string, tokens: seq<Token>)
    ensures At(i, cur, tokens).Flush() == At(i, "", tokens + Pending(cur))
  {
  }

  /** An operator that neither redirects nor needs a report. */
  lemma QuietOperator(s: string, l: Lexer, op: string)
    requires l.i < |s| && IsOperatorChar(s[l.i]) && s[l.i] !in "<>" && !StartsWith(s, "((", l.i)
    requires op == OperatorAt(s, l.i) && op != ";;" && op != "<<" && op != "<<-"
    requires l.Flush().heredocs == []
    ensures Operator(s, l) == l.Flush().(i := l.i + |op|, tokens := l.Flush().tokens + [Op(op)])
  {
    assert TakeDescriptor(l, s[l.i]) == l;
    assert OperatorReports(s, l.i, op, l.Flush().scan) == l.Flush().scan;
    hide OperatorAt, StartsWith, TakeDescriptor, Lexer.Flush, SkipHeredocs, OperatorReports;
  }

  lemma OperatorPlain(s: string, n: nat, i: nat, cur: string, tokens: seq<Token>)
    requires PlainUpTo(s, n) && i < n && IsSeparator(s[i])
    ensures Operator(s, At(i, cur, tokens)) == Next(s, i, cur, tokens)
  {
    PlainSeparator(s, n, i);
    FlushAt(i, cur, tokens);
    hide OperatorAt, StartsWith, PlainUpTo, Lexer.Flush, Operator, Pending, IsBlank;
    QuietOperator(s, At(i, cur, tokens), OperatorAt(s, i));
  }

  lemma StepPlain(s: string, n: nat, i: nat, cur: string, tokens: seq<Token>)
    requires PlainUpTo(s, n) && i < n
    ensures Step(s, At(i, cur, tokens)) == Next(s, i, cur, tokens)
  {
    assert IsPlain(s[i]) || IsBlank(s[i]) || IsSeparator(s[i]);
    if IsSeparator(s[i]) {
      OperatorPlain(s, n, i, cur, tokens);
    }
    hide Operator, OperatorAt, StartsWith, PlainUpTo;
  }

  /** The rest of the pass ends with these tokens and nothing to report. */
  ghost predicate EndsWith(s: string, l: Lexer, tokens: seq<Token>) {
    Lex(s, l).tokens == tokens && Lex(s, l).scan == EMPTY_SCAN
  }

  lemma LexEnd(s: string, cur: string, tokens: seq<Token>)
    ensures EndsWith(s, At(|s|, cur, tokens), tokens + Pending(cur))
  {
  }

  lemma LexNext(s: string, i: nat, cur: string, tokens: seq<Token>, all: seq<Token>)
    requires PlainUpTo(s, |s|) && i < |s| && EndsWith(s, Next(s, i, cur, tokens), all)
    ensures EndsWith(s, At(i, cur, tokens), all)
  {
    StepPlain(s, |s|, i, cur, tokens);
    LexOne(s, At(i, cur, tokens));
    hide Lex, Step, Next, PlainUpTo;
  }

  /** The pass over a text that begins plainly gets to the end of its plain part. */
  lemma {:induction false} LexReaches(s: string, n: nat, i: nat, cur: string, tokens: seq<Token>)
    returns (cur': string, tokens': seq<Token>)
    requires PlainUpTo(s, n) && i <= n
    ensures Lex(s, At(i, cur, tokens)) == Lex(s, At(n, cur', tokens'))
    decreases n - i
  {
    hide *;
    cur', tokens' := cur, tokens;
    if i < n {
      InRange(s, n, i, cur, tokens);
      StepPlain(s, n, i, cur, tokens);
      LexOne(s, At(i, cur, tokens));
      NextIs(s, i, cur, tokens);
      Kinds(s, n, i);
      if IsOperatorChar(s[i]) {
        PlainSeparator(s, n, i);
        cur', tokens' := LexReaches(s, n, i + |OperatorAt(s, i)|, "", tokens + Pending(cur) + [Op(OperatorAt(s, i))]);
      } else if IsBlank(s[i]) {
        cur', tokens' := LexReaches(s, n, i + 1, "", tokens + Pending(cur));
      } else {
        cur', tokens' := LexReaches(s, n, i + 1, cur + [s[i]], tokens);
      }
    }
  }

  lemma InRange(s: string, n: nat, i: nat, cur: string, tokens: seq<Token>)
    requires PlainUpTo(s, n) && i < n
    ensures n <= |s| && At(i, cur, tokens).i < |s|
  {
  }

  lemma NextIs(s: string, i: nat, cur: string, tokens: seq<Token>)
    requires i < |s|
    ensures IsOperatorChar(s[i]) ==>
              Next(s, i, cur, tokens) == At(i + |OperatorAt(s, i)|, "", tokens + Pending(cur) + [Op(OperatorAt(s, i))])
    ensures !IsOperatorChar(s[i]) && IsBlank(s[i]) ==> Next(s, i, cur, tokens) == At(i + 1, "", tokens + Pending(cur))
    ensures !IsOperatorChar(s[i]) && !IsBlank(s[i]) ==> Next(s, i, cur, tokens) == At(i + 1, cur + [s[i]], tokens)
  {
    hide At, OperatorAt, Pending;
  }

  lemma TokensOne(s: string, i: nat, cur: string)
    requires i < |s|
    ensures IsOperatorChar(s[i]) ==>
              TokensOf(cur, s, i) == (Pending(cur) + [Op(OperatorAt(s, i))]) + TokensOf("", s, i + |OperatorAt(s, i)|)
    ensures !IsOperatorChar(s[i]) && IsBlank(s[i]) ==> TokensOf(cur, s, i) == Pending(cur) + TokensOf("", s, i + 1)
    ensures !IsOperatorChar(s[i]) && !IsBlank(s[i]) ==> TokensOf(cur, s, i) == TokensOf(cur + [s[i]], s, i + 1)
  {
    hide OperatorAt;
  }

  lemma TokensEnd(s: string, cur: string)
    ensures TokensOf(cur, s, |s|) == Pending(cur)
  {
  }

  lemma Regroup(a: seq<Token>, b: seq<Token>, c: seq<Token>)
    ensures (a + b) + c == a + (b + c)
  {
  }

  /** The pass finds exactly the words between blanks and operators, and has nothing to report. */
  lemma {:induction false} LexPlain(s: string, i: nat, cur: string, tokens: seq<Token>)
    requires PlainUpTo(s, |s|) && i <= |s|
    ensures EndsWith(s, At(i, cur, tokens), tokens + TokensOf(cur, s, i))
    decreases |s| - i
  {
    hide *;
    if i == |s| {
      LexEnd(s, cur, tokens);
      TokensEnd(s, cur);
    } else {
      TokensOne(s, i, cur);
      NextIs(s, i, cur, tokens);
      Kinds(s, |s|, i);
      if IsOperatorChar(s[i]) {
        PlainSeparator(s, |s|, i);
        var op := OperatorAt(s, i);
        LexPlain(s, i + |op|, "", tokens + Pending(cur) + [Op(op)]);
        Regroup(tokens, Pending(cur), [Op(op)]);
        Regroup(tokens, Pending(cur) + [Op(op)], TokensOf("", s, i + |op|));
      } else if IsBlank(s[i]) {
        LexPlain(s, i + 1, "", tokens + Pending(cur));
        Regroup(tokens, Pending(cur), TokensOf("", s, i + 1));
      } else {
        LexPlain(s, i + 1, cur + [s[i]], tokens);
      }
      LexNext(s, i, cur, tokens, tokens + TokensOf(cur, s, i));
    }
  }

  // ----- from tokens to programs -----

  ghost predicate PlainToken(t: Token) {
    match t
    case Text(w) => w.text != "" && w == PlainWord(w.text)
    case Op(op) => op in {"&&", "||", "|&", ";", "&", "|", "\n"}
  }

  ghost predicate PlainTokens(tokens: seq<Token>) {
    forall t :: t in tokens ==> PlainToken(t)
  }

  function FirstWords(tokens: seq<Token>, seen: bool): seq<string> {
    if tokens == [] then []
    else
      match tokens[0]
      case Text(w) => (if seen then [] else [w.text]) + FirstWords(tokens[1..], true)
      case Op(_) => FirstWords(tokens[1..], false)
  }

  ghost predicate AllNamePrograms(names: seq<string>) {
    forall n :: n in names ==> NamesProgram(n)
  }

  /** The words collected for a command: plain, and the first of them the name of a program. */
  ghost predicate PlainWords(ws: seq<Word>) {
    ws != [] ==> ws[0] == PlainWord(ws[0].text) && NamesProgram(ws[0].text)
  }

  function FirstOf(ws: seq<Word>): seq<string> {
    if ws == [] then [] else [ws[0].text]
  }

  lemma AnalyzePlain(ws: seq<Word>, scan: CommandScan)
    requires PlainWords(ws)
    ensures Analyze(ws, scan) == scan.(programs := scan.programs + FirstOf(ws))
  {
    if ws != [] {
      hide IsLoopKeyword, IsPrefixKeyword, IsEndKeyword, IsCode, IsDirChanger, IsInert;
      hide AssignmentEnd, ExecBuiltin, Wrapper, BaseName;
    }
  }

  lemma PlainOperators(op: string)
    requires op in {"&&", "||", "|&", ";", "&", "|", "\n"}
    ensures !IsRedirect(op) && op != ")"
  {
    assert |op| == 1 ==> op[0] in ";&|\n";
    assert |op| == 2 ==> op[0] in "&|" && op[1] in "&|";
  }

  lemma {:induction false} ScanPlain(tokens: seq<Token>, ws: seq<Word>, previous: Option<Token>, scan: CommandScan)
    requires PlainTokens(tokens) && PlainWords(ws) && AllNamePrograms(FirstWords(tokens, ws != []))
    ensures ScanTokens(tokens, ws, None, previous, scan) ==
            scan.(programs := scan.programs + (FirstOf(ws) + FirstWords(tokens, ws != [])))
    decreases |tokens|
  {
    if tokens == [] {
      AnalyzePlain(ws, scan);
      assert FirstOf(ws) + [] == FirstOf(ws);
    } else {
      var t := tokens[0];
      assert t in tokens && PlainToken(t);
      FewerTokens(tokens, ws != []);
      hide PlainTokens, AllNamePrograms, NamesProgram, Analyze, IsRedirect;
      match t
      case Text(w) =>
        if ws == [] {
          FirstOfCommand(w, tokens);
          assert ws + [w] == [w];
        } else {
          LaterInCommand(ws, w, tokens);
        }
        ScanPlain(tokens[1..], ws + [w], Some(t), scan);
      case Op(op) =>
        PlainOperators(op);
        AnalyzePlain(ws, scan);
        ScanPlain(tokens[1..], [], Some(t), scan.(programs := scan.programs + FirstOf(ws)));
        Regrouped(scan.programs, FirstOf(ws), FirstWords(tokens[1..], false));
    }
  }

  lemma Regrouped(a: seq<string>, b: seq<string>, c: seq<string>)
    ensures (a + b) + c == a + (b + c) && [] + c == c
  {
  }

  lemma FewerTokens(tokens: seq<Token>, seen: bool)
    requires tokens != [] && PlainTokens(tokens) && AllNamePrograms(FirstWords(tokens, seen))
    ensures PlainTokens(tokens[1..])
    ensures AllNamePrograms(FirstWords(tokens[1..], tokens[0].Text?))
    ensures tokens[0].Text? && !seen ==> NamesProgram(tokens[0].word.text)
  {
    var rest := FirstWords(tokens[1..], tokens[0].Text?);
    forall n | n in rest ensures n in FirstWords(tokens, seen) {
    }
    if tokens[0].Text? && !seen {
      assert FirstWords(tokens, seen)[0] == tokens[0].word.text;
    }
  }

  /** The first word of a command is the one that counts. */
  lemma FirstOfCommand(w: Word, tokens: seq<Token>)
    requires w == PlainWord(w.text) && NamesProgram(w.text) && tokens != [] && tokens[0] == Text(w)
    ensures PlainWords([w]) && FirstOf([w]) + FirstWords(tokens[1..], true) == FirstWords(tokens, false)
  {
    hide NamesProgram;
  }

  /** Further words do not. */
  lemma LaterInCommand(ws: seq<Word>, w: Word, tokens: seq<Token>)
    requires ws != [] && PlainWords(ws) && tokens != [] && tokens[0].Text?
    ensures PlainWords(ws + [w]) && FirstOf(ws + [w]) == FirstOf(ws)
    ensures FirstWords(tokens[1..], true) == FirstWords(tokens, true)
  {
    hide NamesProgram;
    assert (ws + [w])[0] == ws[0];
  }

  lemma {:induction false} TokensArePlain(cur: string, s: string, i: nat)
    requires PlainUpTo(s, |s|) && i <= |s|
    ensures PlainTokens(TokensOf(cur, s, i))
    decreases |s| - i
  {
    hide *;
    PendingIsPlain(cur);
    if i == |s| {
      TokensEnd(s, cur);
    } else {
      Kinds(s, |s|, i);
      TokensOne(s, i, cur);
      if IsOperatorChar(s[i]) {
        PlainSeparator(s, |s|, i);
        var op := OperatorAt(s, i);
        TokensArePlain("", s, i + |op|);
        PlainConcat(Pending(cur), op, TokensOf("", s, i + |op|));
      } else if IsBlank(s[i]) {
        TokensArePlain("", s, i + 1);
        PlainJoin(Pending(cur), TokensOf("", s, i + 1));
      } else {
        TokensArePlain(cur + [s[i]], s, i + 1);
      }
    }
  }

  lemma PlainJoin(a: seq<Token>, b: seq<Token>)
    requires PlainTokens(a) && PlainTokens(b)
    ensures PlainTokens(a + b)
  {
    hide PlainToken;
  }

  lemma PendingIsPlain(cur: string)
    ensures PlainTokens(Pending(cur))
  {
  }

  lemma PlainConcat(a: seq<Token>, op: string, b: seq<Token>)
    requires PlainTokens(a) && PlainTokens(b) && op in {"&&", "||", "|&", ";", "&", "|", "\n"}
    ensures PlainTokens((a + [Op(op)]) + b)
  {
    assert PlainToken(Op(op));
    hide PlainToken;
  }

  // ----- the theorem -----

  /** Whether the first word of the command has gone by, after these tokens. */
  function SeenAfter(tokens: seq<Token>, seen: bool): bool {
    if tokens == [] then seen else tokens[|tokens| - 1].Text?
  }

  lemma FirstWordsOne(t: Token, rest: seq<Token>, seen: bool)
    ensures FirstWords([t] + rest, seen) == (if t.Text? && !seen then [t.word.text] else []) + FirstWords(rest, t.Text?)
  {
    assert ([t] + rest)[1..] == rest;
  }

  lemma SameTokens(a: seq<Token>, b: seq<Token>)
    requires a != []
    ensures [a[0]] + a[1..] == a && [a[0]] + (a[1..] + b) == a + b
  {
  }

  lemma {:induction false} FirstWordsAppend(a: seq<Token>, b: seq<Token>, seen: bool)
    ensures FirstWords(a + b, seen) == FirstWords(a, seen) + FirstWords(b, SeenAfter(a, seen))
    decreases |a|
  {
    if a == [] {
      assert a + b == b;
    } else {
      hide FirstWords;
      var t, rest := a[0], a[1..];
      FirstWordsAppend(rest, b, t.Text?);
      FirstWordsOne(t, rest + b, seen);
      FirstWordsOne(t, rest, seen);
      SameTokens(a, b);
      Regrouped(if t.Text? && !seen then [t.word.text] else [],
                FirstWords(rest, t.Text?), FirstWords(b, SeenAfter(a, seen)));
    }
  }

  /** The text from i on, read with cur the start of a word that goes on. */
  function HeadsFrom(cur: string, s: string, i: nat, seen: bool): seq<string>
    requires i <= |s|
  {
    if cur == "" then Heads(s[i..], seen)
    else
      var n := WordLength(s[i..]);
      (if seen then [] else [cur + s[i..i + n]]) + Heads(s[i + n..], true)
  }

  lemma HeadsWord(cur: string, s: string, i: nat, seen: bool)
    requires i < |s| && IsPlain(s[i])
    ensures HeadsFrom(cur, s, i, seen) == HeadsFrom(cur + [s[i]], s, i + 1, seen)
  {
    assert s[i..][1..] == s[i + 1..];
    var n := WordLength(s[i + 1..]);
    assert WordLength(s[i..]) == n + 1;
    WordPieces(cur, s, i, n);
    assert Heads(s[i..], seen) == (if seen then [] else [s[i..][..n + 1]]) + Heads(s[i..][n + 1..], true);
    hide Heads, WordLength;
  }

  lemma WordPieces(cur: string, s: string, i: nat, n: nat)
    requires i + 1 + n <= |s|
    ensures s[i..][n + 1..] == s[i + 1 + n..] && s[i + (n + 1)..] == s[i + 1 + n..]
    ensures cur + s[i..i + (n + 1)] == cur + [s[i]] + s[i + 1..i + 1 + n]
    ensures cur == "" ==> s[i..][..n + 1] == cur + [s[i]] + s[i + 1..i + 1 + n]
  {
  }

  lemma HeadsGap(cur: string, s: string, i: nat, seen: bool)
    requires i < |s| && !IsPlain(s[i])
    ensures HeadsFrom(cur, s, i, seen) ==
            (if cur == "" || seen then [] else [cur]) + Heads(s[i + 1..], (seen || cur != "") && !IsSeparator(s[i]))
  {
    assert s[i..][1..] == s[i + 1..];
    if cur != "" {
      assert WordLength(s[i..]) == 0;
      assert cur + s[i..i] == cur;
    }
  }

  lemma HeadsEnd(cur: string, s: string, seen: bool)
    ensures HeadsFrom(cur, s, |s|, seen) == FirstWords(Pending(cur), seen)
  {
    if cur != "" {
      assert WordLength(s[|s|..]) == 0;
      assert cur + s[|s|..|s|] == cur;
      assert Pending(cur)[1..] == [];
    }
  }

  lemma PendingWords(cur: string, seen: bool)
    ensures FirstWords(Pending(cur), seen) == if cur == "" || seen then [] else [cur]
    ensures SeenAfter(Pending(cur), seen) == (seen || cur != "")
  {
    if cur != "" {
      assert Pending(cur)[1..] == [];
    }
  }

  lemma PendingOperator(cur: string, op: string, seen: bool)
    ensures FirstWords(Pending(cur) + [Op(op)], seen) == if cur == "" || seen then [] else [cur]
  {
    PendingWords(cur, seen);
    FirstWordsAppend(Pending(cur), [Op(op)], seen);
    assert FirstWords([Op(op)], cur != "" || seen) == [];
  }

  lemma SkipSeparators(s: string, i: nat, n: nat)
    requires 1 <= n <= 2 && i + n <= |s| && forall k :: i <= k < i + n ==> IsSeparator(s[k])
    ensures Heads(s[i + 1..], false) == Heads(s[i + n..], false)
  {
    if n == 2 {
      assert s[i + 1..][1..] == s[i + 2..];
    }
  }

  lemma SeparatorOperators(op: string)
    requires op in {"&&", "||", "|&", ";", "&", "|", "\n"}
    ensures 1 <= |op| <= 2
  {
  }

  lemma EndHeads(cur: string, s: string, seen: bool)
    requires PlainUpTo(s, |s|)
    ensures FirstWords(TokensOf(cur, s, |s|), seen) == HeadsFrom(cur, s, |s|, seen)
  {
    HeadsEnd(cur, s, seen);
    hide HeadsFrom, FirstWords;
  }

  /** What the tokens' first words are, in terms of the text. */
  lemma {:induction false} FirstWordsAreHeads(cur: string, s: string, i: nat, seen: bool)
    requires PlainUpTo(s, |s|) && i <= |s|
    ensures FirstWords(TokensOf(cur, s, i), seen) == HeadsFrom(cur, s, i, seen)
    decreases |s| - i
  {
    hide *;
    if i == |s| {
      EndHeads(cur, s, seen);
    } else {
      Kinds(s, |s|, i);
      TokensOne(s, i, cur);
      if IsPlain(s[i]) {
        HeadsWord(cur, s, i, seen);
        FirstWordsAreHeads(cur + [s[i]], s, i + 1, seen);
      } else if IsBlank(s[i]) {
        FirstWordsAreHeads("", s, i + 1, seen || cur != "");
        BlankHeads(cur, s, i, seen);
      } else {
        PlainSeparator(s, |s|, i);
        var op := OperatorAt(s, i);
        SeparatorOperators(op);
        FirstWordsAreHeads("", s, i + |op|, false);
        OperatorHeads(cur, s, i, seen, op);
      }
    }
  }

  /** In a plain command a character is of one of three kinds. */
  lemma Kinds(s: string, n: nat, i: nat)
    requires PlainUpTo(s, n) && i < n
    ensures IsPlain(s[i]) ==> !IsBlank(s[i]) && !IsOperatorChar(s[i])
    ensures IsBlank(s[i]) ==> !IsOperatorChar(s[i]) && !IsPlain(s[i])
    ensures !IsPlain(s[i]) && !IsBlank(s[i]) ==> IsSeparator(s[i]) && IsOperatorChar(s[i])
  {
    assert IsPlain(s[i]) || IsBlank(s[i]) || IsSeparator(s[i]);
  }

  lemma BlankHeads(cur: string, s: string, i: nat, seen: bool)
    requires i < |s| && IsBlank(s[i])
    requires FirstWords(TokensOf("", s, i + 1), seen || cur != "") == HeadsFrom("", s, i + 1, seen || cur != "")
    ensures FirstWords(Pending(cur) + TokensOf("", s, i + 1), seen) == HeadsFrom(cur, s, i, seen)
  {
    assert !IsPlain(s[i]) && !IsSeparator(s[i]);
    HeadsGap(cur, s, i, seen);
    PendingWords(cur, seen);
    HeadsFromNothing(s, i + 1, seen || cur != "");
    hide *;
    FirstWordsAppend(Pending(cur), TokensOf("", s, i + 1), seen);
  }

  lemma OperatorHeads(cur: string, s: string, i: nat, seen: bool, op: string)
    requires i + |op| <= |s| && 1 <= |op| <= 2 && forall k :: i <= k < i + |op| ==> IsSeparator(s[k])
    requires FirstWords(TokensOf("", s, i + |op|), false) == HeadsFrom("", s, i + |op|, false)
    ensures FirstWords((Pending(cur) + [Op(op)]) + TokensOf("", s, i + |op|), seen) == HeadsFrom(cur, s, i, seen)
  {
    assert IsSeparator(s[i]);
    HeadsGap(cur, s, i, seen);
    SkipSeparators(s, i, |op|);
    PendingOperator(cur, op, seen);
    HeadsFromNothing(s, i + |op|, false);
    hide *;
    FirstWordsAppend(Pending(cur) + [Op(op)], TokensOf("", s, i + |op|), seen);
    LastIsOperator(Pending(cur), op, seen);
  }

  lemma LastIsOperator(a: seq<Token>, op: string, seen: bool)
    ensures !SeenAfter(a + [Op(op)], seen)
  {
  }

  lemma HeadsFromNothing(s: string, i: nat, seen: bool)
    requires i <= |s|
    ensures HeadsFrom("", s, i, seen) == Heads(s[i..], seen)
  {
  }

  lemma EndIs(s: string, l: Lexer, tokens: seq<Token>)
    requires EndsWith(s, l, tokens)
    ensures Lex(s, l).tokens == tokens && Lex(s, l).scan == EMPTY_SCAN
  {
  }

  lemma NothingBefore(names: seq<string>)
    ensures EMPTY_SCAN.programs + ([] + names) == names
  {
  }

  lemma AtStart(s: string)
    ensures At(0, "", []) == START && s[0..] == s
    ensures PlainWords([]) && FirstOf([]) == []
  {
  }

  /**
    For a command of plain words whose first words each name a program, the scan
    lists exactly these first words, in order, and reports nothing else.
   */
  lemma PlainCommandsAreListed(s: string)
    requires PlainCommand(s) && AllNamePrograms(Heads(s, false))
    ensures ScanTokens(Lex(s, START).tokens, [], None, None, Lex(s, START).scan)
         == EMPTY_SCAN.(programs := Heads(s, false))
  {
    assert PlainUpTo(s, |s|);
    hide *;
    AtStart(s);
    LexPlain(s, 0, "", []);
    EndIs(s, START, [] + TokensOf("", s, 0));
    TokensArePlain("", s, 0);
    FirstWordsAreHeads("", s, 0, false);
    HeadsFromNothing(s, 0, false);
    var tokens := TokensOf("", s, 0);
    assert [] + tokens == tokens;
    ScanPlain(tokens, [], None, EMPTY_SCAN);
    NothingBefore(Heads(s, false));
  }
}
