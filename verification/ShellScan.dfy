/**
  Finding the programs a shell command string would run: a quote-aware pass that
  splits it into words and operators, and an analysis of each simple command that
  looks through wrappers. It follows the quoting, token and here-document rules of
  POSIX.1-2017 Shell & Utilities, sections 2.2, 2.3 and 2.7.4.
 */
module ShellScan {
  import opened Wrappers
  import opened Texts

  /** Why the string may run code the scan cannot see. */
  datatype Reason =
    | UnterminatedQuote
    | CommandSubstitution
    | ArithmeticExpansion
    | ComplexExpansion
    | ArithmeticCommand
    | ProcessSubstitution
    | CaseStatement
    | HeredocExpansion
    | ComputedTarget
    | TildeTarget
    | ComputedVariable(of: string)
    | ComputedProgram(name: string)
    | EvaluatesCode(name: string)
    | SplitsString
    | PrintfAssigns
    | TestsSubscript(name: string)
    | ExportsAll

  datatype CommandScan = CommandScan(
    programs: seq<string>,
    opacity: seq<Reason>,
    assignments: seq<string>,
    redirects: seq<(string, string)>,
    directories: seq<Option<string>>,
    repeats: bool)
  {
    function Opaque(r: Reason): CommandScan { this.(opacity := opacity + [r]) }
    function Assigns(name: string): CommandScan { this.(assignments := assignments + [name]) }
    function Runs(name: string): CommandScan { this.(programs := programs + [name]) }
  }

  const EMPTY_SCAN := CommandScan([], [], [], [], [], false)

  /** prefix: how much of the start was written unquoted and unexpanded; None for all of it. */
  datatype Word = Word(text: string, quoted: bool, dynamic: bool, globbed: bool, prefix: Option<nat>)
  {
    function Add(s: string): Word { this.(text := text + s) }
  }

  datatype Token = Op(op: string) | Text(word: Word)

  datatype Heredoc = Heredoc(delimiter: string, quoted: bool, stripTabs: bool)

  // ----- characters and names -----

  predicate IsDigit(c: char) {
    '0' <= c <= '9'
  }

  /** The length of the longest run of name characters at i. */
  function NameRun(s: string, i: nat): (n: nat)
    requires i <= |s|
    ensures i + n <= |s|
    decreases |s| - i
  {
    if i < |s| && (IsNameStart(s[i]) || IsDigit(s[i])) then 1 + NameRun(s, i + 1) else 0
  }

  /** The length of the name at i; 0 if there is none. */
  function NameLength(s: string, i: nat): (n: nat)
    requires i <= |s|
    ensures i + n <= |s|
  {
    if i < |s| && IsNameStart(s[i]) then NameRun(s, i) else 0
  }

  predicate IsName(s: string) {
    s != "" && NameLength(s, 0) == |s|
  }

  predicate IsNumber(s: string) {
    s != "" && forall c :: c in s ==> IsDigit(c)
  }

  /** Where NAME= or NAME+= at the start of the text ends; 0 if the text does not start so. */
  function AssignmentEnd(text: string): (n: nat)
    ensures n <= |text|
  {
    var k := NameLength(text, 0);
    if k == 0 then 0
    else if k < |text| && text[k] == '=' then k + 1
    else if k + 1 < |text| && text[k] == '+' && text[k + 1] == '=' then k + 2
    else 0
  }

  /** The position of c at or after i, or the length. */
  function Find(s: string, c: char, i: nat): (r: nat)
    requires i <= |s|
    ensures i <= r <= |s| && (r < |s| ==> s[r] == c)
    ensures forall k :: i <= k < r ==> s[k] != c
    decreases |s| - i
  {
    if i == |s| || s[i] == c then i else Find(s, c, i + 1)
  }

  predicate StartsWith(s: string, p: string, i: nat) {
    i + |p| <= |s| && s[i..i + |p|] == p
  }

  predicate Contains(s: string, p: string) {
    exists i :: 0 <= i <= |s| && StartsWith(s, p, i)
  }

  function BeforeEquals(s: string): string {
    s[..Find(s, '=', 0)]
  }

  function StripPlus(s: string): string {
    if s != "" && s[|s| - 1] == '+' then StripPlus(s[..|s| - 1]) else s
  }

  function StripTabs(s: string): string {
    if s != "" && s[0] == '\t' then StripTabs(s[1..]) else s
  }

  // ----- expansions and double quotes -----

  /** ${...} with nothing but a name, a digit or a special parameter. */
  predicate IsSimpleBraced(s: string) {
    IsName(s) || (|s| == 1 && (IsDigit(s[0]) || s[0] in "@*#?$!-"))
  }

  predicate IsSpecialParam(c: char) {
    IsDigit(c) || c in "@*#?$!-"
  }

  /** Past the closing quote of a $'...' string, or past the end. */
  function AnsiEnd(s: string, i: nat): (r: nat)
    ensures r >= i
    decreases if i < |s| then |s| - i else 0
  {
    if i >= |s| || s[i] == '\'' then i else AnsiEnd(s, if s[i] == '\\' then i + 2 else i + 1)
  }

  /** Consumes the $ expansion at i: the index behind it, the word and the scan. It always moves on. */
  function Expansion(s: string, i: nat, w: Word, scan: CommandScan, inQuotes: bool): (r: (nat, Word, CommandScan))
    requires i < |s|
    ensures r.0 > i
  {
    var dynamic := w.(dynamic := true);
    if i + 1 == |s| then (i + 1, w.Add("$"), scan)
    else
      var next := s[i + 1];
      if next == '(' then (i + 2, dynamic, scan.Opaque(CommandSubstitution))
      else if next == '[' then (i + 2, dynamic, scan.Opaque(ArithmeticExpansion))
      else if next == '{' then
        var end := Find(s, '}', i + 2);
        if end == |s| then (|s|, dynamic, scan.Opaque(ComplexExpansion))
        else (end + 1, dynamic, if IsSimpleBraced(s[i + 2..end]) then scan else scan.Opaque(ComplexExpansion))
      else if next == '\'' && !inQuotes then (AnsiEnd(s, i + 2) + 1, dynamic, scan)
      else if IsSpecialParam(next) then (i + 2, dynamic, scan)
      else if IsNameStart(next) then (i + 1 + NameLength(s, i + 1), dynamic, scan)
      else (i + 1, w.Add("$"), scan)
  }

  /** Consumes a double-quoted span from behind its opening quote. */
  function DoubleQuoted(s: string, i: nat, w: Word, scan: CommandScan): (r: (nat, Word, CommandScan))
    ensures r.0 >= i || r.0 >= |s|
    decreases if i < |s| then |s| - i else 0
  {
    if i >= |s| then (|s|, w, scan.Opaque(UnterminatedQuote))
    else
      var c := s[i];
      if c == '"' then (i + 1, w, scan)
      else if c == '\\' && i + 1 < |s| && s[i + 1] in "$`\"\\\n" then DoubleQuoted(s, i + 2, w.Add([s[i + 1]]), scan)
      else if c == '`' then DoubleQuoted(s, i + 1, w.(dynamic := true), scan.Opaque(CommandSubstitution))
      else if c == '$' then
        var (j, w', scan') := Expansion(s, i, w, scan, true);
        DoubleQuoted(s, j, w', scan')
      else DoubleQuoted(s, i + 1, w.Add([c]), scan)
  }

  // ----- the lexer -----

  /** Where the pass is, and what it has so far. */
  datatype Lexer = Lexer(
    i: nat,
    word: Option<Word>,
    tokens: seq<Token>,
    heredocs: seq<Heredoc>,
    awaiting: Option<bool>,
    scan: CommandScan)
  {
    /** The word being built, or a new one. */
    function Begin(quoted: bool): Word {
      var w := if word.Some? then word.value else Word("", false, false, false, None);
      if !quoted then w
      else w.(quoted := true, prefix := if w.prefix.None? then Some(|w.text|) else w.prefix)
    }

    /** Ends the word being built, if any. */
    function Flush(): (r: Lexer)
      ensures r.i == i
    {
      if word.None? then this
      else
        var w := word.value;
        var w' := if w.globbed && w.text != "[" && w.text != "[[" then w.(dynamic := true) else w;
        this.(word := None,
              heredocs := if awaiting.Some? then heredocs + [Heredoc(w'.text, w'.quoted, awaiting.value)] else heredocs,
              awaiting := None,
              tokens := tokens + [Text(w')])
    }
  }

  predicate IsBlank(c: char) {
    c in " \t\r"
  }

  predicate IsOperatorChar(c: char) {
    c in ";&|()<>\n"
  }

  /** The longest operator at i. */
  function OperatorAt(s: string, i: nat): (op: string)
    requires i < |s| && IsOperatorChar(s[i])
    ensures 1 <= |op| <= 3 && StartsWith(s, op, i)
  {
    if StartsWith(s, "&>>", i) then "&>>"
    else if StartsWith(s, "<<<", i) then "<<<"
    else if StartsWith(s, "<<-", i) then "<<-"
    else if StartsWith(s, "&&", i) then "&&"
    else if StartsWith(s, "||", i) then "||"
    else if StartsWith(s, ";;", i) then ";;"
    else if StartsWith(s, "|&", i) then "|&"
    else if StartsWith(s, ">>", i) then ">>"
    else if StartsWith(s, "<<", i) then "<<"
    else if StartsWith(s, "<&", i) then "<&"
    else if StartsWith(s, ">&", i) then ">&"
    else if StartsWith(s, "&>", i) then "&>"
    else if StartsWith(s, ">|", i) then ">|"
    else if StartsWith(s, "<>", i) then "<>"
    else [s[i]]
  }

  /** The name of an {NAME} word in front of a redirection. */
  function FdVariable(text: string): Option<string> {
    if |text| >= 3 && text[0] == '{' && text[|text| - 1] == '}' && IsName(text[1..|text| - 1])
    then Some(text[1..|text| - 1]) else None
  }

  /** An unquoted number or {NAME} right in front of < or > belongs to the redirection. */
  function TakeDescriptor(l: Lexer, c: char): (r: Lexer)
    ensures r.i == l.i
  {
    if c in "<>" && l.word.Some? && !l.word.value.quoted then
      var text := l.word.value.text;
      if IsNumber(text) then l.(word := None)
      else
        match FdVariable(text)
        case Some(name) => l.(word := None, scan := l.scan.Assigns(name))
        case None => l
    else l
  }

  /** One here-document: lines up to the delimiter; the index behind it and the lines, joined. */
  function HeredocBody(s: string, i: nat, h: Heredoc, body: string, first: bool): (r: (nat, string))
    ensures r.0 >= i
    decreases if i < |s| then |s| - i else 0
  {
    if i >= |s| then (i, body)
    else
      var end := Find(s, '\n', i);
      var line := s[i..end];
      if (if h.stripTabs then StripTabs(line) else line) == h.delimiter then (end + 1, body)
      else HeredocBody(s, end + 1, h, if first then line else body + "\n" + line, false)
  }

  /** Consumes the pending bodies, which are data rather than commands. */
  function SkipHeredocs(s: string, i: nat, heredocs: seq<Heredoc>, scan: CommandScan): (r: (nat, CommandScan))
    ensures r.0 >= i
    decreases |heredocs|
  {
    if heredocs == [] then (i, scan)
    else
      var (j, text) := HeredocBody(s, i, heredocs[0], "", true);
      var expands := !heredocs[0].quoted
        && (Contains(text, "$(") || Contains(text, "`") || Contains(text, "$[") || Contains(text, "${"));
      SkipHeredocs(s, j, heredocs[1..], if expands then scan.Opaque(HeredocExpansion) else scan)
  }

  /** What an operator has to report. */
  function OperatorReports(s: string, i: nat, op: string, scan: CommandScan): CommandScan
    requires i < |s|
  {
    var scan1 := if StartsWith(s, "((", i) then scan.Opaque(ArithmeticCommand) else scan;
    var scan2 := if s[i] in "<>" && StartsWith(s, "(", i + 1) then scan1.Opaque(ProcessSubstitution) else scan1;
    if op == ";;" then scan2.Opaque(CaseStatement) else scan2
  }

  function Operator(s: string, l0: Lexer): (r: Lexer)
    requires l0.i < |s| && IsOperatorChar(s[l0.i])
    ensures r.i > l0.i
  {
    var i, c := l0.i, s[l0.i];
    var l := TakeDescriptor(l0, c).Flush();
    var op := OperatorAt(s, i);
    var found := OperatorReports(s, i, op, l.scan);
    var awaiting := if op == "<<" || op == "<<-" then Some(op == "<<-") else l.awaiting;
    var j := i + |op|;
    var l' := l.(i := j, tokens := l.tokens + [Op(op)], awaiting := awaiting, scan := found);
    if op == "\n" && l'.heredocs != [] then
      var (k, after) := SkipHeredocs(s, j, l'.heredocs, found);
      l'.(i := k, heredocs := [], scan := after)
    else l'
  }

  /** Whether the brace at i is a whole word. */
  predicate Standalone(s: string, i: nat)
    requires i < |s|
  {
    && s[i] in "{}"
    && (i == 0 || s[i - 1] in " \t\r\n;&|()")
    && (i + 1 == |s| || s[i + 1] in " \t\r\n;&|()")
  }

  /** One round of the pass. The index always moves on. */
  function Step(s: string, l: Lexer): (r: Lexer)
    requires l.i < |s|
    ensures r.i > l.i || r.i >= |s|
  {
    var i, c := l.i, s[l.i];
    if IsBlank(c) then l.Flush().(i := i + 1)
    else if c == '#' && l.word.None? then l.(i := Find(s, '\n', i + 1))
    else if IsOperatorChar(c) then Operator(s, l)
    else if c == '\'' then
      var w, end := l.Begin(true), Find(s, '\'', i + 1);
      l.(i := end + 1, word := Some(w.Add(s[i + 1..end])),
         scan := if end == |s| then l.scan.Opaque(UnterminatedQuote) else l.scan)
    else if c == '"' then
      var (j, w, scan) := DoubleQuoted(s, i + 1, l.Begin(true), l.scan);
      l.(i := j, word := Some(w), scan := scan)
    else if c == '\\' then
      if StartsWith(s, "\n", i + 1) then l.(i := i + 2)
      else l.(i := i + 2, word := Some(l.Begin(true).Add(if i + 1 < |s| then [s[i + 1]] else "")))
    else if c == '`' then
      l.(i := i + 1, word := Some(l.Begin(true).(dynamic := true)), scan := l.scan.Opaque(CommandSubstitution))
    else if c == '$' then
      var (j, w, scan) := Expansion(s, i, l.Begin(true), l.scan, false);
      l.(i := j, word := Some(w), scan := scan)
    else
      var w := l.Begin(false);
      var globbed := w.globbed || (c in "*?[{}" && !Standalone(s, i));
      l.(i := i + 1, word := Some(w.(text := w.text + [c], globbed := globbed)))
  }

  /** The rest of the pass. */
  function Lex(s: string, l: Lexer): Lexer
    decreases if l.i < |s| then |s| - l.i else 0
  {
    if l.i >= |s| then l.Flush() else Lex(s, Step(s, l))
  }

  lemma LexOne(s: string, l: Lexer)
    requires l.i < |s|
    ensures Lex(s, l) == Lex(s, Step(s, l))
  {
    hide Step;
  }

  const START := Lexer(0, None, [], [], None, EMPTY_SCAN)

  /** The single left-to-right pass over a command string. */
  method Tokenize(s: string) returns (tokens: seq<Token>, scan: CommandScan)
    ensures (tokens, scan) == (Lex(s, START).tokens, Lex(s, START).scan)
  {
    var l := START;
    while l.i < |s|
      invariant Lex(s, l) == Lex(s, START)
      decreases |s| - l.i
    {
      l := Step(s, l);
    }
    l := l.Flush();
    return l.tokens, l.scan;
  }

  // ----- words the analysis knows -----

  predicate IsRedirect(op: string) {
    op in {"&>>", "<<<", "<<-", "<<", ">>", "<&", ">&", "&>", ">|", "<>", "<", ">"}
  }

  predicate IsPrefixKeyword(w: string) {
    w in {"if", "then", "else", "elif", "do", "while", "until", "!", "{", "time"}
  }

  predicate IsEndKeyword(w: string) {
    w in {"fi", "done", "}"}
  }

  predicate IsLoopKeyword(w: string) {
    w in {"for", "select"}
  }

  predicate IsDirChanger(w: string) {
    w in {"cd", "pushd", "popd"}
  }

  predicate IsInert(w: string) {
    w in {"cd", "pwd", "echo", "printf", "true", "false", ":", "exit", "return", "shift", "export", "set", "umask",
          "test", "[", "declare", "local", "typeset", "readonly", "read", "mapfile", "readarray", "getopts", "unset"}
  }

  predicate AssignsNames(w: string) {
    w in {"declare", "local", "typeset", "readonly"}
  }

  predicate TakesNames(w: string) {
    w in {"read", "mapfile", "readarray", "getopts"}
  }

  predicate IsCode(w: string) {
    w in {"eval", "source", ".", "trap", "alias", "enable", "hash", "coproc", "let", "[[", "case"}
  }

  /** Builtins that run the next word as a program, with the options that take a value. */
  function ExecBuiltin(w: string): Option<set<string>> {
    if w == "exec" then Some({"-a"}) else if w == "command" || w == "builtin" then Some({}) else None
  }

  /** Programs that run another program: the options that take a value, and how many operands come first. */
  function Wrapper(w: string): Option<(set<string>, nat)> {
    if w == "env" then Some(({"-u", "--unset", "-C", "--chdir"}, 0))
    else if w == "nohup" then Some(({}, 0))
    else if w == "nice" then Some(({"-n", "--adjustment"}, 0))
    else if w == "timeout" then Some(({"-s", "--signal", "-k", "--kill-after"}, 1))
    else if w == "stdbuf" then Some(({"-i", "-o", "-e"}, 0))
    else if w == "xargs" then Some(({"-I", "-n", "-P", "-L", "-s", "-E", "-d", "-a"}, 0))
    else None
  }

  predicate IsFindExec(w: string) {
    w in {"-exec", "-execdir", "-ok", "-okdir"}
  }

  function BaseName(path: string): string {
    if path == "" || path[|path| - 1] == '/' then "" else BaseName(path[..|path| - 1]) + [path[|path| - 1]]
  }

  // ----- one simple command -----

  /** How much of the word's start was written unquoted and unexpanded. */
  function Prefix(w: Word): nat {
    if w.prefix.None? then |w.text| else w.prefix.value
  }

  predicate Bare(w: Word) {
    !w.quoted && !w.dynamic
  }

  function Redirection(op: string, target: Word, scan: CommandScan): CommandScan {
    if op in {"<<", "<<-", "<<<"} then scan
    else if op in {"<&", ">&"} && !target.dynamic && (IsNumber(target.text) || target.text == "-") then scan
    else if op == "<&" then scan
    else if target.dynamic then scan.Opaque(ComputedTarget)
    else if StartsWith(target.text, "~", 0) && !target.quoted then scan.Opaque(TildeTarget)
    else scan.(redirects := scan.redirects + [(op, target.text)])
  }

  predicate IsDirOption(text: string) {
    text in {"-L", "-P", "-e", "-@"}
  }

  function Operands(args: seq<Word>): seq<Word> {
    if args == [] then [] else (if IsDirOption(args[0].text) then [] else [args[0]]) + Operands(args[1..])
  }

  /** The literal directory a cd or pushd enters, if it can be told. */
  function DirectoryOf(name: string, args: seq<Word>): Option<string> {
    var operands := Operands(args);
    if name == "popd" || |operands| != 1 || operands[0].dynamic then None
    else
      var text := operands[0].text;
      if text == "" || text[0] in "-+" || (text[0] == '~' && !operands[0].quoted) then None else Some(text)
  }

  predicate HasText(args: seq<Word>, text: string) {
    exists a :: a in args && a.text == text
  }

  predicate ExportsEverything(text: string) {
    text == "allexport" || (StartsWith(text, "-", 0) && !StartsWith(text, "--", 0) && 'a' in text)
  }

  /** The names an export or a declaration assigns. */
  function AssignedNames(name: string, args: seq<Word>, scan: CommandScan): CommandScan {
    if args == [] then scan
    else
      var text := args[0].text;
      if StartsWith(text, "-", 0) then AssignedNames(name, args[1..], scan)
      else
        var variable := if TakesNames(name) then text else BeforeEquals(text);
        var computed := !IsName(variable) || (name != "export" && args[0].dynamic);
        var scan1 := if computed then scan.Opaque(ComputedVariable(name)) else scan;
        AssignedNames(name, args[1..], scan1.Assigns(variable))
  }

  /** The few forms of builtins that assign to a name that cannot be told. */
  function CheckInert(name: string, args: seq<Word>, scan: CommandScan): CommandScan {
    if name == "printf" && HasText(args, "-v") then scan.Opaque(PrintfAssigns)
    else if name in {"test", "["} && (HasText(args, "-v") || HasText(args, "-R")) then scan.Opaque(TestsSubscript(name))
    else if name == "set" && exists a :: a in args && ExportsEverything(a.text) then scan.Opaque(ExportsAll)
    else if name == "export" || AssignsNames(name) || TakesNames(name) then AssignedNames(name, args, scan)
    else scan
  }

  predicate SplitsEnvString(text: string) {
    if StartsWith(text, "--", 0) then
      var name := BeforeEquals(text[2..]);
      name != "" && name <= "split-string"
    else StartsWith(text, "-", 0) && 'S' in text
  }

  /**
    Drops a wrapper's options, its operands and, for env, its assignments.
    Following wrappers gets shorter all the time.
   */
  function SkipOptions(words: seq<Word>, valued: set<string>, operands: nat, scan: CommandScan, assignments: bool)
    : (r: (seq<Word>, CommandScan))
    ensures |r.0| <= |words|
    decreases |words|
  {
    if words == [] then ([], scan)
    else
      var text := words[0].text;
      if text == "--" then (Drop(words[1..], operands), scan)
      else if assignments && SplitsEnvString(text) then ([], scan.Opaque(SplitsString))
      else if text in valued then SkipOptions(Drop(words, 2), valued, operands, scan, assignments)
      else if StartsWith(text, "-", 0) && |text| > 1 then SkipOptions(words[1..], valued, operands, scan, assignments)
      else if assignments && '=' in text then
        SkipOptions(words[1..], valued, operands, scan.Assigns(BeforeEquals(text)), assignments)
      else (Drop(words, operands), scan)
  }

  function Drop(words: seq<Word>, n: nat): (r: seq<Word>)
    ensures |r| == if n <= |words| then |words| - n else 0
  {
    if n <= |words| then words[n..] else []
  }

  ghost predicate IsEndOf(rest: seq<Word>, words: seq<Word>) {
    |rest| <= |words| && rest == words[|words| - |rest|..]
  }

  lemma EndOfTail(rest: seq<Word>, words: seq<Word>, n: nat)
    requires n <= |words| && IsEndOf(rest, words[n..])
    ensures IsEndOf(rest, words)
  {
    assert words[n..][|words| - n - |rest|..] == words[|words| - |rest|..];
  }

  lemma DropIsEnd(words: seq<Word>, n: nat)
    ensures IsEndOf(Drop(words, n), words)
  {
  }

  /** What a wrapper runs is the end of its words, behind its options and operands. */
  lemma {:induction false} WrapperRunsTheEnd(words: seq<Word>, valued: set<string>, operands: nat, scan: CommandScan,
                                             assignments: bool)
    ensures IsEndOf(SkipOptions(words, valued, operands, scan, assignments).0, words)
    decreases |words|
  {
    hide IsEndOf, StartsWith, SplitsEnvString, BeforeEquals;
    if words == [] {
      DropIsEnd(words, 0);
    } else {
      var text := words[0].text;
      DropIsEnd(words, operands);
      DropIsEnd(words[1..], operands);
      EndOfTail(Drop(words[1..], operands), words, 1);
      DropIsEnd(words, |words|);
      if text in valued {
        WrapperRunsTheEnd(Drop(words, 2), valued, operands, scan, assignments);
        EndOfDrop(SkipOptions(Drop(words, 2), valued, operands, scan, assignments).0, words, 2);
      } else {
        var more := scan.Assigns(BeforeEquals(text));
        WrapperRunsTheEnd(words[1..], valued, operands, scan, assignments);
        EndOfTail(SkipOptions(words[1..], valued, operands, scan, assignments).0, words, 1);
        WrapperRunsTheEnd(words[1..], valued, operands, more, assignments);
        EndOfTail(SkipOptions(words[1..], valued, operands, more, assignments).0, words, 1);
      }
    }
  }

  lemma EndOfDrop(rest: seq<Word>, words: seq<Word>, n: nat)
    requires IsEndOf(rest, Drop(words, n))
    ensures IsEndOf(rest, words)
  {
    if n <= |words| { EndOfTail(rest, words, n); }
  }

  /** Records the first word as a program, and what it runs in turn. */
  function Command(words: seq<Word>, scan: CommandScan): CommandScan
    decreases |words|, 1, 0
  {
    if words == [] then scan
    else
      var name := words[0].text;
      if words[0].dynamic then scan.Opaque(ComputedProgram(name))
      else if IsCode(name) then scan.Opaque(EvaluatesCode(name))
      else if ExecBuiltin(name).Some? then
        var (rest, scan') := SkipOptions(words[1..], ExecBuiltin(name).value, 0, scan, false);
        Command(rest, scan')
      else
        var scan1 := if !IsDirChanger(name) then scan
                     else scan.(directories := scan.directories + [DirectoryOf(name, words[1..])]);
        if IsInert(name) then CheckInert(name, words[1..], scan1)
        else
          var scan2 := scan1.Runs(name);
          var base := BaseName(name);
          if base == "find" then FindCommands(words, 0, scan2)
          else if Wrapper(base).Some? then
            var w := Wrapper(base).value;
            var (rest, scan3) := SkipOptions(words[1..], w.0, w.1, scan2, base == "env");
            Command(rest, scan3)
          else scan2
  }

  /** The commands behind find's -exec and the like, from word k on. */
  function FindCommands(words: seq<Word>, k: nat, scan: CommandScan): CommandScan
    requires k <= |words|
    decreases |words|, 0, |words| - k
  {
    if k == |words| then scan
    else FindCommands(words, k + 1, if IsFindExec(words[k].text) then Command(words[k + 1..], scan) else scan)
  }

  /** What comes before the program: keywords and assignments. */
  function Analyze(words: seq<Word>, scan: CommandScan): CommandScan
    decreases |words|
  {
    if words == [] then Command(words, scan)
    else
      var w := words[0];
      if Bare(w) && IsLoopKeyword(w.text) then
        if |words| == 1 then scan
        else
          var v := words[1];
          (if v.dynamic || !IsName(v.text) then scan.Opaque(ComputedVariable(w.text)) else scan).Assigns(v.text)
      else if Bare(w) && w.text == "function" then Analyze(Drop(words, 2), scan.(repeats := true))
      else
        var scan1 := if Bare(w) && w.text in {"while", "until"} then scan.(repeats := true) else scan;
        if Bare(w) && (IsPrefixKeyword(w.text) || IsEndKeyword(w.text)) then
          Analyze(if w.text == "time" && |words| > 1 && words[1].text == "-p" then words[2..] else words[1..], scan1)
        else if 0 < AssignmentEnd(w.text) <= Prefix(w) then
          Analyze(words[1..], scan1.Assigns(StripPlus(BeforeEquals(w.text))))
        else Command(words, scan1)
  }

  // ----- the whole string -----

  /** Goes over the tokens: words collect until an operator ends the command they make up. */
  function ScanTokens(tokens: seq<Token>, words: seq<Word>, redirect: Option<string>, previous: Option<Token>,
                      scan: CommandScan)
    : CommandScan
    decreases |tokens|
  {
    if tokens == [] then Analyze(words, scan)
    else
      var t := tokens[0];
      var scan1 := if t == Op(")") && previous == Some(Op("(")) then scan.(repeats := true) else scan;
      match t
      case Text(w) =>
        if redirect.Some? then ScanTokens(tokens[1..], words, None, Some(t), Redirection(redirect.value, w, scan1))
        else ScanTokens(tokens[1..], words + [w], None, Some(t), scan1)
      case Op(op) =>
        if IsRedirect(op) then ScanTokens(tokens[1..], words, Some(op), Some(t), scan1)
        else ScanTokens(tokens[1..], [], redirect, Some(t), Analyze(words, scan1))
  }

  method ScanCommand(command: string) returns (scan: CommandScan)
    ensures scan == ScanTokens(Lex(command, START).tokens, [], None, None, Lex(command, START).scan)
  {
    var tokens;
    tokens, scan := Tokenize(command);
    var words: seq<Word>, redirect: Option<string>, previous: Option<Token> := [], None, None;
    for k := 0 to |tokens|
      invariant ScanTokens(tokens[k..], words, redirect, previous, scan)
             == ScanTokens(Lex(command, START).tokens, [], None, None, Lex(command, START).scan)
    {
      var t := tokens[k];
      assert tokens[k..][1..] == tokens[k + 1..];
      if t == Op(")") && previous == Some(Op("(")) {
        scan := scan.(repeats := true);
      }
      previous := Some(t);
      if t.Text? {
        if redirect.Some? {
          scan := Redirection(redirect.value, t.word, scan);
          redirect := None;
        } else {
          words := words + [t.word];
        }
        continue;
      }
      if IsRedirect(t.op) {
        redirect := Some(t.op);
        continue;
      }
      scan := Analyze(words, scan);
      words := [];
    }
    scan := Analyze(words, scan);
  }
}
