/** What the analysis finds in a simple command, with the words it knows written out. */
module ShellCommands {
  import opened Wrappers
  import opened Texts
  import opened ShellScan
  import opened ShellEffects

  // ----- the options of a wrapper -----

  /** What may stand between a wrapper and its operands: options, with or without a value, and for env assignments. */
  datatype Skipped =
    | Flag(word: Word)
    | Valued(word: Word, value: Word)
    | Sets(word: Word, name: string)

  predicate IsSkipped(o: Skipped, valued: set<string>, env: bool) {
    var text := o.word.text;
    && text != "--" && (env ==> !IsSplitting(text))
    && match o
       case Flag(_) => |text| > 1 && text[0] == '-' && text !in valued
       case Valued(_, _) => text in valued
       case Sets(_, name) => env && text !in valued && Dashless(text) && '=' !in name && name + "=" <= text
  }

  predicate AreSkipped(opts: seq<Skipped>, valued: set<string>, env: bool) {
    forall o :: o in opts ==> IsSkipped(o, valued, env)
  }

  predicate Dashless(text: string) {
    |text| <= 1 || text[0] != '-'
  }

  /** env's -S, bundled or not, or --split-string, abbreviated or not, with its value attached or not. */
  predicate IsSplitting(text: string) {
    || (text != "" && text[0] == '-' && (|text| == 1 || text[1] != '-') && 'S' in text)
    || exists n: nat :: 1 <= n <= |"split-string"| && IsLongOption(text, "split-string"[..n])
  }

  predicate IsLongOption(text: string, name: string) {
    text == "--" + name || "--" + name + "=" <= text
  }

  /** The first word that is no option, if there is a word left. */
  predicate BeginsOperands(rest: seq<Word>, valued: set<string>, env: bool) {
    rest != [] ==>
      var text := rest[0].text;
      text != "--" && text !in valued && Dashless(text) && (env ==> '=' !in text && !IsSplitting(text))
  }

  function WordsOf(opts: seq<Skipped>): seq<Word> {
    if opts == [] then []
    else (if opts[0].Valued? then [opts[0].word, opts[0].value] else [opts[0].word]) + WordsOf(opts[1..])
  }

  function NamesOf(opts: seq<Skipped>): seq<string> {
    if opts == [] then [] else (if opts[0].Sets? then [opts[0].name] else []) + NamesOf(opts[1..])
  }

  lemma SplittingIs(text: string)
    ensures SplitsEnvString(text) <==> IsSplitting(text)
  {
    if StartsWith(text, "--", 0) {
      assert text == "--" + text[2..];
      hide StartsWith;
      LongOptions(text, text[2..]);
    } else {
      forall n: nat | 1 <= n <= |"split-string"| ensures !IsLongOption(text, "split-string"[..n]) {
        NoLongOption(text, "split-string"[..n]);
      }
    }
  }

  lemma NoLongOption(text: string, name: string)
    requires !StartsWith(text, "--", 0)
    ensures !IsLongOption(text, name)
  {
    assert ("--" + name)[..2] == "--";
  }

  lemma LongOptions(text: string, rest: string)
    requires text == "--" + rest
    ensures (exists n: nat :: 1 <= n <= |"split-string"| && IsLongOption(text, "split-string"[..n])) <==>
            BeforeEquals(rest) != "" && BeforeEquals(rest) <= "split-string"
  {
    var name, all := BeforeEquals(rest), "split-string";
    assert text[2..] == rest;
    forall n: nat | 1 <= n <= |all| ensures IsLongOption(text, all[..n]) ==> name == all[..n] {
      LongOption(text, rest, all[..n]);
    }
    if name != "" && name <= all {
      assert all[..|name|] == name;
      assert IsLongOption(text, all[..|name|]);
    }
  }

  lemma LongOption(text: string, rest: string, name: string)
    requires text == "--" + rest && '=' !in name
    ensures IsLongOption(text, name) ==> BeforeEquals(rest) == name
  {
    if IsLongOption(text, name) {
      assert text[2..] == rest && ("--" + name)[2..] == name && ("--" + name + "=")[2..] == name + "=";
      BeforeFirst(name, rest);
    }
  }

  /** What stands before the first equals sign. */
  lemma BeforeFirst(name: string, text: string)
    requires '=' !in name && (text == name || name + "=" <= text)
    ensures BeforeEquals(text) == name
  {
    forall i | 0 <= i < |name| ensures text[i] != '=' {
      assert name[i] in name && text[i] == name[i];
    }
    assert name + "=" <= text ==> text[|name|] == '=';
  }

  lemma SkipNext(o: Skipped, rest: seq<Word>, valued: set<string>, operands: nat, scan: CommandScan, env: bool)
    requires IsSkipped(o, valued, env)
    ensures SkipOptions((if o.Valued? then [o.word, o.value] else [o.word]) + rest, valued, operands, scan, env) ==
            SkipOptions(rest, valued, operands, if o.Sets? then scan.Assigns(o.name) else scan, env)
  {
    var words := (if o.Valued? then [o.word, o.value] else [o.word]) + rest;
    var text := o.word.text;
    SplittingIs(text);
    assert words[1..] == (if o.Valued? then [o.value] else []) + rest;
    assert o.Valued? ==> Drop(words, 2) == rest;
    assert text != "" ==> text[0..1] == [text[0]];
    if o.Sets? {
      assert text[|o.name|] == '=';
      assert '=' in text;
      BeforeFirst(o.name, text);
    }
    hide IsSplitting, SplitsEnvString, BeforeEquals;
  }

  lemma SkipEnd(rest: seq<Word>, valued: set<string>, operands: nat, scan: CommandScan, env: bool)
    requires BeginsOperands(rest, valued, env)
    ensures SkipOptions(rest, valued, operands, scan, env) == (Drop(rest, operands), scan)
  {
    if rest != [] {
      var text := rest[0].text;
      SplittingIs(text);
      assert text != "" ==> text[0..1] == [text[0]];
      hide IsSplitting, SplitsEnvString;
    }
  }

  lemma SkipMarker(end: Word, rest: seq<Word>, valued: set<string>, operands: nat, scan: CommandScan, env: bool)
    requires end.text == "--"
    ensures SkipOptions([end] + rest, valued, operands, scan, env) == (Drop(rest, operands), scan)
  {
    assert ([end] + rest)[1..] == rest;
  }

  lemma SkipSplit(s: Word, rest: seq<Word>, valued: set<string>, operands: nat, scan: CommandScan)
    requires s.text != "--" && IsSplitting(s.text)
    ensures SkipOptions([s] + rest, valued, operands, scan, true) == ([], scan.Opaque(SplitsString))
  {
    SplittingIs(s.text);
    hide IsSplitting, SplitsEnvString;
  }

  function AssignsAll(scan: CommandScan, names: seq<string>): CommandScan {
    scan.(assignments := scan.assignments + names)
  }

  lemma WordsCons(opts: seq<Skipped>, rest: seq<Word>)
    requires opts != []
    ensures WordsOf(opts) + rest
         == (if opts[0].Valued? then [opts[0].word, opts[0].value] else [opts[0].word]) + (WordsOf(opts[1..]) + rest)
  {
  }

  lemma NamesCons(opts: seq<Skipped>, scan: CommandScan)
    requires opts != []
    ensures AssignsAll(scan, NamesOf(opts))
         == AssignsAll(if opts[0].Sets? then scan.Assigns(opts[0].name) else scan, NamesOf(opts[1..]))
  {
  }

  lemma SkippedCons(opts: seq<Skipped>, valued: set<string>, env: bool)
    requires opts != [] && AreSkipped(opts, valued, env)
    ensures AreSkipped(opts[1..], valued, env) && IsSkipped(opts[0], valued, env)
  {
    hide IsSkipped;
    assert opts[0] in opts;
  }

  lemma NoOptions(scan: CommandScan, rest: seq<Word>)
    ensures WordsOf([]) + rest == rest && NamesOf([]) == [] && AssignsAll(scan, NamesOf([])) == scan
  {
  }

  /** Options are skipped, and env's assignments noted. */
  lemma {:induction false} OptionsGoBy(opts: seq<Skipped>, rest: seq<Word>, valued: set<string>, operands: nat,
                                       scan: CommandScan, env: bool)
    requires AreSkipped(opts, valued, env)
    ensures SkipOptions(WordsOf(opts) + rest, valued, operands, scan, env)
         == SkipOptions(rest, valued, operands, AssignsAll(scan, NamesOf(opts)), env)
    decreases |opts|
  {
    hide *;
    if opts == [] {
      NoOptions(scan, rest);
    } else {
      var o, others := opts[0], opts[1..];
      WordsCons(opts, rest);
      NamesCons(opts, scan);
      SkippedCons(opts, valued, env);
      SkipNext(o, WordsOf(others) + rest, valued, operands, scan, env);
      OptionsGoBy(others, rest, valued, operands, if o.Sets? then scan.Assigns(o.name) else scan, env);
    }
  }

  // ----- commands that run another -----

  /** The programs that run another: the options that take a value, and how many operands come first. */
  predicate IsWrapper(base: string, valued: set<string>, operands: nat) {
    || (base == "env" && valued == {"-u", "--unset", "-C", "--chdir"} && operands == 0)
    || (base == "nohup" && valued == {} && operands == 0)
    || (base == "nice" && valued == {"-n", "--adjustment"} && operands == 0)
    || (base == "timeout" && valued == {"-s", "--signal", "-k", "--kill-after"} && operands == 1)
    || (base == "stdbuf" && valued == {"-i", "-o", "-e"} && operands == 0)
    || (base == "xargs" && valued == {"-I", "-n", "-P", "-L", "-s", "-E", "-d", "-a"} && operands == 0)
  }

  /** The builtins that run another command. */
  predicate IsExec(name: string, valued: set<string>) {
    (name == "exec" && valued == {"-a"}) || (name in {"command", "builtin"} && valued == {})
  }

  const CODE := {"eval", "source", ".", "trap", "alias", "enable", "hash", "coproc", "let", "[[", "case"}

  const INERT := {"cd", "pwd", "echo", "printf", "true", "false", ":", "exit", "return", "shift", "export", "set",
                  "umask", "test", "[", "declare", "local", "typeset", "readonly", "read", "mapfile", "readarray",
                  "getopts", "unset"}

  const CHANGERS := {"cd", "pushd", "popd"}

  /** base is the last component of the path. */
  predicate EndsIn(path: string, base: string) {
    && '/' !in base && |base| <= |path| && path[|path| - |base|..] == base
    && (|base| < |path| ==> path[|path| - |base| - 1] == '/')
  }

  lemma {:induction false} BaseIs(path: string, base: string)
    requires EndsIn(path, base)
    ensures BaseName(path) == base
  {
    if base != "" {
      var n, m := |path| - 1, |base| - 1;
      assert path[n] == base[m] && base[m] in base;
      assert path[..n][n - m..] == base[..m];
      BaseIs(path[..n], base[..m]);
    }
  }

  /** Plain names are paths of one component. */
  lemma PlainBase(name: string)
    requires '/' !in name
    ensures EndsIn(name, name)
  {
  }

  lemma TablesAre(name: string)
    ensures IsCode(name) <==> name in CODE
    ensures IsInert(name) <==> name in INERT
    ensures IsDirChanger(name) <==> name in CHANGERS
    ensures forall valued :: ExecBuiltin(name) == Some(valued) <==> IsExec(name, valued)
    ensures forall valued, n: nat :: Wrapper(name) == Some((valued, n)) <==> IsWrapper(name, valued, n)
  {
  }

  lemma BuiltinsHaveNoSlash(name: string)
    requires name in CODE || name in INERT || name in CHANGERS || ExecBuiltin(name).Some?
    ensures '/' !in name && Wrapper(name).None? && name != "find"
  {
  }

  /** Behind a wrapper's options: the operands, marked or not, and behind as many of them as it takes the command. */
  predicate Follows(after: seq<Word>, valued: set<string>, env: bool, operands: nat, rest: seq<Word>) {
    var marked := after != [] && after[0].text == "--";
    var words := if marked then after[1..] else after;
    && (marked || BeginsOperands(after, valued, env))
    && rest == if operands <= |words| then words[operands..] else []
  }

  lemma RestFollows(opts: seq<Skipped>, after: seq<Word>, valued: set<string>, operands: nat, scan: CommandScan,
                    env: bool, rest: seq<Word>)
    requires AreSkipped(opts, valued, env) && Follows(after, valued, env, operands, rest)
    ensures SkipOptions(WordsOf(opts) + after, valued, operands, scan, env) == (rest, AssignsAll(scan, NamesOf(opts)))
  {
    hide AreSkipped, BeginsOperands, SkipOptions;
    OptionsGoBy(opts, after, valued, operands, scan, env);
    var scan1 := AssignsAll(scan, NamesOf(opts));
    if after != [] && after[0].text == "--" {
      assert after == [after[0]] + after[1..];
      SkipMarker(after[0], after[1..], valued, operands, scan1, env);
    } else {
      SkipEnd(after, valued, operands, scan1, env);
    }
  }

  /** No wrapper is a builtin. */
  lemma WrapperIsNoBuiltin(name: string, base: string, valued: set<string>, operands: nat)
    requires EndsIn(name, base) && (IsWrapper(base, valued, operands) || base == "find")
    ensures BaseName(name) == base
    ensures name !in CODE && name !in INERT && name !in CHANGERS && ExecBuiltin(name).None?
  {
    hide CODE, INERT, CHANGERS, IsWrapper, EndsIn, BaseName;
    BaseIs(name, base);
    TablesAre(base);
    if name in CODE || name in INERT || name in CHANGERS || ExecBuiltin(name).Some? {
      BuiltinsHaveNoSlash(name);
      PlainBase(name);
      BaseIs(name, name);
    }
  }

  /** A command that is neither computed, code nor a builtin that runs another. */
  lemma NamedCommand(w: Word, args: seq<Word>)
    requires !w.dynamic && w.text !in CODE && ExecBuiltin(w.text).None?
    ensures NamesCommand([w] + args) && ([w] + args)[1..] == args
  {
    TablesAre(w.text);
  }

  /** A wrapper is listed, and what it runs is analysed in turn. */
  lemma WrapperRuns(w: Word, opts: seq<Skipped>, after: seq<Word>, rest: seq<Word>, base: string, valued: set<string>,
                    operands: nat)
    requires !w.dynamic && EndsIn(w.text, base) && IsWrapper(base, valued, operands)
    requires AreSkipped(opts, valued, base == "env") && Follows(after, valued, base == "env", operands, rest)
    ensures var e := CommandEffect(rest);
            CommandEffect([w] + (WordsOf(opts) + after)) ==
            e.(programs := [w.text] + e.programs, assignments := NamesOf(opts) + e.assignments)
  {
    hide *;
    var words := [w] + (WordsOf(opts) + after);
    var scan := EMPTY_SCAN.Runs(w.text);
    WrapperIsNoBuiltin(w.text, base, valued, operands);
    TablesAre(w.text);
    TablesAre(base);
    NamedCommand(w, WordsOf(opts) + after);
    CommandIs(words, EMPTY_SCAN);
    CommandEffectIs(words);
    EntersNothing(words, EMPTY_SCAN);
    RestFollows(opts, after, valued, operands, scan, base == "env", rest);
    CommandAdds(rest, AssignsAll(scan, NamesOf(opts)));
    NotFind(base, valued, operands);
    assert Wrapper(base) == Some((valued, operands));
    assert CommandEffect(words) == Command(rest, AssignsAll(scan, NamesOf(opts)));
    RunsFirst(w.text, NamesOf(opts), CommandEffect(rest), CommandEffect(words));
  }

  /** Any command but a computed one, code and the builtins is listed first of all it runs. */
  lemma CommandIsFirst(w: Word, args: seq<Word>)
    requires !w.dynamic && w.text !in CODE && w.text !in INERT && ExecBuiltin(w.text).None?
    ensures [w.text] <= CommandEffect([w] + args).programs
  {
    hide *;
    var words, name, base := [w] + args, w.text, BaseName(w.text);
    var scan := Entered(words, EMPTY_SCAN).Runs(name);
    TablesAre(name);
    NamedCommand(w, args);
    CommandIs(words, EMPTY_SCAN);
    CommandEffectIs(words);
    FindAdds(words, 0, scan);
    AndNothing(scan);
    var e := EMPTY_SCAN;
    if base == "find" {
      e := FindCommands(words, 0, EMPTY_SCAN);
    } else if Wrapper(base).Some? {
      var v := Wrapper(base).value;
      RestAdds(words, v.0, v.1, scan, base == "env");
      var (rest, found) := SkipOptions(words[1..], v.0, v.1, EMPTY_SCAN, base == "env");
      e := And(found, CommandEffect(rest));
    } else {
      AddsNothing(scan);
    }
    StaysFirst(words, name, e, CommandEffect(words));
  }

  lemma AddsNothing(scan: CommandScan)
    ensures Adds(scan, EMPTY_SCAN, scan)
  {
    AndNothing(scan);
  }

  lemma StaysFirst(words: seq<Word>, name: string, e: CommandScan, scan: CommandScan)
    requires words != [] && Adds(Entered(words, EMPTY_SCAN).Runs(name), e, scan)
    ensures [name] <= scan.programs
  {
    hide Here;
  }

  /** So behind a wrapper, its options and its operands a program is listed, right after the wrapper. */
  lemma WrappedIsListed(w: Word, opts: seq<Skipped>, after: seq<Word>, p: Word, args: seq<Word>, base: string,
                        valued: set<string>, operands: nat)
    requires !w.dynamic && EndsIn(w.text, base) && IsWrapper(base, valued, operands)
    requires AreSkipped(opts, valued, base == "env") && Follows(after, valued, base == "env", operands, [p] + args)
    requires !p.dynamic && p.text !in CODE && p.text !in INERT && ExecBuiltin(p.text).None?
    ensures [w.text, p.text] <= CommandEffect([w] + (WordsOf(opts) + after)).programs
  {
    hide *;
    WrapperRuns(w, opts, after, [p] + args, base, valued, operands);
    CommandIsFirst(p, args);
  }

  lemma NotFind(base: string, valued: set<string>, operands: nat)
    requires IsWrapper(base, valued, operands)
    ensures base != "find"
  {
  }

  lemma EntersNothing(words: seq<Word>, scan: CommandScan)
    requires words != [] && words[0].text !in CHANGERS
    ensures Entered(words, scan) == scan
  {
    TablesAre(words[0].text);
    assert scan.directories + [] == scan.directories;
  }

  lemma RunsFirst(name: string, names: seq<string>, e: CommandScan, scan: CommandScan)
    requires Adds(AssignsAll(EMPTY_SCAN.Runs(name), names), e, scan)
    ensures scan == e.(programs := [name] + e.programs, assignments := names + e.assignments)
  {
  }

  /** exec, command and builtin are not listed, but what they run is analysed. */
  lemma ExecRuns(w: Word, opts: seq<Skipped>, after: seq<Word>, rest: seq<Word>, valued: set<string>)
    requires !w.dynamic && IsExec(w.text, valued)
    requires AreSkipped(opts, valued, false) && Follows(after, valued, false, 0, rest)
    ensures CommandEffect([w] + (WordsOf(opts) + after)) == CommandEffect(rest)
  {
    hide *;
    var words := [w] + (WordsOf(opts) + after);
    TablesAre(w.text);
    CommandEffectIs(words);
    ExecIs(w, WordsOf(opts) + after, valued);
    RestFollows(opts, after, valued, 0, EMPTY_SCAN, false, rest);
    NoNames(opts, valued);
    NoOptions(EMPTY_SCAN, []);
    CommandEffectIs(rest);
  }

  lemma ExecIs(w: Word, args: seq<Word>, valued: set<string>)
    requires !w.dynamic && IsExec(w.text, valued)
    ensures var (rest, found) := SkipOptions(args, valued, 0, EMPTY_SCAN, false);
            Command([w] + args, EMPTY_SCAN) == Command(rest, found)
  {
    TablesAre(w.text);
    hide IsInert, IsDirChanger, SkipOptions, CheckInert, FindCommands;
    assert ([w] + args)[1..] == args;
  }

  lemma {:induction false} NoNames(opts: seq<Skipped>, valued: set<string>)
    requires AreSkipped(opts, valued, false)
    ensures NamesOf(opts) == []
  {
    if opts != [] {
      SkippedCons(opts, valued, false);
      NoNames(opts[1..], valued);
    }
  }

  /** env -S is reported, and what follows is not looked at. */
  lemma EnvSplits(w: Word, opts: seq<Skipped>, s: Word, after: seq<Word>, valued: set<string>)
    requires !w.dynamic && EndsIn(w.text, "env") && IsWrapper("env", valued, 0) && AreSkipped(opts, valued, true)
    requires s.text != "--" && IsSplitting(s.text)
    ensures CommandEffect([w] + (WordsOf(opts) + ([s] + after)))
         == CommandScan([w.text], [SplitsString], NamesOf(opts), [], [], false)
  {
    hide *;
    var words := [w] + (WordsOf(opts) + ([s] + after));
    var scan := EMPTY_SCAN.Runs(w.text);
    WrapperIsNoBuiltin(w.text, "env", valued, 0);
    TablesAre(w.text);
    TablesAre("env");
    NamedCommand(w, WordsOf(opts) + ([s] + after));
    CommandIs(words, EMPTY_SCAN);
    CommandEffectIs(words);
    EntersNothing(words, EMPTY_SCAN);
    OptionsGoBy(opts, [s] + after, valued, 0, scan, true);
    SkipSplit(s, after, valued, 0, AssignsAll(scan, NamesOf(opts)));
    assert CommandEffect(words) == Command([], AssignsAll(scan, NamesOf(opts)).Opaque(SplitsString));
    SplitIs(w.text, NamesOf(opts));
  }

  lemma SplitIs(name: string, names: seq<string>)
    ensures Command([], AssignsAll(EMPTY_SCAN.Runs(name), names).Opaque(SplitsString))
         == CommandScan([name], [SplitsString], names, [], [], false)
  {
  }

  /** The commands behind find's actions, from word k on. */
  function Actions(words: seq<Word>, k: nat): seq<seq<Word>>
    requires k <= |words|
    decreases |words| - k
  {
    if k == |words| then []
    else
      (if words[k].text in {"-exec", "-execdir", "-ok", "-okdir"} then [words[k + 1..]] else [])
      + Actions(words, k + 1)
  }

  /** What the analyses of these commands find, one after the other. */
  function CommandEffects(commands: seq<seq<Word>>): CommandScan {
    if commands == [] then EMPTY_SCAN else And(CommandEffect(commands[0]), CommandEffects(commands[1..]))
  }

  lemma {:induction false} ActionsRun(words: seq<Word>, k: nat, scan: CommandScan)
    requires k <= |words|
    ensures FindCommands(words, k, scan) == And(scan, CommandEffects(Actions(words, k)))
    decreases |words| - k
  {
    AndNothing(scan);
    if k < |words| {
      hide Command, And;
      var args, rest := words[k + 1..], Actions(words, k + 1);
      if IsFindExec(words[k].text) {
        CommandAdds(args, scan);
        assert ([args] + rest)[1..] == rest;
        ActionsRun(words, k + 1, Command(args, scan));
        AndAssoc(scan, CommandEffect(args), CommandEffects(rest));
        assert Actions(words, k) == [args] + rest;
      } else {
        assert Actions(words, k) == rest;
        ActionsRun(words, k + 1, scan);
      }
    }
  }

  /** find is listed, and the command behind each of its actions is analysed. */
  lemma FindRuns(w: Word, args: seq<Word>)
    requires !w.dynamic && EndsIn(w.text, "find")
    ensures CommandEffect([w] + args) == And(EMPTY_SCAN.Runs(w.text), CommandEffects(Actions([w] + args, 0)))
  {
    hide *;
    WrapperIsNoBuiltin(w.text, "find", {}, 0);
    TablesAre(w.text);
    NamedCommand(w, args);
    CommandIs([w] + args, EMPTY_SCAN);
    CommandEffectIs([w] + args);
    EntersNothing([w] + args, EMPTY_SCAN);
    assert BaseName(w.text) == "find";
    assert CommandEffect([w] + args) == FindCommands([w] + args, 0, EMPTY_SCAN.Runs(w.text));
    ActionsRun([w] + args, 0, EMPTY_SCAN.Runs(w.text));
  }

  /** A computed name is reported, and so is a word that evaluates code; neither is followed. */
  lemma UnseenIsReported(w: Word, args: seq<Word>)
    ensures w.dynamic ==> CommandEffect([w] + args) == EMPTY_SCAN.Opaque(ComputedProgram(w.text))
    ensures !w.dynamic && w.text in CODE ==> CommandEffect([w] + args) == EMPTY_SCAN.Opaque(EvaluatesCode(w.text))
  {
    TablesAre(w.text);
    hide IsCode;
  }

  /** Any other program is listed, and that is all but for the directory that pushd and popd change to. */
  lemma ProgramIsListed(w: Word, args: seq<Word>, base: string)
    requires !w.dynamic && EndsIn(w.text, base) && base != "find"
    requires w.text !in CODE && w.text !in INERT && ExecBuiltin(w.text).None? && Wrapper(base).None?
    ensures CommandEffect([w] + args)
         == EMPTY_SCAN.(programs := [w.text],
                        directories := if w.text in {"pushd", "popd"} then [DirectoryOf(w.text, args)] else [])
  {
    TablesAre(w.text);
    BaseIs(w.text, base);
    NamedCommand(w, args);
    assert w.text in CHANGERS <==> w.text in {"pushd", "popd"};
    hide CODE, INERT, IsCode, IsInert, IsDirChanger, DirectoryOf, EndsIn, BaseName, FindCommands, CheckInert;
    CommandIs([w] + args, EMPTY_SCAN);
    assert EMPTY_SCAN.directories + [DirectoryOf(w.text, args)] == [DirectoryOf(w.text, args)];
  }

  /** A builtin that runs nothing is not listed; it may assign and report. */
  lemma InertRunsNothing(w: Word, args: seq<Word>)
    requires !w.dynamic && w.text in INERT
    ensures var e := CheckInert(w.text, args, EMPTY_SCAN);
            var cds := if w.text == "cd" then [DirectoryOf("cd", args)] else [];
            CommandEffect([w] + args) == CommandScan([], e.opacity, e.assignments, [], cds, false)
  {
    hide *;
    TablesAre(w.text);
    InertIsNoCode(w.text);
    NamedCommand(w, args);
    CommandIs([w] + args, EMPTY_SCAN);
    CommandEffectIs([w] + args);
    var e := Entered([w] + args, EMPTY_SCAN);
    EnteredIs(w, args);
    InertAdds(w.text, args, e);
    InertNotes(w.text, args);
    NotesAfter(e, CheckInert(w.text, args, EMPTY_SCAN), CheckInert(w.text, args, e));
  }

  lemma NotesAfter(scan: CommandScan, e: CommandScan, scan': CommandScan)
    requires Adds(scan, e, scan') && e == EMPTY_SCAN.(opacity := e.opacity, assignments := e.assignments)
    requires scan == EMPTY_SCAN.(directories := scan.directories)
    ensures scan' == CommandScan([], e.opacity, e.assignments, [], scan.directories, false)
  {
  }

  lemma EnteredIs(w: Word, args: seq<Word>)
    requires w.text in INERT
    ensures Entered([w] + args, EMPTY_SCAN)
         == EMPTY_SCAN.(directories := if w.text == "cd" then [DirectoryOf("cd", args)] else [])
  {
    hide DirectoryOf;
    assert ([w] + args)[1..] == args;
  }

  lemma InertNotes(name: string, args: seq<Word>)
    ensures var e := CheckInert(name, args, EMPTY_SCAN);
            e == EMPTY_SCAN.(opacity := e.opacity, assignments := e.assignments)
  {
    NamesNote(name, args, EMPTY_SCAN);
    hide HasText, ExportsEverything, AssignsNames, TakesNames, AssignedNames;
  }

  lemma {:induction false} NamesNote(name: string, args: seq<Word>, scan: CommandScan)
    ensures var scan' := AssignedNames(name, args, scan);
            scan' == scan.(opacity := scan'.opacity, assignments := scan'.assignments)
    decreases |args|
  {
    if args != [] {
      hide StartsWith, IsName, BeforeEquals, TakesNames;
      NamesNote(name, args[1..], scan);
      var variable := if TakesNames(name) then args[0].text else BeforeEquals(args[0].text);
      NamesNote(name, args[1..], scan.Assigns(variable));
      NamesNote(name, args[1..], scan.Opaque(ComputedVariable(name)).Assigns(variable));
    }
  }

  lemma InertIsNoCode(name: string)
    requires name in INERT
    ensures name !in CODE && ExecBuiltin(name).None?
  {
  }

  // ----- what comes before the command word -----

  const LEADING := {"if", "then", "else", "elif", "do", "while", "until", "!", "{", "time"}

  const CLOSING := {"fi", "done", "}"}

  /** The text of a variable's name. */
  predicate IsVariable(text: string) {
    && text != "" && IsNameStart(text[0])
    && forall c :: c in text ==> IsNameStart(c) || '0' <= c <= '9'
  }

  lemma {:induction false} NameRunIs(s: string, i: nat)
    requires i <= |s|
    ensures forall k :: i <= k < i + NameRun(s, i) ==> IsNameStart(s[k]) || '0' <= s[k] <= '9'
    ensures i + NameRun(s, i) < |s| ==> var c := s[i + NameRun(s, i)]; !IsNameStart(c) && !('0' <= c <= '9')
    decreases |s| - i
  {
    if i < |s| && (IsNameStart(s[i]) || IsDigit(s[i])) { NameRunIs(s, i + 1); }
  }

  lemma NamesAre(text: string)
    ensures IsName(text) <==> IsVariable(text)
  {
    NameRunIs(text, 0);
    if IsVariable(text) {
      forall k | 0 <= k < |text| ensures IsNameStart(text[k]) || '0' <= text[k] <= '9' {
        assert text[k] in text;
      }
    }
  }

  /** The word assigns: it is written NAME=... or NAME+=... up to there without quotes or expansions. */
  predicate IsAssignment(w: Word, name: string) {
    && IsVariable(name)
    && var n := if w.prefix.None? then |w.text| else w.prefix.value;
       (name + "=" <= w.text && |name| + 1 <= n) || (name + "+=" <= w.text && |name| + 2 <= n)
  }

  lemma AssignmentIs(w: Word, name: string)
    requires IsAssignment(w, name)
    ensures 0 < AssignmentEnd(w.text) <= Prefix(w) && StripPlus(BeforeEquals(w.text)) == name
    ensures !IsKeyword(w.text)
  {
    NameEnds(w.text, name);
    NoKeyword(w.text);
    var text, k := w.text, |name|;
    hide IsKeyword, IsVariable, BeforeEquals, NameLength, StripPlus;
    if name + "=" <= text {
      assert text[k] == '=';
      BeforeFirst(name, text);
      PlusStripped(name, "");
      assert name + "" == name;
    } else {
      assert text[k] == '+' && text[k + 1] == '=';
      BeforeFirst(name + "+", text);
      PlusStripped(name, "+");
    }
  }

  predicate IsKeyword(text: string) {
    text in LEADING || text in CLOSING || text in {"for", "select", "function"}
  }

  lemma NoKeyword(text: string)
    requires '=' in text
    ensures !IsKeyword(text)
  {
  }

  lemma PlusStripped(name: string, plus: string)
    requires IsVariable(name) && plus in {"", "+"}
    ensures StripPlus(name + plus) == name
  {
    assert name[|name| - 1] in name;
    assert name + "" == name && (name + "+")[..|name|] == name;
  }

  /** The name at the start of the text ends where another character does. */
  lemma NameEnds(text: string, name: string)
    requires IsVariable(name) && (name + "=" <= text || name + "+=" <= text)
    ensures NameLength(text, 0) == |name| && '=' !in name && '=' in text
  {
    NameRunIs(text, 0);
    var k := |name|;
    assert forall i :: 0 <= i < k ==> text[i] == name[i] && name[i] in name;
    assert text[0] == name[0];
    assert text[k] == '=' || (text[k] == '+' && text[k + 1] == '=');
  }

  lemma NoAssignment(w: Word, name: string)
    requires '=' !in w.text
    ensures !IsAssignment(w, name)
  {
    if IsAssignment(w, name) { NameEnds(w.text, name); }
  }

  lemma IsAssignmentOf(w: Word)
    requires 0 < AssignmentEnd(w.text) <= Prefix(w)
    ensures IsAssignment(w, w.text[..NameLength(w.text, 0)])
  {
    NameRunIs(w.text, 0);
    var n := NameLength(w.text, 0);
    var name := w.text[..n];
    assert forall c :: c in name ==> IsNameStart(c) || '0' <= c <= '9';
    assert name[0] == w.text[0];
    if w.text[n] == '=' {
      assert w.text[..n + 1] == name + "=";
    } else {
      assert w.text[..n + 2] == name + "+=";
    }
  }

  lemma KeywordsAre(text: string)
    ensures IsPrefixKeyword(text) <==> text in LEADING
    ensures IsEndKeyword(text) <==> text in CLOSING
    ensures IsLoopKeyword(text) <==> text in {"for", "select"}
    ensures text in LEADING || text in CLOSING ==> text !in {"for", "select", "function"}
  {
  }

  /** A keyword is passed over, and time's -p with it. */
  lemma KeywordIsPassed(w: Word, args: seq<Word>)
    requires !w.quoted && !w.dynamic && (w.text in LEADING || w.text in CLOSING)
    ensures var rest := if w.text == "time" && args != [] && args[0].text == "-p" then args[1..] else args;
            Effect([w] + args) ==
            Effect(rest).(repeats := w.text in {"while", "until"} || Effect(rest).repeats)
  {
    KeywordsAre(w.text);
    assert ([w] + args)[1..] == args && (args != [] ==> ([w] + args)[2..] == args[1..]);
    var rest := if w.text == "time" && args != [] && args[0].text == "-p" then args[1..] else args;
    assert w.text in {"while", "until"} ==> w.text in LEADING;
    hide AssignmentEnd, LEADING, CLOSING, IsPrefixKeyword, IsEndKeyword, IsLoopKeyword, Command;
    AnalyzeAdds(rest, EMPTY_SCAN.(repeats := true));
    NothingBut(Effect(rest));
  }

  lemma NothingBut(e: CommandScan)
    ensures e.redirects == [] ==> And(EMPTY_SCAN.(repeats := true), e) == e.(repeats := true)
  {
  }

  /** A function's name is passed over; its commands may run more often than they appear. */
  lemma FunctionIsPassed(w: Word, args: seq<Word>)
    requires !w.quoted && !w.dynamic && w.text == "function"
    ensures Effect([w] + args) == Effect(if args == [] then [] else args[1..]).(repeats := true)
  {
    var rest := if args == [] then [] else args[1..];
    assert Drop([w] + args, 2) == rest;
    hide AssignmentEnd, IsPrefixKeyword, IsEndKeyword, Command, Drop;
    AnalyzeAdds(rest, EMPTY_SCAN.(repeats := true));
    NothingBut(Effect(rest));
  }

  /** A loop over words assigns its variable and runs nothing. */
  lemma LoopAssigns(w: Word, args: seq<Word>)
    requires !w.quoted && !w.dynamic && w.text in {"for", "select"}
    ensures Effect([w] + args) ==
            if args == [] then EMPTY_SCAN
            else EMPTY_SCAN.(assignments := [args[0].text],
                             opacity := if args[0].dynamic || !IsVariable(args[0].text)
                                        then [ComputedVariable(w.text)] else [])
  {
    if args != [] { NamesAre(args[0].text); }
    hide AssignmentEnd, IsPrefixKeyword, IsEndKeyword, Command, IsName, IsVariable;
  }

  /** An assignment in front of the command is noted. */
  lemma AssignmentIsNoted(w: Word, args: seq<Word>, name: string)
    requires IsAssignment(w, name)
    ensures Effect([w] + args) == Effect(args).(assignments := [name] + Effect(args).assignments)
  {
    AssignmentIs(w, name);
    KeywordsAre(w.text);
    assert ([w] + args)[1..] == args;
    assert !IsPrefixKeyword(w.text) && !IsEndKeyword(w.text) && !IsLoopKeyword(w.text) && w.text != "function";
    assert w.text !in {"while", "until"};
    hide AssignmentEnd, IsPrefixKeyword, IsEndKeyword, IsLoopKeyword, Command, StripPlus, BeforeEquals, Prefix;
    hide IsAssignment, IsKeyword;
    AnalyzeAdds(args, EMPTY_SCAN.Assigns(name));
    assert Adds(EMPTY_SCAN.Assigns(name), Effect(args), Effect([w] + args));
  }

  /** What is none of these is the command. */
  lemma TheRestIsTheCommand(words: seq<Word>)
    requires words != [] ==>
               var w := words[0];
               && (!w.quoted && !w.dynamic ==> !IsKeyword(w.text))
               && forall name :: !IsAssignment(w, name)
    ensures Effect(words) == CommandEffect(words)
  {
    if words != [] {
      var w := words[0];
      KeywordsAre(w.text);
      if 0 < AssignmentEnd(w.text) <= Prefix(w) {
        IsAssignmentOf(w);
      }
      assert w.text in {"while", "until"} ==> w.text in LEADING;
    }
    hide AssignmentEnd, IsPrefixKeyword, IsEndKeyword, IsLoopKeyword, Command, StripPlus, BeforeEquals, Prefix;
    hide IsAssignment;
  }

  // ----- the builtins that are not followed -----

  predicate HasArg(args: seq<Word>, text: string) {
    exists k :: 0 <= k < |args| && args[k].text == text
  }

  /** An option of set that exports every later assignment. */
  predicate IsExportAll(text: string) {
    text == "allexport" || (text != "" && text[0] == '-' && (|text| == 1 || text[1] != '-') && 'a' in text)
  }

  const DECLARING := {"declare", "local", "typeset", "readonly"}

  const READING := {"read", "mapfile", "readarray", "getopts"}

  /** What the builtins that assign no names of their own report. */
  lemma InertReports(name: string, args: seq<Word>)
    requires name != "export" && name !in DECLARING && name !in READING
    ensures CheckInert(name, args, EMPTY_SCAN) == EMPTY_SCAN.(opacity :=
              if name == "printf" && HasArg(args, "-v") then [PrintfAssigns]
              else if name in {"test", "["} && (HasArg(args, "-v") || HasArg(args, "-R")) then [TestsSubscript(name)]
              else if name == "set" && exists k :: 0 <= k < |args| && IsExportAll(args[k].text) then [ExportsAll]
              else [])
  {
    forall text ensures HasText(args, text) <==> HasArg(args, text) {
      if HasArg(args, text) {
        var k :| 0 <= k < |args| && args[k].text == text;
        assert args[k] in args;
      }
    }
    forall text ensures ExportsEverything(text) <==> IsExportAll(text) {
      assert text != "" ==> text[0..1] == [text[0]];
      assert |text| > 1 ==> text[0..2] == [text[0], text[1]];
    }
    hide HasText, HasArg, ExportsEverything, IsExportAll, AssignedNames;
  }

  /** The arguments that are no options. */
  function Named(args: seq<Word>): seq<Word> {
    if args == [] then []
    else (if args[0].text != "" && args[0].text[0] == '-' then [] else [args[0]]) + Named(args[1..])
  }

  /** The name an argument assigns: all of it, or what stands before its equals sign. */
  predicate IsNameOf(builtin: string, arg: Word, name: string) {
    if builtin in READING then name == arg.text
    else '=' !in name && (arg.text == name || name + "=" <= arg.text)
  }

  /** The name cannot be told. */
  predicate IsComputed(builtin: string, arg: Word, name: string) {
    !IsVariable(name) || (builtin != "export" && arg.dynamic)
  }

  /** For each argument in turn its name, and a report if it cannot be told. */
  ghost predicate AssignsEach(builtin: string, args: seq<Word>, names: seq<string>, reports: seq<Reason>) {
    if args == [] then names == [] && reports == []
    else
      && names != [] && IsNameOf(builtin, args[0], names[0])
      && var n := if IsComputed(builtin, args[0], names[0]) then 1 else 0;
         && n <= |reports| && (n == 1 ==> reports[0] == ComputedVariable(builtin))
         && AssignsEach(builtin, args[1..], names[1..], reports[n..])
  }

  lemma NameOfIs(builtin: string, arg: Word)
    ensures var variable := if TakesNames(builtin) then arg.text else BeforeEquals(arg.text);
            IsNameOf(builtin, arg, variable) && (IsVariable(variable) <==> IsName(variable))
    ensures StartsWith(arg.text, "-", 0) <==> arg.text != "" && arg.text[0] == '-'
  {
    var k := Find(arg.text, '=', 0);
    NamesAre(BeforeEquals(arg.text));
    NamesAre(arg.text);
    assert arg.text != "" ==> arg.text[0..1] == [arg.text[0]];
    assert k < |arg.text| ==> arg.text[..k + 1] == arg.text[..k] + "=";
    hide IsVariable, IsName;
  }

  function OneName(builtin: string, arg: Word, variable: string): CommandScan {
    var now := if IsComputed(builtin, arg, variable) then EMPTY_SCAN.Opaque(ComputedVariable(builtin)) else EMPTY_SCAN;
    now.Assigns(variable)
  }

  lemma EachNext(builtin: string, arg: Word, rest: seq<Word>, variable: string, e: CommandScan, e': CommandScan)
    requires IsNameOf(builtin, arg, variable) && AssignsEach(builtin, rest, e.assignments, e.opacity)
    requires Adds(OneName(builtin, arg, variable), e, e')
    ensures AssignsEach(builtin, [arg] + rest, e'.assignments, e'.opacity)
  {
    hide IsNameOf, IsComputed;
    assert ([arg] + rest)[1..] == rest;
    assert e'.assignments[1..] == e.assignments;
    if IsComputed(builtin, arg, variable) {
      assert e'.opacity[1..] == e.opacity;
    } else {
      assert e'.opacity[0..] == e.opacity;
    }
  }

  lemma {:induction false} NamesAreAssigned(builtin: string, args: seq<Word>)
    ensures var e := AssignedNames(builtin, args, EMPTY_SCAN);
            AssignsEach(builtin, Named(args), e.assignments, e.opacity)
    decreases |args|
  {
    if args != [] {
      var arg, rest := args[0], args[1..];
      NameOfIs(builtin, arg);
      NamesAreAssigned(builtin, rest);
      hide BeforeEquals, StartsWith, IsName, IsVariable, TakesNames, AssignsEach, IsNameOf;
      if StartsWith(arg.text, "-", 0) {
        assert Named(args) == Named(rest);
      } else {
        var variable := if TakesNames(builtin) then arg.text else BeforeEquals(arg.text);
        NamesAdd(builtin, rest, OneName(builtin, arg, variable));
        EachNext(builtin, arg, Named(rest), variable, AssignedNames(builtin, rest, EMPTY_SCAN),
                 AssignedNames(builtin, args, EMPTY_SCAN));
      }
    }
  }

  /** The names that export, declare, read and the like assign, and those among them that cannot be told. */
  lemma BuiltinAssigns(builtin: string, args: seq<Word>)
    requires builtin == "export" || builtin in DECLARING || builtin in READING
    ensures var e := CheckInert(builtin, args, EMPTY_SCAN);
            AssignsEach(builtin, Named(args), e.assignments, e.opacity)
  {
    NamesAreAssigned(builtin, args);
    assert builtin != "printf" && builtin !in {"test", "["} && builtin != "set";
    hide HasText, ExportsEverything, AssignedNames, AssignsEach;
  }

  // ----- directories -----

  /** The arguments name one literal directory, beside options that do not matter. */
  predicate OnlyEnters(args: seq<Word>, k: nat) {
    && k < |args| && !args[k].dynamic && args[k].text !in {"", "-L", "-P", "-e", "-@"} && args[k].text[0] !in "-+"
    && (args[k].text[0] == '~' ==> args[k].quoted)
    && forall i {:trigger args[i]} :: 0 <= i < |args| && i != k ==> args[i].text in {"-L", "-P", "-e", "-@"}
  }

  lemma {:induction false} OperandsAre(args: seq<Word>)
    ensures Operands(args) == [] <==> forall i {:trigger args[i]} :: 0 <= i < |args| ==> IsDirOption(args[i].text)
    ensures forall w :: Operands(args) == [w] <==>
              exists k :: 0 <= k < |args| && args[k] == w && OnlyOperand(args, k)
  {
    hide IsDirOption;
    if args != [] {
      var rest := args[1..];
      OperandsAre(rest);
      assert args == [args[0]] + rest;
      forall w ensures Operands(args) == [w] <==> exists k :: 0 <= k < |args| && args[k] == w && OnlyOperand(args, k) {
        if IsDirOption(args[0].text) {
          assert Operands(args) == Operands(rest);
          forall k: nat | k < |rest| ensures OnlyOperand(rest, k) <==> OnlyOperand(args, k + 1) {
            OneBehind(args, k);
          }
        } else {
          assert Operands(args)[1..] == Operands(rest);
          assert Operands(args) == [w] <==> w == args[0] && Operands(rest) == [];
        }
      }
    }
  }

  predicate OnlyOperand(args: seq<Word>, k: nat) {
    && k < |args| && !IsDirOption(args[k].text)
    && forall i {:trigger args[i]} :: 0 <= i < |args| && i != k ==> IsDirOption(args[i].text)
  }

  lemma OneBehind(args: seq<Word>, k: nat)
    requires args != [] && IsDirOption(args[0].text)
    ensures OnlyOperand(args[1..], k) <==> OnlyOperand(args, k + 1)
  {
    hide IsDirOption;
    if OnlyOperand(args[1..], k) {
      forall i | 0 <= i < |args| && i != k + 1 ensures IsDirOption(args[i].text) {
        if i > 0 { assert args[i] == args[1..][i - 1]; }
      }
    }
  }

  /** The directory that is noted is the one literal operand, if there is just one; popd's never is. */
  lemma DirectoryIs(name: string, args: seq<Word>, dir: string)
    ensures DirectoryOf(name, args) == Some(dir) <==>
            name != "popd" && exists k :: 0 <= k < |args| && args[k].text == dir && OnlyEnters(args, k)
  {
    OperandsAre(args);
    hide OnlyOperand, OnlyEnters, Operands;
    var operands := Operands(args);
    forall k: nat | k < |args| ensures OnlyEnters(args, k) <==> OnlyOperand(args, k) && Literal(args[k]) {
      EntersIs(args, k);
    }
    if |operands| == 1 {
      var w := operands[0];
      assert operands == [w];
      var k :| 0 <= k < |args| && args[k] == w && OnlyOperand(args, k);
      forall m: nat | m < |args| && OnlyOperand(args, m) ensures args[m] == w {
        assert [args[m]] == operands;
      }
    } else {
      forall m: nat | m < |args| ensures !OnlyOperand(args, m) {
        if OnlyOperand(args, m) { OneOperand(args, m); }
      }
    }
  }

  lemma OneOperand(args: seq<Word>, k: nat)
    requires OnlyOperand(args, k)
    ensures |Operands(args)| == 1
  {
    OperandsAre(args);
    assert Operands(args) == [args[k]];
  }

  predicate Literal(w: Word) {
    !w.dynamic && w.text != "" && w.text[0] !in "-+" && (w.text[0] == '~' ==> w.quoted)
  }

  lemma EntersIs(args: seq<Word>, k: nat)
    requires k < |args|
    ensures OnlyEnters(args, k) <==> OnlyOperand(args, k) && Literal(args[k])
  {
  }
}
