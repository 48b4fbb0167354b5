/** What the analysis of a simple command finds does not depend on what was found before. */
module ShellEffects {
  import opened Wrappers
  import opened Texts
  import opened ShellScan

  /** What was found before, and behind it what is found now. */
  function And(a: CommandScan, e: CommandScan): CommandScan {
    CommandScan(a.programs + e.programs, a.opacity + e.opacity, a.assignments + e.assignments,
                a.redirects + e.redirects, a.directories + e.directories, a.repeats || e.repeats)
  }

  lemma AndAssoc(a: CommandScan, b: CommandScan, c: CommandScan)
    ensures And(And(a, b), c) == And(a, And(b, c))
  {
  }

  lemma AndNothing(a: CommandScan)
    ensures And(a, EMPTY_SCAN) == a && And(EMPTY_SCAN, a) == a
  {
  }

  lemma AndOne(a: CommandScan, name: string, r: Reason)
    ensures a.Opaque(r) == And(a, EMPTY_SCAN.Opaque(r))
    ensures a.Assigns(name) == And(a, EMPTY_SCAN.Assigns(name))
    ensures a.Runs(name) == And(a, EMPTY_SCAN.Runs(name))
    ensures a.(repeats := true) == And(a, EMPTY_SCAN.(repeats := true))
  {
  }

  // ----- one simple command -----

  /** What the analysis of these words finds. */
  function Effect(words: seq<Word>): CommandScan {
    Analyze(words, EMPTY_SCAN)
  }

  /** What it finds from the command word on. */
  function CommandEffect(words: seq<Word>): CommandScan {
    Command(words, EMPTY_SCAN)
  }

  /** An update of the scan that adds these findings, of which redirections are none. */
  ghost predicate Adds(scan: CommandScan, e: CommandScan, scan': CommandScan) {
    e.redirects == [] && scan' == And(scan, e)
  }

  lemma Then(scan: CommandScan, e: CommandScan, scan1: CommandScan, f: CommandScan, scan2: CommandScan,
             g: CommandScan)
    requires Adds(scan, e, scan1) && Adds(scan1, f, scan2) && Adds(e, f, g)
    ensures Adds(scan, g, scan2)
  {
    AndAssoc(scan, e, f);
  }

  lemma {:induction false} NamesAdd(name: string, args: seq<Word>, scan: CommandScan)
    ensures Adds(scan, AssignedNames(name, args, EMPTY_SCAN), AssignedNames(name, args, scan))
    decreases |args|
  {
    hide StartsWith, IsName, BeforeEquals, TakesNames, And;
    if args == [] {
      AndNothing(scan);
    } else if StartsWith(args[0].text, "-", 0) {
      NamesAdd(name, args[1..], scan);
    } else {
      var variable := if TakesNames(name) then args[0].text else BeforeEquals(args[0].text);
      var computed := !IsName(variable) || (name != "export" && args[0].dynamic);
      var scan1 := if computed then scan.Opaque(ComputedVariable(name)) else scan;
      var e1 := if computed then EMPTY_SCAN.Opaque(ComputedVariable(name)) else EMPTY_SCAN;
      AndOne(scan, variable, ComputedVariable(name));
      AndNothing(scan);
      AndOne(scan1, variable, ComputedVariable(name));
      AndOne(e1, variable, ComputedVariable(name));
      AndAssoc(scan, e1, EMPTY_SCAN.Assigns(variable));
      NamesAdd(name, args[1..], scan1.Assigns(variable));
      NamesAdd(name, args[1..], e1.Assigns(variable));
      Then(scan, e1.Assigns(variable), scan1.Assigns(variable), AssignedNames(name, args[1..], EMPTY_SCAN),
           AssignedNames(name, args, scan), AssignedNames(name, args, EMPTY_SCAN));
    }
  }

  lemma InertAdds(name: string, args: seq<Word>, scan: CommandScan)
    ensures Adds(scan, CheckInert(name, args, EMPTY_SCAN), CheckInert(name, args, scan))
  {
    NamesAdd(name, args, scan);
    AndNothing(scan);
    AndOne(scan, name, PrintfAssigns);
    AndOne(scan, name, TestsSubscript(name));
    AndOne(scan, name, ExportsAll);
    hide HasText, ExportsEverything, AssignsNames, TakesNames, AssignedNames, And;
  }

  lemma {:induction false} OptionsAdd(words: seq<Word>, valued: set<string>, operands: nat, scan: CommandScan,
                                      assignments: bool)
    ensures var (rest, e) := SkipOptions(words, valued, operands, EMPTY_SCAN, assignments);
            var (rest', scan') := SkipOptions(words, valued, operands, scan, assignments);
            rest' == rest && Adds(scan, e, scan')
    decreases |words|
  {
    hide StartsWith, SplitsEnvString, BeforeEquals, And, Drop;
    AndNothing(scan);
    AndOne(scan, "", SplitsString);
    if words != [] {
      var text := words[0].text;
      if text == "--" || (assignments && SplitsEnvString(text)) {
      } else if text in valued {
        OptionsAdd(Drop(words, 2), valued, operands, scan, assignments);
      } else if StartsWith(text, "-", 0) && |text| > 1 {
        OptionsAdd(words[1..], valued, operands, scan, assignments);
      } else if assignments && '=' in text {
        var name := BeforeEquals(text);
        AndOne(scan, name, SplitsString);
        OptionsAdd(words[1..], valued, operands, scan.Assigns(name), assignments);
        OptionsAdd(words[1..], valued, operands, EMPTY_SCAN.Assigns(name), assignments);
        Then(scan, EMPTY_SCAN.Assigns(name), scan.Assigns(name),
             SkipOptions(words[1..], valued, operands, EMPTY_SCAN, assignments).1,
             SkipOptions(words, valued, operands, scan, assignments).1,
             SkipOptions(words, valued, operands, EMPTY_SCAN, assignments).1);
      }
    }
  }

  /** Following a wrapper. */
  lemma {:induction false} RestAdds(words: seq<Word>, valued: set<string>, operands: nat, scan: CommandScan,
                                    assignments: bool)
    requires words != []
    ensures var (rest, e) := SkipOptions(words[1..], valued, operands, EMPTY_SCAN, assignments);
            var (rest', scan') := SkipOptions(words[1..], valued, operands, scan, assignments);
            rest' == rest && |rest| < |words| && Adds(scan, And(e, CommandEffect(rest)), Command(rest, scan'))
    decreases |words|, 0, 0
  {
    hide SkipOptions, Command, And;
    OptionsAdd(words[1..], valued, operands, scan, assignments);
    var (rest, e) := SkipOptions(words[1..], valued, operands, EMPTY_SCAN, assignments);
    var scan' := SkipOptions(words[1..], valued, operands, scan, assignments).1;
    CommandAdds(rest, scan');
    Then(scan, e, scan', CommandEffect(rest), Command(rest, scan'), And(e, CommandEffect(rest)));
  }

  /** A command's own directory change, if it is one. */
  function Here(words: seq<Word>): seq<Option<string>>
    requires words != []
  {
    if IsDirChanger(words[0].text) then [DirectoryOf(words[0].text, words[1..])] else []
  }

  function Entered(words: seq<Word>, scan: CommandScan): CommandScan
    requires words != []
  {
    scan.(directories := scan.directories + Here(words))
  }

  predicate NamesCommand(words: seq<Word>) {
    words != [] && !words[0].dynamic && !IsCode(words[0].text) && ExecBuiltin(words[0].text).None?
  }

  lemma CommandIs(words: seq<Word>, scan: CommandScan)
    requires NamesCommand(words)
    ensures var (name, base, scan1) := (words[0].text, BaseName(words[0].text), Entered(words, scan));
            Command(words, scan) ==
              if IsInert(name) then CheckInert(name, words[1..], scan1)
              else if base == "find" then FindCommands(words, 0, scan1.Runs(name))
              else if Wrapper(base).Some? then
                var w := Wrapper(base).value;
                var (rest, found) := SkipOptions(words[1..], w.0, w.1, scan1.Runs(name), base == "env");
                Command(rest, found)
              else scan1.Runs(name)
  {
    hide IsCode, IsDirChanger, IsInert, BaseName, Wrapper, ExecBuiltin;
    hide SkipOptions, CheckInert, DirectoryOf, FindCommands;
    assert scan.directories + [] == scan.directories;
  }

  lemma EnteredAdds(words: seq<Word>, scan: CommandScan)
    requires words != []
    ensures Adds(scan, Entered(words, EMPTY_SCAN), Entered(words, scan))
    ensures Adds(scan, Entered(words, EMPTY_SCAN).Runs(words[0].text), Entered(words, scan).Runs(words[0].text))
  {
    hide Here;
  }

  lemma {:induction false} CommandAdds(words: seq<Word>, scan: CommandScan)
    ensures Adds(scan, CommandEffect(words), Command(words, scan))
    decreases |words|, 1, 0
  {
    AndNothing(scan);
    if words != [] {
      hide IsCode, ExecBuiltin, SkipOptions, And;
      var name := words[0].text;
      AndOne(scan, name, ComputedProgram(name));
      AndOne(scan, name, EvaluatesCode(name));
      if words[0].dynamic || IsCode(name) {
      } else if ExecBuiltin(name).Some? {
        RestAdds(words, ExecBuiltin(name).value, 0, scan, false);
        RestAdds(words, ExecBuiltin(name).value, 0, EMPTY_SCAN, false);
        FromNothing(And(SkipOptions(words[1..], ExecBuiltin(name).value, 0, EMPTY_SCAN, false).1,
                        CommandEffect(SkipOptions(words[1..], ExecBuiltin(name).value, 0, EMPTY_SCAN, false).0)),
                    CommandEffect(words));
      } else {
        NamedAdds(words, scan);
      }
    }
  }

  lemma FromNothing(e: CommandScan, scan: CommandScan)
    requires Adds(EMPTY_SCAN, e, scan)
    ensures scan == e
  {
    AndNothing(e);
  }

  lemma {:induction false} NamedAdds(words: seq<Word>, scan: CommandScan)
    requires NamesCommand(words)
    ensures Adds(scan, CommandEffect(words), Command(words, scan))
    decreases |words|, 0, |words| + 2
  {
    assert words != [];
    hide *;
    var (name, base) := (words[0].text, BaseName(words[0].text));
    var scan1, e1 := Entered(words, scan), Entered(words, EMPTY_SCAN);
    var (scan2, e2) := (scan1.Runs(name), e1.Runs(name));
    CommandIs(words, scan);
    CommandIs(words, EMPTY_SCAN);
    CommandEffectIs(words);
    EnteredAdds(words, scan);
    if IsInert(name) {
      InertAdds(name, words[1..], scan1);
      InertAdds(name, words[1..], e1);
      Then(scan, e1, scan1, CheckInert(name, words[1..], EMPTY_SCAN), Command(words, scan), CommandEffect(words));
    } else if base == "find" {
      FindAdds(words, 0, scan2);
      FindAdds(words, 0, e2);
      Then(scan, e2, scan2, FindCommands(words, 0, EMPTY_SCAN), Command(words, scan), CommandEffect(words));
    } else if Wrapper(base).Some? {
      var w := Wrapper(base).value;
      RestAdds(words, w.0, w.1, scan2, base == "env");
      RestAdds(words, w.0, w.1, e2, base == "env");
      var (rest, e) := SkipOptions(words[1..], w.0, w.1, EMPTY_SCAN, base == "env");
      Then(scan, e2, scan2, And(e, CommandEffect(rest)), Command(words, scan), CommandEffect(words));
    }
  }

  lemma CommandEffectIs(words: seq<Word>)
    ensures CommandEffect(words) == Command(words, EMPTY_SCAN)
  {
  }

  lemma {:induction false} FindAdds(words: seq<Word>, k: nat, scan: CommandScan)
    requires k <= |words|
    ensures Adds(scan, FindCommands(words, k, EMPTY_SCAN), FindCommands(words, k, scan))
    decreases |words|, 0, |words| - k
  {
    AndNothing(scan);
    if k < |words| {
      hide IsFindExec, Command, And;
      if IsFindExec(words[k].text) {
        var args := words[k + 1..];
        CommandAdds(args, scan);
        FindAdds(words, k + 1, Command(args, scan));
        FindAdds(words, k + 1, CommandEffect(args));
        Then(scan, CommandEffect(args), Command(args, scan), FindCommands(words, k + 1, EMPTY_SCAN),
             FindCommands(words, k, scan), FindCommands(words, k, EMPTY_SCAN));
      } else {
        FindAdds(words, k + 1, scan);
      }
    }
  }

  lemma {:induction false} AnalyzeAdds(words: seq<Word>, scan: CommandScan)
    ensures Adds(scan, Effect(words), Analyze(words, scan))
    decreases |words|
  {
    hide Command, IsLoopKeyword, IsPrefixKeyword, IsEndKeyword, AssignmentEnd, And;
    hide IsName, BeforeEquals, StripPlus, Prefix, Drop;
    AndNothing(scan);
    if words == [] {
      CommandAdds(words, scan);
    } else {
      var w, again, e := words[0], scan.(repeats := true), EMPTY_SCAN.(repeats := true);
      AndOne(scan, "", SplitsString);
      if Bare(w) && IsLoopKeyword(w.text) {
        if |words| > 1 { LoopAdds(w, words[1], scan); }
      } else if Bare(w) && w.text == "function" {
        AnalyzeAdds(Drop(words, 2), again);
        AnalyzeAdds(Drop(words, 2), e);
        Then(scan, e, again, Effect(Drop(words, 2)), Analyze(words, scan), Effect(words));
      } else {
        var loops := Bare(w) && w.text in {"while", "until"};
        var scan1, e1 := if loops then again else scan, if loops then e else EMPTY_SCAN;
        if Bare(w) && (IsPrefixKeyword(w.text) || IsEndKeyword(w.text)) {
          var skip := if w.text == "time" && |words| > 1 && words[1].text == "-p" then 2 else 1;
          AnalyzeAdds(words[skip..], scan1);
          AnalyzeAdds(words[skip..], e1);
          Then(scan, e1, scan1, Effect(words[skip..]), Analyze(words, scan), Effect(words));
        } else if 0 < AssignmentEnd(w.text) <= Prefix(w) {
          var name := StripPlus(BeforeEquals(w.text));
          AssignsAdds(scan, e1, scan1, name);
          AnalyzeAdds(words[1..], scan1.Assigns(name));
          AnalyzeAdds(words[1..], e1.Assigns(name));
          Then(scan, e1.Assigns(name), scan1.Assigns(name), Effect(words[1..]), Analyze(words, scan), Effect(words));
        } else {
          CommandAdds(words, scan1);
          CommandAdds(words, e1);
          Then(scan, e1, scan1, CommandEffect(words), Analyze(words, scan), Effect(words));
        }
      }
    }
  }

  lemma AssignsAdds(scan: CommandScan, e: CommandScan, scan': CommandScan, name: string)
    requires Adds(scan, e, scan')
    ensures Adds(scan, e.Assigns(name), scan'.Assigns(name))
  {
  }

  lemma LoopAdds(w: Word, v: Word, scan: CommandScan)
    ensures var r := ComputedVariable(w.text);
            && Adds(scan, EMPTY_SCAN.Opaque(r).Assigns(v.text), scan.Opaque(r).Assigns(v.text))
            && Adds(scan, EMPTY_SCAN.Assigns(v.text), scan.Assigns(v.text))
  {
  }
}
