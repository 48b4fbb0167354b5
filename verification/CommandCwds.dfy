/** From a command string to the directories its redirections may resolve against. */
module CommandCwds {
  import opened Wrappers
  import opened ShellScan
  import opened ShellEffects
  import opened ShellCommands
  import opened ShellReports
  import opened ShellListing
  import opened PossibleCwds

  // ----- the directory changes of one simple command -----

  /** The targets of a simple command's directory changes, behind its keywords, assignments and wrappers. */
  function CdsOf(words: seq<Word>): seq<Option<string>> {
    Effect(words).directories
  }

  /** A plain cd to a literal operand is one change, to that operand. */
  lemma PlainCd(cd: Word, dir: Word)
    requires Bare(cd) && cd.text == "cd" && !dir.dynamic && dir.text != "" && dir.text[0] !in "-+~"
    ensures CdsOf([cd, dir]) == [Some(dir.text)]
  {
    assert [cd, dir] == [cd] + [dir];
    forall name ensures !IsAssignment(cd, name) {
      NoAssignment(cd, name);
    }
    assert !IsKeyword("cd");
    TheRestIsTheCommand([cd, dir]);
    InertRunsNothing(cd, [dir]);
    assert OnlyEnters([dir], 0);
    DirectoryIs("cd", [dir], dir.text);
  }

  // ----- the directory changes of a whole command string -----

  /** The directory changes of these tokens in order, behind the words of an unfinished command. */
  function CdsIn(tokens: seq<Token>, words: seq<Word>, redirect: bool): seq<Option<string>> {
    Effects(CommandsIn(tokens, words, redirect)).directories
  }

  lemma CdsNext(t: Token, rest: seq<Token>, words: seq<Word>, redirect: bool)
    ensures CdsIn([], words, redirect) == CdsOf(words)
    ensures CdsIn([t] + rest, words, redirect) ==
            match t
            case Text(w) => CdsIn(rest, if redirect then words else words + [w], false)
            case Op(op) => if IsRedirect(op) then CdsIn(rest, words, true) else CdsOf(words) + CdsIn(rest, [], redirect)
  {
    hide Effect, Effects, IsRedirect;
    EffectsCons(words, []);
    EffectsCons(words, CommandsIn(rest, [], redirect));
    assert ([t] + rest)[1..] == rest;
    if t.Op? { RedirectionsAre(t.op); }
  }

  /** The scan of a command string lists exactly the directory changes of its commands, in order. */
  lemma ScanListsCds(command: string)
    ensures Scanned(command).directories == CdsIn(Lex(command, START).tokens, [], false)
  {
    ScanFinds(command);
    LexGrows(command, START);
    hide Lex, Scanned, Effects, CommandsIn, ReportsTarget, DefinesFunction;
  }

  // ----- programs -----

  /** What a simple command is made of: words and redirections, in any order. */
  datatype Part = Arg(word: Word) | Redir(op: string, target: Word)

  /**
    Simple commands, each with the operator that ends it, and subshells in
    parentheses, in which the last command needs no such operator.
   */
  datatype Item = Simple(parts: seq<Part>, end: string) | Parens(body: seq<Item>, last: seq<Part>)

  predicate ProperParts(parts: seq<Part>) {
    forall p :: p in parts && p.Redir? ==> IsRedirect(p.op)
  }

  /** Redirections are made with redirection operators, and commands are ended by others. */
  predicate ProperItem(item: Item) {
    match item
    case Simple(parts, end) => ProperParts(parts) && !IsRedirect(end)
    case Parens(body, last) => Proper(body) && ProperParts(last)
  }

  predicate Proper(items: seq<Item>) {
    forall item :: item in items ==> ProperItem(item)
  }

  function PartTokens(parts: seq<Part>): seq<Token> {
    if parts == [] then []
    else
      (match parts[0]
       case Arg(w) => [Text(w)]
       case Redir(op, target) => [Op(op), Text(target)]) + PartTokens(parts[1..])
  }

  function Tokens(items: seq<Item>): seq<Token> {
    if items == [] then []
    else
      (match items[0]
       case Simple(parts, end) => PartTokens(parts) + [Op(end)]
       case Parens(body, last) => [Op("(")] + Tokens(body) + PartTokens(last) + [Op(")")]) + Tokens(items[1..])
  }

  function WordsOf(parts: seq<Part>): seq<Word> {
    if parts == [] then [] else (if parts[0].Arg? then [parts[0].word] else []) + WordsOf(parts[1..])
  }

  function Changes(cds: seq<Option<string>>): seq<Shell> {
    if cds == [] then []
    else Changes(cds[..|cds| - 1]) + if cds[|cds| - 1].Some? then [Cd(cds[|cds| - 1].value)] else []
  }

  function Redirects(parts: seq<Part>): seq<Shell> {
    if parts == [] then [] else (if parts[0].Redir? then [Redirect] else []) + Redirects(parts[1..])
  }

  /** What a simple command does: its redirections are made before it changes directory. */
  function SimpleMeaning(parts: seq<Part>): seq<Shell> {
    Redirects(parts) + Changes(CdsOf(WordsOf(parts)))
  }

  function Meaning(items: seq<Item>): seq<Shell> {
    if items == [] then []
    else
      (match items[0]
       case Simple(parts, _) => SimpleMeaning(parts)
       case Parens(body, last) => [Subshell(Meaning(body) + SimpleMeaning(last))]) + Meaning(items[1..])
  }

  lemma {:induction false} TargetsAppend(a: seq<Shell>, b: seq<Shell>)
    ensures Targets(a + b) == Targets(a) + Targets(b)
  {
    if a == [] {
      assert a + b == b;
    } else {
      assert (a + b)[1..] == a[1..] + b;
      TargetsAppend(a[1..], b);
    }
  }

  lemma {:induction false} KnownAppend(a: seq<Option<string>>, b: seq<Option<string>>)
    ensures Known(a + b) == Known(a) + Known(b)
  {
    if b == [] {
      assert a + b == a;
    } else {
      var n := |b| - 1;
      assert (a + b)[..|a + b| - 1] == a + b[..n];
      KnownAppend(a, b[..n]);
    }
  }

  lemma {:induction false} RedirectsHaveNoTargets(parts: seq<Part>)
    ensures Targets(Redirects(parts)) == []
  {
    if parts != [] {
      RedirectsHaveNoTargets(parts[1..]);
      if parts[0].Redir? {
        assert Redirects(parts)[0] == Redirect && Redirects(parts)[1..] == Redirects(parts[1..]);
      } else {
        assert Redirects(parts) == Redirects(parts[1..]);
      }
    }
  }

  lemma {:induction false} ChangesTarget(cds: seq<Option<string>>)
    ensures Targets(Changes(cds)) == Known(cds)
  {
    if cds != [] {
      var n := |cds| - 1;
      ChangesTarget(cds[..n]);
      var last := if cds[n].Some? then [Cd(cds[n].value)] else [];
      TargetsAppend(Changes(cds[..n]), last);
      if cds[n].Some? { assert last[1..] == []; }
    }
  }

  /** The tokens of a command's parts add its words to those there are. */
  lemma {:induction false} PartsCds(parts: seq<Part>, words: seq<Word>, rest: seq<Token>)
    requires ProperParts(parts)
    ensures CdsIn(PartTokens(parts) + rest, words, false) == CdsIn(rest, words + WordsOf(parts), false)
  {
    hide *;
    if parts == [] {
      NoParts(rest, words);
    } else {
      var others := parts[1..];
      assert parts == [parts[0]] + others;
      ProperPartsFirst(parts);
      match parts[0]
      case Arg(w) =>
        ArgFirst(w, others, words, rest);
        PartsCds(others, words + [w], rest);
      case Redir(op, target) =>
        RedirFirst(op, target, others, words, rest);
        PartsCds(others, words, rest);
    }
  }

  lemma ProperPartsFirst(parts: seq<Part>)
    requires parts != [] && ProperParts(parts)
    ensures ProperParts(parts[1..]) && (parts[0].Redir? ==> IsRedirect(parts[0].op))
  {
    hide IsRedirect;
    assert parts[0] in parts;
  }

  lemma NoParts(rest: seq<Token>, words: seq<Word>)
    ensures PartTokens([]) + rest == rest && words + WordsOf([]) == words
  {
  }

  lemma ArgFirst(w: Word, others: seq<Part>, words: seq<Word>, rest: seq<Token>)
    ensures CdsIn(PartTokens([Arg(w)] + others) + rest, words, false)
         == CdsIn(PartTokens(others) + rest, words + [w], false)
    ensures words + [w] + WordsOf(others) == words + WordsOf([Arg(w)] + others)
  {
    hide CdsOf, CdsIn, IsRedirect;
    var more := PartTokens(others) + rest;
    assert ([Arg(w)] + others)[1..] == others;
    assert PartTokens([Arg(w)] + others) + rest == [Text(w)] + more;
    CdsNext(Text(w), more, words, false);
  }

  lemma RedirFirst(op: string, target: Word, others: seq<Part>, words: seq<Word>, rest: seq<Token>)
    requires IsRedirect(op)
    ensures CdsIn(PartTokens([Redir(op, target)] + others) + rest, words, false)
         == CdsIn(PartTokens(others) + rest, words, false)
    ensures WordsOf([Redir(op, target)] + others) == WordsOf(others)
  {
    hide CdsOf, CdsIn, IsRedirect;
    var more := PartTokens(others) + rest;
    assert ([Redir(op, target)] + others)[1..] == others;
    assert PartTokens([Redir(op, target)] + others) + rest == [Op(op)] + ([Text(target)] + more);
    CdsNext(Op(op), [Text(target)] + more, words, false);
    CdsNext(Text(target), more, words, true);
  }

  lemma NoWordsNoCds()
    ensures CdsOf([]) == []
  {
  }

  lemma OpNext(op: string, words: seq<Word>, rest: seq<Token>)
    requires !IsRedirect(op)
    ensures CdsIn([Op(op)] + rest, words, false) == CdsOf(words) + CdsIn(rest, [], false)
  {
    hide CdsOf, CdsIn, IsRedirect;
    CdsNext(Op(op), rest, words, false);
  }

  lemma SimpleFirst(parts: seq<Part>, end: string, others: seq<Item>, rest: seq<Token>)
    ensures Tokens([Simple(parts, end)] + others) + rest == PartTokens(parts) + ([Op(end)] + (Tokens(others) + rest))
    ensures Meaning([Simple(parts, end)] + others) == SimpleMeaning(parts) + Meaning(others)
  {
    hide PartTokens, SimpleMeaning;
    assert ([Simple(parts, end)] + others)[1..] == others;
  }

  lemma ParensFirst(body: seq<Item>, last: seq<Part>, others: seq<Item>, rest: seq<Token>)
    ensures Tokens([Parens(body, last)] + others) + rest
         == [Op("(")] + (Tokens(body) + (PartTokens(last) + ([Op(")")] + (Tokens(others) + rest))))
    ensures Meaning([Parens(body, last)] + others)
         == [Subshell(Meaning(body) + SimpleMeaning(last))] + Meaning(others)
  {
    assert ([Parens(body, last)] + others)[1..] == others;
    assert Tokens([Parens(body, last)] + others)
        == [Op("(")] + Tokens(body) + PartTokens(last) + [Op(")")] + Tokens(others);
    hide *;
    Regroup([Op("(")], Tokens(body), PartTokens(last), [Op(")")], Tokens(others), rest);
  }

  lemma Regroup<T>(a: seq<T>, b: seq<T>, c: seq<T>, d: seq<T>, e: seq<T>, f: seq<T>)
    ensures a + b + c + d + e + f == a + (b + (c + (d + (e + f))))
  {
  }

  lemma ProperFirst(items: seq<Item>)
    requires items != [] && Proper(items)
    ensures Proper(items[1..]) && ProperItem(items[0])
  {
    hide ProperItem;
    assert items[0] in items;
  }

  /** As far as rest, these tokens change to just these targets. */
  ghost predicate Counts(tokens: seq<Token>, targets: Path, rest: seq<Token>) {
    Known(CdsIn(tokens, [], false)) == targets + Known(CdsIn(rest, [], false))
  }

  lemma CountsTrans(a: seq<Token>, here: Path, b: seq<Token>, there: Path, c: seq<Token>)
    requires Counts(a, here, b) && Counts(b, there, c)
    ensures Counts(a, here + there, c)
  {
    hide Known, CdsIn;
  }

  lemma NoItems(rest: seq<Token>)
    ensures Counts(Tokens([]) + rest, Targets(Meaning([])), rest)
  {
    hide Known, CdsIn;
    assert Tokens([]) + rest == rest && Targets(Meaning([])) == [];
    assert [] + Known(CdsIn(rest, [], false)) == Known(CdsIn(rest, [], false));
  }

  lemma OpenCounts(rest: seq<Token>)
    ensures Counts([Op("(")] + rest, [], rest)
  {
    hide CdsOf, CdsIn, Known;
    NoWordsNoCds();
    OpNext("(", [], rest);
    assert [] + CdsIn(rest, [], false) == CdsIn(rest, [], false);
    assert [] + Known(CdsIn(rest, [], false)) == Known(CdsIn(rest, [], false));
  }

  lemma SimpleCounts(parts: seq<Part>, end: string, more: seq<Token>)
    requires ProperParts(parts) && !IsRedirect(end)
    ensures Counts(PartTokens(parts) + ([Op(end)] + more), Targets(SimpleMeaning(parts)), more)
  {
    hide CdsOf, CdsIn, Known, PartTokens, WordsOf, SimpleMeaning, Targets, ProperParts, IsRedirect;
    var words := WordsOf(parts);
    PartsCds(parts, [], [Op(end)] + more);
    assert [] + words == words;
    OpNext(end, words, more);
    KnownAppend(CdsOf(words), CdsIn(more, [], false));
    CommandTargets(parts);
  }

  lemma CommandTargets(parts: seq<Part>)
    ensures Targets(SimpleMeaning(parts)) == Known(CdsOf(WordsOf(parts)))
  {
    hide CdsOf, WordsOf, Redirects, Changes, Targets, Known;
    var cds := CdsOf(WordsOf(parts));
    RedirectsHaveNoTargets(parts);
    ChangesTarget(cds);
    TargetsAppend(Redirects(parts), Changes(cds));
    assert [] + Known(cds) == Known(cds);
  }

  lemma ParensCounts(body: seq<Item>, last: seq<Part>, more: seq<Token>)
    requires ProperParts(last)
    requires var tail := PartTokens(last) + ([Op(")")] + more);
             Counts(Tokens(body) + tail, Targets(Meaning(body)), tail)
    ensures Counts([Op("(")] + (Tokens(body) + (PartTokens(last) + ([Op(")")] + more))),
                   Targets(Meaning(body) + SimpleMeaning(last)), more)
  {
    assert !IsRedirect(")");
    hide *;
    var tail := PartTokens(last) + ([Op(")")] + more);
    var here, there := Targets(Meaning(body)), Targets(SimpleMeaning(last));
    OpenCounts(Tokens(body) + tail);
    SimpleCounts(last, ")", more);
    CountsTrans(Tokens(body) + tail, here, tail, there, more);
    CountsTrans([Op("(")] + (Tokens(body) + tail), [], Tokens(body) + tail, here + there, more);
    TargetsAppend(Meaning(body), SimpleMeaning(last));
    assert [] + (here + there) == Targets(Meaning(body) + SimpleMeaning(last));
  }

  /** The scanned directory changes of a program are the targets of what it does. */
  lemma {:induction false} ProgramCounts(items: seq<Item>, rest: seq<Token>)
    requires Proper(items)
    ensures Counts(Tokens(items) + rest, Targets(Meaning(items)), rest)
    decreases items
  {
    if items == [] {
      NoItems(rest);
    } else {
      var others := items[1..];
      ProperFirst(items);
      assert items == [items[0]] + others;
      ProgramCounts(others, rest);
      match items[0]
      case Simple(parts, end) =>
        SimpleItemCounts(parts, end, others, rest);
      case Parens(body, last) =>
        ProgramCounts(body, PartTokens(last) + ([Op(")")] + (Tokens(others) + rest)));
        ParensItemCounts(body, last, others, rest);
    }
  }

  lemma SimpleItemCounts(parts: seq<Part>, end: string, others: seq<Item>, rest: seq<Token>)
    requires ProperParts(parts) && !IsRedirect(end)
    requires Counts(Tokens(others) + rest, Targets(Meaning(others)), rest)
    ensures var items := [Simple(parts, end)] + others;
            Counts(Tokens(items) + rest, Targets(Meaning(items)), rest)
  {
    hide *;
    var more := Tokens(others) + rest;
    SimpleFirst(parts, end, others, rest);
    SimpleCounts(parts, end, more);
    TargetsAppend(SimpleMeaning(parts), Meaning(others));
    CountsTrans(PartTokens(parts) + ([Op(end)] + more), Targets(SimpleMeaning(parts)), more,
                Targets(Meaning(others)), rest);
  }

  lemma ParensItemCounts(body: seq<Item>, last: seq<Part>, others: seq<Item>, rest: seq<Token>)
    requires ProperParts(last)
    requires Counts(Tokens(others) + rest, Targets(Meaning(others)), rest)
    requires var tail := PartTokens(last) + ([Op(")")] + (Tokens(others) + rest));
             Counts(Tokens(body) + tail, Targets(Meaning(body)), tail)
    ensures var items := [Parens(body, last)] + others;
            Counts(Tokens(items) + rest, Targets(Meaning(items)), rest)
  {
    hide *;
    var more, inside := Tokens(others) + rest, Meaning(body) + SimpleMeaning(last);
    ParensFirst(body, last, others, rest);
    ParensCounts(body, last, more);
    SubshellTargets(inside, Meaning(others));
    CountsTrans([Op("(")] + (Tokens(body) + (PartTokens(last) + ([Op(")")] + more))), Targets(inside), more,
                Targets(Meaning(others)), rest);
  }

  lemma SubshellTargets(body: seq<Shell>, others: seq<Shell>)
    ensures Targets([Subshell(body)] + others) == Targets(body) + Targets(others)
  {
    assert ([Subshell(body)] + others)[1..] == others;
  }

  // ----- all together -----

  /**
    The check of a command string: the directories listed are exactly those that
    some of the string's own directory changes, in order, lead to.
   */
  method PossibleFor(command: string, start: Path, trackable: string -> bool)
    returns (scan: CommandScan, cwds: Option<seq<Path>>)
    ensures scan == Scanned(command)
    ensures cwds.Some? <==>
              || scan.directories == []
              || (!scan.repeats && |scan.directories| <= 4 && AllTrackable(scan.directories, trackable))
    ensures cwds.Some? ==> IsEvery(cwds.value, start, Known(CdsIn(Lex(command, START).tokens, [], false)))
  {
    hide *;
    scan := ScanCommand(command);
    ScannedIs(command);
    ScanListsCds(command);
    cwds := Possible(start, scan.directories, scan.repeats, trackable);
  }

  /**
    So for every string that reads as simple commands and nested subshells, each
    redirection resolves against a listed directory: whichever changes take effect,
    whatever subshells undo, and wherever the redirections stand.
   */
  lemma ProgramMissesNone(command: string, items: seq<Item>, last: seq<Part>, start: Path, fate: nat -> bool,
                          cwds: seq<Path>, p: Path)
    requires Lex(command, START).tokens == Tokens(items) + PartTokens(last) && Proper(items) && ProperParts(last)
    requires IsEvery(cwds, start, Known(Scanned(command).directories))
    requires p in Exec(Meaning(items) + SimpleMeaning(last), start, fate, 0).0
    ensures p in cwds
  {
    hide *;
    ScanListsCds(command);
    ProgramCounts(items, PartTokens(last));
    OpenTargets(items, last);
    NoRedirectionIsMissed(Meaning(items) + SimpleMeaning(last), start, fate, cwds, p);
  }

  lemma OpenTargets(items: seq<Item>, last: seq<Part>)
    requires ProperParts(last) && Counts(Tokens(items) + PartTokens(last), Targets(Meaning(items)), PartTokens(last))
    ensures Targets(Meaning(items) + SimpleMeaning(last))
         == Known(CdsIn(Tokens(items) + PartTokens(last), [], false))
  {
    PartsCds(last, [], []);
    CdsNext(Op(""), [], WordsOf(last), false);
    hide CdsOf, CdsIn, PartTokens, WordsOf, SimpleMeaning, Known, Targets, Tokens, Meaning, ProperParts;
    assert PartTokens(last) + [] == PartTokens(last) && [] + WordsOf(last) == WordsOf(last);
    CommandTargets(last);
    TargetsAppend(Meaning(items), SimpleMeaning(last));
  }
}
