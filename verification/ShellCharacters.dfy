/** What the pass over the characters makes of operators, expansions, quotes, comments and here-documents. */
module ShellCharacters {
  import opened Wrappers
  import opened Texts
  import opened ShellScan
  import opened ShellCommands

  const OPERATORS := {"&>>", "<<<", "<<-", "&&", "||", ";;", "|&", ">>", "<<", "<&", ">&", "&>", ">|", "<>",
                      ";", "&", "|", "(", ")", "<", ">", "\n"}

  /** Of the operators the text goes on with, the longest is read. */
  lemma OperatorIsLongest(s: string, i: nat, op: string)
    requires i < |s| && IsOperatorChar(s[i])
    ensures OperatorAt(s, i) in OPERATORS
    ensures op in OPERATORS && StartsWith(s, op, i) ==> |op| <= |OperatorAt(s, i)|
  {
    IsOperator(s, i);
    hide StartsWith, IsOperatorChar;
    if op in OPERATORS && StartsWith(s, op, i) {
      assert |op| == 3 ==> op in {"&>>", "<<<", "<<-"};
      assert |op| == 2 ==> op in {"&&", "||", ";;", "|&", ">>", "<<", "<&", ">&", "&>", ">|", "<>"};
    }
  }

  lemma IsOperator(s: string, i: nat)
    requires i < |s| && IsOperatorChar(s[i])
    ensures OperatorAt(s, i) in OPERATORS
  {
    hide StartsWith;
  }

  // ----- descriptors -----

  /** A bare number or {NAME} in front of a redirection is its descriptor, and a {NAME} assigns; nothing else is. */
  lemma DescriptorIs(l: Lexer, c: char)
    ensures var r := TakeDescriptor(l, c);
            if c in "<>" && l.word.Some? && !l.word.value.quoted && IsDigits(l.word.value.text)
            then r == l.(word := None)
            else if c in "<>" && l.word.Some? && !l.word.value.quoted
                    && exists name :: IsVariable(name) && l.word.value.text == "{" + name + "}" then
              exists name :: IsVariable(name) && l.word.value.text == "{" + name + "}"
                && r == l.(word := None, scan := l.scan.(assignments := l.scan.assignments + [name]))
            else r == l
  {
    if c in "<>" && l.word.Some? && !l.word.value.quoted {
      var text := l.word.value.text;
      DigitsAre(text);
      VariableIs(text);
      hide IsVariable, FdVariable, IsNumber, IsDigits;
      if FdVariable(text).Some? {
        var name := FdVariable(text).value;
        assert l.scan.Assigns(name) == l.scan.(assignments := l.scan.assignments + [name]);
      }
    }
  }

  predicate IsDigits(text: string) {
    text != "" && forall c :: c in text ==> '0' <= c <= '9'
  }

  lemma DigitsAre(text: string)
    ensures IsDigits(text) <==> IsNumber(text)
  {
    if IsNumber(text) {
      forall c | c in text ensures '0' <= c <= '9' { assert IsDigit(c); }
    }
  }

  lemma VariableIs(text: string)
    ensures forall name :: FdVariable(text) == Some(name) <==> IsVariable(name) && text == "{" + name + "}"
  {
    if |text| >= 3 { NamesAre(text[1..|text| - 1]); }
    hide IsName;
    forall name ensures FdVariable(text) == Some(name) <==> IsVariable(name) && text == "{" + name + "}" {
      NamesAre(name);
      if text == "{" + name + "}" { assert text[1..|text| - 1] == name; }
      if |text| >= 2 && text[0] == '{' && text[|text| - 1] == '}' {
        assert text == "{" + text[1..|text| - 1] + "}";
      }
    }
  }

  // ----- here-documents -----

  function Lined(lines: seq<string>): string {
    if lines == [] then "" else lines[0] + "\n" + Lined(lines[1..])
  }

  /** The line as it is compared: without tabs in front if these do not count. */
  ghost predicate Matches(line: string, h: Heredoc) {
    if h.stripTabs then exists n: nat :: StripsTo(line, n, h.delimiter)
    else line == h.delimiter
  }

  predicate StripsTo(line: string, n: nat, text: string) {
    n <= |line| && Tabbed(line, n) && line[n..] == text
  }

  /** The line begins with just n tabs. */
  predicate Tabbed(line: string, n: nat)
    requires n <= |line|
  {
    IsTabs(line[..n]) && (n < |line| ==> line[n] != '\t')
  }

  predicate IsTabs(s: string) {
    forall k :: 0 <= k < |s| ==> s[k] == '\t'
  }

  /** Lines up to the first one that matches the delimiter, and that line; or all lines, if none does. */
  ghost predicate IsHeredoc(text: string, h: Heredoc, lines: seq<string>, end: string, rest: string) {
    && (forall line :: line in lines ==> '\n' !in line && !Matches(line, h))
    && '\n' !in end && Matches(end, h) && text == Lined(lines) + end + rest && (end != "" || rest != "")
    && (rest != "" ==> rest[0] == '\n')
  }

  lemma {:induction false} StripTabsIs(line: string)
    ensures var n := |line| - |StripTabs(line)|;
            0 <= n && Tabbed(line, n) && StripTabs(line) == line[n..]
  {
    if line != "" && line[0] == '\t' {
      StripTabsIs(line[1..]);
      var n := |line| - |StripTabs(line)|;
      assert line[1..][..n - 1] == line[1..n];
      assert line[..n] == [line[0]] + line[1..n];
      assert line[1..][n - 1..] == line[n..];
    } else {
      assert line[..0] == "" && line[0..] == line;
    }
  }

  lemma {:induction false} TabsStripped(line: string, n: nat)
    requires n <= |line| && Tabbed(line, n)
    ensures StripTabs(line) == line[n..]
  {
    if n > 0 {
      assert line[0] == line[..n][0];
      assert line[1..][..n - 1] == line[..n][1..] && line[1..][n - 1..] == line[n..];
      TabsStripped(line[1..], n - 1);
    } else {
      assert line[0..] == line;
    }
  }

  lemma MatchIs(line: string, h: Heredoc)
    ensures Matches(line, h) <==> (if h.stripTabs then StripTabs(line) else line) == h.delimiter
  {
    StripTabsIs(line);
    var n: nat := |line| - |StripTabs(line)|;
    assert StripsTo(line, n, StripTabs(line));
    forall m: nat | StripsTo(line, m, h.delimiter) ensures StripTabs(line) == h.delimiter {
      TabsStripped(line, m);
    }
    hide StripsTo, StripTabs;
    if StripTabs(line) == h.delimiter { assert StripsTo(line, n, h.delimiter); }
    assert h.stripTabs ==> (Matches(line, h) <==> StripTabs(line) == h.delimiter);
  }

  lemma LineAt(s: string, i: nat, line: string, more: string)
    requires i <= |s| && '\n' !in line && s[i..] == line + more && (more != "" ==> more[0] == '\n')
    ensures Find(s, '\n', i) == i + |line| && s[i..i + |line|] == line
  {
    var end, n := Find(s, '\n', i), i + |line|;
    assert |s| == n + |more| && s[i..n] == line;
    forall k | i <= k < n ensures s[k] != '\n' {
      assert s[k] == s[i..n][k - i];
    }
    assert n < |s| ==> s[n] == s[i..][|line|];
    hide Find;
  }

  lemma BodyNext(s: string, i: nat, h: Heredoc, body: string, first: bool, line: string, more: string)
    requires i < |s| && '\n' !in line && s[i..] == line + more && (more != "" ==> more[0] == '\n')
    ensures HeredocBody(s, i, h, body, first) ==
            if Matches(line, h) then (i + |line| + 1, body)
            else HeredocBody(s, i + |line| + 1, h, if first then line else body + "\n" + line, false)
  {
    LineAt(s, i, line, more);
    MatchIs(line, h);
    hide Matches, Find, StripTabs;
  }

  lemma FirstOfLines(text: string, h: Heredoc, lines: seq<string>, end: string, rest: string) returns (more: string)
    requires lines != [] && IsHeredoc(text, h, lines, end, rest)
    ensures text == lines[0] + ("\n" + more) && IsHeredoc(more, h, lines[1..], end, rest)
    ensures '\n' !in lines[0] && !Matches(lines[0], h) && more != ""
  {
    hide Matches;
    assert lines[0] in lines;
    more := Lined(lines[1..]) + end + rest;
    assert text == lines[0] + ("\n" + more);
  }

  lemma NoLines(text: string, h: Heredoc, end: string, rest: string)
    requires IsHeredoc(text, h, [], end, rest)
    ensures text == end + rest && text != "" && '\n' !in end && Matches(end, h) && (rest != "" ==> rest[0] == '\n')
    ensures Lined([]) == ""
  {
    hide Matches;
  }

  /** A here-document's body is its lines, up to the one that is its delimiter, and the pass goes on behind that one. */
  lemma {:induction false} HeredocIsRead(s: string, i: nat, h: Heredoc, done: seq<string>, lines: seq<string>,
                                         end: string, rest: string)
    requires i <= |s| && IsHeredoc(s[i..], h, lines, end, rest)
    ensures HeredocBody(s, i, h, Join(done, "\n"), done == [])
         == (i + |Lined(lines)| + |end| + 1, Join(done + lines, "\n"))
    decreases |lines|
  {
    hide *;
    if lines == [] {
      assert done + lines == done;
      NoLines(s[i..], h, end, rest);
      BodyNext(s, i, h, Join(done, "\n"), done == [], end, rest);
    } else {
      var line, others := lines[0], lines[1..];
      var more := FirstOfLines(s[i..], h, lines, end, rest);
      BodyNext(s, i, h, Join(done, "\n"), done == [], line, "\n" + more);
      var j := i + |line| + 1;
      assert s[j..] == more;
      JoinSnoc(done, line, "\n");
      assert done + [line] + others == done + lines;
      LinedCons(line, others);
      assert [line] + others == lines;
      HeredocIsRead(s, j, h, done + [line], others, end, rest);
    }
  }

  lemma LinedCons(line: string, others: seq<string>)
    ensures |Lined([line] + others)| == |line| + 1 + |Lined(others)|
  {
    assert ([line] + others)[1..] == others;
  }

  /** The line break behind pending here-documents takes the pass over the first of them. */
  lemma HeredocIsSkipped(s: string, i: nat, h: Heredoc, others: seq<Heredoc>, scan: CommandScan, lines: seq<string>,
                         end: string, rest: string)
    requires i <= |s| && IsHeredoc(s[i..], h, lines, end, rest)
    ensures var next := i + |Lined(lines)| + |end| + 1;
            SkipHeredocs(s, i, [h] + others, scan) ==
            SkipHeredocs(s, next, others,
                         if !h.quoted && Expands(Join(lines, "\n")) then scan.Opaque(HeredocExpansion) else scan)
  {
    hide *;
    HeredocIsRead(s, i, h, [], lines, end, rest);
    assert [] + lines == lines;
    JoinNone();
    SkipFirst(s, i, h, others, scan);
  }

  lemma JoinNone()
    ensures Join([], "\n") == ""
  {
  }

  lemma SkipFirst(s: string, i: nat, h: Heredoc, others: seq<Heredoc>, scan: CommandScan)
    ensures var (j, text) := HeredocBody(s, i, h, "", true);
            SkipHeredocs(s, i, [h] + others, scan) ==
            SkipHeredocs(s, j, others, if !h.quoted && Expands(text) then scan.Opaque(HeredocExpansion) else scan)
  {
    ExpandsIs(HeredocBody(s, i, h, "", true).1);
    assert ([h] + others)[1..] == others;
    hide HeredocBody, Contains, Expands;
  }

  /** The text has a backquote in it, or a dollar sign with an opening bracket behind it. */
  predicate Expands(text: string) {
    exists k: nat :: k < |text| && ExpandsAt(text, k)
  }

  predicate ExpandsAt(text: string, k: nat)
    requires k < |text|
  {
    text[k] == '`' || (text[k] == '$' && k + 1 < |text| && text[k + 1] in "([{")
  }

  lemma StartsAt(text: string, k: nat)
    requires k < |text|
    ensures ExpandsAt(text, k) <==>
            StartsWith(text, "`", k)
            || StartsWith(text, "$(", k) || StartsWith(text, "$[", k) || StartsWith(text, "${", k)
  {
    assert text[k..k + 1] == [text[k]];
    assert k + 1 < |text| ==> text[k..k + 2] == [text[k], text[k + 1]];
  }

  lemma ExpandsIs(text: string)
    ensures Expands(text) <==>
            Contains(text, "$(") || Contains(text, "`") || Contains(text, "$[") || Contains(text, "${")
  {
    forall k: nat | k < |text|
      ensures ExpandsAt(text, k) <==>
              StartsWith(text, "`", k)
              || StartsWith(text, "$(", k) || StartsWith(text, "$[", k) || StartsWith(text, "${", k)
    {
      StartsAt(text, k);
    }
    assert !StartsWith(text, "`", |text|) && !StartsWith(text, "$(", |text|) && !StartsWith(text, "$[", |text|)
           && !StartsWith(text, "${", |text|);
    hide ExpandsAt, StartsWith;
  }

  // ----- quotes -----

  /** What has to stand between double quotes for this text. */
  function Escaped(text: string): string {
    if text == "" then ""
    else (if text[0] in "$`\"\\" then ['\\', text[0]] else [text[0]]) + Escaped(text[1..])
  }

  lemma QuotedNext(s: string, i: nat, c: char, tail: string, w: Word, scan: CommandScan)
    requires i <= |s| && s[i..] == (if c in "$`\"\\" then ['\\', c] else [c]) + tail && tail != ""
    ensures DoubleQuoted(s, i, w, scan)
         == DoubleQuoted(s, if c in "$`\"\\" then i + 2 else i + 1, w.Add([c]), scan)
  {
    assert s[i] == s[i..][0];
    assert |s[i..]| > 1 ==> s[i + 1] == s[i..][1];
    assert c == '\\' || c in "$`\"\\" || s[i] == c;
    hide Expansion;
  }

  lemma QuoteCloses(s: string, i: nat, rest: string, w: Word, scan: CommandScan)
    requires i <= |s| && s[i..] == "\"" + rest
    ensures DoubleQuoted(s, i, w, scan) == (i + 1, w.Add(""), scan)
  {
    assert s[i] == s[i..][0];
    assert w.Add("") == w;
  }

  lemma EscapedCons(c: char, text: string)
    ensures Escaped([c] + text) == (if c in "$`\"\\" then ['\\', c] else [c]) + Escaped(text) && Escaped("") == ""
  {
    assert ([c] + text)[1..] == text;
  }

  lemma AddIs(w: Word, text: string)
    ensures w.Add(text) == w.(text := w.text + text)
  {
  }

  lemma AddTwice(w: Word, a: string, b: string)
    ensures w.Add(a).(text := w.Add(a).text + b) == w.Add(a + b)
  {
    assert w.text + a + b == w.text + (a + b);
  }

  /** Between double quotes, with a backslash in front of what is special there, any text is read as itself. */
  lemma {:induction false} EscapedIsRead(s: string, i: nat, text: string, rest: string, w: Word, scan: CommandScan)
    requires i <= |s| && s[i..] == Escaped(text) + "\"" + rest
    ensures DoubleQuoted(s, i, w, scan) == (i + |Escaped(text)| + 1, w.(text := w.text + text), scan)
    decreases |text|
  {
    AddIs(w, text);
    hide *;
    if text == "" {
      EscapedCons('a', "");
      QuoteCloses(s, i, rest, w, scan);
    } else {
      var c, more := text[0], text[1..];
      assert text == [c] + more;
      EscapedCons(c, more);
      var here := if c in "$`\"\\" then ['\\', c] else [c];
      assert s[i..] == here + (Escaped(more) + "\"" + rest);
      QuotedNext(s, i, c, Escaped(more) + "\"" + rest, w, scan);
      var j := i + |here|;
      assert s[j..] == Escaped(more) + "\"" + rest;
      EscapedIsRead(s, j, more, rest, w.Add([c]), scan);
      AddTwice(w, [c], more);
    }
  }

  /** How much of a word was written plainly is settled by its first quote or expansion. */
  lemma PlainPartIs(l: Lexer)
    ensures var w := l.Begin(true);
            match l.word
            case None => w == Word("", true, false, false, Some(0))
            case Some(v) => w == v.(quoted := true, prefix := Some(if v.prefix.Some? then v.prefix.value else |v.text|))
    ensures l.Begin(false) == if l.word.Some? then l.word.value else Word("", false, false, false, None)
  {
  }

  /** A backslash quotes the character behind it; with a line break behind it, both are as if they were not there. */
  lemma BackslashIs(s: string, l: Lexer)
    requires l.i < |s| && s[l.i] == '\\'
    ensures var (w, next) := (l.Begin(true), l.i + 1);
            Step(s, l) ==
              if next < |s| && s[next] == '\n' then l.(i := l.i + 2)
              else l.(i := l.i + 2, word := Some(w.(text := w.text + if next < |s| then [s[next]] else "")))
  {
    var next := l.i + 1;
    assert next < |s| ==> s[next..next + 1] == [s[next]];
    hide Operator, DoubleQuoted, Expansion, Standalone, Find, Lexer.Begin;
  }

  /** A backquote makes the word computed, and is reported. */
  lemma BackquoteIs(s: string, l: Lexer)
    requires l.i < |s| && s[l.i] == '`'
    ensures Step(s, l) == l.(i := l.i + 1, word := Some(l.Begin(true).(dynamic := true)),
                             scan := l.scan.Opaque(CommandSubstitution))
  {
    hide Operator, DoubleQuoted, Expansion, Standalone, Find, Lexer.Begin;
  }

  /** A single quote that is not closed is reported, and takes in the rest of the text. */
  lemma UnclosedIsReported(s: string, l: Lexer)
    requires l.i < |s| && s[l.i] == '\'' && '\'' !in s[l.i + 1..]
    ensures Step(s, l) == l.(i := |s| + 1, word := Some(l.Begin(true).Add(s[l.i + 1..])),
                             scan := l.scan.Opaque(UnterminatedQuote))
  {
    var end := Find(s, '\'', l.i + 1);
    FoundIn(s, '\'', l.i + 1);
    assert end == |s| && s[l.i + 1..end] == s[l.i + 1..];
    hide Operator, DoubleQuoted, Expansion, Standalone, Find;
  }

  lemma FoundIn(s: string, c: char, i: nat)
    requires i <= |s|
    ensures Find(s, c, i) < |s| <==> c in s[i..]
  {
    var k := Find(s, c, i);
    assert k < |s| ==> s[i..][k - i] == c;
    if c in s[i..] {
      var j :| 0 <= j < |s[i..]| && s[i..][j] == c;
      assert s[i + j] == c;
    }
  }

  /** So is a double quote that the text ends in. */
  lemma UnclosedDoubleIsReported(s: string, w: Word, scan: CommandScan)
    ensures DoubleQuoted(s, |s|, w, scan) == (|s|, w, scan.Opaque(UnterminatedQuote))
  {
  }

  /** A comment, where no word has begun, reaches up to the end of its line. */
  lemma CommentIsSkipped(s: string, l: Lexer)
    requires l.i < |s| && s[l.i] == '#' && l.word.None?
    ensures var end := Step(s, l).i;
            && l.i < end <= |s| && '\n' !in s[l.i..end] && (end < |s| ==> s[end] == '\n')
            && Step(s, l) == l.(i := end)
  {
    hide Operator, DoubleQuoted, Expansion, Standalone;
  }

  // ----- expansions -----

  const SPECIAL := "@*#?$!-0123456789"

  /** No longer name begins here. */
  predicate IsLongestName(s: string, i: nat, j: nat) {
    i < j <= |s| && IsVariable(s[i..j]) && (j < |s| ==> !IsNameStart(s[j]) && !('0' <= s[j] <= '9'))
  }

  lemma NameIsLongest(s: string, i: nat)
    requires i < |s|
    ensures if IsNameStart(s[i]) then IsLongestName(s, i, i + NameLength(s, i)) else NameLength(s, i) == 0
  {
    NameRunIs(s, i);
    var j := i + NameLength(s, i);
    assert forall c :: c in s[i..j] ==> IsNameStart(c) || '0' <= c <= '9';
  }

  /**
    A dollar sign: what begins a command or arithmetic is reported, and so is any
    braced form but that of one parameter; a parameter makes the word computed; and
    before anything else the sign stands for itself.
   */
  lemma ExpansionIs(s: string, i: nat, w: Word, scan: CommandScan, inQuotes: bool)
    requires i + 1 < |s|
    ensures var ((j, w', scan'), next) := (Expansion(s, i, w, scan, inQuotes), s[i + 1]);
            if next == '(' then j == i + 2 && w' == w.(dynamic := true) && scan' == scan.Opaque(CommandSubstitution)
            else if next == '['
            then j == i + 2 && w' == w.(dynamic := true) && scan' == scan.Opaque(ArithmeticExpansion)
            else if next == '{' then w' == w.(dynamic := true) && BracedIs(s, i + 2, j, scan, scan')
            else if next == '\'' && !inQuotes
            then j == AnsiEnd(s, i + 2) + 1 && w' == w.(dynamic := true) && scan' == scan
            else if next in SPECIAL then j == i + 2 && w' == w.(dynamic := true) && scan' == scan
            else if IsNameStart(next) then IsLongestName(s, i + 1, j) && w' == w.(dynamic := true) && scan' == scan
            else j == i + 1 && w' == w.Add("$") && scan' == scan
  {
    assert IsSpecialParam(s[i + 1]) <==> s[i + 1] in SPECIAL;
    hide SPECIAL, IsSpecialParam, IsLongestName, IsSimpleBraced, BracedIs;
    NameIsLongest(s, i + 1);
    if s[i + 1] == '{' { BracesAre(s, i + 2, scan); }
  }

  /** From behind the opening brace to behind the closing one, if there is one. */
  predicate BracedIs(s: string, i: nat, j: nat, scan: CommandScan, scan': CommandScan) {
    if i <= |s| && '}' !in s[i..] then j == |s| && scan' == scan.Opaque(ComplexExpansion)
    else
      && i < j <= |s| && s[j - 1] == '}' && '}' !in s[i..j - 1]
      && scan' == if IsParameter(s[i..j - 1]) then scan else scan.Opaque(ComplexExpansion)
  }

  predicate IsParameter(text: string) {
    IsVariable(text) || (|text| == 1 && text[0] in SPECIAL)
  }

  lemma BracesAre(s: string, i: nat, scan: CommandScan)
    requires i <= |s|
    ensures var end := Find(s, '}', i);
            BracedIs(s, i, if end == |s| then end else end + 1, scan,
                     if end < |s| && IsSimpleBraced(s[i..end]) then scan else scan.Opaque(ComplexExpansion))
  {
    var end := Find(s, '}', i);
    FoundIn(s, '}', i);
    NamesAre(s[i..end]);
    assert '}' !in s[i..end] by {
      assert forall k :: 0 <= k < end - i ==> s[i..end][k] == s[i + k];
    }
    hide IsName, IsVariable, Find;
    assert end - i == 1 ==> (IsDigit(s[i]) || s[i] in "@*#?$!-" <==> s[i] in SPECIAL);
  }

  /** What has to stand between $' and ' for this text not to end it. */
  function AnsiEscaped(text: string): string {
    if text == "" then ""
    else (if text[0] == '\'' || text[0] == '\\' then ['\\', text[0]] else [text[0]]) + AnsiEscaped(text[1..])
  }

  /** A $'...' string ends at its first quote without a backslash in front. */
  lemma {:induction false} AnsiIsSkipped(s: string, i: nat, text: string, rest: string)
    requires i <= |s| && s[i..] == AnsiEscaped(text) + "'" + rest
    ensures AnsiEnd(s, i) == i + |AnsiEscaped(text)|
    decreases |text|
  {
    assert s[i] == s[i..][0];
    if text != "" {
      var more := AnsiEscaped(text[1..]) + "'" + rest;
      var here := if text[0] == '\'' || text[0] == '\\' then ['\\', text[0]] else [text[0]];
      assert s[i..] == here + more;
      assert s[i + |here|..] == more;
      AnsiIsSkipped(s, i + |here|, text[1..], rest);
    }
  }

  // ----- words -----

  /** A brace by itself is a word of its own. */
  predicate StandsAlone(s: string, i: nat)
    requires i < |s|
  {
    && (s[i] == '{' || s[i] == '}')
    && (i > 0 ==> s[i - 1] in {' ', '\t', '\r', '\n', ';', '&', '|', '(', ')'})
    && (i + 1 < |s| ==> s[i + 1] in {' ', '\t', '\r', '\n', ';', '&', '|', '(', ')'})
  }

  /** An unquoted character that is no blank, operator, quote or expansion goes on the word; a pattern's marks it. */
  lemma CharacterIsAdded(s: string, l: Lexer)
    requires l.i < |s| && s[l.i] !in " \t\r;&|()<>\n'\"\\`$" && (s[l.i] == '#' ==> l.word.Some?)
    ensures var (c, l') := (s[l.i], Step(s, l));
            var w := if l.word.Some? then l.word.value else Word("", false, false, false, None);
            && l' == l.(i := l.i + 1, word := l'.word) && l'.word.Some?
            && l'.word.value == w.(text := w.text + [c], globbed := l'.word.value.globbed)
            && (l'.word.value.globbed <==> w.globbed || (c in {'*', '?', '[', '{', '}'} && !StandsAlone(s, l.i)))
  {
    assert Standalone(s, l.i) <==> StandsAlone(s, l.i);
    hide Standalone, StandsAlone, Operator, DoubleQuoted, Expansion, Find;
  }

  /**
    The end of a word: it is a token, computed if it is a pattern, unless that is a
    test's bracket; and a here-document's delimiter, if one is due.
   */
  lemma WordIsEnded(l: Lexer)
    requires l.word.Some?
    ensures var (w, r) := (l.word.value, l.Flush());
            && (exists t :: r.tokens == l.tokens + [t] && IsWordToken(w, t)) && r.word.None? && r.awaiting.None?
            && r.heredocs == (if l.awaiting.None? then l.heredocs
                              else l.heredocs + [Heredoc(w.text, w.quoted, l.awaiting.value)])
            && r.scan == l.scan && r.i == l.i
  {
    assert l.Flush().tokens == l.tokens + [l.Flush().tokens[|l.tokens|]];
  }

  predicate IsWordToken(w: Word, t: Token) {
    && t.Text? && t.word == w.(dynamic := t.word.dynamic)
    && (t.word.dynamic <==> w.dynamic || (w.globbed && w.text !in {"[", "[["}))
  }

  /** What an operator has to report of what it opens. */
  function Opened(s: string, i: nat, op: string): seq<Reason> {
    (if StartsWith(s, "((", i) then [ArithmeticCommand] else [])
    + (if StartsWith(s, "<(", i) || StartsWith(s, ">(", i) then [ProcessSubstitution] else [])
    + (if op == ";;" then [CaseStatement] else [])
  }

  /** An operator ends the word before it and is a token itself; a line break goes on behind the here-documents due. */
  lemma OperatorIsRead(s: string, l: Lexer)
    requires l.i < |s| && s[l.i] in ";&|()<>\n"
    ensures var (before, op, r) := (TakeDescriptor(l, s[l.i]).Flush(), OperatorAt(s, l.i), Step(s, l));
            var found := before.scan.(opacity := before.scan.opacity + Opened(s, l.i, op));
            && r.tokens == before.tokens + [Op(op)] && r.word == before.word
            && r.awaiting == (if op == "<<" then Some(false) else if op == "<<-" then Some(true) else before.awaiting)
            && if op == "\n" && before.heredocs != [] then
                 r.heredocs == [] && (r.i, r.scan) == SkipHeredocs(s, l.i + 1, before.heredocs, found)
               else r.heredocs == before.heredocs && r.i == l.i + |op| && r.scan == found
  {
    hide *;
    StepIsOperator(s, l);
    var f, op := TakeDescriptor(l, s[l.i]).Flush(), OperatorAt(s, l.i);
    ReportsAre(s, l.i, op, f.scan);
    OperatorParts(s, l, f, op, OperatorReports(s, l.i, op, f.scan));
  }

  lemma OperatorParts(s: string, l: Lexer, f: Lexer, op: string, found: CommandScan)
    requires l.i < |s| && IsOperatorChar(s[l.i])
    requires f == TakeDescriptor(l, s[l.i]).Flush() && op == OperatorAt(s, l.i)
    requires found == OperatorReports(s, l.i, op, f.scan)
    ensures Operator(s, l).tokens == f.tokens + [Op(op)] && Operator(s, l).word == f.word
    ensures Operator(s, l).awaiting
         == if op == "<<" then Some(false) else if op == "<<-" then Some(true) else f.awaiting
    ensures op == "\n" && f.heredocs != [] ==>
              && Operator(s, l).heredocs == []
              && (Operator(s, l).i, Operator(s, l).scan) == SkipHeredocs(s, l.i + 1, f.heredocs, found)
    ensures !(op == "\n" && f.heredocs != []) ==>
              && Operator(s, l).heredocs == f.heredocs && Operator(s, l).i == l.i + |op|
              && Operator(s, l).scan == found
  {
    hide OperatorAt, StartsWith, TakeDescriptor, Lexer.Flush, SkipHeredocs, OperatorReports, IsOperatorChar;
  }

  lemma StepIsOperator(s: string, l: Lexer)
    requires l.i < |s| && s[l.i] in ";&|()<>\n"
    ensures IsOperatorChar(s[l.i]) && Step(s, l) == Operator(s, l)
  {
    hide Operator;
  }

  lemma ReportsAre(s: string, i: nat, op: string, scan: CommandScan)
    requires i < |s|
    ensures OperatorReports(s, i, op, scan) == scan.(opacity := scan.opacity + Opened(s, i, op))
  {
    assert s[i] in "<>" && StartsWith(s, "(", i + 1) <==> StartsWith(s, "<(", i) || StartsWith(s, ">(", i) by {
      if i + 1 < |s| {
        assert s[i..i + 2] == [s[i], s[i + 1]] && s[i + 1..i + 2] == [s[i + 1]];
      }
    }
    hide StartsWith;
  }
}
