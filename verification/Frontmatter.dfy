/**
  The memory file format: a header block of "key: value" lines between two "---"
  lines, followed by the text, stored verbatim with one newline after it.
 */
module Frontmatter {
  import opened Wrappers
  import JsonString
  import opened Texts
  import MemoryCache
  import TextLines

  type Header = map<string, string>

  const DELIMITER := "---"
  const FORMAT_VERSION := "2"

  // ----- string helpers -----

  datatype Parts = Parts(before: string, found: bool, after: string)

  /** Splits at the first newline. */
  function Partition(s: string): (p: Parts)
    ensures p.found ==> s == p.before + "\n" + p.after
    ensures !p.found ==> p == Parts(s, false, "")
    ensures '\n' !in p.before
  {
    if s == [] then Parts("", false, "")
    else if s[0] == '\n' then
      assert s == "" + "\n" + s[1..];
      Parts("", true, s[1..])
    else
      var p := Partition(s[1..]);
      assert s == [s[0]] + s[1..];
      Parts([s[0]] + p.before, p.found, p.after)
  }

  /** Drops the carriage returns at the end. */
  function RStripCr(s: string): string {
    if s != [] && s[|s| - 1] == '\r' then RStripCr(s[..|s| - 1]) else s
  }

  // ----- header lines -----

  predicate IsNameChar(c: char) {
    IsNameStart(c) || '0' <= c <= '9' || c == '-'
  }

  function NameLength(s: string): (n: nat)
    ensures n <= |s|
  {
    if s == [] || !IsNameChar(s[0]) then 0 else 1 + NameLength(s[1..])
  }

  function BlankLength(s: string): (n: nat)
    ensures n <= |s|
  {
    if s == [] || !(s[0] == ' ' || s[0] == '\t') then 0 else 1 + BlankLength(s[1..])
  }

  /** A name, blanks, a colon; what follows the colon is the raw value. */
  function HeaderLine(line: string): Option<(string, string)> {
    if line == [] || !IsNameStart(line[0]) then None
    else
      var n := NameLength(line);
      var rest := line[n..];
      var b := BlankLength(rest);
      if b < |rest| && rest[b] == ':' then Some((line[..n], rest[b + 1..])) else None
  }

  /** A quoted value that decodes as a JSON string stands for that string. */
  function DecodeValue(value: string): string {
    match JsonString.Read(value)
    case Some(decoded) => decoded
    case None => value
  }

  /** The first occurrence of a key wins. */
  function SetDefault(header: Header, key: string, value: string): Header {
    if key in header then header else header[key := value]
  }

  /** The header fields and the body, or nothing if this is no well-formed block. */
  function ReadBlock(rest: string, header: Header): Option<(Header, string)>
    decreases |rest|
  {
    var p := Partition(rest);
    var line := RStripCr(p.before);
    if line == DELIMITER then Some((header, p.after))
    else if !p.found then None
    else if Strip(line) == [] then ReadBlock(p.after, header)
    else
      match HeaderLine(line)
      case None => None
      case Some((key, value)) => ReadBlock(p.after, SetDefault(header, key, DecodeValue(Strip(value))))
  }

  /** Splits a leading header block from the body; anything else is all body. */
  function SplitSpec(raw: string): (Header, string) {
    var p := Partition(raw);
    if !p.found || RStripCr(p.before) != DELIMITER then (map[], raw)
    else
      match ReadBlock(p.after, map[])
      case Some(r) => r
      case None => (map[], raw)
  }

  method SplitFrontmatter(raw: string) returns (header: Header, body: string)
    ensures (header, body) == SplitSpec(raw)
  {
    var p := Partition(raw);
    if !p.found || RStripCr(p.before) != DELIMITER {
      return map[], raw;
    }
    header := map[];
    var rest := p.after;
    while true
      invariant ReadBlock(p.after, map[]) == ReadBlock(rest, header)
      decreases |rest|
    {
      var q := Partition(rest);
      var line := RStripCr(q.before);
      if line == DELIMITER { return header, q.after; }
      if !q.found { return map[], raw; }
      if Strip(line) != [] {
        var matched := HeaderLine(line);
        if matched.None? { return map[], raw; }
        header := SetDefault(header, matched.value.0, DecodeValue(Strip(matched.value.1)));
      }
      rest := q.after;
    }
  }

  // ----- on arbitrary input -----

  predicate IsSuffix(s: string, whole: string) {
    |s| <= |whole| && s == whole[|whole| - |s|..]
  }

  lemma SuffixOfTail(s: string, tail: string, head: string)
    requires IsSuffix(s, tail)
    ensures IsSuffix(s, head + tail)
  {
  }

  lemma {:induction false} BlockBodyIsSuffix(rest: string, header: Header)
    ensures var r := ReadBlock(rest, header); r.Some? ==> IsSuffix(r.value.1, rest)
    decreases |rest|
  {
    var p := Partition(rest);
    var line := RStripCr(p.before);
    var r := ReadBlock(rest, header);
    if r.Some? && p.found {
      assert rest == (p.before + "\n") + p.after;
      if line != DELIMITER {
        var fields := if Strip(line) == [] then header
                      else SetDefault(header, HeaderLine(line).value.0, DecodeValue(Strip(HeaderLine(line).value.1)));
        BlockBodyIsSuffix(p.after, fields);
        assert r == ReadBlock(p.after, fields);
      }
      SuffixOfTail(r.value.1, p.after, p.before + "\n");
    }
  }

  /** Splitting never invents or loses text: the body is a suffix of the input. */
  lemma BodyIsSuffix(raw: string)
    ensures IsSuffix(SplitSpec(raw).1, raw)
  {
    var p := Partition(raw);
    if p.found {
      BlockBodyIsSuffix(p.after, map[]);
      assert raw == (p.before + "\n") + p.after;
      var r := ReadBlock(p.after, map[]);
      if r.Some? { SuffixOfTail(r.value.1, p.after, p.before + "\n"); }
    }
  }

  // ----- what a header block is -----

  /** A line with this text: at its end may stand carriage returns. */
  predicate IsLine(line: string, text: string) {
    && '\n' !in line && text <= line && (forall k :: |text| <= k < |line| ==> line[k] == '\r')
    && (text != "" ==> text[|text| - 1] != '\r')
  }

  predicate IsBlankLine(line: string) {
    '\n' !in line && forall k :: 0 <= k < |line| ==> IsSpace(line[k])
  }

  /** The text is a name of n characters, b blanks, a colon, and what the value is read from. */
  predicate IsField(text: string, n: nat, b: nat, key: string, value: string) {
    && 0 < n <= n + b < |text| && key == text[..n] && IsKey(key)
    && (forall k :: n <= k < n + b ==> text[k] == ' ' || text[k] == '\t') && text[n + b] == ':'
    && value == DecodeValue(Strip(text[n + b + 1..]))
  }

  ghost predicate IsEntry(line: string, key: string, value: string) {
    exists text: string, n: nat, b: nat {:trigger IsLine(line, text), IsField(text, n, b, key, value)} ::
      IsLine(line, text) && IsField(text, n, b, key, value)
  }

  ghost predicate IsHeaderLine(line: string) {
    IsBlankLine(line) || exists key, value :: IsEntry(line, key, value)
  }

  function Lined(lines: seq<string>): string {
    if lines == [] then "" else lines[0] + "\n" + Lined(lines[1..])
  }

  /** The lines, the closing line and, behind its line end if it has one, the body. */
  ghost predicate IsBlock(rest: string, lines: seq<string>, closing: string, body: string) {
    && IsLine(closing, "---")
    && (rest == Lined(lines) + closing + "\n" + body || (rest == Lined(lines) + closing && body == ""))
    && forall line :: line in lines ==> IsHeaderLine(line) && !IsLine(line, "---")
  }

  /** Of the fields with a key, the header has the first. */
  ghost predicate Collects(header: Header, lines: seq<string>) {
    && (forall key {:trigger key in header} :: key in header ==> exists i: nat :: IsFirst(lines, i, key, header[key]))
    && forall i: nat, key, value {:trigger IsEntry(lines[i], key, value)} ::
         i < |lines| && IsEntry(lines[i], key, value) ==> key in header
  }

  ghost predicate IsFirst(lines: seq<string>, i: nat, key: string, value: string) {
    && i < |lines| && IsEntry(lines[i], key, value)
    && forall j: nat, other {:trigger IsEntry(lines[j], key, other)} :: j < i ==> !IsEntry(lines[j], key, other)
  }

  /** A file that begins with the opening line of a header block, and the rest of it. */
  ghost predicate Opens(raw: string, opening: string, rest: string) {
    raw == opening + "\n" + rest && IsLine(opening, "---")
  }

  lemma {:induction false} ChompedIs(line: string, text: string)
    requires '\n' !in line
    ensures IsLine(line, text) <==> RStripCr(line) == text
  {
    if line != [] && line[|line| - 1] == '\r' {
      var n := |line| - 1;
      ChompedIs(line[..n], text);
      if text <= line && |text| <= n {
        assert text <= line[..n];
      }
    }
  }

  lemma {:induction false} NameLengthIs(s: string)
    ensures forall k :: 0 <= k < NameLength(s) ==> IsNameChar(s[k])
    ensures NameLength(s) < |s| ==> !IsNameChar(s[NameLength(s)])
  {
    if s != [] && IsNameChar(s[0]) { NameLengthIs(s[1..]); }
  }

  lemma {:induction false} BlankLengthIs(s: string)
    ensures forall k :: 0 <= k < BlankLength(s) ==> s[k] == ' ' || s[k] == '\t'
    ensures BlankLength(s) < |s| ==> s[BlankLength(s)] != ' ' && s[BlankLength(s)] != '\t'
  {
    if s != [] && (s[0] == ' ' || s[0] == '\t') { BlankLengthIs(s[1..]); }
  }

  lemma FieldIs(text: string, n: nat, b: nat, key: string, value: string)
    requires IsField(text, n, b, key, value)
    ensures HeaderLine(text) == Some((key, text[n + b + 1..]))
  {
    NameLengthIs(text);
    BlankLengthIs(text[n..]);
    hide DecodeValue, Strip;
    var m, rest := NameLength(text), text[n..];
    assert forall k :: 0 <= k < n ==> IsNameChar(text[k]) by {
      forall k | 0 <= k < n ensures IsNameChar(text[k]) { assert text[k] == key[k]; }
    }
    assert text[0] == key[0];
    assert !IsNameChar(text[n]);
    assert m == n;
    assert rest[b] == ':';
    assert forall k :: 0 <= k < b ==> rest[k] == text[n + k];
    assert BlankLength(rest) == b;
    assert rest[b + 1..] == text[n + b + 1..];
  }

  lemma FieldOf(text: string)
    requires HeaderLine(text).Some?
    ensures var (key, raw) := HeaderLine(text).value;
            IsField(text, NameLength(text), BlankLength(text[NameLength(text)..]), key, DecodeValue(Strip(raw)))
  {
    HeaderLineIs(text);
    hide *;
    var n := NameLength(text);
    var rest := text[n..];
    var b := BlankLength(rest);
    BlankLengthIs(rest);
    NameIsKey(text);
    assert rest[b + 1..] == text[n + b + 1..] && text[n + b] == rest[b];
    assert forall k :: n <= k < n + b ==> text[k] == rest[k - n];
    FieldIf(text, n, b, text[..n], rest[b + 1..]);
  }

  lemma HeaderLineIs(text: string)
    requires HeaderLine(text).Some?
    ensures var n := NameLength(text);
            var b := BlankLength(text[n..]);
            && IsNameStart(text[0]) && b < |text[n..]| && text[n..][b] == ':'
            && HeaderLine(text) == Some((text[..n], text[n..][b + 1..]))
  {
    hide NameLength, BlankLength, IsNameStart;
  }

  lemma FieldIf(text: string, n: nat, b: nat, key: string, raw: string)
    requires 0 < n <= n + b < |text| && key == text[..n] && IsKey(key) && text[n + b] == ':'
    requires forall k :: n <= k < n + b ==> text[k] == ' ' || text[k] == '\t'
    requires raw == text[n + b + 1..]
    ensures IsField(text, n, b, key, DecodeValue(Strip(raw)))
  {
    hide IsKey, DecodeValue, Strip;
  }

  lemma NameIsKey(text: string)
    requires text != [] && IsNameStart(text[0])
    ensures NameLength(text) > 0 && IsKey(text[..NameLength(text)])
  {
    NameLengthIs(text);
  }

  lemma EntryIs(line: string, key: string, value: string)
    requires '\n' !in line
    ensures IsEntry(line, key, value) <==>
            exists raw :: HeaderLine(RStripCr(line)) == Some((key, raw)) && value == DecodeValue(Strip(raw))
  {
    var text := RStripCr(line);
    ChompedIs(line, text);
    hide IsLine, RStripCr, HeaderLine, DecodeValue, Strip;
    if IsEntry(line, key, value) {
      var other: string, n: nat, b: nat :| IsLine(line, other) && IsField(other, n, b, key, value);
      ChompedIs(line, other);
      FieldIs(other, n, b, key, value);
    }
    if HeaderLine(text).Some? {
      FieldOf(text);
    }
  }

  lemma BlankIs(line: string)
    requires '\n' !in line
    ensures IsBlankLine(line) <==> Strip(RStripCr(line)) == []
  {
    var text := RStripCr(line);
    ChompedIs(line, text);
    LStripIs(text);
    if LStrip(text) != [] { RStripKeepsFirst(LStrip(text)); }
    assert IsSpace('\r');
    hide IsSpace, LStrip, RStrip, RStripCr;
    forall k | 0 <= k < |text| ensures line[k] == text[k] {
    }
  }

  lemma CollectsMore(header: Header, done: seq<string>, line: string, header': Header)
    requires Collects(header, done) && '\n' !in line
    requires match HeaderLine(RStripCr(line))
             case None => header' == header
             case Some((key, value)) => header' == SetDefault(header, key, DecodeValue(Strip(value)))
    ensures Collects(header', done + [line])
  {
    var lines := done + [line];
    hide IsEntry, HeaderLine, RStripCr, DecodeValue, Strip;
    forall key | key in header' ensures exists i: nat :: IsFirst(lines, i, key, header'[key]) {
      if key in header {
        var i: nat :| IsFirst(done, i, key, header[key]);
        assert IsFirst(lines, i, key, header'[key]);
      } else {
        EntryIs(line, key, header'[key]);
        assert IsEntry(lines[|done|], key, header'[key]);
        assert IsFirst(lines, |done|, key, header'[key]);
      }
    }
    forall i: nat, key, value | i < |lines| && IsEntry(lines[i], key, value) ensures key in header' {
      if i == |done| { EntryIs(line, key, value); } else { assert IsEntry(done[i], key, value); }
    }
  }

  lemma BlankIsNoEntry(line: string)
    requires IsBlankLine(line)
    ensures HeaderLine(RStripCr(line)).None?
  {
    var text := RStripCr(line);
    ChompedIs(line, text);
    assert text != [] ==> text[0] == line[0];
    hide RStripCr;
  }

  lemma FirstOfBlock(rest: string, lines: seq<string>, closing: string, body: string) returns (more: string)
    requires lines != [] && IsBlock(rest, lines, closing, body)
    ensures rest == lines[0] + "\n" + more && IsBlock(more, lines[1..], closing, body)
    ensures IsHeaderLine(lines[0]) && !IsLine(lines[0], "---")
  {
    assert lines[0] in lines;
    hide IsHeaderLine, IsLine;
    var others := Lined(lines[1..]);
    if rest == Lined(lines) + closing + "\n" + body {
      more := others + closing + "\n" + body;
    } else {
      more := others + closing;
    }
    assert rest == lines[0] + "\n" + more;
  }

  /** One line of a block. */
  lemma ReadsLine(line: string, more: string, header: Header) returns (header': Header)
    requires IsHeaderLine(line) && !IsLine(line, "---")
    ensures '\n' !in line && ReadBlock(line + "\n" + more, header) == ReadBlock(more, header')
    ensures forall done | Collects(header, done) :: Collects(header', done + [line])
  {
    if !IsBlankLine(line) {
      var key, value :| IsEntry(line, key, value);
      EntryHasNoNewline(line, key, value);
    }
    PartitionLine(line, more);
    ChompedIs(line, "---");
    BlankIs(line);
    hide IsLine, RStripCr, Strip, DecodeValue, HeaderLine, IsEntry, Collects;
    if IsBlankLine(line) {
      BlankIsNoEntry(line);
      header' := header;
    } else {
      var key, value :| IsEntry(line, key, value);
      EntryIs(line, key, value);
      var field := HeaderLine(RStripCr(line)).value;
      header' := SetDefault(header, field.0, DecodeValue(Strip(field.1)));
    }
    forall done | Collects(header, done) ensures Collects(header', done + [line]) {
      CollectsMore(header, done, line, header');
    }
  }

  lemma EntryHasNoNewline(line: string, key: string, value: string)
    requires IsEntry(line, key, value)
    ensures '\n' !in line
  {
  }

  /** A block is read: its body, and the first field with each key. */
  lemma {:induction false} BlockIsRead(rest: string, lines: seq<string>, closing: string, body: string,
                                       done: seq<string>, header: Header)
    requires IsBlock(rest, lines, closing, body) && Collects(header, done)
    ensures var r := ReadBlock(rest, header);
            r.Some? && r.value.1 == body && Collects(r.value.0, done + lines)
    decreases |lines|
  {
    hide *;
    if lines == [] {
      assert done + lines == done;
      ClosingIsRead(rest, closing, body, header);
    } else {
      var more := FirstOfBlock(rest, lines, closing, body);
      var header' := ReadsLine(lines[0], more, header);
      BlockIsRead(more, lines[1..], closing, body, done + [lines[0]], header');
      assert done + [lines[0]] + lines[1..] == done + lines;
    }
  }

  lemma ClosingIsRead(rest: string, closing: string, body: string, header: Header)
    requires IsBlock(rest, [], closing, body)
    ensures ReadBlock(rest, header) == Some((header, body))
  {
    assert rest == closing + "\n" + body || (rest == closing && body == "");
    ChompedIs(closing, "---");
    if rest == closing { PartitionNone(rest); } else { PartitionLine(closing, body); }
  }

  lemma {:induction false} PartitionNone(s: string)
    requires '\n' !in s
    ensures Partition(s) == Parts(s, false, "")
  {
    if Partition(s).found { FoundNewline(s); }
  }

  lemma FoundNewline(s: string)
    requires Partition(s).found
    ensures '\n' in s
  {
    assert s[|Partition(s).before|] == '\n';
  }

  /** What is read as a block is one. */
  lemma {:induction false} ReadIsBlock(rest: string, header: Header) returns (lines: seq<string>, closing: string)
    requires ReadBlock(rest, header).Some?
    ensures IsBlock(rest, lines, closing, ReadBlock(rest, header).value.1)
    decreases |rest|
  {
    var p := Partition(rest);
    var line := RStripCr(p.before);
    ChompedIs(p.before, "---");
    if line == DELIMITER {
      lines, closing := [], p.before;
      assert Lined(lines) + closing == closing;
      return;
    }
    BlankIs(p.before);
    var header' := header;
    if Strip(line) != [] {
      var field := HeaderLine(line).value;
      EntryIs(p.before, field.0, DecodeValue(Strip(field.1)));
      header' := SetDefault(header, field.0, DecodeValue(Strip(field.1)));
    }
    assert ReadBlock(rest, header) == ReadBlock(p.after, header');
    lines, closing := ReadIsBlock(p.after, header');
    hide *;
    MoreLines(rest, p.before, p.after, lines, closing, ReadBlock(rest, header).value.1);
    lines := [p.before] + lines;
  }

  lemma MoreLines(rest: string, line: string, more: string, lines: seq<string>, closing: string, body: string)
    requires rest == line + "\n" + more && IsBlock(more, lines, closing, body)
    requires IsHeaderLine(line) && !IsLine(line, "---")
    ensures IsBlock(rest, [line] + lines, closing, body)
  {
    hide IsHeaderLine, IsLine;
    assert ([line] + lines)[1..] == lines;
    assert Lined([line] + lines) == line + "\n" + Lined(lines);
  }

  ghost predicate IsFile(raw: string, header: Header, body: string, opening: string, rest: string, lines: seq<string>,
                         closing: string) {
    Opens(raw, opening, rest) && IsBlock(rest, lines, closing, body) && Collects(header, lines)
  }

  /** The text begins with a header block. */
  ghost predicate HasBlock(raw: string) {
    exists opening, rest, lines, closing, text ::
      Opens(raw, opening, rest) && IsBlock(rest, lines, closing, text)
  }

  lemma HasBlockIs(raw: string)
    ensures var p := Partition(raw);
            HasBlock(raw) <==> p.found && RStripCr(p.before) == DELIMITER && ReadBlock(p.after, map[]).Some?
  {
    var p := Partition(raw);
    hide IsBlock, Collects, ReadBlock, Partition, RStripCr;
    ChompedIs(p.before, "---");
    NothingCollected();
    if HasBlock(raw) {
      var opening, rest, lines, closing, text :| Opens(raw, opening, rest) && IsBlock(rest, lines, closing, text);
      PartitionLine(opening, rest);
      BlockIsRead(rest, lines, closing, text, [], map[]);
    }
    if p.found && RStripCr(p.before) == DELIMITER && ReadBlock(p.after, map[]).Some? {
      var lines, closing := ReadIsBlock(p.after, map[]);
      assert Opens(raw, p.before, p.after);
    }
  }

  lemma SplitOf(raw: string)
    ensures ReadBlock(Partition(raw).after, map[]).None? ==> !HasBlock(raw)
    ensures SplitSpec(raw) == if HasBlock(raw) then ReadBlock(Partition(raw).after, map[]).value else (map[], raw)
  {
    HasBlockIs(raw);
    hide HasBlock, ReadBlock, Partition, RStripCr;
  }

  /** A text with a header block in front is split behind it; any other is all body. */
  lemma SplitIs(raw: string)
    ensures var (header, body) := SplitSpec(raw);
            if HasBlock(raw)
            then exists opening, rest, lines, closing :: IsFile(raw, header, body, opening, rest, lines, closing)
            else header == map[] && body == raw
  {
    HasBlockIs(raw);
    SplitOf(raw);
    var p := Partition(raw);
    if HasBlock(raw) {
      ChompedIs(p.before, "---");
      hide *;
      NothingCollected();
      var (header, body) := SplitSpec(raw);
      var lines, closing := ReadIsBlock(p.after, map[]);
      BlockIsRead(p.after, lines, closing, body, [], map[]);
      assert [] + lines == lines;
      BlockIsFile(raw, header, body, p.before, p.after, lines, closing);
    }
  }

  lemma BlockIsFile(raw: string, header: Header, body: string, opening: string, rest: string, lines: seq<string>,
                    closing: string)
    requires raw == opening + "\n" + rest && IsLine(opening, DELIMITER)
    requires IsBlock(rest, lines, closing, body) && Collects(header, lines)
    ensures IsFile(raw, header, body, opening, rest, lines, closing)
  {
  }

  lemma NothingCollected()
    ensures Collects(map[], [])
  {
  }

  // ----- writing -----

  /** A stored memory; created is the time stamp as it is written. */
  datatype Item = Item(id: string, created: string, text: string)

  function Field(key: string, value: string): string {
    key + ": " + value
  }

  function Serialize(item: Item): string {
    DELIMITER + "\n" + IdOnwards(item)
  }

  function IdOnwards(item: Item): string {
    Field("id", JsonString.Write(item.id)) + "\n" + CreatedOnwards(item)
  }

  function CreatedOnwards(item: Item): string {
    Field("created_at", item.created) + "\n" + FormatOnwards(item)
  }

  function FormatOnwards(item: Item): string {
    Field("format", FORMAT_VERSION) + "\n" + (DELIMITER + "\n" + (item.text + "\n"))
  }

  /** How a number is written: on one line, unquoted, without blanks around it. */
  predicate IsPlainValue(value: string) {
    && value != [] && '\n' !in value && value[0] != '"'
    && !IsSpace(value[0]) && !IsSpace(value[|value| - 1])
  }

  function RemoveSuffixNewline(s: string): string {
    if s != [] && s[|s| - 1] == '\n' then s[..|s| - 1] else s
  }

  /** Universal newlines, as files without a format version are read. */
  function NormalizeNewlines(s: string): string {
    if s == [] then []
    else if s[0] == '\r' && |s| > 1 && s[1] == '\n' then "\n" + NormalizeNewlines(s[2..])
    else if s[0] == '\r' then "\n" + NormalizeNewlines(s[1..])
    else [s[0]] + NormalizeNewlines(s[1..])
  }

  lemma {:induction false} NormalizeText(s: string, i: nat)
    requires i <= |s| && forall k :: 0 <= k < i ==> !TextLines.IsBreak(s[k])
    ensures NormalizeNewlines(s) == s[..i] + NormalizeNewlines(s[i..])
  {
    if i == 0 {
      assert s[0..] == s;
    } else {
      NormalizeText(s[1..], i - 1);
      assert s[1..][i - 1..] == s[i..] && s[..i] == [s[0]] + s[1..][..i - 1];
    }
  }

  lemma NormalizeBreak(s: string, i: nat)
    requires i < |s| && TextLines.IsBreak(s[i])
    ensures NormalizeNewlines(s[i..]) == "\n" + NormalizeNewlines(s[i + TextLines.BreakLength(s, i)..])
  {
    assert s[i..][1..] == s[i + 1..];
    assert i + 1 < |s| ==> s[i..][2..] == s[i + 2..];
  }

  /** Whatever its line breaks were, the text comes out with newlines between the same lines. */
  lemma {:induction false} NormalizedLines(s: string)
    ensures NormalizeNewlines(s) == Join(TextLines.Pieces(s), "\n")
    decreases |s|
  {
    var i := TextLines.FirstBreak(s);
    TextLines.UnfoldPieces(s);
    NormalizeText(s, i);
    hide *;
    if i == |s| {
      assert s[i..] == "" && s[..i] == s;
      NormalizeNothing();
      JoinSnoc([], s, "\n");
      assert [] + [s] == [s] && s + "" == s;
    } else {
      NormalizeBreak(s, i);
      var rest := s[i + TextLines.BreakLength(s, i)..];
      NormalizedLines(rest);
      JoinCons(s[..i], TextLines.Pieces(rest), "\n");
      Regroup(s[..i], "\n", NormalizeNewlines(rest));
    }
  }

  lemma Regroup(a: string, b: string, c: string)
    ensures a + (b + c) == a + b + c
  {
  }

  lemma NormalizeNothing()
    ensures NormalizeNewlines("") == ""
  {
  }

  /** The text and header of a file's contents. */
  function ParseText(raw: string): string {
    var (header, body) := SplitSpec(raw);
    if "format" in header && header["format"] == FORMAT_VERSION then RemoveSuffixNewline(body)
    else Strip(NormalizeNewlines(body))
  }

  /** A file with the format version: its body, but for a newline at the end. */
  lemma VersionedTextIs(raw: string)
    requires var header := SplitSpec(raw).0; "format" in header && header["format"] == "2"
    ensures var (text, body) := (ParseText(raw), SplitSpec(raw).1);
            body == text + "\n" || (body == text && (text != "" ==> text[|text| - 1] != '\n'))
  {
    hide SplitSpec;
  }

  /** A file without the format version: the lines of its body, one newline between each two, stripped. */
  lemma LegacyTextIs(raw: string)
    requires var header := SplitSpec(raw).0; "format" !in header || header["format"] != "2"
    ensures ParseText(raw) == Strip(Join(TextLines.Pieces(SplitSpec(raw).1), "\n"))
  {
    NormalizedLines(SplitSpec(raw).1);
    hide SplitSpec, Strip, NormalizeNewlines, Join;
  }

  /**
    The id of a file named stem: its stem, unless the header names the same file
    with other letter case. sameFile says whether the header's id names this file.
   */
  function CanonicalId(stem: string, header: Header, casefold: string -> string, sameFile: string -> bool): string {
    if "id" !in header || header["id"] == [] || header["id"] == stem then stem
    else if casefold(header["id"]) != casefold(stem) then stem
    else if sameFile(header["id"]) then header["id"] else stem
  }

  /** The id is another than the stem only if the header has it, not empty, as this file's name in other letter case. */
  lemma CanonicalIdIs(stem: string, header: Header, casefold: string -> string, sameFile: string -> bool, id: string)
    requires id != stem
    ensures CanonicalId(stem, header, casefold, sameFile) == id <==>
            "id" in header && header["id"] == id != "" && casefold(id) == casefold(stem) && sameFile(id)
  {
  }

  // ----- the round trip -----

  lemma {:induction false} PartitionLine(line: string, rest: string)
    requires '\n' !in line
    ensures Partition(line + "\n" + rest) == Parts(line, true, rest)
  {
    var s := line + "\n" + rest;
    if line == [] {
      assert s == "\n" + rest;
      assert s[1..] == rest;
    } else {
      PartitionLine(line[1..], rest);
      assert s[1..] == line[1..] + "\n" + rest;
      assert line == [line[0]] + line[1..];
    }
  }

  lemma {:induction false} NameThenColon(key: string, rest: string)
    requires forall i :: 0 <= i < |key| ==> IsNameChar(key[i])
    ensures NameLength(key + ":" + rest) == |key|
  {
    var s := key + ":" + rest;
    if key != [] {
      NameThenColon(key[1..], rest);
      assert s[1..] == key[1..] + ":" + rest;
    } else {
      assert s[0] == ':';
    }
  }

  lemma StripPadded(value: string)
    requires value != [] && !IsSpace(value[0]) && !IsSpace(value[|value| - 1])
    ensures Strip(" " + value) == value
  {
    assert (" " + value)[1..] == value;
    assert LStrip(" " + value) == LStrip(value) == value;
    assert RStrip(value) == value;
  }

  /** Letters, digits, underscores and hyphens, the first of them a letter or an underscore. */
  predicate IsKey(key: string) {
    && key != [] && key[0] != '-' && !('0' <= key[0] <= '9')
    && forall i {:trigger key[i]} :: 0 <= i < |key| ==>
         var c := key[i]; 'a' <= c <= 'z' || 'A' <= c <= 'Z' || '0' <= c <= '9' || c in {'_', '-'}
  }

  lemma FieldIsHeaderLine(key: string, value: string)
    requires IsKey(key)
    ensures HeaderLine(Field(key, value)) == Some((key, " " + value))
  {
    var line := Field(key, value);
    assert line == key + ":" + (" " + value);
    NameThenColon(key, " " + value);
    assert line[..|key|] == key;
    assert line[|key|..] == ":" + (" " + value);
    assert line[|key|..][0] == ':';
    assert line[|key|..][0 + 1..] == " " + value;
  }

  lemma {:induction false} StripStops(s: string)
    requires s != [] && !IsSpace(s[0])
    ensures Strip(s) != []
  {
    assert LStrip(s) == s;
    RStripKeepsFirst(s);
  }

  lemma {:induction false} RStripKeepsFirst(s: string)
    requires s != [] && !IsSpace(s[0])
    ensures RStrip(s) != []
  {
    if IsSpace(s[|s| - 1]) {
      RStripKeepsFirst(s[..|s| - 1]);
    }
  }

  /** Reading one written field adds it to the header and goes on behind it. */
  lemma ReadsField(key: string, value: string, rest: string, header: Header)
    requires IsKey(key) && key[0] != '-' && key !in header
    requires value != [] && '\n' !in value && !IsSpace(value[0]) && !IsSpace(value[|value| - 1])
    ensures ReadBlock(Field(key, value) + "\n" + rest, header) == ReadBlock(rest, header[key := DecodeValue(value)])
  {
    var line := Field(key, value);
    assert forall i :: 0 <= i < |key| ==> key[i] != '\n';
    assert '\n' !in line;
    PartitionLine(line, rest);
    assert line[|line| - 1] == value[|value| - 1];
    assert RStripCr(line) == line;
    assert line[0] == key[0];
    StripStops(line);
    FieldIsHeaderLine(key, value);
    StripPadded(value);
  }

  /** A closed block: the body is everything behind the closing line, verbatim. */
  lemma ReadsDelimiter(rest: string, header: Header)
    ensures ReadBlock(DELIMITER + "\n" + rest, header) == Some((header, rest))
  {
    PartitionLine(DELIMITER, rest);
  }

  lemma WrittenIdIsOneLine(id: string)
    ensures var v := JsonString.Write(id);
            v != [] && '\n' !in v && !IsSpace(v[0]) && !IsSpace(v[|v| - 1])
  {
    JsonString.WritesPrintable(id);
    var v := JsonString.Write(id);
    assert v[|v| - 1] == '"';
  }

  function HeaderSoFar(item: Item): Header {
    map["id" := item.id, "created_at" := item.created]
  }

  lemma FieldsAreDistinct(item: Item)
    ensures "created_at" !in map["id" := item.id]
    ensures map["id" := item.id]["created_at" := item.created] == HeaderSoFar(item)
    ensures "format" !in HeaderSoFar(item)
  {
    assert |"id"| == 2 && |"created_at"| == 10 && |"format"| == 6;
  }

  function WrittenHeader(item: Item): Header {
    HeaderSoFar(item)["format" := FORMAT_VERSION]
  }

  lemma ReadsFormat(item: Item, header: Header)
    requires "format" !in header
    ensures ReadBlock(FormatOnwards(item), header) == Some((header["format" := FORMAT_VERSION], item.text + "\n"))
  {
    DecodesPlain(FORMAT_VERSION);
    ReadsField("format", FORMAT_VERSION, DELIMITER + "\n" + (item.text + "\n"), header);
    ReadsDelimiter(item.text + "\n", header["format" := FORMAT_VERSION]);
  }

  lemma ReadsCreated(item: Item, header: Header)
    requires "created_at" !in header && IsPlainValue(item.created)
    ensures ReadBlock(CreatedOnwards(item), header)
         == ReadBlock(FormatOnwards(item), header["created_at" := item.created])
  {
    DecodesPlain(item.created);
    ReadsField("created_at", item.created, FormatOnwards(item), header);
  }

  lemma ReadsId(item: Item)
    ensures ReadBlock(IdOnwards(item), map[]) == ReadBlock(CreatedOnwards(item), map["id" := item.id])
  {
    WrittenIdIsOneLine(item.id);
    DecodesWritten(item.id);
    ReadsField("id", JsonString.Write(item.id), CreatedOnwards(item), map[]);
  }

  /** What is written reads back as it was, whatever the text and the id contain. */
  lemma SplitsWhatItWrote(item: Item)
    requires IsPlainValue(item.created)
    ensures SplitSpec(Serialize(item)) == (WrittenHeader(item), item.text + "\n")
  {
    PartitionLine(DELIMITER, IdOnwards(item));
    ReadsId(item);
    FieldsAreDistinct(item);
    hide ReadBlock, IdOnwards, CreatedOnwards, FormatOnwards, Partition, HeaderSoFar;
    ReadsCreated(item, map["id" := item.id]);
    ReadsFormat(item, HeaderSoFar(item));
  }

  lemma DecodesWritten(id: string)
    ensures DecodeValue(JsonString.Write(id)) == id
  {
    JsonString.ReadsWhatItWrote(id);
  }

  lemma DecodesPlain(value: string)
    requires value != [] && value[0] != '"'
    ensures DecodeValue(value) == value
  {
  }

  /** The text and the id of a saved memory come back exactly. */
  lemma ParsesWhatItWrote(item: Item, casefold: string -> string, sameFile: string -> bool)
    requires IsPlainValue(item.created)
    ensures ParseText(Serialize(item)) == item.text
    ensures CanonicalId(item.id, SplitSpec(Serialize(item)).0, casefold, sameFile) == item.id
  {
    SplitsWhatItWrote(item);
    assert RemoveSuffixNewline(item.text + "\n") == item.text;
  }

  /**
    End to end through the cache: a load during which the saved file stays in place
    returns the saved text, in every interleaving of everything else, as long as
    signatures tell.
   */
  lemma SavedTextIsLoaded(parse: MemoryCache.Parser, states: seq<MemoryCache.Store>, steps: seq<MemoryCache.Step>,
                          n: nat, c: MemoryCache.Caller, item: Item, signature: MemoryCache.Signature)
    requires IsPlainValue(item.created)
    requires forall name, bytes :: parse(name, bytes) == Some(ParseText(bytes))
    requires MemoryCache.IsRun(parse, states, steps) && n < |states|
    requires MemoryCache.Tells(parse, states[n].history)
    requires c in states[n].calls && states[n].calls[c].Returned?
    requires var k, h := states[n].calls[c], states[n].history;
             forall j :: k.started <= j < |h| ==>
               MemoryCache.FileAt(h[j], k.name) == MemoryCache.File(signature, Serialize(item))
    ensures states[n].calls[c].result == Some(item.text)
  {
    MemoryCache.LoadsAreLinearizable(parse, states, steps, n);
    ParsesWhatItWrote(item, s => s, s => true);
  }
}
