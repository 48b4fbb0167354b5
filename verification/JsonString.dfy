/**
  JSON string literals (RFC 8259, section 7) as the memory header stores ids:
  an ASCII-only writer and a reader that also accepts what others may write.
 */
module JsonString {
  import opened Wrappers

  const HEX := "0123456789abcdef"

  function HexDigit(n: nat): char
    requires n < 16
  {
    HEX[n]
  }

  /** Both cases are read; only lower case is written. */
  function HexValue(c: char): Option<nat> {
    if '0' <= c <= '9' then Some((c - '0') as nat)
    else if 'a' <= c <= 'f' then Some((c - 'a') as nat + 10)
    else if 'A' <= c <= 'F' then Some((c - 'A') as nat + 10)
    else None
  }

  function Hex4(n: nat): (s: string)
    requires n < 0x1_0000
    ensures |s| == 4
  {
    [HexDigit(n / 0x1000), HexDigit(n / 0x100 % 16), HexDigit(n / 16 % 16), HexDigit(n % 16)]
  }

  /** The value of the four hex digits that s starts with. */
  function ReadHex4(s: string): (r: Option<nat>)
    ensures r.Some? ==> |s| >= 4 && r.value < 0x1_0000
  {
    if |s| < 4 then None
    else
      match (HexValue(s[0]), HexValue(s[1]), HexValue(s[2]), HexValue(s[3]))
      case (Some(a), Some(b), Some(c), Some(d)) =>
        if a < 16 && b < 16 && c < 16 && d < 16 then Some(a * 0x1000 + b * 0x100 + c * 16 + d) else None
      case _ => None
  }

  // ----- writing -----

  function EscapeUnit(n: nat): string
    requires n < 0x1_0000
  {
    "\\u" + Hex4(n)
  }

  function HighUnit(c: char): (n: nat)
    requires c as nat >= 0x1_0000
    ensures IsHigh(n)
  {
    0xd800 + (c as nat - 0x1_0000) / 0x400
  }

  function LowUnit(c: char): (n: nat)
    requires c as nat >= 0x1_0000
    ensures IsLow(n)
  {
    0xdc00 + (c as nat - 0x1_0000) % 0x400
  }

  /** Everything but printable ASCII is escaped, beyond the basic plane as a surrogate pair. */
  function EscapeChar(c: char): string {
    if c == '"' then "\\\""
    else if c == '\\' then "\\\\"
    else if c == '\n' then "\\n"
    else if c == '\r' then "\\r"
    else if c == '\t' then "\\t"
    else if c == 8 as char then "\\b"
    else if c == 12 as char then "\\f"
    else if ' ' <= c <= '~' then [c]
    else if c as nat < 0x1_0000 then EscapeUnit(c as nat)
    else EscapeUnit(HighUnit(c)) + EscapeUnit(LowUnit(c))
  }

  function EscapeAll(s: string): string {
    if s == [] then [] else EscapeChar(s[0]) + EscapeAll(s[1..])
  }

  function Write(s: string): string {
    "\"" + EscapeAll(s) + "\""
  }

  /** Four lower-case hex digits, the most significant first. */
  ghost predicate SpellsUnit(s: string, n: nat) {
    exists a: nat, b: nat, c: nat, d: nat {:trigger Digits(s, a, b, c, d)} ::
      Digits(s, a, b, c, d) && n == ((a * 16 + b) * 16 + c) * 16 + d
  }

  predicate Digits(s: string, a: nat, b: nat, c: nat, d: nat) {
    && a < 16 && b < 16 && c < 16 && d < 16
    && s == ["0123456789abcdef"[a], "0123456789abcdef"[b], "0123456789abcdef"[c], "0123456789abcdef"[d]]
  }

  lemma HexDigits(n: nat)
    requires n < 0x1_0000
    ensures var (a, b, c, d) := (n / 0x1000, n / 0x100 % 16, n / 16 % 16, n % 16);
            a < 16 && n == ((a * 16 + b) * 16 + c) * 16 + d
  {
    assert n / 0x100 == n / 0x1000 * 16 + n / 0x100 % 16;
    assert n / 16 == n / 0x100 * 16 + n / 16 % 16;
  }

  lemma HexIs(n: nat)
    requires n < 0x1_0000
    ensures SpellsUnit(Hex4(n), n)
  {
    HexDigits(n);
    var a, b, c, d := n / 0x1000, n / 0x100 % 16, n / 16 % 16, n % 16;
    assert Digits(Hex4(n), a, b, c, d);
    hide Digits, Hex4;
  }

  /** The units of a surrogate pair. */
  ghost predicate SpellsPair(s: string, n: nat) {
    exists h: string, l: string, high: nat, low: nat {:trigger IsPair(s, h, l, high, low)} ::
      IsPair(s, h, l, high, low) && n == 0x1_0000 + high * 0x400 + low
  }

  ghost predicate IsPair(s: string, h: string, l: string, high: nat, low: nat) {
    s == "\\u" + h + ("\\u" + l) && SpellsUnit(h, 0xd800 + high) && SpellsUnit(l, 0xdc00 + low) && low < 0x400
  }

  /** What stands for a character in the basic plane, beside itself. */
  lemma ShortEscapeIs(c: char)
    ensures var s := EscapeChar(c);
            match c as nat
            case 8 => s == "\\b"
            case 9 => s == "\\t"
            case 10 => s == "\\n"
            case 12 => s == "\\f"
            case 13 => s == "\\r"
            case 34 => s == "\\\""
            case 92 => s == "\\\\"
            case n => (32 <= n < 127 ==> s == [c]) && ((n < 32 || 127 <= n < 0x1_0000) ==> s == "\\u" + Hex4(n))
  {
    hide Hex4;
  }

  /** How any other character is written: as its unit in hex, or as the two of a surrogate pair. */
  lemma LongEscapeIs(c: char)
    requires c as nat >= 127
    ensures var (s, n) := (EscapeChar(c), c as nat);
            if n < 0x1_0000 then |s| == 6 && s[..2] == "\\u" && SpellsUnit(s[2..], n) else SpellsPair(s, n)
  {
    var n, s := c as nat, EscapeChar(c);
    if n < 0x1_0000 {
      HexIs(n);
      ShortEscapeIs(c);
      hide SpellsUnit, Hex4, EscapeChar;
      assert s[2..] == Hex4(n);
    } else {
      HexIs(HighUnit(c));
      HexIs(LowUnit(c));
      var high, low := (n - 0x1_0000) / 0x400, (n - 0x1_0000) % 0x400;
      hide SpellsUnit, Hex4;
      assert IsPair(s, Hex4(HighUnit(c)), Hex4(LowUnit(c)), high, low);
    }
  }

  // ----- reading -----

  predicate IsHigh(n: nat) { 0xd800 <= n < 0xdc00 }

  predicate IsLow(n: nat) { 0xdc00 <= n < 0xe000 }

  /** The character that one escape after the backslash stands for, and its length. */
  function ReadEscape(s: string): (r: Option<(char, nat)>)
    ensures r.Some? ==> 1 <= r.value.1 <= |s|
  {
    if s == [] then None
    else if s[0] == '"' then Some(('"', 1))
    else if s[0] == '\\' then Some(('\\', 1))
    else if s[0] == '/' then Some(('/', 1))
    else if s[0] == 'n' then Some(('\n', 1))
    else if s[0] == 'r' then Some(('\r', 1))
    else if s[0] == 't' then Some(('\t', 1))
    else if s[0] == 'b' then Some((8 as char, 1))
    else if s[0] == 'f' then Some((12 as char, 1))
    else if s[0] == 'u' then ReadUnicode(s[1..])
    else None
  }

  /** A \u escape, joined with the one that follows when the two form a surrogate pair. */
  function ReadUnicode(s: string): (r: Option<(char, nat)>)
    ensures r.Some? ==> 5 <= r.value.1 <= |s| + 1
  {
    match ReadHex4(s)
    case None => None
    case Some(n) =>
      if IsHigh(n) then
        if |s| >= 10 && s[4] == '\\' && s[5] == 'u' then
          match ReadHex4(s[6..])
          case Some(m) =>
            if IsLow(m) then Some(((0x1_0000 + (n - 0xd800) * 0x400 + (m - 0xdc00)) as char, 11)) else None
          case None => None
        else None
      else if IsLow(n) then None
      else Some((n as char, 5))
  }

  /** The characters up to the closing quote, which must end the text. */
  function ReadRest(s: string): Option<string>
    decreases |s|
  {
    if s == [] then None
    else if s[0] == '"' then if |s| == 1 then Some([]) else None
    else if s[0] == '\\' then
      match ReadEscape(s[1..])
      case None => None
      case Some((c, n)) =>
        match ReadRest(s[1 + n..])
        case None => None
        case Some(r) => Some([c] + r)
    else if s[0] < ' ' then None
    else
      match ReadRest(s[1..])
      case None => None
      case Some(r) => Some([s[0]] + r)
  }

  function Read(s: string): Option<string> {
    if s != [] && s[0] == '"' then ReadRest(s[1..]) else None
  }

  // ----- what may be read -----

  predicate IsHex(c: char, v: nat) {
    v < 16 && (c == "0123456789abcdef"[v] || c == "0123456789ABCDEF"[v])
  }

  lemma HexValueIs(c: char)
    ensures forall v: nat :: HexValue(c) == Some(v) <==> IsHex(c, v)
    ensures HexValue(c).Some? ==> HexValue(c).value < 16
  {
  }

  /** Four hex digits of either case. */
  ghost predicate IsUnit(h: string, n: nat) {
    exists a: nat, b: nat, c: nat, d: nat {:trigger HasDigits(h, a, b, c, d)} ::
      HasDigits(h, a, b, c, d) && n == a * 0x1000 + b * 0x100 + c * 0x10 + d
  }

  predicate HasDigits(h: string, a: nat, b: nat, c: nat, d: nat) {
    |h| == 4 && IsHex(h[0], a) && IsHex(h[1], b) && IsHex(h[2], c) && IsHex(h[3], d)
  }

  lemma UnitIs(s: string, n: nat)
    ensures ReadHex4(s) == Some(n) <==> |s| >= 4 && IsUnit(s[..4], n)
  {
    if |s| >= 4 {
      HexValueIs(s[0]);
      HexValueIs(s[1]);
      HexValueIs(s[2]);
      HexValueIs(s[3]);
      hide HexValue, IsHex;
      if ReadHex4(s) == Some(n) {
        var (a, b) := (HexValue(s[0]).value, HexValue(s[1]).value);
        var (c, d) := (HexValue(s[2]).value, HexValue(s[3]).value);
        assert HasDigits(s[..4], a, b, c, d);
      }
    }
  }

  /** What stands for one character in a JSON string, halves of surrogate pairs aside. */
  ghost predicate StandsFor(p: string, c: char) {
    || (p == [c] && ' ' <= c && c != '"' && c != '\\')
    || IsShortEscape(p, c)
    || (|p| > 2 && p[0] == '\\' && p[1] == 'u' && IsUnicode(p[2..], c))
  }

  predicate IsShortEscape(p: string, c: char) {
    |p| == 2 && p[0] == '\\' &&
    match p[1]
    case '"' => c == '"'
    case '\\' => c == '\\'
    case '/' => c == '/'
    case 'b' => c as nat == 8
    case 'f' => c as nat == 12
    case 'n' => c as nat == 10
    case 'r' => c as nat == 13
    case 't' => c as nat == 9
    case _ => false
  }

  /** The characters' spellings one after the other, and the closing quote. */
  ghost predicate Spells(s: string, text: string)
    decreases |text|
  {
    if text == "" then s == "\"" else exists p, rest :: Begins(s, p, text[0], rest) && Spells(rest, text[1..])
  }

  ghost predicate Begins(s: string, p: string, c: char, rest: string) {
    s == p + rest && StandsFor(p, c)
  }

  /** What ReadRest makes of the first character, and where it goes on. */
  function ReadOne(s: string): Option<(char, nat)> {
    if s == [] || s[0] == '"' then None
    else if s[0] == '\\' then
      match ReadEscape(s[1..])
      case None => None
      case Some((c, n)) => Some((c, n + 1))
    else if s[0] < ' ' then None
    else Some((s[0], 1))
  }

  /** A \u escape as ReadUnicode sees it, from behind the u. */
  ghost predicate IsUnicode(h: string, c: char) {
    (|h| == 4 && !(0xd800 <= c as nat < 0xe000) && IsUnit(h, c as nat))
    || exists high: nat, low: nat {:trigger IsPairOf(h, c, high, low)} :: IsPairOf(h, c, high, low)
  }

  ghost predicate IsPairOf(h: string, c: char, high: nat, low: nat) {
    && |h| == 10 && h[4..6] == "\\u" && high < 0x400 && low < 0x400
    && IsUnit(h[..4], 0xd800 + high) && IsUnit(h[6..], 0xdc00 + low) && c as nat == 0x1_0000 + high * 0x400 + low
  }

  lemma UnicodeIsRead(s: string)
    requires ReadUnicode(s).Some?
    ensures var (c, n) := ReadUnicode(s).value; IsUnicode(s[..n - 1], c)
  {
    var (c, n) := ReadUnicode(s).value;
    var m := ReadHex4(s).value;
    UnitIs(s, m);
    hide ReadHex4, IsUnit;
    if IsHigh(m) {
      var k := ReadHex4(s[6..]).value;
      UnitIs(s[6..], k);
      assert s[..10][..4] == s[..4] && s[..10][6..] == s[6..][..4];
      PairIsUnicode(s[..10], c, m, k);
    }
  }

  lemma PairIsUnicode(h: string, c: char, m: nat, k: nat)
    requires |h| == 10 && h[4] == '\\' && h[5] == 'u' && IsHigh(m) && IsLow(k)
    requires IsUnit(h[..4], m) && IsUnit(h[6..], k) && c as nat == 0x1_0000 + (m - 0xd800) * 0x400 + (k - 0xdc00)
    ensures IsUnicode(h, c)
  {
    hide IsUnit;
    assert h[4..6] == [h[4], h[5]];
    assert IsPairOf(h, c, m - 0xd800, k - 0xdc00);
  }

  lemma UnicodeIsOnly(h: string, c: char, rest: string)
    requires IsUnicode(h, c)
    ensures ReadUnicode(h + rest) == Some((c, |h| + 1))
  {
    if |h| == 4 {
      assert (h + rest)[..4] == h;
      UnitIs(h + rest, c as nat);
      hide ReadHex4, IsUnit;
    } else {
      var high: nat, low: nat :| IsPairOf(h, c, high, low);
      PairIsOnly(h, c, high, low, rest);
    }
  }

  lemma PairIsOnly(h: string, c: char, high: nat, low: nat, rest: string)
    requires IsPairOf(h, c, high, low)
    ensures ReadUnicode(h + rest) == Some((c, 11)) && |h| == 10
  {
    hide ReadHex4, IsUnit;
    var s := h + rest;
    assert s[..4] == h[..4] && s[6..][..4] == h[6..] && s[4] == h[4..6][0] && s[5] == h[4..6][1];
    UnitIs(s, 0xd800 + high);
    UnitIs(s[6..], 0xdc00 + low);
  }

  lemma OneIsRead(s: string)
    requires ReadOne(s).Some?
    ensures var (c, n) := ReadOne(s).value; 0 < n <= |s| && StandsFor(s[..n], c)
  {
    if s[0] == '\\' && |s| > 1 && s[1] == 'u' {
      UnicodeIsRead(s[1..][1..]);
      var (c, n) := ReadOne(s).value;
      assert s[1..][1..] == s[2..] && s[..n][2..] == s[2..][..n - 2];
      hide ReadUnicode, IsUnicode;
    } else {
      hide ReadUnicode, IsUnicode;
    }
  }

  lemma OneIsOnly(p: string, c: char, rest: string)
    requires StandsFor(p, c)
    ensures ReadOne(p + rest) == Some((c, |p|))
  {
    if |p| > 2 {
      EscapeIsOnly(p, c, rest);
    } else {
      assert |p| > 1 ==> (p + rest)[1..][0] == p[1];
      hide ReadUnicode, IsUnicode;
    }
  }

  lemma EscapeIsOnly(p: string, c: char, rest: string)
    requires |p| > 2 && p[0] == '\\' && p[1] == 'u' && IsUnicode(p[2..], c)
    ensures ReadOne(p + rest) == Some((c, |p|))
  {
    hide *;
    var more := p[2..] + rest;
    UnicodeIsOnly(p[2..], c, rest);
    ReadsUnicode(more);
    assert p + rest == ['\\', 'u'] + more;
  }

  lemma ReadsUnicode(s: string)
    requires ReadUnicode(s).Some?
    ensures ReadOne(['\\', 'u'] + s) == Some((ReadUnicode(s).value.0, ReadUnicode(s).value.1 + 1))
  {
    hide ReadUnicode;
    assert (['\\', 'u'] + s)[1..] == ['u'] + s && (['u'] + s)[1..] == s;
  }

  lemma ReadNext(s: string)
    requires s != [] && s[0] != '"'
    ensures ReadOne(s).None? ==> ReadRest(s).None?
    ensures ReadOne(s).Some? ==>
              var (first, rest) := (ReadOne(s).value, ReadRest(s[ReadOne(s).value.1..]));
              ReadRest(s) == if rest.None? then None else Some([first.0] + rest.value)
  {
    hide ReadEscape;
  }

  /** Accepted are exactly the spellings of texts, and each gives the text it spells. */
  lemma {:induction false} RestIs(s: string, text: string)
    ensures ReadRest(s) == Some(text) <==> Spells(s, text)
    decreases |s|
  {
    if s == [] || s[0] == '"' {
      NoneBegins(s);
    } else {
      ReadNext(s);
      hide ReadRest, ReadOne, StandsFor;
      if ReadRest(s) == Some(text) {
        OneIsRead(s);
        var (c, n) := ReadOne(s).value;
        RestIs(s[n..], text[1..]);
        assert s == s[..n] + s[n..];
        assert Begins(s, s[..n], text[0], s[n..]);
      }
      if Spells(s, text) {
        var p, rest :| Begins(s, p, text[0], rest) && Spells(rest, text[1..]);
        OneIsOnly(p, text[0], rest);
        OneIsRead(s);
        assert s[|p|..] == rest;
        RestIs(rest, text[1..]);
        assert text == [text[0]] + text[1..];
      }
    }
  }

  lemma NoneBegins(s: string)
    requires s == [] || s[0] == '"'
    ensures forall p, c, rest :: !Begins(s, p, c, rest)
  {
    hide IsUnicode;
  }

  /** So a JSON string literal of RFC 8259, section 7, is read as the text it stands for, and nothing else is read. */
  lemma ReadIs(s: string, text: string)
    ensures Read(s) == Some(text) <==> s != "" && s[0] == '"' && Spells(s[1..], text)
  {
    if s != "" { RestIs(s[1..], text); }
    hide ReadRest, Spells;
  }

  // ----- the round trip -----

  lemma WrittenIsUnit(h: string, n: nat)
    requires SpellsUnit(h, n)
    ensures IsUnit(h, n) && |h| == 4
  {
    var a: nat, b: nat, c: nat, d: nat :| Digits(h, a, b, c, d) && n == ((a * 16 + b) * 16 + c) * 16 + d;
    assert HasDigits(h, a, b, c, d);
  }

  lemma WrittenPairStands(s: string, c: char)
    requires SpellsPair(s, c as nat)
    ensures StandsFor(s, c)
  {
    var h: string, l: string, high: nat, low: nat :| IsPair(s, h, l, high, low)
      && c as nat == 0x1_0000 + high * 0x400 + low;
    WrittenIsUnit(h, 0xd800 + high);
    WrittenIsUnit(l, 0xdc00 + low);
    assert s == "\\u" + h + ("\\u" + l) && low < 0x400 && high < 0x400;
    hide *;
    JoinedUnits(s, h, l, c, high, low);
  }

  lemma JoinedUnits(s: string, h: string, l: string, c: char, high: nat, low: nat)
    requires s == "\\u" + h + ("\\u" + l) && |h| == 4 && |l| == 4 && high < 0x400 && low < 0x400
    requires IsUnit(h, 0xd800 + high) && IsUnit(l, 0xdc00 + low) && c as nat == 0x1_0000 + high * 0x400 + low
    ensures StandsFor(s, c)
  {
    hide IsUnit, IsShortEscape;
    var p := s[2..];
    assert p == h + ("\\u" + l) && p[..4] == h && p[4..6] == "\\u" && p[6..] == l;
    assert IsPairOf(p, c, high, low);
  }

  /** What is written for a character stands for it. */
  lemma EscapeStandsFor(c: char)
    ensures StandsFor(EscapeChar(c), c)
  {
    ShortEscapeIs(c);
    var s, n := EscapeChar(c), c as nat;
    if n >= 0x1_0000 {
      LongEscapeIs(c);
      hide *;
      WrittenPairStands(s, c);
    } else if n < 32 || 127 <= n {
      HexIs(n);
      WrittenIsUnit(Hex4(n), n);
      hide IsUnit, SpellsUnit, EscapeChar, Hex4;
      assert n !in {8, 9, 10, 12, 13} ==> s[2..] == Hex4(n);
    } else {
      hide IsUnicode, EscapeChar;
    }
  }

  lemma {:induction false} WrittenSpells(s: string)
    ensures Spells(EscapeAll(s) + "\"", s)
  {
    if s != "" {
      var p, rest := EscapeChar(s[0]), EscapeAll(s[1..]) + "\"";
      EscapeStandsFor(s[0]);
      WrittenSpells(s[1..]);
      hide EscapeChar, StandsFor;
      assert EscapeAll(s) + "\"" == p + rest;
      assert Begins(EscapeAll(s) + "\"", p, s[0], rest);
    }
  }

  /** Reading back what was written gives the same string, whatever it holds. */
  lemma ReadsWhatItWrote(s: string)
    ensures Read(Write(s)) == Some(s)
  {
    WrittenSpells(s);
    assert Write(s)[1..] == EscapeAll(s) + "\"";
    ReadIs(Write(s), s);
  }

  predicate Printable(s: string) {
    forall i :: 0 <= i < |s| ==> ' ' <= s[i] <= '~'
  }

  lemma HexIsPrintable(n: nat)
    requires n < 0x1_0000
    ensures Printable(EscapeUnit(n))
  {
    forall d: nat | d < 16 ensures ' ' <= HexDigit(d) <= '~' {
    }
  }

  lemma EscapeIsPrintable(c: char)
    ensures Printable(EscapeChar(c))
  {
    if c as nat < 0x1_0000 {
      HexIsPrintable(c as nat);
    } else if c as nat >= 0x1_0000 {
      HexIsPrintable(HighUnit(c));
      HexIsPrintable(LowUnit(c));
    }
  }

  /** The writer's output is printable ASCII, so it fits on one header line. */
  lemma {:induction false} WritesPrintable(s: string)
    ensures Printable(EscapeAll(s))
  {
    if s != [] {
      hide EscapeChar;
      EscapeIsPrintable(s[0]);
      WritesPrintable(s[1..]);
    }
  }
}
