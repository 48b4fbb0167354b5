/**
  Line splitting shared by the file tools: the whole-text split, and the reader
  that takes a file in arbitrary chunks and keeps a bounded part of each line.
 */
module TextLines {

  // ----- splitting a whole text -----

  predicate IsBreak(c: char) {
    c == '\r' || c == '\n'
  }

  /** The position of the first line-break character, or the length of the text. */
  function FirstBreak(s: string): (i: nat)
    ensures i <= |s| && (i < |s| ==> IsBreak(s[i]))
    ensures forall k :: 0 <= k < i ==> !IsBreak(s[k])
  {
    if s == [] || IsBreak(s[0]) then 0 else 1 + FirstBreak(s[1..])
  }

  /** A carriage return takes a newline that follows it along. */
  function BreakLength(s: string, i: nat): (n: nat)
    requires i < |s|
    ensures 1 <= n <= 2 && i + n <= |s|
  {
    if s[i] == '\r' && i + 1 < |s| && s[i + 1] == '\n' then 2 else 1
  }

  /** The text between the breaks; there is always one piece more than there are breaks. */
  function Pieces(s: string): (p: seq<string>)
    ensures p != []
    decreases |s|
  {
    var i := FirstBreak(s);
    if i == |s| then [s] else [s[..i]] + Pieces(s[i + BreakLength(s, i)..])
  }

  /** A trailing break does not start an extra empty line. */
  function SplitLines(s: string): seq<string> {
    var p := Pieces(s);
    if p[|p| - 1] == [] then p[..|p| - 1] else p
  }

  /**
    The text is the pieces with a break between each two: a newline, a carriage
    return and a newline, or a carriage return that no newline follows. The pieces
    have no breaks in them.
   */
  ghost predicate IsSplit(s: string, pieces: seq<string>)
    decreases |pieces|
  {
    && pieces != [] && '\r' !in pieces[0] && '\n' !in pieces[0]
    && if |pieces| == 1 then s == pieces[0]
       else exists brk, rest :: IsCut(s, pieces[0], brk, rest) && IsSplit(rest, pieces[1..])
  }

  predicate IsCut(s: string, piece: string, brk: string, rest: string) {
    && s == piece + brk + rest && brk in {"\n", "\r", "\r\n"}
    && (brk == "\r" ==> rest == "" || rest[0] != '\n')
  }

  lemma BreakIsCut(s: string, i: nat)
    requires i < |s| && IsBreak(s[i])
    ensures var n := BreakLength(s, i);
            IsCut(s, s[..i], s[i..i + n], s[i + n..])
  {
    var n := BreakLength(s, i);
    assert s == s[..i] + s[i..i + n] + s[i + n..];
    assert s[i..i + n] == if n == 2 then [s[i], s[i + 1]] else [s[i]];
  }

  lemma {:induction false} PiecesAreSplit(s: string)
    ensures IsSplit(s, Pieces(s))
    decreases |s|
  {
    var i := FirstBreak(s);
    assert forall k :: 0 <= k < i ==> s[k] != '\r' && s[k] != '\n';
    if i < |s| {
      var n := BreakLength(s, i);
      var piece, brk, rest := s[..i], s[i..i + n], s[i + n..];
      PiecesAreSplit(rest);
      BreakIsCut(s, i);
      hide FirstBreak, BreakLength, IsCut;
      assert IsCut(s, piece, brk, rest);
      assert Pieces(s)[1..] == Pieces(rest);
    }
  }

  /** The lines are these pieces, but for an empty one at the end. */
  lemma LinesAreSplit(s: string)
    ensures var lines := SplitLines(s);
            (lines != [] && lines[|lines| - 1] != "" && IsSplit(s, lines)) || IsSplit(s, lines + [""])
  {
    PiecesAreSplit(s);
    hide Pieces, IsSplit;
    var p := Pieces(s);
    if p[|p| - 1] == [] { assert SplitLines(s) + [""] == p; }
  }

  // ----- joining texts -----

  /** The two texts do not cut a carriage return from its newline. */
  predicate CleanCut(a: string, b: string) {
    !(a != [] && a[|a| - 1] == '\r' && b != [] && b[0] == '\n')
  }

  function Joined(a: seq<string>, b: seq<string>): seq<string>
    requires a != [] && b != []
  {
    a[..|a| - 1] + [a[|a| - 1] + b[0]] + b[1..]
  }

  lemma {:induction false} FirstBreakAppend(a: string, b: string)
    ensures FirstBreak(a + b) == if FirstBreak(a) < |a| then FirstBreak(a) else |a| + FirstBreak(b)
  {
    if a == [] {
      assert a + b == b;
    } else if !IsBreak(a[0]) {
      FirstBreakAppend(a[1..], b);
      assert (a + b)[1..] == a[1..] + b;
    }
  }

  lemma JoinedSingle(a: string, q: seq<string>)
    requires q != []
    ensures Joined([a], q) == [a + q[0]] + q[1..]
  {
  }

  lemma JoinedCons(x: string, p: seq<string>, q: seq<string>)
    requires p != [] && q != []
    ensures Joined([x] + p, q) == [x] + Joined(p, q)
  {
  }

  lemma UnfoldPieces(s: string)
    ensures var i := FirstBreak(s);
            Pieces(s) == if i == |s| then [s] else [s[..i]] + Pieces(s[i + BreakLength(s, i)..])
  {
    hide FirstBreak, BreakLength;
  }

  /** The first break of a text stays a break, with what follows it, behind a prefix that has none. */
  lemma BreakAfterText(a: string, b: string, j: nat)
    requires j < |b| && IsBreak(b[j])
    ensures var n := BreakLength(b, j);
            && BreakLength(a + b, |a| + j) == n
            && (a + b)[..|a| + j] == a + b[..j]
            && (a + b)[|a| + j + n..] == b[j + n..]
  {
    assert (a + b)[|a| + j] == b[j];
  }

  lemma PiecesAfterText(a: string, b: string)
    requires FirstBreak(a) == |a|
    ensures Pieces(a + b) == Joined(Pieces(a), Pieces(b))
  {
    hide *;
    FirstBreakAppend(a, b);
    var j := FirstBreak(b);
    UnfoldPieces(a);
    UnfoldPieces(b);
    UnfoldPieces(a + b);
    JoinedSingle(a, Pieces(b));
    if j < |b| {
      BreakAfterText(a, b, j);
    }
  }

  /** Cut anywhere but inside a CRLF, the pieces of the whole are the joined pieces of the parts. */
  lemma {:induction false} PiecesAppend(a: string, b: string)
    requires CleanCut(a, b)
    ensures Pieces(a + b) == Joined(Pieces(a), Pieces(b))
    decreases |a|
  {
    hide Pieces, Joined;
    var i := FirstBreak(a);
    if i < |a| {
      var rest := a[i + BreakLength(a, i)..];
      PiecesAppend(rest, b);
      FirstPieceAppend(a, b);
      JoinedCons(a[..i], Pieces(rest), Pieces(b));
    } else {
      PiecesAfterText(a, b);
    }
  }

  lemma FirstPieceAppend(a: string, b: string)
    requires CleanCut(a, b) && FirstBreak(a) < |a|
    ensures var i := FirstBreak(a);
            var rest := a[i + BreakLength(a, i)..];
            Pieces(a) == [a[..i]] + Pieces(rest) && Pieces(a + b) == [a[..i]] + Pieces(rest + b)
  {
    hide *;
    FirstBreakAppend(a, b);
    UnfoldPieces(a);
    UnfoldPieces(a + b);
    BreakBeforeText(a, b, FirstBreak(a));
  }

  /** A break of the first text is the same break of both together, unless the cut goes through it. */
  lemma BreakBeforeText(a: string, b: string, i: nat)
    requires CleanCut(a, b) && i < |a| && IsBreak(a[i])
    ensures var n := BreakLength(a, i);
            BreakLength(a + b, i) == n && (a + b)[..i] == a[..i] && (a + b)[i + n..] == a[i + n..] + b
  {
    assert (a + b)[i] == a[i];
    if i + 1 < |a| {
      assert (a + b)[i + 1] == a[i + 1];
    } else if b != [] {
      assert (a + b)[i + 1] == b[0];
    }
  }

  // ----- clipped lines -----

  datatype Clipped = Clipped(text: string, cut: bool)

  function Clip(line: string, limit: nat): Clipped {
    if |line| <= limit then Clipped(line, false) else Clipped(line[..limit], true)
  }

  /** The start of the line, all of it if it is within the limit; the flag says whether anything is missing. */
  predicate IsClipped(c: Clipped, line: string, limit: nat) {
    && c.text <= line && |c.text| <= limit && (|c.text| < limit ==> c.text == line)
    && (c.cut <==> c.text != line)
  }

  function ClipAll(lines: seq<string>, limit: nat): seq<Clipped> {
    seq(|lines|, i requires 0 <= i < |lines| => Clip(lines[i], limit))
  }

  lemma ClipAllSnoc(lines: seq<string>, line: string, limit: nat)
    ensures ClipAll(lines + [line], limit) == ClipAll(lines, limit) + [Clip(line, limit)]
  {
  }

  /** Appends to a partly kept line, keeping at most limit characters. */
  function Extend(kept: Clipped, piece: string, limit: nat): Clipped
    requires |kept.text| <= limit
  {
    if kept.cut || piece == [] then kept
    else
      var room := limit - |kept.text|;
      if |piece| > room then Clipped(kept.text + piece[..room], true) else Clipped(kept.text + piece, false)
  }

  /** Extending the kept part of a line keeps what clipping the longer line would. */
  lemma ExtendClips(line: string, piece: string, limit: nat)
    ensures Extend(Clip(line, limit), piece, limit) == Clip(line + piece, limit)
  {
    if piece == [] {
      assert line + piece == line;
    } else if |line| <= limit && |line + piece| > limit {
      assert (line + piece)[..limit] == line + piece[..limit - |line|];
    } else if |line| > limit {
      assert (line + piece)[..limit] == line[..limit];
    }
  }

  // ----- reading in chunks -----

  function Concat(chunks: seq<string>): string {
    if chunks == [] then [] else Concat(chunks[..|chunks| - 1]) + chunks[|chunks| - 1]
  }

  lemma {:induction false} ConcatCons(chunk: string, rest: seq<string>)
    ensures Concat([chunk] + rest) == chunk + Concat(rest) && Concat([]) == ""
  {
    if rest == [] {
      assert [chunk] + rest == [chunk] && [chunk][..0] == [];
    } else {
      var n := |rest| - 1;
      ConcatCons(chunk, rest[..n]);
      assert ([chunk] + rest)[..n + 1] == [chunk] + rest[..n];
    }
  }

  /** The lines put out so far and the kept part of the unfinished one stand for this text. */
  ghost predicate Stands(out: seq<Clipped>, kept: Clipped, text: string, limit: nat) {
    var p := Pieces(text);
    out == ClipAll(p[..|p| - 1], limit) && kept == Clip(p[|p| - 1], limit)
  }

  lemma StandsText(out: seq<Clipped>, kept: Clipped, text: string, piece: string, limit: nat)
    requires Stands(out, kept, text, limit) && FirstBreak(piece) == |piece|
    ensures |kept.text| <= limit && Stands(out, Extend(kept, piece, limit), text + piece, limit)
  {
    var p := Pieces(text);
    OnePiece(piece);
    NoBreakIsClean(text, piece);
    PiecesAppend(text, piece);
    ExtendClips(p[|p| - 1], piece, limit);
    ClipWithin(p[|p| - 1], limit);
    hide Pieces, Extend, Clip, FirstBreak, CleanCut;
    assert Joined(p, [piece]) == p[..|p| - 1] + [p[|p| - 1] + piece];
  }

  lemma ClipWithin(line: string, limit: nat)
    ensures |Clip(line, limit).text| <= limit
  {
  }

  lemma OnePiece(piece: string)
    requires FirstBreak(piece) == |piece|
    ensures Pieces(piece) == [piece]
  {
  }

  lemma NoBreakIsClean(text: string, piece: string)
    requires FirstBreak(piece) == |piece|
    ensures CleanCut(text, piece)
  {
  }

  lemma StandsBreak(out: seq<Clipped>, kept: Clipped, text: string, brk: string, limit: nat)
    requires Stands(out, kept, text, limit) && CleanCut(text, brk)
    requires brk in {"\r", "\n", "\r\n"}
    ensures Stands(out + [kept], Clipped("", false), text + brk, limit)
  {
    var p := Pieces(text);
    PiecesAppend(text, brk);
    BreakPieces(brk);
    hide Pieces, FirstBreak, CleanCut;
    assert p[|p| - 1] + [] == p[|p| - 1];
    assert Joined(p, [[], []]) == p + [[]];
    ClipAllSnoc(p[..|p| - 1], p[|p| - 1], limit);
    assert p == p[..|p| - 1] + [p[|p| - 1]];
  }

  lemma BreakPieces(brk: string)
    requires brk in {"\r", "\n", "\r\n"}
    ensures Pieces(brk) == [[], []]
  {
    assert brk[BreakLength(brk, 0)..] == [];
  }

  /**
    Yields the lines of a file read in non-empty chunks, each clipped to limit
    characters. A carriage return at a chunk's edge is held back, since the next
    chunk may begin with its newline.
   */
  method IterLines(chunks: seq<string>, limit: nat) returns (out: seq<Clipped>)
    requires forall r :: r in chunks ==> r != []
    ensures out == ClipAll(SplitLines(Concat(chunks)), limit)
    ensures var lines := SplitLines(Concat(chunks));
            |out| == |lines| && forall k :: 0 <= k < |out| ==> IsClipped(out[k], lines[k], limit)
  {
    var kept, held := Clipped("", false), "";
    out := [];
    ghost var text := "";
    for k := 0 to |chunks|
      invariant Stands(out, kept, text, limit)
      invariant held == "" || held == "\r"
      invariant text + held == Concat(chunks[..k])
      invariant held == "\r" || EndsClean(text)
    {
      assert chunks[k] in chunks;
      assert chunks[..k + 1][..k] == chunks[..k];
      out, kept, held, text := TakeChunk(held, chunks[k], limit, out, kept, text);
    }
    assert chunks[..|chunks|] == chunks;
    out := Finish(held, limit, out, kept, text);
  }

  predicate EndsClean(text: string) {
    text == [] || text[|text| - 1] != '\r'
  }

  /** Partway through a buffer: what has been taken from it is accounted for. */
  ghost predicate Taken(out: seq<Clipped>, kept: Clipped, text: string, buf: string, pos: nat, limit: nat) {
    && pos <= |buf|
    && Stands(out, kept, text + buf[..pos], limit)
    && CleanCut(text + buf[..pos], buf[pos..])
    && (pos == |buf| ==> EndsClean(text + buf))
  }

  lemma BreakIsBreak(s: string, i: nat)
    requires i < |s| && IsBreak(s[i])
    ensures s[i..i + BreakLength(s, i)] in {"\r", "\n", "\r\n"}
  {
    var brk := s[i..i + BreakLength(s, i)];
    assert brk == if BreakLength(s, i) == 2 then [s[i], s[i + 1]] else [s[i]];
  }

  lemma TakenNothing(out: seq<Clipped>, kept: Clipped, text: string, held: string, data: string, limit: nat)
    requires data != [] && (held == "" || held == "\r")
    requires Stands(out, kept, text, limit) && (held == "\r" || EndsClean(text))
    ensures Taken(out, kept, text, held + data, 0, limit)
  {
    var buf := held + data;
    assert text + buf[..0] == text && buf[0..] == buf;
  }

  lemma TakenStands(out: seq<Clipped>, kept: Clipped, text: string, buf: string, pos: nat, limit: nat)
    requires Taken(out, kept, text, buf, pos, limit)
    ensures Stands(out, kept, text + buf[..pos], limit)
    ensures pos == |buf| ==> EndsClean(text + buf)
  {
  }

  lemma TakeLine(out: seq<Clipped>, kept: Clipped, text: string, buf: string, pos: nat, limit: nat)
    requires Taken(out, kept, text, buf, pos, limit) && FirstBreak(buf[pos..]) < |buf| - pos
    requires var at := pos + FirstBreak(buf[pos..]); !(buf[at] == '\r' && at + 1 == |buf|)
    ensures |kept.text| <= limit
    ensures pos + FirstBreak(buf[pos..]) + BreakLength(buf[pos..], FirstBreak(buf[pos..])) <= |buf|
    ensures var at := FirstBreak(buf[pos..]);
            var n := BreakLength(buf[pos..], at);
            Taken(out + [Extend(kept, buf[pos..][..at], limit)], Clipped("", false), text, buf, pos + at + n, limit)
  {
    hide Stands, Extend;
    var tail := buf[pos..];
    var at := FirstBreak(tail);
    var n := BreakLength(tail, at);
    var line, brk := tail[..at], tail[at..at + n];
    NoBreakBefore(tail);
    StandsText(out, kept, text + buf[..pos], line, limit);
    BreakIsBreak(tail, at);
    assert brk[0] == tail[at];
    StandsBreak(out, Extend(kept, line, limit), text + buf[..pos] + line, brk, limit);
    SliceAlong(text, buf, pos, at, n);
    CutAfterBreak(text, buf, pos + at, n);
  }

  lemma SliceAlong(text: string, buf: string, pos: nat, at: nat, n: nat)
    requires pos + at + n <= |buf|
    ensures text + buf[..pos] + buf[pos..][..at] + buf[pos..][at..at + n] == text + buf[..pos + at + n]
  {
  }

  /** A break taken whole leaves a clean cut behind it. */
  lemma CutAfterBreak(text: string, buf: string, at: nat, n: nat)
    requires at < |buf| && IsBreak(buf[at]) && n == BreakLength(buf[at..], 0) && at + n <= |buf|
    requires !(buf[at] == '\r' && at + 1 == |buf|)
    ensures CleanCut(text + buf[..at + n], buf[at + n..])
    ensures at + n == |buf| ==> EndsClean(text + buf)
  {
    var left := text + buf[..at + n];
    assert left[|left| - 1] == buf[at + n - 1];
  }

  lemma NoBreakBefore(s: string)
    ensures FirstBreak(s[..FirstBreak(s)]) == FirstBreak(s)
  {
  }

  /** One read: every complete line is put out, the rest is kept. */
  method TakeChunk(held0: string, data: string, limit: nat, out0: seq<Clipped>, kept0: Clipped, ghost text0: string)
    returns (out: seq<Clipped>, kept: Clipped, held: string, ghost text: string)
    requires data != [] && (held0 == "" || held0 == "\r")
    requires Stands(out0, kept0, text0, limit) && (held0 == "\r" || EndsClean(text0))
    ensures Stands(out, kept, text, limit)
    ensures held == "" || held == "\r"
    ensures text + held == text0 + held0 + data
    ensures held == "\r" || EndsClean(text)
  {
    TakenNothing(out0, kept0, text0, held0, data, limit);
    hide *;
    var buf, pos := held0 + data, 0;
    out, kept, pos := ScanBuffer(buf, limit, out0, kept0, text0);
    var tail := buf[pos..];
    var rest := HoldBack(tail);
    held := tail[|rest|..];
    RestHasNoBreak(tail);
    TakenStands(out, kept, text0, buf, pos, limit);
    StandsText(out, kept, text0 + buf[..pos], rest, limit);
    kept := Extend(kept, rest, limit);
    text := text0 + buf[..pos] + rest;
    TextAndHeld(text0, held0, data, pos);
  }

  /** Puts out each line that ends in the buffer, up to a carriage return at its very end. */
  method ScanBuffer(buf: string, limit: nat, out0: seq<Clipped>, kept0: Clipped, ghost text0: string)
    returns (out: seq<Clipped>, kept: Clipped, pos: nat)
    requires Taken(out0, kept0, text0, buf, 0, limit)
    ensures pos <= |buf| && Taken(out, kept, text0, buf, pos, limit)
    ensures var tail := buf[pos..];
            FirstBreak(tail) == |tail| || (FirstBreak(tail) + 1 == |tail| && tail[|tail| - 1] == '\r')
  {
    hide *;
    pos := 0;
    out, kept := out0, kept0;
    while true
      invariant pos <= |buf| && Taken(out, kept, text0, buf, pos, limit)
      decreases |buf| - pos
    {
      var at := FirstBreak(buf[pos..]);
      if at == |buf| - pos { break; }
      if buf[pos + at] == '\r' && pos + at + 1 == |buf| { break; }
      TakeLine(out, kept, text0, buf, pos, limit);
      out := out + [Extend(kept, buf[pos..][..at], limit)];
      kept := Clipped("", false);
      pos := pos + at + BreakLength(buf[pos..], at);
    }
  }

  /** All of the tail but a carriage return at its end. */
  function HoldBack(tail: string): (rest: string)
    ensures |rest| <= |tail| && rest == tail[..|rest|]
  {
    if tail != [] && tail[|tail| - 1] == '\r' then tail[..|tail| - 1] else tail
  }

  lemma TextAndHeld(text0: string, held0: string, data: string, pos: nat)
    requires pos <= |held0 + data|
    requires pos == |held0 + data| ==> EndsClean(text0 + (held0 + data))
    ensures var buf := held0 + data;
            var rest := HoldBack(buf[pos..]);
            var held := buf[pos..][|rest|..];
            && text0 + buf[..pos] + rest + held == text0 + held0 + data
            && (held == "\r" || EndsClean(text0 + buf[..pos] + rest))
  {
    var buf := held0 + data;
    var tail := buf[pos..];
    AllOfIt(text0, held0, data, pos);
    if tail == [] {
      assert text0 + buf[..pos] + tail == text0 + buf;
    } else if tail[|tail| - 1] != '\r' {
      var text := text0 + buf[..pos] + tail;
      assert text[|text| - 1] == tail[|tail| - 1];
    } else {
      assert tail[|tail| - 1..] == "\r";
    }
  }

  lemma AllOfIt(text0: string, held0: string, data: string, pos: nat)
    requires pos <= |held0 + data|
    ensures var buf := held0 + data;
            var rest := HoldBack(buf[pos..]);
            text0 + buf[..pos] + rest + buf[pos..][|rest|..] == text0 + held0 + data
  {
    hide HoldBack;
    var buf := held0 + data;
    var rest := HoldBack(buf[pos..]);
    assert buf[..pos] + (rest + buf[pos..][|rest|..]) == buf;
    assert text0 + buf[..pos] + rest + buf[pos..][|rest|..] == text0 + (buf[..pos] + (rest + buf[pos..][|rest|..]));
  }

  /** Up to a final carriage return, the rest of the buffer holds no break. */
  lemma RestHasNoBreak(tail: string)
    requires FirstBreak(tail) == |tail| || (FirstBreak(tail) + 1 == |tail| && tail[|tail| - 1] == '\r')
    ensures FirstBreak(HoldBack(tail)) == |HoldBack(tail)|
    ensures var held := tail[|HoldBack(tail)|..]; held == "" || held == "\r"
  {
  }

  /** End of file: a held carriage return ends a line; an unfinished line is put out unless empty. */
  method Finish(held: string, limit: nat, out0: seq<Clipped>, kept: Clipped, ghost text: string)
    returns (out: seq<Clipped>)
    requires Stands(out0, kept, text, limit) && (held == "" || held == "\r")
    ensures out == ClipAll(SplitLines(text + held), limit)
  {
    out := out0;
    var last := kept;
    if held == "\r" {
      StandsBreak(out, kept, text, held, limit);
      out, last := out + [kept], Clipped("", false);
    } else {
      assert text + held == text;
    }
    ghost var p := Pieces(text + held);
    if last.text != [] || last.cut {
      ClipAllSnoc(p[..|p| - 1], p[|p| - 1], limit);
      assert p == p[..|p| - 1] + [p[|p| - 1]];
      out := out + [last];
    }
  }
}
