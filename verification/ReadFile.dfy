/**
  Reading a range of a file's lines: one pass keeps the requested window within a
  line and a character budget, and says where to go on.
 */
module ReadFile {
  import opened TextLines
  import Decimal

  const MAX_LINE_CHARS: nat := 2000
  const MAX_READ_CHARS: nat := 50_000

  /** How far the file is known to go on behind the window. */
  datatype More = NoMore | MoreOf(total: nat) | MoreUnknown

  datatype Output =
    | EmptyFile
    | PastEnd(offset: nat, total: nat)
    | Window(shown: seq<string>, first: nat, last: nat, more: More)

  function Pad(s: string): string {
    seq(if |s| < 6 then 6 - |s| else 0, _ => ' ') + s
  }

  /** One line as it is shown: its number if wanted, and a mark if it was cut. */
  function Rendered(lineno: nat, line: Clipped, numbered: bool): string {
    var text := if line.cut then line.text + "... (line truncated)" else line.text;
    if numbered then Pad(Decimal.Numeral(lineno)) + "\t" + text else text
  }

  /** The lines as they are shown, line i (counted from 1) at index i - 1. */
  function RenderedAll(lines: seq<Clipped>, numbered: bool): seq<string> {
    seq(|lines|, k requires 0 <= k < |lines| => Rendered(k + 1, lines[k], numbered))
  }

  /** Characters taken by the lines, each with its line end. */
  function Size(shown: seq<string>): nat {
    if shown == [] then 0 else Size(shown[..|shown| - 1]) + |shown[|shown| - 1]| + 1
  }

  lemma SizeSnoc(shown: seq<string>, line: string)
    ensures Size(shown + [line]) == Size(shown) + |line| + 1
  {
    assert (shown + [line])[..|shown|] == shown;
  }

  /** A window that ends here is within both budgets; a first line always fits. */
  predicate Fits(all: seq<string>, offset: nat, last: nat, limit: nat)
    requires 1 <= offset <= last <= |all|
  {
    last < offset + limit && (last == offset || Size(all[offset - 1..last]) <= MAX_READ_CHARS)
  }

  /** The farthest end within the budgets. */
  ghost predicate IsWindowEnd(all: seq<string>, offset: nat, last: nat, limit: nat) {
    && 1 <= offset <= last <= |all|
    && Fits(all, offset, last, limit)
    && forall i :: last < i <= |all| ==> !Fits(all, offset, i, limit)
  }

  lemma {:induction false} SizeMonotonic(all: seq<string>, first: nat, mid: nat, last: nat)
    requires first <= mid <= last <= |all|
    ensures Size(all[first..mid]) <= Size(all[first..last])
    decreases last
  {
    if mid < last {
      SizeMonotonic(all, first, mid, last - 1);
      assert all[first..last][..last - 1 - first] == all[first..last - 1];
    }
  }

  /** Once a line does not fit, no later one does. */
  lemma NotPast(all: seq<string>, offset: nat, last: nat, i: nat, limit: nat)
    requires 1 <= offset <= last < i <= |all| && !Fits(all, offset, last + 1, limit)
    ensures !Fits(all, offset, i, limit)
  {
    SizeMonotonic(all, offset - 1, last + 1, i);
  }

  /**
    What a read answers. In a big file the count is not finished, so whether
    there is more is known but not how much.
   */
  ghost predicate Answers(lines: seq<Clipped>, offset: nat, limit: nat, numbered: bool, countAll: bool, r: Output) {
    var all := RenderedAll(lines, numbered);
    if lines == [] then r == EmptyFile
    else if offset > |lines| then r == PastEnd(offset, |lines|)
    else
      && r.Window? && r.first == offset
      && IsWindowEnd(all, offset, r.last, limit)
      && r.shown == all[offset - 1..r.last]
      && (r.more.NoMore? <==> r.last == |lines|)
      && (r.more.MoreOf? ==> r.more.total == |lines|)
      && (countAll ==> !r.more.MoreUnknown?)
  }

  /** What the pass has kept after reading total lines of the file. */
  ghost predicate Kept(all: seq<string>, offset: nat, limit: nat, total: nat, shown: seq<string>, last: nat,
                       clipped: bool) {
    && total <= |all| && 1 <= offset
    && if total < offset then last == offset - 1 && shown == [] && !clipped
       else
         && offset <= last <= total
         && shown == all[offset - 1..last] && Fits(all, offset, last, limit)
         && (clipped ==> last < total && !Fits(all, offset, last + 1, limit))
         && (!clipped ==> last == total || last + 1 == offset + limit)
  }

  lemma KeepLine(all: seq<string>, offset: nat, limit: nat, total: nat, shown: seq<string>, last: nat)
    requires Kept(all, offset, limit, total, shown, last, false)
    requires offset <= total + 1 < offset + limit && total < |all|
    requires shown == [] || Size(shown) + |all[total]| + 1 <= MAX_READ_CHARS
    ensures Kept(all, offset, limit, total + 1, shown + [all[total]], total + 1, false)
  {
    SizeSnoc(shown, all[total]);
    if total + 1 > offset {
      assert shown + [all[total]] == all[offset - 1..total + 1];
    }
  }

  lemma DropLine(all: seq<string>, offset: nat, limit: nat, total: nat, shown: seq<string>, last: nat)
    requires Kept(all, offset, limit, total, shown, last, false)
    requires offset <= total + 1 < offset + limit && total < |all|
    requires shown != [] && Size(shown) + |all[total]| + 1 > MAX_READ_CHARS
    ensures Kept(all, offset, limit, total + 1, shown, last, true)
  {
    SizeSnoc(shown, all[total]);
    assert shown + [all[total]] == all[offset - 1..total + 1];
  }

  lemma KeptEnds(all: seq<string>, offset: nat, limit: nat, total: nat, shown: seq<string>, last: nat, clipped: bool)
    requires Kept(all, offset, limit, total, shown, last, clipped) && offset <= total
    requires total == |all| || clipped || total + 1 >= offset + limit
    ensures IsWindowEnd(all, offset, last, limit) && shown == all[offset - 1..last]
  {
    forall i | last < i <= |all| ensures !Fits(all, offset, i, limit) {
      NotPast(all, offset, last, i, limit);
    }
  }

  /** Streams the file's lines, keeping only the requested window. */
  method Read(lines: seq<Clipped>, offset: nat, limit: nat, numbered: bool, countAll: bool) returns (r: Output)
    requires offset >= 1 && limit >= 1
    ensures Answers(lines, offset, limit, numbered, countAll, r)
  {
    ghost var all := RenderedAll(lines, numbered);
    var shown: seq<string>, size, total, last := [], 0, 0, offset - 1;
    var clipped, stopped := false, false;
    while total < |lines|
      invariant total <= |lines| && !stopped && size == Size(shown)
      invariant Kept(all, offset, limit, total, shown, last, clipped)
      decreases |lines| - total
    {
      hide Kept, Size, Rendered;
      total := total + 1;
      if total < offset {
        StillBefore(all, offset, limit, total - 1, shown, last, clipped);
        continue;
      }
      if clipped || total >= offset + limit {
        PassOver(all, offset, limit, total - 1, shown, last, clipped);
        if !countAll {
          stopped := true;
          break;
        }
        continue;
      }
      var line := Rendered(total, lines[total - 1], numbered);
      assert line == all[total - 1];
      if shown != [] && size + |line| + 1 > MAX_READ_CHARS {
        DropLine(all, offset, limit, total - 1, shown, last);
        clipped := true;
        continue;
      }
      KeepLine(all, offset, limit, total - 1, shown, last);
      SizeSnoc(shown, line);
      shown := shown + [line];
      size := size + |line| + 1;
      last := total;
    }
    if total == 0 { return EmptyFile; }
    if offset > total { return PastEnd(offset, total); }
    KeptEnds(all, offset, limit, total, shown, last, clipped);
    return Window(shown, offset, last, if last < total then if stopped then MoreUnknown else MoreOf(total) else NoMore);
  }

  lemma StillBefore(all: seq<string>, offset: nat, limit: nat, total: nat, shown: seq<string>, last: nat, clipped: bool)
    requires Kept(all, offset, limit, total, shown, last, clipped) && total + 1 < offset && total < |all|
    ensures Kept(all, offset, limit, total + 1, shown, last, clipped)
  {
  }

  lemma PassOver(all: seq<string>, offset: nat, limit: nat, total: nat, shown: seq<string>, last: nat, clipped: bool)
    requires Kept(all, offset, limit, total, shown, last, clipped) && total < |all| && 1 <= limit
    requires offset <= total + 1 && (clipped || total + 1 >= offset + limit)
    ensures Kept(all, offset, limit, total + 1, shown, last, clipped) && last < total + 1 && offset <= last
  {
  }

  /** Reading the file itself, however its text comes in. */
  method ReadChunks(chunks: seq<string>, offset: nat, limit: nat, numbered: bool, countAll: bool) returns (r: Output)
    requires (forall c :: c in chunks ==> c != []) && offset >= 1 && limit >= 1
    ensures Answers(ClipAll(SplitLines(Concat(chunks)), MAX_LINE_CHARS), offset, limit, numbered, countAll, r)
  {
    var lines := IterLines(chunks, MAX_LINE_CHARS);
    r := Read(lines, offset, limit, numbered, countAll);
  }

  // ----- what is shown -----

  /** The line's text, marked if it was cut, and behind its number, to the right in six columns, if that is wanted. */
  ghost predicate ShowsLine(shown: string, lineno: nat, line: Clipped, numbered: bool) {
    var text := if line.cut then line.text + "... (line truncated)" else line.text;
    if !numbered then shown == text
    else exists pad: string ::
      && shown == pad + Decimal.Numeral(lineno) + "\t" + text && (forall c :: c in pad ==> c == ' ')
      && if |Decimal.Numeral(lineno)| >= 6 then pad == "" else |pad| + |Decimal.Numeral(lineno)| == 6
  }

  /** The lines as they are printed, each on its own line. */
  function Printed(shown: seq<string>): string {
    if shown == [] then "" else shown[0] + "\n" + Printed(shown[1..])
  }

  lemma {:induction false} PrintedSize(shown: seq<string>)
    ensures |Printed(shown)| == Size(shown)
  {
    if shown != [] {
      PrintedSize(shown[1..]);
      SizeCons(shown[0], shown[1..]);
      assert [shown[0]] + shown[1..] == shown;
    }
  }

  lemma {:induction false} SizeCons(line: string, rest: seq<string>)
    ensures Size([line] + rest) == |line| + 1 + Size(rest)
  {
    var n := |rest|;
    if n == 0 {
      assert ([line] + rest)[..0] == [];
    } else {
      SizeCons(line, rest[..n - 1]);
      assert ([line] + rest)[..n] == [line] + rest[..n - 1];
    }
  }

  lemma ShowsRendered(lineno: nat, line: Clipped, numbered: bool)
    ensures ShowsLine(Rendered(lineno, line, numbered), lineno, line, numbered)
  {
    if numbered {
      var n := |Decimal.Numeral(lineno)|;
      var pad := seq(if n < 6 then 6 - n else 0, _ => ' ');
      assert Pad(Decimal.Numeral(lineno)) == pad + Decimal.Numeral(lineno);
    }
  }

  /**
    A window shows its lines one by one, at most limit of them and at most 50 000
    characters unless it is a single line; one line more would be too much.
   */
  lemma WindowShows(lines: seq<Clipped>, offset: nat, limit: nat, numbered: bool, countAll: bool, r: Output)
    requires Answers(lines, offset, limit, numbered, countAll, r) && r.Window?
    ensures 1 <= offset <= r.last <= |lines| && |r.shown| == r.last + 1 - offset <= limit
    ensures forall k :: 0 <= k < |r.shown| ==> ShowsLine(r.shown[k], offset + k, lines[offset - 1 + k], numbered)
    ensures |r.shown| == 1 || |Printed(r.shown)| <= 50_000
    ensures r.last < |lines| ==>
              |r.shown| == limit
              || |Printed(r.shown + [Rendered(r.last + 1, lines[r.last], numbered)])| > 50_000
  {
    hide *;
    var all := RenderedAll(lines, numbered);
    IsWindow(lines, offset, limit, numbered, countAll, r);
    WithinBudget(all, offset, r.last, limit);
    forall k | 0 <= k < |r.shown|
      ensures ShowsLine(r.shown[k], offset + k, lines[offset - 1 + k], numbered)
    {
      var i := offset - 1 + k;
      ShowsRendered(i + 1, lines[i], numbered);
      RenderedAt(lines, numbered, i);
    }
    if r.last < |lines| { RenderedAt(lines, numbered, r.last); }
  }

  lemma IsWindow(lines: seq<Clipped>, offset: nat, limit: nat, numbered: bool, countAll: bool, r: Output)
    requires Answers(lines, offset, limit, numbered, countAll, r) && r.Window?
    ensures var all := RenderedAll(lines, numbered);
            && 1 <= offset <= r.last <= |all| == |lines|
            && IsWindowEnd(all, offset, r.last, limit) && r.shown == all[offset - 1..r.last]
  {
  }

  lemma RenderedAt(lines: seq<Clipped>, numbered: bool, i: nat)
    requires i < |lines|
    ensures |RenderedAll(lines, numbered)| == |lines|
    ensures RenderedAll(lines, numbered)[i] == Rendered(i + 1, lines[i], numbered)
  {
  }

  lemma WithinBudget(all: seq<string>, offset: nat, last: nat, limit: nat)
    requires IsWindowEnd(all, offset, last, limit)
    ensures 1 <= offset <= last <= |all|
    ensures var shown := all[offset - 1..last];
            && |shown| <= limit && (|shown| == 1 || |Printed(shown)| <= 50_000)
            && (last < |all| ==> |shown| == limit || |Printed(shown + [all[last]])| > 50_000)
  {
    var shown := all[offset - 1..last];
    PrintedSize(shown);
    if last < |all| {
      PrintedSize(shown + [all[last]]);
      assert all[offset - 1..last + 1] == shown + [all[last]];
      assert !Fits(all, offset, last + 1, limit);
    }
    hide Printed, Size;
  }

  // ----- following the suggested offsets -----

  /** A caller reads from line 1 and goes on from last + 1, choosing a limit each time, while there is more. */
  ghost predicate Session(lines: seq<Clipped>, numbered: bool, countAll: bool, offset: nat, limits: seq<nat>,
                          outs: seq<Output>)
    decreases |outs|
  {
    && |limits| == |outs| > 0 && limits[0] >= 1
    && Answers(lines, offset, limits[0], numbered, countAll, outs[0])
    && (|outs| > 1 ==>
          && outs[0].Window? && !outs[0].more.NoMore?
          && Session(lines, numbered, countAll, outs[0].last + 1, limits[1..], outs[1..]))
  }

  function ShownLines(outs: seq<Output>): seq<string>
    requires forall o :: o in outs ==> o.Window?
  {
    if outs == [] then [] else outs[0].shown + ShownLines(outs[1..])
  }

  /**
    In a file that stays the same and has a line at offset, no read fails; the
    windows so far are the lines from offset on, each once and in order; each
    shows at least one line, so the caller is done after at most as many reads as
    there are lines; and "nothing more" is answered exactly at the end.
   */
  lemma {:induction false} PagesCoverTheFile(lines: seq<Clipped>, numbered: bool, countAll: bool, offset: nat,
                                             limits: seq<nat>, outs: seq<Output>)
    requires 1 <= offset <= |lines| && Session(lines, numbered, countAll, offset, limits, outs)
    ensures forall o :: o in outs ==> o.Window?
    ensures offset <= outs[|outs| - 1].last <= |lines|
    ensures ShownLines(outs) == RenderedAll(lines, numbered)[offset - 1..outs[|outs| - 1].last]
    ensures outs[|outs| - 1].more.NoMore? <==> outs[|outs| - 1].last == |lines|
    ensures |outs| <= outs[|outs| - 1].last + 1 - offset
    decreases |outs|
  {
    hide IsWindowEnd, RenderedAll;
    var all := RenderedAll(lines, numbered);
    WindowInFile(lines, offset, limits[0], numbered, countAll, outs[0]);
    if |outs| > 1 {
      PagesCoverTheFile(lines, numbered, countAll, outs[0].last + 1, limits[1..], outs[1..]);
      AllWindows(outs);
      var last := outs[|outs| - 1].last;
      assert all[offset - 1..outs[0].last] + all[outs[0].last..last] == all[offset - 1..last];
    } else {
      assert outs == [outs[0]];
      assert ShownLines(outs) == outs[0].shown + ShownLines([]);
    }
  }

  lemma AllWindows(outs: seq<Output>)
    requires |outs| > 0 && outs[0].Window? && forall o :: o in outs[1..] ==> o.Window?
    ensures forall o :: o in outs ==> o.Window?
  {
    assert outs == [outs[0]] + outs[1..];
  }

  lemma WindowInFile(lines: seq<Clipped>, offset: nat, limit: nat, numbered: bool, countAll: bool, r: Output)
    requires 1 <= offset <= |lines| && Answers(lines, offset, limit, numbered, countAll, r)
    ensures r.Window? && offset <= r.last <= |lines| == |RenderedAll(lines, numbered)|
  {
  }
}
