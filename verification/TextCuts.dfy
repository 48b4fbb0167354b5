/** Shortening a text to its start and end, with a note between them saying how much was cut. */
module TextCuts {
  import Decimal

  const MIN_TRUNCATED_CHARS: nat := 200

  function Note(n: nat): string {
    "\n[... " + Decimal.Numeral(n) + " characters truncated to fit the context window ...]\n"
  }

  function Max(a: int, b: int): int {
    if a < b then b else a
  }

  /** Room for the kept characters once the note is counted. */
  function Keep(text: string, limit: nat): (k: nat)
    ensures k <= limit
  {
    Max(limit - |Note(|text|)|, 0)
  }

  /** Of the kept characters, two in three are from the start. */
  function Head(keep: nat): (n: nat)
    ensures n <= keep
  {
    keep * 2 / 3
  }

  lemma HeadGrows(k: nat, keep: nat)
    requires k <= keep
    ensures Head(k) <= Head(keep) && k - Head(k) <= keep - Head(keep)
  {
  }

  /**
    However often a text is cut, a start and an end of it are spared, in a share of
    two to one: as much as the lowest limit has room for.
   */
  ghost predicate KeepsEnds(text: string, text': string) {
    var spared := Keep(text, MIN_TRUNCATED_CHARS);
    var head, tail := Head(spared), spared - Head(spared);
    && spared <= |text| && spared <= |text'|
    && text'[..head] == text[..head] && text'[|text'| - tail..] == text[|text| - tail..]
  }

  /** No text grows, a short text is not touched, and a long one keeps its ends. */
  ghost predicate OnlyCut(text: string, text': string) {
    |text'| <= |text| && if |text| <= MIN_TRUNCATED_CHARS then text' == text else KeepsEnds(text, text')
  }

  function TruncateText(text: string, limit: nat): string {
    if |text| <= limit then text
    else
      var keep := Keep(text, limit);
      var head := Head(keep);
      text[..head] + Note(|text| - keep) + text[|text| - (keep - head)..]
  }

  /** What is left is a start and an end of the text, and the note counts exactly what lay between. */
  ghost predicate MarksTheGap(text: string, r: string, start: nat, end: nat) {
    && start + end <= |text|
    && var gone := Decimal.Numeral(|text| - start - end);
       r == text[..start] + "\n[... " + gone + " characters truncated to fit the context window ...]\n"
            + text[|text| - end..]
  }

  /** The kept characters leave room for a note that counts the whole text; two in three are from the start. */
  ghost predicate SharesRoom(text: string, limit: nat, start: nat, end: nat) {
    var note := 59 + |Decimal.Numeral(|text|)|;
    && start + end == (if limit > note then limit - note else 0)
    && 3 * start <= 2 * (start + end) < 3 * start + 3
  }

  /** What cutting a text to a limit makes of it. */
  ghost predicate IsCutTo(text: string, limit: nat, r: string) {
    if |text| <= limit then r == text
    else exists start: nat, end: nat {:trigger MarksTheGap(text, r, start, end)} ::
        MarksTheGap(text, r, start, end) && SharesRoom(text, limit, start, end)
  }

  lemma NoteIs(n: nat)
    ensures Note(n) == "\n[... " + Decimal.Numeral(n) + " characters truncated to fit the context window ...]\n"
    ensures |Note(n)| == 59 + |Decimal.Numeral(n)|
  {
  }

  /** The cut comes out as described, for every text and limit. */
  lemma TruncatedIsCut(text: string, limit: nat)
    ensures IsCutTo(text, limit, TruncateText(text, limit))
  {
    if |text| > limit {
      var keep := Keep(text, limit);
      var head := Head(keep);
      NoteIs(|text|);
      assert SharesRoom(text, limit, head, keep - head);
      PartsMarkTheGap(text, limit, head, keep - head);
    }
  }

  /** The description leaves no choice. */
  lemma CutIsTruncated(text: string, limit: nat, r: string)
    requires IsCutTo(text, limit, r)
    ensures r == TruncateText(text, limit)
  {
    if |text| > limit {
      var start: nat, end: nat :| MarksTheGap(text, r, start, end) && SharesRoom(text, limit, start, end);
      ShareIs(text, limit, start, end);
      hide *;
      PartsMarkTheGap(text, limit, start, end);
      SameMarks(text, r, TruncateText(text, limit), start, end);
    }
  }

  lemma ShareIs(text: string, limit: nat, start: nat, end: nat)
    requires |text| > limit && SharesRoom(text, limit, start, end)
    ensures start == Head(Keep(text, limit)) && end == Keep(text, limit) - start
  {
    NoteIs(|text|);
    hide Note, Decimal.Numeral;
  }

  lemma SameMarks(text: string, a: string, b: string, start: nat, end: nat)
    requires MarksTheGap(text, a, start, end) && MarksTheGap(text, b, start, end)
    ensures a == b
  {
    hide Decimal.Numeral;
  }

  lemma PartsMarkTheGap(text: string, limit: nat, start: nat, end: nat)
    requires |text| > limit && start == Head(Keep(text, limit)) && end == Keep(text, limit) - start
    ensures MarksTheGap(text, TruncateText(text, limit), start, end)
  {
    TruncatedParts(text, limit);
    hide *;
    SpellsTheNote(text[..start], |text| - start - end, text[|text| - end..], text, start, end);
  }

  lemma SpellsTheNote(before: string, n: nat, after: string, text: string, start: nat, end: nat)
    requires start + end <= |text| && before == text[..start] && after == text[|text| - end..]
    requires n == |text| - start - end
    ensures MarksTheGap(text, before + Note(n) + after, start, end)
  {
    NoteIs(n);
    hide Note, Decimal.Numeral;
    Regrouped(before, "\n[... ", Decimal.Numeral(n), " characters truncated to fit the context window ...]\n", after);
  }

  lemma Regrouped(a: string, b: string, c: string, d: string, e: string)
    ensures a + (b + c + d) + e == a + b + c + d + e
  {
  }

  lemma TruncatedMarksTheGap(text: string, limit: nat)
    requires |text| > limit
    ensures exists start, end {:trigger MarksTheGap(text, TruncateText(text, limit), start, end)} ::
              MarksTheGap(text, TruncateText(text, limit), start, end) && 2 * end <= start + 2 && start <= 2 * end
  {
    var keep := Keep(text, limit);
    var head := Head(keep);
    PartsMarkTheGap(text, limit, head, keep - head);
  }

  /** Cut to a limit with room for the note, a text comes out no longer than that. */
  lemma TruncatedLength(text: string, limit: nat)
    ensures |text| <= limit ==> TruncateText(text, limit) == text
    ensures |text| > limit ==> |TruncateText(text, limit)| <= Max(limit, |Note(|text|)|)
  {
    if |text| > limit {
      var keep := Keep(text, limit);
      NoteGrows(|text| - keep, |text|);
      hide Note, Decimal.Numeral;
      var head, tail := text[..Head(keep)], text[|text| - (keep - Head(keep))..];
      assert |head + Note(|text| - keep) + tail| == keep + |Note(|text| - keep)|;
    }
  }

  lemma KeepGrows(text: string, limit: nat, text': string, limit': nat)
    requires |text| >= |text'| && limit <= limit'
    ensures Keep(text, limit) <= Keep(text', limit')
  {
    NoteGrows(|text'|, |text|);
    hide Note;
  }

  lemma TruncatedKeepsEnds(text: string, limit: nat)
    requires |text| > MIN_TRUNCATED_CHARS && limit >= MIN_TRUNCATED_CHARS
    ensures OnlyCut(text, TruncateText(text, limit))
  {
    hide *;
    TruncatedLength(text, limit);
    if |text| <= limit {
      OnlyCutReflexive(text);
    } else {
      var spared, keep := Keep(text, MIN_TRUNCATED_CHARS), Keep(text, limit);
      KeepGrows(text, MIN_TRUNCATED_CHARS, text, limit);
      HeadGrows(spared, keep);
      LongKeepsEnds(text, limit, Head(spared), spared - Head(spared));
      NeverLonger(text, limit);
      KeepsBoth(text, TruncateText(text, limit), spared);
    }
  }

  lemma LongKeepsEnds(text: string, limit: nat, head: nat, tail: nat)
    requires |text| > limit
    requires var keep := Keep(text, limit); head <= Head(keep) && tail <= keep - Head(keep)
    ensures var r := TruncateText(text, limit);
            head + tail <= |r| && r[..head] == text[..head] && r[|r| - tail..] == text[|text| - tail..]
  {
    hide *;
    var keep, r := Keep(text, limit), TruncateText(text, limit);
    TruncatedParts(text, limit);
    EndsOfParts(text, Head(keep), Note(|text| - keep), keep - Head(keep), head, tail, r);
  }

  lemma TruncatedParts(text: string, limit: nat)
    requires |text| > limit
    ensures var keep := Keep(text, limit);
            TruncateText(text, limit) == text[..Head(keep)] + Note(|text| - keep) + text[|text| - (keep - Head(keep))..]
  {
  }

  lemma KeepsBoth(text: string, r: string, spared: nat)
    requires MIN_TRUNCATED_CHARS < |text| && |r| <= |text| && spared == Keep(text, MIN_TRUNCATED_CHARS) <= |r|
    requires r[..Head(spared)] == text[..Head(spared)]
    requires var tail := spared - Head(spared); r[|r| - tail..] == text[|text| - tail..]
    ensures OnlyCut(text, r)
  {
    hide Keep, Head;
  }

  lemma EndsOfParts(text: string, start: nat, note: string, end: nat, head: nat, tail: nat, r: string)
    requires start + end <= |text| && head <= start && tail <= end
    requires r == text[..start] + note + text[|text| - end..]
    ensures head + tail <= |r|
    ensures r[..head] == text[..head] && r[|r| - tail..] == text[|text| - tail..]
  {
    assert r[|r| - tail..] == text[|text| - end..][end - tail..] == text[|text| - tail..];
  }

  lemma OnlyCutReflexive(text: string)
    ensures OnlyCut(text, text)
  {
  }

  lemma OnlyCutTransitive(a: string, b: string, c: string)
    requires OnlyCut(a, b) && OnlyCut(b, c)
    ensures OnlyCut(a, c)
  {
    if |b| > MIN_TRUNCATED_CHARS {
      KeepGrows(a, MIN_TRUNCATED_CHARS, b, MIN_TRUNCATED_CHARS);
      hide Keep, Head;
      var spared, more := Keep(a, MIN_TRUNCATED_CHARS), Keep(b, MIN_TRUNCATED_CHARS);
      HeadGrows(spared, more);
      SameEnds(b, c, Head(more), more - Head(more), Head(spared), spared - Head(spared));
    }
  }

  lemma SameEnds(b: string, c: string, start: nat, end: nat, head: nat, tail: nat)
    requires start <= |b| && start <= |c| && end <= |b| && end <= |c| && head <= start && tail <= end
    requires c[..start] == b[..start] && c[|c| - end..] == b[|b| - end..]
    ensures c[..head] == b[..head] && c[|c| - tail..] == b[|b| - tail..]
  {
    assert c[..head] == c[..start][..head] && b[..head] == b[..start][..head];
    assert c[|c| - tail..] == c[|c| - end..][end - tail..];
    assert b[|b| - tail..] == b[|b| - end..][end - tail..];
  }

  /** Of a text under a million million characters, the first 86 and the last 43 at least. */
  lemma EndsThatStay(text: string, text': string)
    requires OnlyCut(text, text') && MIN_TRUNCATED_CHARS < |text| < 1_000_000_000_000
    ensures |text'| >= 129
    ensures text'[..86] == text[..86] && text'[|text'| - 43..] == text[|text| - 43..]
  {
    Decimal.NumeralFits(|text|, 12);
    var spared := Keep(text, MIN_TRUNCATED_CHARS);
    assert spared >= 129;
    HeadGrows(129, spared);
    assert Head(129) == 86;
    hide Keep, Head;
    SameEnds(text, text', Head(spared), spared - Head(spared), 86, 43);
  }

  lemma NoteGrows(m: nat, n: nat)
    requires m <= n
    ensures |Note(m)| <= |Note(n)|
  {
    Decimal.NumeralGrows(m, n);
  }

  lemma {:induction false} NumeralIsShort(n: nat)
    requires n >= 1
    ensures |Decimal.Numeral(n)| <= n
  {
    if n >= 10 {
      NumeralIsShort(n / 10);
    }
  }

  /** A text long enough to be cut never comes out longer. */
  lemma NeverLonger(text: string, limit: nat)
    requires |text| > MIN_TRUNCATED_CHARS
    ensures |TruncateText(text, limit)| <= |text|
  {
    TruncatedLength(text, limit);
    NumeralIsShort(|text| / 10);
    assert |Note(|text|)| <= |text|;
  }
}
