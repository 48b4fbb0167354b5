/** What the model is shown: the kept head, the notes merged into it, and a verbatim tail. */
module Layouts {
  import opened Wrappers
  import opened Messages
  import opened TextCuts
  import opened Texts
  import Decimal

  datatype Layout = Layout(head: seq<Message>, notes: seq<string>, tail: seq<Message>)

  const SUMMARY_HEADER := "[Conversation summary so far]"

  function OmittedNote(n: nat): string {
    "[" + Decimal.Numeral(n) + " earlier messages omitted to fit the context window]"
  }

  /** The summary, if there is one, and how many messages behind it are left out. */
  function Notes(summary: string, omitted: nat): seq<string> {
    (if summary == "" then [] else [SUMMARY_HEADER + "\n" + summary])
    + if omitted == 0 then [] else [OmittedNote(omitted)]
  }

  predicate EndsOnUser(head: seq<Message>) {
    head != [] && head[|head| - 1].role.User?
  }

  predicate OpensOnUser(tail: seq<Message>) {
    tail != [] && tail[0].role.User?
  }

  /** The notes become one user turn, which takes in a user turn on either side. */
  function Seam(l: Layout): Message {
    Message(User,
            Join((if EndsOnUser(l.head) then [l.head[|l.head| - 1].content] else [])
                 + l.notes
                 + (if OpensOnUser(l.tail) then [l.tail[0].content] else []), "\n\n"),
            Generated, [], None, None)
  }

  function Before(l: Layout): seq<Message> {
    if EndsOnUser(l.head) then l.head[..|l.head| - 1] else l.head
  }

  function After(l: Layout): seq<Message> {
    if OpensOnUser(l.tail) then l.tail[1..] else l.tail
  }

  function View(l: Layout): seq<Message> {
    if l.notes == [] then l.head + l.tail else Before(l) + [Seam(l)] + After(l)
  }

  // ----- what the view says -----

  /** The note about a summary and about omitted messages, whichever there are. */
  ghost predicate SpellsNotes(summary: string, omitted: nat, text: string) {
    text == (if summary == "" then "" else "[Conversation summary so far]\n" + summary)
            + (if summary != "" && omitted > 0 then "\n\n" else "")
            + (if omitted == 0 then ""
               else "[" + Decimal.Numeral(omitted) + " earlier messages omitted to fit the context window]")
  }

  /**
    The view says everything. With neither a summary nor an omission it is the head
    and the tail. Otherwise one user turn stands between them: it says what the
    head's last user turn says, if the head ends on one, then the summary and how
    many messages are omitted, then what the tail's first user turn says, if it
    opens on one; and the rest of head and tail stand before and after it.
   */
  ghost predicate Says(head: seq<Message>, summary: string, omitted: nat, tail: seq<Message>, view: seq<Message>) {
    if summary == "" && omitted == 0 then view == head + tail
    else
      var h := if head != [] && head[|head| - 1].role == User then |head| - 1 else |head|;
      var t := if tail != [] && tail[0].role == User then 1 else 0;
      && |view| == h + 1 + (|tail| - t) && view[..h] == head[..h] && view[h + 1..] == tail[t..]
      && view[h] == Message(User, view[h].content, Generated, [], None, None)
      && exists notes :: SpellsNotes(summary, omitted, notes)
           && view[h].content == (if h < |head| then head[h].content + "\n\n" else "") + notes
                                 + (if t == 1 then "\n\n" + tail[0].content else "")
  }

  lemma NotesSpell(summary: string, omitted: nat)
    requires summary != "" || omitted > 0
    ensures Notes(summary, omitted) != [] && SpellsNotes(summary, omitted, Join(Notes(summary, omitted), "\n\n"))
  {
    hide Join, Decimal.Numeral;
    var recap, gap := SUMMARY_HEADER + "\n" + summary, OmittedNote(omitted);
    JoinSnoc([], recap, "\n\n");
    JoinSnoc([], gap, "\n\n");
    JoinSnoc([recap], gap, "\n\n");
    assert [] + [recap] == [recap] && [] + [gap] == [gap] && [recap] + [gap] == [recap, gap];
    assert SUMMARY_HEADER + "\n" == "[Conversation summary so far]\n";
    assert recap + "" + "" == recap && "" + "" + gap == gap;
    assert Notes(summary, omitted)
        == if omitted == 0 then [recap] else if summary == "" then [gap] else [recap, gap];
  }

  /** What joining the notes with a text before and a text behind them gives. */
  lemma JoinAround(before: seq<string>, notes: seq<string>, after: seq<string>)
    requires |before| <= 1 && |after| <= 1 && notes != []
    ensures Join(before + notes + after, "\n\n")
         == (if before == [] then "" else before[0] + "\n\n") + Join(notes, "\n\n")
            + (if after == [] then "" else "\n\n" + after[0])
  {
    hide Join;
    var middle := notes + after;
    assert before + notes + after == before + middle;
    if after != [] {
      assert after == [after[0]];
      JoinSnoc(notes, after[0], "\n\n");
    } else {
      assert middle == notes;
    }
    if before != [] {
      assert before == [before[0]];
      JoinCons(before[0], middle, "\n\n");
    } else {
      assert before + middle == middle;
    }
  }

  lemma ViewSays(l: Layout, summary: string, omitted: nat)
    requires l.notes == Notes(summary, omitted)
    ensures Says(l.head, summary, omitted, l.tail, View(l))
  {
    if summary == "" && omitted == 0 {
      assert l.notes == [];
    } else {
      NotesSpell(summary, omitted);
      hide Notes, SpellsNotes, Join;
      SeamAt(l);
      SeamContent(l);
      hide Seam, View;
      assert SpellsNotes(summary, omitted, Join(l.notes, "\n\n"));
    }
  }

  lemma SeamContent(l: Layout)
    requires l.notes != []
    ensures Seam(l) == Message(User, Seam(l).content, Generated, [], None, None)
    ensures Seam(l).content
         == (if EndsOnUser(l.head) then l.head[|l.head| - 1].content + "\n\n" else "") + Join(l.notes, "\n\n")
            + (if OpensOnUser(l.tail) then "\n\n" + l.tail[0].content else "")
  {
    hide Join;
    JoinAround(if EndsOnUser(l.head) then [l.head[|l.head| - 1].content] else [], l.notes,
               if OpensOnUser(l.tail) then [l.tail[0].content] else []);
  }

  lemma SeamAt(l: Layout)
    requires l.notes != []
    ensures var h := |Before(l)|;
            && |View(l)| == h + 1 + |After(l)| && View(l)[h] == Seam(l)
            && View(l)[..h] == l.head[..h] && View(l)[h + 1..] == After(l)
  {
    hide Seam;
  }

  /** With notes between them, a head and a tail that are each free of adjacent user turns give such a view. */
  lemma SeamSeparates(l: Layout)
    requires l.notes != [] && NoAdjacentUsers(l.head) && NoAdjacentUsers(l.tail)
    ensures NoAdjacentUsers(View(l))
  {
    var v, n := View(l), |Before(l)|;
    forall i, j | 0 <= i < j < |v| && j == i + 1 ensures !(v[i].role.User? && v[j].role.User?) {
      if j <= n {
        assert v[i] == l.head[i];
        assert EndsOnUser(l.head) ==> l.head[|l.head| - 1] == l.head[n];
      }
      if i == n {
        assert OpensOnUser(l.tail) ==> v[j] == l.tail[1];
      }
      if i > n {
        assert v[i] == After(l)[i - n - 1] && v[j] == After(l)[j - n - 1];
      }
    }
  }

  /** Cutting texts leaves who says what, which call is answered, and what is called. */
  ghost predicate SameShape(m: Message, m': Message) {
    && OnlyCut(m.content, m'.content)
    && m'.role == m.role && m'.id == m.id && m'.toolUseId == m.toolUseId && m'.name == m.name
    && |m'.calls| == |m.calls|
    && forall k :: 0 <= k < |m.calls| ==> SameCall(m.calls[k], m'.calls[k])
  }

  /** The same id and name, and arguments under the same keys, of which only long texts may differ, in their middle. */
  ghost predicate SameCall(c: Call, c': Call) {
    && c'.id == c.id && c'.name == c.name
    && match c.arguments
       case NotDict(_) => c'.arguments == c.arguments
       case Dict(entries) =>
         && c'.arguments.Dict?
         && |c'.arguments.entries| == |entries|
         && forall k :: 0 <= k < |entries| ==> SameEntry(entries[k], c'.arguments.entries[k])
  }

  ghost predicate SameEntry(e: (string, Value), e': (string, Value)) {
    && e'.0 == e.0
    && match e.1
       case NotText(_) => e'.1 == e.1
       case Text(text) => e'.1.Text? && OnlyCut(text, e'.1.text)
  }

  ghost predicate SameShapes(s: seq<Message>, s': seq<Message>) {
    |s| == |s'| && forall i :: 0 <= i < |s| ==> SameShape(s[i], s'[i])
  }

  lemma SameShapeReflexive(m: Message)
    ensures SameShape(m, m)
  {
    hide OnlyCut;
    OnlyCutReflexive(m.content);
    forall k | 0 <= k < |m.calls| ensures SameCall(m.calls[k], m.calls[k]) {
      SameCallReflexive(m.calls[k]);
    }
  }

  lemma SameCallReflexive(c: Call)
    ensures SameCall(c, c)
  {
    hide OnlyCut;
    if c.arguments.Dict? {
      forall k | 0 <= k < |c.arguments.entries| ensures SameEntry(c.arguments.entries[k], c.arguments.entries[k]) {
        if c.arguments.entries[k].1.Text? { OnlyCutReflexive(c.arguments.entries[k].1.text); }
      }
    }
  }

  lemma SameShapesReflexive(s: seq<Message>)
    ensures SameShapes(s, s)
  {
    forall i | 0 <= i < |s| ensures SameShape(s[i], s[i]) {
      SameShapeReflexive(s[i]);
    }
  }

  lemma SameShapesTransitive(a: seq<Message>, b: seq<Message>, c: seq<Message>)
    requires SameShapes(a, b) && SameShapes(b, c)
    ensures SameShapes(a, c)
  {
    forall i | 0 <= i < |a| ensures SameShape(a[i], c[i]) {
      SameShapeTransitive(a[i], b[i], c[i]);
    }
  }

  lemma SameShapeTransitive(a: Message, b: Message, c: Message)
    requires SameShape(a, b) && SameShape(b, c)
    ensures SameShape(a, c)
  {
    hide OnlyCut, SameCall;
    OnlyCutTransitive(a.content, b.content, c.content);
    forall k | 0 <= k < |a.calls| ensures SameCall(a.calls[k], c.calls[k]) {
      SameCallTransitive(a.calls[k], b.calls[k], c.calls[k]);
    }
  }

  lemma SameCallTransitive(x: Call, y: Call, z: Call)
    requires SameCall(x, y) && SameCall(y, z)
    ensures SameCall(x, z)
  {
    hide SameEntry;
    if x.arguments.Dict? {
      forall e | 0 <= e < |x.arguments.entries| ensures SameEntry(x.arguments.entries[e], z.arguments.entries[e]) {
        SameEntryTransitive(x.arguments.entries[e], y.arguments.entries[e], z.arguments.entries[e]);
      }
    }
  }

  lemma SameEntryTransitive(x: (string, Value), y: (string, Value), z: (string, Value))
    requires SameEntry(x, y) && SameEntry(y, z)
    ensures SameEntry(x, z)
  {
    hide OnlyCut;
    if x.1.Text? { OnlyCutTransitive(x.1.text, y.1.text, z.1.text); }
  }

  lemma SameRolesNoAdjacentUsers(s: seq<Message>, s': seq<Message>)
    requires NoAdjacentUsers(s) && |s| == |s'| && forall i :: 0 <= i < |s| ==> s'[i].role == s[i].role
    ensures NoAdjacentUsers(s')
  {
    forall i, j | 0 <= i < j < |s'| && j == i + 1 ensures !(s'[i].role.User? && s'[j].role.User?) {
      assert s'[i].role == s[i].role && s'[j].role == s[j].role;
    }
  }

  // ----- a view and the conversation it shows -----

  /**
    From position n on, the view shows the conversation from s on, message by
    message; before n it shows no tool result; and no result shown was cut off
    from the assistant message whose call it answers.
   */
  ghost predicate ShowsFrom(h: seq<Message>, view: seq<Message>, s: nat, n: nat) {
    && s <= |h| && n <= |view| && |view| - n == |h| - s
    && (forall k :: 0 <= k < n ==> !view[k].role.Tool?)
    && (forall k :: n <= k < |view| ==> SameShape(h[s + (k - n)], view[k]))
    && Whole(h, s)
  }

  ghost predicate KeepsPairs(h: seq<Message>, view: seq<Message>) {
    exists s: nat, n: nat :: ShowsFrom(h, view, s, n)
  }

  /** So a result in the view whose call an assistant made has that assistant message before it in the view. */
  lemma ResultsFollowCalls(h: seq<Message>, view: seq<Message>, s: nat, n: nat, k: nat)
    requires ShowsFrom(h, view, s, n) && k < |view| && view[k].role.Tool?
    ensures n <= k && SameShape(h[s + (k - n)], view[k])
    ensures var i := s + (k - n);
            var p := Parent(h, i);
            p.Some? && p.value < i && h[p.value].role.Assistant? ==>
              s <= p.value && n + (p.value - s) < k && SameShape(h[p.value], view[n + (p.value - s)])
  {
    var i := s + (k - n);
    assert CallKept(h, s, i);
    if Parent(h, i).Some? { ParentBefore(h, i); }
  }
}
