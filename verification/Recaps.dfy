/** Folding a slice of the conversation into the running recap, one bounded request at a time. */
module Recaps {
  import opened Wrappers
  import opened Texts
  import opened Messages
  import opened TextCuts

  const RENDER_CHARS: nat := 4000
  const DEFAULT_CHUNK_CHARS: nat := 128_000
  const SUMMARY_TRUNCATED := "[recap truncated to its length limit]"

  /**
    The summarizing model: its reply to a prior recap and a transcript, without
    surrounding white space; None when the call failed. How tool arguments print
    and how many tokens a recap takes are up to the outside too.
   */
  datatype Summarizer = Summarizer(ask: (string, string) -> Option<string>, show: Arguments -> string,
                                   tokens: string -> nat)

  function RoleName(r: Role): string {
    match r
    case System => "system"
    case User => "user"
    case Assistant => "assistant"
    case Tool => "tool"
    case Other(tag) => tag
  }

  function Parts(m: Message, s: Summarizer): seq<string> {
    (if m.content == "" then [] else [m.content])
    + seq(|m.calls|, k requires 0 <= k < |m.calls| =>
        "[tool_call " + m.calls[k].name + " args=" + s.show(m.calls[k].arguments) + "]")
  }

  /** A message as a transcript line; nothing for an empty one. */
  function Render(m: Message, s: Summarizer): Option<string> {
    if Parts(m, s) == [] then None
    else Some(TruncateText(RoleName(m.role) + ": " + Join(Parts(m, s), " "), RENDER_CHARS))
  }

  function Lines(messages: seq<Message>, s: Summarizer): seq<string> {
    if messages == [] then []
    else Lines(messages[..|messages| - 1], s)
         + match Render(messages[|messages| - 1], s) { case None => [] case Some(line) => [line] }
  }

  ghost predicate IsRoleName(r: Role, name: string) {
    && (r == System ==> name == "system") && (r == User ==> name == "user")
    && (r == Assistant ==> name == "assistant") && (r == Tool ==> name == "tool")
    && (r.Other? ==> name == r.tag)
  }

  /** What a message has to tell: its content, if there is any, and each of its calls. */
  ghost predicate Tells(m: Message, s: Summarizer, parts: seq<string>) {
    var c := if m.content == "" then 0 else 1;
    && |parts| == c + |m.calls| && (c == 1 ==> parts[0] == m.content)
    && forall k :: 0 <= k < |m.calls| ==>
         parts[c + k] == "[tool_call " + m.calls[k].name + " args=" + s.show(m.calls[k].arguments) + "]"
  }

  /** A line names the role and tells what the message does, with the middle of a very long one left out. */
  ghost predicate IsLine(m: Message, s: Summarizer, line: string) {
    exists name, parts :: IsRoleName(m.role, name) && Tells(m, s, parts)
      && IsCutTo(name + ": " + Join(parts, " "), 4000, line)
  }

  /** One line for each message that has something to tell, in order. */
  ghost predicate Transcribes(messages: seq<Message>, s: Summarizer, lines: seq<string>) {
    if messages == [] then lines == []
    else
      var n := |messages| - 1;
      var m := messages[n];
      if m.content == "" && m.calls == [] then Transcribes(messages[..n], s, lines)
      else lines != [] && IsLine(m, s, lines[|lines| - 1]) && Transcribes(messages[..n], s, lines[..|lines| - 1])
  }

  lemma RenderedIsLine(m: Message, s: Summarizer)
    ensures m.content == "" && m.calls == [] ==> Render(m, s) == None
    ensures m.content != "" || m.calls != [] ==> Render(m, s).Some? && IsLine(m, s, Render(m, s).value)
  {
    var name, parts := RoleName(m.role), Parts(m, s);
    hide TruncateText, Join, IsCutTo;
    assert IsRoleName(m.role, name) && Tells(m, s, parts);
    TruncatedIsCut(name + ": " + Join(parts, " "), RENDER_CHARS);
  }

  lemma {:induction false} LinesTranscribe(messages: seq<Message>, s: Summarizer)
    ensures Transcribes(messages, s, Lines(messages, s))
  {
    if messages != [] {
      hide Render, IsLine;
      var n := |messages| - 1;
      LinesTranscribe(messages[..n], s);
      RenderedIsLine(messages[n], s);
      var before := Lines(messages[..n], s);
      if Render(messages[n], s).Some? {
        assert (before + [Render(messages[n], s).value])[..|before|] == before;
      } else {
        assert before + [] == before;
      }
    }
  }

  // ----- chunks -----

  function Flatten(chunks: seq<seq<string>>): seq<string> {
    if chunks == [] then [] else Flatten(chunks[..|chunks| - 1]) + chunks[|chunks| - 1]
  }

  /** A chunk fits the limit when its lines are joined, unless it is one line that alone does not. */
  ghost predicate Bounded(chunk: seq<string>, limit: nat) {
    |chunk| <= 1 || |Join(chunk, "\n")| <= limit
  }

  /** A chunk ends only where the next line would not fit. */
  ghost predicate Full(chunk: seq<string>, next: seq<string>, limit: nat) {
    next != [] && |Join(chunk, "\n")| + 1 + |next[0]| > limit
  }

  ghost predicate AllFull(chunks: seq<seq<string>>, limit: nat) {
    forall k, j :: 0 <= k < j < |chunks| && j == k + 1 ==> Full(chunks[k], chunks[j], limit)
  }

  /**
    Packs the lines in order. Every line is in exactly one chunk, and a chunk is
    never longer than the limit unless a single line is, nor shorter than it need
    be.
   */
  method Chunks(lines: seq<string>, limit: nat) returns (chunks: seq<seq<string>>)
    ensures Flatten(chunks) == lines
    ensures forall k :: 0 <= k < |chunks| ==> Bounded(chunks[k], limit)
    ensures lines != [] ==> AllFull(chunks, limit) && forall k :: 0 <= k < |chunks| ==> chunks[k] != []
  {
    hide *;
    var done: seq<seq<string>>, last: seq<string>, size := [], [], 0;
    NoChunks(limit);
    for i := 0 to |lines|
      invariant Flatten(done) + last == lines[..i]
      invariant forall k :: 0 <= k < |done| ==> Bounded(done[k], limit) && done[k] != []
      invariant Bounded(last, limit) && (last == [] <==> i == 0)
      invariant size == if last == [] then 0 else |Join(last, "\n")| + 1
      invariant if i == 0 then done == [] else AllFull(done + [last], limit)
    {
      var line := lines[i];
      ghost var done0, last0 := done, last;
      assert lines[..i + 1] == lines[..i] + [line];
      BoundedSnoc(last, line, limit);
      if last != [] && size + |line| > limit {
        FlattenSnoc(done, last);
        done := done + [last];
        last, size := [], 0;
        BoundedSnoc(last, line, limit);
        assert Flatten(done) + last == Flatten(done);
      }
      assert Flatten(done) + (last + [line]) == (Flatten(done) + last) + [line];
      JoinSnoc(last, line, "\n");
      last := last + [line];
      size := size + |line| + 1;
      StillFull(done0, last0, line, limit);
      FullAtFirst(last);
      assert [] + [line] == [line] && [] + [last] == [last];
    }
    FlattenSnoc(done, last);
    chunks := done + [last];
    assert lines[..|lines|] == lines;
  }

  lemma FullAtFirst(last: seq<string>)
    ensures forall limit :: AllFull([last], limit)
  {
  }

  /** The line goes into the last chunk, or into a new one if it does not fit. */
  lemma StillFull(done: seq<seq<string>>, last: seq<string>, line: string, limit: nat)
    requires last != [] ==> AllFull(done + [last], limit)
    ensures last != [] ==> AllFull(done + [last + [line]], limit)
    ensures last != [] && |Join(last, "\n")| + 1 + |line| > limit ==> AllFull(done + [last] + [[line]], limit)
  {
    hide Join;
    if last != [] {
      var a, b, c := done + [last], done + [last + [line]], done + [last] + [[line]];
      forall k, j | 0 <= k < j < |b| && j == k + 1 ensures Full(b[k], b[j], limit) {
        assert Full(a[k], a[j], limit);
      }
      if |Join(last, "\n")| + 1 + |line| > limit {
        forall k, j | 0 <= k < j < |c| && j == k + 1 ensures Full(c[k], c[j], limit) {
          if j < |a| { assert Full(a[k], a[j], limit); }
        }
      }
    }
  }

  lemma NoChunks(limit: nat)
    ensures Flatten([]) == [] && Bounded([], limit)
  {
  }

  lemma FlattenSnoc(chunks: seq<seq<string>>, last: seq<string>)
    ensures Flatten(chunks + [last]) == Flatten(chunks) + last
  {
    assert (chunks + [last])[..|chunks|] == chunks;
  }

  lemma BoundedSnoc(chunk: seq<string>, line: string, limit: nat)
    ensures chunk == [] || |Join(chunk, "\n")| + 1 + |line| <= limit ==> Bounded(chunk + [line], limit)
  {
    JoinSnoc(chunk, line, "\n");
  }

  // ----- the length limit -----

  /** The last position of a newline, or -1. */
  function LastNewline(s: string): (r: int)
    ensures -1 <= r < |s| && (r >= 0 ==> s[r] == '\n')
    ensures forall k :: r < k < |s| ==> s[k] != '\n'
  {
    if s == [] then -1 else if s[|s| - 1] == '\n' then |s| - 1 else LastNewline(s[..|s| - 1])
  }

  /**
    The start that is kept of a text's first room characters: up to the last line
    end in their second half, if there is one.
   */
  ghost predicate KeptLines(text: string, room: nat, end: nat) {
    && end <= room <= |text|
    && (end < room ==> end > room / 2 && text[end] == '\n')
    && (forall k :: room / 2 < k < room && (k > end || end == room) ==> text[k] != '\n')
  }

  /** The first k characters are these lines without the white space behind them. */
  ghost predicate Kept(text: string, room: nat, k: nat) {
    exists end :: KeptLines(text, room, end) && k <= end && IsStripped(text, k, end)
  }

  ghost predicate IsStripped(text: string, k: nat, end: nat)
    requires k <= end <= |text|
  {
    (k > 0 ==> !IsSpace(text[k - 1])) && forall m :: k <= m < end ==> IsSpace(text[m])
  }

  /** The share of n that the limit is of the tokens. */
  function Share(n: nat, limit: nat, tokens: nat): (r: nat)
    requires limit < tokens
    ensures r <= n
  {
    var q := n * limit / tokens;
    assert n * limit <= n * tokens;
    assert tokens * (n - q) >= 0;
    q
  }

  lemma ShareIs(n: nat, limit: nat, tokens: nat)
    requires limit < tokens
    ensures Share(n, limit, tokens) * tokens <= n * limit < (Share(n, limit, tokens) + 1) * tokens
  {
    var q := n * limit / tokens;
    assert n * limit == q * tokens + n * limit % tokens;
  }

  /** The start that is left of a text that takes more tokens than the limit, with a note. */
  ghost predicate IsCapped(text: string, limit: nat, tokens: nat, r: string) {
    exists room: nat, k: nat {:trigger Kept(text, room, k)} ::
      && room * tokens <= |text| * limit < (room + 1) * tokens && Kept(text, room, k) && k <= |text|
      && r == text[..k] + "\n" + "[recap truncated to its length limit]"
  }

  /**
    A recap within the limit stays as it is; one over it keeps its start, in
    proportion to the limit and cut at a line end when that loses little, and says
    so.
   */
  function CapSummary(text: string, limit: nat, s: Summarizer): (r: string)
    requires text != ""
    ensures r != ""
    ensures if s.tokens(text) <= limit then r == text else IsCapped(text, limit, s.tokens(text), r)
  {
    hide Share, Kept;
    var tokens := s.tokens(text);
    if tokens <= limit then text
    else
      var keep := Share(|text|, limit, tokens);
      var newline := LastNewline(text[..keep]);
      var end := if newline > keep / 2 then newline else keep;
      var cut := RStrip(text[..end]);
      IsKept(text, keep, newline);
      ShareIs(|text|, limit, tokens);
      assert cut == text[..|cut|];
      cut + "\n" + SUMMARY_TRUNCATED
  }

  lemma IsKept(text: string, room: nat, newline: int)
    requires room <= |text| && newline == LastNewline(text[..room])
    ensures var end := if newline > room / 2 then newline else room;
            Kept(text, room, |RStrip(text[..end])|)
  {
    var end := if newline > room / 2 then newline else room;
    var k := |RStrip(text[..end])|;
    assert KeptLines(text, room, end);
    assert IsStripped(text, k, end);
  }

  // ----- folding -----

  function SummarizeChunk(prior: string, transcript: string, limit: nat, s: Summarizer): (r: Option<string>)
    ensures r.Some? ==> r.value != ""
  {
    var reply := s.ask(prior, transcript);
    if reply.None? || reply.value == "" then None else Some(CapSummary(reply.value, limit, s))
  }

  /** The reply to a request with the prior recap and a transcript, kept within its limit, is the next recap. */
  ghost predicate IsFold(prior: string, transcript: string, recap: string, limit: nat, s: Summarizer) {
    var reply := s.ask(prior, transcript);
    && reply.Some? && reply.value != ""
    && if s.tokens(reply.value) <= limit then recap == reply.value
       else IsCapped(reply.value, limit, s.tokens(reply.value), recap)
  }

  ghost predicate FoldsAt(recaps: seq<string>, chunks: seq<seq<string>>, k: nat, limit: nat, s: Summarizer)
    requires k + 1 < |recaps| && k < |chunks|
  {
    IsFold(recaps[k], Join(chunks[k], "\n"), recaps[k + 1], limit, s)
  }

  /**
    The recaps from request to request: the prior one comes first, and each request
    passes on the last one with the next chunk. The result is the last recap, or
    none as soon as a request fails or comes back empty.
   */
  ghost predicate Folds(prior: string, chunks: seq<seq<string>>, recaps: seq<string>, limit: nat, s: Summarizer,
                        r: Option<string>) {
    && recaps != [] && recaps[0] == prior && |recaps| <= |chunks| + 1
    && (forall k {:trigger FoldsAt(recaps, chunks, k, limit, s)} ::
          0 <= k < |recaps| - 1 ==> FoldsAt(recaps, chunks, k, limit, s))
    && match r
       case Some(recap) => |recaps| == |chunks| + 1 && recap == recaps[|recaps| - 1]
       case None =>
         && |recaps| <= |chunks|
         && s.ask(recaps[|recaps| - 1], Join(chunks[|recaps| - 1], "\n")) in {None, Some("")}
  }

  ghost predicate Packs(chunks: seq<seq<string>>, lines: seq<string>, chunkChars: nat) {
    && Flatten(chunks) == lines && (forall k :: 0 <= k < |chunks| ==> Bounded(chunks[k], chunkChars))
    && AllFull(chunks, chunkChars)
  }

  /** All messages are transcribed; with nothing to tell the prior recap stands, otherwise all of it is folded in. */
  ghost predicate IsRecap(prior: string, messages: seq<Message>, chunkChars: nat, limit: nat, s: Summarizer,
                          r: Option<string>) {
    exists lines :: Transcribes(messages, s, lines) && Recaps(prior, lines, chunkChars, limit, s, r)
  }

  ghost predicate Recaps(prior: string, lines: seq<string>, chunkChars: nat, limit: nat, s: Summarizer,
                         r: Option<string>) {
    if lines == [] then r == if prior == "" then None else Some(prior)
    else exists chunks, recaps :: Packs(chunks, lines, chunkChars) && Folds(prior, chunks, recaps, limit, s, r)
  }

  /**
    Folds messages into the prior recap. A recap that comes back is never empty;
    without a model, or when any request fails, there is none.
   */
  method Summarize(prior: string, messages: seq<Message>, chunkChars: nat, limit: nat, model: Option<Summarizer>)
    returns (r: Option<string>)
    ensures r.Some? ==> r.value != "" && model.Some? && messages != []
    ensures model.Some? && messages != [] ==> IsRecap(prior, messages, chunkChars, limit, model.value, r)
  {
    hide *;
    if model.None? || messages == [] { return None; }
    var s := model.value;
    var lines := Lines(messages, s);
    LinesTranscribe(messages, s);
    if lines == [] {
      NothingToFold(prior, messages, chunkChars, limit, s);
      return if prior == "" then None else Some(prior);
    }
    var chunks := Chunks(lines, chunkChars);
    ArePacked(lines, chunks, chunkChars);
    var recap := prior;
    ghost var recaps := [prior];
    FoldedNone(prior, chunks, limit, s);
    for k := 0 to |chunks|
      invariant FoldedSoFar(prior, chunks, recaps, limit, s) && |recaps| == k + 1 && recap == recaps[k]
      invariant recap != "" || k == 0
    {
      var folded := SummarizeChunk(recap, Join(chunks[k], "\n"), limit, s);
      SummarizedIs(recap, Join(chunks[k], "\n"), limit, s);
      if folded.None? {
        FoldFailed(prior, chunks, recaps, limit, s);
        AllFolded(prior, messages, lines, chunks, recaps, chunkChars, limit, s, None);
        return None;
      }
      FoldedSnoc(prior, chunks, recaps, folded.value, limit, s);
      recap, recaps := folded.value, recaps + [folded.value];
    }
    FoldedDone(prior, chunks, recaps, limit, s);
    AllFolded(prior, messages, lines, chunks, recaps, chunkChars, limit, s, Some(recap));
    return Some(recap);
  }

  /** The first requests have been answered. */
  ghost predicate FoldedSoFar(prior: string, chunks: seq<seq<string>>, recaps: seq<string>, limit: nat, s: Summarizer) {
    && recaps != [] && recaps[0] == prior && |recaps| <= |chunks| + 1
    && forall k {:trigger FoldsAt(recaps, chunks, k, limit, s)} ::
         0 <= k < |recaps| - 1 ==> FoldsAt(recaps, chunks, k, limit, s)
  }

  lemma SummarizedIs(prior: string, transcript: string, limit: nat, s: Summarizer)
    ensures match SummarizeChunk(prior, transcript, limit, s)
            case Some(recap) => IsFold(prior, transcript, recap, limit, s)
            case None => s.ask(prior, transcript) in {None, Some("")}
  {
    hide CapSummary, IsCapped;
  }

  lemma FoldedNone(prior: string, chunks: seq<seq<string>>, limit: nat, s: Summarizer)
    ensures FoldedSoFar(prior, chunks, [prior], limit, s)
  {
  }

  lemma FoldedSnoc(prior: string, chunks: seq<seq<string>>, recaps: seq<string>, recap: string, limit: nat,
                   s: Summarizer)
    requires FoldedSoFar(prior, chunks, recaps, limit, s) && |recaps| <= |chunks|
    requires IsFold(recaps[|recaps| - 1], Join(chunks[|recaps| - 1], "\n"), recap, limit, s)
    ensures FoldedSoFar(prior, chunks, recaps + [recap], limit, s)
  {
    hide IsFold, Join;
    var more := recaps + [recap];
    forall k | 0 <= k < |more| - 1 ensures FoldsAt(more, chunks, k, limit, s) {
      if k < |recaps| - 1 { assert FoldsAt(recaps, chunks, k, limit, s); }
    }
  }

  lemma FoldFailed(prior: string, chunks: seq<seq<string>>, recaps: seq<string>, limit: nat, s: Summarizer)
    requires FoldedSoFar(prior, chunks, recaps, limit, s) && |recaps| <= |chunks|
    requires s.ask(recaps[|recaps| - 1], Join(chunks[|recaps| - 1], "\n")) in {None, Some("")}
    ensures Folds(prior, chunks, recaps, limit, s, None)
  {
    hide IsFold, Join;
  }

  lemma FoldedDone(prior: string, chunks: seq<seq<string>>, recaps: seq<string>, limit: nat, s: Summarizer)
    requires FoldedSoFar(prior, chunks, recaps, limit, s) && |recaps| == |chunks| + 1
    ensures Folds(prior, chunks, recaps, limit, s, Some(recaps[|chunks|]))
  {
    hide IsFold, Join;
  }

  lemma ArePacked(lines: seq<string>, chunks: seq<seq<string>>, chunkChars: nat)
    requires lines != [] && Flatten(chunks) == lines && AllFull(chunks, chunkChars)
    requires forall k :: 0 <= k < |chunks| ==> Bounded(chunks[k], chunkChars)
    ensures Packs(chunks, lines, chunkChars) && chunks != []
  {
  }

  lemma AllFolded(prior: string, messages: seq<Message>, lines: seq<string>, chunks: seq<seq<string>>,
                  recaps: seq<string>, chunkChars: nat, limit: nat, s: Summarizer, r: Option<string>)
    requires Transcribes(messages, s, lines) && lines != [] && Packs(chunks, lines, chunkChars)
    requires Folds(prior, chunks, recaps, limit, s, r)
    ensures IsRecap(prior, messages, chunkChars, limit, s, r)
  {
    hide Transcribes, Packs, Folds;
    assert Recaps(prior, lines, chunkChars, limit, s, r);
  }

  lemma NothingToFold(prior: string, messages: seq<Message>, chunkChars: nat, limit: nat, s: Summarizer)
    requires Transcribes(messages, s, [])
    ensures IsRecap(prior, messages, chunkChars, limit, s, if prior == "" then None else Some(prior))
  {
    hide Transcribes;
    assert Recaps(prior, [], chunkChars, limit, s, if prior == "" then None else Some(prior));
  }
}
