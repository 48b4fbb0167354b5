/**
  Turning a history into a provider's turns. One backend collects tool results
  and adds them together, the other adds them one by one; both come to the same
  grouping, which is the only one there is.
 */
module Turns {
  import opened Wrappers
  import opened Messages
  import opened Texts

  datatype Side = UserSide | ModelSide

  datatype Turn<T> = Turn(side: Side, blocks: seq<T>)

  // ----- groupings -----

  function Tagged<T>(side: Side, blocks: seq<T>): seq<(Side, T)> {
    seq(|blocks|, k requires 0 <= k < |blocks| => (side, blocks[k]))
  }

  function Flatten<T>(turns: seq<Turn<T>>): seq<(Side, T)> {
    if turns == [] then []
    else Flatten(turns[..|turns| - 1]) + Tagged(turns[|turns| - 1].side, turns[|turns| - 1].blocks)
  }

  ghost predicate Alternates<T>(turns: seq<Turn<T>>) {
    && (forall i :: 0 <= i < |turns| ==> turns[i].blocks != [])
    && (forall i, j :: 0 <= i < j < |turns| && j == i + 1 ==> turns[i].side != turns[j].side)
  }

  /** Strictly alternating turns, none of them empty, with exactly these blocks in this order. */
  ghost predicate IsGrouping<T>(turns: seq<Turn<T>>, pieces: seq<(Side, T)>) {
    Alternates(turns) && Flatten(turns) == pieces
  }

  /** Adds blocks to the last turn if it is on their side, and otherwise as a new turn. */
  function Add<T>(turns: seq<Turn<T>>, side: Side, blocks: seq<T>): seq<Turn<T>> {
    if turns != [] && turns[|turns| - 1].side == side
    then turns[..|turns| - 1] + [Turn(side, turns[|turns| - 1].blocks + blocks)]
    else turns + [Turn(side, blocks)]
  }

  /** A grouping without its last block. */
  function Peeled<T>(turns: seq<Turn<T>>): seq<Turn<T>>
    requires turns != [] && turns[|turns| - 1].blocks != []
  {
    var n := |turns| - 1;
    var blocks := turns[n].blocks;
    if |blocks| == 1 then turns[..n] else turns[..n] + [Turn(turns[n].side, blocks[..|blocks| - 1])]
  }

  lemma Peel<T>(turns: seq<Turn<T>>, pieces: seq<(Side, T)>)
    requires IsGrouping(turns, pieces) && turns != []
    ensures pieces != [] && IsGrouping(Peeled(turns), pieces[..|pieces| - 1])
    ensures turns == Add(Peeled(turns), pieces[|pieces| - 1].0, [pieces[|pieces| - 1].1])
  {
    var n := |turns| - 1;
    var last, rest := turns[n], Peeled(turns);
    var m := |last.blocks| - 1;
    assert Tagged(last.side, last.blocks) == Tagged(last.side, last.blocks[..m]) + [(last.side, last.blocks[m])];
    assert last.blocks == last.blocks[..m] + [last.blocks[m]];
    if m > 0 {
      assert rest[..n] == turns[..n];
    } else {
      assert last.blocks[..m] == [];
      assert turns == rest + [last];
    }
    assert Flatten(rest) == pieces[..|pieces| - 1];
  }

  lemma NoPieces<T>(turns: seq<Turn<T>>)
    requires IsGrouping(turns, [])
    ensures turns == []
  {
  }

  /** There is only one such grouping. */
  lemma {:induction false} GroupingIsUnique<T>(a: seq<Turn<T>>, b: seq<Turn<T>>, pieces: seq<(Side, T)>)
    requires IsGrouping(a, pieces) && IsGrouping(b, pieces)
    ensures a == b
    decreases |pieces|
  {
    hide IsGrouping, Add;
    if pieces == [] {
      NoPieces(a);
      NoPieces(b);
    } else {
      SomePieces(a, pieces);
      SomePieces(b, pieces);
      Peel(a, pieces);
      Peel(b, pieces);
      GroupingIsUnique(Peeled(a), Peeled(b), pieces[..|pieces| - 1]);
    }
  }

  lemma SomePieces<T>(turns: seq<Turn<T>>, pieces: seq<(Side, T)>)
    requires IsGrouping(turns, pieces) && pieces != []
    ensures turns != [] && turns[|turns| - 1].blocks != []
  {
  }

  lemma AddGroups<T>(turns: seq<Turn<T>>, pieces: seq<(Side, T)>, side: Side, blocks: seq<T>)
    requires IsGrouping(turns, pieces) && blocks != []
    ensures IsGrouping(Add(turns, side, blocks), pieces + Tagged(side, blocks))
  {
    var r := Add(turns, side, blocks);
    if turns != [] && turns[|turns| - 1].side == side {
      var last := turns[|turns| - 1];
      assert r[..|r| - 1] == turns[..|turns| - 1];
      assert Tagged(side, last.blocks + blocks) == Tagged(side, last.blocks) + Tagged(side, blocks);
      forall i, j | 0 <= i < j < |r| && j == i + 1 ensures r[i].side != r[j].side {
        assert r[i].side == turns[i].side && r[j].side == turns[j].side;
      }
    } else {
      assert r[..|r| - 1] == turns;
    }
  }

  // ----- what each message contributes -----

  /** A block's origin: a message's text, a tool result, or a call. */
  datatype Origin = FromText(text: string) | FromResult(result: Message) | FromCall(call: Call)

  function Origins(m: Message): seq<Origin> {
    match m.role
    case System => []
    case User => [FromText(m.content)]
    case Tool => [FromResult(m)]
    case Assistant =>
      (if m.content == "" then [] else [FromText(m.content)])
      + seq(|m.calls|, k requires 0 <= k < |m.calls| => FromCall(m.calls[k]))
    case Other(_) => []
  }

  function SideOf(m: Message): Side {
    if m.role.Assistant? then ModelSide else UserSide
  }

  /** Everything the non-system messages say, in order. */
  function Pieces(h: seq<Message>): seq<(Side, Origin)> {
    if h == [] then [] else Pieces(h[..|h| - 1]) + Tagged(SideOf(h[|h| - 1]), Origins(h[|h| - 1]))
  }

  function SystemText(h: seq<Message>): seq<string> {
    if h == [] then []
    else SystemText(h[..|h| - 1]) + if h[|h| - 1].role.System? then [h[|h| - 1].content] else []
  }

  // ----- the two block formats -----

  datatype AnthropicBlock =
    | AText(text: string)
    | AToolUse(id: Option<string>, name: string, input: Arguments)
    | AToolResult(toolUseId: Option<string>, content: string)

  datatype GeminiPart =
    | GText(text: string)
    | GFunctionCall(name: string, args: Arguments)
    | GFunctionResponse(toolName: Option<string>, result: string)

  function ToBlock(o: Origin): AnthropicBlock {
    match o
    case FromText(text) => AText(text)
    case FromResult(m) => AToolResult(m.toolUseId, m.content)
    case FromCall(c) => AToolUse(c.id, c.name, c.arguments)
  }

  function ToPart(o: Origin): GeminiPart {
    match o
    case FromText(text) => GText(text)
    case FromResult(m) => GFunctionResponse(m.name, m.content)
    case FromCall(c) => GFunctionCall(c.name, c.arguments)
  }

  function Blocks<T>(origins: seq<Origin>, f: Origin -> T): seq<T> {
    seq(|origins|, k requires 0 <= k < |origins| => f(origins[k]))
  }

  function Rendered<T>(turns: seq<Turn<Origin>>, f: Origin -> T): seq<Turn<T>> {
    seq(|turns|, k requires 0 <= k < |turns| => Turn(turns[k].side, Blocks(turns[k].blocks, f)))
  }

  lemma RenderedAdd<T>(turns: seq<Turn<Origin>>, side: Side, origins: seq<Origin>, f: Origin -> T)
    ensures Add(Rendered(turns, f), side, Blocks(origins, f)) == Rendered(Add(turns, side, origins), f)
  {
    if turns != [] && turns[|turns| - 1].side == side {
      var last := turns[|turns| - 1].blocks;
      assert Blocks(last + origins, f) == Blocks(last, f) + Blocks(origins, f);
    }
  }

  lemma PiecesSnoc(h: seq<Message>, i: nat)
    requires i < |h|
    ensures Pieces(h[..i + 1]) == Pieces(h[..i]) + Tagged(SideOf(h[i]), Origins(h[i]))
    ensures SystemText(h[..i + 1]) == SystemText(h[..i]) + if h[i].role.System? then [h[i].content] else []
  {
    assert h[..i + 1][..i] == h[..i];
  }

  // ----- what the blocks say, message by message -----

  /** What a message comes to in Anthropic's format. */
  ghost predicate SaysBlocks(m: Message, said: seq<(Side, AnthropicBlock)>) {
    match m.role
    case User => said == [(UserSide, AText(m.content))]
    case Tool => said == [(UserSide, AToolResult(m.toolUseId, m.content))]
    case Assistant =>
      var first := if m.content == "" then 0 else 1;
      && |said| == first + |m.calls| && (m.content != "" ==> said[0] == (ModelSide, AText(m.content)))
      && forall k {:trigger m.calls[k]} :: 0 <= k < |m.calls| ==>
           var c := m.calls[k]; said[first + k] == (ModelSide, AToolUse(c.id, c.name, c.arguments))
    case _ => said == []
  }

  /** What it comes to in Gemini's. */
  ghost predicate SaysParts(m: Message, said: seq<(Side, GeminiPart)>) {
    match m.role
    case User => said == [(UserSide, GText(m.content))]
    case Tool => said == [(UserSide, GFunctionResponse(m.name, m.content))]
    case Assistant =>
      var first := if m.content == "" then 0 else 1;
      && |said| == first + |m.calls| && (m.content != "" ==> said[0] == (ModelSide, GText(m.content)))
      && forall k {:trigger m.calls[k]} :: 0 <= k < |m.calls| ==>
           var c := m.calls[k]; said[first + k] == (ModelSide, GFunctionCall(c.name, c.arguments))
    case _ => said == []
  }

  /** Cut at these places, the blocks are what the messages say, one after the other. */
  ghost predicate SaidAt<T>(said: seq<(Side, T)>, h: seq<Message>, says: (Message, seq<(Side, T)>) -> bool,
                            at: seq<nat>) {
    && |at| == |h| + 1 && at[0] == 0 && at[|h|] == |said|
    && forall i: nat {:trigger OneSays(said, h[i], says, at, i)} :: i < |h| ==> OneSays(said, h[i], says, at, i)
  }

  ghost predicate OneSays<T>(said: seq<(Side, T)>, m: Message, says: (Message, seq<(Side, T)>) -> bool, at: seq<nat>,
                             i: nat) {
    i + 1 < |at| && at[i] <= at[i + 1] <= |said| && says(m, said[at[i]..at[i + 1]])
  }

  ghost predicate SaysAll<T>(said: seq<(Side, T)>, h: seq<Message>, says: (Message, seq<(Side, T)>) -> bool) {
    exists at: seq<nat> :: SaidAt(said, h, says, at)
  }

  function Mapped<T>(pieces: seq<(Side, Origin)>, f: Origin -> T): seq<(Side, T)> {
    seq(|pieces|, k requires 0 <= k < |pieces| => (pieces[k].0, f(pieces[k].1)))
  }

  lemma {:induction false} FlattenRendered<T>(turns: seq<Turn<Origin>>, f: Origin -> T)
    ensures Flatten(Rendered(turns, f)) == Mapped(Flatten(turns), f)
  {
    if turns != [] {
      var n := |turns| - 1;
      var last := turns[n];
      FlattenRendered(turns[..n], f);
      assert Rendered(turns, f)[..n] == Rendered(turns[..n], f);
      assert Tagged(last.side, Blocks(last.blocks, f)) == Mapped(Tagged(last.side, last.blocks), f);
    }
  }

  lemma {:induction false} PiecesSay<T>(h: seq<Message>, f: Origin -> T, says: (Message, seq<(Side, T)>) -> bool)
    requires forall m: Message :: says(m, Mapped(Tagged(SideOf(m), Origins(m)), f))
    ensures SaysAll(Mapped(Pieces(h), f), h, says)
  {
    if h == [] {
      assert SaidAt(Mapped(Pieces(h), f), h, says, [0]);
    } else {
      var n := |h| - 1;
      var m := h[n];
      PiecesSay(h[..n], f, says);
      var more := Mapped(Tagged(SideOf(m), Origins(m)), f);
      MappedAppend(Pieces(h[..n]), Tagged(SideOf(m), Origins(m)), f);
      hide SideOf, Origins, Mapped, Tagged, SaysAll;
      OneMoreSays(Mapped(Pieces(h[..n]), f), h[..n], says, m, more);
      assert h == h[..n] + [m];
    }
  }

  lemma MappedAppend<T>(a: seq<(Side, Origin)>, b: seq<(Side, Origin)>, f: Origin -> T)
    ensures Mapped(a + b, f) == Mapped(a, f) + Mapped(b, f)
  {
  }

  lemma OneMoreSays<T>(said: seq<(Side, T)>, h: seq<Message>, says: (Message, seq<(Side, T)>) -> bool, m: Message,
                       more: seq<(Side, T)>)
    requires SaysAll(said, h, says) && says(m, more)
    ensures SaysAll(said + more, h + [m], says)
  {
    var at: seq<nat> :| SaidAt(said, h, says, at);
    var all, h', at' := said + more, h + [m], at + [|said| + |more|];
    forall i: nat | i < |h'| ensures OneSays(all, h'[i], says, at', i) {
      if i < |h| {
        assert OneSays(said, h[i], says, at, i);
        assert h'[i] == h[i] && all[at[i]..at[i + 1]] == said[at[i]..at[i + 1]];
      } else {
        assert all[|said|..|said| + |more|] == more;
      }
    }
    assert SaidAt(all, h', says, at');
  }

  lemma OriginsAre(m: Message)
    requires m.role.Assistant?
    ensures var first := if m.content == "" then 0 else 1;
            && |Origins(m)| == first + |m.calls| && (m.content != "" ==> Origins(m)[0] == FromText(m.content))
            && forall k {:trigger m.calls[k]} :: 0 <= k < |m.calls| ==> Origins(m)[first + k] == FromCall(m.calls[k])
  {
  }

  lemma MessageSays(m: Message)
    ensures SaysBlocks(m, Mapped(Tagged(SideOf(m), Origins(m)), ToBlock))
    ensures SaysParts(m, Mapped(Tagged(SideOf(m), Origins(m)), ToPart))
  {
    TaggedMaps(SideOf(m), Origins(m), ToBlock);
    TaggedMaps(SideOf(m), Origins(m), ToPart);
    if m.role.Assistant? { OriginsAre(m); }
    hide Mapped, Tagged;
    if m.role.Assistant? {
      hide Origins;
    }
  }

  lemma TaggedMaps<T>(side: Side, origins: seq<Origin>, f: Origin -> T)
    ensures var said := Mapped(Tagged(side, origins), f);
            |said| == |origins| && forall k :: 0 <= k < |said| ==> said[k] == (side, f(origins[k]))
  {
  }

  /** The blocks, taken turn by turn, are what the messages say, in order. */
  lemma BlocksSay(messages: seq<Turn<AnthropicBlock>>, h: seq<Message>)
    requires Groups(messages, h, ToBlock)
    ensures SaysAll(Flatten(messages), h, (m, said) => SaysBlocks(m, said))
  {
    var says := (m, said) => SaysBlocks(m, said);
    forall m: Message ensures says(m, Mapped(Tagged(SideOf(m), Origins(m)), ToBlock)) {
      MessageSays(m);
    }
    PiecesSay(h, ToBlock, says);
    GroupsFlat(messages, h, ToBlock);
  }

  lemma PartsSay(contents: seq<Turn<GeminiPart>>, h: seq<Message>)
    requires Groups(contents, h, ToPart)
    ensures SaysAll(Flatten(contents), h, (m, said) => SaysParts(m, said))
  {
    var says := (m, said) => SaysParts(m, said);
    forall m: Message ensures says(m, Mapped(Tagged(SideOf(m), Origins(m)), ToPart)) {
      MessageSays(m);
    }
    PiecesSay(h, ToPart, says);
    GroupsFlat(contents, h, ToPart);
  }

  lemma GroupsFlat<T>(messages: seq<Turn<T>>, h: seq<Message>, f: Origin -> T)
    requires Groups(messages, h, f)
    ensures Flatten(messages) == Mapped(Pieces(h), f)
  {
    var turns: seq<Turn<Origin>> :| IsGrouping(turns, Pieces(h)) && messages == Rendered(turns, f);
    FlattenRendered(turns, f);
  }

  /** The texts are those of the system messages, in order. */
  ghost predicate ListsSystem(h: seq<Message>, texts: seq<string>, at: seq<nat>) {
    && |texts| == |at|
    && (forall k {:trigger at[k]} :: 0 <= k < |at| ==>
          at[k] < |h| && h[at[k]].role.System? && texts[k] == h[at[k]].content)
    && (forall j, k :: 0 <= j < k < |at| ==> at[j] < at[k])
    && (forall i: nat {:trigger h[i]} :: i < |h| && h[i].role.System? ==> i in at)
  }

  ghost predicate JoinsSystem(h: seq<Message>, system: string) {
    exists texts, at: seq<nat> {:trigger ListsSystem(h, texts, at)} ::
      ListsSystem(h, texts, at) && system == Join(texts, "\n")
  }

  lemma {:induction false} SystemLists(h: seq<Message>) returns (at: seq<nat>)
    ensures ListsSystem(h, SystemText(h), at)
  {
    at := [];
    if h != [] {
      var n := |h| - 1;
      at := SystemLists(h[..n]);
      assert forall i: nat :: i < n ==> h[..n][i] == h[i];
      if h[n].role.System? {
        at := at + [n];
        assert at[|at| - 1] == n;
      }
    }
  }

  lemma SystemJoins(h: seq<Message>)
    ensures JoinsSystem(h, Join(SystemText(h), "\n"))
  {
    var at := SystemLists(h);
    hide ListsSystem, SystemText;
    assert ListsSystem(h, SystemText(h), at);
  }

  // ----- the two backends -----

  /** What is in the turns, and the results collected so far, group the pieces up to here. */
  ghost predicate Pending<T>(messages: seq<Turn<T>>, waiting: seq<T>, turns: seq<Turn<Origin>>, results: seq<Origin>,
                             pieces: seq<(Side, Origin)>, f: Origin -> T) {
    && messages == Rendered(turns, f) && waiting == Blocks(results, f)
    && IsGrouping(if results == [] then turns else Add(turns, UserSide, results), pieces)
  }

  ghost predicate Groups<T>(messages: seq<Turn<T>>, h: seq<Message>, f: Origin -> T) {
    exists turns :: IsGrouping(turns, Pieces(h)) && messages == Rendered(turns, f)
  }

  lemma AddTwice<T>(turns: seq<Turn<T>>, side: Side, a: seq<T>, b: seq<T>)
    ensures Add(Add(turns, side, a), side, b) == Add(turns, side, a + b)
  {
    if turns != [] && turns[|turns| - 1].side == side {
      assert turns[|turns| - 1].blocks + a + b == turns[|turns| - 1].blocks + (a + b);
    }
  }

  lemma TaggedNone<T>(side: Side, pieces: seq<(Side, T)>)
    ensures pieces + Tagged(side, []) == pieces
  {
  }

  method AssistantBlocks(m: Message) returns (blocks: seq<AnthropicBlock>)
    requires m.role.Assistant?
    ensures blocks == Blocks(Origins(m), ToBlock)
  {
    blocks := [];
    if m.content != "" {
      blocks := blocks + [AText(m.content)];
    }
    ghost var n := |blocks|;
    for k := 0 to |m.calls|
      invariant |blocks| == n + k && forall j :: 0 <= j < |blocks| ==> blocks[j] == ToBlock(Origins(m)[j])
    {
      blocks := blocks + [AToolUse(m.calls[k].id, m.calls[k].name, m.calls[k].arguments)];
    }
  }

  method AssistantParts(m: Message) returns (parts: seq<GeminiPart>)
    requires m.role.Assistant?
    ensures parts == Blocks(Origins(m), ToPart)
  {
    parts := [];
    if m.content != "" {
      parts := parts + [GText(m.content)];
    }
    ghost var n := |parts|;
    for k := 0 to |m.calls|
      invariant |parts| == n + k && forall j :: 0 <= j < |parts| ==> parts[j] == ToPart(Origins(m)[j])
    {
      parts := parts + [GFunctionCall(m.calls[k].name, m.calls[k].arguments)];
    }
  }

  /** A message that is no tool result: what waits goes out first, then what the message has to say. */
  method AddMessage(m: Message, messages0: seq<Turn<AnthropicBlock>>, ghost turns0: seq<Turn<Origin>>,
                    ghost pieces: seq<(Side, Origin)>)
    returns (messages: seq<Turn<AnthropicBlock>>, ghost turns: seq<Turn<Origin>>)
    requires Pending(messages0, [], turns0, [], pieces, ToBlock) && !m.role.Tool?
    ensures Pending(messages, [], turns, [], pieces + Tagged(SideOf(m), Origins(m)), ToBlock)
  {
    hide Pending, Add, Tagged;
    messages, turns := messages0, turns0;
    TaggedNone(SideOf(m), pieces);
    if m.role.User? {
      AddNext(messages, turns, pieces, m, ToBlock);
      assert Blocks(Origins(m), ToBlock) == [AText(m.content)];
      messages := Add(messages, UserSide, [AText(m.content)]);
      turns := Add(turns, UserSide, Origins(m));
    } else if m.role.Assistant? {
      var blocks := AssistantBlocks(m);
      if blocks != [] {  // an empty assistant turn is rejected by the API
        AddNext(messages, turns, pieces, m, ToBlock);
        messages := Add(messages, ModelSide, blocks);
        turns := Add(turns, ModelSide, Origins(m));
      } else {
        assert Origins(m) == [];
      }
    }
  }

  method FlushResults(messages0: seq<Turn<AnthropicBlock>>, waiting: seq<AnthropicBlock>,
                      ghost turns0: seq<Turn<Origin>>, ghost results: seq<Origin>, ghost pieces: seq<(Side, Origin)>)
    returns (messages: seq<Turn<AnthropicBlock>>, ghost turns: seq<Turn<Origin>>)
    requires Pending(messages0, waiting, turns0, results, pieces, ToBlock)
    ensures Pending(messages, [], turns, [], pieces, ToBlock)
  {
    hide Pending, Add;
    messages, turns := messages0, turns0;
    Flush(messages, waiting, turns, results, pieces, ToBlock);
    if waiting != [] {
      messages := Add(messages, UserSide, waiting);
      turns := Add(turns, UserSide, results);
    }
  }

  lemma PendingGroups<T>(messages: seq<Turn<T>>, turns: seq<Turn<Origin>>, h: seq<Message>, f: Origin -> T)
    requires Pending(messages, [], turns, [], Pieces(h), f)
    ensures Groups(messages, h, f)
  {
    assert IsGrouping(turns, Pieces(h)) && messages == Rendered(turns, f);
  }

  lemma PendingNothing<T>(h: seq<Message>, f: Origin -> T)
    ensures Pending([], [], [], [], Pieces(h[..0]), f) && SystemText(h[..0]) == []
  {
  }

  /** Anthropic's messages: tool results wait until something else comes, so that they go out in one turn. */
  method ToMessages(h: seq<Message>) returns (system: string, messages: seq<Turn<AnthropicBlock>>)
    ensures Groups(messages, h, ToBlock)
    ensures SaysAll(Flatten(messages), h, (m, said) => SaysBlocks(m, said)) && Alternates(messages)
    ensures JoinsSystem(h, system)
  {
    hide *;
    var systemParts: seq<string>, pendingResults: seq<AnthropicBlock> := [], [];
    messages := [];
    ghost var turns: seq<Turn<Origin>>, results: seq<Origin> := [], [];
    PendingNothing(h, ToBlock);
    for i := 0 to |h|
      invariant Pending(messages, pendingResults, turns, results, Pieces(h[..i]), ToBlock)
      invariant systemParts == SystemText(h[..i])
    {
      var m := h[i];
      PiecesSnoc(h, i);
      if m.role.Tool? {
        Wait(messages, pendingResults, turns, results, Pieces(h[..i]), m);
        pendingResults := pendingResults + [AToolResult(m.toolUseId, m.content)];
        results := results + [FromResult(m)];
        continue;
      }
      messages, turns := FlushResults(messages, pendingResults, turns, results, Pieces(h[..i]));
      pendingResults, results := [], [];
      if m.role.System? {
        systemParts := systemParts + [m.content];
      }
      messages, turns := AddMessage(m, messages, turns, Pieces(h[..i]));
    }
    messages, turns := FlushResults(messages, pendingResults, turns, results, Pieces(h[..|h|]));
    assert h[..|h|] == h;
    PendingGroups(messages, turns, h, ToBlock);
    BlocksSay(messages, h);
    GroupsAlternate(messages, h, ToBlock);
    system := Join(systemParts, "\n");
    SystemJoins(h);
  }

  lemma Wait(messages: seq<Turn<AnthropicBlock>>, waiting: seq<AnthropicBlock>, turns: seq<Turn<Origin>>,
             results: seq<Origin>, pieces: seq<(Side, Origin)>, m: Message)
    requires Pending(messages, waiting, turns, results, pieces, ToBlock) && m.role.Tool?
    ensures Pending(messages, waiting + [AToolResult(m.toolUseId, m.content)], turns, results + [FromResult(m)],
                    pieces + Tagged(SideOf(m), Origins(m)), ToBlock)
  {
    hide IsGrouping;
    var now := if results == [] then turns else Add(turns, UserSide, results);
    assert Blocks(results + [FromResult(m)], ToBlock) == Blocks(results, ToBlock) + [ToBlock(FromResult(m))];
    AddGroups(now, pieces, UserSide, [FromResult(m)]);
    if results != [] {
      AddTwice(turns, UserSide, results, [FromResult(m)]);
    } else {
      assert results + [FromResult(m)] == [FromResult(m)];
    }
  }

  /** Adding what waits leaves nothing waiting. */
  lemma Flush<T>(messages: seq<Turn<T>>, waiting: seq<T>, turns: seq<Turn<Origin>>, results: seq<Origin>,
                 pieces: seq<(Side, Origin)>, f: Origin -> T)
    requires Pending(messages, waiting, turns, results, pieces, f)
    ensures |waiting| == |results|
    ensures waiting == [] ==> Pending(messages, [], turns, [], pieces, f)
    ensures waiting != [] ==>
              Pending(Add(messages, UserSide, waiting), [], Add(turns, UserSide, results), [], pieces, f)
  {
    RenderedAdd(turns, UserSide, results, f);
  }

  /** With nothing waiting, a message that has something to say goes into the turns. */
  lemma AddNext<T>(messages: seq<Turn<T>>, turns: seq<Turn<Origin>>, pieces: seq<(Side, Origin)>, m: Message,
                   f: Origin -> T)
    requires Pending(messages, [], turns, [], pieces, f) && Origins(m) != []
    ensures Pending(Add(messages, SideOf(m), Blocks(Origins(m), f)), [], Add(turns, SideOf(m), Origins(m)), [],
                    pieces + Tagged(SideOf(m), Origins(m)), f)
  {
    AddGroups(turns, pieces, SideOf(m), Origins(m));
    RenderedAdd(turns, SideOf(m), Origins(m), f);
  }

  method AddContent(m: Message, contents0: seq<Turn<GeminiPart>>, ghost turns0: seq<Turn<Origin>>,
                    ghost pieces: seq<(Side, Origin)>)
    returns (contents: seq<Turn<GeminiPart>>, ghost turns: seq<Turn<Origin>>)
    requires Pending(contents0, [], turns0, [], pieces, ToPart)
    ensures Pending(contents, [], turns, [], pieces + Tagged(SideOf(m), Origins(m)), ToPart)
  {
    hide Pending, Add, Tagged;
    contents, turns := contents0, turns0;
    TaggedNone(SideOf(m), pieces);
    if m.role.User? {
      AddNext(contents, turns, pieces, m, ToPart);
      assert Blocks(Origins(m), ToPart) == [GText(m.content)];
      contents := Add(contents, UserSide, [GText(m.content)]);
      turns := Add(turns, UserSide, Origins(m));
    } else if m.role.Tool? {
      AddNext(contents, turns, pieces, m, ToPart);
      assert Blocks(Origins(m), ToPart) == [GFunctionResponse(m.name, m.content)];
      contents := Add(contents, UserSide, [GFunctionResponse(m.name, m.content)]);
      turns := Add(turns, UserSide, Origins(m));
    } else if m.role.Assistant? {
      var parts := AssistantParts(m);
      if parts != [] {  // an empty assistant turn is rejected by the API
        AddNext(contents, turns, pieces, m, ToPart);
        contents := Add(contents, ModelSide, parts);
        turns := Add(turns, ModelSide, Origins(m));
      } else {
        assert Origins(m) == [];
      }
    }
  }

  /** Gemini's contents: every message is added as it comes. */
  method ToContents(h: seq<Message>) returns (system: string, contents: seq<Turn<GeminiPart>>)
    ensures Groups(contents, h, ToPart)
    ensures SaysAll(Flatten(contents), h, (m, said) => SaysParts(m, said)) && Alternates(contents)
    ensures JoinsSystem(h, system)
  {
    hide *;
    var systemParts: seq<string> := [];
    contents := [];
    ghost var turns: seq<Turn<Origin>> := [];
    PendingNothing(h, ToPart);
    for i := 0 to |h|
      invariant Pending(contents, [], turns, [], Pieces(h[..i]), ToPart)
      invariant systemParts == SystemText(h[..i])
    {
      var m := h[i];
      PiecesSnoc(h, i);
      if m.role.System? {
        systemParts := systemParts + [m.content];
      }
      contents, turns := AddContent(m, contents, turns, Pieces(h[..i]));
    }
    assert h[..|h|] == h;
    PendingGroups(contents, turns, h, ToPart);
    PartsSay(contents, h);
    GroupsAlternate(contents, h, ToPart);
    system := Join(systemParts, "\n");
    SystemJoins(h);
  }

  lemma GroupsAlternate<T>(messages: seq<Turn<T>>, h: seq<Message>, f: Origin -> T)
    requires Groups(messages, h, f)
    ensures Alternates(messages)
  {
    var turns: seq<Turn<Origin>> :| IsGrouping(turns, Pieces(h)) && messages == Rendered(turns, f);
    forall i: nat | i < |messages| ensures messages[i].blocks != [] && messages[i].side == turns[i].side {
      assert turns[i].blocks != [];
    }
  }

  /**
    Both formats carry the same turns: the same sides in the same order, and block
    for block the same origins. Either alternates strictly and has no empty turn.
   */
  lemma BackendsAgree(h: seq<Message>, messages: seq<Turn<AnthropicBlock>>, contents: seq<Turn<GeminiPart>>)
    requires Groups(messages, h, ToBlock) && Groups(contents, h, ToPart)
    ensures exists turns ::
              && IsGrouping(turns, Pieces(h))
              && messages == Rendered(turns, ToBlock) && contents == Rendered(turns, ToPart)
    ensures Alternates(messages) && Alternates(contents)
  {
    var a :| IsGrouping(a, Pieces(h)) && messages == Rendered(a, ToBlock);
    var b :| IsGrouping(b, Pieces(h)) && contents == Rendered(b, ToPart);
    GroupingIsUnique(a, b, Pieces(h));
  }
}
