# Verified model of the agent harness

This project models the algorithmic centre of the harness in Dafny and proves
properties of it. `dafny verify dfyconfig.toml` checks everything.

What the outside decides is arbitrary here: the model and its replies, tool
outputs, the token estimator, the summarizing model, file contents, the
scheduling of concurrent calls, and which of a plugin's `start`, `stop`, `before`
or other hooks raise. The theorems hold for every choice.

## Parts

| part | files |
|---|---|
| Dependency graph: paths and cycles, Kahn waves, iterative Tarjan, the harness graph on top | `Digraph`, `Ordering`, `Decimal`, `Graph`, `Tarjan`, `Components`, `Requirements`, `PluginPaths`, `HarnessGraph` |
| Prompt pipeline: the agentic loop, compaction of the history, provider turns, and the three together | `Messages`, `AgenticLoop`, `TextCuts`, `Layouts`, `Truncation`, `Cuts`, `Recaps`, `Accounting`, `Compaction`, `Turns`, `Pipeline` |
| Memory store: the cache protocol, and the file format with its JSON string id (RFC 8259, section 7) | `MemoryCache`, `JsonString`, `Frontmatter` |
| File reading: lines from arbitrary chunks, and pages of them | `TextLines`, `ReadFile` |
| Shell: the scanner of command strings (POSIX.1-2017 Shell & Utilities, sections 2.2, 2.3 and 2.7.4), the directories its redirections may resolve against, and the session state that overlapping calls share | `ShellScan`, `ShellEffects`, `ShellCommands`, `ShellCharacters`, `ShellListing`, `ShellPlain`, `ShellQuoted`, `ShellReports`, `PossibleCwds`, `CommandCwds`, `ShellSession` |
| Plugin lifecycle, and brace expansion of globs | `Lifecycle`, `Braces` |
| What several parts share | `Wrappers`, `Texts` |

## How to read the model

- Objects whose methods update their fields are classes with these fields
  (`Graphs.Graph`, `HarnessGraphs.HarnessGraph`, `Compaction.Manager`,
  `AgenticLoop.Session`, `Lifecycle.Harness`, `ShellSession.ShellState`); loops
  over local variables are methods proved against a specification. The work of a
  long method is in module-level methods on values, which the class method calls
  and whose results it assigns.
- Ghost fields record what happened and are not seen by the program: the calls of
  plugins (`trace`), the messages a summary stands for (`folded`), the histories
  the model was called with (`prompts`), the finished shell calls (`reports`).
- Concurrency is a sequence of steps. `MemoryCache` has one step for each of stat,
  look-up, read and insert, and for each outside change, in any interleaving;
  `ShellSession` has one for a call's start and one for its end.
- Token counts are natural numbers. Where the program scales a text length by a
  ratio of token counts in floating point, the scaled length is an arbitrary
  natural number (`Gauge.scale`), so nothing depends on rounding.
- A loop run is given as a finite list of what happens in each iteration; the run
  uses as many of them as it needs, and the theorems are about every such list.

Where the code and its own description disagree, the model follows the code:

- `Graph.levels` calls itself the only cycle check; the harness graph has a second
  one, and the two are proved to agree.
- `attach` promises parents that are already present, but accepts the new node's
  own id and then makes a self-loop. `Graphs.AttachKeepsAcyclic` says exactly when
  the graph stays acyclic.
- `FileMemory` relies on every replacement giving a new file signature.
  `MemoryCache.ReusedSignatureIsStale` is a run in which that fails and a load
  returns contents that were never there while it ran. The exact condition on the
  directory's history is `MemoryCache.Tells`: where a signature is seen again, the
  file parses to whatever it parsed to in between.
  `MemoryCache.SafeIffSignaturesTell` proves both directions, and
  `MemoryCache.FreshRunTells` that new signatures are enough.
- The harness starts a plugin once for every registered, unstarted entry of it.
  `Lifecycle.RegisteredTwiceStartsTwice` and `Lifecycle.FailedAndUsedAgain` give
  three inputs on which a plugin that is up is started again.
  `Lifecycle.StartsAreLegalIff` and `Lifecycle.RaisingPassIsLegalIff` say exactly
  when one pass does not do that, and `Lifecycle.EveryPassIsLegalIff` that pass
  after pass does not if and only if no plugin with a lifecycle is registered
  twice. The class `Lifecycle.Harness` keeps to one entry a plugin.

## Model

| member | source | states |
|---|---|---|
| Graphs.Graph.AddNode | src/nexus_ai_harness/graph/graph.py:16-26 | Keeps the graph's maps mirrored; a known node keeps its place and its payload, and only a missing payload is filled in |
| Graphs.Graph.AddEdge | src/nexus_ai_harness/graph/graph.py:28-42 | Succeeds exactly when both ends exist, and then adds one record and at most one adjacency on either side; otherwise changes nothing |
| Graphs.Graph.Attach | src/nexus_ai_harness/graph/graph.py:44-70 | The new node's id is the wanted one or its first free numbered variant; exactly the parents before the first unknown one get an edge, recorded in order with what each parent is to the node, and the unknown one is the error |
| Graphs.ParentsAre | src/nexus_ai_harness/graph/graph.py:60-69 | The parents are what the node needs, in order and without a role, and then its keyword arguments, whose edges carry that role and their name |
| Graphs.AttachKeepsAcyclic | src/nexus_ai_harness/graph/graph.py:59-70 | Hanging a new node under parents keeps the graph acyclic if and only if it was acyclic and the node is not among its own parents |
| Graphs.Graph.FreshId | src/nexus_ai_harness/graph/graph.py:53-58 | The search for a free numbered id ends, and returns the first one from the node count on |
| Graphs.Graph.Levels | src/nexus_ai_harness/graph/graph.py:103-128 | Succeeds exactly on acyclic graphs; every node is then in exactly one wave, whose number is the length of the longest path ending at the node, and each wave is ascending |
| Graphs.FindLevels | src/nexus_ai_harness/graph/graph.py:112-128 | The same of the wave-by-wave countdown of in-degrees itself, which always ends |
| Graphs.WavesAreDisjoint | src/nexus_ai_harness/graph/graph.py:106-110 | No node is in two waves |
| Graphs.FlattenedLevelling | src/nexus_ai_harness/graph/graph.py:130-131 | The waves one after another list every node once, with every edge pointing forwards |
| Graphs.Graph.TopologicalOrder | src/nexus_ai_harness/graph/graph.py:130-131 | An order exists exactly on acyclic graphs, and the one returned has every edge pointing forwards |
| Components.StronglyConnected | src/nexus_ai_harness/harness/graph.py:332-385 | Lists exactly the maximal sets of mutually reachable nodes that have two or more nodes or a self-loop, pairwise disjoint; a node is listed exactly when a non-empty path leads back to it |
| Tarjan.EnterKeepsInv | src/nexus_ai_harness/harness/graph.py:345-364 | Entering an unvisited node keeps the invariant of the iterative search: what is closed, what is on the stack, what the low links bound and attain |
| Tarjan.LookKeepsInv | src/nexus_ai_harness/harness/graph.py:356-366 | Looking at a visited successor keeps the search invariant, whether or not that node is still on the stack |
| Tarjan.ReturnKeepsInv | src/nexus_ai_harness/harness/graph.py:367-384 | Returning from a node that is not a root, with its low link passed on, keeps the search invariant |
| Tarjan.CloseKeepsInv | src/nexus_ai_harness/harness/graph.py:367-381 | Finishing a root takes exactly the nodes mutually reachable with it off the stack and lists them if they form a cycle, and keeps the search invariant |
| HarnessGraphs.HarnessGraph.constructor | src/nexus_ai_harness/harness/graph.py:85-112 | One node for each registration, and the recorded edges are exactly the satisfied requirements, never of a plugin by itself |
| HarnessGraphs.EdgeIsFeed | src/nexus_ai_harness/harness/graph.py:98-112 | One plugin's node has an edge to another's exactly when the first satisfies a requirement of the second and they are different instances |
| HarnessGraphs.NodeIdInjective | src/nexus_ai_harness/harness/graph.py:91-95 | Two registrations never share a node id, whatever their class names |
| HarnessGraphs.HarnessGraph.CycleMembers | src/nexus_ai_harness/harness/graph.py:317-330 | Names exactly the plugins that lead back to themselves through requirements, in registration order; nobody exactly when none does |
| HarnessGraphs.HarnessGraph.HasCycle | src/nexus_ai_harness/harness/graph.py:177-179 | True exactly when some plugin depends on itself through others |
| HarnessGraphs.HarnessGraph.StartupOrder | src/nexus_ai_harness/harness/graph.py:164-175 | Succeeds exactly when no plugin depends on itself through others, and then returns every registration exactly once, each behind all that satisfy a requirement of it; otherwise the error names exactly the plugins on cycles, and at least one |
| PluginPaths.ProvidersBefore | src/nexus_ai_harness/harness/graph.py:164-175 | So, with every instance registered once, whatever satisfies a requirement of a plugin stands before it in the result |
| HarnessGraphs.Downstream | src/nexus_ai_harness/harness/graph.py:153-160 | The work list finds exactly the nodes that a path from the start leads to |
| HarnessGraphs.HarnessGraph.ImpactOf | src/nexus_ai_harness/harness/graph.py:145-162 | Returns exactly the plugins that depend on the given one, directly or through others, without itself; each once, providers first when an order exists and in registration order otherwise; an error exactly when nothing is referred to |
| HarnessGraphs.HarnessGraph.Ordered | src/nexus_ai_harness/harness/graph.py:309-315 | Exactly the chosen nodes, each once, in start-up order, or in registration order on a cyclic graph |
| HarnessGraphs.HarnessGraph.Resolve | src/nexus_ai_harness/harness/graph.py:293-304 | The last registration of an instance, or the first plugin with that name or qualified name; an error exactly if there is none |
| HarnessGraphs.HarnessGraph.UnmetRequirements | src/nexus_ai_harness/harness/graph.py:181-190 | Lists exactly the requirements that no other plugin satisfies |
| HarnessGraphs.MetIffWired | src/nexus_ai_harness/harness/graph.py:98-112 | A requirement counts as met exactly when the graph has an edge for it |
| Requirements.FindUnmet | src/nexus_ai_harness/harness/validation.py:40-66 | Lists exactly the plugins' requirements that no other plugin satisfies; none exactly when all are met |
| MemoryCache.TakeKeepsInv | src/nexus_ai_harness/plugins/memory/file.py:235-270 | As long as signatures tell, every step of a load, an eviction, or an outside change keeps the cache and all running calls explicable by the file's history |
| MemoryCache.LoadsAreLinearizable | src/nexus_ai_harness/plugins/memory/file.py:244-270 | In every interleaving over a history whose signatures tell, each load that has returned gave the parse of contents the file had at some moment during that load |
| MemoryCache.CacheIsNeverStale | src/nexus_ai_harness/plugins/memory/file.py:254-260 | A cached entry with the file's present signature holds its present contents, as long as signatures tell |
| MemoryCache.QuietLoadIsExact | src/nexus_ai_harness/plugins/memory/file.py:244-270 | If the file does not change from the load's start on, the load returns its present contents, whatever was cached before |
| MemoryCache.ReusedSignatureIsStale | src/nexus_ai_harness/plugins/memory/file.py:254-255 | A concrete run in which a replacement reuses a signature, the signatures do not tell, and a load returns contents that were never there while it ran |
| MemoryCache.SafeIffSignaturesTell | src/nexus_ai_harness/plugins/memory/file.py:244-270 | For every history of the directory: all loads of all interleavings over it return what was there while they ran if and only if, wherever a signature is seen again, the file parses to whatever it parsed to in between |
| MemoryCache.TwoLoads | src/nexus_ai_harness/plugins/memory/file.py:244-270 | Where that fails, two loads show it: one that stats and then reads late, and one that later finds the old signature and is given the cached item |
| MemoryCache.FreshRunTells | src/nexus_ai_harness/plugins/memory/file.py:253-255 | If every replacement has a signature the name never had, the signatures tell |
| MemoryCache.LoadIs | src/nexus_ai_harness/plugins/memory/file.py:244-270 | A load with nothing in between returns the cached item when the signature is the same and otherwise what the file parses to now, and leaves the cache accordingly: an entry for a parsed file, none for a missing or unreadable one |
| MemoryCache.EvictedIsParsed | src/nexus_ai_harness/plugins/memory/file.py:192-197 | What was evicted is parsed anew by the next load, whatever signature it has |
| MemoryCache.LoadedIsCached | src/nexus_ai_harness/plugins/memory/file.py:254-260 | A load that gave an item makes the next one give it again without parsing, as long as the file stays in place |
| JsonString.ReadsWhatItWrote | src/nexus_ai_harness/plugins/memory/file.py:316-316 | Reading a written JSON string gives the same string, for every string |
| JsonString.WritesPrintable | src/nexus_ai_harness/plugins/memory/file.py:316-316 | A written id is printable ASCII, so it stays on its header line |
| JsonString.ReadIs | src/nexus_ai_harness/plugins/memory/file.py:393-399 | For every text: exactly the JSON string literals of RFC 8259, section 7, are read, halves of surrogate pairs by themselves aside, and each as the text it stands for |
| JsonString.ShortEscapeIs | src/nexus_ai_harness/plugins/memory/file.py:316-316 | Quote, backslash and the five named controls are written by a letter behind a backslash, printable ASCII by itself |
| JsonString.LongEscapeIs | src/nexus_ai_harness/plugins/memory/file.py:316-316 | Any other character is written as its code in four hex digits or, beyond the basic plane, as the two units of its surrogate pair |
| Frontmatter.SplitFrontmatter | src/nexus_ai_harness/plugins/memory/file.py:364-390 | The line-by-line loop ends on every input and computes the split that the next row characterises |
| Frontmatter.SplitIs | src/nexus_ai_harness/plugins/memory/file.py:364-399 | For every text: if it begins with a header block, that is an opening line, blank lines and fields, and a closing line, the body is what follows the first closing line and the header has the first field with each key; otherwise the header is empty and the body is the whole text |
| Frontmatter.BodyIsSuffix | src/nexus_ai_harness/plugins/memory/file.py:364-390 | On every input the body is a suffix of the input |
| Frontmatter.SplitsWhatItWrote | src/nexus_ai_harness/plugins/memory/file.py:313-321 | Splitting a written memory gives its three header fields and its text with one newline, whatever the text contains |
| Frontmatter.ParsesWhatItWrote | src/nexus_ai_harness/plugins/memory/file.py:324-361 | The text and the id of a saved memory come back exactly |
| Frontmatter.VersionedTextIs | src/nexus_ai_harness/plugins/memory/file.py:330-331 | A file with the format version has as its text its body but for one newline at the end |
| Frontmatter.LegacyTextIs | src/nexus_ai_harness/plugins/memory/file.py:332-333 | A file without the format version has as its text the lines of its body, one newline between each two, stripped |
| Texts.StripIs | src/nexus_ai_harness/plugins/memory/file.py:333-333 | Stripping a text takes exactly the white space at either end |
| Frontmatter.CanonicalIdIs | src/nexus_ai_harness/plugins/memory/file.py:347-361 | The id is another than the stem exactly if the header has it, not empty, as this very file's name in other letter case |
| Frontmatter.SavedTextIsLoaded | src/nexus_ai_harness/plugins/memory/file.py:244-344 | Through the cache, a load during which the saved file stays in place returns the saved text, in every interleaving over a history whose signatures tell |
| TextLines.PiecesAppend | src/nexus_ai_harness/plugins/tools/_text.py:18-33 | Cut anywhere but between a carriage return and its newline, the lines of the whole are the joined lines of the parts |
| TextLines.LinesAreSplit | src/nexus_ai_harness/plugins/tools/_text.py:18-33 | The lines have no breaks in them and, with a newline, a carriage return, or both as one break between each two, are the text, but for an empty last line |
| TextLines.IterLines | src/nexus_ai_harness/plugins/tools/_text.py:41-79 | For every way of cutting a text into non-empty reads, yields exactly the split lines, of each its first characters up to the limit, flagged exactly when any are missing |
| TextLines.ExtendClips | src/nexus_ai_harness/plugins/tools/_text.py:82-89 | Extending the kept part of a line keeps exactly what clipping the longer line keeps |
| ReadFile.Read | src/nexus_ai_harness/plugins/tools/filesystem.py:143-187 | Shows the lines from the offset up to the farthest end within the line and character limits, at least one; reports an empty file or an offset behind the end, and whether and how far the file goes on, in both counting modes |
| ReadFile.ReadChunks | src/nexus_ai_harness/plugins/tools/filesystem.py:157-187 | The same of the file's text however it is read in |
| ReadFile.WindowShows | src/nexus_ai_harness/plugins/tools/filesystem.py:157-187 | A window shows each line's text, marked if it was cut, behind its number in six columns if wanted; at most the wanted number of lines and 50 000 characters, unless it is one line; and a line more would be too much |
| ReadFile.PagesCoverTheFile | src/nexus_ai_harness/plugins/tools/filesystem.py:177-187 | Following the suggested offsets with any positive limits never fails, shows every line once and in order, and ends after at most as many reads as there are lines |
| Messages.WholeGrows | src/nexus_ai_harness/plugins/context_manager/summarizing.py:272-284 | A cut that separates no result from its call stays so while the history grows and new results answer new calls |
| Cuts.BlockedCuts | src/nexus_ai_harness/plugins/context_manager/summarizing.py:457-474 | The set of cuts at a tool result or between a call and a result answering it, computed in one pass with the latest caller of each id |
| Cuts.UnblockedIsClean | src/nexus_ai_harness/plugins/context_manager/summarizing.py:457-474 | A cut is not blocked if and only if the tail behind it opens on no tool result and answers no earlier call |
| Cuts.SafeCut | src/nexus_ai_harness/plugins/context_manager/summarizing.py:442-454 | The nearest clean cut at or after the target, else the nearest before it but after the start, else the start |
| Cuts.ChooseCutoff | src/nexus_ai_harness/plugins/context_manager/summarizing.py:416-439 | The first cut that keeps at most the wanted number of messages, at least one, and fits the room, moved to the nearest clean cut |
| Layouts.SeamSeparates | src/nexus_ai_harness/plugins/context_manager/summarizing.py:143-162 | With notes between them, a head and a tail without adjacent user turns give a view without adjacent user turns |
| Layouts.ResultsFollowCalls | src/nexus_ai_harness/plugins/context_manager/summarizing.py:143-162 | In a view that keeps pairs, a result whose call an assistant made has that assistant message before it in the view |
| Layouts.ViewSays | src/nexus_ai_harness/plugins/context_manager/summarizing.py:128-162 | Between head and tail stands one user message: the head's last user text, the summary under its heading, the note with the number of omitted messages, and the tail's first user text, each only if there is one; without summary and note the view is head and tail |
| TextCuts.TruncatedMarksTheGap | src/nexus_ai_harness/plugins/context_manager/summarizing.py:108-116 | A cut text is a start and an end of the text in a share of two to one, and the note between them counts exactly the characters that are gone |
| TextCuts.TruncatedLength | src/nexus_ai_harness/plugins/context_manager/summarizing.py:108-116 | A short text stays as it is, and a cut one is no longer than its limit, or than the note if that alone is longer |
| TextCuts.CutIsTruncated | src/nexus_ai_harness/plugins/context_manager/summarizing.py:108-116 | That description leaves no choice: any text cut so is the one the function gives |
| TextCuts.NeverLonger | src/nexus_ai_harness/plugins/context_manager/summarizing.py:533-537 | A text long enough to be cut never comes out longer |
| TextCuts.OnlyCutTransitive | src/nexus_ai_harness/plugins/context_manager/summarizing.py:525-551 | Cutting a text that is already cut still spares the start and the end that the lowest limit has room for |
| TextCuts.EndsThatStay | src/nexus_ai_harness/plugins/context_manager/summarizing.py:108-116 | Of a text under a million million characters the first 86 and the last 43 survive, however often it is cut |
| Truncation.ShrinkKeepsShape | src/nexus_ai_harness/plugins/context_manager/summarizing.py:525-551 | Shrinking a message keeps its role, ids, call names and argument keys, lengthens neither its content nor any argument text, touches no short text, spares a start and an end of each long one, and leaves an unshrinkable message as it is |
| Truncation.LargestIsLargest | src/nexus_ai_harness/plugins/context_manager/summarizing.py:497-504 | The candidate picked is a largest of those that are not stuck and can be shrunk, of equals the latest |
| Truncation.PromptIsAnchored | src/nexus_ai_harness/plugins/context_manager/summarizing.py:348-355 | The prompt last sent counts what it really cost, and any other one differs from it by the difference of the estimates |
| Truncation.RoundDescends | src/nexus_ai_harness/plugins/context_manager/summarizing.py:486-511 | Each round lowers the sum of the messages' estimates, or leaves the tail and adds a stuck message, so the loop ends for every estimator |
| Truncation.FittedResult | src/nexus_ai_harness/plugins/context_manager/summarizing.py:476-511 | After truncation every tail message has its shape, no text is longer, and a start and an end of each long text have survived all rounds; and either the prompt fits the budget or each message that is still long was, in some round, the one to shrink and did not get smaller when shrunk by exactly that round's excess |
| Truncation.Truncate | src/nexus_ai_harness/plugins/context_manager/summarizing.py:476-511 | The loop leaves head and notes alone, and its tail comes about so: exactly the tool results over an eighth of the budget are cut first, and then, as long as the prompt is over budget and something gives, the largest message that is not stuck is cut to its estimate less the excess, or is stuck if it gets no smaller |
| Truncation.OversizedResultsAreCapped | src/nexus_ai_harness/plugins/context_manager/summarizing.py:485-490 | However it goes on, a long tool result over an eighth of the budget ends up within its share of that, or 200 characters, or its note |
| Truncation.OthersOnlyWhenOver | src/nexus_ai_harness/plugins/context_manager/summarizing.py:492-511 | Any other message is changed only if the prompt was over budget with those results already cut |
| Truncation.ShrunkOnce | src/nexus_ai_harness/plugins/context_manager/summarizing.py:495-510 | A message cut in one round only is cut for just that round's excess |
| Recaps.Chunks | src/nexus_ai_harness/plugins/context_manager/summarizing.py:615-624 | Every line is in exactly one chunk, in order; a joined chunk exceeds the limit only if it is one line; and no chunk has room for the first line of the next |
| Recaps.CapSummary | src/nexus_ai_harness/plugins/context_manager/summarizing.py:675-688 | A recap within the limit stays as it is; a longer one becomes, with a note, its start in proportion to the limit, up to the last line end in the second half of that room if there is one, without trailing white space; it is never empty |
| Recaps.Summarize | src/nexus_ai_harness/plugins/context_manager/summarizing.py:626-666 | Without a model, or when any request fails, there is no recap; otherwise the messages are told line by line, chunk after chunk is sent to the model together with the recap so far, and each answer is cut to the limit |
| Recaps.LinesTranscribe | src/nexus_ai_harness/plugins/context_manager/summarizing.py:590-606 | Each message with a text or calls is told in one line, its role, text and calls, shortened in the middle beyond 4000 characters; others are left out |
| Compaction.FoldedOk | src/nexus_ai_harness/plugins/context_manager/summarizing.py:317-322 | A successful fold extends the folded messages up to the new cut without gap or overlap, also when messages had been left out in between |
| Compaction.ViewKeepsPairs | src/nexus_ai_harness/plugins/context_manager/summarizing.py:280-284 | A view the state stands for contains no tool result whose assistant call was cut away |
| Compaction.ViewAlternates | src/nexus_ai_harness/plugins/context_manager/summarizing.py:143-162 | If the history has no adjacent user messages, neither has the view |
| Compaction.ShownAccounts | src/nexus_ai_harness/plugins/context_manager/summarizing.py:128-162 | Every message is accounted for in the view: the head is shown, with its user text cut to the limit if there is one, the folded ones are in the summary, those left out are counted, and the rest is shown with long texts cut at most |
| Compaction.HeadLimitIs | src/nexus_ai_harness/plugins/context_manager/summarizing.py:392-408 | The head is limited only when it takes more than half the budget, and then to its user text's share of what is left, at least 200 characters |
| Compaction.Compact | src/nexus_ai_harness/plugins/context_manager/summarizing.py:278-339 | One compaction on values: over the token budget the head is limited once, to its share of what is left of it; still over a budget, the tail begins at the chosen cutoff and what lies before is folded or, without a recap, left out; the layout is then fitted, and is over budget only when every long message was tried in vain; and the events are, in order, exactly one for a limited head, a moved cut, a cut tail and a new overrun |
| Compaction.Manager.Process | src/nexus_ai_harness/plugins/context_manager/summarizing.py:265-339 | Keeps the accounting of head, folded, omitted and verbatim messages, and returns a view that shows it, keeps tool pairs, makes no user turns adjacent, and is over budget only when every long message was tried in vain; records exactly the events of what was done, an overrun once |
| Compaction.Manager.Rewind | src/nexus_ai_harness/plugins/context_manager/summarizing.py:267-270 | Cuts made for a longer history are forgotten, and all others stay valid |
| Compaction.SettledIs | src/nexus_ai_harness/plugins/context_manager/summarizing.py:267-270 | The summary is given up exactly when the history has become shorter than one of its cuts |
| Compaction.Run | src/nexus_ai_harness/plugins/context_manager/summarizing.py:265-339 | Over a conversation that grows or is rewound, from wherever the manager is, with arbitrary estimators and models, every view keeps tool pairs and adjacency, and the summary ends up standing for exactly the messages up to its cut |
| Turns.GroupingIsUnique | src/nexus_ai_harness/plugins/models/anthropic.py:90-94 | Blocks can be grouped into strictly alternating, non-empty turns in only one way |
| Turns.ToMessages | src/nexus_ai_harness/plugins/models/anthropic.py:85-134 | Strictly alternating non-empty turns whose blocks are, in order and field by field, what the messages say: a text, a result with its call's id, an answer's text and calls, and nothing for system messages, whose texts make up the system text |
| Turns.ToContents | src/nexus_ai_harness/plugins/models/gemini.py:78-122 | The same of the contents in their own format, with tool results added one by one |
| Turns.BackendsAgree | src/nexus_ai_harness/plugins/models/anthropic.py:85-134 | Both formats carry the same turns, side by side and block by block |
| AgenticLoop.Session.Run | src/nexus_ai_harness/plugins/loops/agentic.py:41-126 | The run ends in the first iteration that does not go on, with its reason, text and events; the history holds, behind what it began with, for each iteration what was injected, the answer with its calls and, for each call in order, a tool message with its output, id and name; the prompts are the histories of its model calls |
| AgenticLoop.EndSays | src/nexus_ai_harness/plugins/loops/agentic.py:50-118 | What the caller is told, case by case: interruption first, then the guards and the limit, then the reply |
| AgenticLoop.TraceOfReturn | src/nexus_ai_harness/plugins/loops/agentic.py:50-126 | A run that returns has started and completed consecutive iterations in order and then stopped once, last of all, with the recorded reason |
| AgenticLoop.CallsWithinLimit | src/nexus_ai_harness/plugins/guards/max_iterations.py:17-20 | With an iteration limit and its counter, a run, ended or not, has called the model at most that many times |
| AgenticLoop.EachCallAnswered | src/nexus_ai_harness/plugins/loops/agentic.py:120-124 | Where the history holds an answer and its outputs, the k-th message behind the answer has the output of its k-th call, and the answer is the latest caller of that id |
| AgenticLoop.OnlyItsResultsAnswer | src/nexus_ai_harness/plugins/loops/agentic.py:120-124 | However the history goes on, the tool results that answer an answer's calls are exactly the messages right behind it, one for each call with an id |
| AgenticLoop.PromptsGrow | src/nexus_ai_harness/plugins/loops/agentic.py:97-126 | From one model call to the next the history only grows, and new results answer only new calls |
| Pipeline.RunIsConversation | src/nexus_ai_harness/plugins/loops/agentic.py:71-74 | The histories a loop run hands to its context manager are of the kind compaction is proved for |
| Pipeline.Requests | src/nexus_ai_harness/plugins/loops/agentic.py:71-83 | Through loop, compaction and conversion, every request of a run, the first or a later one of a session, has strictly alternating non-empty turns and no orphaned tool result |
| Lifecycle.StopBetweenStarts | src/nexus_ai_harness/harness/harness.py:77-157 | Between two successful starts of a plugin there is a stop |
| Lifecycle.StartPass | src/nexus_ai_harness/harness/harness.py:86-123 | A pass starts all plugins in order, or, when one raises, stops those it started, last one first, leaves them as they were and that one failed; statuses, calls and subscriptions stay in agreement |
| Lifecycle.StopPass | src/nexus_ai_harness/harness/harness.py:137-157 | Every started plugin is stopped, last one first, even if some stops raise |
| Lifecycle.SelectIs | src/nexus_ai_harness/harness/registry.py:104-113 | The plugins a pass starts or stops are those of the entries with the status, in the order of registration |
| Lifecycle.StopsReverse | src/nexus_ai_harness/harness/harness.py:100-157 | A rollback or a stop calls the stops in reverse order |
| Lifecycle.Harness.Start | src/nexus_ai_harness/harness/harness.py:77-126 | Refused, with exactly the unmet requirements and nothing changed, if and only if some registered plugin requires what no other one provides; otherwise a failure leaves only the failing plugin changed, and on success everything startable is up |
| Lifecycle.Harness.StopAll | src/nexus_ai_harness/harness/harness.py:128-157 | Afterwards nothing is started, and nothing happens on a harness that is not started |
| Lifecycle.Harness.Unuse | src/nexus_ai_harness/harness/harness.py:34-41 | A started plugin is stopped before it is removed, and stays if its stop raises; otherwise exactly its entries and subscriptions go |
| Lifecycle.Harness.Replace | src/nexus_ai_harness/harness/registry.py:70-84 | Refused on a started harness, for a plugin of another kind, and without a match; otherwise the new plugin stands in the place of the first match, and the other matches and the subscriptions of all of them go |
| Lifecycle.StartedAsOftenAsRegistered | src/nexus_ai_harness/harness/registry.py:104-113 | The plugins a pass is to start contain each one as often as it has registered, unstarted entries |
| Lifecycle.StartsAreLegalIff | src/nexus_ai_harness/harness/harness.py:86-98 | A pass that goes well starts no plugin that is up if and only if every plugin has at most one registered, unstarted entry, and none while it is started |
| Lifecycle.RaisingPassIsLegalIff | src/nexus_ai_harness/harness/harness.py:90-123 | A pass in which some start raises, with its rollback, makes no call out of turn if and only if the same holds of the entries up to that one |
| Lifecycle.SetStatusMatches | src/nexus_ai_harness/harness/registry.py:86-95 | With several entries a plugin, the statuses still say which plugins are up after each call, unless a start raises while the plugin is up |
| Lifecycle.EveryPassIsLegalIff | src/nexus_ai_harness/harness/harness.py:77-126 | Two or more passes that go well start no plugin that is up if and only if no plugin with a lifecycle is registered twice, whatever the statuses |
| Lifecycle.StartsWellFormed | src/nexus_ai_harness/harness/harness.py:90-98 | Starting a list of plugins is legal if and only if none is listed twice and none is up |
| Lifecycle.RegisteredTwiceStartsTwice | src/nexus_ai_harness/harness/registry.py:104-113 | A plugin used, started and used again, or used twice, is started while it is up |
| Lifecycle.FailedAndUsedAgain | src/nexus_ai_harness/harness/registry.py:104-113 | A plugin used again after its start failed is started in order by the next pass, and while it is up by the one after |
| ShellSession.ShellState.Finish | src/nexus_ai_harness/plugins/tools/shell.py:222-238 | After any interleaving of starts and ends, the directory is the one reported by the highest ticket among the finished calls that moved, or the first one if none moved; a call moved if it ended elsewhere than it was started |
| ShellSession.OrderDoesNotMatter | src/nexus_ai_harness/plugins/tools/shell.py:224-236 | The same finished calls in any other order leave the session in the same directory |
| ShellSession.ApplyEnvChanges | src/nexus_ai_harness/plugins/tools/shell.py:87-97 | The last 256 variables of the merged ones are kept, or all if there are fewer |
| ShellSession.LookupMerge | src/nexus_ai_harness/plugins/tools/shell.py:96-96 | A merged variable has its changed value if it was changed and its old one otherwise |
| ShellSession.MergeKeepsOrder | src/nexus_ai_harness/plugins/tools/shell.py:96-96 | Known variables keep their places, and new ones come behind them in order, which is what the oldest are |
| ShellScan.Step | src/nexus_ai_harness/services/shell.py:285-328 | On every input and in every state the scan's index moves on or passes the end |
| ShellScan.Expansion | src/nexus_ai_harness/services/shell.py:427-465 | Every expansion, complete or not, ends behind the dollar sign it started at |
| ShellScan.Tokenize | src/nexus_ai_harness/services/shell.py:285-328 | The single pass ends on every input and computes the specified tokens and findings |
| ShellScan.SkipOptions | src/nexus_ai_harness/services/shell.py:601-630 | What is left behind a wrapper's options is never longer than what there was, so following wrappers ends |
| ShellScan.WrapperRunsTheEnd | src/nexus_ai_harness/services/shell.py:601-630 | What a wrapper runs is an end of its words, whatever options, operands and assignments it has |
| ShellScan.ScanCommand | src/nexus_ai_harness/services/shell.py:203-248 | The loop over the tokens computes the scan that ScanListsFiles, ScanFinds and the laws of the commands characterise |
| ShellListing.ScanListsFiles | src/nexus_ai_harness/services/shell.py:203-265 | In terms of the tokens of any command string: the scan lists exactly the redirections to files with literal targets outside of home directories, operator and text, in order |
| ShellListing.ScanFinds | src/nexus_ai_harness/services/shell.py:203-265 | Beyond what the pass over the characters noted, the scan has the programs, assignments and directories of the simple commands in order, repeats exactly if one of them or a function definition does, and reports exactly what they report and the redirections to computed files and home directories |
| ShellEffects.AnalyzeAdds | src/nexus_ai_harness/services/shell.py:468-540 | The analysis of a command adds the same findings whatever was found before, and no redirections |
| ShellCommands.WrapperRuns | src/nexus_ai_harness/services/shell.py:508-540 | For each wrapper, with its options, values, end marker, operands and env's assignments: it is listed, the assignments are noted, and just the command behind them is analysed |
| ShellCommands.WrappedIsListed | src/nexus_ai_harness/services/shell.py:601-630 | So a program behind a wrapper is listed right after it |
| ShellCommands.ExecRuns | src/nexus_ai_harness/services/shell.py:520-522 | exec, command and builtin are not listed; the command behind their options is analysed |
| ShellCommands.EnvSplits | src/nexus_ai_harness/services/shell.py:593-619 | env with -S or any abbreviation of --split-string is reported and not followed |
| ShellCommands.FindRuns | src/nexus_ai_harness/services/shell.py:528-534 | find is listed, and then what the command behind each of its four actions adds, in order |
| ShellCommands.UnseenIsReported | src/nexus_ai_harness/services/shell.py:511-519 | A computed program name, and each word that evaluates code, is reported and nothing of it listed |
| ShellCommands.ProgramIsListed | src/nexus_ai_harness/services/shell.py:523-537 | Any other program is listed, and nothing more but the directory of pushd and popd |
| ShellCommands.InertRunsNothing | src/nexus_ai_harness/services/shell.py:523-527 | A builtin that runs nothing is not listed; cd adds its directory |
| ShellCommands.InertReports | src/nexus_ai_harness/services/shell.py:556-568 | printf -v, test -v and -R, and set -a in any bundle are reported, and the other builtins without names report nothing |
| ShellCommands.BuiltinAssigns | src/nexus_ai_harness/services/shell.py:569-590 | Each argument of export, declare, read and the like that is no option assigns its name, and is reported if the name cannot be told |
| ShellCommands.DirectoryIs | src/nexus_ai_harness/services/shell.py:543-553 | A directory is noted exactly if there is one operand, literal and neither empty, an option, a stack entry nor in a home directory |
| ShellCommands.KeywordIsPassed | src/nexus_ai_harness/services/shell.py:487-493 | Each reserved word in front of a command is passed over, and while and until repeat it |
| ShellCommands.FunctionIsPassed | src/nexus_ai_harness/services/shell.py:483-486 | A function's name is passed over, and its commands may repeat |
| ShellCommands.LoopAssigns | src/nexus_ai_harness/services/shell.py:474-482 | for and select assign their variable, reported if it cannot be told, and run nothing |
| ShellCommands.AssignmentIsNoted | src/nexus_ai_harness/services/shell.py:494-498 | NAME= and NAME+= in front of a command, if written plainly, are noted and passed over |
| ShellCommands.TheRestIsTheCommand | src/nexus_ai_harness/services/shell.py:468-500 | What is neither keyword nor assignment is the command word |
| ShellCharacters.OperatorIsLongest | src/nexus_ai_harness/services/shell.py:17-41 | Of the operators the text goes on with, the longest is read |
| ShellCharacters.OperatorIsRead | src/nexus_ai_harness/services/shell.py:352-374 | An operator ends the word before it, is a token, and reports what it opens; a line break goes on behind the here-documents due |
| ShellCharacters.DescriptorIs | src/nexus_ai_harness/services/shell.py:352-360 | A bare number or {NAME} in front of a redirection is no word, and the name is assigned; nothing else is taken so |
| ShellCharacters.HeredocIsSkipped | src/nexus_ai_harness/services/shell.py:376-392 | A here-document's lines are skipped up to its delimiter, tabs aside if they do not count, and reported exactly if they can run code |
| ShellCharacters.ExpansionIs | src/nexus_ai_harness/services/shell.py:427-465 | What each form of expansion reports, and where it ends |
| ShellCharacters.AnsiIsSkipped | src/nexus_ai_harness/services/shell.py:449-454 | A $'...' string ends at its first quote without a backslash |
| ShellCharacters.EscapedIsRead | src/nexus_ai_harness/services/shell.py:404-424 | Between double quotes, with backslashes before what is special, any text is read as itself |
| ShellCharacters.PlainPartIs | src/nexus_ai_harness/services/shell.py:330-338 | How much of a word was written plainly is settled by its first quote or expansion |
| ShellCharacters.BackslashIs | src/nexus_ai_harness/services/shell.py:308-313 | A backslash quotes the character behind it, and joins two lines |
| ShellCharacters.BackquoteIs | src/nexus_ai_harness/services/shell.py:314-317 | A backquote makes the word computed and is reported |
| ShellCharacters.UnclosedIsReported | src/nexus_ai_harness/services/shell.py:297-304 | A single quote that is not closed is reported and takes in the rest |
| ShellCharacters.UnclosedDoubleIsReported | src/nexus_ai_harness/services/shell.py:404-424 | So is a double quote that the text ends in |
| ShellCharacters.CharacterIsAdded | src/nexus_ai_harness/services/shell.py:321-326 | Any other character goes on the word, and a pattern's marks it unless it is a brace by itself |
| ShellCharacters.WordIsEnded | src/nexus_ai_harness/services/shell.py:340-350 | A marked word becomes a computed one, but for a test's bracket; after << it is the delimiter |
| ShellCharacters.CommentIsSkipped | src/nexus_ai_harness/services/shell.py:292-294 | A comment reaches to the end of its line |
| ShellPlain.LexPlain | src/nexus_ai_harness/services/shell.py:285-374 | On plain words, blanks and separators the pass yields exactly the words and operators in order and reports nothing |
| ShellPlain.PlainCommandsAreListed | src/nexus_ai_harness/services/shell.py:203-540 | For commands of plain words whose first words just name programs, the scan lists exactly these first words in order, with nothing opaque, assigned, redirected or entered |
| ShellQuoted.LexQuoted | src/nexus_ai_harness/services/shell.py:299-316 | A single-quoted text, with its own quotes behind backslashes, is read as exactly this text |
| ShellQuoted.QuotedIsReadBack | src/nexus_ai_harness/services/shell.py:285-350 | Any argument vector, quoted and joined with blanks, is read back word for word |
| ShellReports.LexGrows | src/nexus_ai_harness/services/shell.py:285-465 | From any state on, the pass keeps all it has, and adds only reports and assignments, in order |
| ShellReports.TokensGrow | src/nexus_ai_harness/services/shell.py:203-630 | Nor does the analysis of any tokens forget anything |
| ShellReports.SubstitutionIsReported | src/nexus_ai_harness/services/shell.py:314-320 | Wherever the pass stands at a command substitution or arithmetic expansion outside of quotes, after whatever words, quotes, operators, here-documents and comments, the scan is opaque, however the command goes on |
| ShellReports.QuotedSubstitutionIsReported | src/nexus_ai_harness/services/shell.py:404-465 | The same between double quotes, wherever they open and whatever escapes and expansions come before it inside them |
| ShellReports.PlainSubstitutionIsReported | src/nexus_ai_harness/services/shell.py:314-320 | In terms of the text alone: behind any plain words, blanks and separators one is reported |
| PossibleCwds.Possible | src/nexus_ai_harness/plugins/sandbox/workspace.py:309-332 | The directories are known exactly under the stated conditions, and are then exactly those that some in-order choice among the targets leads to |
| PossibleCwds.SomeMaskChooses | src/nexus_ai_harness/plugins/sandbox/workspace.py:329-331 | The masks miss no subset of the targets |
| PossibleCwds.NoRedirectionIsMissed | src/nexus_ai_harness/plugins/sandbox/workspace.py:309-332 | Whichever directory changes take effect, and whatever subshells undo, every redirection resolves against one of the directories that some in-order choice among the changes leads to |
| CommandCwds.ScanListsCds | src/nexus_ai_harness/services/shell.py:203-248 | The scan of any command string lists exactly the directory changes of its simple commands, in order |
| CommandCwds.PlainCd | src/nexus_ai_harness/services/shell.py:508-553 | A cd to a literal operand is one change, to this operand |
| CommandCwds.PossibleFor | src/nexus_ai_harness/plugins/sandbox/workspace.py:287-332 | From the string to the directories: they are known exactly under the stated conditions on its scan, and are then exactly those its own changes can lead to |
| CommandCwds.ProgramMissesNone | src/nexus_ai_harness/plugins/sandbox/workspace.py:302-332 | For every string that reads as simple commands and nested subshells, every redirection resolves against a listed directory, whichever changes take effect |
| Braces.ExpandBraces | src/nexus_ai_harness/plugins/tools/search.py:68-91 | Ends, and returns the first 64 patterns of the uncapped expansion, or all if there are fewer, whatever was cut along the way |
| Braces.ExpandIs | src/nexus_ai_harness/plugins/tools/search.py:68-91 | The uncapped expansion of every pattern: without a group with options only itself; otherwise, for each option of the first such group in order, the expansions of the pattern with the option in the group's place |
| Braces.FullyExpanded | src/nexus_ai_harness/plugins/tools/search.py:68-91 | No pattern of the uncapped expansion has a group left to expand |
| Braces.OptionOpensFewer | src/nexus_ai_harness/plugins/tools/search.py:84-88 | Putting an option in its group's place leaves fewer open braces |
| Braces.SplitTopLevel | src/nexus_ai_harness/plugins/tools/search.py:94-105 | The loop computes the split at the commas that no brace encloses |
| Braces.SplitJoins | src/nexus_ai_harness/plugins/tools/search.py:94-105 | Joining the parts with commas restores the text |
| Braces.SplitIsComplete | src/nexus_ai_harness/plugins/tools/search.py:94-105 | No part has a comma left outside of braces |

## Left out

- Compaction.Manager.Process: the history must grow, be rewound, or become shorter than the cuts between two calls; a history replaced by an unrelated one at least as long keeps the old cuts in the program too.
- Compaction.Run: one manager for each conversation; several chained managers, and what a restored session remembers, are not modelled.
- AgenticLoop.PromptsGrow: messages injected by interventions are assumed not to be tool results, and interventions not to rewrite the history.
- AgenticLoop.CallsWithinLimit: the other guards are consulted before the iteration limit; their order only decides which reason is given.
- Lifecycle.Harness.Start: ordinary exceptions only; a cancellation while a pass is rolled back can leave plugins started.
- Lifecycle.Harness.Use: the same instance is registered once, in one harness; `clone` and concurrent registration are not modelled. The registry's entries and subscriptions are fields of the harness.
- HarnessGraphs.HarnessGraph.constructor: what `isinstance` says is a set of kind names for each plugin; rendering, `to_dict` and `diff` are left out.
- Graphs.Graph.AddNode: payloads are values; node objects that callers hold and change are not modelled.
- MemoryCache.LoadsAreLinearizable: the file system's locks and the atomic write are one replacing step; undecodable contents parse to nothing; an entry is its text.
- Frontmatter.ParsesWhatItWrote: the time stamp is any one-line value that is not quoted, and its conversion to a float is left out; ids have no lone surrogates; letter-case folding and file identity are parameters.
- JsonString.ReadIs: half of a surrogate pair by itself, which the program reads, is no character here and is not read.
- ShellScan.Step: the lexer's state and the scan are values passed from step to step instead of fields updated in place; names and digits are ASCII.
- ShellScan.ScanCommand: the texts of findings are constructors; running a command, its driver script and `_env_changes` are left out.
- ShellSession.ShellState.Finish: the workspace root stays the same during a session.
- PossibleCwds.Possible: which targets are relative and free of `..`, and resolving the joined path against the sandbox, are left to the outside.
- CommandCwds.ProgramMissesNone: every change is made at most once, so loops and functions, which can repeat one, are not covered; the scan marks `while`, `until` and functions as repeating, and lists the variable of `for` and `select` as an assignment, which the sandbox refuses first.
- Recaps.CapSummary: the kept length is the exact quotient.
- Turns.ToMessages: the Bedrock conversion repeats the Anthropic one.
- Truncation of tool output, globs as regular expressions, grep rendering, exact-text edits, interceptors around invocations and the changelog script are not modelled.
- Provider clients, pricing, BM25 ranking, sandboxes of the operating system, and asynchronous scheduling beyond explicit steps are not modelled.
