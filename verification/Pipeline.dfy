/** From the loop's history to the provider's turns, over a whole run. */
module Pipeline {
  import opened Wrappers
  import opened Messages
  import opened Layouts
  import AgenticLoop
  import Compaction
  import Turns

  /** The prompts of a run are a conversation, which is what compaction needs to keep its cuts valid. */
  lemma RunIsConversation(h0: seq<Message>, steps: seq<AgenticLoop.Step>, limit: Option<nat>,
                          prompts: seq<seq<Message>>, turns: seq<Compaction.Turn>)
    requires AgenticLoop.Prompted(prompts, h0, steps, limit)
    requires forall s :: s in steps ==> AgenticLoop.NoResults(s.injected)
    requires |turns| == |prompts| && forall k :: 0 <= k < |turns| ==> turns[k].history == prompts[k]
    ensures Compaction.Conversation(turns)
  {
    hide AgenticLoop.PromptedAt, AgenticLoop.NoResults, Grows;
    forall i, j | 0 <= i < j < |turns| && j == i + 1 ensures Grows(turns[i].history, turns[j].history) {
      assert steps[j] in steps;
      AgenticLoop.PromptsGrow(h0, steps, limit, prompts, i);
    }
  }

  /**
    What a backend sends in a run of the loop, with the context manager in between:
    in every request the turns alternate strictly and none is empty, and no tool
    result goes out without the assistant call it answers, whatever the model, the
    tools, the estimator and the summarizing model do. The manager may be new or
    may have served earlier runs of the same session.
   */
  method Requests(m: Compaction.Manager, turns: seq<Compaction.Turn>, ghost h0: seq<Message>,
                  ghost steps: seq<AgenticLoop.Step>, ghost limit: Option<nat>, ghost prompts: seq<seq<Message>>)
    returns (views: seq<seq<Message>>, requests: seq<seq<Turns.Turn<Turns.AnthropicBlock>>>)
    requires m.Inv() && (turns != [] ==> Compaction.Continues(m.seen, turns[0].history, m.State()))
    requires AgenticLoop.Prompted(prompts, h0, steps, limit)
    requires forall s :: s in steps ==> AgenticLoop.NoResults(s.injected)
    requires |turns| == |prompts| && forall k :: 0 <= k < |turns| ==> turns[k].history == prompts[k]
    modifies m
    ensures m.Inv() && (turns != [] ==> m.seen == turns[|turns| - 1].history)
    ensures |views| == |requests| == |prompts|
    ensures forall k :: 0 <= k < |prompts| ==> KeepsPairs(prompts[k], views[k])
    ensures forall k :: 0 <= k < |prompts| ==> Turns.Groups(requests[k], views[k], Turns.ToBlock)
    ensures forall k :: 0 <= k < |prompts| ==> Turns.Alternates(requests[k])
  {
    hide *;
    RunIsConversation(h0, steps, limit, prompts, turns);
    views := Compaction.Run(m, turns);
    requests := ToRequests(views);
    forall k | 0 <= k < |prompts| ensures KeepsPairs(prompts[k], views[k]) {
      assert turns[k].history == prompts[k];
    }
  }

  /** Each view is converted on its own. */
  method ToRequests(views: seq<seq<Message>>) returns (requests: seq<seq<Turns.Turn<Turns.AnthropicBlock>>>)
    ensures |requests| == |views|
    ensures forall k :: 0 <= k < |views| ==> Turns.Groups(requests[k], views[k], Turns.ToBlock)
    ensures forall k :: 0 <= k < |views| ==> Turns.Alternates(requests[k])
  {
    hide *;
    requests := [];
    for k := 0 to |views|
      invariant |requests| == k
      invariant forall i :: 0 <= i < k ==> Turns.Groups(requests[i], views[i], Turns.ToBlock)
      invariant forall i :: 0 <= i < k ==> Turns.Alternates(requests[i])
    {
      var system, messages := Turns.ToMessages(views[k]);
      Turns.GroupsAlternate(messages, views[k], Turns.ToBlock);
      requests := requests + [messages];
    }
  }
}
