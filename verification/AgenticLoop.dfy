/** The loop that calls the model and runs its tool calls until it answers without any. */
module AgenticLoop {
  import opened Wrappers
  import opened Messages
  import Decimal

  /** How a model call ends. A failure that is not the model's is not caught. */
  datatype Reply =
    | Answer(text: string, calls: seq<Call>)
    | ModelFailure(error: string, interrupted: bool)
    | OtherFailure

  /** Everything the outside decides in one iteration. */
  datatype Step = Step(
    interrupted: bool,
    injected: seq<Message>,
    guard: Option<string>,
    reply: Reply,
    guardAfter: Option<string>,
    output: nat -> string)

  datatype Event =
    | IterationStarted(i: nat)
    | IterationCompleted(i: nat)
    | LoopStopped(reason: string)
    | ModelCallFailed(error: string)
    | ResponseReceived(text: string, calls: seq<Call>)

  function AssistantMessage(text: string, calls: seq<Call>): Message {
    Message(Assistant, text, Generated, calls, None, None)
  }

  function ResultMessage(c: Call, content: string): Message {
    Message(Tool, content, Generated, [], c.id, Some(c.name))
  }

  /** One result for each call, in the order of the calls. */
  function Results(calls: seq<Call>, output: nat -> string): seq<Message> {
    seq(|calls|, k requires 0 <= k < |calls| => ResultMessage(calls[k], output(k)))
  }

  // ----- one iteration -----

  /** How iteration i ends: it goes on to the next, or the run is over. */
  datatype End =
    | GoesOn
    | Interrupted
    | Guarded(reason: string)
    | Failed(error: string, interrupted: bool)
    | Raised
    | Answered(text: string, guarded: Option<string>)

  function EndOf(i: nat, s: Step, limit: Option<nat>): End {
    if s.interrupted then Interrupted
    else
      var decision := Check(i, s.guard, limit);
      if decision.Some? then Guarded(decision.value)
      else
        match s.reply
        case ModelFailure(error, interrupted) => Failed(error, interrupted)
        case OtherFailure => Raised
        case Answer(text, calls) => if calls != [] then GoesOn else Answered(text, Check(i, s.guardAfter, limit))
  }

  function Reached(limit: nat): string {
    "reached " + Decimal.Numeral(limit) + " iterations"
  }

  /** The other guards, then the iteration limit, which the counter keeps informed of the iteration. */
  function Check(i: nat, other: Option<string>, limit: Option<nat>): Option<string> {
    if other.Some? then other
    else if limit.Some? && i >= limit.value then Some(Reached(limit.value))
    else None
  }

  /** Whether the iteration gets as far as calling the model. */
  predicate CallsModel(e: End) {
    !e.Interrupted? && !e.Guarded?
  }

  /** How often a run has called the model once its first i iterations have gone on and the next, if any, has ended. */
  function ModelCalls(steps: seq<Step>, i: nat, limit: Option<nat>): nat {
    if i < |steps| && CallsModel(EndOf(i, steps[i], limit)) then i + 1 else i
  }

  /** Why the run stopped; a run that an exception ended has no reason. */
  function Reason(e: End): string {
    match e
    case GoesOn => ""
    case Interrupted => "interrupted"
    case Guarded(reason) => "guard: " + reason
    case Failed(_, interrupted) => if interrupted then "interrupted" else "model_error"
    case Raised => ""
    case Answered(_, None) => "completed"
    case Answered(_, Some(reason)) => "guard: " + reason
  }

  /** What the caller gets. */
  function Output(e: End): Option<string> {
    match e
    case GoesOn => None
    case Interrupted => Some("stopped: interrupted")
    case Guarded(reason) => Some("stopped: " + reason)
    case Failed(error, interrupted) =>
      Some(if interrupted then "stopped: interrupted" else "stopped: model error: " + error)
    case Raised => None
    case Answered(text, None) => Some(text)
    case Answered(_, Some(reason)) => Some("stopped: " + reason)
  }

  /** What the caller is told, case by case of what happens in the iteration. */
  lemma EndSays(i: nat, s: Step, limit: Option<nat>)
    ensures var e := EndOf(i, s, limit);
            var over := limit.Some? && i >= limit.value;
            var stop := if over then "reached " + Decimal.Numeral(limit.value) + " iterations" else "";
            if s.interrupted then !CallsModel(e) && Says(e, "interrupted", "stopped: interrupted")
            else if s.guard.Some? then !CallsModel(e) && Says(e, "guard: " + s.guard.value, "stopped: " + s.guard.value)
            else if over then !CallsModel(e) && Says(e, "guard: " + stop, "stopped: " + stop)
            else
              && CallsModel(e)
              && match s.reply
                 case OtherFailure => e.Raised? && Output(e) == None
                 case ModelFailure(error, interrupted) =>
                   if interrupted then Says(e, "interrupted", "stopped: interrupted")
                   else Says(e, "model_error", "stopped: model error: " + error)
                 case Answer(text, calls) =>
                   if calls != [] then e.GoesOn? && Output(e) == None
                   else if s.guardAfter.Some?
                   then Says(e, "guard: " + s.guardAfter.value, "stopped: " + s.guardAfter.value)
                   else Says(e, "completed", text)
  {
  }

  /** The run is over, for this reason and with this text. */
  predicate Says(e: End, reason: string, text: string) {
    !e.GoesOn? && Reason(e) == reason && Output(e) == Some(text)
  }

  // ----- the history -----

  /** The first i iterations all go on. */
  ghost predicate AllGoOn(steps: seq<Step>, i: nat, limit: Option<nat>) {
    i <= |steps| && forall j {:trigger steps[j]} :: 0 <= j < i ==> EndOf(j, steps[j], limit).GoesOn?
  }

  /** What the model's reply adds to the history: the answer, and a result for each of its calls. */
  function AddsReply(s: Step, e: End): seq<Message>
    requires e.GoesOn? ==> s.reply.Answer?
  {
    match e
    case GoesOn => [AssistantMessage(s.reply.text, s.reply.calls)] + Results(s.reply.calls, s.output)
    case Answered(text, _) => [AssistantMessage(text, [])]
    case _ => []
  }

  /** What an iteration adds. */
  function Adds(s: Step, e: End): seq<Message>
    requires e.GoesOn? ==> s.reply.Answer?
  {
    if e.Interrupted? then [] else s.injected + AddsReply(s, e)
  }

  ghost function Before(h0: seq<Message>, steps: seq<Step>, i: nat, limit: Option<nat>): seq<Message>
    requires AllGoOn(steps, i, limit)
  {
    if i == 0 then h0
    else
      assert EndOf(i - 1, steps[i - 1], limit).GoesOn?;
      Before(h0, steps, i - 1, limit) + Adds(steps[i - 1], GoesOn)
  }

  /** The history the model is called with in iteration i. */
  ghost function Prompt(h0: seq<Message>, steps: seq<Step>, i: nat, limit: Option<nat>): seq<Message>
    requires AllGoOn(steps, i, limit) && i < |steps|
  {
    Before(h0, steps, i, limit) + steps[i].injected
  }

  ghost predicate PromptedAt(prompt: seq<Message>, h0: seq<Message>, steps: seq<Step>, k: nat, limit: Option<nat>) {
    AllGoOn(steps, k, limit) && k < |steps| && prompt == Prompt(h0, steps, k, limit)
  }

  /** Each prompt is the history of its iteration. */
  ghost predicate Prompted(prompts: seq<seq<Message>>, h0: seq<Message>, steps: seq<Step>, limit: Option<nat>) {
    && |prompts| <= |steps|
    && forall k {:trigger prompts[k]} :: 0 <= k < |prompts| ==> PromptedAt(prompts[k], h0, steps, k, limit)
  }

  lemma OneMore(h0: seq<Message>, steps: seq<Step>, i: nat, limit: Option<nat>, prompts: seq<seq<Message>>)
    requires AllGoOn(steps, i, limit) && i < |steps| && |prompts| == i && Prompted(prompts, h0, steps, limit)
    ensures Prompted(prompts + [Before(h0, steps, i, limit) + steps[i].injected], h0, steps, limit)
    ensures EndOf(i, steps[i], limit).GoesOn? ==>
              && AllGoOn(steps, i + 1, limit)
              && Before(h0, steps, i + 1, limit) == Before(h0, steps, i, limit) + Adds(steps[i], GoesOn)
  {
    hide EndOf, Adds;
    assert PromptedAt(Before(h0, steps, i, limit) + steps[i].injected, h0, steps, i, limit);
  }

  // ----- the event trace -----

  /** The events of an iteration from the model call on. */
  function EventsOfCall(i: nat, s: Step, e: End): seq<Event>
    requires e.GoesOn? ==> s.reply.Answer?
  {
    match e
    case GoesOn => [ResponseReceived(s.reply.text, s.reply.calls), IterationCompleted(i)]
    case Failed(error, _) => [ModelCallFailed(error), IterationCompleted(i), LoopStopped(Reason(e))]
    case Answered(text, _) => [ResponseReceived(text, []), IterationCompleted(i), LoopStopped(Reason(e))]
    case _ => []
  }

  /** The events of an iteration, in order. */
  function EventsOf(i: nat, s: Step, e: End): seq<Event>
    requires e.GoesOn? ==> s.reply.Answer?
  {
    match e
    case Interrupted => [LoopStopped(Reason(e))]
    case Guarded(_) => [IterationStarted(i), IterationCompleted(i), LoopStopped(Reason(e))]
    case _ => [IterationStarted(i)] + EventsOfCall(i, s, e)
  }

  /** The events of the first i iterations. */
  ghost function EventsBefore(steps: seq<Step>, i: nat, limit: Option<nat>): seq<Event>
    requires AllGoOn(steps, i, limit)
  {
    if i == 0 then []
    else
      assert EndOf(i - 1, steps[i - 1], limit).GoesOn?;
      EventsBefore(steps, i - 1, limit) + EventsOf(i - 1, steps[i - 1], GoesOn)
  }

  lemma EventsNext(steps: seq<Step>, i: nat, limit: Option<nat>)
    requires AllGoOn(steps, i + 1, limit)
    ensures AllGoOn(steps, i, limit) && steps[i].reply.Answer?
    ensures EventsBefore(steps, i + 1, limit) == EventsBefore(steps, i, limit) + EventsOf(i, steps[i], GoesOn)
  {
    assert EndOf(i, steps[i], limit).GoesOn?;
    hide EventsOf;
  }

  lemma CallsUnless(i: nat, s: Step, limit: Option<nat>)
    ensures EndOf(i, s, limit).GoesOn? ==> CallsModel(EndOf(i, s, limit)) && s.reply.Answer?
    ensures EndOf(i, s, limit).GoesOn? ==> Output(EndOf(i, s, limit)).None?
    ensures EndOf(i, s, limit).Raised? <==> Output(EndOf(i, s, limit)).None? && !EndOf(i, s, limit).GoesOn?
  {
  }

  // ----- the loop -----

  class Session {
    var history: seq<Message>
    var stopReason: string
    var events: seq<Event>
    /** The histories the model was called with. */
    ghost var prompts: seq<seq<Message>>

    constructor (history: seq<Message>)
      ensures this.history == history && events == [] && prompts == []
    {
      this.history, stopReason, events, prompts := history, "", [], [];
    }

    /** Ends the run: the reason is recorded, and reported last of all. */
    method Stop(reason: string, open: Option<nat>)
      modifies this`events, this`stopReason
      ensures stopReason == reason
      ensures events ==
              old(events) + (if open.Some? then [IterationCompleted(open.value)] else []) + [LoopStopped(reason)]
    {
      stopReason := reason;
      if open.Some? {
        events := events + [IterationCompleted(open.value)];
      }
      events := events + [LoopStopped(reason)];
    }

    /** Adds the result of every call, in order. */
    method RunTools(calls: seq<Call>, output: nat -> string)
      modifies this`history
      ensures history == old(history) + Results(calls, output)
    {
      for k := 0 to |calls|
        invariant history == old(history) + Results(calls, output)[..k]
      {
        history := history + [ResultMessage(calls[k], output(k))];
      }
    }

    /** The part of an iteration from the model call on. */
    method CallModel(i: nat, s: Step, limit: Option<nat>) returns (e: End)
      requires !s.interrupted && Check(i, s.guard, limit).None?
      modifies this
      ensures e == EndOf(i, s, limit) && CallsModel(e)
      ensures prompts == old(prompts) + [old(history)]
      ensures history == old(history) + AddsReply(s, e)
      ensures !e.GoesOn? && !e.Raised? ==> stopReason == Reason(e)
      ensures events == old(events) + EventsOfCall(i, s, e)
    {
      hide Results, Check;
      prompts := prompts + [history];
      if s.reply.OtherFailure? { return Raised; }
      if s.reply.ModelFailure? {
        events := events + [ModelCallFailed(s.reply.error)];
        Stop(if s.reply.interrupted then "interrupted" else "model_error", Some(i));
        return Failed(s.reply.error, s.reply.interrupted);
      }
      events := events + [ResponseReceived(s.reply.text, s.reply.calls)];
      history := history + [AssistantMessage(s.reply.text, s.reply.calls)];
      if s.reply.calls == [] {
        var post := Check(i, s.guardAfter, limit);
        e := Answered(s.reply.text, post);
        Stop(if post.Some? then "guard: " + post.value else "completed", Some(i));
        return;
      }
      RunTools(s.reply.calls, s.output);
      events := events + [IterationCompleted(i)];
      return GoesOn;
    }

    /** One iteration. */
    method Iterate(i: nat, s: Step, limit: Option<nat>) returns (e: End)
      modifies this
      ensures e == EndOf(i, s, limit)
      ensures history == old(history) + Adds(s, e)
      ensures prompts == old(prompts) + if CallsModel(e) then [old(history) + s.injected] else []
      ensures !e.GoesOn? && !e.Raised? ==> stopReason == Reason(e)
      ensures events == old(events) + EventsOf(i, s, e)
    {
      hide Check, Reached;
      if s.interrupted {
        Stop("interrupted", None);
        return Interrupted;
      }
      history := history + s.injected;
      events := events + [IterationStarted(i)];
      var decision := Check(i, s.guard, limit);
      if decision.Some? {
        Stop("guard: " + decision.value, Some(i));
        return Guarded(decision.value);
      }
      e := CallModel(i, s, limit);
    }

    /**
      A run; the steps say what happens from iteration to iteration, and the run
      takes as many of them as it needs, or all if none ends it.
     */
    method Run(steps: seq<Step>, limit: Option<nat>) returns (r: Option<string>, ghost i: nat)
      requires events == [] && prompts == []
      modifies this
      ensures AllGoOn(steps, i, limit)
      ensures i < |steps| ==>
                var e := EndOf(i, steps[i], limit);
                && !e.GoesOn? && r == Output(e) && (!e.Raised? ==> stopReason == Reason(e))
                && events == EventsBefore(steps, i, limit) + EventsOf(i, steps[i], e)
                && history == Before(old(history), steps, i, limit) + Adds(steps[i], e)
      ensures i == |steps| ==>
                && r.None? && events == EventsBefore(steps, i, limit)
                && history == Before(old(history), steps, i, limit)
      ensures |prompts| == ModelCalls(steps, i, limit)
      ensures (forall j {:trigger steps[j]} :: 0 <= j < i ==> steps[j].reply.Answer?)
              && Records(history, old(history), steps, i)
      ensures i < |steps| ==> EndRecorded(history, Reaches(old(history), steps, i), steps[i], EndOf(i, steps[i], limit))
      ensures Prompted(prompts, old(history), steps, limit)
    {
      var k := 0;
      i := 0;
      while k < |steps|
        invariant k <= |steps| && i == k && AllGoOn(steps, k, limit)
        invariant history == Before(old(history), steps, k, limit)
        invariant events == EventsBefore(steps, k, limit)
        invariant |prompts| == k && Prompted(prompts, old(history), steps, limit)
      {
        hide EndOf, Reason, Adds, AllGoOn, Before, Prompted, PromptedAt, CallsModel, EventsOf, EventsBefore, Output;
        CallsUnless(k, steps[k], limit);
        OneMore(old(history), steps, k, limit, prompts);
        if EndOf(k, steps[k], limit).GoesOn? { EventsNext(steps, k, limit); }
        ghost var before := prompts;
        assert before + [] == before;
        var e := Iterate(k, steps[k], limit);
        if !e.GoesOn? {
          AllRecorded(old(history), steps, k, limit, e, history);
          return Output(e), k;
        }
        k := k + 1;
        i := k;
      }
      BeforeRecords(old(history), steps, k, limit);
      return None, k;
    }
  }

  // ----- what follows for every run -----

  /** However far a run has come, it has called the model at most as often as the limit says. */
  lemma CallsWithinLimit(steps: seq<Step>, i: nat, limit: Option<nat>)
    requires AllGoOn(steps, i, limit) && limit.Some?
    ensures ModelCalls(steps, i, limit) <= limit.value
  {
    if i > 0 {
      assert EndOf(i - 1, steps[i - 1], limit).GoesOn?;
    }
  }

  predicate IsMark(e: Event) {
    e.IterationStarted? || e.IterationCompleted? || e.LoopStopped?
  }

  /** The events among these that say where the loop is. */
  function Marks(events: seq<Event>): seq<Event> {
    if events == [] then [] else (if IsMark(events[0]) then [events[0]] else []) + Marks(events[1..])
  }

  lemma {:induction false} MarksAppend(a: seq<Event>, b: seq<Event>)
    ensures Marks(a + b) == Marks(a) + Marks(b)
  {
    hide *;
    if a == [] {
      MarksNil();
      assert a + b == b;
    } else {
      var rest := a[1..];
      MarksAppend(rest, b);
      MarksCons(a[0], rest);
      MarksCons(a[0], rest + b);
      assert a == [a[0]] + rest && a + b == [a[0]] + (rest + b);
    }
  }

  /** Started and completed, for the first n iterations. */
  function Pairs(n: nat): seq<Event> {
    if n == 0 then [] else Pairs(n - 1) + [IterationStarted(n - 1), IterationCompleted(n - 1)]
  }

  lemma MarksOfIteration(i: nat, s: Step, e: End)
    requires e.GoesOn? ==> s.reply.Answer?
    ensures e.GoesOn? ==> Marks(EventsOf(i, s, e)) == [IterationStarted(i), IterationCompleted(i)]
    ensures Output(e).Some? ==>
              Marks(EventsOf(i, s, e)) ==
              (if e.Interrupted? then [] else [IterationStarted(i), IterationCompleted(i)]) + [LoopStopped(Reason(e))]
  {
    hide Reason, Marks;
    var stop, done := LoopStopped(Reason(e)), IterationCompleted(i);
    MarksCons(stop, []);
    MarksCons(done, []);
    MarksCons(done, [stop]);
    assert [stop] + [] == [stop] && [done] + [] == [done] && [done] + [stop] == [done, stop];
    match e
    case Interrupted =>
    case Guarded(_) =>
      MarksCons(IterationStarted(i), [done, stop]);
      assert [IterationStarted(i)] + [done, stop] == EventsOf(i, s, e);
    case GoesOn =>
      MarksCons(ResponseReceived(s.reply.text, s.reply.calls), [done]);
      assert [ResponseReceived(s.reply.text, s.reply.calls)] + [done] == EventsOfCall(i, s, e);
      MarksCons(IterationStarted(i), EventsOfCall(i, s, e));
    case Failed(error, _) =>
      MarksCons(ModelCallFailed(error), [done, stop]);
      assert [ModelCallFailed(error)] + [done, stop] == EventsOfCall(i, s, e);
      MarksCons(IterationStarted(i), EventsOfCall(i, s, e));
    case Answered(text, _) =>
      MarksCons(ResponseReceived(text, []), [done, stop]);
      assert [ResponseReceived(text, [])] + [done, stop] == EventsOfCall(i, s, e);
      MarksCons(IterationStarted(i), EventsOfCall(i, s, e));
    case Raised =>
  }

  lemma MarksCons(e: Event, rest: seq<Event>)
    ensures Marks([]) == [] && Marks([e] + rest) == (if IsMark(e) then [e] else []) + Marks(rest)
  {
    assert ([e] + rest)[1..] == rest;
  }

  lemma MarksNil()
    ensures Marks([]) == []
  {
  }

  lemma {:induction false} MarksBefore(steps: seq<Step>, i: nat, limit: Option<nat>)
    requires AllGoOn(steps, i, limit)
    ensures Marks(EventsBefore(steps, i, limit)) == Pairs(i)
  {
    if i > 0 {
      EventsNext(steps, i - 1, limit);
      MarksBefore(steps, i - 1, limit);
      MarksOfIteration(i - 1, steps[i - 1], GoesOn);
      MarksAppend(EventsBefore(steps, i - 1, limit), EventsOf(i - 1, steps[i - 1], GoesOn));
    }
  }

  /** Every iteration that starts completes, in order; the stop comes last, with the reason that is recorded. */
  lemma TraceOfReturn(steps: seq<Step>, i: nat, limit: Option<nat>)
    requires AllGoOn(steps, i, limit) && i < |steps| && Output(EndOf(i, steps[i], limit)).Some?
    ensures var e := EndOf(i, steps[i], limit);
            Marks(EventsBefore(steps, i, limit) + EventsOf(i, steps[i], e)) ==
            Pairs(if e.Interrupted? then i else i + 1) + [LoopStopped(Reason(e))]
  {
    var e := EndOf(i, steps[i], limit);
    hide EndOf, Reason, Marks, AllGoOn, EventsBefore, EventsOf;
    MarksBefore(steps, i, limit);
    MarksOfIteration(i, steps[i], e);
    MarksAppend(EventsBefore(steps, i, limit), EventsOf(i, steps[i], e));
  }

  /** The messages an intervention adds are not tool results. */
  ghost predicate NoResults(injected: seq<Message>) {
    forall m :: m in injected ==> !m.role.Tool?
  }

  // ----- what the history says -----

  /** From position a on: the answer with its calls, and behind it the output of each call, in order. */
  ghost predicate Answers(h: seq<Message>, a: nat, text: string, calls: seq<Call>, output: nat -> string) {
    && a + |calls| < |h|
    && h[a].role == Assistant && h[a].content == text && h[a].calls == calls
    && h[a].toolUseId == None && h[a].name == None
    && forall k {:trigger calls[k]} :: 0 <= k < |calls| ==>
         Returns(h[a + 1 + k], calls[k], output(k))
  }

  predicate Returns(m: Message, c: Call, output: string) {
    m.role == Tool && m.content == output && m.toolUseId == c.id && m.name == Some(c.name) && m.calls == []
  }

  lemma ReplyAnswers(h: seq<Message>, text: string, calls: seq<Call>, output: nat -> string, more: seq<Message>)
    ensures Answers(h + [AssistantMessage(text, calls)] + Results(calls, output) + more, |h|, text, calls, output)
    ensures |Results(calls, output)| == |calls|
  {
    var all := h + [AssistantMessage(text, calls)] + Results(calls, output) + more;
    assert all[|h|] == AssistantMessage(text, calls);
    forall k | 0 <= k < |calls| ensures all[|h| + 1 + k] == ResultMessage(calls[k], output(k)) {
    }
  }

  /** Where the injected messages of iteration i stand, if all before it go on. */
  ghost function Reaches(h0: seq<Message>, steps: seq<Step>, i: nat): nat
    requires i <= |steps| && forall j {:trigger steps[j]} :: 0 <= j < i ==> steps[j].reply.Answer?
  {
    if i == 0 then |h0|
    else Reaches(h0, steps, i - 1) + |steps[i - 1].injected| + 1 + |steps[i - 1].reply.calls|
  }

  /**
    The history of a run after i iterations that go on: what it began with, and for
    each of them, in order, what was injected, the model's answer, and an output for
    each of its calls.
   */
  ghost predicate Records(h: seq<Message>, h0: seq<Message>, steps: seq<Step>, i: nat)
    requires i <= |steps| && forall j {:trigger steps[j]} :: 0 <= j < i ==> steps[j].reply.Answer?
  {
    && h0 <= h && Reaches(h0, steps, i) <= |h|
    && forall j: nat {:trigger RecordsAt(h, h0, steps, j)} :: j < i ==> RecordsAt(h, h0, steps, j)
  }

  ghost predicate RecordsAt(h: seq<Message>, h0: seq<Message>, steps: seq<Step>, j: nat)
    requires j < |steps| && forall k {:trigger steps[k]} :: 0 <= k <= j ==> steps[k].reply.Answer?
  {
    var (at, s) := (Reaches(h0, steps, j), steps[j]);
    && at + |s.injected| <= |h| && h[at..at + |s.injected|] == s.injected
    && Answers(h, at + |s.injected|, s.reply.text, s.reply.calls, s.output)
  }

  lemma GoOnAnswers(steps: seq<Step>, i: nat, limit: Option<nat>)
    requires AllGoOn(steps, i, limit)
    ensures forall j {:trigger steps[j]} :: 0 <= j < i ==> steps[j].reply.Answer?
  {
    forall j | 0 <= j < i ensures steps[j].reply.Answer? {
      assert EndOf(j, steps[j], limit).GoesOn?;
    }
  }

  lemma RecordsAtStays(h: seq<Message>, more: seq<Message>, h0: seq<Message>, steps: seq<Step>, j: nat)
    requires j < |steps| && forall k {:trigger steps[k]} :: 0 <= k <= j ==> steps[k].reply.Answer?
    requires RecordsAt(h, h0, steps, j)
    ensures RecordsAt(h + more, h0, steps, j)
  {
    var at := Reaches(h0, steps, j);
    var s := steps[j];
    hide Reaches, Answers;
    assert (h + more)[at..at + |s.injected|] == h[at..at + |s.injected|];
    AnswersStay(h, more, at + |s.injected|, s.reply.text, s.reply.calls, s.output);
  }

  lemma AnswersStay(h: seq<Message>, more: seq<Message>, a: nat, text: string, calls: seq<Call>, output: nat -> string)
    requires Answers(h, a, text, calls, output)
    ensures Answers(h + more, a, text, calls, output)
  {
    forall m | a <= m <= a + |calls| ensures (h + more)[m] == h[m] {
    }
    forall k {:trigger calls[k]} | 0 <= k < |calls| ensures Returns((h + more)[a + 1 + k], calls[k], output(k)) {
      var m := a + 1 + k;
      assert (h + more)[m] == h[m] && Returns(h[m], calls[k], output(k));
    }
  }

  lemma {:induction false} BeforeRecords(h0: seq<Message>, steps: seq<Step>, i: nat, limit: Option<nat>)
    requires AllGoOn(steps, i, limit)
    ensures forall j {:trigger steps[j]} :: 0 <= j < i ==> steps[j].reply.Answer?
    ensures Records(Before(h0, steps, i, limit), h0, steps, i)
    ensures |Before(h0, steps, i, limit)| == Reaches(h0, steps, i)
  {
    GoOnAnswers(steps, i, limit);
    hide *;
    if i == 0 {
      NothingRecorded(h0, steps, limit);
    } else {
      BeforeNext(h0, steps, i - 1, limit);
      BeforeRecords(h0, steps, i - 1, limit);
      MoreRecorded(Before(h0, steps, i - 1, limit), h0, steps, i - 1);
    }
  }

  lemma NothingRecorded(h0: seq<Message>, steps: seq<Step>, limit: Option<nat>)
    requires AllGoOn(steps, 0, limit)
    ensures Records(Before(h0, steps, 0, limit), h0, steps, 0) && |Before(h0, steps, 0, limit)| == Reaches(h0, steps, 0)
  {
  }

  /** The answer of an iteration and the outputs of its calls. */
  function Added(s: Step): seq<Message>
    requires s.reply.Answer?
  {
    [AssistantMessage(s.reply.text, s.reply.calls)] + Results(s.reply.calls, s.output)
  }

  lemma BeforeNext(h0: seq<Message>, steps: seq<Step>, i: nat, limit: Option<nat>)
    requires AllGoOn(steps, i + 1, limit)
    ensures AllGoOn(steps, i, limit) && steps[i].reply.Answer?
    ensures Before(h0, steps, i + 1, limit) == Before(h0, steps, i, limit) + (steps[i].injected + Added(steps[i]))
  {
    assert EndOf(i, steps[i], limit).GoesOn?;
    hide Results;
  }

  lemma MoreRecorded(before: seq<Message>, h0: seq<Message>, steps: seq<Step>, i: nat)
    requires i < |steps| && forall k {:trigger steps[k]} :: 0 <= k <= i ==> steps[k].reply.Answer?
    requires Records(before, h0, steps, i) && |before| == Reaches(h0, steps, i)
    ensures var h := before + (steps[i].injected + Added(steps[i]));
            Records(h, h0, steps, i + 1) && |h| == Reaches(h0, steps, i + 1)
  {
    var more := steps[i].injected + Added(steps[i]);
    IterationRecords(before, h0, steps, i);
    hide RecordsAt, Added;
    forall j: nat | j < i + 1 ensures RecordsAt(before + more, h0, steps, j) {
      if j < i {
        assert RecordsAt(before, h0, steps, j);
        RecordsAtStays(before, more, h0, steps, j);
      }
    }
  }

  lemma IterationRecords(before: seq<Message>, h0: seq<Message>, steps: seq<Step>, j: nat)
    requires j < |steps| && forall k {:trigger steps[k]} :: 0 <= k <= j ==> steps[k].reply.Answer?
    requires |before| == Reaches(h0, steps, j)
    ensures var h := before + (steps[j].injected + Added(steps[j]));
            RecordsAt(h, h0, steps, j) && |h| == Reaches(h0, steps, j + 1)
  {
    var s := steps[j];
    var h, start := before + (s.injected + Added(s)), before + s.injected;
    AddedAnswers(start, s);
    hide Answers, Added;
    assert h == start + Added(s);
    assert h[|before|..|start|] == s.injected;
  }

  lemma AddedAnswers(start: seq<Message>, s: Step)
    requires s.reply.Answer?
    ensures Answers(start + Added(s), |start|, s.reply.text, s.reply.calls, s.output)
    ensures |Added(s)| == 1 + |s.reply.calls|
  {
    ReplyAnswers(start, s.reply.text, s.reply.calls, s.output, []);
    hide Answers, Results;
    var answer, results := [AssistantMessage(s.reply.text, s.reply.calls)], Results(s.reply.calls, s.output);
    assert start + answer + results + [] == start + (answer + results);
  }

  /** What the last iteration adds: nothing, what was injected, or that and the final answer. */
  ghost predicate EndRecorded(h: seq<Message>, at: nat, s: Step, e: End) {
    if e.Interrupted? then |h| == at
    else
      var end := at + |s.injected|;
      && |h| == (if e.Answered? then end + 1 else end) && h[at..end] == s.injected
      && (e.Answered? ==> Answers(h, end, e.text, [], s.output))
  }

  lemma AllRecorded(h0: seq<Message>, steps: seq<Step>, i: nat, limit: Option<nat>, e: End, h: seq<Message>)
    requires AllGoOn(steps, i, limit) && i < |steps| && e == EndOf(i, steps[i], limit) && !e.GoesOn?
    requires h == Before(h0, steps, i, limit) + Adds(steps[i], e)
    ensures forall j {:trigger steps[j]} :: 0 <= j < i ==> steps[j].reply.Answer?
    ensures Records(h, h0, steps, i) && EndRecorded(h, Reaches(h0, steps, i), steps[i], e)
  {
    BeforeRecords(h0, steps, i, limit);
    var before, s, at := Before(h0, steps, i, limit), steps[i], Reaches(h0, steps, i);
    hide EndOf, Before, AllGoOn, RecordsAt, Reaches;
    forall j: nat | j < i ensures RecordsAt(h, h0, steps, j) {
      RecordsAtStays(before, Adds(s, e), h0, steps, j);
    }
    if !e.Interrupted? {
      assert h[at..at + |s.injected|] == s.injected;
    }
  }

  /**
    The result of an answer's k-th call is the k-th message behind it, and the
    answer is the latest caller of its id.
   */
  lemma EachCallAnswered(h: seq<Message>, a: nat, text: string, calls: seq<Call>, output: nat -> string, k: nat)
    requires Answers(h, a, text, calls, output) && k < |calls|
    ensures h[a + 1 + k].role == Tool && h[a + 1 + k].content == output(k)
    ensures Parent(h, a + 1 + k) == if calls[k].id.Some? then Some(a) else None
  {
    var i := a + 1 + k;
    assert h[i].toolUseId == calls[k].id;
    if calls[k].id.Some? {
      var id := calls[k].id.value;
      assert calls[k] in h[a].calls;
      assert Makes(h[a], id);
      forall m | a < m < i ensures !Makes(h[m], id) {
        var j := m - a - 1;
        assert calls[j] in calls && h[a + 1 + j].calls == [];
      }
      hide Answers;
      LastCallerIsLast(h, i, id, a);
    }
  }

  /**
    However the history goes on, the results that answer an answer's calls are
    exactly the messages right behind it, one for each call that has an id.
   */
  lemma OnlyItsResultsAnswer(h: seq<Message>, a: nat, text: string, calls: seq<Call>, output: nat -> string,
                             h': seq<Message>, i: nat)
    requires Answers(h, a, text, calls, output) && |h| == a + 1 + |calls| && Grows(h, h')
    requires i < |h'| && h'[i].role.Tool?
    ensures Parent(h', i) == Some(a) <==> a < i <= a + |calls| && calls[i - a - 1].id.Some?
  {
    if i >= |h| {
      assert AnswersFrom(h', |h|, i);
    } else {
      ParentInPrefix(h, h', i);
      if i > a {
        EachCallAnswered(h, a, text, calls, output, i - a - 1);
      } else if Parent(h', i).Some? {
        ParentBefore(h', i);
      }
    }
  }

  /** From one model call to the next the history grows as the context managers need: new results answer new calls. */
  lemma RoundGrows(h: seq<Message>, s: Step, injected: seq<Message>)
    requires s.reply.Answer? && NoResults(injected)
    ensures Grows(h, h + Added(s) + injected)
  {
    hide *;
    AddedAnswers(h, s);
    var mid, h' := h + Added(s), h + Added(s) + injected;
    forall i | |h| <= i < |h'| ensures AnswersFrom(h', |h|, i) {
      if i < |mid| {
        AnswerAt(mid, |h|, s, i);
        ParentInPrefix(mid, h', i);
        SameAnswersFrom(mid, h', |h|, i);
      } else {
        assert h'[i] == injected[i - |mid|];
        NoResultFrom(h', |h|, i, injected);
      }
    }
    GrowsIs(h, h');
  }

  lemma AnswerAt(h: seq<Message>, a: nat, s: Step, i: nat)
    requires s.reply.Answer? && Answers(h, a, s.reply.text, s.reply.calls, s.output)
    requires a <= i < |h| == a + 1 + |s.reply.calls|
    ensures AnswersFrom(h, a, i)
  {
    if i > a { EachCallAnswered(h, a, s.reply.text, s.reply.calls, s.output, i - a - 1); }
  }

  lemma SameAnswersFrom(h: seq<Message>, h': seq<Message>, c: nat, i: nat)
    requires i < |h| && h <= h' && Parent(h', i) == Parent(h, i) && AnswersFrom(h, c, i)
    ensures AnswersFrom(h', c, i)
  {
    hide Parent;
  }

  lemma NoResultFrom(h: seq<Message>, c: nat, i: nat, injected: seq<Message>)
    requires i < |h| && NoResults(injected) && h[i] in injected
    ensures AnswersFrom(h, c, i)
  {
  }

  lemma GrowsIs(h: seq<Message>, h': seq<Message>)
    requires h <= h' && forall i :: |h| <= i < |h'| ==> AnswersFrom(h', |h|, i)
    ensures Grows(h, h')
  {
    hide AnswersFrom;
  }

  lemma NextPrompt(h0: seq<Message>, steps: seq<Step>, limit: Option<nat>, k: nat)
    requires AllGoOn(steps, k + 1, limit) && k + 1 < |steps|
    ensures AllGoOn(steps, k, limit) && steps[k].reply.Answer?
    ensures Prompt(h0, steps, k + 1, limit) == Prompt(h0, steps, k, limit) + Added(steps[k]) + steps[k + 1].injected
  {
    assert EndOf(k, steps[k], limit).GoesOn?;
    hide EndOf, Results;
  }

  /** The prompts of a run form a conversation that only grows. */
  lemma PromptsGrow(h0: seq<Message>, steps: seq<Step>, limit: Option<nat>, prompts: seq<seq<Message>>, k: nat)
    requires Prompted(prompts, h0, steps, limit) && k + 1 < |prompts|
    requires NoResults(steps[k + 1].injected)
    ensures Grows(prompts[k], prompts[k + 1])
  {
    var s := steps[k];
    assert PromptedAt(prompts[k], h0, steps, k, limit) && PromptedAt(prompts[k + 1], h0, steps, k + 1, limit);
    NextPrompt(h0, steps, limit, k);
    hide *;
    RoundGrows(prompts[k], s, steps[k + 1].injected);
  }
}
