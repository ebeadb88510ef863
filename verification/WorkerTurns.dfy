/**
 The worker's loop of model turns and tool calls, and its two transcripts: the one the
 controller stores and the worker's own copy (agent_worker.py:541-545, 608-704;
 agent_controller.py:489-503, 543-581, 891-900).
 */
module WorkerTurns {
  import opened Wrappers
  import opened WorkerWindow

  const MAX_TOOL_RESULT_CHARS := 24_000
  const MAX_TOOL_CALLS_PER_TURN := 32
  const MAX_CHILD_MODEL_CALLS := 12
  const MAX_CHILD_TASK_CHARS := 20_000
  const SUBMIT := "submit_patch_queue"
  const CUT_NOTE := "\n...[tool result truncated]"

  /** A call as the model made it; the parts that are not of the right type are `None`. */
  datatype Call = Call(id: Option<string>, tool: Option<Tool>)
  datatype Tool = Tool(name: Option<string>, arguments: Option<string>)

  /** What the controller did with an append: kept and confirmed it, refused it, or kept it unconfirmed. */
  datatype Reply = Confirmed | Refused | Lost

  /** What executing one call gave, as text, whether it reported `ok`, and how saving it went. */
  datatype Outcome = Outcome(text: string, ok: bool, reply: Reply)

  datatype TurnEnd = Finished(patch: bool) | TooManyCalls | MalformedCall | NotSaved

  /** What a turn adds to the worker's history and to the stored transcript. */
  datatype Turn = Turn(seen: seq<Message>, kept: seq<Message>, end: TurnEnd)

  function Ids(calls: seq<Call>): seq<string> {
    if calls == [] then []
    else (if calls[0].id.Some? then [calls[0].id.value] else []) + Ids(calls[1..])
  }

  function Assistant(content: Content, calls: seq<Call>): Message {
    Message(Some("assistant"), content, None, Ids(calls), None, Some("id"))
  }

  function Cut(text: string): string {
    if MAX_TOOL_RESULT_CHARS < |text| then text[..MAX_TOOL_RESULT_CHARS] + CUT_NOTE else text
  }

  function ToolMessage(call: Call, text: string): Message {
    Message(Some("tool"), Text(Cut(text)), None, [], call.id, Some("id"))
  }

  predicate Callable(call: Call) {
    call.id.Some? && call.tool.Some?
  }

  predicate Submits(call: Call, outcome: Outcome) {
    call.tool.Some? && call.tool.value.name == Some(SUBMIT) && outcome.ok
  }

  function Saved(message: Message, reply: Reply, rest: Turn): Turn {
    match reply
    case Confirmed => Turn([message] + rest.seen, [message] + rest.kept, rest.end)
    case Refused => Turn([], [], NotSaved)
    case Lost => Turn([], [message], NotSaved)
  }

  /** The calls of a turn, one after the other; the first failure ends the turn. */
  function Answered(calls: seq<Call>, outcomes: seq<Outcome>, patch: bool): Turn
    requires |calls| <= |outcomes|
  {
    if calls == [] then Turn([], [], Finished(patch))
    else if !Callable(calls[0]) then Turn([], [], MalformedCall)
    else
      Saved(ToolMessage(calls[0], outcomes[0].text), outcomes[0].reply,
            Answered(calls[1..], outcomes[1..], patch || Submits(calls[0], outcomes[0])))
  }

  function HandledCalls(calls: seq<Call>, outcomes: seq<Outcome>): Turn
    requires |calls| <= |outcomes|
  {
    if MAX_TOOL_CALLS_PER_TURN < |calls| then Turn([], [], TooManyCalls) else Answered(calls, outcomes, false)
  }

  /** A whole turn: the assistant message, then its calls. */
  function FullTurn(content: Content, calls: seq<Call>, reply: Reply, outcomes: seq<Outcome>): Turn
    requires |calls| <= |outcomes|
  {
    Saved(Assistant(content, calls), reply, HandledCalls(calls, outcomes))
  }

  // ------------------------------------------------------ a child of the worker

  /** One answer of the model to a child, and the results of its calls. */
  datatype ChildStep = ChildStep(content: Content, calls: seq<Call>, results: nat -> string)

  datatype ChildEnd = ChildSaid(content: Content) | ChildRefused | ChildTooManyCalls | ChildExhausted

  function ChildRequest(request: string): Message {
    Message(Some("user"), Text("Child task; return a concise plain-text result:\\n" + request), None, [], None, None)
  }

  /** A child answers a call without an id under the name `child`. */
  function ChildMessage(call: Call, text: string): Message {
    Message(Some("tool"), Text(Cut(text)), None, [], if call.id.Some? then call.id else Some("child"), None)
  }

  function ChildResults(step: ChildStep): (results: seq<Message>)
    ensures |results| == |step.calls|
  {
    seq(|step.calls|, i requires 0 <= i < |step.calls| => ChildMessage(step.calls[i], step.results(i)))
  }

  function ChildTurn(step: ChildStep): seq<Message> {
    [Assistant(step.content, step.calls)] + ChildResults(step)
  }

  function ChildHistory(history: seq<Message>, request: string, steps: seq<ChildStep>): seq<Message> {
    if steps == [] then history + [ChildRequest(request)]
    else ChildHistory(history, request, steps[..|steps| - 1]) + ChildTurn(steps[|steps| - 1])
  }

  // ------------------------------------------------------------ the worker

  class AgentWorker {
    var history: seq<Message>
    var stored: seq<Message>

    /** `_persist`: the worker's copy grows only when the controller confirmed the append. */
    method Persist(message: Message, reply: Reply) returns (ok: bool)
      modifies this
      ensures ok == reply.Confirmed?
      ensures stored == old(stored) + (if reply.Refused? then [] else [message])
      ensures history == old(history) + (if reply.Confirmed? then [message] else [])
    {
      if !reply.Refused? {
        stored := stored + [message];
      }
      if reply.Confirmed? {
        history := history + [message];
      }
      ok := reply.Confirmed?;
    }

    /** `_handle_tool_calls`, up to the wait after a submission. */
    method HandleToolCalls(calls: seq<Call>, outcomes: seq<Outcome>) returns (end: TurnEnd)
      requires |calls| <= |outcomes|
      modifies this
      ensures var turn := HandledCalls(calls, outcomes);
              end == turn.end && history == old(history) + turn.seen && stored == old(stored) + turn.kept
    {
      hide ToolMessage, Submits, Callable;
      if MAX_TOOL_CALLS_PER_TURN < |calls| {
        return TooManyCalls;
      }
      var patch := false;
      ghost var turn := HandledCalls(calls, outcomes);
      for i := 0 to |calls|
        invariant var rest := Answered(calls[i..], outcomes[i..], patch);
                  turn.end == rest.end && old(history) + turn.seen == history + rest.seen
                  && old(stored) + turn.kept == stored + rest.kept
      {
        assert calls[i..][1..] == calls[i + 1..] && outcomes[i..][1..] == outcomes[i + 1..];
        var call := calls[i];
        if !Callable(call) {
          return MalformedCall;
        }
        var message := ToolMessage(call, outcomes[i].text);
        var ok := Persist(message, outcomes[i].reply);
        if !ok {
          return NotSaved;
        }
        if Submits(call, outcomes[i]) {
          patch := true;
        }
      }
      end := Finished(patch);
    }

    /**
     `_run_child`: a bounded run on a copy of the history. `steps` are the model's answers and
     the results of their calls; `asked` are the histories its requests were built from. The
     worker's own history is not touched.
     */
    method RunChild(isChild: bool, request: string, blank: bool, steps: seq<ChildStep>)
      returns (end: ChildEnd, asked: seq<seq<Message>>)
      requires MAX_CHILD_MODEL_CALLS <= |steps|
      ensures |asked| <= 12
      ensures end.ChildRefused? <==> isChild || blank || 20_000 < |request|
      ensures end.ChildRefused? ==> asked == []
      ensures end.ChildExhausted? ==> |asked| == 12
      ensures forall k :: 0 <= k < |asked| ==> asked[k] == ChildHistory(history, request, steps[..k])
      ensures end.ChildSaid? || end.ChildTooManyCalls? ==> asked != []
      ensures end.ChildSaid? ==> steps[|asked| - 1].calls == [] && end.content == steps[|asked| - 1].content
      ensures end.ChildTooManyCalls? ==> 32 < |steps[|asked| - 1].calls|
      ensures forall k :: 0 <= k < |asked| - (if end.ChildExhausted? then 0 else 1) ==>
                0 < |steps[k].calls| <= 32
    {
      hide ChildRequest, ChildMessage, Assistant;
      asked := [];
      if isChild || blank || MAX_CHILD_TASK_CHARS < |request| {
        return ChildRefused, asked;
      }
      var copy := history + [ChildRequest(request)];
      for k := 0 to MAX_CHILD_MODEL_CALLS
        invariant |asked| == k && copy == ChildHistory(history, request, steps[..k])
        invariant forall l :: 0 <= l < k ==> asked[l] == ChildHistory(history, request, steps[..l])
        invariant forall l :: 0 <= l < k ==> 0 < |steps[l].calls| <= MAX_TOOL_CALLS_PER_TURN
      {
        asked := asked + [copy];
        var step := steps[k];
        if step.calls == [] {
          return ChildSaid(step.content), asked;
        }
        if MAX_TOOL_CALLS_PER_TURN < |step.calls| {
          return ChildTooManyCalls, asked;
        }
        copy := copy + [Assistant(step.content, step.calls)];
        for i := 0 to |step.calls|
          invariant copy == ChildHistory(history, request, steps[..k])
                            + ([Assistant(step.content, step.calls)] + ChildResults(step)[..i])
        {
          copy := copy + [ChildMessage(step.calls[i], step.results(i))];
        }
        assert steps[..k + 1][..k] == steps[..k];
        assert ChildResults(step)[..|step.calls|] == ChildResults(step);
      }
      end := ChildExhausted;
    }

    /** One turn of `run`, from the model's answer on. */
    method TakeTurn(content: Content, calls: seq<Call>, reply: Reply, outcomes: seq<Outcome>) returns (end: TurnEnd)
      requires |calls| <= |outcomes|
      modifies this
      ensures var turn := FullTurn(content, calls, reply, outcomes);
              end == turn.end && history == old(history) + turn.seen && stored == old(stored) + turn.kept
    {
      var ok := Persist(Assistant(content, calls), reply);
      if !ok {
        return NotSaved;
      }
      end := HandleToolCalls(calls, outcomes);
    }
  }

  // ------------------------------------------------------- laws of one turn

  /** `messages` answer the first calls, one message per call, in call order. */
  predicate InOrder(calls: seq<Call>, messages: seq<Message>) {
    && |messages| <= |calls|
    && forall i :: 0 <= i < |messages| ==>
         messages[i].IsTool() && calls[i].id.Some? && messages[i].callId == calls[i].id
  }

  lemma {:induction false} AnsweredInOrder(calls: seq<Call>, outcomes: seq<Outcome>, patch: bool)
    requires |calls| <= |outcomes|
    ensures var turn := Answered(calls, outcomes, patch);
            && InOrder(calls, turn.kept) && turn.seen <= turn.kept && |turn.kept| <= |turn.seen| + 1
            && (turn.end.Finished? ==> turn.seen == turn.kept && |turn.kept| == |calls|)
  {
    hide Submits, ToolMessage, InOrder;
    if calls != [] && Callable(calls[0]) {
      var rest := Answered(calls[1..], outcomes[1..], patch || Submits(calls[0], outcomes[0]));
      AnsweredInOrder(calls[1..], outcomes[1..], patch || Submits(calls[0], outcomes[0]));
      var m := ToolMessage(calls[0], outcomes[0].text);
      ToolMessageAnswers(calls[0], outcomes[0].text);
      InOrderStep(calls, m, rest.kept);
      InOrderNone(calls[1..]);
      InOrderStep(calls, m, []);
      assert [m] + [] == [m];
    }
    InOrderNone(calls);
  }

  lemma ToolMessageAnswers(call: Call, text: string)
    ensures ToolMessage(call, text).IsTool() && ToolMessage(call, text).callId == call.id
  {
  }

  lemma InOrderStep(calls: seq<Call>, m: Message, rest: seq<Message>)
    requires calls != [] && InOrder(calls[1..], rest)
    requires m.IsTool() && calls[0].id.Some? && m.callId == calls[0].id
    ensures InOrder(calls, [m] + rest)
  {
    var all := [m] + rest;
    assert forall i :: 0 < i < |all| ==> all[i] == rest[i - 1] && calls[i] == calls[1..][i - 1];
  }

  lemma InOrderNone(calls: seq<Call>)
    ensures InOrder(calls, [])
  {
  }

  /**
   A turn that finishes adds, to both transcripts, the assistant message and then exactly
   one tool message per call, in call order and with the call's id. A turn that fails
   leaves a prefix of that, and the worker's copy misses at most the last message kept.
   */
  lemma TurnShape(content: Content, calls: seq<Call>, reply: Reply, outcomes: seq<Outcome>)
    requires |calls| <= |outcomes|
    ensures var turn := FullTurn(content, calls, reply, outcomes);
            && turn.seen <= turn.kept && |turn.kept| <= |turn.seen| + 1
            && (turn.kept != [] ==> turn.kept[0] == Assistant(content, calls) && InOrder(calls, turn.kept[1..]))
            && (turn.end.Finished? ==> turn.seen == turn.kept && |turn.kept| == 1 + |calls|)
  {
    if |calls| <= MAX_TOOL_CALLS_PER_TURN {
      AnsweredInOrder(calls, outcomes, false);
    }
    var rest := HandledCalls(calls, outcomes);
    var m := Assistant(content, calls);
    assert ([m] + rest.kept)[1..] == rest.kept;
  }

  // ----------------------------------------------- what a turn says, exactly

  /** `shown` is `text`, or its first 24,000 characters and a note if it is longer. */
  predicate Shows(shown: Content, text: string) {
    shown == Text(if |text| <= 24_000 then text else text[..24_000] + "\n...[tool result truncated]")
  }

  /** The result of one call: a new message with the call's id, and the text as far as it is shown. */
  predicate IsResult(m: Message, id: Option<string>, text: string) {
    m.role == Some("tool") && m.callId == id && Shows(m.content, text) && m.name.None? && m.calls == []
  }

  lemma ToolMessageShows(call: Call, text: string)
    ensures IsResult(ToolMessage(call, text), call.id, text)
  {
  }

  lemma AssistantSays(content: Content, calls: seq<Call>)
    ensures var m := Assistant(content, calls);
            && m.role == Some("assistant") && m.content == content && m.callId.None? && m.name.None?
            && (forall id :: id in m.calls <==> exists i :: 0 <= i < |calls| && calls[i].id == Some(id))
  {
    forall id ensures id in Ids(calls) <==> exists i :: 0 <= i < |calls| && calls[i].id == Some(id) {
      if i :| 0 <= i < |calls| && calls[i].id == Some(id) {
        IdsHold(calls, i);
      }
      if id in Ids(calls) {
        var i := IdsFrom(calls, id);
      }
    }
  }

  lemma {:induction false} IdsFrom(calls: seq<Call>, id: string) returns (i: nat)
    requires id in Ids(calls)
    ensures i < |calls| && calls[i].id == Some(id)
  {
    if calls[0].id == Some(id) {
      i := 0;
    } else {
      i := IdsFrom(calls[1..], id);
      i := i + 1;
    }
  }

  /** The first call that stops a turn: one that is malformed, or whose result is not confirmed. */
  function Stop(calls: seq<Call>, outcomes: seq<Outcome>): (k: nat)
    requires |calls| <= |outcomes|
    ensures k <= |calls|
  {
    if calls == [] || calls[0].id.None? || calls[0].tool.None? || outcomes[0].reply != Confirmed then 0
    else 1 + Stop(calls[1..], outcomes[1..])
  }

  /** The call is well-formed and asks for a submission that reported success. */
  predicate Submission(call: Call, outcome: Outcome) {
    call.tool.Some? && call.tool.value.name == Some("submit_patch_queue") && outcome.ok
  }

  predicate AnySubmission(calls: seq<Call>, outcomes: seq<Outcome>) {
    exists i :: 0 <= i < |calls| <= |outcomes| && Submission(calls[i], outcomes[i])
  }

  lemma AnySubmissionStep(calls: seq<Call>, outcomes: seq<Outcome>)
    requires 0 < |calls| <= |outcomes|
    ensures AnySubmission(calls, outcomes) <==>
            Submission(calls[0], outcomes[0]) || AnySubmission(calls[1..], outcomes[1..])
  {
    hide Submission;
    if AnySubmission(calls[1..], outcomes[1..]) {
      var i :| 0 <= i < |calls[1..]| && Submission(calls[1..][i], outcomes[1..][i]);
      assert Submission(calls[i + 1], outcomes[i + 1]);
    }
    if i :| 1 <= i < |calls| && Submission(calls[i], outcomes[i]) {
      assert Submission(calls[1..][i - 1], outcomes[1..][i - 1]);
    }
  }

  /** The results are those of the calls before the stop, and of the stop if it was kept but not confirmed. */
  predicate Says(turn: Turn, calls: seq<Call>, outcomes: seq<Outcome>, k: nat)
    requires k <= |calls| <= |outcomes|
  {
    && |turn.seen| == k && turn.seen <= turn.kept
    && |turn.kept| == (if k < |calls| && calls[k].id.Some? && calls[k].tool.Some? && outcomes[k].reply == Lost
                       then k + 1 else k)
    && (forall i :: 0 <= i < |turn.kept| ==> i < |calls| && IsResult(turn.kept[i], calls[i].id, outcomes[i].text))
  }

  lemma SaysStep(turn: Turn, m: Message, calls: seq<Call>, outcomes: seq<Outcome>, k: nat)
    requires 0 < |calls| <= |outcomes| && k <= |calls[1..]| && Says(turn, calls[1..], outcomes[1..], k)
    requires IsResult(m, calls[0].id, outcomes[0].text)
    ensures Says(Turn([m] + turn.seen, [m] + turn.kept, turn.end), calls, outcomes, k + 1)
  {
    hide IsResult;
    var kept := [m] + turn.kept;
    forall i | 0 <= i < |kept| ensures i < |calls| && IsResult(kept[i], calls[i].id, outcomes[i].text) {
      if 0 < i {
        assert kept[i] == turn.kept[i - 1] && calls[i] == calls[1..][i - 1] && outcomes[i] == outcomes[1..][i - 1];
      }
    }
  }

  lemma SaysNothing(calls: seq<Call>, outcomes: seq<Outcome>, end: TurnEnd)
    requires |calls| <= |outcomes| && Stop(calls, outcomes) == 0
    requires calls != [] && Callable(calls[0]) ==> outcomes[0].reply == Refused
    ensures Says(Turn([], [], end), calls, outcomes, 0)
  {
  }

  /** How the calls of a turn end: at the stop, or finished, with a patch exactly if a submission succeeded. */
  predicate Ends(end: TurnEnd, calls: seq<Call>, outcomes: seq<Outcome>, k: nat, patch: bool)
    requires k <= |calls| <= |outcomes|
  {
    if k == |calls| then end == Finished(patch || AnySubmission(calls, outcomes))
    else end == if calls[k].id.Some? && calls[k].tool.Some? then NotSaved else MalformedCall
  }

  lemma {:induction false} AnsweredSays(calls: seq<Call>, outcomes: seq<Outcome>, patch: bool)
    requires |calls| <= |outcomes|
    ensures var turn, k := Answered(calls, outcomes, patch), Stop(calls, outcomes);
            Says(turn, calls, outcomes, k) && Ends(turn.end, calls, outcomes, k, patch)
  {
    hide Says, ToolMessage, IsResult, Submission, AnySubmission;
    if calls == [] {
      SaysNothing(calls, outcomes, Finished(patch));
      NoSubmission(outcomes);
    } else if !Callable(calls[0]) {
      SaysNothing(calls, outcomes, MalformedCall);
    } else {
      var m := ToolMessage(calls[0], outcomes[0].text);
      ToolMessageShows(calls[0], outcomes[0].text);
      match outcomes[0].reply
      case Refused => SaysNothing(calls, outcomes, NotSaved);
      case Lost => SaysLost(m, calls, outcomes);
      case Confirmed =>
        var submitted := Submits(calls[0], outcomes[0]);
        var rest := Answered(calls[1..], outcomes[1..], patch || submitted);
        AnsweredSays(calls[1..], outcomes[1..], patch || submitted);
        SaysStep(rest, m, calls, outcomes, Stop(calls[1..], outcomes[1..]));
        AnySubmissionStep(calls, outcomes);
        SubmitsIs(calls[0], outcomes[0]);
    }
  }

  lemma SubmitsIs(call: Call, outcome: Outcome)
    ensures Submits(call, outcome) <==> Submission(call, outcome)
  {
  }

  lemma NoSubmission(outcomes: seq<Outcome>)
    ensures !AnySubmission([], outcomes)
  {
  }

  lemma SaysLost(m: Message, calls: seq<Call>, outcomes: seq<Outcome>)
    requires 0 < |calls| <= |outcomes| && Callable(calls[0]) && outcomes[0].reply == Lost
    requires IsResult(m, calls[0].id, outcomes[0].text)
    ensures Says(Turn([], [m], NotSaved), calls, outcomes, 0)
  {
    hide IsResult;
  }

  /**
   All of a turn: the assistant's message holds the model's answer and the ids of its calls;
   unless it is not saved, or there are more than 32 calls, one result per call follows, in
   order, with the call's id and the result's text as far as it is shown, up to the first call
   that is malformed or whose result is not confirmed; and the turn finishes with a patch
   exactly if none stops it and a submission reported success.
   */
  lemma TurnTheorem(content: Content, calls: seq<Call>, reply: Reply, outcomes: seq<Outcome>)
    requires |calls| <= |outcomes|
    ensures var turn, k := FullTurn(content, calls, reply, outcomes), Stop(calls, outcomes);
            && (turn.kept == [] <==> reply == Refused) && (turn.seen == [] <==> reply != Confirmed)
            && (turn.kept != [] ==>
                  && turn.kept[0].role == Some("assistant") && turn.kept[0].content == content
                  && forall id :: id in turn.kept[0].calls <==> exists i :: 0 <= i < |calls| && calls[i].id == Some(id))
            && (reply != Confirmed ==> turn.end == NotSaved && |turn.kept| <= 1)
            && (reply == Confirmed ==>
                  && turn.seen[0] == turn.kept[0]
                  && var results := Turn(turn.seen[1..], turn.kept[1..], turn.end);
                     if 32 < |calls| then results == Turn([], [], TooManyCalls)
                     else Says(results, calls, outcomes, k) && Ends(results.end, calls, outcomes, k, false))
  {
    hide Says, Ends, Answered, Assistant;
    var m := Assistant(content, calls);
    AssistantSays(content, calls);
    AnsweredSays(calls, outcomes, false);
    var rest := HandledCalls(calls, outcomes);
    assert ([m] + rest.seen)[1..] == rest.seen && ([m] + rest.kept)[1..] == rest.kept;
    assert Turn(rest.seen, rest.kept, rest.end) == rest;
  }

  lemma {:induction false} IdsHold(calls: seq<Call>, i: nat)
    requires i < |calls| && calls[i].id.Some?
    ensures calls[i].id.value in Ids(calls)
  {
    if 0 < i {
      IdsHold(calls[1..], i - 1);
    }
  }

  lemma {:induction false} ResultsExchange(assistant: Message, results: seq<Message>)
    requires forall i :: 0 <= i < |results| ==> results[i].IsTool() && assistant.Calls(results[i].callId)
    ensures Exchanges(Some(assistant), results) && Opener(Some(assistant), results) == Some(assistant)
  {
    if results != [] {
      ResultsExchange(assistant, results[1..]);
    }
  }

  /** Finished or not, a turn keeps a transcript made of exchanges that way. */
  lemma TurnExchanges(opener: Option<Message>, base: seq<Message>,
                      content: Content, calls: seq<Call>, reply: Reply, outcomes: seq<Outcome>)
    requires |calls| <= |outcomes| && Exchanges(opener, base)
    ensures var turn := FullTurn(content, calls, reply, outcomes);
            Exchanges(opener, base + turn.kept) && Exchanges(opener, base + turn.seen)
  {
    var kept := FullTurn(content, calls, reply, outcomes).kept;
    var seen := FullTurn(content, calls, reply, outcomes).seen;
    TurnShape(content, calls, reply, outcomes);
    ExchangesConcat(opener, base, kept);
    ExchangesConcat(opener, base, seen);
    if kept != [] {
      var a, results := Assistant(content, calls), kept[1..];
      forall i | 0 <= i < |results| ensures a.Calls(results[i].callId) {
        IdsHold(calls, i);
      }
      ResultsExchange(a, results);
      assert kept == seen + kept[|seen|..];
      ExchangesConcat(Opener(opener, base), seen, kept[|seen|..]);
    }
  }

  // ------------------------------------------------------- laws of a child

  /** What a child is asked with: the history, the task, and per step the answer and its calls' results. */
  lemma ChildBegins(history: seq<Message>, request: string)
    ensures var asked := ChildHistory(history, request, []);
            && |asked| == |history| + 1 && asked[..|history|] == history
            && asked[|history|].role == Some("user")
            && asked[|history|].content == Text("Child task; return a concise plain-text result:\\n" + request)
  {
  }

  lemma ChildGrows(history: seq<Message>, request: string, steps: seq<ChildStep>, step: ChildStep)
    ensures var before, after := ChildHistory(history, request, steps), ChildHistory(history, request, steps + [step]);
            after[..|before|] == before && SaysChild(after[|before|..], step)
  {
    hide Assistant, ChildMessage, IsResult, SaysChild, ChildTurn;
    assert (steps + [step])[..|steps|] == steps;
    assert ChildHistory(history, request, steps + [step]) == ChildHistory(history, request, steps) + ChildTurn(step);
    ChildTurnSays(step);
  }

  /** The answer with the ids of its calls, and one result per call, named `child` if the call has no id. */
  predicate SaysChild(turn: seq<Message>, step: ChildStep) {
    && |turn| == 1 + |step.calls|
    && turn[0].role == Some("assistant") && turn[0].content == step.content
    && (forall id :: id in turn[0].calls ==> exists i :: 0 <= i < |step.calls| && step.calls[i].id == Some(id))
    && (forall i :: 0 <= i < |step.calls| && step.calls[i].id.Some? ==> step.calls[i].id.value in turn[0].calls)
    && forall i :: 0 <= i < |step.calls| ==>
         IsResult(turn[1 + i], if step.calls[i].id.Some? then step.calls[i].id else Some("child"), step.results(i))
  }

  lemma ChildTurnSays(step: ChildStep)
    ensures SaysChild(ChildTurn(step), step)
  {
    hide Assistant, ChildMessage, IsResult;
    AssistantSays(step.content, step.calls);
    forall i | 0 <= i < |step.calls|
      ensures ChildTurn(step)[1 + i] == ChildMessage(step.calls[i], step.results(i))
      ensures IsResult(ChildTurn(step)[1 + i], if step.calls[i].id.Some? then step.calls[i].id else Some("child"),
                       step.results(i))
    {
      ChildMessageShows(step.calls[i], step.results(i));
    }
  }

  lemma ChildMessageShows(call: Call, text: string)
    ensures IsResult(ChildMessage(call, text), if call.id.Some? then call.id else Some("child"), text)
  {
  }

  /** Every answer of the step goes to a call with that id. */
  predicate Identified(step: ChildStep) {
    forall i :: 0 <= i < |step.calls| ==> ChildMessage(step.calls[i], step.results(i)).callId.value in Ids(step.calls)
  }

  lemma ChildTurnExchanges(opener: Option<Message>, step: ChildStep)
    ensures Exchanges(opener, ChildTurn(step)) <==> Identified(step)
  {
    var a, results := Assistant(step.content, step.calls), ChildResults(step);
    assert ChildTurn(step)[1..] == results;
    if Identified(step) {
      ResultsExchange(a, results);
    }
    if Exchanges(opener, ChildTurn(step)) {
      ExchangeResults(a, results);
      forall i | 0 <= i < |step.calls|
        ensures ChildMessage(step.calls[i], step.results(i)).callId.value in Ids(step.calls)
      {
        assert results[i] == ChildMessage(step.calls[i], step.results(i));
      }
    }
  }

  lemma {:induction false} ExchangeResults(assistant: Message, results: seq<Message>)
    requires Exchanges(Some(assistant), results) && forall i :: 0 <= i < |results| ==> results[i].IsTool()
    ensures forall i :: 0 <= i < |results| ==> assistant.Calls(results[i].callId)
  {
    if results != [] {
      ExchangeResults(assistant, results[1..]);
      assert forall i :: 0 < i < |results| ==> results[i] == results[1..][i - 1];
    }
  }

  /**
   What a child is asked from is made of exchanges exactly when the worker's history is and
   the child's answered calls had ids: a call without one leaves an orphaned result.
   */
  lemma {:induction false} ChildExchanges(history: seq<Message>, request: string, steps: seq<ChildStep>)
    ensures Exchanges(None, ChildHistory(history, request, steps)) <==>
            Exchanges(None, history) && forall k :: 0 <= k < |steps| ==> Identified(steps[k])
  {
    hide Identified, ChildTurn;
    if steps == [] {
      ExchangesConcat(None, history, [ChildRequest(request)]);
      assert [ChildRequest(request)][1..] == [];
    } else {
      var n := |steps| - 1;
      var before := ChildHistory(history, request, steps[..n]);
      ChildExchanges(history, request, steps[..n]);
      ExchangesConcat(None, before, ChildTurn(steps[n]));
      ChildTurnExchanges(Opener(None, before), steps[n]);
      assert forall k :: 0 <= k < n ==> steps[..n][k] == steps[k];
    }
  }
}
