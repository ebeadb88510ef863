/**
 The worker and the controller's transcript as a state machine: every request of the
 worker, its reply, and the operator's continuations are separate steps that may come in
 any order the code allows (agent_worker.py:495-502, 541-545, 608-704;
 agent_controller.py:489-503, 543-591, 825-900).
 */
module WorkerRuns {
  import opened Wrappers
  import opened WorkerWindow
  import opened WorkerTurns

  datatype AgentState = Starting | Running | Halted | AwaitingReview | ReviewReceived

  /** Where the worker's coroutine is. */
  datatype Phase =
    | Fetching                                  // the transcript is to be read
    | Resuming(copy: seq<Message>)              // it was read; the reply is on its way
    | Ready                                     // about to ask the model
    | Asking                                    // the model's answer is outstanding
    | Saving(message: Message, sent: bool, todo: seq<Call>, patch: bool)
    | Calling(todo: seq<Call>, patch: bool)
    | Parking(review: bool)                     // about to report that it waits
    | Waiting
    | Gone

  datatype Session = Session(stored: seq<Message>, history: seq<Message>, phase: Phase, agent: AgentState,
                             commands: nat, asked: seq<seq<Message>>)

  datatype Event =
    | Fetch                                     // history.get is served
    | Resume                                    // its reply arrives, and `running` is reported
    | Ask                                       // model.complete, from the worker's copy
    | Answer(content: Content, calls: seq<Call>)
    | Append(kept: bool)                        // history.append is served or refused
    | Confirm                                   // its reply arrives
    | Submit                                    // patch.submit is served during a call
    | Execute(text: string, submitted: bool)    // the next call's result is there
    | Finish                                    // no call is left
    | ReportHalted                              // the report before the one of the wait
    | Park
    | Command
    | Feedback(messages: seq<Message>)          // an operator continues the agent
    | Fail                                      // the worker raises or is told to shut down

  function AfterSaving(message: Message, todo: seq<Call>, patch: bool): Phase {
    if message.IsTool() then Calling(todo, patch)
    else if todo == [] then Parking(false)
    else if MAX_TOOL_CALLS_PER_TURN < |todo| then Gone
    else Calling(todo, false)
  }

  /** States from which an operator may continue a live agent. */
  predicate Continuable(agent: AgentState) {
    agent.Halted? || agent.AwaitingReview? || agent.ReviewReceived?
  }

  predicate Accepted(s: Session, messages: seq<Message>) {
    Continuable(s.agent) && messages != []
  }

  function TakeFeedback(s: Session, messages: seq<Message>): Session {
    if Accepted(s, messages) then
      s.(stored := s.stored + messages, commands := s.commands + 1, agent := ReviewReceived)
    else s
  }

  function TakeAppend(s: Session, kept: bool): Session {
    match s.phase
    case Saving(message, false, todo, patch) =>
      if kept then s.(stored := s.stored + [message], phase := Saving(message, true, todo, patch))
      else s.(phase := Gone)
    case _ => s
  }

  /** The steps that leave the stored transcript alone. */
  function Local(s: Session, event: Event): Session {
    match (event, s.phase)
    case (Fail, _) => s.(phase := Gone)
    case (Fetch, Fetching) => s.(phase := Resuming(s.stored))
    case (Resume, Resuming(copy)) => s.(history := copy, phase := Ready, agent := Running)
    case (Ask, Ready) => s.(phase := Asking, asked := s.asked + [s.history])
    case (Answer(content, calls), Asking) => s.(phase := Saving(Assistant(content, calls), false, calls, false))
    case (Confirm, Saving(message, true, todo, patch)) =>
      s.(history := s.history + [message], phase := AfterSaving(message, todo, patch))
    case (Submit, Calling(todo, patch)) => if todo != [] then s.(agent := AwaitingReview) else s
    case (Execute(text, submitted), Calling(todo, patch)) =>
      if todo == [] then s
      else if !Callable(todo[0]) then s.(phase := Gone)
      else s.(phase := Saving(ToolMessage(todo[0], text), false, todo[1..], patch || submitted))
    case (Finish, Calling(todo, patch)) => if todo == [] then s.(phase := if patch then Parking(true) else Ready) else s
    case (ReportHalted, Parking(false)) => s.(agent := Halted)
    case (Park, Parking(review)) => s.(agent := if review then AwaitingReview else Halted, phase := Waiting)
    case (Command, Waiting) => if 0 < s.commands then s.(commands := s.commands - 1, phase := Fetching) else s
    case _ => s
  }

  /** One step; an event the code does not allow in this state changes nothing. */
  function Step(s: Session, event: Event): Session {
    match event
    case Feedback(messages) => TakeFeedback(s, messages)
    case Append(kept) => TakeAppend(s, kept)
    case _ => Local(s, event)
  }

  function Run(s: Session, events: seq<Event>): Session
    decreases |events|
  {
    if events == [] then s else Run(Step(s, events[0]), events[1..])
  }

  /** A worker whose agent starts, or is recovered, with the transcript `stored`. */
  predicate Init(s: Session) {
    s.history == [] && s.phase == Fetching && s.agent == Starting && s.commands == 0 && s.asked == []
  }

  lemma {:induction false} RunConcat(s: Session, a: seq<Event>, b: seq<Event>)
    ensures Run(s, a + b) == Run(Run(s, a), b)
    decreases |a|
  {
    if a == [] {
      assert a + b == b;
    } else {
      assert (a + b)[0] == a[0] && (a + b)[1..] == a[1..] + b;
      RunConcat(Step(s, a[0]), a[1..], b);
    }
  }

  /** What the controller shows of the agent: only these steps change it, and each command is taken once. */
  lemma AgentShows(s: Session, event: Event)
    ensures var t := Step(s, event);
            && t.agent == (match (event, s.phase)
                           case (Feedback(messages), _) =>
                             if messages != [] && s.agent in {Halted, AwaitingReview, ReviewReceived}
                             then ReviewReceived else s.agent
                           case (Resume, Resuming(_)) => Running
                           case (Submit, Calling(todo, _)) => if todo == [] then s.agent else AwaitingReview
                           case (ReportHalted, Parking(false)) => Halted
                           case (Park, Parking(review)) => if review then AwaitingReview else Halted
                           case _ => s.agent)
            && t.commands == s.commands
                             + (if event.Feedback? && event.messages != []
                                   && s.agent in {Halted, AwaitingReview, ReviewReceived} then 1 else 0)
                             - (if event == Command && s.phase == Waiting && 0 < s.commands then 1 else 0)
  {
  }

  // ------------------------------------------- the stored transcript's history

  /** What an event adds to the stored transcript. */
  function Appended(s: Session, event: Event): seq<Message> {
    if event.Feedback? && Accepted(s, event.messages) then event.messages
    else if event == Append(true) && s.phase.Saving? && !s.phase.sent then [s.phase.message]
    else []
  }

  function AllAppended(s: Session, events: seq<Event>): seq<Message>
    decreases |events|
  {
    if events == [] then [] else Appended(s, events[0]) + AllAppended(Step(s, events[0]), events[1..])
  }

  /** In every run the stored transcript is the first one and all accepted appends, in their order. */
  lemma {:induction false} StoredIsAppends(s: Session, events: seq<Event>)
    ensures Run(s, events).stored == s.stored + AllAppended(s, events)
    decreases |events|
  {
    if events != [] {
      StoredIsAppends(Step(s, events[0]), events[1..]);
    }
  }

  // -------------------------------------------------- the worker's own copy

  /** `a` is `b` with some elements left out. */
  predicate Sub<T(==)>(a: seq<T>, b: seq<T>) {
    || a == []
    || (b != [] && ((a[|a| - 1] == b[|b| - 1] && Sub(a[..|a| - 1], b[..|b| - 1])) || Sub(a, b[..|b| - 1])))
  }

  lemma {:induction false} SubRefl<T>(a: seq<T>)
    ensures Sub(a, a)
    decreases |a|
  {
    if a != [] {
      SubRefl(a[..|a| - 1]);
    }
  }

  lemma {:induction false} SubGrows<T>(a: seq<T>, b: seq<T>, more: seq<T>)
    requires Sub(a, b)
    ensures Sub(a, b + more)
    decreases |more|
  {
    if more == [] {
      assert b + more == b;
    } else {
      var n := |more| - 1;
      SubGrows(a, b, more[..n]);
      assert (b + more)[..|b| + n] == b + more[..n];
    }
  }

  lemma SubSnoc<T>(a: seq<T>, b: seq<T>, x: T)
    requires Sub(a, b)
    ensures Sub(a + [x], b + [x])
  {
    assert (a + [x])[..|a|] == a && (b + [x])[..|b|] == b;
  }

  /** The worker's copy, with the message the controller kept but has not yet confirmed. */
  function Known(s: Session): seq<Message> {
    if s.phase.Saving? && s.phase.sent then s.history + [s.phase.message]
    else if s.phase.Resuming? then s.phase.copy
    else s.history
  }

  ghost predicate Follows(s: Session) {
    && Sub(s.history, s.stored) && Sub(Known(s), s.stored)
    && (s.phase.Resuming? ==> s.phase.copy <= s.stored)
  }

  lemma LocalKnown(s: Session, event: Event)
    ensures var t := Local(s, event);
            && t.stored == s.stored
            && (t.history == s.history || t.history == Known(s))
            && (Known(t) == Known(s) || Known(t) == s.history || (t.phase == Resuming(s.stored) && event.Fetch?))
            && (t.phase.Resuming? ==> t.phase == s.phase || t.phase.copy == s.stored)
  {
  }

  lemma FeedbackFollows(s: Session, messages: seq<Message>)
    requires Follows(s)
    ensures Follows(TakeFeedback(s, messages))
  {
    hide Sub;
    SubGrows(s.history, s.stored, messages);
    SubGrows(Known(s), s.stored, messages);
  }

  lemma AppendFollows(s: Session, kept: bool)
    requires Follows(s)
    ensures Follows(TakeAppend(s, kept))
  {
    hide Sub;
    if s.phase.Saving? && !s.phase.sent {
      SubGrows(s.history, s.stored, [s.phase.message]);
      SubSnoc(s.history, s.stored, s.phase.message);
    }
  }

  lemma LocalFollows(s: Session, event: Event)
    requires Follows(s)
    ensures Follows(Local(s, event))
  {
    hide Sub, Local;
    LocalKnown(s, event);
    SubRefl(s.stored);
  }

  lemma StepFollows(s: Session, event: Event)
    requires Follows(s)
    ensures Follows(Step(s, event))
  {
    hide Follows, TakeFeedback, TakeAppend, Local;
    match event
    case Feedback(messages) => FeedbackFollows(s, messages);
    case Append(kept) => AppendFollows(s, kept);
    case _ => LocalFollows(s, event);
  }

  lemma {:induction false} RunFollows(s: Session, events: seq<Event>)
    requires Follows(s)
    ensures Follows(Run(s, events))
    decreases |events|
  {
    hide Step, Follows;
    if events != [] {
      StepFollows(s, events[0]);
      RunFollows(Step(s, events[0]), events[1..]);
    }
  }

  /** In every run the worker's copy is the stored transcript with some messages left out. */
  lemma CopyTheorem(s: Session, events: seq<Event>)
    requires Init(s)
    ensures Sub(Run(s, events).history, Run(s, events).stored)
    ensures Sub(Known(Run(s, events)), Run(s, events).stored)
  {
    hide Run;
    RunFollows(s, events);
  }

  /** Nothing is missing from a live worker's copy. */
  predicate Synced(s: Session) {
    !s.phase.Gone? ==> Known(s) == s.stored
  }

  predicate NoFeedback(s: Session, events: seq<Event>)
    decreases |events|
  {
    events == [] ||
    (!(events[0].Feedback? && Accepted(s, events[0].messages)) && NoFeedback(Step(s, events[0]), events[1..]))
  }

  lemma {:induction false} StaysSynced(s: Session, events: seq<Event>)
    requires Synced(s) && NoFeedback(s, events)
    ensures Synced(Run(s, events))
    decreases |events|
  {
    if events != [] {
      StaysSynced(Step(s, events[0]), events[1..]);
    }
  }

  /** With no feedback since the transcript was last read, the copy is the stored transcript. */
  lemma SyncedSinceRefresh(s: Session, before: seq<Event>, after: seq<Event>)
    requires Run(s, before).phase.Fetching? && NoFeedback(Step(Run(s, before), Fetch), after)
    ensures Synced(Run(s, before + [Fetch] + after))
  {
    RunConcat(s, before + [Fetch], after);
    RunConcat(s, before, [Fetch]);
    assert Run(Run(s, before), [Fetch]) == Step(Run(s, before), Fetch) by {
      assert [Fetch][1..] == [];
    }
    StaysSynced(Step(Run(s, before), Fetch), after);
  }

  // ---------------------------------------------------------- tool exchanges

  /** The calls whose results are still to be stored. */
  function Owed(phase: Phase): seq<Option<string>> {
    match phase
    case Saving(message, sent, todo, patch) =>
      if message.IsTool() && !sent then [message.callId] + CallIds(todo)
      else if message.IsTool() || sent then CallIds(todo)
      else []
    case Calling(todo, patch) => CallIds(todo)
    case _ => []
  }

  function CallIds(calls: seq<Call>): seq<Option<string>> {
    seq(|calls|, i requires 0 <= i < |calls| => calls[i].id)
  }

  /** Between an assistant's calls and the last of their results. */
  predicate MidExchange(s: Session) {
    Owed(s.phase) != []
  }

  predicate OpenedBy(messages: seq<Message>, owed: seq<Option<string>>) {
    && Exchanges(None, messages)
    && (owed != [] ==> Opener(None, messages).Some?)
    && forall i :: 0 <= i < |owed| && owed[i].Some? ==> Opener(None, messages).value.Calls(owed[i])
  }

  /** Both transcripts are made of exchanges, and the open one was opened by the owed calls' message. */
  ghost predicate Tidy(s: Session) {
    && OpenedBy(s.stored, Owed(s.phase))
    && OpenedBy(Known(s), Owed(s.phase))
    && Exchanges(None, s.history)
    && (s.phase.Saving? && s.phase.message.IsTool() ==> s.phase.message.callId.Some?)
    && (s.phase.Saving? && !s.phase.message.IsTool() ==>
          s.phase.message.role == Some("assistant") && s.phase.message.calls == Ids(s.phase.todo))
    && forall i :: 0 <= i < |s.asked| ==> Exchanges(None, s.asked[i])
  }

  /** Feedback lands only outside an open exchange, and brings no orphaned result itself. */
  predicate Polite(s: Session, event: Event) {
    event.Feedback? && Accepted(s, event.messages) ==> !MidExchange(s) && NoOrphans(event.messages)
  }

  predicate PoliteRun(s: Session, events: seq<Event>)
    decreases |events|
  {
    events == [] || (Polite(s, events[0]) && PoliteRun(Step(s, events[0]), events[1..]))
  }

  /** A stored message that answers an owed call, or that is no result, keeps the transcript tidy. */
  lemma Extend(messages: seq<Message>, m: Message)
    requires Exchanges(None, messages)
    requires m.IsTool() && Opener(None, messages).Some? ==> Opener(None, messages).value.Calls(m.callId)
    ensures Exchanges(None, messages + [m])
    ensures Opener(None, messages + [m]) == if m.IsTool() then Opener(None, messages) else Some(m)
  {
    ExchangesConcat(None, messages, [m]);
    assert [m][1..] == [];
  }

  lemma ExtendOwed(messages: seq<Message>, m: Message, owed: seq<Option<string>>)
    requires m.IsTool() && OpenedBy(messages, [m.callId] + owed) && m.callId.Some?
    ensures OpenedBy(messages + [m], owed)
  {
    var all := [m.callId] + owed;
    assert all[0] == m.callId;
    assert forall i :: 0 <= i < |owed| ==> owed[i] == all[i + 1];
    Extend(messages, m);
  }

  lemma ExtendOpens(messages: seq<Message>, m: Message, todo: seq<Call>)
    requires Exchanges(None, messages) && m.role == Some("assistant") && m.calls == Ids(todo)
    ensures OpenedBy(messages + [m], CallIds(todo))
  {
    Extend(messages, m);
    forall i | 0 <= i < |todo| && todo[i].id.Some? ensures m.Calls(CallIds(todo)[i]) {
      IdsHold(todo, i);
    }
  }

  lemma ExtendFeedback(messages: seq<Message>, more: seq<Message>)
    requires Exchanges(None, messages) && NoOrphans(more)
    ensures Exchanges(None, messages + more)
  {
    NoOrphansMeans(more);
    ExchangesConcat(None, messages, more);
  }

  lemma FeedbackTidy(s: Session, messages: seq<Message>)
    requires Tidy(s) && Polite(s, Feedback(messages))
    ensures Tidy(TakeFeedback(s, messages))
  {
    if Accepted(s, messages) {
      ExtendFeedback(s.stored, messages);
    }
  }

  lemma AppendTidy(s: Session, kept: bool)
    requires Tidy(s)
    ensures Tidy(TakeAppend(s, kept))
  {
    if s.phase.Saving? && !s.phase.sent {
      var m, todo := s.phase.message, s.phase.todo;
      if m.IsTool() {
        ExtendOwed(s.stored, m, CallIds(todo));
        ExtendOwed(s.history, m, CallIds(todo));
      } else {
        ExtendOpens(s.stored, m, todo);
        ExtendOpens(s.history, m, todo);
      }
    }
  }

  lemma CallIdsStep(todo: seq<Call>)
    requires todo != []
    ensures CallIds(todo) == [todo[0].id] + CallIds(todo[1..])
  {
  }

  lemma NoCallIds()
    ensures CallIds([]) == []
  {
  }

  lemma OpenedByNobody(messages: seq<Message>)
    ensures Exchanges(None, messages) <==> OpenedBy(messages, [])
  {
  }

  lemma OpenedByIs(messages: seq<Message>, owed: seq<Option<string>>)
    requires OpenedBy(messages, owed)
    ensures Exchanges(None, messages)
  {
  }

  lemma LocalTidy(s: Session, event: Event)
    requires Tidy(s)
    ensures Tidy(Local(s, event))
  {
    hide OpenedBy, Exchanges, CallIds;
    OpenedByIs(s.stored, Owed(s.phase));
    OpenedByIs(Known(s), Owed(s.phase));
    OpenedByNobody(s.stored);
    OpenedByNobody(Known(s));
    OpenedByNobody(s.history);
    if s.phase.Calling? && s.phase.todo != [] {
      CallIdsStep(s.phase.todo);
    }
    assert CallIds([]) == [] by { NoCallIds(); }
  }

  lemma StepTidy(s: Session, event: Event)
    requires Tidy(s) && Polite(s, event)
    ensures Tidy(Step(s, event))
  {
    hide Tidy, Polite, TakeFeedback, TakeAppend, Local;
    match event
    case Feedback(messages) => FeedbackTidy(s, messages);
    case Append(kept) => AppendTidy(s, kept);
    case _ => LocalTidy(s, event);
  }

  lemma {:induction false} TidyRun(s: Session, events: seq<Event>)
    requires Tidy(s) && PoliteRun(s, events)
    ensures Tidy(Run(s, events))
    decreases |events|
  {
    hide Tidy, Polite, Step;
    if events != [] {
      StepTidy(s, events[0]);
      TidyRun(Step(s, events[0]), events[1..]);
    }
  }

  /**
   From a transcript of whole exchanges, and with feedback only outside an open exchange,
   no model request of any run holds an orphaned tool result.
   */
  lemma RequestTheorem(s: Session, events: seq<Event>, i: nat, used: nat, size: Size, window: seq<Message>)
    requires Init(s) && Exchanges(None, s.stored) && PoliteRun(s, events)
    requires i < |Run(s, events).asked| && IsWindow(Run(s, events).asked[i], used, size, window)
    ensures NoOrphans(window)
  {
    hide Run, PoliteRun, Exchanges, IsWindow, NoOrphans;
    OpenedByNobody(s.stored);
    assert Exchanges(None, []) by { EmptyExchanges(); }
    OpenedByNobody([]);
    assert Tidy(s);
    TidyRun(s, events);
    NoOrphansSent(Run(s, events).asked[i], used, size, window);
  }

  lemma EmptyExchanges()
    ensures Exchanges(None, [])
  {
  }

  // ------------------------------------------------- the turn as a run of steps

  /** The steps of the calls of one turn when nobody interferes. */
  function CallEvents(calls: seq<Call>, outcomes: seq<Outcome>): seq<Event>
    requires |calls| <= |outcomes|
  {
    if calls == [] then []
    else
      var result := Execute(outcomes[0].text, Submits(calls[0], outcomes[0]));
      if !Callable(calls[0]) then [result]
      else
        match outcomes[0].reply
        case Confirmed => [result, Append(true), Confirm] + CallEvents(calls[1..], outcomes[1..])
        case Refused => [result, Append(false)]
        case Lost => [result, Append(true), Fail]
  }

  /** What the turn's method computes is what the machine does on these steps. */
  lemma {:induction false} TurnIsRun(s: Session, calls: seq<Call>, outcomes: seq<Outcome>, patch: bool)
    requires |calls| <= |outcomes| && s.phase == Calling(calls, patch)
    ensures var turn, t := Answered(calls, outcomes, patch), Run(s, CallEvents(calls, outcomes));
            && t.stored == s.stored + turn.kept && t.history == s.history + turn.seen
            && t.phase == (if turn.end.Finished? then Calling([], turn.end.patch) else Gone)
            && t.agent == s.agent && t.commands == s.commands && t.asked == s.asked
    decreases |calls|
  {
    hide Run, Step, Submits, ToolMessage, Callable;
    if calls == [] {
      RunNothing(s);
    } else {
      var c, o := calls[0], outcomes[0];
      var sub := Submits(c, o);
      OneCall(s, c, o.text, sub);
      if Callable(c) && o.reply.Confirmed? {
        var first := [Execute(o.text, sub), Append(true), Confirm];
        var m, rest := ToolMessage(c, o.text), Answered(calls[1..], outcomes[1..], patch || sub);
        RunConcat(s, first, CallEvents(calls[1..], outcomes[1..]));
        TurnIsRun(Run(s, first), calls[1..], outcomes[1..], patch || sub);
        assert s.stored + [m] + rest.kept == s.stored + ([m] + rest.kept);
        assert s.history + [m] + rest.seen == s.history + ([m] + rest.seen);
      }
    }
  }

  lemma RunNothing(s: Session)
    ensures Run(s, []) == s
  {
  }

  lemma OneCall(s: Session, c: Call, text: string, submitted: bool)
    requires s.phase.Calling? && s.phase.todo != [] && c == s.phase.todo[0]
    ensures var result := Execute(text, submitted);
            var m, rest := ToolMessage(c, text), s.phase.todo[1..];
            var gone := s.(phase := Gone);
            if !Callable(c) then Run(s, [result]) == gone
            else
              && Run(s, [result, Append(false)]) == gone
              && Run(s, [result, Append(true), Fail]) == gone.(stored := s.stored + [m])
              && Run(s, [result, Append(true), Confirm])
                 == s.(stored := s.stored + [m], history := s.history + [m],
                       phase := Calling(rest, s.phase.patch || submitted))
  {
    hide Run, ToolMessage;
    var result := Execute(text, submitted);
    if Callable(c) {
      ToolMessageAnswers(c, text);
    }
    RunThree(s, result, Append(false), Fail);
    RunThree(s, result, Append(true), Fail);
    RunThree(s, result, Append(true), Confirm);
  }

  lemma RunThree(s: Session, a: Event, b: Event, c: Event)
    ensures Run(s, [a]) == Step(s, a)
    ensures Run(s, [a, b]) == Step(Step(s, a), b)
    ensures Run(s, [a, b, c]) == Step(Step(Step(s, a), b), c)
  {
    hide Step;
    assert [a][1..] == [] && [a, b][1..] == [b] && [a, b, c][1..] == [b, c] && [b, c][1..] == [c] && [b][1..] == [];
    assert [c][1..] == [];
    assert Run(Step(s, a), [b]) == Step(Step(s, a), b);
    assert Run(Step(Step(s, a), b), [c]) == Step(Step(Step(s, a), b), c);
    assert Run(Step(s, a), [b, c]) == Step(Step(Step(s, a), b), c);
  }
}
