/**
 What an operator's feedback does to a turn that is still open (agent_worker.py:616-704;
 agent_controller.py:889-903): a message taken in between an assistant's calls and a later
 result is stored between the two, for good, and requests made after the transcript is read
 again can hold the result without its call.
 */
module WorkerFeedback {
  import opened Wrappers
  import opened WorkerWindow
  import opened WorkerTurns
  import opened WorkerRuns

  // ----------------------------------------- windows of a broken transcript

  predicate AllResults(messages: seq<Message>) {
    forall i :: 0 <= i < |messages| ==> messages[i].IsTool()
  }

  /** A message that neither calls nor answers anything. */
  predicate Plain(m: Message) {
    m.role.Some? && !m.IsTool() && m.role != Some("assistant")
  }

  lemma {:induction false} CleanResults(results: seq<Message>)
    requires AllResults(results)
    ensures |Clean(results)| == |results| && AllResults(Clean(results))
  {
    if results != [] {
      CleanResults(results[1..]);
    }
  }

  /** The last messages as they are sent: `m` first, then its results, in front of nothing. */
  lemma CleanLast(m: Message, results: seq<Message>)
    requires Plain(m) && AllResults(results) && results != []
    ensures var last := Clean([m] + results);
            |last| == 1 + |results| && last[0] == Strip(m) && last[1].IsTool()
  {
    assert ([m] + results)[1..] == results;
    CleanResults(results);
  }

  lemma OrphanPair(opener: Option<Message>, messages: seq<Message>)
    requires |messages| >= 2 && !messages[0].IsTool() && messages[0].role != Some("assistant") && messages[1].IsTool()
    ensures !Exchanges(opener, messages)
  {
    assert messages[1..][0] == messages[1];
  }

  lemma {:induction false} TotalSuffix(messages: seq<Message>, size: Size, i: nat)
    requires i <= |messages|
    ensures Total(messages[i..], size) <= Total(messages, size)
  {
    if 0 < i {
      assert messages[1..][i - 1..] == messages[i..];
      TotalSuffix(messages[1..], size, i - 1);
    }
  }

  /** A block whose last messages fit holds them all, uncut. */
  lemma LastInBlock(front: seq<Message>, last: seq<Message>, used: nat, size: Size, k: nat, e: nat, block: seq<Message>)
    requires last != [] && used + Total(last, size) <= MAX_CONTEXT_BYTES
    requires IsBlock(front + last, used, size, k, e, block)
    ensures k <= |front| && block == front[k..] + last
  {
    hide Fits, Fitted, Total;
    var recent, n := front + last, |front| + |last|;
    var newest := last[|last| - 1];
    TotalSuffix(last, size, |last| - 1);
    OneTotal(last, size);
    FitsWhole(newest, used, size);
    assert recent[n - 1] == newest;
    assert e == n;
    BlockSlices(front, last, k);
    if |front| < k {
      SizeFirst(last, size, k - 1 - |front|);
      TotalSuffix(last, size, k - 1 - |front|);
    }
  }

  lemma BlockSlices(front: seq<Message>, last: seq<Message>, k: nat)
    requires last != [] && k < |front| + |last|
    ensures var recent, n := front + last, |front| + |last|;
            var block := recent[k..n - 1] + [recent[n - 1]];
            if |front| < k then block == last[k - |front|..] && recent[k - 1] == last[k - 1 - |front|]
            else block == front[k..] + last
  {
  }

  lemma OneTotal(last: seq<Message>, size: Size)
    requires last != []
    ensures Total(last[|last| - 1..], size) == size(last[|last| - 1])
  {
    assert last[|last| - 1..][1..] == [];
  }

  lemma FitsWhole(m: Message, used: nat, size: Size)
    requires used + size(m) <= MAX_CONTEXT_BYTES
    ensures Fitted(m, used, size) == m && Fits(m, used, size)
  {
  }

  lemma SizeFirst(messages: seq<Message>, size: Size, i: nat)
    requires i < |messages|
    ensures Total(messages[i..], size) == size(messages[i]) + Total(messages[i + 1..], size)
  {
    assert messages[i..][0] == messages[i] && messages[i..][1..] == messages[i + 1..];
  }

  lemma RecentLast(clean: seq<Message>, last: seq<Message>) returns (front: seq<Message>)
    requires |last| <= MAX_CONTEXT_MESSAGES
    ensures Recent(clean + last) == front + last
  {
    var all := clean + last;
    var cut := if |all| <= MAX_CONTEXT_MESSAGES then 0 else |all| - MAX_CONTEXT_MESSAGES;
    front := clean[cut..];
    assert all[cut..] == front + last;
  }

  /** Whatever a message costs: if these last messages fit, the request holds a result without its call. */
  lemma OrphanSent(history: seq<Message>, m: Message, results: seq<Message>, used: nat, size: Size,
                   window: seq<Message>)
    requires Plain(m) && AllResults(results) && 0 < |results| < MAX_CONTEXT_MESSAGES
    requires used + Total(Clean([m] + results), size) <= MAX_CONTEXT_BYTES
    requires IsWindow(history + ([m] + results), used, size, window)
    ensures !NoOrphans(window)
  {
    hide Clean, Recent, IsBlock, Trim, NoOrphans, Total, Exchanges;
    var last := Clean([m] + results);
    CleanConcat(history, [m] + results);
    CleanLast(m, results);
    var front := RecentLast(Clean(history), last);
    var k: nat, e: nat, block :| IsBlock(front + last, used, size, k, e, block) && window == Trim(block);
    LastInBlock(front, last, used, size, k, e, block);
    if NoOrphans(window) {
      UntrimExchanges(block);
      ExchangesConcat(None, front[k..], last);
      OrphanPair(Opener(None, front[k..]), last);
    }
  }

  // --------------------------------------------------- a run that gets there

  /** Up to the calls of the first turn, one of which submits a patch. */
  function FirstTurn(content: Content, calls: seq<Call>): seq<Event> {
    [Fetch, Resume, Ask, Answer(content, calls), Append(true), Confirm, Submit]
  }

  /** From the end of a turn that submitted a patch to the next request. */
  const NEXT_REQUEST: seq<Event> := [Finish, Park, Command, Fetch, Resume, Ask]

  lemma RunFour(s: Session, a: Event, b: Event, c: Event, d: Event)
    ensures Run(s, [a, b, c, d]) == Step(Step(Step(Step(s, a), b), c), d)
  {
    hide Run, Step;
    RunThree(s, a, b, c);
    RunConcat(s, [a, b, c], [d]);
    RunThree(Run(s, [a, b, c]), d, d, d);
    assert [a, b, c] + [d] == [a, b, c, d];
  }

  lemma FirstTurnRuns(s: Session, content: Content, calls: seq<Call>)
    requires Init(s) && 0 < |calls| <= MAX_TOOL_CALLS_PER_TURN
    ensures var t := Run(s, FirstTurn(content, calls));
            && t.phase == Calling(calls, false) && t.agent == AwaitingReview && t.asked == [s.stored]
            && t.stored == s.stored + [Assistant(content, calls)] && t.commands == 0
  {
    hide Run, Assistant;
    AssistantIs(content, calls);
    RunFour(s, Fetch, Resume, Ask, Answer(content, calls));
    var t := Run(s, [Fetch, Resume, Ask, Answer(content, calls)]);
    RunThree(t, Append(true), Confirm, Submit);
    RunConcat(s, [Fetch, Resume, Ask, Answer(content, calls)], [Append(true), Confirm, Submit]);
    assert [Fetch, Resume, Ask, Answer(content, calls)] + [Append(true), Confirm, Submit] == FirstTurn(content, calls);
  }

  lemma AssistantIs(content: Content, calls: seq<Call>)
    ensures !Assistant(content, calls).IsTool()
  {
  }

  /** After the last result: the wait, the command, and the next request. */
  lemma NextRequestRuns(s: Session)
    requires s.phase == Calling([], true) && 0 < s.commands
    ensures Run(s, NEXT_REQUEST).asked == s.asked + [s.stored]
  {
    hide Run;
    RunThree(s, Finish, Park, Command);
    var t := Run(s, [Finish, Park, Command]);
    RunThree(t, Fetch, Resume, Ask);
    RunConcat(s, [Finish, Park, Command], [Fetch, Resume, Ask]);
    assert [Finish, Park, Command] + [Fetch, Resume, Ask] == NEXT_REQUEST;
  }

  /** A turn that finishes answers every call. */
  lemma FinishedResults(calls: seq<Call>, outcomes: seq<Outcome>, patch: bool)
    requires |calls| <= |outcomes| && Answered(calls, outcomes, patch).end.Finished?
    ensures |Answered(calls, outcomes, patch).kept| == |calls| && AllResults(Answered(calls, outcomes, patch).kept)
  {
    hide Answered;
    AnsweredInOrder(calls, outcomes, patch);
  }

  /**
   An operator's message taken in before any of the remaining results of a turn that submits a
   patch is stored between these and their calls, for good. The worker's next request is made
   from that transcript, and holds results without their calls if the message and the results
   fit the byte limit, whatever a message costs.
   */
  lemma FeedbackInExchange(s: Session, m: Message, outcomes: seq<Outcome>)
    requires s.phase.Calling? && 0 < |s.phase.todo| <= |outcomes| && |s.phase.todo| <= MAX_TOOL_CALLS_PER_TURN
    requires Answered(s.phase.todo, outcomes, s.phase.patch).end == Finished(true)
    requires Continuable(s.agent) && Plain(m)
    ensures var results := Answered(s.phase.todo, outcomes, s.phase.patch).kept;
            var asked := s.stored + ([m] + results);
            && |results| == |s.phase.todo|
            && Run(s, [Feedback([m])] + (CallEvents(s.phase.todo, outcomes) + NEXT_REQUEST)).asked == s.asked + [asked]
            && (forall more :: !Exchanges(None, asked + more))
            && (forall used: nat, size: Size, w ::
                  IsWindow(asked, used, size, w) && used + Total(Clean([m] + results), size) <= MAX_CONTEXT_BYTES
                  ==> !NoOrphans(w))
  {
    hide Run, Answered, CallEvents, IsWindow, NoOrphans, Exchanges, AllResults, Plain;
    var todo := s.phase.todo;
    var results := Answered(todo, outcomes, s.phase.patch).kept;
    var asked := s.stored + ([m] + results);
    FinishedResults(todo, outcomes, s.phase.patch);
    FeedbackRuns(s, m, outcomes);
    forall more ensures !Exchanges(None, asked + more) {
      PlainThenResult(m, results);
      ExchangesConcat(None, asked, more);
      ExchangesConcat(None, s.stored, [m] + results);
      OrphanPair(Opener(None, s.stored), [m] + results);
    }
    forall used: nat, size: Size, w |
      IsWindow(asked, used, size, w) && used + Total(Clean([m] + results), size) <= MAX_CONTEXT_BYTES
      ensures !NoOrphans(w)
    {
      OrphanSent(s.stored, m, results, used, size, w);
    }
  }

  lemma PlainThenResult(m: Message, results: seq<Message>)
    requires Plain(m) && AllResults(results) && results != []
    ensures var all := [m] + results;
            !all[0].IsTool() && all[0].role != Some("assistant") && all[1].IsTool()
  {
  }

  lemma FeedbackRuns(s: Session, m: Message, outcomes: seq<Outcome>)
    requires s.phase.Calling? && 0 < |s.phase.todo| <= |outcomes|
    requires Answered(s.phase.todo, outcomes, s.phase.patch).end == Finished(true)
    requires Continuable(s.agent)
    ensures Run(s, [Feedback([m])] + (CallEvents(s.phase.todo, outcomes) + NEXT_REQUEST)).asked
            == s.asked + [s.stored + ([m] + Answered(s.phase.todo, outcomes, s.phase.patch).kept)]
  {
    hide Run, Answered, CallEvents, ToolMessage;
    var todo := s.phase.todo;
    var results := Answered(todo, outcomes, s.phase.patch).kept;
    RunThree(s, Feedback([m]), Fail, Fail);
    var t := Run(s, [Feedback([m])]);
    TurnIsRun(t, todo, outcomes, s.phase.patch);
    var u := Run(t, CallEvents(todo, outcomes));
    NextRequestRuns(u);
    RunConcat(t, CallEvents(todo, outcomes), NEXT_REQUEST);
    RunConcat(s, [Feedback([m])], CallEvents(todo, outcomes) + NEXT_REQUEST);
    assert s.stored + [m] + results == s.stored + ([m] + results);
  }

  /** Such a run exists for every transcript to start from and every first turn that submits a patch. */
  lemma FeedbackReaches(s: Session, content: Content, calls: seq<Call>, outcomes: seq<Outcome>, m: Message)
    requires Init(s) && 0 < |calls| <= |outcomes| && |calls| <= MAX_TOOL_CALLS_PER_TURN
    requires Answered(calls, outcomes, false).end == Finished(true) && Plain(m)
    ensures var results := Answered(calls, outcomes, false).kept;
            var asked := s.stored + [Assistant(content, calls)] + ([m] + results);
            var events := FirstTurn(content, calls) + ([Feedback([m])] + (CallEvents(calls, outcomes) + NEXT_REQUEST));
            && Run(s, events).asked == [s.stored, asked]
            && (forall used: nat, size: Size, w ::
                  IsWindow(asked, used, size, w) && used + Total(Clean([m] + results), size) <= MAX_CONTEXT_BYTES
                  ==> !NoOrphans(w))
  {
    hide Run, Answered, CallEvents, IsWindow, NoOrphans, Exchanges, Plain, Assistant;
    FirstTurnRuns(s, content, calls);
    FeedbackInExchange(Run(s, FirstTurn(content, calls)), m, outcomes);
    RunConcat(s, FirstTurn(content, calls), [Feedback([m])] + (CallEvents(calls, outcomes) + NEXT_REQUEST));
  }

  // --------------------------------------------- exactly when it goes wrong

  /** No feedback brings a result or an assistant's message. */
  predicate PlainFeedback(events: seq<Event>) {
    forall i :: 0 <= i < |events| && events[i].Feedback? ==> forall m :: m in events[i].messages ==> Plain(m)
  }

  /** A result is kept. */
  predicate KeepsResult(s: Session, event: Event) {
    event == Append(true) && s.phase.Saving? && !s.phase.sent && s.phase.message.IsTool()
  }

  /** Whether feedback has landed in the exchange that is open after the event. */
  function CutAfter(s: Session, event: Event, cut: bool): bool {
    if event == Append(true) && s.phase.Saving? && !s.phase.sent && !s.phase.message.IsTool() then false
    else cut || (event.Feedback? && Accepted(s, event.messages) && MidExchange(s))
  }

  /** Feedback is accepted in the middle of an exchange and a later result of that turn is kept. */
  predicate Breaks(s: Session, events: seq<Event>, cut: bool)
    decreases |events|
  {
    events != []
    && ((cut && KeepsResult(s, events[0])) || Breaks(Step(s, events[0]), events[1..], CutAfter(s, events[0], cut)))
  }

  /** The stored transcript is made of exchanges, and the open one is the owed calls', or cut. */
  predicate Sound(s: Session, cut: bool) {
    && Exchanges(None, s.stored)
    && (if cut then Opener(None, s.stored).Some? && Plain(Opener(None, s.stored).value)
        else OpenedBy(s.stored, Owed(s.phase)))
    && (s.phase.Saving? && s.phase.message.IsTool() ==> s.phase.message.callId.Some?)
    && (s.phase.Saving? && !s.phase.message.IsTool() ==>
          s.phase.message.role == Some("assistant") && s.phase.message.calls == Ids(s.phase.todo))
  }

  lemma {:induction false} PlainExchanges(opener: Option<Message>, messages: seq<Message>)
    requires forall m :: m in messages ==> Plain(m)
    ensures Exchanges(opener, messages)
    ensures messages != [] ==> Opener(opener, messages) == Some(messages[|messages| - 1])
    decreases |messages|
  {
    if messages != [] {
      assert Plain(messages[0]);
      PlainExchanges(Some(messages[0]), messages[1..]);
    }
  }

  lemma FeedbackSound(s: Session, messages: seq<Message>, cut: bool)
    requires Sound(s, cut) && forall m :: m in messages ==> Plain(m)
    ensures Sound(TakeFeedback(s, messages), CutAfter(s, Feedback(messages), cut))
  {
    hide Plain, Exchanges, Opener, Ids, CallIds;
    if Accepted(s, messages) {
      ExchangesConcat(None, s.stored, messages);
      PlainExchanges(Opener(None, s.stored), messages);
    }
  }

  lemma AppendSound(s: Session, kept: bool, cut: bool)
    requires Sound(s, cut) && !(cut && KeepsResult(s, Append(kept)))
    ensures Sound(TakeAppend(s, kept), CutAfter(s, Append(kept), cut))
  {
    hide Plain, Exchanges, Opener, Ids, CallIds, OpenedBy;
    if s.phase.Saving? && !s.phase.sent && kept {
      var m, todo := s.phase.message, s.phase.todo;
      if m.IsTool() {
        ExtendOwed(s.stored, m, CallIds(todo));
        OpenedByIs(s.stored + [m], CallIds(todo));
      } else {
        ExtendOpens(s.stored, m, todo);
        OpenedByIs(s.stored + [m], CallIds(todo));
      }
    } else {
      OpenedByNobody(s.stored);
    }
  }

  lemma LocalSound(s: Session, event: Event, cut: bool)
    requires Sound(s, cut)
    ensures Sound(Local(s, event), cut)
  {
    hide OpenedBy, Exchanges, CallIds, Plain, Opener;
    OpenedByNobody(s.stored);
    if s.phase.Calling? && s.phase.todo != [] {
      CallIdsStep(s.phase.todo);
    }
    NoCallIds();
  }

  lemma StepSound(s: Session, event: Event, cut: bool)
    requires Sound(s, cut) && !(cut && KeepsResult(s, event))
    requires event.Feedback? ==> forall m :: m in event.messages ==> Plain(m)
    ensures Sound(Step(s, event), CutAfter(s, event, cut))
  {
    hide Sound, TakeFeedback, TakeAppend, Local, Plain;
    match event
    case Feedback(messages) => FeedbackSound(s, messages, cut);
    case Append(kept) => AppendSound(s, kept, cut);
    case _ => LocalSound(s, event, cut);
  }

  /** A result kept after the cut is an orphan, and stays one. */
  lemma CutBreaks(s: Session, events: seq<Event>)
    requires Sound(s, true) && events != [] && KeepsResult(s, events[0])
    ensures !Exchanges(None, Run(s, events).stored)
  {
    hide Run, Ids, CallIds;
    var m := s.phase.message;
    var t := Step(s, events[0]);
    ExchangesConcat(None, s.stored, [m]);
    StoredIsAppends(t, events[1..]);
    ExchangesConcat(None, s.stored + [m], AllAppended(t, events[1..]));
    RunStep(s, events);
  }

  lemma RunStep(s: Session, events: seq<Event>)
    requires events != []
    ensures Run(s, events) == Run(Step(s, events[0]), events[1..])
  {
  }

  lemma {:induction false} BreaksFrom(s: Session, events: seq<Event>, cut: bool)
    requires Sound(s, cut) && PlainFeedback(events)
    ensures Exchanges(None, Run(s, events).stored) <==> !Breaks(s, events, cut)
    decreases |events|
  {
    hide Step, KeepsResult, CutAfter, Plain, Exchanges, Opener, OpenedBy;
    if events != [] {
      if cut && KeepsResult(s, events[0]) {
        CutBreaks(s, events);
      } else {
        StepSound(s, events[0], cut);
        BreaksFrom(Step(s, events[0]), events[1..], CutAfter(s, events[0], cut));
      }
    }
  }

  /**
   From whole exchanges, and with feedback that neither calls nor answers, the stored transcript
   stops being made of exchanges exactly when feedback is accepted in the middle of an exchange
   and a later result of that turn is kept.
   */
  lemma BreaksTheorem(s: Session, events: seq<Event>)
    requires Init(s) && Exchanges(None, s.stored) && PlainFeedback(events)
    ensures Exchanges(None, Run(s, events).stored) <==> !Breaks(s, events, false)
  {
    hide Run, Breaks, PlainFeedback, Exchanges;
    OpenedByNobody(s.stored);
    BreaksFrom(s, events, false);
  }

  /** The worker's own copy is made of exchanges, and so is all that was asked from it. */
  predicate CopySound(s: Session) {
    && OpenedBy(Known(s), Owed(s.phase)) && Exchanges(None, s.history)
    && forall i :: 0 <= i < |s.asked| ==> Exchanges(None, s.asked[i])
  }

  lemma AppendCopy(s: Session, kept: bool, cut: bool)
    requires Sound(s, cut) && CopySound(s)
    ensures CopySound(TakeAppend(s, kept))
  {
    hide Plain, Exchanges, Opener, Ids, CallIds, OpenedBy;
    OpenedByNobody(s.history);
    if s.phase.Saving? && !s.phase.sent && kept {
      var m, todo := s.phase.message, s.phase.todo;
      if m.IsTool() {
        ExtendOwed(s.history, m, CallIds(todo));
      } else {
        ExtendOpens(s.history, m, todo);
      }
    }
  }

  lemma LocalCopy(s: Session, event: Event, cut: bool)
    requires Sound(s, cut) && CopySound(s)
    ensures CopySound(Local(s, event))
  {
    hide OpenedBy, Exchanges, CallIds, Plain, Opener;
    OpenedByIs(Known(s), Owed(s.phase));
    OpenedByNobody(s.stored);
    OpenedByNobody(Known(s));
    OpenedByNobody(s.history);
    if s.phase.Calling? && s.phase.todo != [] {
      CallIdsStep(s.phase.todo);
    }
    NoCallIds();
  }

  lemma StepCopy(s: Session, event: Event, cut: bool)
    requires Sound(s, cut) && CopySound(s)
    ensures CopySound(Step(s, event))
  {
    hide Sound, TakeAppend, Local, Plain, OpenedBy, Exchanges;
    match event
    case Feedback(messages) =>
    case Append(kept) => AppendCopy(s, kept, cut);
    case _ => LocalCopy(s, event, cut);
  }

  lemma {:induction false} RunCopy(s: Session, events: seq<Event>, cut: bool)
    requires Sound(s, cut) && CopySound(s) && PlainFeedback(events) && !Breaks(s, events, cut)
    ensures CopySound(Run(s, events))
    decreases |events|
  {
    hide Step, Sound, CopySound, KeepsResult, CutAfter, Plain;
    if events != [] {
      StepSound(s, events[0], cut);
      StepCopy(s, events[0], cut);
      RunCopy(Step(s, events[0]), events[1..], CutAfter(s, events[0], cut));
    }
  }

  /** And as long as that does not happen, no model request of the run holds an orphaned result. */
  lemma UnbrokenRequests(s: Session, events: seq<Event>, i: nat, used: nat, size: Size, window: seq<Message>)
    requires Init(s) && Exchanges(None, s.stored) && PlainFeedback(events) && !Breaks(s, events, false)
    requires i < |Run(s, events).asked| && IsWindow(Run(s, events).asked[i], used, size, window)
    ensures NoOrphans(window)
  {
    hide Run, Breaks, PlainFeedback, Exchanges, IsWindow, NoOrphans, Opener;
    OpenedByNobody(s.stored);
    EmptyExchanges();
    OpenedByNobody([]);
    RunCopy(s, events, false);
    NoOrphansSent(Run(s, events).asked[i], used, size, window);
  }
}
