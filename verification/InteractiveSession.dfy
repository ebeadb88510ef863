/**
 One interactive edit session: bridge callers wait on futures, an operator resolves them,
 and timers, abort, process exit and new starts interfere (interactive_workflow.py:75-78,
 123-404). The lock is held for whole steps, and by `start` across its await.
 */
module InteractiveSession {
  import opened Wrappers

  datatype Phase = Idle | Starting | Running | WaitingInput | Done | Error

  /** What a bridge caller is told: its own paths when acknowledged. */
  datatype Reply = Acknowledged(paths: seq<string>) | Aborted

  datatype Future = Unresolved | Resolved(reply: Reply) | TimedOut

  /** A pending request and the future its caller awaits. */
  datatype EditRequest = EditRequest(paths: seq<string>, future: nat)

  datatype SessionResult = AbortedResult | ExitResult(ok: bool)

  /**
   `asked` and `futures` hold one entry per bridge call that waited; `epoch` is how many there
   were at the last start; `settled` logs every future that was given a result or timed out.
   */
  datatype State = State(phase: Phase, asked: seq<seq<string>>, futures: seq<Future>, pending: Option<EditRequest>,
                         starting: bool, running: bool, launched: bool, unwatched: nat, abortRequested: bool,
                         result: Option<SessionResult>, needsInput: bool, finished: bool,
                         epoch: nat, settled: seq<nat>)

  datatype Event =
    | StartBegin
    | StartEnd(ok: bool)                    // the process was created, or that failed
    | Request(paths: seq<string>)           // on_edit_request, with the paths it hands out
    | TimerFires(future: nat)               // wait_for gives up and cancels the future
    | TimeoutCleanup(future: nat)           // its caller gets the lock again
    | Submit(moved: bool)                   // `moved`: all files went back to their places
    | Abort
    | ProcessDone                           // the process has ended
    | Watch(ok: bool)                       // its watcher runs

  const INITIAL := State(Idle, [], [], None, false, false, false, 0, false, None, false, false, 0, [])

  predicate Active(s: State) {
    s.pending.Some? && s.pending.value.future < |s.futures| && s.futures[s.pending.value.future].Unresolved?
  }

  function Settle(s: State, future: nat, outcome: Future): State
    requires future < |s.futures|
  {
    s.(futures := s.futures[future := outcome], settled := s.settled + [future])
  }

  function Begin(s: State): State {
    s.(phase := Starting, result := None, pending := None, abortRequested := false, needsInput := false,
       finished := false, starting := true, epoch := |s.futures|)
  }

  function AbortSession(s: State): State {
    var s' := if Active(s) then Settle(s, s.pending.value.future, Resolved(Aborted)) else s;
    var s'' := s'.(abortRequested := true, pending := None, needsInput := false);
    if s.launched then s'' else s''.(result := Some(AbortedResult), phase := Done, finished := true)
  }

  function WatchExit(s: State, ok: bool): State
    requires 0 < s.unwatched
  {
    s.(unwatched := s.unwatched - 1, needsInput := false, finished := true,
       result := Some(if s.abortRequested then AbortedResult else ExitResult(ok)),
       phase := if s.abortRequested || ok then Done else Error)
  }

  /** One step; while a start holds the lock, those that need it wait. */
  function Step(s: State, event: Event): State {
    match event
    case StartBegin => if s.starting || s.running then s else Begin(s)
    case StartEnd(ok) =>
      if !s.starting then s
      else if ok then s.(starting := false, running := true, launched := true, phase := Running)
      else s.(starting := false)
    case Request(paths) =>
      if s.starting || Active(s) || paths == [] then s
      else s.(asked := s.asked + [paths], futures := s.futures + [Unresolved],
              pending := Some(EditRequest(paths, |s.futures|)), phase := WaitingInput, needsInput := true)
    case TimerFires(future) =>
      if future < |s.futures| && s.futures[future].Unresolved? then Settle(s, future, TimedOut) else s
    case TimeoutCleanup(future) =>
      if !s.starting && future < |s.futures| && s.futures[future].TimedOut?
         && s.pending.Some? && s.pending.value.future == future
      then s.(pending := None, phase := Error, needsInput := false)
      else s
    case Submit(moved) =>
      if s.starting || !Active(s) || !moved then s
      else
        var request := s.pending.value;
        Settle(s, request.future, Resolved(Acknowledged(request.paths)))
        .(pending := None, phase := Running, needsInput := false)
    case Abort => if s.starting then s else AbortSession(s)
    case ProcessDone => if s.running then s.(running := false, unwatched := s.unwatched + 1) else s
    case Watch(ok) => if 0 < s.unwatched then WatchExit(s, ok) else s
  }

  function Run(s: State, events: seq<Event>): State
    decreases |events|
  {
    if events == [] then s else Run(Step(s, events[0]), events[1..])
  }

  // ------------------------------------------------------------- invariant

  /** Each future is settled at most once, and acknowledged only with its own paths. */
  predicate Books(asked: seq<seq<string>>, futures: seq<Future>, settled: seq<nat>) {
    && |asked| == |futures|
    && (forall i :: 0 <= i < |futures| ==> (i in settled <==> !futures[i].Unresolved?))
    && (forall i, j :: 0 <= i < j < |settled| ==> settled[i] != settled[j])
    && (forall k :: 0 <= k < |settled| ==> settled[k] < |futures|)
    && (forall i :: 0 <= i < |futures| && futures[i].Resolved? && futures[i].reply.Acknowledged? ==>
          futures[i].reply.paths == asked[i])
  }

  /** The pending request is one made since the last start; no other one since then is open. */
  predicate OneOpen(asked: seq<seq<string>>, futures: seq<Future>, pending: Option<EditRequest>, epoch: nat) {
    && epoch <= |futures| == |asked|
    && (pending.Some? ==>
          epoch <= pending.value.future < |futures| && pending.value.paths == asked[pending.value.future])
    && (forall i :: epoch <= i < |futures| && futures[i].Unresolved? ==> pending.Some? && pending.value.future == i)
  }

  predicate Valid(s: State) {
    Books(s.asked, s.futures, s.settled) && OneOpen(s.asked, s.futures, s.pending, s.epoch)
  }

  lemma SettleBooks(asked: seq<seq<string>>, futures: seq<Future>, settled: seq<nat>, future: nat, outcome: Future)
    requires Books(asked, futures, settled) && future < |futures| && futures[future].Unresolved?
    requires !outcome.Unresolved?
    requires outcome.Resolved? && outcome.reply.Acknowledged? ==> outcome.reply.paths == asked[future]
    ensures Books(asked, futures[future := outcome], settled + [future])
  {
  }

  lemma RequestBooks(asked: seq<seq<string>>, futures: seq<Future>, settled: seq<nat>, paths: seq<string>)
    requires Books(asked, futures, settled)
    ensures Books(asked + [paths], futures + [Unresolved], settled)
  {
  }

  lemma StepBooks(s: State, event: Event)
    requires Valid(s)
    ensures var t := Step(s, event); Books(t.asked, t.futures, t.settled)
  {
    hide Books;
    match event
    case Request(paths) => RequestBooks(s.asked, s.futures, s.settled, paths);
    case TimerFires(future) =>
      if future < |s.futures| && s.futures[future].Unresolved? {
        SettleBooks(s.asked, s.futures, s.settled, future, TimedOut);
      }
    case Submit(_) =>
      if Active(s) {
        SettleBooks(s.asked, s.futures, s.settled, s.pending.value.future,
                    Resolved(Acknowledged(s.pending.value.paths)));
      }
    case Abort =>
      if Active(s) {
        SettleBooks(s.asked, s.futures, s.settled, s.pending.value.future, Resolved(Aborted));
      }
    case _ =>
  }

  lemma SettleOpen(asked: seq<seq<string>>, futures: seq<Future>, pending: Option<EditRequest>, epoch: nat,
                   future: nat, outcome: Future)
    requires OneOpen(asked, futures, pending, epoch) && future < |futures| && !outcome.Unresolved?
    ensures OneOpen(asked, futures[future := outcome], pending, epoch)
    ensures pending.Some? && pending.value.future == future ==> OneOpen(asked, futures[future := outcome], None, epoch)
  {
  }

  /** Without an open pending request, the pending one may be forgotten or replaced, and a start begins afresh. */
  lemma IdleOpen(s: State, paths: seq<string>)
    requires OneOpen(s.asked, s.futures, s.pending, s.epoch)
    ensures OneOpen(s.asked, s.futures, None, |s.futures|)
    ensures !Active(s) ==> OneOpen(s.asked, s.futures, None, s.epoch)
    ensures !Active(s) ==>
              OneOpen(s.asked + [paths], s.futures + [Unresolved], Some(EditRequest(paths, |s.futures|)), s.epoch)
  {
  }

  lemma StepOneOpen(s: State, event: Event)
    requires OneOpen(s.asked, s.futures, s.pending, s.epoch)
    ensures var t := Step(s, event); OneOpen(t.asked, t.futures, t.pending, t.epoch)
  {
    hide OneOpen;
    IdleOpen(s, if event.Request? then event.paths else []);
    match event
    case TimerFires(future) =>
      if future < |s.futures| && s.futures[future].Unresolved? {
        SettleOpen(s.asked, s.futures, s.pending, s.epoch, future, TimedOut);
      }
    case Submit(_) =>
      if Active(s) {
        SettleOpen(s.asked, s.futures, s.pending, s.epoch, s.pending.value.future,
                   Resolved(Acknowledged(s.pending.value.paths)));
      }
    case Abort =>
      if Active(s) {
        SettleOpen(s.asked, s.futures, s.pending, s.epoch, s.pending.value.future, Resolved(Aborted));
      }
    case _ =>
  }

  lemma StepValid(s: State, event: Event)
    requires Valid(s)
    ensures Valid(Step(s, event))
  {
    hide Step, Books, OneOpen;
    StepBooks(s, event);
    StepOneOpen(s, event);
  }

  lemma {:induction false} RunValid(s: State, events: seq<Event>)
    requires Valid(s)
    ensures Valid(Run(s, events))
    decreases |events|
  {
    hide Step, Valid;
    if events != [] {
      StepValid(s, events[0]);
      RunValid(Step(s, events[0]), events[1..]);
    }
  }

  // ----------------------------------------------------------- main results

  /**
   In every run, of the requests made since the last start at most one is open, and it is the
   pending one; and no future was ever settled twice.
   */
  lemma SessionTheorem(events: seq<Event>)
    ensures var s := Run(INITIAL, events);
            && |s.asked| == |s.futures|
            && (forall i, j :: s.epoch <= i < j < |s.futures| ==>
                  !s.futures[i].Unresolved? || !s.futures[j].Unresolved?)
            && (forall i :: s.epoch <= i < |s.futures| && s.futures[i].Unresolved? ==>
                  s.pending == Some(EditRequest(s.asked[i], i)))
            && (forall i, j :: 0 <= i < j < |s.settled| ==> s.settled[i] != s.settled[j])
  {
    hide Run;
    RunValid(INITIAL, events);
  }

  predicate IsAck(s: State, event: Event, i: nat) {
    event == Submit(true) && !s.starting && Active(s) && s.pending.value.future == i
  }

  predicate EverAcked(s: State, events: seq<Event>, i: nat)
    decreases |events|
  {
    events != [] && (IsAck(s, events[0], i) || EverAcked(Step(s, events[0]), events[1..], i))
  }

  /** What a step does to the futures: nothing, one more, or one open future settled. */
  predicate FuturesStep(s: State, event: Event, futures: seq<Future>) {
    || (futures == s.futures && !(Active(s) && IsAck(s, event, s.pending.value.future)))
    || (futures == s.futures + [Unresolved] && event.Request?)
    || (event.TimerFires? && event.future < |s.futures| && s.futures[event.future].Unresolved?
        && futures == s.futures[event.future := TimedOut])
    || (event == Abort && Active(s) && futures == s.futures[s.pending.value.future := Resolved(Aborted)])
    || (Active(s) && IsAck(s, event, s.pending.value.future)
        && futures == s.futures[s.pending.value.future := Resolved(Acknowledged(s.pending.value.paths))])
  }

  lemma StepFutures(s: State, event: Event)
    ensures FuturesStep(s, event, Step(s, event).futures)
  {
  }

  /** Once settled, a future keeps its outcome. */
  lemma StepSettled(s: State, event: Event, i: nat)
    requires i < |s.futures| && !s.futures[i].Unresolved?
    ensures i < |Step(s, event).futures| && Step(s, event).futures[i] == s.futures[i] && !IsAck(s, event, i)
  {
    hide Step;
    StepFutures(s, event);
  }

  lemma StepOpen(s: State, event: Event, i: nat)
    requires (i < |s.futures| ==> s.futures[i].Unresolved?) && i < |Step(s, event).futures|
    ensures var future := Step(s, event).futures[i];
            future.Resolved? && future.reply.Acknowledged? <==> IsAck(s, event, i)
  {
    hide Step;
    StepFutures(s, event);
  }

  lemma StepLonger(s: State, event: Event)
    ensures |s.futures| <= |Step(s, event).futures|
  {
    hide Step;
    StepFutures(s, event);
  }

  lemma {:induction false} KeepsOutcome(s: State, events: seq<Event>, i: nat)
    requires Valid(s) && i < |s.futures| && !s.futures[i].Unresolved?
    ensures i < |Run(s, events).futures| && Run(s, events).futures[i] == s.futures[i] && !EverAcked(s, events, i)
    decreases |events|
  {
    hide Step, Valid, IsAck;
    if events != [] {
      StepSettled(s, events[0], i);
      StepValid(s, events[0]);
      KeepsOutcome(Step(s, events[0]), events[1..], i);
    }
  }

  /**
   A bridge caller is told `ok` exactly if `submit_edit_resolution` acknowledged that very
   request, and then with that request's paths.
   */
  lemma {:induction false} AckTheorem(s: State, events: seq<Event>, i: nat)
    requires Valid(s) && (i < |s.futures| ==> s.futures[i].Unresolved?)
    ensures var t := Run(s, events);
            && (i < |t.futures| ==>
                  ((t.futures[i].Resolved? && t.futures[i].reply.Acknowledged?) <==> EverAcked(s, events, i)))
            && (i < |t.futures| && t.futures[i].Resolved? && t.futures[i].reply.Acknowledged? ==>
                  i < |t.asked| && t.futures[i].reply.paths == t.asked[i])
    decreases |events|
  {
    hide Step, Valid, IsAck, Run, EverAcked;
    RunValid(s, events);
    AckStep(s, events, i);
    AcknowledgedPaths(Run(s, events));
  }

  lemma AcknowledgedPaths(s: State)
    requires Valid(s)
    ensures forall i :: 0 <= i < |s.futures| && s.futures[i].Resolved? && s.futures[i].reply.Acknowledged? ==>
              i < |s.asked| && s.futures[i].reply.paths == s.asked[i]
  {
  }

  lemma {:induction false} AckStep(s: State, events: seq<Event>, i: nat)
    requires Valid(s) && (i < |s.futures| ==> s.futures[i].Unresolved?)
    ensures var t := Run(s, events);
            i < |t.futures| ==>
              ((t.futures[i].Resolved? && t.futures[i].reply.Acknowledged?) <==> EverAcked(s, events, i))
    decreases |events|
  {
    hide Step, Valid, IsAck;
    if events != [] {
      var t := Step(s, events[0]);
      StepValid(s, events[0]);
      StepLonger(s, events[0]);
      if i < |t.futures| {
        StepOpen(s, events[0], i);
        if t.futures[i].Unresolved? {
          AckStep(t, events[1..], i);
        } else {
          KeepsOutcome(t, events[1..], i);
        }
      } else {
        NoAckYet(s, events[0], i);
        AckStep(t, events[1..], i);
      }
    }
  }

  lemma NoAckYet(s: State, event: Event, i: nat)
    requires |Step(s, event).futures| <= i
    ensures !IsAck(s, event, i)
  {
    hide Step;
    StepFutures(s, event);
  }

  /** `get_state` reports a needed edit exactly when a request of this session's run is open. */
  lemma NeedsEdit(events: seq<Event>)
    ensures var s := Run(INITIAL, events);
            Active(s) <==> exists i :: s.epoch <= i < |s.futures| && s.futures[i].Unresolved?
  {
    hide Run;
    RunValid(INITIAL, events);
    var s := Run(INITIAL, events);
    if Active(s) {
      assert s.futures[s.pending.value.future].Unresolved?;
    }
  }

  /**
   A start leaves a caller behind exactly if it meets an open request: that future is then
   settled by its own timer and by nothing else.
   */
  lemma StartDrops(s: State, event: Event, i: nat)
    requires Valid(s) && i < s.epoch && s.futures[i].Unresolved?
    ensures i < |Step(s, event).futures|
    ensures Step(s, event).futures[i] == if event == TimerFires(i) then TimedOut else Unresolved
  {
    hide Step, Books;
    if event == TimerFires(i) {
      StepTimer(s, i);
    } else {
      StepFutures(s, event);
    }
  }

  lemma StepTimer(s: State, i: nat)
    requires i < |s.futures| && s.futures[i].Unresolved?
    ensures Step(s, TimerFires(i)).futures == s.futures[i := TimedOut]
  {
  }

  lemma StartOrphans(s: State)
    requires Valid(s) && !s.starting && !s.running
    ensures var t := Step(s, StartBegin);
            (exists i :: s.epoch <= i < t.epoch && t.futures[i].Unresolved?) <==> Active(s)
  {
    if Active(s) {
      var i := s.pending.value.future;
      assert s.epoch <= i < Step(s, StartBegin).epoch && Step(s, StartBegin).futures[i].Unresolved?;
    }
  }

  /** It happens: the process ends while a request is open, and the session is started again. */
  lemma OrphanWitness()
    ensures var s := Run(INITIAL, [StartBegin, StartEnd(true), Request(["a"]), ProcessDone]);
            && !s.starting && !s.running && Active(s)
            && 0 < Step(s, StartBegin).epoch && Step(s, StartBegin).futures[0].Unresolved?
            && Step(s, StartBegin).pending.None?
  {
    var a, b, c, d := StartBegin, StartEnd(true), Request(["a"]), ProcessDone;
    assert [a, b, c, d][1..] == [b, c, d] && [b, c, d][1..] == [c, d] && [c, d][1..] == [d] && [d][1..] == [];
    var s := Step(Step(Step(INITIAL, a), b), c);
    assert Run(s, [d]) == Step(s, d);
    assert Run(Step(Step(INITIAL, a), b), [c, d]) == Step(s, d);
  }

  // ----------------------------------------------------------- how it ends

  /** An abort was accepted since the last start. */
  function AbortedSince(s: State, events: seq<Event>, sofar: bool): bool
    decreases |events|
  {
    if events == [] then sofar
    else
      AbortedSince(Step(s, events[0]), events[1..],
                   if events[0] == StartBegin && !s.starting && !s.running then false
                   else sofar || (events[0] == Abort && !s.starting))
  }

  lemma StepAborted(s: State, event: Event)
    ensures Step(s, event).abortRequested <==>
            !(event == StartBegin && !s.starting && !s.running) && (s.abortRequested || (event == Abort && !s.starting))
  {
  }

  lemma {:induction false} RunAborted(s: State, events: seq<Event>)
    ensures Run(s, events).abortRequested == AbortedSince(s, events, s.abortRequested)
    decreases |events|
  {
    hide Step;
    if events != [] {
      StepAborted(s, events[0]);
      RunAborted(Step(s, events[0]), events[1..]);
    }
  }

  /** When the watcher runs, the session is reported aborted exactly if it was since its start, else by its exit. */
  lemma ResultTheorem(events: seq<Event>, ok: bool)
    requires 0 < Run(INITIAL, events).unwatched
    ensures var t, aborted := Step(Run(INITIAL, events), Watch(ok)), AbortedSince(INITIAL, events, false);
            && t.result == Some(if aborted then AbortedResult else ExitResult(ok))
            && t.phase == (if aborted || ok then Done else Error)
            && t.finished && !t.needsInput
  {
    hide Run, AbortedSince;
    RunAborted(INITIAL, events);
  }

  // ------------------------------------------------------------- the object

  class Session {
    var phase: Phase
    var futures: seq<Future>
    var pending: Option<EditRequest>
    var starting: bool                // `start` holds the lock across its await
    var running: bool                 // the output task is not done
    var launched: bool                // there is an output task
    var unwatched: nat                // finished processes whose watcher has not run yet
    var abortRequested: bool
    var result: Option<SessionResult>
    var needsInput: bool
    var finished: bool
    ghost var asked: seq<seq<string>>
    ghost var epoch: nat
    ghost var settled: seq<nat>

    ghost function Now(): State
      reads this
    {
      State(phase, asked, futures, pending, starting, running, launched, unwatched, abortRequested, result, needsInput,
            finished, epoch, settled)
    }

    constructor ()
      ensures Now() == INITIAL
    {
      phase, futures, pending, starting, running, launched := Idle, [], None, false, false, false;
      unwatched, abortRequested, result, needsInput, finished := 0, false, None, false, false;
      asked, epoch, settled := [], 0, [];
    }

    /** `start` up to its await; false when the session runs already. */
    method BeginStart() returns (begun: bool)
      requires !starting
      modifies this
      ensures Now() == Step(old(Now()), StartBegin) && begun == !old(running)
      ensures begun ==> phase == Starting && pending.None? && result.None? && starting
      ensures begun ==> !abortRequested && !needsInput && !finished && futures == old(futures)
    {
      hide Active, Settle, AbortSession, WatchExit;
      begun := !running;
      if begun {
        phase, result, pending, abortRequested, needsInput, finished := Starting, None, None, false, false, false;
        starting := true;
        epoch := |futures|;
      }
    }

    method EndStart(created: bool)
      requires starting
      modifies this
      ensures Now() == Step(old(Now()), StartEnd(created))
      ensures !starting && (created ==> phase == Running && running && launched) && (!created ==> phase == old(phase))
    {
      if created {
        running, launched, phase := true, true, Running;
      }
      starting := false;
    }

    /** `on_edit_request` up to its wait; the future to wait for, or `None` for an immediate error. */
    method OnEditRequest(paths: seq<string>) returns (future: Option<nat>)
      requires !starting
      modifies this
      ensures Now() == Step(old(Now()), Request(paths))
      ensures future == if Active(old(Now())) || paths == [] then None else Some(|old(futures)|)
      ensures future.Some? ==> phase == WaitingInput && needsInput && futures == old(futures) + [Unresolved]
      ensures future.Some? ==> pending == Some(EditRequest(paths, |old(futures)|))
    {
      if pending.Some? && pending.value.future < |futures| && futures[pending.value.future].Unresolved? {
        return None;
      }
      if paths == [] {
        return None;
      }
      future := Some(|futures|);
      pending := Some(EditRequest(paths, |futures|));
      futures := futures + [Unresolved];
      asked := asked + [paths];
      phase, needsInput := WaitingInput, true;
    }

    /** A future gets a result, or is cancelled. */
    method SetOutcome(future: nat, outcome: Future)
      requires future < |futures| && futures[future].Unresolved?
      modifies this
      ensures Now() == Settle(old(Now()), future, outcome)
    {
      futures := futures[future := outcome];
      settled := settled + [future];
    }

    /** The wait of `on_edit_request` times out: the future is cancelled at once. */
    method GiveUp(future: nat)
      modifies this
      ensures Now() == Step(old(Now()), TimerFires(future))
      ensures future < |old(futures)| && old(futures)[future].Unresolved? ==>
                futures == old(futures)[future := TimedOut]
    {
      if future < |futures| && futures[future].Unresolved? {
        SetOutcome(future, TimedOut);
      }
    }

    /** The rest of `on_edit_request` after a timeout, once the lock is free. */
    method CleanUpTimeout(future: nat)
      requires !starting && future < |futures| && futures[future].TimedOut?
      modifies this
      ensures Now() == Step(old(Now()), TimeoutCleanup(future))
      ensures if old(pending).Some? && old(pending).value.future == future
              then pending.None? && phase == Error && !needsInput else Now() == old(Now())
    {
      if pending.Some? && pending.value.future == future {
        pending, phase, needsInput := None, Error, false;
      }
    }

    /** `submit_edit_resolution`; a file that cannot be moved back leaves the request pending. */
    method SubmitEditResolution(moved: bool) returns (ok: bool)
      requires !starting
      modifies this
      ensures Now() == Step(old(Now()), Submit(moved))
      ensures ok == (Active(old(Now())) && moved)
      ensures ok ==>
                && futures
                   == old(futures)[old(pending).value.future := Resolved(Acknowledged(old(pending).value.paths))]
                && pending.None? && phase == Running && !needsInput
    {
      if pending.None? || |futures| <= pending.value.future || !futures[pending.value.future].Unresolved? {
        return false;
      }
      if !moved {
        return false;
      }
      SetOutcome(pending.value.future, Resolved(Acknowledged(pending.value.paths)));
      pending, phase, needsInput, ok := None, Running, false, true;
    }

    /** `abort` up to the end of its locked part. */
    method AbortNow()
      requires !starting
      modifies this
      ensures Now() == Step(old(Now()), Abort)
      ensures abortRequested && pending.None? && !needsInput
      ensures Active(old(Now())) ==> futures == old(futures)[old(pending).value.future := Resolved(Aborted)]
      ensures if launched then result == old(result) && phase == old(phase)
              else result == Some(AbortedResult) && phase == Done && finished
    {
      if pending.Some? && pending.value.future < |futures| && futures[pending.value.future].Unresolved? {
        SetOutcome(pending.value.future, Resolved(Aborted));
      }
      abortRequested, pending, needsInput := true, None, false;
      if !launched {
        result, phase, finished := Some(AbortedResult), Done, true;
      }
    }

    method ProcessEnds()
      requires running
      modifies this
      ensures Now() == Step(old(Now()), ProcessDone)
    {
      running, unwatched := false, unwatched + 1;
    }

    /** `_watch_process` after the process has ended. */
    method WatchProcess(ok: bool)
      requires 0 < unwatched
      modifies this
      ensures Now() == Step(old(Now()), Watch(ok))
      ensures result == Some(if abortRequested then AbortedResult else ExitResult(ok)) && finished && !needsInput
      ensures phase == if abortRequested || ok then Done else Error
    {
      unwatched := unwatched - 1;
      if abortRequested {
        result, phase := Some(AbortedResult), Done;
      } else {
        result, phase := Some(ExitResult(ok)), if ok then Done else Error;
      }
      needsInput, finished := false, true;
    }
  }
}
