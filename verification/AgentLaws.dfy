/**
 What every run of the controller keeps: exits are recorded, submitted work is not reaped
 undecided, model calls stay within the budget, and recovery leaves parents alone
 (agent_controller.py:255-416, 505-622, 687-762, 825-951).
 */
module AgentLaws {
  import opened Wrappers
  import opened AgentLifecycle

  // ------------------------------------------------------------- invariant

  /** A registered worker whose exit is not recorded yet is in no terminal state. */
  predicate RuntimeOk(record: Record, runtime: Runtime) {
    && (!runtime.monitored ==> !record.state.Terminal())
    && (runtime.Live() ==> !runtime.monitored)
    && runtime.calls == record.calls && record.calls <= record.maxCalls
  }

  predicate Registered(w: World) {
    forall id :: id in w.runtimes ==> id in w.store && RuntimeOk(w.store[id], w.runtimes[id])
  }

  /** Starts in flight are of new agents, and at most one per parent. */
  predicate Launching(w: World) {
    && (forall id :: id in w.starting ==> LaunchOk(w, id))
    && (forall a, b :: a in w.starting && b in w.starting && w.starting[a].Some? && w.starting[a] == w.starting[b]
          ==> a == b)
  }

  predicate LaunchOk(w: World, id: Id)
    requires id in w.starting
  {
    && id !in w.runtimes && id in w.issued
    && (id in w.store ==> w.store[id].calls == 0 && w.store[id].submitted.None?)
    && (forall p :: p in w.submitting ==> p.0 != id)
    && (w.starting[id].Some? ==> w.starting[id].value in w.restarting)
  }

  predicate Inv(w: World) {
    && Registered(w) && Launching(w) && w.store.Keys <= w.issued && w.store.Keys == w.snapshots
    && (forall p :: p in w.submitting ==> p.0 in w.issued)
  }

  lemma BootInv(store: map<Id, Record>, limit: nat)
    ensures Inv(Boot(store, limit))
  {
  }

  /** A step touches the record, the snapshot and the runtime of its own agent only. */
  predicate SameAgent(w: World, t: World, id: Id) {
    && (id in w.store <==> id in t.store) && (id in w.store ==> w.store[id] == t.store[id])
    && (id in w.runtimes <==> id in t.runtimes) && (id in w.runtimes ==> w.runtimes[id] == t.runtimes[id])
    && (id in w.snapshots <==> id in t.snapshots)
  }

  lemma Frame(w: World, event: Event, id: Id)
    requires id != event.id
    ensures SameAgent(w, Step(w, event), id)
  {
  }

  lemma StepRecords(w: World, event: Event)
    requires Inv(w)
    ensures var t := Step(w, event);
            && t.store.Keys <= t.issued && t.store.Keys == t.snapshots && w.issued <= t.issued
  {
  }

  lemma StepSubmitting(w: World, event: Event)
    requires Inv(w)
    ensures forall p :: p in Step(w, event).submitting ==> p.0 in Step(w, event).issued
  {
    hide Registered, RuntimeOk, Launching;
    StepRecords(w, event);
    if event.SubmitBegin? && Allowed(w, event) {
      InvRegistered(w, event.id);
    }
  }

  lemma StepRegistered(w: World, event: Event, id: Id)
    requires Inv(w) && id in Step(w, event).runtimes
    ensures var t := Step(w, event); id in t.store && RuntimeOk(t.store[id], t.runtimes[id])
  {
    if id == event.id {
      SubjectRegistered(w, event);
    } else {
      hide Step, RuntimeOk;
      Frame(w, event, id);
    }
  }

  lemma SubjectRegistered(w: World, event: Event)
    requires Inv(w) && event.id in Step(w, event).runtimes
    ensures var t := Step(w, event); event.id in t.store && RuntimeOk(t.store[event.id], t.runtimes[event.id])
  {
  }

  lemma StepLaunching(w: World, event: Event)
    requires Inv(w)
    ensures Launching(Step(w, event))
  {
    hide LaunchOk, Registered;
    forall id | id in Step(w, event).starting ensures LaunchOk(Step(w, event), id) {
      StepLaunch(w, event, id);
    }
    StepOneStart(w, event);
  }

  lemma StepLaunch(w: World, event: Event, id: Id)
    requires Inv(w) && id in Step(w, event).starting
    ensures LaunchOk(Step(w, event), id)
  {
    hide RuntimeOk;
  }

  lemma StepOneStart(w: World, event: Event)
    requires Inv(w)
    ensures var t := Step(w, event).starting;
            forall a, b :: a in t && b in t && t[a].Some? && t[a] == t[b] ==> a == b
  {
    hide Registered, RuntimeOk, Decidable, Reapable, AdmitCall, EndSubmit, RecordExit, RequestStop, Append, SetState;
    match event
    case Start(_, _, _) =>
    case Recover(_, _, _) =>
    case Started(_, _) =>
    case _ => SameStarting(w, event);
  }

  lemma SameStarting(w: World, event: Event)
    requires !event.Start? && !event.Recover? && !event.Started?
    ensures Step(w, event).starting == w.starting
  {
  }

  lemma StepInv(w: World, event: Event)
    requires Inv(w)
    ensures Inv(Step(w, event))
  {
    hide Step, RuntimeOk, Launching;
    StepRecords(w, event);
    StepSubmitting(w, event);
    StepLaunching(w, event);
    forall id | id in Step(w, event).runtimes
      ensures id in Step(w, event).store && RuntimeOk(Step(w, event).store[id], Step(w, event).runtimes[id])
    {
      StepRegistered(w, event, id);
    }
  }

  lemma {:induction false} RunInv(w: World, events: seq<Event>)
    requires Inv(w)
    ensures Inv(Run(w, events))
    decreases |events|
  {
    hide Inv, Step;
    if events != [] {
      StepInv(w, events[0]);
      RunInv(Step(w, events[0]), events[1..]);
    }
  }

  /** Everything below holds in every run of a controller, whatever records it found. */
  lemma Reachable(store: map<Id, Record>, limit: nat, events: seq<Event>)
    ensures Inv(Run(Boot(store, limit), events))
  {
    hide Inv, Run, Boot;
    BootInv(store, limit);
    RunInv(Boot(store, limit), events);
  }

  // ------------------------------------------------------ agents that are gone

  /** Ids are not used twice: a removed agent never comes back. */
  lemma {:induction false} GoneForGood(w: World, events: seq<Event>, id: Id)
    requires Inv(w) && id in w.issued && id !in w.store
    ensures id !in Run(w, events).store && id !in Run(w, events).runtimes
    decreases |events|
  {
    hide Inv, Effect, Allowed;
    if events == [] {
      InvRegistered(w, id);
    } else {
      StepInv(w, events[0]);
      StepGone(w, events[0], id);
      GoneForGood(Step(w, events[0]), events[1..], id);
    }
  }

  lemma InvRegistered(w: World, id: Id)
    requires Inv(w)
    ensures id in w.runtimes ==> id in w.store && RuntimeOk(w.store[id], w.runtimes[id])
  {
  }

  lemma StepGone(w: World, event: Event, id: Id)
    requires Inv(w) && id in w.issued && id !in w.store
    ensures id !in Step(w, event).store && id in Step(w, event).issued
  {
  }

  /** A removed record was reaped with its work decided and its worker's exit recorded, or its start failed. */
  lemma StepRemoves(w: World, event: Event, id: Id)
    requires Inv(w) && id in w.store && id !in Step(w, event).store
    ensures id !in Step(w, event).snapshots
    ensures !Live(w, id) && w.store[id].Decided()
    ensures event == Reap(id) || (event == Started(id, false) && id in w.starting && w.store[id].submitted.None?)
    ensures event == Reap(id) && id in w.runtimes ==> w.runtimes[id].monitored
  {
  }

  // ------------------------------------------------------------ exits

  /** An effective request to stop `id`, by the operator or by the runtime limit. */
  predicate StopsWorker(w: World, event: Event, id: Id) {
    Allowed(w, event) && id in w.runtimes && (event == Stop(id) || event == Limit(id))
  }

  predicate EverStopped(w: World, events: seq<Event>, id: Id)
    decreases |events|
  {
    events != [] && (StopsWorker(w, events[0], id) || EverStopped(Step(w, events[0]), events[1..], id))
  }

  /** A registered worker whose exit is not recorded stays so until its monitor runs. */
  lemma StepUnmonitored(w: World, event: Event, id: Id)
    requires Inv(w) && id in w.runtimes && !w.runtimes[id].monitored && event != Monitor(id)
    ensures var t := Step(w, event);
            && id in t.runtimes && !t.runtimes[id].monitored
            && (t.runtimes[id].stopRequested <==> w.runtimes[id].stopRequested || StopsWorker(w, event, id))
  {
    if id == event.id {
      OwnUnmonitored(w, event, id);
    } else {
      hide Effect, RuntimeOk;
      Frame(w, event, id);
    }
  }

  lemma OwnUnmonitored(w: World, event: Event, id: Id)
    requires id == event.id
    requires Inv(w) && id in w.runtimes && !w.runtimes[id].monitored && event != Monitor(id)
    ensures var t := Step(w, event);
            && id in t.runtimes && !t.runtimes[id].monitored
            && (t.runtimes[id].stopRequested <==> w.runtimes[id].stopRequested || StopsWorker(w, event, id))
  {
  }

  lemma {:induction false} RunUnmonitored(w: World, events: seq<Event>, id: Id)
    requires Inv(w) && id in w.runtimes && !w.runtimes[id].monitored && Monitor(id) !in events
    ensures var t := Run(w, events);
            && id in t.runtimes && !t.runtimes[id].monitored && id in t.store && !t.store[id].state.Terminal()
            && (t.runtimes[id].stopRequested <==> w.runtimes[id].stopRequested || EverStopped(w, events, id))
    decreases |events|
  {
    hide Inv, Step, StopsWorker;
    if events == [] {
      InvRegistered(w, id);
    } else {
      StepInv(w, events[0]);
      StepUnmonitored(w, events[0], id);
      RunUnmonitored(Step(w, events[0]), events[1..], id);
    }
  }

  /**
   From the moment a worker is registered, no interleaving puts its agent in a terminal
   state before the monitor records the exit; the monitor then does record it, as stopped
   exactly when a stop or the runtime limit came first.
   */
  lemma ExitTheorem(w: World, id: Id, events: seq<Event>)
    requires Inv(w) && id in w.starting && id in w.store && Monitor(id) !in events
    ensures var registered := Step(w, Started(id, true));
            var t := Run(registered, events);
            && id in t.runtimes && id in t.store && !t.store[id].state.Terminal()
            && (t.runtimes[id].exit.Some? ==>
                  && Allowed(t, Monitor(id))
                  && (var recorded := Step(t, Monitor(id)).store[id].state;
                      && (recorded.Stopped? <==> EverStopped(registered, events, id))
                      && (recorded.Failed? <==> !EverStopped(registered, events, id) && t.runtimes[id].exit.value != 0)
                      && (recorded.Halted? <==>
                            !EverStopped(registered, events, id) && t.runtimes[id].exit.value == 0)))
  {
    hide Inv, EverStopped, Run;
    StepInv(w, Started(id, true));
    RunUnmonitored(Step(w, Started(id, true)), events, id);
  }

  // ------------------------------------------------------- submitted work

  /** The step decides about `id`'s submitted head, or submits one that was decided before. */
  predicate Decides(w: World, event: Event, id: Id) {
    && id in w.store && Allowed(w, event)
    && (event == Acknowledge(id) || event == Reject(id)
        || (event.SubmitEnd? && event.id == id && event.ok
            && (w.store[id].acknowledged == Some(event.head) || w.store[id].rejected == Some(event.head))))
  }

  predicate Undecided(w: World, id: Id) {
    id in w.store && id in w.snapshots && !w.store[id].Decided()
  }

  predicate NoDecision(w: World, events: seq<Event>, id: Id)
    decreases |events|
  {
    events == [] || (!Decides(w, events[0], id) && NoDecision(Step(w, events[0]), events[1..], id))
  }

  lemma StepUndecided(w: World, event: Event, id: Id)
    requires Inv(w) && Undecided(w, id) && !Decides(w, event, id)
    ensures Undecided(Step(w, event), id)
  {
  }

  lemma {:induction false} StaysUndecided(w: World, events: seq<Event>, id: Id)
    requires Inv(w) && Undecided(w, id) && NoDecision(w, events, id)
    ensures Undecided(Run(w, events), id)
    decreases |events|
  {
    hide Inv, Step, Undecided, Decides;
    if events != [] {
      StepInv(w, events[0]);
      StepUndecided(w, events[0], id);
      StaysUndecided(Step(w, events[0]), events[1..], id);
    }
  }

  /**
   A submission protects the agent, its record and its snapshot, from then on and under
   every interleaving, until the operator decides about exactly that head; earlier
   decisions about other heads do not count.
   */
  lemma SubmissionProtects(w: World, id: Id, head: Commit, events: seq<Event>)
    requires Inv(w) && id in w.store && (id, head) in w.submitting
    requires w.store[id].acknowledged != Some(head) && w.store[id].rejected != Some(head)
    requires NoDecision(Step(w, SubmitEnd(id, head, true)), events, id)
    ensures Undecided(Run(Step(w, SubmitEnd(id, head, true)), events), id)
  {
    StepInv(w, SubmitEnd(id, head, true));
    StaysUndecided(Step(w, SubmitEnd(id, head, true)), events, id);
  }

  /** What ends the protection: a decision about a worker that is not running, or an old head submitted again. */
  lemma ProtectionEnds(w: World, event: Event, id: Id)
    requires Inv(w) && Undecided(w, id) && !Undecided(Step(w, event), id)
    ensures id in Step(w, event).store
    ensures (event in {Acknowledge(id), Reject(id)} && !Live(w, id))
            || (event.SubmitEnd? && event.id == id && event.ok
                && (w.store[id].acknowledged == Some(event.head) || w.store[id].rejected == Some(event.head)))
  {
  }

  // ------------------------------------------------------------ model calls

  /** How often the model callback is called for `id`. */
  function Admitted(w: World, events: seq<Event>, id: Id): nat
    decreases |events|
  {
    if events == [] then 0
    else
      (if events[0] == ModelCall(id) && Allowed(w, events[0]) then 1 else 0)
      + Admitted(Step(w, events[0]), events[1..], id)
  }

  lemma {:induction false} AdmittedNone(w: World, events: seq<Event>, id: Id)
    requires Inv(w) && id in w.issued && id !in w.store
    ensures Admitted(w, events, id) == 0
    decreases |events|
  {
    hide Inv, Effect;
    if events != [] {
      StepInv(w, events[0]);
      StepGone(w, events[0], id);
      AdmittedNone(Step(w, events[0]), events[1..], id);
    }
  }

  lemma StepCalls(w: World, event: Event, id: Id)
    requires Inv(w) && id in w.store && id in Step(w, event).store
    ensures var t := Step(w, event).store[id];
            && t.maxCalls == w.store[id].maxCalls
            && t.calls == w.store[id].calls + (if event == ModelCall(id) && Allowed(w, event) then 1 else 0)
            && (event == ModelCall(id) && Allowed(w, event) ==> t.calls <= t.maxCalls)
  {
  }

  /** The persisted count is the number of calls, and no call is admitted beyond the budget. */
  lemma {:induction false} BudgetTheorem(w: World, events: seq<Event>, id: Id)
    requires Inv(w) && id in w.store
    ensures var n, t := Admitted(w, events, id), Run(w, events);
            && (n == 0 || w.store[id].calls + n <= w.store[id].maxCalls)
            && (id in t.store ==> t.store[id].calls == w.store[id].calls + n)
    decreases |events|
  {
    hide Inv, Step;
    if events != [] {
      var w' := Step(w, events[0]);
      StepInv(w, events[0]);
      if id in w'.store {
        StepCalls(w, events[0], id);
        BudgetTheorem(w', events[1..], id);
      } else {
        StepRemoves(w, events[0], id);
        StillIssued(w, events[0], id);
        AdmittedNone(w', events[1..], id);
        GoneForGood(w', events[1..], id);
      }
    }
  }

  lemma StillIssued(w: World, event: Event, id: Id)
    requires Inv(w) && id in w.store
    ensures id in Step(w, event).issued
  {
    hide Step;
    StepRecords(w, event);
  }

  /** For a new agent: at most the smaller of its own limit and the controller's, in every run. */
  lemma BudgetFromStart(w: World, id: Id, history: seq<Message>, requested: nat, events: seq<Event>)
    requires Inv(w) && Allowed(w, Start(id, history, requested))
    ensures var started := Step(w, Start(id, history, requested));
            && Admitted(started, events, id) <= Min(requested, w.limit)
            && (id in Run(started, events).store ==>
                  Run(started, events).store[id].calls == Admitted(started, events, id))
  {
    hide Inv, Run, Admitted;
    StepInv(w, Start(id, history, requested));
    BudgetTheorem(Step(w, Start(id, history, requested)), events, id);
  }

  // -------------------------------------------------------------- recovery

  lemma {:induction false} TranscriptGrows(w: World, events: seq<Event>, id: Id)
    requires Inv(w) && id in w.store && id in Run(w, events).store
    ensures w.store[id].history <= Run(w, events).store[id].history
    decreases |events|
  {
    hide Inv, Step;
    if events != [] {
      var w' := Step(w, events[0]);
      StepInv(w, events[0]);
      if id in w'.store {
        StepTranscript(w, events[0], id);
        TranscriptGrows(w', events[1..], id);
      } else {
        StillIssued(w, events[0], id);
        GoneForGood(w', events[1..], id);
      }
    }
  }

  lemma StepTranscript(w: World, event: Event, id: Id)
    requires Inv(w) && id in w.store && id in Step(w, event).store
    ensures w.store[id].history <= Step(w, event).store[id].history
    ensures w.store[id].submitted.Some? ==> Step(w, event).store[id].submitted.Some?
  {
  }

  /**
   Recovery: in every run after it the child's transcript starts with the parent's as it
   was at that moment and the new messages; neither end of the start touches the parent;
   and no other child of that parent is being started.
   */
  lemma RecoveryTheorem(w: World, child: Id, parent: Id, messages: seq<Message>, events: seq<Event>)
    requires Inv(w) && Allowed(w, Recover(child, parent, messages))
    ensures var begun := Step(w, Recover(child, parent, messages));
            && SameAgent(w, begun, parent)
            && (child in Run(begun, events).store ==>
                  w.store[parent].history + messages <= Run(begun, events).store[child].history)
            && (forall v, ok :: SameAgent(v, Step(v, Started(child, ok)), parent))
            && (forall other :: other in begun.starting && begun.starting[other] == Some(parent) ==> other == child)
  {
    var begun := Step(w, Recover(child, parent, messages));
    StepInv(w, Recover(child, parent, messages));
    Frame(w, Recover(child, parent, messages), parent);
    forall v, ok ensures SameAgent(v, Step(v, Started(child, ok)), parent) {
      Frame(v, Started(child, ok), parent);
    }
    if child in Run(begun, events).store {
      TranscriptGrows(begun, events, child);
    }
  }

  /** An effective recovery of `parent` somewhere in the run. */
  predicate EverRecovered(w: World, events: seq<Event>, parent: Id)
    decreases |events|
  {
    events != []
    && ((events[0].Recover? && events[0].parent == parent && Allowed(w, events[0]))
        || EverRecovered(Step(w, events[0]), events[1..], parent))
  }

  /** An agent that ever submitted a patch is never recovered as a child again. */
  lemma {:induction false} SubmittedNotRecovered(w: World, events: seq<Event>, parent: Id)
    requires Inv(w) && parent in w.issued && (parent in w.store ==> w.store[parent].submitted.Some?)
    ensures !EverRecovered(w, events, parent)
    decreases |events|
  {
    hide Inv, Effect;
    if events != [] {
      var w' := Step(w, events[0]);
      StepInv(w, events[0]);
      if parent in w.store {
        StillIssued(w, events[0], parent);
        if parent in w'.store {
          StepTranscript(w, events[0], parent);
        }
      } else {
        StepGone(w, events[0], parent);
      }
      SubmittedNotRecovered(w', events[1..], parent);
    }
  }
}
