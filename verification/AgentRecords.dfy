/**
 What a record holds after any run: the transcript is what it began with and every message
 accepted since, and the heads are the last ones submitted, acknowledged and rejected
 (agent_controller.py:489-503, 553-591, 687-733, 825-900).
 */
module AgentRecords {
  import opened Wrappers
  import opened AgentLifecycle
  import opened AgentLaws

  // ------------------------------------------------------------ transcripts

  /** Messages that are taken into the transcript of `id`: an append, or feedback to a live agent that waits. */
  function Taken(w: World, event: Event, id: Id): seq<Message> {
    match event
    case AppendHistory(target, messages) =>
      if target == id && id in w.store && |messages| <= 20_000 then messages else []
    case Continue(target, messages) =>
      if target == id && id in w.store && id in w.runtimes && w.runtimes[id].exit.None?
         && w.store[id].state in {Halted, Stopped, AwaitingReview, ReviewReceived}
      then messages else []
    case _ => []
  }

  function AllTaken(w: World, events: seq<Event>, id: Id): seq<Message>
    decreases |events|
  {
    if events == [] then [] else Taken(w, events[0], id) + AllTaken(Step(w, events[0]), events[1..], id)
  }

  lemma StepTaken(w: World, event: Event, id: Id)
    requires Inv(w) && id in w.store && id in Step(w, event).store
    ensures Step(w, event).store[id].history == w.store[id].history + Taken(w, event, id)
  {
    if id != event.id {
      hide Step, Inv;
      Frame(w, event, id);
    }
  }

  /** In every run the transcript is what it was and all messages accepted since, in order, each once. */
  lemma {:induction false} TranscriptTheorem(w: World, events: seq<Event>, id: Id)
    requires Inv(w) && id in w.store && id in Run(w, events).store
    ensures Run(w, events).store[id].history == w.store[id].history + AllTaken(w, events, id)
    decreases |events|
  {
    hide Inv, Step, Taken;
    if events != [] {
      var w' := Step(w, events[0]);
      StepInv(w, events[0]);
      if id in w'.store {
        StepTaken(w, events[0], id);
        TranscriptTheorem(w', events[1..], id);
      } else {
        StillIssued(w, events[0], id);
        GoneForGood(w', events[1..], id);
      }
    }
  }

  /** A new agent has the transcript of its request, and then what is accepted for it. */
  lemma StartTranscript(w: World, id: Id, history: seq<Message>, requested: nat, events: seq<Event>)
    requires Inv(w) && Allowed(w, Start(id, history, requested))
    ensures var begun := Step(w, Start(id, history, requested));
            && id in begun.store && begun.store[id].history == history
            && (id in Run(begun, events).store ==>
                  Run(begun, events).store[id].history == history + AllTaken(begun, events, id))
  {
    hide Run, AllTaken;
    StepInv(w, Start(id, history, requested));
    if id in Run(Step(w, Start(id, history, requested)), events).store {
      TranscriptTheorem(Step(w, Start(id, history, requested)), events, id);
    }
  }

  /** A recovered one has its parent's and the new messages, each once, and then what is accepted for it. */
  lemma RecoveryTranscript(w: World, child: Id, parent: Id, messages: seq<Message>, events: seq<Event>)
    requires Inv(w) && Allowed(w, Recover(child, parent, messages))
    ensures var begun := Step(w, Recover(child, parent, messages));
            && child in begun.store && begun.store[child].history == w.store[parent].history + messages
            && (child in Run(begun, events).store ==>
                  Run(begun, events).store[child].history
                  == w.store[parent].history + messages + AllTaken(begun, events, child))
  {
    hide Run, AllTaken;
    StepInv(w, Recover(child, parent, messages));
    if child in Run(Step(w, Recover(child, parent, messages)), events).store {
      TranscriptTheorem(Step(w, Recover(child, parent, messages)), events, child);
    }
  }

  // --------------------------------------------------------------- decisions

  /** The head submitted last, and the heads the operator accepted and refused last. */
  datatype Heads = Heads(submitted: Option<Commit>, acknowledged: Option<Commit>, rejected: Option<Commit>)

  function HeadsOf(record: Record): Heads {
    Heads(record.submitted, record.acknowledged, record.rejected)
  }

  /** The operator may decide about `id`: work was submitted and no worker runs. */
  predicate MayDecide(w: World, id: Id) {
    && id in w.store && w.store[id].submitted.Some?
    && (id in w.runtimes ==> w.runtimes[id].exit.Some?)
    && w.store[id].state in {AwaitingReview, Stopped, Halted, Failed}
  }

  function HeadsAfter(heads: Heads, w: World, event: Event, id: Id): Heads {
    match event
    case SubmitEnd(target, head, true) =>
      if target == id && (id, head) in w.submitting then heads.(submitted := Some(head)) else heads
    case Acknowledge(target) =>
      if target == id && MayDecide(w, id) then heads.(acknowledged := heads.submitted) else heads
    case Reject(target) => if target == id && MayDecide(w, id) then heads.(rejected := heads.submitted) else heads
    case _ => heads
  }

  function AllHeads(heads: Heads, w: World, events: seq<Event>, id: Id): Heads
    decreases |events|
  {
    if events == [] then heads
    else AllHeads(HeadsAfter(heads, w, events[0], id), Step(w, events[0]), events[1..], id)
  }

  lemma StepHeads(w: World, event: Event, id: Id)
    requires Inv(w) && id in w.store && id in Step(w, event).store
    ensures HeadsOf(Step(w, event).store[id]) == HeadsAfter(HeadsOf(w.store[id]), w, event, id)
  {
    if id != event.id {
      hide Step, Inv;
      Frame(w, event, id);
    }
  }

  /**
   In every run: the submitted head is that of the last submission that went through, the
   acknowledged one is what was submitted when the last acknowledgement was accepted, and the
   rejected one what was submitted when the last rejection was.
   */
  lemma {:induction false} HeadsTheorem(w: World, events: seq<Event>, id: Id)
    requires Inv(w) && id in w.store && id in Run(w, events).store
    ensures HeadsOf(Run(w, events).store[id]) == AllHeads(HeadsOf(w.store[id]), w, events, id)
    decreases |events|
  {
    hide Inv, Step, HeadsAfter;
    if events != [] {
      var w' := Step(w, events[0]);
      StepInv(w, events[0]);
      if id in w'.store {
        StepHeads(w, events[0], id);
        HeadsTheorem(w', events[1..], id);
      } else {
        StillIssued(w, events[0], id);
        GoneForGood(w', events[1..], id);
      }
    }
  }
}
