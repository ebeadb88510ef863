/**
 The life of controlled agents as a state machine. Code between two `await`s of the
 controller is one step; steps of worker requests, operator calls, timers and process
 exits interleave freely (agent_controller.py:193-206, 255-416, 492-622, 687-762, 825-951).
 The store is the map of records, keyed by agent id.
 */
module AgentLifecycle {
  import opened Wrappers

  const MAX_HISTORY_MESSAGES := 20_000
  const DEFAULT_MODEL_CALLS := 200

  type Id = nat
  type Commit = string
  type Message = string

  datatype AgentState =
    Starting | Running | Halted | AwaitingReview | ReviewReceived | Stopping | Stopped | Failed | Reaped
  {
    predicate Terminal() {
      Stopped? || Failed? || Reaped?
    }

    predicate Reportable() {
      Running? || Halted? || AwaitingReview? || ReviewReceived?
    }

    predicate Continuable() {
      Halted? || Stopped? || AwaitingReview? || ReviewReceived?
    }

    predicate Inactive() {
      AwaitingReview? || Stopped? || Halted? || Failed?
    }
  }

  datatype Record = Record(state: AgentState, history: seq<Message>, submitted: Option<Commit>,
                           acknowledged: Option<Commit>, rejected: Option<Commit>,
                           calls: nat, maxCalls: nat, parent: Option<Id>)
  {
    /** The submitted head was acknowledged or rejected: that one, not an earlier one. */
    predicate Decided() {
      submitted.Some? ==> acknowledged == submitted || rejected == submitted
    }
  }

  /** A worker process under this controller; `exit` is its return code once it has ended. */
  datatype Runtime = Runtime(exit: Option<int>, monitored: bool, stopRequested: bool, calls: nat)
  {
    predicate Live() {
      exit.None?
    }
  }

  datatype World = World(store: map<Id, Record>, snapshots: set<Id>, runtimes: map<Id, Runtime>,
                         starting: map<Id, Option<Id>>, restarting: set<Id>, submitting: set<(Id, Commit)>,
                         issued: set<Id>, limit: nat)

  datatype Event =
    | Start(id: Id, history: seq<Message>, requested: nat)   // start_agent up to its first await
    | Recover(id: Id, parent: Id, messages: seq<Message>)    // continue_agent of an inactive agent, up to there
    | Started(id: Id, ok: bool)                              // the rest of start_agent
    | ModelCall(id: Id)                                      // admission and call of the model callback
    | AppendHistory(id: Id, messages: seq<Message>)
    | Report(id: Id, state: AgentState)                      // agent.update_state
    | SubmitBegin(id: Id, head: Commit)                      // patch.submit up to its first await
    | SubmitEnd(id: Id, head: Commit, ok: bool)              // after the callback
    | Exit(id: Id, code: int)                                // the process ends
    | Monitor(id: Id)                                        // the monitor task sees it
    | Limit(id: Id)                                          // the runtime timer fires
    | Acknowledge(id: Id)
    | Reject(id: Id)
    | Reap(id: Id)                                           // one agent of reap_agents
    | Continue(id: Id, messages: seq<Message>)               // continue_agent of a live agent
    | Stop(id: Id)                                           // stop_agent up to its first await

  predicate Live(w: World, id: Id) {
    id in w.runtimes && w.runtimes[id].Live()
  }

  function SetState(w: World, id: Id, state: AgentState): World
    requires id in w.store
  {
    w.(store := w.store[id := w.store[id].(state := state)])
  }

  function Min(a: nat, b: nat): nat {
    if a < b then a else b
  }

  function NewRecord(history: seq<Message>, maxCalls: nat): Record {
    Record(Starting, history, None, None, None, 0, maxCalls, None)
  }

  function Create(w: World, id: Id, parent: Option<Id>, history: seq<Message>, requested: nat): World {
    w.(store := w.store[id := NewRecord(history, Min(requested, w.limit))], snapshots := w.snapshots + {id},
       starting := w.starting[id := parent], issued := w.issued + {id})
  }

  /** What the code demands before the step has an effect; otherwise it raises or returns. */
  predicate Allowed(w: World, event: Event) {
    match event
    case Start(id, history, requested) =>
      id !in w.issued && history != [] && |history| <= MAX_HISTORY_MESSAGES && 1 <= requested
    case Recover(id, parent, messages) =>
      && id !in w.issued && parent in w.store && messages != [] && !Live(w, parent)
      && (w.store[parent].state.Halted? || w.store[parent].state.Stopped?)
      && w.store[parent].submitted.None? && parent in w.snapshots && parent !in w.restarting
      && |w.store[parent].history| + |messages| <= MAX_HISTORY_MESSAGES
    case Started(id, _) => id in w.starting
    case ModelCall(id) => id in w.runtimes && id in w.store && w.runtimes[id].calls < w.store[id].maxCalls
    case AppendHistory(id, messages) => id in w.store && |messages| <= MAX_HISTORY_MESSAGES
    case Report(id, state) => state.Reportable() && id in w.store && !w.store[id].state.Terminal()
    case SubmitBegin(id, _) => id in w.runtimes
    case SubmitEnd(id, head, ok) => (id, head) in w.submitting
    case Exit(id, _) => Live(w, id)
    case Monitor(id) => id in w.runtimes && !Live(w, id) && !w.runtimes[id].monitored && id in w.store
    case Limit(id) => Live(w, id) && id in w.store
    case Acknowledge(id) => Decidable(w, id) && w.store[id].acknowledged != w.store[id].submitted
    case Reject(id) => Decidable(w, id) && w.store[id].rejected != w.store[id].submitted
    case Reap(id) => Reapable(w, id)
    case Continue(id, messages) => id in w.store && messages != [] && w.store[id].state.Continuable() && Live(w, id)
    case Stop(id) => id in w.store && (id in w.runtimes || w.store[id].state.AwaitingReview?)
  }

  predicate Decidable(w: World, id: Id) {
    id in w.store && w.store[id].submitted.Some? && !Live(w, id) && w.store[id].state.Inactive()
  }

  predicate Reapable(w: World, id: Id) {
    && id in w.store && w.store[id].Decided()
    && (w.store[id].state.Stopped? || w.store[id].state.Failed?) && !Live(w, id)
  }

  /** A start that fails, or that finds its record gone, removes what it made; the parent is released either way. */
  function EndStart(w: World, id: Id, ok: bool): World
    requires id in w.starting
  {
    var parent := w.starting[id];
    var w' := w.(starting := w.starting - {id},
                 restarting := if parent.Some? then w.restarting - {parent.value} else w.restarting);
    if ok && id in w.store then
      w'.(store := w.store[id := w.store[id].(state := Running, parent := parent)],
          runtimes := w.runtimes[id := Runtime(None, false, false, 0)])
    else w'.(store := w.store - {id}, snapshots := w.snapshots - {id})
  }

  function AdmitCall(w: World, id: Id): World
    requires id in w.runtimes && id in w.store
  {
    var calls := w.runtimes[id].calls + 1;
    w.(runtimes := w.runtimes[id := w.runtimes[id].(calls := calls)],
       store := w.store[id := w.store[id].(calls := calls)])
  }

  function EndSubmit(w: World, id: Id, head: Commit, ok: bool): World {
    var w' := w.(submitting := w.submitting - {(id, head)});
    if ok && id in w.store then
      w'.(store := w.store[id := w.store[id].(state := AwaitingReview, submitted := Some(head))])
    else w'
  }

  function RecordExit(w: World, id: Id): World
    requires id in w.runtimes && w.runtimes[id].exit.Some? && id in w.store
  {
    var runtime := w.runtimes[id];
    var state := if runtime.stopRequested then Stopped else if runtime.exit.value != 0 then Failed else Halted;
    var w' := w.(runtimes := w.runtimes[id := runtime.(monitored := true)]);
    if w.store[id].state.Terminal() then w' else SetState(w', id, state)
  }

  function RequestStop(w: World, id: Id): World
    requires id in w.runtimes && id in w.store
  {
    SetState(w.(runtimes := w.runtimes[id := w.runtimes[id].(stopRequested := true)]), id, Stopping)
  }

  function Append(w: World, id: Id, messages: seq<Message>): World
    requires id in w.store
  {
    w.(store := w.store[id := w.store[id].(history := w.store[id].history + messages)])
  }

  function Effect(w: World, event: Event): World
    requires Allowed(w, event)
  {
    match event
    case Start(id, history, requested) => Create(w, id, None, history, requested)
    case Recover(id, parent, messages) =>
      Create(w, id, Some(parent), w.store[parent].history + messages, DEFAULT_MODEL_CALLS)
      .(restarting := w.restarting + {parent})
    case Started(id, ok) => EndStart(w, id, ok)
    case ModelCall(id) => AdmitCall(w, id)
    case AppendHistory(id, messages) => Append(w, id, messages)
    case Report(id, state) => SetState(w, id, state)
    case SubmitBegin(id, head) => w.(submitting := w.submitting + {(id, head)})
    case SubmitEnd(id, head, ok) => EndSubmit(w, id, head, ok)
    case Exit(id, code) => w.(runtimes := w.runtimes[id := w.runtimes[id].(exit := Some(code))])
    case Monitor(id) => RecordExit(w, id)
    case Limit(id) => RequestStop(w, id)
    case Acknowledge(id) => w.(store := w.store[id := w.store[id].(acknowledged := w.store[id].submitted)])
    case Reject(id) => w.(store := w.store[id := w.store[id].(rejected := w.store[id].submitted)])
    case Reap(id) =>
      w.(store := w.store - {id}, snapshots := w.snapshots - {id}, runtimes := w.runtimes - {id})
    case Continue(id, messages) => SetState(Append(w, id, messages), id, ReviewReceived)
    case Stop(id) => if id in w.runtimes then RequestStop(w, id) else SetState(w, id, Stopped)
  }

  function Step(w: World, event: Event): World {
    if Allowed(w, event) then Effect(w, event) else w
  }

  function Run(w: World, events: seq<Event>): World
    decreases |events|
  {
    if events == [] then w else Run(Step(w, events[0]), events[1..])
  }

  /** A controller that starts finds old records; those of running workers are marked stopped. */
  function Recovered(store: map<Id, Record>): map<Id, Record> {
    map id | id in store :: if store[id].state.Running? then store[id].(state := Stopped) else store[id]
  }

  function Boot(store: map<Id, Record>, limit: nat): World {
    World(Recovered(store), store.Keys, map[], map[], {}, {}, store.Keys, if limit < 1 then 1 else limit)
  }
}
