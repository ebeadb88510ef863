/**
 The controller object: its fields, and its methods as they update them between awaits.
 `starting` and `submitting` hold the calls of `start_agent` and `_submit_patch` that are
 suspended; every method is one step of the state machine (agent_controller.py:119-193, 255-951).
 */
module AgentController {
  import opened Wrappers
  import opened AgentLifecycle

  datatype ReapResult =
    WasReaped | DuplicateId | RequiresReview | NotStopped(state: AgentState) | NoRecord | WorkerRunning

  class AgentController {
    var store: map<Id, Record>
    var snapshots: set<Id>
    var runtimes: map<Id, Runtime>
    var starting: map<Id, Option<Id>>
    var restarting: set<Id>
    var submitting: set<(Id, Commit)>
    var issued: set<Id>
    const limit: nat

    ghost function State(): World
      reads this
    {
      World(store, snapshots, runtimes, starting, restarting, submitting, issued, limit)
    }

    /** Records of workers that were running belong to no process any more. */
    constructor (records: map<Id, Record>, maxModelCalls: nat)
      ensures State() == Boot(records, maxModelCalls)
      ensures store.Keys == records.Keys && forall id :: id in records ==>
                store[id] == if records[id].state == Running then records[id].(state := Stopped) else records[id]
    {
      limit := if maxModelCalls < 1 then 1 else maxModelCalls;
      snapshots, runtimes, starting, restarting, submitting, issued := records.Keys, map[], map[], {}, {}, records.Keys;
      store := records;
      new;
      var todo := records.Keys;
      while todo != {}
        invariant todo <= records.Keys && snapshots == issued == records.Keys
        invariant runtimes == map[] && starting == map[] && restarting == {} && submitting == {}
        invariant store.Keys == records.Keys
        invariant forall id :: id in records ==> store[id] == if id in todo then records[id] else Recovered(records)[id]
        decreases |todo|
      {
        var id :| id in todo;
        if store[id].state.Running? {
          store := store[id := store[id].(state := Stopped)];
        }
        todo := todo - {id};
      }
      assert store == Recovered(records);
    }

    method CreateRecord(id: Id, parent: Option<Id>, history: seq<Message>, requested: nat)
      modifies this
      ensures State() == Create(old(State()), id, parent, history, requested)
    {
      issued := issued + {id};
      snapshots := snapshots + {id};
      store := store[id := NewRecord(history, Min(requested, limit))];
      starting := starting[id := parent];
    }

    method StartAgent(id: Id, history: seq<Message>, requested: nat) returns (ok: bool)
      modifies this
      ensures ok == Allowed(old(State()), Start(id, history, requested))
      ensures State() == Step(old(State()), Start(id, history, requested))
      ensures ok <==> id !in old(issued) && 0 < |history| <= 20_000 && 0 < requested
      ensures ok ==> store == old(store)[id := Record(Starting, history, None, None, None, 0,
                                                      if requested < limit then requested else limit, None)]
    {
      ok := id !in issued && history != [] && |history| <= MAX_HISTORY_MESSAGES && 1 <= requested;
      if ok {
        CreateRecord(id, None, history, requested);
      }
    }

    /** `continue_agent` when no worker of the agent runs. */
    method RecoverAgent(id: Id, parent: Id, messages: seq<Message>) returns (ok: bool)
      modifies this
      ensures ok == Allowed(old(State()), Recover(id, parent, messages))
      ensures State() == Step(old(State()), Recover(id, parent, messages))
      ensures ok <==>
                && id !in old(issued) && parent in old(store) && parent in old(snapshots) && parent !in old(restarting)
                && old(store)[parent].state in {Halted, Stopped} && old(store)[parent].submitted.None?
                && (parent in old(runtimes) ==> old(runtimes)[parent].exit.Some?)
                && 0 < |messages| <= 20_000 - |old(store)[parent].history|
      ensures ok ==> store == old(store)[id := Record(Starting, old(store)[parent].history + messages, None, None, None,
                                                      0, if limit < 200 then limit else 200, None)]
      ensures ok ==> starting == old(starting)[id := Some(parent)] && restarting == old(restarting) + {parent}
    {
      if id in issued || parent !in store || messages == [] || (parent in runtimes && runtimes[parent].exit.None?) {
        return false;
      }
      var record := store[parent];
      if !record.state.Halted? && !record.state.Stopped? {
        return false;
      }
      if record.submitted.Some? || parent !in snapshots {
        return false;
      }
      if MAX_HISTORY_MESSAGES < |record.history| + |messages| || parent in restarting {
        return false;
      }
      restarting := restarting + {parent};
      CreateRecord(id, Some(parent), record.history + messages, DEFAULT_MODEL_CALLS);
      ok := true;
    }

    /** The end of `start_agent`: the worker runs, or everything made for it is removed. */
    method FinishStart(id: Id, launched: bool) returns (ok: bool)
      modifies this
      ensures State() == Step(old(State()), Started(id, launched))
      ensures ok == (id in old(starting) && launched && id in old(store))
      ensures ok ==> store == old(store)[id := old(store)[id].(state := Running, parent := old(starting)[id])]
      ensures ok ==> runtimes == old(runtimes)[id := Runtime(None, false, false, 0)]
      ensures id in old(starting) && !ok ==> id !in store && id !in snapshots && runtimes == old(runtimes)
      ensures id in old(starting) && old(starting)[id].Some? ==>
                restarting == old(restarting) - {old(starting)[id].value}
    {
      if id !in starting {
        return false;
      }
      var parent := starting[id];
      ok := launched && id in store;
      if ok {
        store := store[id := store[id].(state := Running, parent := parent)];
        runtimes := runtimes[id := Runtime(None, false, false, 0)];
      } else {
        snapshots := snapshots - {id};
        store := store - {id};
      }
      starting := starting - {id};
      if parent.Some? {
        restarting := restarting - {parent.value};
      }
    }

    /** `_model_complete`: the callback may be called exactly when this returns true. */
    method ModelComplete(id: Id) returns (admitted: bool)
      modifies this
      ensures admitted == Allowed(old(State()), AgentLifecycle.ModelCall(id))
      ensures State() == Step(old(State()), AgentLifecycle.ModelCall(id))
      ensures admitted <==>
                id in old(runtimes) && id in old(store) && old(runtimes)[id].calls < old(store)[id].maxCalls
      ensures admitted ==> store == old(store)[id := old(store)[id].(calls := old(runtimes)[id].calls + 1)]
      ensures admitted ==> runtimes == old(runtimes)[id := old(runtimes)[id].(calls := old(runtimes)[id].calls + 1)]
    {
      if id !in runtimes || id !in store || store[id].maxCalls <= runtimes[id].calls {
        return false;
      }
      runtimes := runtimes[id := runtimes[id].(calls := runtimes[id].calls + 1)];
      store := store[id := store[id].(calls := runtimes[id].calls)];
      admitted := true;
    }

    method AppendToHistory(id: Id, messages: seq<Message>) returns (ok: bool)
      modifies this
      ensures ok == Allowed(old(State()), AppendHistory(id, messages))
      ensures State() == Step(old(State()), AppendHistory(id, messages))
      ensures ok <==> id in old(store) && |messages| <= 20_000
      ensures ok ==> store == old(store)[id := old(store)[id].(history := old(store)[id].history + messages)]
    {
      ok := id in store && |messages| <= MAX_HISTORY_MESSAGES;
      if ok {
        store := store[id := store[id].(history := store[id].history + messages)];
      }
    }

    method UpdateState(id: Id, state: AgentState) returns (ok: bool)
      modifies this
      ensures ok == Allowed(old(State()), Report(id, state))
      ensures State() == Step(old(State()), Report(id, state))
      ensures ok <==> state in {Running, Halted, AwaitingReview, ReviewReceived} && id in old(store)
                      && old(store)[id].state !in {Stopped, Failed, Reaped}
      ensures ok ==> store == old(store)[id := old(store)[id].(state := state)]
    {
      ok := state.Reportable() && id in store && !store[id].state.Terminal();
      if ok {
        store := store[id := store[id].(state := state)];
      }
    }

    method BeginSubmit(id: Id, head: Commit) returns (ok: bool)
      modifies this
      ensures ok == Allowed(old(State()), SubmitBegin(id, head))
      ensures State() == Step(old(State()), SubmitBegin(id, head))
    {
      ok := id in runtimes;
      if ok {
        submitting := submitting + {(id, head)};
      }
    }

    /** After the submit callback; the record may have been removed meanwhile. */
    method FinishSubmit(id: Id, head: Commit, accepted: bool)
      modifies this
      ensures State() == Step(old(State()), SubmitEnd(id, head, accepted))
      ensures (id, head) in old(submitting) && accepted && id in old(store) ==>
                store == old(store)[id := old(store)[id].(state := AwaitingReview, submitted := Some(head))]
      ensures !((id, head) in old(submitting) && accepted) ==> store == old(store)
    {
      if (id, head) in submitting {
        submitting := submitting - {(id, head)};
        if accepted && id in store {
          store := store[id := store[id].(state := AwaitingReview, submitted := Some(head))];
        }
      }
    }

    /** The operating system ends the process. */
    method ProcessExits(id: Id, code: int)
      modifies this
      ensures State() == Step(old(State()), Exit(id, code))
    {
      if id in runtimes && runtimes[id].exit.None? {
        runtimes := runtimes[id := runtimes[id].(exit := Some(code))];
      }
    }

    method MonitorProcess(id: Id)
      modifies this
      ensures State() == Step(old(State()), Monitor(id))
      ensures id in old(runtimes) && id in old(store) && old(runtimes)[id].exit.Some? && !old(runtimes)[id].monitored
              && old(store)[id].state !in {Stopped, Failed, Reaped} ==>
                store == old(store)[id := old(store)[id].(state :=
                  if old(runtimes)[id].stopRequested then Stopped
                  else if old(runtimes)[id].exit == Some(0) then Halted else Failed)]
    {
      if id in runtimes && runtimes[id].exit.Some? && !runtimes[id].monitored && id in store {
        var runtime := runtimes[id];
        runtimes := runtimes[id := runtime.(monitored := true)];
        if !store[id].state.Terminal() {
          var state := if runtime.stopRequested then Stopped else if runtime.exit.value != 0 then Failed else Halted;
          store := store[id := store[id].(state := state)];
        }
      }
    }

    method EnforceRuntimeLimit(id: Id)
      modifies this
      ensures State() == Step(old(State()), AgentLifecycle.Limit(id))
      ensures id in old(runtimes) && id in old(store) && old(runtimes)[id].exit.None? ==>
                && store == old(store)[id := old(store)[id].(state := Stopping)]
                && runtimes == old(runtimes)[id := old(runtimes)[id].(stopRequested := true)]
      ensures id !in old(runtimes) || old(runtimes)[id].exit.Some? ==> State() == old(State())
    {
      if id in runtimes && runtimes[id].exit.None? && id in store {
        runtimes := runtimes[id := runtimes[id].(stopRequested := true)];
        store := store[id := store[id].(state := Stopping)];
      }
    }

    /** Repeating an acknowledgement changes nothing; `ok` is false where the code raises. */
    method AcknowledgeApplied(id: Id) returns (ok: bool)
      modifies this
      ensures State() == Step(old(State()), Acknowledge(id))
      ensures ok && id in old(store) && old(store)[id].submitted.Some? ==>
                && store == old(store)[id := old(store)[id].(acknowledged := old(store)[id].submitted)]
                && old(store)[id].state in {AwaitingReview, Stopped, Halted, Failed}
                && (id in old(runtimes) ==> old(runtimes)[id].exit.Some?)
      ensures !ok || (id in old(store) && old(store)[id].submitted.None?) ==> store == old(store)
      ensures ok == (id in old(store) && (if old(store)[id].submitted.None? then old(store)[id].acknowledged.Some?
                                          else Decidable(old(State()), id)))
    {
      if id !in store {
        return false;
      }
      var head := store[id].submitted;
      if head.None? {
        return store[id].acknowledged.Some?;
      }
      if (id in runtimes && runtimes[id].exit.None?) || !store[id].state.Inactive() {
        return false;
      }
      ok := true;
      if store[id].acknowledged != head {
        store := store[id := store[id].(acknowledged := head)];
      }
    }

    method RejectPatch(id: Id) returns (ok: bool)
      modifies this
      ensures State() == Step(old(State()), Reject(id))
      ensures ok && id in old(store) && old(store)[id].submitted.Some? ==>
                && store == old(store)[id := old(store)[id].(rejected := old(store)[id].submitted)]
                && old(store)[id].state in {AwaitingReview, Stopped, Halted, Failed}
                && (id in old(runtimes) ==> old(runtimes)[id].exit.Some?)
      ensures !ok || (id in old(store) && old(store)[id].submitted.None?) ==> store == old(store)
      ensures ok == (id in old(store) && (if old(store)[id].submitted.None? then old(store)[id].rejected.Some?
                                          else Decidable(old(State()), id)))
    {
      if id !in store {
        return false;
      }
      var head := store[id].submitted;
      if head.None? {
        return store[id].rejected.Some?;
      }
      if (id in runtimes && runtimes[id].exit.None?) || !store[id].state.Inactive() {
        return false;
      }
      ok := true;
      if store[id].rejected != head {
        store := store[id := store[id].(rejected := head)];
      }
    }

    /** One agent of `reap_agents`, with the checks of `_reap_agent`. */
    method ReapOne(id: Id) returns (result: ReapResult)
      modifies this
      ensures State() == Step(old(State()), Reap(id))
      ensures result == ReapAnswer(old(State()), id)
      ensures result.WasReaped? ==>
                store == old(store) - {id} && snapshots == old(snapshots) - {id} && runtimes == old(runtimes) - {id}
    {
      if id !in store {
        return NoRecord;
      }
      var record := store[id];
      var decided := record.submitted.None? || record.acknowledged == record.submitted
                     || record.rejected == record.submitted;
      if !decided || record.state.AwaitingReview? {
        return RequiresReview;
      }
      if !record.state.Stopped? && !record.state.Failed? {
        return NotStopped(record.state);
      }
      if id in runtimes && runtimes[id].exit.None? {
        return WorkerRunning;
      }
      snapshots := snapshots - {id};
      runtimes := runtimes - {id};
      store := store - {id};
      result := WasReaped;
    }

    /** `reap_agents`: all named agents must be known; then each once, in order, without a pause in between. */
    method ReapAgents(ids: seq<Id>) returns (answer: Option<seq<ReapResult>>)
      modifies this
      ensures answer.None? <==> ids == [] || exists id :: id in ids && id !in old(store)
      ensures answer.None? ==> State() == old(State())
      ensures answer.Some? ==> State() == Run(old(State()), Reaps(ids)) && ReapReport(old(State()), ids, answer.value)
    {
      hide Run, Reaps, Step, ReapAnswer;
      if ids == [] || exists id :: id in ids && id !in store {
        return None;
      }
      var results: seq<ReapResult> := [];
      ghost var start := State();
      ReapsNone(start);
      assert ids[..0] == [];
      for i := 0 to |ids|
        invariant State() == Run(start, Reaps(ids[..i])) && ReapReport(start, ids[..i], results)
      {
        ReapsSnoc(start, ids[..i], ids[i]);
        assert ids[..i + 1] == ids[..i] + [ids[i]];
        var result := DuplicateId;
        if ids[i] in ids[..i] {
          ReapedOnce(start, ids[..i], ids[i]);
        } else {
          result := ReapOne(ids[i]);
        }
        ReportSnoc(start, ids[..i], results, ids[i], result);
        results := results + [result];
      }
      assert ids[..|ids|] == ids;
      answer := Some(results);
    }

    /** `continue_agent` of an agent whose worker runs. */
    method ContinueAgent(id: Id, messages: seq<Message>) returns (ok: bool)
      modifies this
      ensures ok == Allowed(old(State()), Continue(id, messages))
      ensures State() == Step(old(State()), Continue(id, messages))
      ensures ok <==> id in old(store) && messages != [] && id in old(runtimes) && old(runtimes)[id].exit.None?
                      && old(store)[id].state in {Halted, Stopped, AwaitingReview, ReviewReceived}
      ensures ok ==> store == old(store)[id := old(store)[id].(history := old(store)[id].history + messages,
                                                              state := ReviewReceived)]
    {
      ok := && id in store && messages != [] && store[id].state.Continuable()
            && id in runtimes && runtimes[id].exit.None?;
      if ok {
        store := store[id := store[id].(history := store[id].history + messages)];
        store := store[id := store[id].(state := ReviewReceived)];
      }
    }

    method StopAgent(id: Id)
      modifies this
      ensures State() == Step(old(State()), Stop(id))
      ensures id in old(store) && id in old(runtimes) ==>
                && store == old(store)[id := old(store)[id].(state := Stopping)]
                && runtimes == old(runtimes)[id := old(runtimes)[id].(stopRequested := true)]
      ensures id in old(store) && id !in old(runtimes) && old(store)[id].state.AwaitingReview? ==>
                store == old(store)[id := old(store)[id].(state := Stopped)]
    {
      if id in store {
        if id in runtimes {
          runtimes := runtimes[id := runtimes[id].(stopRequested := true)];
          store := store[id := store[id].(state := Stopping)];
        } else if store[id].state.AwaitingReview? {
          store := store[id := store[id].(state := Stopped)];
        }
      }
    }
  }

  /** What is reported of an agent: review comes before its state, and that before its worker. */
  function ReapAnswer(w: World, id: Id): (result: ReapResult)
    ensures result.WasReaped? <==> Reapable(w, id)
    ensures !result.DuplicateId?
  {
    if id !in w.store then NoRecord
    else if !w.store[id].Decided() || w.store[id].state.AwaitingReview? then RequiresReview
    else if w.store[id].state !in {Stopped, Failed} then NotStopped(w.store[id].state)
    else if Live(w, id) then WorkerRunning
    else WasReaped
  }

  /** Every agent is reported once, as it was found when its turn came. */
  predicate ReapReport(w: World, ids: seq<Id>, results: seq<ReapResult>) {
    && |results| == |ids|
    && forall i {:trigger results[i]} :: 0 <= i < |ids| ==>
         results[i] == if ids[i] in ids[..i] then DuplicateId else ReapAnswer(Run(w, Reaps(ids[..i])), ids[i])
  }

  /** When an agent is reaped: no worker runs, and what it submitted was acknowledged or rejected. */
  lemma ReapedWhen(w: World, id: Id)
    ensures ReapAnswer(w, id) == WasReaped <==>
            && id in w.store && w.store[id].state in {Stopped, Failed}
            && (id in w.runtimes ==> w.runtimes[id].exit.Some?)
            && (w.store[id].submitted.Some? ==>
                  w.store[id].submitted in {w.store[id].acknowledged, w.store[id].rejected})
    ensures ReapAnswer(w, id) == RequiresReview <==>
            && id in w.store
            && (w.store[id].state == AwaitingReview
                || (w.store[id].submitted.Some?
                    && w.store[id].submitted !in {w.store[id].acknowledged, w.store[id].rejected}))
    ensures ReapAnswer(w, id) == NoRecord <==> id !in w.store
  {
  }

  lemma ReportSnoc(w: World, ids: seq<Id>, results: seq<ReapResult>, id: Id, result: ReapResult)
    requires ReapReport(w, ids, results)
    requires result == if id in ids then DuplicateId else ReapAnswer(Run(w, Reaps(ids)), id)
    ensures ReapReport(w, ids + [id], results + [result])
  {
    hide Run, Reaps, ReapAnswer;
    var all := ids + [id];
    assert all[..|ids|] == ids;
    assert forall i :: 0 <= i < |ids| ==> all[i] == ids[i] && all[..i] == ids[..i];
  }

  lemma ReapsNone(w: World)
    ensures Run(w, Reaps([])) == w
  {
  }

  function Reaps(ids: seq<Id>): seq<Event> {
    if ids == [] then [] else Reaps(ids[..|ids| - 1]) + [Reap(ids[|ids| - 1])]
  }

  lemma {:induction false} RunSnoc(w: World, events: seq<Event>, event: Event)
    ensures Run(w, events + [event]) == Step(Run(w, events), event)
    decreases |events|
  {
    hide Step;
    if events == [] {
      assert [event][1..] == [];
    } else {
      assert (events + [event])[1..] == events[1..] + [event];
      RunSnoc(Step(w, events[0]), events[1..], event);
    }
  }

  lemma ReapsSnoc(w: World, ids: seq<Id>, id: Id)
    ensures Run(w, Reaps(ids + [id])) == Step(Run(w, Reaps(ids)), Reap(id))
  {
    assert (ids + [id])[..|ids|] == ids;
    RunSnoc(w, Reaps(ids), Reap(id));
  }

  /** Naming an agent again cannot reap anything more. */
  lemma {:induction false} ReapedOnce(w: World, ids: seq<Id>, id: Id)
    requires id in ids
    ensures var t := Run(w, Reaps(ids)); Step(t, Reap(id)) == t
  {
    var n := |ids| - 1;
    assert ids == ids[..n] + [ids[n]];
    ReapsSnoc(w, ids[..n], ids[n]);
    if ids[n] != id {
      ReapedOnce(w, ids[..n], id);
    }
  }
}
