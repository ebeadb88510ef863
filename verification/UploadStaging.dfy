/**
 Uploads move from `incoming` to `completed` and are consumed by a start. The publication
 lock serializes everything but the awaited starts, which have a lock of their own
 (remote_agent_upload.py:112-263).
 */
module UploadStaging {
  import opened Wrappers

  type Id = string

  /** The files of a checkout; the empty one has none. */
  type Files = string

  /** A start under way, and the checkout that was handed to `start_agent`. */
  datatype Flight = Flight(id: Id, files: Files)

  /** `finalized` and `started` count, per id, the uploads sealed and the starts that succeeded. */
  datatype Uploads = Uploads(incoming: map<Id, Files>, completed: map<Id, Files>,
                             blocking: Option<Flight>, awaited: Option<Flight>,
                             finalized: map<Id, nat>, started: map<Id, nat>)

  datatype Event =
    | Create(id: Id)                        // create_incoming
    | Transfer(id: Id, files: Files)        // rsync into the incoming directory
    | Finalize(id: Id)
    | BeginBlocking(id: Id)                 // publish_and_snapshot, holding the publication lock
    | EndBlocking(ok: bool)
    | BeginAwaited(id: Id)                  // start_async_handler, holding the start lock
    | EndAwaited(ok: bool)
    | Cleanup(stale: set<Id>)               // cleanup_abandoned

  function Count(counts: map<Id, nat>, id: Id): nat {
    if id in counts then counts[id] else 0
  }

  function Plus(counts: map<Id, nat>, id: Id): map<Id, nat> {
    counts[id := Count(counts, id) + 1]
  }

  predicate Ready(u: Uploads, id: Id) {
    id in u.completed && u.completed[id] != ""
  }

  /** What must hold for the step to have an effect; a held lock makes it wait, the rest are errors. */
  predicate Allowed(u: Uploads, event: Event) {
    match event
    case Create(id) => u.blocking.None? && id !in u.completed && id !in u.incoming
    case Transfer(id, _) => id in u.incoming
    case Finalize(id) => u.blocking.None? && id !in u.completed && id in u.incoming && u.incoming[id] != ""
    case BeginBlocking(id) => u.blocking.None? && Ready(u, id)
    case EndBlocking(_) => u.blocking.Some?
    case BeginAwaited(id) => u.awaited.None? && Ready(u, id)
    case EndAwaited(_) => u.awaited.Some?
    case Cleanup(_) => u.blocking.None?
  }

  /** A start that succeeded consumes the checkout of its id; one that failed leaves it. */
  function Consume(u: Uploads, id: Id, ok: bool): Uploads {
    if ok then u.(completed := u.completed - {id}, started := Plus(u.started, id)) else u
  }

  function Step(u: Uploads, event: Event): Uploads {
    if !Allowed(u, event) then u
    else
      match event
      case Create(id) => u.(incoming := u.incoming[id := ""])
      case Transfer(id, files) => u.(incoming := u.incoming[id := files])
      case Finalize(id) =>
        u.(completed := u.completed[id := u.incoming[id]], incoming := u.incoming - {id},
           finalized := Plus(u.finalized, id))
      case BeginBlocking(id) => u.(blocking := Some(Flight(id, u.completed[id])))
      case EndBlocking(ok) => Consume(u, u.blocking.value.id, ok).(blocking := None)
      case BeginAwaited(id) => u.(awaited := Some(Flight(id, u.completed[id])))
      case EndAwaited(ok) => Consume(u, u.awaited.value.id, ok).(awaited := None)
      case Cleanup(stale) => u.(incoming := u.incoming - stale, completed := u.completed - stale)
  }

  function Run(u: Uploads, events: seq<Event>): Uploads
    decreases |events|
  {
    if events == [] then u else Run(Step(u, events[0]), events[1..])
  }

  const EMPTY := Uploads(map[], map[], None, None, map[], map[])

  // ------------------------------------------------------ one place at a time

  predicate Disjoint(u: Uploads) {
    u.incoming.Keys !! u.completed.Keys
  }

  lemma StepDisjoint(u: Uploads, event: Event)
    requires Disjoint(u)
    ensures Disjoint(Step(u, event))
  {
  }

  /** In every run no upload is in both directories, whatever starts and cleanups interfere. */
  lemma {:induction false} DisjointTheorem(u: Uploads, events: seq<Event>)
    requires Disjoint(u)
    ensures Disjoint(Run(u, events))
    decreases |events|
  {
    hide Step, Disjoint;
    if events != [] {
      StepDisjoint(u, events[0]);
      DisjointTheorem(Step(u, events[0]), events[1..]);
    }
  }

  // -------------------------------------------------- checkouts being started

  /** A daemon has one kind of start handler; uploads are not cleaned up behind it. */
  predicate Suits(event: Event, awaiting: bool) {
    !event.Cleanup? && (if awaiting then !event.BeginBlocking? else !event.BeginAwaited?)
  }

  predicate OneHandler(events: seq<Event>, awaiting: bool) {
    forall i :: 0 <= i < |events| ==> Suits(events[i], awaiting)
  }

  predicate InPlace(u: Uploads, flight: Option<Flight>) {
    flight.Some? ==> flight.value.id in u.completed && u.completed[flight.value.id] == flight.value.files
  }

  /** Every sealed upload is either waiting or was started, once. */
  ghost predicate Balanced(u: Uploads) {
    forall id :: Count(u.started, id) + (if id in u.completed then 1 else 0) == Count(u.finalized, id)
  }

  ghost predicate Steady(u: Uploads, awaiting: bool) {
    && Disjoint(u) && Balanced(u) && InPlace(u, u.blocking) && InPlace(u, u.awaited)
    && (if awaiting then u.blocking.None? else u.awaited.None?)
  }

  lemma StepBalanced(u: Uploads, event: Event, awaiting: bool)
    requires Steady(u, awaiting) && Suits(event, awaiting)
    ensures Balanced(Step(u, event))
  {
  }

  lemma StepInPlace(u: Uploads, event: Event, awaiting: bool)
    requires Steady(u, awaiting) && Suits(event, awaiting)
    ensures var t := Step(u, event);
            && InPlace(t, t.blocking) && InPlace(t, t.awaited)
            && (if awaiting then t.blocking.None? else t.awaited.None?)
            && (u.awaited.Some? && !event.EndAwaited? ==> t.awaited == u.awaited)
            && (u.blocking.Some? && !event.EndBlocking? ==> t.blocking == u.blocking)
  {
  }

  lemma StepSteady(u: Uploads, event: Event, awaiting: bool)
    requires Steady(u, awaiting) && Suits(event, awaiting)
    ensures Steady(Step(u, event), awaiting)
  {
    hide Step, Disjoint, Balanced, InPlace;
    StepDisjoint(u, event);
    StepBalanced(u, event, awaiting);
    StepInPlace(u, event, awaiting);
  }

  lemma {:induction false} RunSteady(u: Uploads, events: seq<Event>, awaiting: bool)
    requires Steady(u, awaiting) && OneHandler(events, awaiting)
    ensures Steady(Run(u, events), awaiting)
    decreases |events|
  {
    hide Step, Steady;
    if events != [] {
      StepSteady(u, events[0], awaiting);
      RunSteady(Step(u, events[0]), events[1..], awaiting);
    }
  }

  /**
   In every run with one kind of start handler and no cleanup: no upload is in both
   directories; a checkout handed to a start is in place; and every sealed upload leads to
   at most one successful start, exactly one if it is no longer waiting.
   */
  lemma UploadTheorem(events: seq<Event>, awaiting: bool, id: Id)
    requires OneHandler(events, awaiting)
    ensures var u := Run(EMPTY, events);
            && !(id in u.incoming && id in u.completed)
            && InPlace(u, u.blocking) && InPlace(u, u.awaited)
            && Count(u.finalized, id) == Count(u.started, id) + (if id in u.completed then 1 else 0)
  {
    hide Run;
    RunSteady(EMPTY, events, awaiting);
  }

  /** Until an awaited start returns, its checkout is neither removed nor replaced; if it fails, it stays. */
  lemma {:induction false} CheckoutKept(u: Uploads, events: seq<Event>)
    requires Steady(u, true) && u.awaited.Some? && OneHandler(events, true)
    requires forall i :: 0 <= i < |events| ==> !events[i].EndAwaited?
    ensures var t, flight := Run(u, events), u.awaited.value;
            && t.awaited == u.awaited
            && flight.id in t.completed && t.completed[flight.id] == flight.files
            && (var failed := Step(t, EndAwaited(false));
                flight.id in failed.completed && failed.completed[flight.id] == flight.files)
    decreases |events|
  {
    if events != [] {
      hide Step, Steady;
      StepSteady(u, events[0], true);
      StepInPlaceSteady(u, events[0]);
      CheckoutKept(Step(u, events[0]), events[1..]);
    }
  }

  /** The same for a start that holds the lock; when it succeeds, its upload is consumed and counted once. */
  lemma {:induction false} BlockingKept(u: Uploads, events: seq<Event>)
    requires Steady(u, false) && u.blocking.Some? && OneHandler(events, false)
    requires forall i :: 0 <= i < |events| ==> !events[i].EndBlocking?
    ensures var t, flight := Run(u, events), u.blocking.value;
            && t.blocking == u.blocking
            && flight.id in t.completed && t.completed[flight.id] == flight.files
            && (var failed := Step(t, EndBlocking(false));
                failed.completed == t.completed && failed.started == t.started && failed.blocking.None?)
            && (var done := Step(t, EndBlocking(true));
                done.completed == t.completed - {flight.id}
                && Count(done.started, flight.id) == Count(t.started, flight.id) + 1)
    decreases |events|
  {
    if events != [] {
      hide Step, Steady;
      StepSteady(u, events[0], false);
      StepBlockingSteady(u, events[0]);
      BlockingKept(Step(u, events[0]), events[1..]);
    }
  }

  lemma StepBlockingSteady(u: Uploads, event: Event)
    requires Steady(u, false) && Suits(event, false) && u.blocking.Some? && !event.EndBlocking?
    ensures Step(u, event).blocking == u.blocking
  {
    hide Step;
    StepInPlace(u, event, false);
  }

  lemma StepInPlaceSteady(u: Uploads, event: Event)
    requires Steady(u, true) && Suits(event, true) && u.awaited.Some? && !event.EndAwaited?
    ensures Step(u, event).awaited == u.awaited
  {
    hide Step;
    StepInPlace(u, event, true);
  }

  /**
   The condition is needed: with both kinds of handler one sealed upload can be started
   twice, and the checkout of the start under way is removed.
   */
  lemma BothHandlers(u: Uploads, id: Id)
    requires Ready(u, id) && u.blocking.None? && u.awaited.None?
    ensures var during := Run(u, [BeginAwaited(id), BeginBlocking(id), EndBlocking(true)]);
            && during.awaited.Some? && during.awaited.value.id == id && id !in during.completed
            && (var after := Step(during, EndAwaited(true));
                Count(after.started, id) == Count(u.started, id) + 2 && after.finalized == u.finalized)
  {
    hide Run;
    var u1 := Step(u, BeginAwaited(id));
    var u2 := Step(u1, BeginBlocking(id));
    RunThree(u, BeginAwaited(id), BeginBlocking(id), EndBlocking(true));
  }

  lemma RunThree(u: Uploads, a: Event, b: Event, c: Event)
    ensures Run(u, [a, b, c]) == Step(Step(Step(u, a), b), c)
  {
    hide Step;
    assert [a, b, c][1..] == [b, c] && [b, c][1..] == [c] && [c][1..] == [];
    var t := Step(Step(u, a), b);
    assert Run(Step(t, c), []) == Step(t, c);
    assert Run(t, [c]) == Step(t, c);
    assert Run(Step(u, a), [b, c]) == Step(t, c);
  }

  // -------------------------------------------------------------- the manager

  class RemoteUploadManager {
    var incoming: map<Id, Files>
    var completed: map<Id, Files>
    var blocking: Option<Flight>      // a start that holds the publication lock
    var awaited: Option<Flight>       // a start that holds the start lock
    ghost var finalized: map<Id, nat>
    ghost var started: map<Id, nat>

    ghost function State(): Uploads
      reads this
    {
      Uploads(incoming, completed, blocking, awaited, finalized, started)
    }

    constructor ()
      ensures State() == EMPTY
    {
      incoming, completed, blocking, awaited, finalized, started := map[], map[], None, None, map[], map[];
    }

    method CreateIncoming(id: Id) returns (ok: bool)
      requires blocking.None?
      modifies this
      ensures State() == Step(old(State()), Create(id)) && ok == Allowed(old(State()), Create(id))
      ensures ok <==> id !in old(incoming) && id !in old(completed)
      ensures ok ==> incoming == old(incoming)[id := ""] && completed == old(completed)
    {
      if id in completed || id in incoming {
        return false;
      }
      incoming := incoming[id := ""];
      ok := true;
    }

    method FinalizeUpload(id: Id) returns (ok: bool)
      requires blocking.None?
      modifies this
      ensures State() == Step(old(State()), Finalize(id)) && ok == Allowed(old(State()), Finalize(id))
      ensures ok <==> id !in old(completed) && id in old(incoming) && old(incoming)[id] != ""
      ensures ok ==> completed == old(completed)[id := old(incoming)[id]] && incoming == old(incoming) - {id}
    {
      if id in completed || id !in incoming || incoming[id] == "" {
        return false;
      }
      completed := completed[id := incoming[id]];
      incoming := incoming - {id};
      finalized := Plus(finalized, id);
      ok := true;
    }

    /** `publish_and_snapshot` up to the call of `create_snapshot`. */
    method BeginPublish(id: Id) returns (checkout: Option<Files>)
      requires blocking.None?
      modifies this
      ensures State() == Step(old(State()), BeginBlocking(id))
      ensures checkout == if id in old(completed) && old(completed)[id] != "" then Some(old(completed)[id]) else None
      ensures completed == old(completed) && (checkout.Some? ==> blocking == Some(Flight(id, checkout.value)))
    {
      if id !in completed || completed[id] == "" {
        return None;
      }
      blocking := Some(Flight(id, completed[id]));
      checkout := Some(completed[id]);
    }

    /** After it: the upload is removed only if the snapshot was made. */
    method EndPublish(ok: bool)
      requires blocking.Some?
      modifies this
      ensures State() == Step(old(State()), EndBlocking(ok))
      ensures completed == (if ok then old(completed) - {old(blocking).value.id} else old(completed))
      ensures incoming == old(incoming) && blocking.None?
    {
      if ok {
        completed := completed - {blocking.value.id};
        started := Plus(started, blocking.value.id);
      }
      blocking := None;
    }

    /** `start_async_handler` up to the await of `start_agent`. */
    method BeginStart(id: Id) returns (checkout: Option<Files>)
      requires awaited.None?
      modifies this
      ensures State() == Step(old(State()), BeginAwaited(id))
      ensures checkout == if id in old(completed) && old(completed)[id] != "" then Some(old(completed)[id]) else None
      ensures completed == old(completed) && (checkout.Some? ==> awaited == Some(Flight(id, checkout.value)))
    {
      if id !in completed || completed[id] == "" {
        return None;
      }
      awaited := Some(Flight(id, completed[id]));
      checkout := Some(completed[id]);
    }

    method EndStart(ok: bool)
      requires awaited.Some?
      modifies this
      ensures State() == Step(old(State()), EndAwaited(ok))
      ensures completed == (if ok then old(completed) - {old(awaited).value.id} else old(completed))
      ensures incoming == old(incoming) && awaited.None?
    {
      if ok {
        completed := completed - {awaited.value.id};
        started := Plus(started, awaited.value.id);
      }
      awaited := None;
    }

    /** `cleanup_abandoned`, given which directories are old enough. */
    method CleanupAbandoned(stale: set<Id>)
      requires blocking.None?
      modifies this
      ensures State() == Step(old(State()), Cleanup(stale))
      ensures incoming == old(incoming) - stale && completed == old(completed) - stale
    {
      incoming := incoming - stale;
      completed := completed - stale;
    }
  }
}
