/**
 One client and one server over a sequence of connections, each with a FIFO of requests and
 a FIFO of replies; timeouts, cancellation, closing and reconnecting are steps
 (agent_ipc.py:148-201, 230-235, 266-331). Both ends use the same byte limit.
 */
module RpcPairing {
  import opened Wrappers

  type Params = string
  type Value = string

  datatype Call = Call(name: string, params: Params)

  /** The request ids of the client count its calls, across connections. */
  datatype Request = Request(id: nat, call: Call)

  /** What became of a request at the server. */
  datatype Outcome = Result(value: Value) | Fault(code: int)

  const METHOD_NOT_FOUND := -32601

  datatype Reply = Reply(id: nat, outcome: Outcome)

  datatype Side = Waiting | Served | Closed

  /** `requests` are those written and not answered; `busy` says that the first is being handled. */
  datatype Conn = Conn(requests: seq<Request>, replies: seq<Reply>, busy: bool, side: Side, cancelled: nat)

  /** What a caller of `request` got. */
  datatype Answer = Returned(value: Value) | RemoteError(code: int) | Mismatched | TimedOut | Lost | Refused

  datatype Handled = Handled(request: Request, outcome: Outcome)

  datatype Link = Link(conns: seq<Conn>, current: Option<nat>, pending: bool, calls: seq<Call>,
                       connected: bool, closing: bool, handled: seq<Handled>, answers: map<nat, Answer>)

  datatype Event =
    | Connect
    | Accept(c: nat)                       // the server sees a new connection
    | Send(call: Call, fits: bool)         // request, once it holds the lock
    | Handle(c: nat)                       // the server takes the next request
    | Respond(c: nat, outcome: Outcome)    // and writes its one response
    | Drop(c: nat)                         // the server leaves a connection
    | Shutdown                             // stop()
    | Deliver                              // the client reads a response
    | Timeout
    | Cancel                               // whoever awaits the response is cancelled
    | PeerClosed                           // the client reads the end of the stream
    | Close                                // close() between requests

  predicate Valid(l: Link) {
    && (l.current.Some? ==> l.current.value < |l.conns|)
    && (l.pending ==> l.current.Some? && 0 < |l.calls|)
  }

  predicate Allowed(l: Link, event: Event)
    requires Valid(l)
  {
    match event
    case Connect => l.current.None?
    case Accept(c) => c < |l.conns| && l.conns[c].side.Waiting?
    case Send(_, _) => !l.pending
    case Handle(c) => c < |l.conns| && l.conns[c].side.Served? && !l.conns[c].busy && l.conns[c].requests != []
                      && !l.closing
    case Respond(c, _) => c < |l.conns| && l.conns[c].side.Served? && l.conns[c].busy && l.conns[c].requests != []
    case Drop(c) => c < |l.conns| && l.conns[c].side.Served?
    case Shutdown => true
    case Deliver => l.pending && l.conns[l.current.value].replies != []
    case Timeout => l.pending
    case Cancel => l.pending
    case PeerClosed => l.pending && l.conns[l.current.value].side.Closed? && l.conns[l.current.value].replies == []
    case Close => !l.pending && l.current.Some?
  }

  function Put(l: Link, c: nat, conn: Conn): Link
    requires c < |l.conns|
  {
    l.(conns := l.conns[c := conn])
  }

  /** The request waiting for its answer is the last one made. */
  function Finish(l: Link, answer: Answer): Link {
    l.(pending := false, answers := l.answers[|l.calls| := answer])
  }

  function Read(reply: Reply, id: nat): Answer {
    if reply.id != id then Mismatched
    else match reply.outcome case Result(value) => Returned(value) case Fault(code) => RemoteError(code)
  }

  function Effect(l: Link, event: Event): Link
    requires Valid(l) && Allowed(l, event)
  {
    match event
    case Connect => l.(conns := l.conns + [Conn([], [], false, Waiting, 0)], current := Some(|l.conns|))
    case Accept(c) =>
      if l.connected || l.closing then Put(l, c, l.conns[c].(side := Closed))
      else Put(l, c, l.conns[c].(side := Served)).(connected := true)
    case Send(call, fits) =>
      var l' := l.(calls := l.calls + [call]);
      if l.current.None? || !fits then Finish(l', Refused)
      else
        var conn := l.conns[l.current.value];
        Put(l', l.current.value, conn.(requests := conn.requests + [Request(|l'.calls|, call)])).(pending := true)
    case Handle(c) => Put(l, c, l.conns[c].(busy := true))
    case Respond(c, outcome) =>
      var conn := l.conns[c];
      var request := conn.requests[0];
      Put(l, c, conn.(requests := conn.requests[1..], busy := false,
                      replies := conn.replies + [Reply(request.id, outcome)]))
      .(handled := l.handled + [Handled(request, outcome)])
    case Drop(c) => Put(l, c, l.conns[c].(side := Closed, busy := false)).(connected := false)
    case Shutdown => l.(closing := true)
    case Deliver =>
      var conn := l.conns[l.current.value];
      Finish(Put(l, l.current.value, conn.(replies := conn.replies[1..])), Read(conn.replies[0], |l.calls|))
    case Timeout => Finish(l, TimedOut).(current := None)
    case Cancel =>
      var conn := l.conns[l.current.value];
      Put(l, l.current.value, conn.(cancelled := conn.cancelled + 1)).(pending := false)
    case PeerClosed => Finish(l, Lost)
    case Close => l.(current := None)
  }

  function Step(l: Link, event: Event): (l': Link)
    requires Valid(l)
    ensures Valid(l')
  {
    if Allowed(l, event) then Effect(l, event) else l
  }

  function Run(l: Link, events: seq<Event>): (l': Link)
    requires Valid(l)
    ensures Valid(l')
    decreases |events|
  {
    if events == [] then l else Run(Step(l, events[0]), events[1..])
  }

  const START := Link([], None, false, [], false, false, [], map[])

  // ---------------------------------------------------------- result pairing

  /** Requests are what was called, replies are what the handler gave, answers were replied. */
  predicate Honest(l: Link) {
    && (forall c :: 0 <= c < |l.conns| ==> HonestConn(l, l.conns[c]))
    && (forall h :: h in l.handled ==> Genuine(l, h.request))
    && (forall id :: id in l.answers ==> Justified(l, id))
  }

  predicate HonestConn(l: Link, conn: Conn) {
    && (forall request :: request in conn.requests ==> Genuine(l, request))
    && (forall reply :: reply in conn.replies ==> Backed(l, reply))
  }

  predicate Genuine(l: Link, request: Request) {
    1 <= request.id <= |l.calls| && l.calls[request.id - 1] == request.call
  }

  predicate Backed(l: Link, reply: Reply) {
    exists h :: h in l.handled && h.request.id == reply.id && h.outcome == reply.outcome
  }

  /** A returned value is what the server answered to that very call. */
  predicate Justified(l: Link, id: nat)
    requires id in l.answers
  {
    && 1 <= id <= |l.calls|
    && (l.answers[id].Returned? ==> Handled(Request(id, l.calls[id - 1]), Result(l.answers[id].value)) in l.handled)
    && (l.answers[id].RemoteError? ==> Handled(Request(id, l.calls[id - 1]), Fault(l.answers[id].code)) in l.handled)
  }

  /** Later calls and later responses take nothing away. */
  lemma HonestGrows(l: Link, l': Link, conn: Conn)
    requires l.calls <= l'.calls && l.handled <= l'.handled && HonestConn(l, conn)
    ensures HonestConn(l', conn)
  {
    assert forall h :: h in l.handled ==> h in l'.handled;
  }

  lemma StepGrows(l: Link, event: Event)
    requires Valid(l)
    ensures var t := Step(l, event); l.calls <= t.calls && l.handled <= t.handled
  {
  }

  /** A step changes one connection, and only in these ways. */
  lemma StepConn(l: Link, event: Event, c: nat)
    requires Valid(l) && c < |Step(l, event).conns|
    ensures var t := Step(l, event);
            var conn := t.conns[c];
            if |l.conns| <= c then conn == Conn([], [], false, Waiting, 0)
            else
              var was := l.conns[c];
              || (conn.requests == was.requests && conn.replies == was.replies)
              || (t.calls != [] && conn.requests == was.requests + [Request(|t.calls|, t.calls[|t.calls| - 1])]
                  && conn.replies == was.replies)
              || (t.handled != [] && was.requests != [] && conn.requests == was.requests[1..]
                  && t.handled[|t.handled| - 1].request == was.requests[0]
                  && conn.replies == was.replies + [Reply(was.requests[0].id, t.handled[|t.handled| - 1].outcome)])
              || (was.replies != [] && conn.requests == was.requests && conn.replies == was.replies[1..])
  {
  }

  lemma StepHonestConn(l: Link, event: Event, c: nat)
    requires Valid(l) && Honest(l) && c < |Step(l, event).conns|
    ensures HonestConn(Step(l, event), Step(l, event).conns[c])
  {
    hide Step, Genuine;
    var t := Step(l, event);
    StepConn(l, event, c);
    StepGrows(l, event);
    if c < |l.conns| {
      HonestGrows(l, t, l.conns[c]);
    }
    if t.calls != [] {
      NewestGenuine(t);
    }
  }

  lemma NewestGenuine(l: Link)
    requires l.calls != []
    ensures Genuine(l, Request(|l.calls|, l.calls[|l.calls| - 1]))
  {
  }

  lemma StepHonestLog(l: Link, event: Event)
    requires Valid(l) && Honest(l)
    ensures forall h :: h in Step(l, event).handled ==> Genuine(Step(l, event), h.request)
  {
    if event.Respond? && Allowed(l, event) {
      assert HonestConn(l, l.conns[event.c]);
      assert Genuine(l, l.conns[event.c].requests[0]);
    }
  }

  /** Only the last call's answer is new. */
  lemma StepAnswers(l: Link, event: Event, id: nat)
    requires Valid(l) && id in Step(l, event).answers
    ensures var t := Step(l, event);
            || (id in l.answers && l.answers[id] == t.answers[id])
            || (id == |t.calls| && t.calls != [] && !t.answers[id].Returned? && !t.answers[id].RemoteError?)
            || (id == |t.calls| && event == Deliver && Allowed(l, Deliver) && t.calls == l.calls
                && t.handled == l.handled
                && t.answers[id] == Read(l.conns[l.current.value].replies[0], |l.calls|))
  {
  }

  lemma StepJustified(l: Link, event: Event, id: nat)
    requires Valid(l) && Honest(l) && id in Step(l, event).answers
    ensures Justified(Step(l, event), id)
  {
    hide Step;
    StepAnswers(l, event, id);
    StepGrows(l, event);
    if event == Deliver && Allowed(l, Deliver) {
      var conn := l.conns[l.current.value];
      assert HonestConn(l, conn);
      assert conn.replies[0] in conn.replies;
      var h :| h in l.handled && h.request.id == conn.replies[0].id && h.outcome == conn.replies[0].outcome;
      assert Genuine(l, h.request);
      assert h == Handled(h.request, h.outcome);
    }
  }

  lemma StepHonest(l: Link, event: Event)
    requires Valid(l) && Honest(l)
    ensures Honest(Step(l, event))
  {
    hide Step, HonestConn, Genuine, Justified;
    forall c: nat | c < |Step(l, event).conns| ensures HonestConn(Step(l, event), Step(l, event).conns[c]) {
      StepHonestConn(l, event, c);
    }
    StepHonestLog(l, event);
    forall id | id in Step(l, event).answers ensures Justified(Step(l, event), id) {
      StepJustified(l, event, id);
    }
  }

  lemma {:induction false} RunHonest(l: Link, events: seq<Event>)
    requires Valid(l) && Honest(l)
    ensures Honest(Run(l, events))
    decreases |events|
  {
    hide Step, Honest, Valid;
    if events != [] {
      StepHonest(l, events[0]);
      RunHonest(Step(l, events[0]), events[1..]);
    }
  }

  /**
   In every run, whatever is cancelled, times out or reconnects: a value returned by a call
   is the handler's result for the request of that very call, with its method and params.
   */
  lemma PairingTheorem(events: seq<Event>, id: nat, value: Value)
    requires id in Run(START, events).answers && Run(START, events).answers[id] == Returned(value)
    ensures var l := Run(START, events);
            1 <= id <= |l.calls| && Handled(Request(id, l.calls[id - 1]), Result(value)) in l.handled
  {
    hide Run;
    RunHonest(START, events);
    assert Justified(Run(START, events), id);
  }

  // ------------------------------------------------------------ one at a time

  predicate OneServed(l: Link) {
    && (!l.connected ==> forall c :: 0 <= c < |l.conns| ==> !l.conns[c].side.Served?)
    && (forall c, d :: 0 <= c < |l.conns| && 0 <= d < |l.conns| ==>
          l.conns[c].side.Served? && l.conns[d].side.Served? ==> c == d)
  }

  lemma StepOneServed(l: Link, event: Event)
    requires Valid(l) && OneServed(l)
    ensures OneServed(Step(l, event))
  {
  }

  /** In every run at most one connection is served at a time. */
  lemma {:induction false} ServedTheorem(l: Link, events: seq<Event>)
    requires Valid(l) && OneServed(l)
    ensures OneServed(Run(l, events))
    decreases |events|
  {
    hide Step, OneServed, Valid;
    if events != [] {
      StepOneServed(l, events[0]);
      ServedTheorem(Step(l, events[0]), events[1..]);
    }
  }

  // ------------------------------------------------ responses that do not match

  /** The ids whose answers are still to come on a connection, in the order they will come. */
  function Flight(conn: Conn): seq<nat> {
    ReplyIds(conn.replies) + RequestIds(conn.requests)
  }

  function ReplyIds(replies: seq<Reply>): seq<nat> {
    seq(|replies|, i requires 0 <= i < |replies| => replies[i].id)
  }

  function RequestIds(requests: seq<Request>): seq<nat> {
    seq(|requests|, i requires 0 <= i < |requests| => requests[i].id)
  }

  predicate Increasing(ids: seq<nat>, bound: nat) {
    && (forall i, j :: 0 <= i < j < |ids| ==> ids[i] < ids[j])
    && (forall i :: 0 <= i < |ids| ==> ids[i] <= bound)
  }

  /**
   Each cancelled call leaves one answer too many on its connection, ahead of the answer
   the client waits for. (After the server left and the last replies were read, none comes.)
   */
  predicate Tracked(l: Link)
    requires Valid(l)
  {
    && (forall c :: 0 <= c < |l.conns| ==> Increasing(Flight(l.conns[c]), |l.calls|))
    && (l.current.Some? ==> OnCurrent(l.conns[l.current.value], l.pending, |l.calls|))
  }

  predicate OnCurrent(conn: Conn, pending: bool, last: nat) {
    var flight := Flight(conn);
    && ((conn.side.Closed? && conn.replies == []) || |flight| == conn.cancelled + (if pending then 1 else 0))
    && (pending ==> flight != [] && flight[|flight| - 1] == last)
  }

  lemma FlightSend(conn: Conn, request: Request)
    ensures Flight(conn.(requests := conn.requests + [request])) == Flight(conn) + [request.id]
  {
    assert RequestIds(conn.requests + [request]) == RequestIds(conn.requests) + [request.id];
  }

  lemma FlightRespond(conn: Conn, outcome: Outcome)
    requires conn.requests != []
    ensures Flight(conn.(requests := conn.requests[1..],
                         replies := conn.replies + [Reply(conn.requests[0].id, outcome)])) == Flight(conn)
  {
    var id := conn.requests[0].id;
    assert RequestIds(conn.requests) == [id] + RequestIds(conn.requests[1..]);
    assert ReplyIds(conn.replies + [Reply(id, outcome)]) == ReplyIds(conn.replies) + [id];
  }

  lemma FlightDeliver(conn: Conn)
    requires conn.replies != []
    ensures Flight(conn) == [conn.replies[0].id] + Flight(conn.(replies := conn.replies[1..]))
  {
    assert ReplyIds(conn.replies) == [conn.replies[0].id] + ReplyIds(conn.replies[1..]);
  }

  /** Flags aside, a connection's answers to come change in one of these ways. */
  lemma StepFlight(l: Link, event: Event, c: nat)
    requires Valid(l) && c < |Step(l, event).conns|
    ensures var t := Step(l, event);
            var flight := Flight(t.conns[c]);
            && |l.calls| <= |t.calls|
            && if |l.conns| <= c then flight == []
               else
                 var was := Flight(l.conns[c]);
                 || flight == was
                 || (|t.calls| == |l.calls| + 1 && flight == was + [|t.calls|])
                 || (was != [] && flight == was[1..])
  {
    hide Flight;
    FlightOf(Conn([], [], false, Waiting, 0));
    if c < |l.conns| {
      var conn := l.conns[c];
      FlightOf(conn);
      FlightOf(Step(l, event).conns[c]);
      if event.Send? {
        FlightSend(conn, Request(|l.calls| + 1, event.call));
      }
      if event.Respond? && conn.requests != [] {
        FlightRespond(conn, event.outcome);
        FlightOf(conn.(requests := conn.requests[1..],
                       replies := conn.replies + [Reply(conn.requests[0].id, event.outcome)]));
      }
      if conn.replies != [] {
        FlightDeliver(conn);
      }
    }
  }

  lemma FlightOf(conn: Conn)
    ensures Flight(conn) == Flight(conn.(busy := false, side := Waiting, cancelled := 0))
    ensures conn.requests == [] && conn.replies == [] ==> Flight(conn) == []
  {
  }

  lemma StepIncreasing(l: Link, event: Event)
    requires Valid(l) && Tracked(l)
    ensures var t := Step(l, event); forall c :: 0 <= c < |t.conns| ==> Increasing(Flight(t.conns[c]), |t.calls|)
  {
    hide Step, Flight;
    forall c: nat | c < |Step(l, event).conns|
      ensures Increasing(Flight(Step(l, event).conns[c]), |Step(l, event).calls|)
    {
      StepFlight(l, event, c);
    }
  }

  lemma StepCurrent(l: Link, event: Event)
    requires Valid(l) && (l.current.Some? ==> OnCurrent(l.conns[l.current.value], l.pending, |l.calls|))
    ensures var t := Step(l, event); t.current.Some? ==> OnCurrent(t.conns[t.current.value], t.pending, |t.calls|)
  {
    hide Flight, Read;
    FlightOf(Conn([], [], false, Waiting, 0));
    if l.current.Some? {
      var c := l.current.value;
      FlightOf(l.conns[c]);
      FlightOf(Step(l, event).conns[c]);
      if event.Send? {
        FlightSend(l.conns[c], Request(|l.calls| + 1, event.call));
      }
      if event.Respond? && l.conns[c].requests != [] {
        OwnFlight(l.conns[c], event.outcome);
      }
      if l.conns[c].replies != [] {
        FlightDeliver(l.conns[c]);
      }
    }
  }

  lemma OwnFlight(conn: Conn, outcome: Outcome)
    requires conn.requests != []
    ensures Flight(conn.(requests := conn.requests[1..], busy := false,
                         replies := conn.replies + [Reply(conn.requests[0].id, outcome)])) == Flight(conn)
  {
    hide Flight;
    FlightRespond(conn, outcome);
    FlightOf(conn.(requests := conn.requests[1..], replies := conn.replies + [Reply(conn.requests[0].id, outcome)]));
    FlightOf(conn.(requests := conn.requests[1..], busy := false,
                   replies := conn.replies + [Reply(conn.requests[0].id, outcome)]));
  }

  lemma StepTracked(l: Link, event: Event)
    requires Valid(l) && Tracked(l)
    ensures Tracked(Step(l, event))
  {
    hide Step, Increasing, OnCurrent;
    StepIncreasing(l, event);
    StepCurrent(l, event);
  }

  lemma {:induction false} RunTracked(l: Link, events: seq<Event>)
    requires Valid(l) && Tracked(l)
    ensures Tracked(Run(l, events))
    decreases |events|
  {
    hide Step, Tracked, Valid;
    if events != [] {
      StepTracked(l, events[0]);
      RunTracked(Step(l, events[0]), events[1..]);
    }
  }

  /**
   Exactly when a response is mismatched: if a call was cancelled on this connection. One
   cancellation spoils every later response on it; without one, none is ever mismatched.
   */
  lemma MismatchTheorem(events: seq<Event>)
    ensures var l := Run(START, events);
            Allowed(l, Deliver) ==>
              (Step(l, Deliver).answers[|l.calls|] == Mismatched <==> 0 < l.conns[l.current.value].cancelled)
  {
    hide Run;
    RunTracked(START, events);
    var l := Run(START, events);
    if Allowed(l, Deliver) {
      var conn := l.conns[l.current.value];
      FlightDeliver(conn);
      FirstInFlight(Flight(conn), |l.calls|, conn.cancelled);
    }
  }

  lemma FirstInFlight(flight: seq<nat>, last: nat, cancelled: nat)
    requires Increasing(flight, last) && |flight| == cancelled + 1 && flight[|flight| - 1] == last
    ensures flight[0] == last <==> cancelled == 0
  {
  }

  /** The state after a call was cancelled, answered late, and a second one sent on the same connection. */
  const LATE_ANSWER := Link([Conn([Request(2, Call("b", ""))], [Reply(1, Result("a"))], false, Served, 1)],
                            Some(0), true, [Call("a", ""), Call("b", "")], true, false,
                            [Handled(Request(1, Call("a", "")), Result("a"))], map[])

  lemma RunFour(l: Link, a: Event, b: Event, c: Event, d: Event)
    requires Valid(l)
    ensures Run(l, [a, b, c, d]) == Step(Step(Step(Step(l, a), b), c), d)
  {
    hide Step;
    assert [a, b, c, d][1..] == [b, c, d] && [b, c, d][1..] == [c, d] && [c, d][1..] == [d] && [d][1..] == [];
    var t := Step(Step(l, a), b);
    assert Run(Step(Step(t, c), d), []) == Step(Step(t, c), d);
    assert Run(Step(t, c), [d]) == Step(Step(t, c), d);
    assert Run(t, [c, d]) == Step(Step(t, c), d);
  }

  lemma {:induction false} RunConcat(l: Link, a: seq<Event>, b: seq<Event>)
    requires Valid(l)
    ensures Run(l, a + b) == Run(Run(l, a), b)
    decreases |a|
  {
    hide Step;
    if a == [] {
      assert a + b == b;
    } else {
      assert (a + b)[0] == a[0] && (a + b)[1..] == a[1..] + b;
      RunConcat(Step(l, a[0]), a[1..], b);
    }
  }

  /** It happens: a run in which the second call reads the answer to the cancelled first one. */
  lemma MismatchWitness()
    ensures var events := [Connect, Accept(0), Send(Call("a", ""), true), Handle(0)]
                          + [Cancel, Event.Respond(0, Result("a")), Send(Call("b", ""), true), Deliver];
            Run(START, events).answers == map[2 := Mismatched]
  {
    hide Run, Step;
    var first, second := [Connect, Accept(0), Send(Call("a", ""), true), Handle(0)],
                         [Cancel, Event.Respond(0, Result("a")), Send(Call("b", ""), true), Deliver];
    RunConcat(START, first, second);
    RunFour(START, Connect, Accept(0), Send(Call("a", ""), true), Handle(0));
    var l := Run(START, first);
    WitnessStart();
    RunFour(l, Cancel, Event.Respond(0, Result("a")), Send(Call("b", ""), true), Deliver);
    WitnessEnd(l);
  }

  lemma WitnessStart()
    ensures Step(Step(Step(Step(START, Connect), Accept(0)), Send(Call("a", ""), true)), Handle(0))
            == Link([Conn([Request(1, Call("a", ""))], [], true, Served, 0)], Some(0), true, [Call("a", "")], true,
                    false, [], map[])
  {
    var a := Call("a", "");
    var r := Request(1, a);
    var c0, c1 := Conn([], [], false, Waiting, 0), Conn([], [], false, Served, 0);
    var c2, c3 := Conn([r], [], false, Served, 0), Conn([r], [], true, Served, 0);
    assert [] + [c0] == [c0] && [c0][0 := c1] == [c1] && [c1][0 := c2] == [c2] && [c2][0 := c3] == [c3];
    assert [] + [r] == [r] && [] + [a] == [a];
  }

  lemma WitnessEnd(l: Link)
    requires l == Link([Conn([Request(1, Call("a", ""))], [], true, Served, 0)], Some(0), true, [Call("a", "")], true,
                       false, [], map[])
    ensures Valid(l)
    ensures Step(Step(Step(Step(l, Cancel), Event.Respond(0, Result("a"))), Send(Call("b", ""), true)), Deliver).answers
            == map[2 := Mismatched]
  {
    var r, r' := Request(1, Call("a", "")), Request(2, Call("b", ""));
    var reply, done := Reply(1, Result("a")), Handled(r, Result("a"));
    var c0, c1 := Conn([r], [], true, Served, 0), Conn([r], [], true, Served, 1);
    var c2, c3 := Conn([], [reply], false, Served, 1), Conn([r'], [reply], false, Served, 1);
    assert [c0][0 := c1] == [c1] && [c1][0 := c2] == [c2] && [c2][0 := c3] == [c3];
    assert [r][1..] == [] && [] + [reply] == [reply] && [] + [done] == [done] && [] + [r'] == [r'];
    assert [Call("a", "")] + [Call("b", "")] == [Call("a", ""), Call("b", "")];
    assert Step(Step(Step(l, Cancel), Event.Respond(0, Result("a"))), Send(Call("b", ""), true)) == LATE_ANSWER;
  }

  predicate NoCancel(events: seq<Event>) {
    Cancel !in events
  }

  lemma {:induction false} NoneCancelled(l: Link, events: seq<Event>)
    requires Valid(l) && NoCancel(events)
    requires forall c :: 0 <= c < |l.conns| ==> l.conns[c].cancelled == 0
    requires forall id :: id in l.answers ==> l.answers[id] != Mismatched
    requires Tracked(l)
    ensures forall id :: id in Run(l, events).answers ==> Run(l, events).answers[id] != Mismatched
    decreases |events|
  {
    hide Step, Tracked;
    if events != [] {
      StepTracked(l, events[0]);
      StepClean(l, events[0]);
      NoneCancelled(Step(l, events[0]), events[1..]);
    }
  }

  lemma StepClean(l: Link, event: Event)
    requires Valid(l) && event != Cancel && Tracked(l)
    requires forall c :: 0 <= c < |l.conns| ==> l.conns[c].cancelled == 0
    requires forall id :: id in l.answers ==> l.answers[id] != Mismatched
    ensures var t := Step(l, event);
            && (forall c :: 0 <= c < |t.conns| ==> t.conns[c].cancelled == 0)
            && (forall id :: id in t.answers ==> t.answers[id] != Mismatched)
  {
    hide Flight, Increasing;
    if event == Deliver && Allowed(l, Deliver) {
      var conn := l.conns[l.current.value];
      FlightDeliver(conn);
      FirstInFlight(Flight(conn), |l.calls|, 0);
    }
  }

  /** In a run without cancellation the mismatched-response branch is never taken. */
  lemma NoMismatch(events: seq<Event>, id: nat)
    requires NoCancel(events) && id in Run(START, events).answers
    ensures Run(START, events).answers[id] != Mismatched
  {
    hide Run;
    NoneCancelled(START, events);
  }

  // --------------------------------------------------- what a call returns

  /** No request id is pending twice, or pending and handled, or handled twice. */
  ghost predicate Once(l: Link) {
    && (forall i, j :: 0 <= i < j < |l.handled| ==> l.handled[i].request.id != l.handled[j].request.id)
    && (forall i :: 0 <= i < |l.handled| ==> l.handled[i].request.id <= |l.calls|)
    && (forall c, i :: 0 <= c < |l.conns| && 0 <= i < |l.conns[c].requests| ==> Unhandled(l, l.conns[c].requests[i].id))
    && (forall c, i, d, j :: Pending(l, c, i) && Pending(l, d, j) ==>
          l.conns[c].requests[i].id == l.conns[d].requests[j].id ==> c == d && i == j)
  }

  predicate Pending(l: Link, c: int, i: int) {
    0 <= c < |l.conns| && 0 <= i < |l.conns[c].requests|
  }

  predicate Unhandled(l: Link, id: nat) {
    id <= |l.calls| && forall k :: 0 <= k < |l.handled| ==> l.handled[k].request.id != id
  }

  /** Nothing but a request sent or a response written changes what is pending or handled. */
  lemma StepSameWork(l: Link, event: Event)
    requires Valid(l) && !event.Respond? && (event.Send? ==> l.pending || l.current.None? || !event.fits)
    ensures var t := Step(l, event);
            && t.handled == l.handled && |l.calls| <= |t.calls| && |l.conns| <= |t.conns|
            && forall c :: 0 <= c < |t.conns| ==>
                 t.conns[c].requests == if c < |l.conns| then l.conns[c].requests else []
  {
  }

  lemma OnceKept(l: Link, t: Link)
    requires Once(l) && t.handled == l.handled && |l.calls| <= |t.calls| && |l.conns| <= |t.conns|
    requires forall c :: 0 <= c < |t.conns| ==> t.conns[c].requests == if c < |l.conns| then l.conns[c].requests else []
    ensures Once(t)
  {
    forall c, i | 0 <= c < |t.conns| && 0 <= i < |t.conns[c].requests|
      ensures c < |l.conns| && t.conns[c].requests[i] == l.conns[c].requests[i]
              && Unhandled(t, t.conns[c].requests[i].id)
    {
      assert Unhandled(l, l.conns[c].requests[i].id);
    }
  }

  lemma SendOnce(l: Link, call: Call)
    requires Valid(l) && Once(l) && !l.pending && l.current.Some?
    ensures Once(Step(l, Send(call, true)))
  {
    var t, at, id := Step(l, Send(call, true)), l.current.value, |l.calls| + 1;
    assert |t.calls| == id && t.handled == l.handled;
    assert t.conns[at].requests == l.conns[at].requests + [Request(id, call)];
    assert forall c :: 0 <= c < |l.conns| && c != at ==> t.conns[c].requests == l.conns[c].requests;
    forall c, i | 0 <= c < |t.conns| && 0 <= i < |t.conns[c].requests|
      ensures Unhandled(t, t.conns[c].requests[i].id)
      ensures t.conns[c].requests[i].id == id <==> c == at && i == |l.conns[at].requests|
      ensures t.conns[c].requests[i].id != id ==>
                i < |l.conns[c].requests| && t.conns[c].requests[i] == l.conns[c].requests[i]
    {
      if i < |l.conns[c].requests| {
        assert Unhandled(l, l.conns[c].requests[i].id);
      }
    }
  }

  lemma RespondOnce(l: Link, at: nat, outcome: Outcome)
    requires Valid(l) && Once(l) && Allowed(l, Event.Respond(at, outcome))
    ensures Once(Step(l, Event.Respond(at, outcome)))
  {
    var t := Step(l, Event.Respond(at, outcome));
    var request := l.conns[at].requests[0];
    assert t.handled == l.handled + [Handled(request, outcome)];
    assert t.conns[at].requests == l.conns[at].requests[1..];
    assert Unhandled(l, request.id);
    forall c, i | 0 <= c < |t.conns| && 0 <= i < |t.conns[c].requests|
      ensures var was := if c == at then i + 1 else i;
              && was < |l.conns[c].requests| && t.conns[c].requests[i] == l.conns[c].requests[was]
              && Unhandled(t, t.conns[c].requests[i].id)
    {
      var was := if c == at then i + 1 else i;
      assert Unhandled(l, l.conns[c].requests[was].id);
      assert l.conns[c].requests[was].id != request.id;
    }
  }

  lemma StepOnce(l: Link, event: Event)
    requires Valid(l) && Once(l)
    ensures Once(Step(l, event))
  {
    hide Once, Step;
    if event.Send? && !l.pending && l.current.Some? && event.fits {
      SendOnce(l, event.call);
    } else if event.Respond? {
      if Allowed(l, event) {
        RespondOnce(l, event.c, event.outcome);
      } else {
        NoStep(l, event);
      }
    } else {
      StepSameWork(l, event);
      OnceKept(l, Step(l, event));
    }
  }

  lemma NoStep(l: Link, event: Event)
    requires Valid(l) && !Allowed(l, event)
    ensures Step(l, event) == l
  {
  }

  lemma {:induction false} RunOnce(l: Link, events: seq<Event>)
    requires Valid(l) && Once(l)
    ensures Once(Run(l, events))
    decreases |events|
  {
    hide Step, Once, Valid;
    if events != [] {
      StepOnce(l, events[0]);
      RunOnce(Step(l, events[0]), events[1..]);
    }
  }

  /** The handler's outcome for the last call made is in the log. */
  predicate Logged(l: Link, outcome: Outcome)
    requires l.calls != []
  {
    Handled(Request(|l.calls|, l.calls[|l.calls| - 1]), outcome) in l.handled
  }

  /**
   In every run, when a response is read and no call was cancelled on its connection: the call
   returns a value if and only if that is the handler's result for this very call, and raises
   an error if and only if the handler failed with its code; one of both is the case.
   */
  lemma ReturnTheorem(events: seq<Event>)
    requires var l := Run(START, events); Allowed(l, Deliver) && l.conns[l.current.value].cancelled == 0
    ensures var l := Run(START, events);
            var answers, n := Step(l, Deliver).answers, |l.calls|;
            && n in answers && (answers[n].Returned? || answers[n].RemoteError?)
            && (forall value :: answers[n] == Returned(value) <==> Logged(l, Result(value)))
            && (forall code :: answers[n] == RemoteError(code) <==> Logged(l, Fault(code)))
  {
    hide Run;
    RunHonest(START, events);
    RunTracked(START, events);
    RunOnce(START, events);
    var l := Run(START, events);
    DeliveredIs(l);
  }

  lemma DeliveredIs(l: Link)
    requires Valid(l) && Honest(l) && Tracked(l) && Once(l) && Allowed(l, Deliver)
    requires l.conns[l.current.value].cancelled == 0
    ensures var answers, n := Step(l, Deliver).answers, |l.calls|;
            && n in answers && (answers[n].Returned? || answers[n].RemoteError?)
            && (forall value :: answers[n] == Returned(value) <==> Logged(l, Result(value)))
            && (forall code :: answers[n] == RemoteError(code) <==> Logged(l, Fault(code)))
  {
    hide Flight, HonestConn, Genuine, Justified;
    var conn, n := l.conns[l.current.value], |l.calls|;
    FlightDeliver(conn);
    FirstInFlight(Flight(conn), n, 0);
    var reply := conn.replies[0];
    assert reply.id == n;
    BackedBy(l, conn, reply);
    forall outcome ensures Logged(l, outcome) <==> outcome == reply.outcome {
      if Logged(l, outcome) {
        OneOutcome(l, Handled(Request(n, l.calls[n - 1]), outcome),
                   Handled(Request(n, l.calls[n - 1]), reply.outcome));
      }
    }
  }

  /** A reply holds what the handler gave for the call with its id. */
  lemma BackedBy(l: Link, conn: Conn, reply: Reply)
    requires Honest(l) && conn in l.conns && reply in conn.replies && 1 <= reply.id <= |l.calls|
    ensures Handled(Request(reply.id, l.calls[reply.id - 1]), reply.outcome) in l.handled
  {
    assert HonestConn(l, conn);
    var h :| h in l.handled && h.request.id == reply.id && h.outcome == reply.outcome;
    assert Genuine(l, h.request);
    assert h == Handled(Request(reply.id, l.calls[reply.id - 1]), reply.outcome);
  }

  lemma OneOutcome(l: Link, a: Handled, b: Handled)
    requires Once(l) && a in l.handled && b in l.handled && a.request.id == b.request.id
    ensures a == b
  {
    var i :| 0 <= i < |l.handled| && l.handled[i] == a;
    var j :| 0 <= j < |l.handled| && l.handled[j] == b;
    assert !(i < j) && !(j < i);
  }

  lemma Waits(l: Link, call: Call)
    requires Valid(l) && !l.pending && !l.closing && l.current.Some?
    requires var conn := l.conns[l.current.value];
             conn.side.Served? && !conn.busy && conn.requests == [] && conn.replies == []
    ensures var sent := Step(Step(l, Send(call, true)), Handle(l.current.value));
            && sent.pending && sent.current == l.current && sent.calls == l.calls + [call]
            && var conn := sent.conns[l.current.value];
               conn.side.Served? && conn.busy && conn.requests == [Request(|l.calls| + 1, call)] && conn.replies == []
  {
  }

  /** A call on a served, idle connection whose handler answers returns that answer. */
  lemma CallRuns(l: Link, call: Call, outcome: Outcome)
    requires Valid(l) && !l.pending && !l.closing && l.current.Some?
    requires var conn := l.conns[l.current.value];
             conn.side.Served? && !conn.busy && conn.requests == [] && conn.replies == []
    ensures var c, n := l.current.value, |l.calls| + 1;
            var t := Run(l, [Send(call, true), Handle(c), Event.Respond(c, outcome), Deliver]);
            && n in t.answers
            && t.answers[n]
               == (match outcome case Result(value) => Returned(value) case Fault(code) => RemoteError(code))
            && !t.pending && t.current == l.current
  {
    hide Run;
    var c := l.current.value;
    RunFour(l, Send(call, true), Handle(c), Event.Respond(c, outcome), Deliver);
    Waits(l, call);
  }

  /** The first connection to a server that runs is served. */
  lemma ConnectRuns()
    ensures var t := Run(START, [Connect, Accept(0)]);
            t.current == Some(0) && t.conns == [Conn([], [], false, Served, 0)] && !t.pending && !t.closing
  {
    var a, b := Connect, Accept(0);
    var conn := Conn([], [], false, Waiting, 0);
    assert [a, b][1..] == [b] && [b][1..] == [] && [] + [conn] == [conn];
    var t := Step(Step(START, a), b);
    assert [conn][0 := conn.(side := Served)] == [conn.(side := Served)];
    assert Run(Step(START, a), [b]) == Run(t, []) == t;
  }

  // -------------------------------------------------------- the serving loop

  /** A line as the server reads it: its id may be absent, `null`, of a wrong type, or usable. */
  datatype WireId = NoId | NullId | BadId | UsableId(id: nat)

  /** `wellFormed` covers the version, the method's type and the params' type. */
  datatype Wire = Wire(id: WireId, wellFormed: bool, name: string)

  datatype WireReply = WireReply(id: WireId, outcome: Outcome)

  const INVALID_REQUEST := -32600

  predicate Readable(wire: Wire) {
    wire.wellFormed && !wire.id.BadId?
  }

  predicate EndsLoop(wire: Wire) {
    !Readable(wire) && wire.id.NoId?
  }

  function Replies(wires: seq<Wire>, known: set<string>, outcomes: seq<Outcome>): seq<WireReply>
    requires |wires| <= |outcomes|
  {
    if wires == [] || EndsLoop(wires[0]) then []
    else OneReply(wires[0], known, outcomes[0]) + Replies(wires[1..], known, outcomes[1..])
  }

  function OneReply(wire: Wire, known: set<string>, outcome: Outcome): seq<WireReply> {
    if !Readable(wire) then [WireReply(wire.id, Fault(INVALID_REQUEST))]
    else if !wire.id.UsableId? then []
    else if wire.name !in known then [WireReply(wire.id, Fault(METHOD_NOT_FOUND))]
    else [WireReply(wire.id, outcome)]
  }

  /** `_serve_peer` on the lines of one connection; `outcomes` are what the handlers would give. */
  method ServePeer(wires: seq<Wire>, known: set<string>, outcomes: seq<Outcome>) returns (replies: seq<WireReply>)
    requires |wires| <= |outcomes|
    ensures replies == Replies(wires, known, outcomes)
  {
    hide OneReply;
    replies := [];
    for i := 0 to |wires|
      invariant replies + Replies(wires[i..], known, outcomes[i..]) == Replies(wires, known, outcomes)
    {
      assert wires[i..][1..] == wires[i + 1..] && outcomes[i..][1..] == outcomes[i + 1..];
      if EndsLoop(wires[i]) {
        return;
      }
      var reply := Respond(wires[i], known, outcomes[i]);
      replies := replies + reply;
    }
  }

  method Respond(wire: Wire, known: set<string>, outcome: Outcome) returns (reply: seq<WireReply>)
    ensures reply == OneReply(wire, known, outcome)
  {
    if !Readable(wire) {
      return [WireReply(wire.id, Fault(INVALID_REQUEST))];
    }
    if !wire.id.UsableId? {
      return [];
    }
    if wire.name !in known {
      return [WireReply(wire.id, Fault(METHOD_NOT_FOUND))];
    }
    reply := [WireReply(wire.id, outcome)];
  }

  /** The lines that get an answer: those that are not notifications. */
  function Asking(wires: seq<Wire>): seq<WireId> {
    if wires == [] || EndsLoop(wires[0]) then []
    else (if Readable(wires[0]) && !wires[0].id.UsableId? then [] else [wires[0].id]) + Asking(wires[1..])
  }

  function WireIds(replies: seq<WireReply>): seq<WireId> {
    if replies == [] then [] else [replies[0].id] + WireIds(replies[1..])
  }

  /** One response per request, in order and with its id; notifications get none. */
  lemma {:induction false} OneResponseEach(wires: seq<Wire>, known: set<string>, outcomes: seq<Outcome>)
    requires |wires| <= |outcomes|
    ensures WireIds(Replies(wires, known, outcomes)) == Asking(wires)
  {
    if wires != [] && !EndsLoop(wires[0]) {
      OneResponseEach(wires[1..], known, outcomes[1..]);
      var one, more := OneReply(wires[0], known, outcomes[0]), Replies(wires[1..], known, outcomes[1..]);
      if one == [] {
        assert one + more == more;
      } else {
        assert (one + more)[1..] == more;
      }
    }
  }

  /** One line: an invalid one is answered if it names an id, a notification is not, and an outcome is passed on. */
  lemma OneLine(wire: Wire, known: set<string>, outcome: Outcome)
    ensures Replies([wire], known, [outcome]) ==
            if !wire.wellFormed || wire.id.BadId? then
              if wire.id.NoId? then [] else [WireReply(wire.id, Fault(-32600))]
            else if wire.id.NoId? || wire.id.NullId? then []
            else [WireReply(wire.id, if wire.name in known then outcome else Fault(-32601))]
  {
    assert [wire][1..] == [] && [outcome][1..] == [];
    var one := OneReply(wire, known, outcome);
    assert one + [] == one;
  }

  /** Lines are answered one after the other, up to an invalid one without an id, which ends the loop. */
  lemma {:induction false} RepliesConcat(a: seq<Wire>, b: seq<Wire>, known: set<string>, outcomes: seq<Outcome>)
    requires |a| + |b| <= |outcomes|
    ensures Replies(a + b, known, outcomes)
            == Replies(a, known, outcomes)
               + (if exists i :: 0 <= i < |a| && !a[i].wellFormed && a[i].id.NoId? then []
                  else Replies(b, known, outcomes[|a|..]))
  {
    hide OneReply;
    if a == [] {
      assert a + b == b && outcomes[0..] == outcomes;
    } else {
      assert (a + b)[0] == a[0] && (a + b)[1..] == a[1..] + b && outcomes[1..][|a[1..]|..] == outcomes[|a|..];
      RepliesConcat(a[1..], b, known, outcomes[1..]);
      assert forall i :: 1 <= i < |a| ==> a[i] == a[1..][i - 1];
      if i :| 0 <= i < |a[1..]| && !a[1..][i].wellFormed && a[1..][i].id.NoId? {
        assert !a[i + 1].wellFormed && a[i + 1].id.NoId?;
      }
    }
  }
}
