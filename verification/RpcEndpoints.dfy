/**
 The worker's client and the controller's server with the fields they update. `request`
 and `_serve_peer` are cut at their awaits; each piece is one step of the state machine
 (agent_ipc.py:148-201, 230-235, 266-331).
 */
module RpcEndpoints {
  import opened Wrappers
  import opened RpcPairing

  class Endpoints {
    var conns: seq<Conn>              // the sockets, oldest first
    var current: Option<nat>          // the client's reader and writer
    var pending: bool                 // the client's lock is held by a call that awaits its response
    var calls: seq<Call>              // as many as the client's request id
    var connected: bool               // the server's event
    var closing: bool
    ghost var handled: seq<Handled>
    ghost var answers: map<nat, Answer>

    ghost function State(): Link
      reads this
    {
      Link(conns, current, pending, calls, connected, closing, handled, answers)
    }

    constructor ()
      ensures State() == START
    {
      conns, current, pending, calls, connected, closing := [], None, false, [], false, false;
      handled, answers := [], map[];
    }

    method Connect()
      requires Valid(State())
      modifies this
      ensures State() == Step(old(State()), Event.Connect)
      ensures old(current).None? ==>
                current == Some(|old(conns)|) && conns == old(conns) + [Conn([], [], false, Waiting, 0)]
    {
      if current.None? {
        current := Some(|conns|);
        conns := conns + [Conn([], [], false, Waiting, 0)];
      }
    }

    /** `_client_connected` up to serving: a second connection is closed at once. */
    method ClientConnected(c: nat)
      requires Valid(State())
      modifies this
      ensures State() == Step(old(State()), Accept(c))
      ensures c < |old(conns)| && old(conns)[c].side.Waiting? ==>
                && conns == old(conns)[c := old(conns)[c].(side :=
                     if old(connected) || closing then Closed else Served)]
                && connected == (old(connected) || !closing)
    {
      if c < |conns| && conns[c].side.Waiting? {
        if connected || closing {
          conns := conns[c := conns[c].(side := Closed)];
        } else {
          connected := true;
          conns := conns[c := conns[c].(side := Served)];
        }
      }
    }

    /** `request` up to the wait for the response; false when it raises before that. */
    method BeginRequest(call: Call, fits: bool) returns (ok: bool)
      requires Valid(State()) && !pending
      modifies this
      ensures State() == Step(old(State()), Send(call, fits))
      ensures ok == (old(current).Some? && fits)
      ensures calls == old(calls) + [call]
      ensures ok ==> pending && conns[current.value].requests
                                == old(conns)[old(current).value].requests + [Request(|calls|, call)]
      ensures !ok ==> !pending && conns == old(conns) && answers == old(answers)[|calls| := Refused]
    {
      calls := calls + [call];
      if current.None? || !fits {
        answers := answers[|calls| := Refused];
        return false;
      }
      var conn := conns[current.value];
      conns := conns[current.value := conn.(requests := conn.requests + [Request(|calls|, call)])];
      pending := true;
      ok := true;
    }

    /** The rest of `request` when a response line arrives. */
    method ReadResponse() returns (answer: Answer)
      requires Valid(State()) && Allowed(State(), Deliver)
      modifies this
      ensures State() == Step(old(State()), Deliver)
      ensures answer == State().answers[|calls|]
      ensures var reply := old(conns)[old(current).value].replies[0];
              && (reply.id != |calls| ==> answer == Mismatched)
              && (forall value :: reply == Reply(|calls|, Result(value)) ==> answer == Returned(value))
              && (forall code :: reply == Reply(|calls|, Fault(code)) ==> answer == RemoteError(code))
      ensures !pending && conns[current.value].replies == old(conns)[old(current).value].replies[1..]
    {
      var conn := conns[current.value];
      var reply := conn.replies[0];
      conns := conns[current.value := conn.(replies := conn.replies[1..])];
      pending := false;
      if reply.id != |calls| {
        answer := Mismatched;
      } else {
        match reply.outcome
        case Fault(code) => answer := RemoteError(code);
        case Result(value) => answer := Returned(value);
      }
      answers := answers[|calls| := answer];
    }

    /** The rest of `request` on a timeout: the connection is given up. */
    method RequestTimesOut()
      requires Valid(State()) && pending
      modifies this
      ensures State() == Step(old(State()), Timeout)
      ensures current.None? && !pending && conns == old(conns) && answers == old(answers)[|calls| := TimedOut]
    {
      current := None;
      pending := false;
      answers := answers[|calls| := TimedOut];
    }

    /** The awaiting coroutine is cancelled: the lock is released, the connection stays. */
    method RequestCancelled()
      requires Valid(State()) && pending
      modifies this
      ensures State() == Step(old(State()), Cancel)
      ensures current == old(current) && !pending && answers == old(answers)
      ensures conns[current.value].(cancelled := 0) == old(conns)[old(current).value].(cancelled := 0)
    {
      var conn := conns[current.value];
      conns := conns[current.value := conn.(cancelled := conn.cancelled + 1)];
      pending := false;
    }

    method ReadEndOfStream()
      requires Valid(State()) && Allowed(State(), PeerClosed)
      modifies this
      ensures State() == Step(old(State()), PeerClosed)
      ensures !pending && answers == old(answers)[|calls| := Lost]
    {
      pending := false;
      answers := answers[|calls| := Lost];
    }

    method CloseClient()
      requires Valid(State()) && !pending
      modifies this
      ensures State() == Step(old(State()), Close)
      ensures current.None? && conns == old(conns) && answers == old(answers)
    {
      current := None;
    }

    /** `_serve_peer`: the next request is read and its handler called. */
    method TakeRequest(c: nat) returns (request: Option<Request>)
      requires Valid(State())
      modifies this
      ensures State() == Step(old(State()), Handle(c))
      ensures request.Some? <==> Allowed(old(State()), Handle(c))
      ensures request.Some? ==> request.value == old(conns)[c].requests[0]
    {
      request := None;
      if c < |conns| && conns[c].side.Served? && !conns[c].busy && conns[c].requests != [] && !closing {
        request := Some(conns[c].requests[0]);
        conns := conns[c := conns[c].(busy := true)];
      }
    }

    /** The one response to the request being handled, a result or an error. */
    method SendResponse(c: nat, outcome: Outcome)
      requires Valid(State()) && Allowed(State(), RpcPairing.Event.Respond(c, outcome))
      modifies this
      ensures State() == Step(old(State()), RpcPairing.Event.Respond(c, outcome))
      ensures var was := old(conns)[c];
              && conns == old(conns)[c := was.(requests := was.requests[1..], busy := false,
                                               replies := was.replies + [Reply(was.requests[0].id, outcome)])]
              && handled == old(handled) + [Handled(was.requests[0], outcome)]
    {
      var conn := conns[c];
      var request := conn.requests[0];
      conns := conns[c := conn.(requests := conn.requests[1..], busy := false,
                                replies := conn.replies + [Reply(request.id, outcome)])];
      handled := handled + [Handled(request, outcome)];
    }

    /** The serving loop ends, for whatever reason. */
    method EndServing(c: nat)
      requires Valid(State())
      modifies this
      ensures State() == Step(old(State()), Drop(c))
      ensures c < |old(conns)| && old(conns)[c].side.Served? ==>
                !connected && conns == old(conns)[c := old(conns)[c].(side := Closed, busy := false)]
    {
      if c < |conns| && conns[c].side.Served? {
        connected := false;
        conns := conns[c := conns[c].(side := Closed, busy := false)];
      }
    }

    method Stop()
      requires Valid(State())
      modifies this
      ensures State() == Step(old(State()), Shutdown)
      ensures closing && conns == old(conns) && connected == old(connected)
    {
      closing := true;
    }
  }
}
