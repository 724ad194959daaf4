/** Where the outcomes of client and server come from, across both sides and both channels. */
module RpcHistory {
  import opened Messages
  import opened Options
  import opened RpcSystem
  import C = Client
  import S = ServerSession
  import CH = ClientHistory
  import SH = SessionHistory

  // ----- each side's part of a run ------------------------------------------------------------

  predicate IsServerEvent(y: System, e: Event, s: S.Event) {
    || (e == ServerEvent(s) && !s.Deliver?)
    || (e == DeliverToServer && y.toServer < |y.client.out| && s == S.Deliver(y.client.out[y.toServer]))
  }

  predicate IsClientEvent(y: System, e: Event, c: C.Event) {
    || (e == ClientEvent(c) && !c.HandleMessage?)
    || (e == DeliverToClient && y.toClient < |y.server.out| && c == C.HandleMessage(y.server.out[y.toClient]))
  }

  /** The server's part of the run up to `i`; its event `k` is that of step `at[k]`. */
  ghost predicate IsServerPart(states: seq<System>, events: seq<Event>, i: nat,
                               part: seq<S.State>, es: seq<S.Event>, at: seq<nat>)
    requires |states| == |events| + 1 && i < |states|
  {
    && S.Run(part, es) && part[|es|] == states[i].server && |at| == |es|
    && forall k :: 0 <= k < |es| ==> IsServerStep(states, events, i, part, es, at, k)
  }

  ghost predicate IsServerStep(states: seq<System>, events: seq<Event>, i: nat,
                               part: seq<S.State>, es: seq<S.Event>, at: seq<nat>, k: nat)
    requires |states| == |events| + 1 && i < |states| && |part| == |es| + 1 && |at| == |es| && k < |es|
  {
    at[k] < i && part[k] == states[at[k]].server && IsServerEvent(states[at[k]], events[at[k]], es[k])
  }

  ghost predicate IsClientPart(env: C.Env, states: seq<System>, events: seq<Event>, i: nat,
                               part: seq<C.State>, es: seq<C.Event>, at: seq<nat>)
    requires |states| == |events| + 1 && i < |states|
  {
    && CH.Run(env, part, es) && part[|es|] == states[i].client && |at| == |es|
    && forall k :: 0 <= k < |es| ==> IsClientStep(states, events, i, part, es, at, k)
  }

  ghost predicate IsClientStep(states: seq<System>, events: seq<Event>, i: nat,
                               part: seq<C.State>, es: seq<C.Event>, at: seq<nat>, k: nat)
    requires |states| == |events| + 1 && i < |states| && |part| == |es| + 1 && |at| == |es| && k < |es|
  {
    at[k] < i && part[k] == states[at[k]].client && IsClientEvent(states[at[k]], events[at[k]], es[k])
  }

  /** Every run is a run of the server. */
  lemma {:induction false} ServerPart(env: C.Env, states: seq<System>, events: seq<Event>, i: nat)
    returns (part: seq<S.State>, es: seq<S.Event>, at: seq<nat>)
    requires Run(env, states, events) && i < |states|
    ensures IsServerPart(states, events, i, part, es, at)
  {
    if i == 0 {
      part, es, at := [states[0].server], [], [];
    } else {
      part, es, at := ServerPart(env, states, events, i - 1);
      assert Follows(env, states, events, i - 1);
      var y, e := states[i - 1], events[i - 1];
      ghost var part', es', at' := part, es, at;
      if e.ServerEvent? || e.DeliverToServer? {
        var s := if e.ServerEvent? then e.s else S.Deliver(y.client.out[y.toServer]);
        S.RunGoesOn(part, es, s);
        part, es, at := part + [S.Step(y.server, s)], es + [s], at + [i - 1];
      }
      forall k | 0 <= k < |es| ensures IsServerStep(states, events, i, part, es, at, k) {
        if k < |es'| {
          assert IsServerStep(states, events, i - 1, part', es', at', k);
        }
      }
    }
  }

  /** Every run is a run of the client. */
  lemma {:induction false} ClientPart(env: C.Env, states: seq<System>, events: seq<Event>, i: nat)
    returns (part: seq<C.State>, es: seq<C.Event>, at: seq<nat>)
    requires Run(env, states, events) && i < |states|
    ensures IsClientPart(env, states, events, i, part, es, at)
  {
    if i == 0 {
      part, es, at := [states[0].client], [], [];
    } else {
      part, es, at := ClientPart(env, states, events, i - 1);
      assert Follows(env, states, events, i - 1);
      var y, e := states[i - 1], events[i - 1];
      ghost var part', es', at' := part, es, at;
      if e.ClientEvent? || e.DeliverToClient? {
        var c := if e.ClientEvent? then e.c else C.HandleMessage(y.server.out[y.toClient]);
        CH.RunGoesOn(env, part, es, c);
        part, es, at := part + [C.Step(env, y.client, c)], es + [c], at + [i - 1];
      }
      forall k | 0 <= k < |es| ensures IsClientStep(states, events, i, part, es, at, k) {
        if k < |es'| {
          assert IsClientStep(states, events, i - 1, part', es', at', k);
        }
      }
    }
  }

  // ----- the client's requests ----------------------------------------------------------------

  /** The step that decided the outcome of the client's request `f`: the end of the handler that served it on the
      server, its refusal there, the caller's own cancellation, or the stop of the server. */
  predicate Decides(env: C.Env, y: System, e: Event, f: nat, r: C.Sent, o: Outcome) {
    match o
    case Cancelled => e == ClientEvent(C.CancelFuture(f))
    case Failed(ServerStopped) => e == ClientEvent(C.ServerStops)
    case Value(v) =>
      && e.ServerEvent? && e.s.EndTask? && e.s.task == f && e.s.end.Returned? && r.name in env.resultType
      && env.structure(env.resultType[r.name], Msg(Some(r.id), None, None, Some(e.s.end.value), None)) == Some(v)
    case Failed(InvalidResponse) =>
      && e.ServerEvent? && e.s.EndTask? && e.s.task == f && e.s.end.Returned? && r.name in env.resultType
      && env.structure(env.resultType[r.name], Msg(Some(r.id), None, None, Some(e.s.end.value), None)) == None
    case Failed(RemoteError(RpcError(code, message))) =>
      e.ServerEvent? &&
      if e.s.EndTask? then
        && e.s.task == f
        && match e.s.end
           case RaisedHandlerError(c, m) => code == c && message == m
           case WasCancelled => code == -32800 && message == "Request cancelled"
           case ReturnedUnserialisable(m) => code == -32603 && message == m
           case RaisedOther(m) => code == -32603 && message == m
           case _ => false
      else
        && e.s == S.BeginTask(f) && r.name !in y.server.handlers
        && code == -32601 && message == "Method not found: " + r.name
    case _ => false
  }

  /** Every outcome of a client's request was decided by such a step. */
  lemma OutcomeIsDecided(env: C.Env, states: seq<System>, events: seq<Event>, i: nat, f: nat) returns (j: nat)
    requires Run(env, states, events) && i < |states| && f < |states[i].client.futures|
    requires !states[i].client.futures[f].Pending?
    ensures j < i && f < |states[i].client.sent|
    ensures Decides(env, states[j], events[j], f, states[i].client.sent[f], states[i].client.futures[f])
  {
    RunKeepsValid(env, states, events, i);
    if GivenUp(states[i].client.futures[f]) {
      var part, es, at := ClientPart(env, states, events, i);
      var k := CH.OutcomeHasCause(env, part, es, |es|, f);
      assert IsClientStep(states, events, i, part, es, at, k);
      j := at[k];
    } else {
      j := AnswerIsDecided(env, states, events, i, f);
    }
  }

  lemma AnswerIsDecided(env: C.Env, states: seq<System>, events: seq<Event>, i: nat, f: nat) returns (j: nat)
    requires Run(env, states, events) && i < |states| && f < |states[i].client.futures|
    requires !states[i].client.futures[f].Pending? && !GivenUp(states[i].client.futures[f])
    ensures j < i && f < |states[i].client.sent|
    ensures Decides(env, states[j], events[j], f, states[i].client.sent[f], states[i].client.futures[f])
  {
    ValueIsTheHandlersValue(env, states, events, i, f);
    OutcomeComesFromOwnRequest(env, states, events, i, f);
    var part, es, at := ServerPart(env, states, events, i);
    var k := SH.EndHasCause(part, es, |es|, f);
    SH.RunIsLater(part, es, k, |es|);
    assert S.Follows(part, es, k);
    assert IsServerStep(states, events, i, part, es, at, k);
    j := at[k];
  }

  // ----- the server's requests ----------------------------------------------------------------

  /** The server's request number `f` as it stands in its log. */
  predicate IsServerRequest(y: System, f: nat, m: Msg) {
    m in y.server.out && m.id == Some(Num(f)) && m.name.Some?
  }

  /** There is one such message: the one sent for future `f`. */
  lemma ServerRequestIs(env: C.Env, states: seq<System>, events: seq<Event>, i: nat, f: nat, m: Msg)
    returns (j: nat)
    requires Run(env, states, events) && i < |states| && IsServerRequest(states[i], f, m)
    ensures j < i && events[j].ServerEvent? && events[j].s.SendRequest? && |states[j].server.futures| == f
    ensures m == Msg(Some(Num(f)), Some(events[j].s.name), events[j].s.params, None, None)
  {
    var part, es, at := ServerPart(env, states, events, i);
    var p :| 0 <= p < |states[i].server.out| && states[i].server.out[p] == m;
    var k := SH.RequestHasCause(part, es, |es|, p);
    assert IsServerStep(states, events, i, part, es, at, k);
    j := at[k];
  }

  /** The step that decided the outcome of the server's request number `f`: the end of the client's handler for
      that very request, the client's refusal of it, a cancellation on the server, or the end of the transport. */
  ghost predicate DecidesServers(env: C.Env, y: System, e: Event, f: nat, o: Outcome) {
    match o
    case Cancelled => e == ServerEvent(S.CancelFuture(f))
    case Failed(TransportClosed) => e == ServerEvent(S.Exit)
    case Value(v) =>
      && e.ClientEvent? && e.c.EndTask? && e.c.task < |y.client.serving| && e.c.end == Returned(v)
      && IsServerRequest(y, f, y.client.serving[e.c.task])
    case Failed(RemoteError(RpcError(code, message))) =>
      if e.ClientEvent? then
        && e.c.EndTask? && e.c.task < |y.client.serving| && IsServerRequest(y, f, y.client.serving[e.c.task])
        && match e.c.end
           case RaisedHandlerError(c, m) => code == c && message == m
           case ReturnedUnserialisable(m) => code == -32603 && message == m
           case RaisedOther(m) => code == -32603 && message == m
           case _ => false
      else
        && e.DeliverToClient? && y.toClient < |y.server.out|
        && var m := y.server.out[y.toClient];
           IsServerRequest(y, f, m) && CH.IsRequest(m) && CH.Refusal(env, m) == Some(RpcError(code, message))
    case _ => false
  }

  /** Every outcome of a server's request was decided by such a step. */
  lemma ServersOutcomeIsDecided(env: C.Env, states: seq<System>, events: seq<Event>, i: nat, f: nat) returns (j: nat)
    requires Run(env, states, events) && i < |states| && f < |states[i].server.futures|
    requires !states[i].server.futures[f].Pending?
    ensures j < i && DecidesServers(env, states[j], events[j], f, states[i].server.futures[f])
  {
    var part, es, at := ServerPart(env, states, events, i);
    var k := SH.OutcomeHasCause(part, es, |es|, f);
    assert IsServerStep(states, events, i, part, es, at, k);
    j := at[k];
    if es[k].Deliver? {
      j := ResponseIsDecided(env, states, events, j, f, es[k].message, states[i].server.futures[f]);
    }
  }

  /** A response that the server takes came from the client's handler of that request, or from its refusal. */
  lemma ResponseIsDecided(env: C.Env, states: seq<System>, events: seq<Event>, i: nat, f: nat, m: Msg, o: Outcome)
    returns (j: nat)
    requires Run(env, states, events) && i < |events| && events[i] == DeliverToServer
    requires states[i].toServer < |states[i].client.out| && m == states[i].client.out[states[i].toServer]
    requires m.id == Some(Num(f)) && m.name == None && (o.Value? || (o.Failed? && o.reason.RemoteError?))
    requires o.Value? ==> m.result == Some(o.value)
    requires o.Failed? ==> m.error == Some(o.reason.error)
    requires o.Value? ==> m.error == None
    ensures j < i && DecidesServers(env, states[j], events[j], f, o)
  {
    var part, es, at := ClientPart(env, states, events, i);
    var k := CH.ResponseHasCause(env, part, es, |es|, states[i].toServer);
    assert IsClientStep(states, events, i, part, es, at, k);
    j := at[k];
    match es[k] {
      case EndTask(t, _) => ServedIsServers(env, states, events, j, t, f);
      case HandleMessage(q) => assert q in states[j].server.out;
      case _ =>
    }
  }

  lemma ServedIsServers(env: C.Env, states: seq<System>, events: seq<Event>, i: nat, t: nat, f: nat)
    requires Run(env, states, events) && i < |states| && t < |states[i].client.serving|
    requires states[i].client.serving[t].id == Some(Num(f))
    ensures IsServerRequest(states[i], f, states[i].client.serving[t])
  {
    var part, es, at := ClientPart(env, states, events, i);
    var k := CH.ServedWasDelivered(env, part, es, |es|, t);
    assert IsClientStep(states, events, i, part, es, at, k);
    var j := at[k];
    RunKeepsValid(env, states, events, j);
    assert states[j].server.out[states[j].toClient] == states[i].client.serving[t];
    ServerLogGrows(env, states, events, j, i);
  }

  lemma {:induction false} ServerLogGrows(env: C.Env, states: seq<System>, events: seq<Event>, j: nat, i: nat)
    requires Run(env, states, events) && j <= i < |states|
    ensures states[j].server.out <= states[i].server.out
  {
    if j < i {
      ServerLogGrows(env, states, events, j, i - 1);
      assert Follows(env, states, events, i - 1);
      var y, e := states[i - 1], events[i - 1];
      if e.ServerEvent? {
        SH.StepIsLater(y.server, e.s);
      } else if e.DeliverToServer? {
        SH.StepIsLater(y.server, S.Deliver(y.client.out[y.toServer]));
      }
    }
  }
}
