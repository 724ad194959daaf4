/** What the log and the futures of a client hold, told by the events that led there. */
module ClientHistory {
  import opened Messages
  import opened Options
  import opened Client

  /** A run of a client; `states[i + 1]` follows from `states[i]` by `events[i]`. */
  ghost predicate Run(env: Env, states: seq<State>, events: seq<Event>) {
    && |states| == |events| + 1 && states[0] == Init
    && forall i :: 0 <= i < |events| ==> Follows(env, states, events, i)
  }

  ghost predicate Follows(env: Env, states: seq<State>, events: seq<Event>, i: nat)
    requires i < |events| && |states| == |events| + 1
  {
    Valid(env, states[i]) && Enabled(states[i], events[i]) && states[i + 1] == Step(env, states[i], events[i])
  }

  lemma {:induction false} RunKeepsValid(env: Env, states: seq<State>, events: seq<Event>, i: nat)
    requires Run(env, states, events) && i < |states|
    ensures Valid(env, states[i])
  {
    if i > 0 {
      RunKeepsValid(env, states, events, i - 1);
      assert Follows(env, states, events, i - 1);
      StepKeepsValid(env, states[i - 1], events[i - 1]);
    }
  }

  /** `Valid` in `Run` only makes `Step` defined: no run is ever kept from going on by it. */
  lemma RunGoesOn(env: Env, states: seq<State>, events: seq<Event>, e: Event)
    requires Run(env, states, events) && Enabled(states[|events|], e)
    ensures Valid(env, states[|events|]) && Run(env, states + [Step(env, states[|events|], e)], events + [e])
  {
    RunKeepsValid(env, states, events, |events|);
    var states', events' := states + [Step(env, states[|events|], e)], events + [e];
    forall i | 0 <= i < |events'| ensures Follows(env, states', events', i) {
      if i < |events| {
        assert Follows(env, states, events, i);
      }
    }
  }

  /** Messages and requests stay as they are. */
  predicate Later(s: State, s': State) {
    s.out <= s'.out && s.sent <= s'.sent && |s.futures| <= |s'.futures|
  }

  lemma StepIsLater(env: Env, s: State, e: Event)
    requires Valid(env, s) && Enabled(s, e)
    ensures Later(s, Step(env, s, e))
  {
    if !e.SendRequest? {
      LogGrowsByOne(env, s, e);
    }
  }

  lemma {:induction false} RunIsLater(env: Env, states: seq<State>, events: seq<Event>, j: nat, i: nat)
    requires Run(env, states, events) && j <= i < |states|
    ensures Later(states[j], states[i])
  {
    if j < i {
      RunIsLater(env, states, events, j, i - 1);
      assert Follows(env, states, events, i - 1);
      StepIsLater(env, states[i - 1], events[i - 1]);
    }
  }

  // ----- what is sent -------------------------------------------------------------------------

  /** The message is an incoming request. */
  predicate IsRequest(m: Msg) {
    m.id.Some? && m.id != Some(NullId) && m.error == None && m.name.Some?
  }

  /** What an incoming request is refused with, by the protocol's codes; `None` if it is served. */
  function Refusal(env: Env, m: Msg): (r: Option<ErrorObject>)
    requires IsRequest(m)
    ensures r.None? <==> m.name.value in env.resultType && env.validRequest(m) && m.name.value in env.impls
    ensures r.Some? && (m.name.value !in env.resultType || env.validRequest(m)) ==>
              r == Some(RpcError(-32601, "Method not found"))
    ensures m.name.value in env.resultType && !env.validRequest(m) ==> r == Some(RpcError(-32602, "Invalid params"))
  {
    if m.name.value !in env.resultType then Some(RpcError(-32601, "Method not found"))
    else if !env.validRequest(m) then Some(RpcError(-32602, "Invalid params"))
    else if m.name.value !in env.impls then Some(RpcError(-32601, "Method not found"))
    else None
  }

  lemma RequestIsServedOrRefused(env: Env, s: State, m: Msg)
    requires Valid(env, s) && IsRequest(m)
    ensures var s', r := AfterMessage(env, s, m), Refusal(env, m);
            && s'.sent == s.sent && s'.futures == s.futures && s'.asyncFutures == s.asyncFutures
            && (r.None? ==> s'.serving == s.serving + [m] && s'.out == s.out)
            && (r.Some? ==> s'.serving == s.serving && s'.out == s.out + [Msg(m.id, None, None, None, r)])
  {
  }

  lemma OtherMessagesSendNothing(env: Env, s: State, m: Msg)
    requires Valid(env, s) && !IsRequest(m)
    ensures AfterMessage(env, s, m).out == s.out && AfterMessage(env, s, m).serving == s.serving
  {
  }

  /** The answer to a request that was served says what its handler made of it; a cancelled one is not answered. */
  lemma EndingAnswers(env: Env, s: State, t: nat, end: HandlerEnd)
    requires Valid(env, s) && Enabled(s, EndTask(t, end))
    ensures var s', id := Step(env, s, EndTask(t, end)), s.serving[t].id;
            && s'.serving == s.serving[..t] + s.serving[t + 1..]
            && match end
               case Returned(v) => s'.out == s.out + [Msg(id, None, None, Some(v), None)]
               case RaisedHandlerError(code, message) =>
                 s'.out == s.out + [Msg(id, None, None, None, Some(RpcError(code, message)))]
               case ReturnedUnserialisable(message) =>
                 s'.out == s.out + [Msg(id, None, None, None, Some(RpcError(-32603, message)))]
               case RaisedOther(message) =>
                 s'.out == s.out + [Msg(id, None, None, None, Some(RpcError(-32603, message)))]
               case WasCancelled => s'.out == s.out
               case NotRegistered => s'.out == s.out
  {
    assert s.serving[t] in s.serving;
  }

  /** A request goes out under its own id exactly if its method is known and it can be dumped; a
      notification as it is asked for. */
  lemma SendingSends(env: Env, s: State, e: Event)
    requires Valid(env, s) && Enabled(s, e) && (e.SendRequest? || e.Notify?)
    ensures var s' := Step(env, s, e);
            match e
            case Notify(name, params) => s'.out == s.out + [Msg(None, Some(name), params, None, None)]
            case SendRequest(id, name, params, serialisable) =>
              if name in env.resultType && serialisable then
                && s'.out == s.out + [Msg(Some(Str(id)), Some(name), params, None, None)]
                && s'.sent == s.sent + [Sent(Str(id), name, params, |s.out|)] && s'.futures == s.futures + [Pending]
                && s'.asyncFutures == s.asyncFutures[Str(id) := |s.futures|]
              else s' == s
  {
  }

  lemma OthersSendNothing(env: Env, s: State, e: Event)
    requires Valid(env, s) && Enabled(s, e) && (e.CancelFuture? || e.ServerStops?)
    ensures Step(env, s, e).out == s.out && Step(env, s, e).serving == s.serving
  {
  }

  /** The event sends a response with this id, result and error: it ends a request served under the id, or
      refuses one. */
  ghost predicate Responds(env: Env, s: State, e: Event, m: Msg) {
    && m.name == None && m.params == None
    && match e
       case EndTask(t, end) =>
         && t < |s.serving| && m.id == s.serving[t].id
         && (match end
             case Returned(v) => m.result == Some(v) && m.error == None
             case RaisedHandlerError(code, message) => m.result == None && m.error == Some(RpcError(code, message))
             case ReturnedUnserialisable(message) => m.result == None && m.error == Some(RpcError(-32603, message))
             case RaisedOther(message) => m.result == None && m.error == Some(RpcError(-32603, message))
             case _ => false)
       case HandleMessage(q) =>
         IsRequest(q) && m.id == q.id && m.result == None && m.error == Refusal(env, q) && m.error.Some?
       case _ => false
  }

  lemma NewResponseHasCause(env: Env, s: State, e: Event, p: nat)
    requires Valid(env, s) && Enabled(s, e) && |s.out| <= p < |Step(env, s, e).out|
    requires Step(env, s, e).out[p].name.None?
    ensures p == |s.out| && Responds(env, s, e, Step(env, s, e).out[p])
  {
    match e
    case EndTask(t, end) => EndingAnswers(env, s, t, end);
    case HandleMessage(m) =>
      if IsRequest(m) {
        RequestIsServedOrRefused(env, s, m);
      } else {
        OtherMessagesSendNothing(env, s, m);
      }
    case SendRequest(_, _, _, _) => SendingSends(env, s, e);
    case Notify(_, _) => SendingSends(env, s, e);
    case _ => OthersSendNothing(env, s, e);
  }

  /** Every response in the log was put there by such an event. */
  lemma {:induction false} ResponseHasCause(env: Env, states: seq<State>, events: seq<Event>, i: nat, p: nat)
    returns (j: nat)
    requires Run(env, states, events) && i < |states| && p < |states[i].out| && states[i].out[p].name.None?
    ensures j < i && |states[j].out| == p && Responds(env, states[j], events[j], states[i].out[p])
  {
    assert i > 0;
    j := i - 1;
    assert Follows(env, states, events, j);
    if p < |states[j].out| {
      RunIsLater(env, states, events, j, i);
      j := ResponseHasCause(env, states, events, i - 1, p);
    } else {
      NewResponseHasCause(env, states[j], events[j], p);
    }
  }

  /** What is being served was delivered as a request and not refused. */
  lemma {:induction false} ServedWasDelivered(env: Env, states: seq<State>, events: seq<Event>, i: nat, t: nat)
    returns (j: nat)
    requires Run(env, states, events) && i < |states| && t < |states[i].serving|
    ensures j < i && events[j] == HandleMessage(states[i].serving[t])
    ensures IsRequest(states[i].serving[t]) && Refusal(env, states[i].serving[t]) == None
  {
    assert i > 0;
    j := i - 1;
    assert Follows(env, states, events, j);
    var m := states[i].serving[t];
    ServingGrows(env, states[j], events[j], t);
    if m in states[j].serving {
      var u :| 0 <= u < |states[j].serving| && states[j].serving[u] == m;
      j := ServedWasDelivered(env, states, events, i - 1, u);
    }
  }

  lemma ServingGrows(env: Env, s: State, e: Event, t: nat)
    requires Valid(env, s) && Enabled(s, e) && t < |Step(env, s, e).serving|
    ensures var m := Step(env, s, e).serving[t];
            m in s.serving || (e == HandleMessage(m) && IsRequest(m) && Refusal(env, m) == None)
  {
    match e
    case HandleMessage(m) =>
      if IsRequest(m) {
        RequestIsServedOrRefused(env, s, m);
      } else {
        OtherMessagesSendNothing(env, s, m);
      }
    case EndTask(u, end) => EndingAnswers(env, s, u, end);
    case _ =>
  }

  // ----- futures ------------------------------------------------------------------------------

  /** What gives the waiting future of request `r` this outcome. A message with an error is a response
      whatever else it has. */
  ghost predicate Settles(env: Env, r: Sent, e: Event, f: nat, o: Outcome) {
    match o
    case Cancelled => e == CancelFuture(f)
    case Failed(ServerStopped) => e == ServerStops
    case Failed(RemoteError(error)) =>
      e.HandleMessage? && e.message.id == Some(r.id) && e.message.error == Some(error) && error.RpcError?
    case Value(v) =>
      && e.HandleMessage? && e.message.id == Some(r.id) && e.message.error == None && e.message.name == None
      && r.name in env.resultType && env.structure(env.resultType[r.name], e.message) == Some(v)
    case Failed(InvalidResponse) =>
      && e.HandleMessage? && e.message.id == Some(r.id)
      && (if e.message.error.Some? then e.message.error == Some(Malformed)
          else e.message.name == None && r.name in env.resultType
               && env.structure(env.resultType[r.name], e.message) == None)
    case _ => false
  }

  lemma SettlingHasCause(env: Env, s: State, e: Event, f: nat)
    requires Valid(env, s) && Enabled(s, e) && f < |s.futures| && s.futures[f].Pending?
    requires f < |Step(env, s, e).futures| && !Step(env, s, e).futures[f].Pending?
    ensures Settles(env, s.sent[f], e, f, Step(env, s, e).futures[f])
  {
    match e
    case HandleMessage(m) => MessageHasCause(env, s, m, f);
    case EndTask(t, end) => EndingKeepsFutures(s, t, end);
    case _ =>
  }

  lemma EndingKeepsFutures(s: State, t: nat, end: HandlerEnd)
    requires t < |s.serving| && s.serving[t].id.Some?
    ensures AfterEndTask(s, t, end).futures == s.futures
  {
  }

  lemma MessageHasCause(env: Env, s: State, m: Msg, f: nat)
    requires Valid(env, s) && f < |s.futures| && s.futures[f].Pending?
    requires f < |AfterMessage(env, s, m).futures| && !AfterMessage(env, s, m).futures[f].Pending?
    ensures Settles(env, s.sent[f], HandleMessage(m), f, AfterMessage(env, s, m).futures[f])
  {
    if m.id == Some(s.sent[f].id) && (m.error.Some? || m.name.None?) {
      ResponseCompletes(env, s, f, m);
    } else {
      OtherMessagesLeaveWaiting(env, s, m, f);
    }
  }

  /** A request goes on waiting whatever else arrives. */
  lemma OtherMessagesLeaveWaiting(env: Env, s: State, m: Msg, f: nat)
    requires Valid(env, s) && f < |s.futures| && s.futures[f].Pending?
    requires m.id != Some(s.sent[f].id) || (m.error.None? && m.name.Some?)
    ensures f < |AfterMessage(env, s, m).futures| && AfterMessage(env, s, m).futures[f].Pending?
  {
  }

  /** An outcome was given to a future that waited, by an event that carries it. */
  lemma {:induction false} OutcomeHasCause(env: Env, states: seq<State>, events: seq<Event>, i: nat, f: nat)
    returns (j: nat)
    requires Run(env, states, events) && i < |states| && f < |states[i].futures| && !states[i].futures[f].Pending?
    ensures j < i && f < |states[j].futures| && states[j].futures[f].Pending? && f < |states[i].sent|
    ensures Settles(env, states[i].sent[f], events[j], f, states[i].futures[f])
  {
    assert i > 0;
    j := i - 1;
    RunKeepsValid(env, states, events, i);
    assert Follows(env, states, events, j);
    RunIsLater(env, states, events, j, i);
    if f < |states[j].futures| {
      if states[j].futures[f].Pending? {
        SettlingHasCause(env, states[j], events[j], f);
      } else {
        OutcomeNeverReplaced(env, states[j], events[j], f);
        j := OutcomeHasCause(env, states, events, i - 1, f);
      }
    } else {
      NewFuturesWait(env, states[j], events[j], f);
    }
  }

  lemma NewFuturesWait(env: Env, s: State, e: Event, f: nat)
    requires Valid(env, s) && Enabled(s, e) && |s.futures| <= f < |Step(env, s, e).futures|
    ensures Step(env, s, e).futures[f].Pending?
  {
    match e
    case SendRequest(_, _, _, _) => SendingSends(env, s, e);
    case HandleMessage(m) => MessageKeepsCount(env, s, m);
    case EndTask(t, end) => EndingKeepsFutures(s, t, end);
    case _ =>
  }

  lemma MessageKeepsCount(env: Env, s: State, m: Msg)
    requires Valid(env, s)
    ensures |AfterMessage(env, s, m).futures| == |s.futures|
  {
  }

  /** When the server stops, every request that waits fails, and nothing else changes. */
  lemma StoppingFailsAll(env: Env, s: State)
    requires Valid(env, s)
    ensures var s' := Step(env, s, ServerStops);
            && s'.(futures := s.futures) == s && |s'.futures| == |s.futures|
            && forall f :: 0 <= f < |s.futures| ==>
                 s'.futures[f] == if s.futures[f] == Pending then Failed(ServerStopped) else s.futures[f]
  {
    forall f | 0 <= f < |s.futures| && s.futures[f].Pending? ensures f in s.asyncFutures.Values {
      assert s.asyncFutures[s.sent[f].id] == f;
    }
  }

  /** A caller that gives up cancels its own future if it waits, and nothing else changes. */
  lemma CancellingCancels(env: Env, s: State, f: nat)
    requires Valid(env, s) && f < |s.futures|
    ensures Step(env, s, CancelFuture(f)) ==
            if s.futures[f] == Pending then s.(futures := s.futures[f := Cancelled]) else s
  {
  }

  /** A response to a waiting request settles its future with what it says, and no other. */
  lemma ResponseCompletes(env: Env, s: State, f: nat, m: Msg)
    requires Valid(env, s) && f < |s.sent| && s.futures[f].Pending?
    requires m.id == Some(s.sent[f].id) && (m.error.Some? || m.name.None?)
    ensures var o := AfterMessage(env, s, m).futures[f];
            && s.sent[f].name in env.resultType
            && match m.error
               case Some(Malformed) => o == Failed(InvalidResponse)
               case Some(error) => o == Failed(RemoteError(error))
               case None =>
                 match env.structure(env.resultType[s.sent[f].name], m)
                 case Some(v) => o == Value(v)
                 case None => o == Failed(InvalidResponse)
    ensures forall g :: 0 <= g < |s.futures| && g != f ==> AfterMessage(env, s, m).futures[g] == s.futures[g]
  {
    assert s.asyncFutures[s.sent[f].id] == f;
  }
}
