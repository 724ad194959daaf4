/** What the log, the futures and the tasks of a session hold, told by the events that led there. */
module SessionHistory {
  import opened Messages
  import opened Options
  import opened ServerSession

  // ----- what stays ---------------------------------------------------------------------------

  /** Messages, requests and ends stay as they are. */
  predicate Later(s: State, s': State) {
    && s'.handlers == s.handlers && s.out <= s'.out
    && |s.futures| <= |s'.futures| && |s.tasks| <= |s'.tasks|
    && forall t :: 0 <= t < |s.tasks| ==>
         && s'.tasks[t].request == s.tasks[t].request
         && (s.tasks[t].status.Ended? ==> s'.tasks[t].status == s.tasks[t].status)
  }

  lemma StepIsLater(s: State, e: Event)
    requires Valid(s) && Enabled(s, e)
    ensures Later(s, Step(s, e))
  {
  }

  lemma {:induction false} RunIsLater(states: seq<State>, events: seq<Event>, j: nat, i: nat)
    requires Run(states, events) && j <= i < |states|
    ensures Later(states[j], states[i])
  {
    if j < i {
      RunIsLater(states, events, j, i - 1);
      assert Follows(states, events, i - 1);
      StepIsLater(states[i - 1], events[i - 1]);
    }
  }

  // ----- what is sent -------------------------------------------------------------------------

  /** The session sends requests under the number of their future, notifications as they are asked for, and
      the answers of the tasks that end; nothing else. */
  lemma EachStepSends(states: seq<State>, events: seq<Event>, j: nat)
    requires Run(states, events) && j < |events|
    ensures var s, s' := states[j], states[j + 1];
            match events[j]
            case SendRequest(name, params) =>
              && s'.out == s.out + [Msg(Some(Num(|s.futures|)), Some(name), params, None, None)]
              && s'.futures == s.futures + [Pending]
            case SendNotification(name, params) => s'.out == s.out + [Msg(None, Some(name), params, None, None)]
            case EndTask(t, end) => |s'.out| == |s.out| + 1
            case BeginTask(t) =>
              && t < |s.tasks| && s.tasks[t].request.name.Some?
              && |s'.out| == if s.tasks[t].request.name.value in s.handlers then |s.out| else |s.out| + 1
            case _ => s'.out == s.out
  {
    RunKeepsInvariant(states, events, j);
    assert Follows(states, events, j);
  }

  lemma EndingAnswers(s: State, t: nat, end: HandlerEnd)
    requires Valid(s) && Enabled(s, EndTask(t, end))
    ensures var s', q := Step(s, EndTask(t, end)), s.tasks[t].request;
            && |s'.out| == |s.out| + 1 && s'.out[..|s.out|] == s.out
            && s'.tasks == s.tasks[t := Task(q, Ended(end, |s.out|))]
            && var m := s'.out[|s.out|];
            && m.id == q.id && m.name == None && m.params == None
            && match end
               case Returned(v) => m.result == Some(v) && m.error == None
               case RaisedHandlerError(code, message) => m.result == None && m.error == Some(RpcError(code, message))
               case WasCancelled => m.result == None && m.error == Some(RpcError(-32800, "Request cancelled"))
               case ReturnedUnserialisable(message) => m.result == None && m.error == Some(RpcError(-32603, message))
               case RaisedOther(message) => m.result == None && m.error == Some(RpcError(-32603, message))
               case NotRegistered => false
  {
  }

  lemma BeginningAnswers(s: State, t: nat)
    requires Valid(s) && Enabled(s, BeginTask(t))
    ensures var s', q := Step(s, BeginTask(t)), s.tasks[t].request;
            if q.name.value in s.handlers then
              s' == s.(tasks := s.tasks[t := Task(q, Running(false))], activeTasks := s.activeTasks[q.id.value := t])
            else
              && |s'.out| == |s.out| + 1 && s'.out[..|s.out|] == s.out
              && s'.tasks == s.tasks[t := Task(q, Ended(NotRegistered, |s.out|))]
              && s'.out[|s.out|] ==
                 Msg(q.id, None, None, None, Some(RpcError(-32601, "Method not found: " + q.name.value)))
  {
  }

  /** The event that ended a task: its own, or its beginning when there is no handler. */
  predicate EndsTask(s: State, e: Event, t: nat, end: HandlerEnd) {
    || e == EndTask(t, end)
    || (e == BeginTask(t) && end.NotRegistered? && t < |s.tasks| && s.tasks[t].request.name.Some?
        && s.tasks[t].request.name.value !in s.handlers)
  }

  lemma OtherStepsEndNothing(s: State, e: Event, t: nat)
    requires Valid(s) && Enabled(s, e) && t < |Step(s, e).tasks| && Step(s, e).tasks[t].status.Ended?
    requires t < |s.tasks| ==> !s.tasks[t].status.Ended?
    ensures EndsTask(s, e, t, Step(s, e).tasks[t].status.end) && Step(s, e).tasks[t].status.pos == |s.out|
  {
  }

  /** Every task that ended did so by an event, and its response stands where the log ended then. */
  lemma {:induction false} EndHasCause(states: seq<State>, events: seq<Event>, i: nat, t: nat) returns (j: nat)
    requires Run(states, events) && i < |states| && t < |states[i].tasks| && states[i].tasks[t].status.Ended?
    ensures j < i && EndsTask(states[j], events[j], t, states[i].tasks[t].status.end)
    ensures states[i].tasks[t].status.pos == |states[j].out|
  {
    assert i > 0;
    j := i - 1;
    assert Follows(states, events, j);
    if t < |states[j].tasks| && states[j].tasks[t].status.Ended? {
      RunIsLater(states, events, j, i);
      j := EndHasCause(states, events, i - 1, t);
    } else {
      OtherStepsEndNothing(states[j], events[j], t);
    }
  }

  /** The answer to a request, in every run: it stands at its recorded place, has the request's own
      id, and is what the handler made of it, by an event that ended this very task so. */
  lemma AnswerIsTheHandlersEnd(states: seq<State>, events: seq<Event>, i: nat, t: nat) returns (j: nat)
    requires Run(states, events) && i < |states| && t < |states[i].tasks| && states[i].tasks[t].status.Ended?
    ensures j < i && EndsTask(states[j], events[j], t, states[i].tasks[t].status.end)
    ensures var s, p := states[i], states[i].tasks[t].status.pos;
            && p == |states[j].out| && p < |s.out| && s.tasks[t].request.name.Some?
            && s.out[p].id == s.tasks[t].request.id && s.out[p].name == None && s.out[p].params == None
            && match s.tasks[t].status.end
               case Returned(v) => s.out[p].result == Some(v) && s.out[p].error == None
               case RaisedHandlerError(code, message) =>
                 s.out[p].result == None && s.out[p].error == Some(RpcError(code, message))
               case WasCancelled =>
                 s.out[p].result == None && s.out[p].error == Some(RpcError(-32800, "Request cancelled"))
               case ReturnedUnserialisable(message) =>
                 s.out[p].result == None && s.out[p].error == Some(RpcError(-32603, message))
               case RaisedOther(message) =>
                 s.out[p].result == None && s.out[p].error == Some(RpcError(-32603, message))
               case NotRegistered =>
                 && s.out[p].result == None
                 && s.out[p].error == Some(RpcError(-32601, "Method not found: " + s.tasks[t].request.name.value))
  {
    j := EndHasCause(states, events, i, t);
    assert Follows(states, events, j);
    RunIsLater(states, events, j + 1, i);
    if events[j].EndTask? {
      EndingAnswers(states[j], t, events[j].end);
    } else {
      BeginningAnswers(states[j], t);
    }
    assert states[i].out[|states[j].out|] == states[j + 1].out[|states[j].out|];
    assert states[i].tasks[t].request == states[j + 1].tasks[t].request;
  }

  // ----- futures ------------------------------------------------------------------------------

  /** A response to a waiting request of ours hands over its result or its error, and settles nothing else. */
  lemma ResponseCompletes(states: seq<State>, events: seq<Event>, j: nat, f: nat, m: Msg)
    requires Run(states, events) && j < |events| && events[j] == Deliver(m)
    requires f < |states[j].futures| && states[j].futures[f].Pending?
    requires m.id == Some(Num(f)) && m.name == None && (m.result.Some? || m.error.Some?)
    ensures |states[j + 1].futures| == |states[j].futures|
    ensures m.error.Some? ==> states[j + 1].futures[f] == Failed(RemoteError(m.error.value))
    ensures m.error.None? ==> states[j + 1].futures[f] == Value(m.result.value)
    ensures forall g :: 0 <= g < |states[j].futures| && g != f ==> states[j + 1].futures[g] == states[j].futures[g]
    ensures states[j + 1].requestFutures == states[j].requestFutures - {Num(f)}
  {
    RunKeepsInvariant(states, events, j);
    assert Follows(states, events, j);
    assert states[j].requestFutures[Num(f)] == f;
  }

  /** What gives a waiting future this outcome: a response with its number and that result or error, its own
      cancellation, or the end of the transport. */
  predicate Settles(e: Event, f: nat, o: Outcome) {
    match o
    case Value(v) =>
      && e.Deliver? && e.message.id == Some(Num(f)) && e.message.name == None
      && e.message.error == None && e.message.result == Some(v)
    case Failed(RemoteError(error)) =>
      e.Deliver? && e.message.id == Some(Num(f)) && e.message.name == None && e.message.error == Some(error)
    case Failed(TransportClosed) => e == Exit
    case Cancelled => e == CancelFuture(f)
    case _ => false
  }

  lemma SettlingHasCause(s: State, e: Event, f: nat)
    requires Valid(s) && Enabled(s, e) && f < |s.futures| && s.futures[f].Pending?
    requires !Step(s, e).futures[f].Pending?
    ensures Settles(e, f, Step(s, e).futures[f])
  {
  }

  /** An outcome was given to a future that waited, by an event that carries it. */
  lemma {:induction false} OutcomeHasCause(states: seq<State>, events: seq<Event>, i: nat, f: nat) returns (j: nat)
    requires Run(states, events) && i < |states| && f < |states[i].futures| && !states[i].futures[f].Pending?
    ensures j < i && f < |states[j].futures| && states[j].futures[f].Pending?
    ensures Settles(events[j], f, states[i].futures[f])
  {
    assert i > 0;
    j := i - 1;
    assert Follows(states, events, j);
    if f < |states[j].futures| && states[j].futures[f].Pending? {
      SettlingHasCause(states[j], events[j], f);
    } else {
      assert f < |states[j].futures|;
      OutcomeNeverReplaced(states, events, j, i, f);
      j := OutcomeHasCause(states, events, i - 1, f);
    }
  }

  /** Future `f` is that of the `f`-th request sent: its message has its number, and stays in the log. */
  lemma {:induction false} FutureWasSent(states: seq<State>, events: seq<Event>, i: nat, f: nat) returns (j: nat)
    requires Run(states, events) && i < |states| && f < |states[i].futures|
    ensures j < i && events[j].SendRequest? && |states[j].futures| == f && |states[j].out| < |states[i].out|
    ensures states[i].out[|states[j].out|] == Msg(Some(Num(f)), Some(events[j].name), events[j].params, None, None)
  {
    assert i > 0;
    j := i - 1;
    EachStepSends(states, events, j);
    assert Follows(states, events, j);
    if f < |states[j].futures| {
      j := FutureWasSent(states, events, i - 1, f);
      RunIsLater(states, events, i - 1, i);
    }
  }

  /** Every request in the log is that of a future. */
  lemma {:induction false} RequestHasCause(states: seq<State>, events: seq<Event>, i: nat, p: nat) returns (j: nat)
    requires Run(states, events) && i < |states| && p < |states[i].out|
    requires states[i].out[p].name.Some? && states[i].out[p].id.Some?
    ensures j < i && events[j].SendRequest? && |states[j].out| == p
    ensures states[i].out[p] == Msg(Some(Num(|states[j].futures|)), Some(events[j].name), events[j].params, None, None)
  {
    assert i > 0;
    j := i - 1;
    EachStepSends(states, events, j);
    RunIsLater(states, events, j, i);
    if p < |states[j].out| {
      j := RequestHasCause(states, events, i - 1, p);
    } else {
      assert Follows(states, events, j);
    }
  }

  /** A caller that gives up cancels its own future if it waits, and nothing else changes. */
  lemma CancellingCancels(s: State, f: nat)
    requires Valid(s) && f < |s.futures|
    ensures Step(s, CancelFuture(f)) ==
            if s.futures[f] == Pending then s.(futures := s.futures[f := Cancelled]) else s
  {
  }

  /** What takes request `f` off the table: a response with its number, its own timeout, or the end of the transport. */
  predicate Removes(e: Event, f: nat) {
    match e
    case Deliver(m) => m.id == Some(Num(f)) && m.name == None && (m.result.Some? || m.error.Some?)
    case ForgetTimedOut(g) => g == f
    case Exit => true
    case _ => false
  }

  lemma StepEnters(s: State, e: Event, f: nat)
    requires Valid(s) && Enabled(s, e)
    ensures Num(f) in Step(s, e).requestFutures <==>
            (e.SendRequest? && |s.futures| == f) || (Num(f) in s.requestFutures && !Removes(e, f))
  {
  }

  /** Step `j` sends request `f`, and nothing takes it off the table before `i`. */
  ghost predicate WaitsSince(states: seq<State>, events: seq<Event>, j: nat, i: nat, f: nat)
    requires |states| == |events| + 1 && i < |states|
  {
    && j < i && events[j].SendRequest? && |states[j].futures| == f
    && forall k :: j < k < i ==> !Removes(events[k], f)
  }

  /** The table has exactly the requests sent and not taken off since. */
  lemma {:induction false} TableIff(states: seq<State>, events: seq<Event>, i: nat, f: nat)
    requires Run(states, events) && i < |states|
    ensures Num(f) in states[i].requestFutures <==> exists j: nat :: WaitsSince(states, events, j, i, f)
  {
    if i > 0 {
      TableIff(states, events, i - 1, f);
      assert Follows(states, events, i - 1);
      StepEnters(states[i - 1], events[i - 1], f);
      WaitsOneMore(states, events, i - 1, i, f);
    }
  }

  lemma WaitsOneMore(states: seq<State>, events: seq<Event>, h: nat, i: nat, f: nat)
    requires |states| == |events| + 1 && i == h + 1 < |states|
    ensures (exists j: nat :: WaitsSince(states, events, j, i, f)) <==>
            || (events[h].SendRequest? && |states[h].futures| == f)
            || (!Removes(events[h], f) && exists j: nat :: WaitsSince(states, events, j, h, f))
  {
    if events[h].SendRequest? && |states[h].futures| == f {
      assert WaitsSince(states, events, h, i, f);
    }
    if !Removes(events[h], f) {
      if j: nat :| WaitsSince(states, events, j, h, f) {
        assert WaitsSince(states, events, j, i, f);
      }
    }
    if j: nat :| WaitsSince(states, events, j, i, f) {
      assert j < h ==> WaitsSince(states, events, j, h, f);
    }
  }

  // ----- tasks --------------------------------------------------------------------------------

  /** A task is the next one for a request that was delivered. */
  lemma {:induction false} TaskWasDelivered(states: seq<State>, events: seq<Event>, i: nat, t: nat) returns (j: nat)
    requires Run(states, events) && i < |states| && t < |states[i].tasks|
    ensures j < i && events[j] == Deliver(states[i].tasks[t].request) && |states[j].tasks| == t
    ensures states[i].tasks[t].request.id.Some? && states[i].tasks[t].request.name.Some?
  {
    assert i > 0;
    j := i - 1;
    RunKeepsInvariant(states, events, i);
    assert Follows(states, events, j);
    if t < |states[j].tasks| {
      RunIsLater(states, events, j, i);
      j := TaskWasDelivered(states, events, i - 1, t);
    }
  }

  /** The request's task begins, and there is a handler for it. */
  predicate Registers(s: State, e: Event, id: Id, t: nat) {
    && e == BeginTask(t) && t < |s.tasks| && s.tasks[t].request.id == Some(id)
    && s.tasks[t].request.name.Some? && s.tasks[t].request.name.value in s.handlers
  }

  /** What takes the id off the table: the end of any task with it, a cancel, the end of the transport; and the
      beginning of another task with it takes its place. */
  predicate Unregisters(s: State, e: Event, id: Id) {
    match e
    case BeginTask(u) => Registers(s, e, id, u)
    case EndTask(u, _) => u < |s.tasks| && s.tasks[u].request.id == Some(id)
    case Deliver(m) => IsCancel(m, id)
    case Exit => true
    case _ => false
  }

  predicate IsCancel(m: Msg, id: Id) {
    && m.id == None && m.name == Some("$/cancelRequest")
    && m.params.Some? && m.params.value.requestId == Some(id) && id != NullId
  }

  lemma RegisteringIff(s: State, e: Event, id: Id)
    requires Valid(s) && Enabled(s, e)
    ensures var s' := Step(s, e);
            && (forall t: nat :: Registers(s, e, id, t) ==> id in s'.activeTasks && s'.activeTasks[id] == t)
            && ((forall t: nat :: !Registers(s, e, id, t)) && Unregisters(s, e, id) ==> id !in s'.activeTasks)
            && (!Unregisters(s, e, id) ==> (id in s'.activeTasks <==> id in s.activeTasks))
            && (!Unregisters(s, e, id) && id in s.activeTasks ==> s'.activeTasks[id] == s.activeTasks[id])
  {
  }

  /** Step `j` registers `t`, and no later one before `i` takes its id off again. */
  ghost predicate RegisteredSince(states: seq<State>, events: seq<Event>, j: nat, i: nat, id: Id, t: nat)
    requires |states| == |events| + 1 && i < |states|
  {
    j < i && Registers(states[j], events[j], id, t)
    && forall k :: j < k < i ==> !Unregisters(states[k], events[k], id)
  }

  lemma RegisteredOneMore(states: seq<State>, events: seq<Event>, h: nat, i: nat, id: Id, t: nat)
    requires |states| == |events| + 1 && i == h + 1 < |states|
    ensures (exists j: nat :: RegisteredSince(states, events, j, i, id, t)) <==>
            || Registers(states[h], events[h], id, t)
            || (!Unregisters(states[h], events[h], id) && exists j: nat :: RegisteredSince(states, events, j, h, id, t))
  {
    if Registers(states[h], events[h], id, t) {
      assert RegisteredSince(states, events, h, i, id, t);
    }
    if !Unregisters(states[h], events[h], id) {
      if j: nat :| RegisteredSince(states, events, j, h, id, t) {
        assert RegisteredSince(states, events, j, i, id, t);
      }
    }
    if j: nat :| RegisteredSince(states, events, j, i, id, t) {
      assert j < h ==> RegisteredSince(states, events, j, h, id, t);
    }
  }

  /** A task is registered under an id exactly since it began, until the id is taken off. */
  lemma {:induction false} RegisteredIff(states: seq<State>, events: seq<Event>, i: nat, id: Id, t: nat)
    requires Run(states, events) && i < |states|
    ensures (id in states[i].activeTasks && states[i].activeTasks[id] == t) <==>
            exists j: nat :: RegisteredSince(states, events, j, i, id, t)
  {
    if i > 0 {
      RegisteredIff(states, events, i - 1, id, t);
      var s, e := states[i - 1], events[i - 1];
      assert Follows(states, events, i - 1);
      RegisteringIff(s, e, id);
      RegisteredOneMore(states, events, i - 1, i, id, t);
    }
  }

  /** A cancel or the end of the transport tells `t` to stop if it is registered then. */
  predicate TellsToStop(s: State, e: Event, t: nat) {
    exists id :: id in s.activeTasks && s.activeTasks[id] == t && (e == Exit || (e.Deliver? && IsCancel(e.message, id)))
  }

  lemma StoppingIff(s: State, e: Event, t: nat)
    requires Valid(s) && Enabled(s, e) && t < |s.tasks| && s.tasks[t].status.Running?
    requires Step(s, e).tasks[t].status.Running?
    ensures Step(s, e).tasks[t].status.cancelRequested <==> s.tasks[t].status.cancelRequested || TellsToStop(s, e, t)
  {
  }

  /** A running task was told to stop exactly by such an event. */
  lemma {:induction false} ToldToStopIff(states: seq<State>, events: seq<Event>, i: nat, t: nat)
    requires Run(states, events) && i < |states| && t < |states[i].tasks| && states[i].tasks[t].status.Running?
    ensures states[i].tasks[t].status.cancelRequested <==>
            exists k: nat :: k < i && TellsToStop(states[k], events[k], t)
  {
    assert i > 0;
    var s, e := states[i - 1], events[i - 1];
    assert Follows(states, events, i - 1);
    RunKeepsInvariant(states, events, i - 1);
    if t < |s.tasks| && s.tasks[t].status.Running? {
      ToldToStopIff(states, events, i - 1, t);
      StoppingIff(s, e, t);
    } else {
      NotYetTold(states, events, i, t);
    }
  }

  lemma NotYetTold(states: seq<State>, events: seq<Event>, i: nat, t: nat)
    requires Run(states, events) && 0 < i < |states| && t < |states[i].tasks| && states[i].tasks[t].status.Running?
    requires !(t < |states[i - 1].tasks| && states[i - 1].tasks[t].status.Running?)
    ensures !states[i].tasks[t].status.cancelRequested
    ensures forall k: nat :: k < i ==> !TellsToStop(states[k], events[k], t)
  {
    assert Follows(states, events, i - 1);
    forall k: nat | k < i ensures !TellsToStop(states[k], events[k], t) {
      StillCreated(states, events, i - 1, k, t);
    }
  }

  lemma {:induction false} StillCreated(states: seq<State>, events: seq<Event>, i: nat, k: nat, t: nat)
    requires Run(states, events) && k <= i < |states|
    requires t < |states[i].tasks| ==> states[i].tasks[t].status.Created?
    ensures Valid(states[k]) && (t < |states[k].tasks| ==> states[k].tasks[t].status.Created?)
  {
    RunKeepsInvariant(states, events, k);
    if k < i {
      assert Follows(states, events, i - 1);
      StillCreated(states, events, i - 1, k, t);
    }
  }
}
