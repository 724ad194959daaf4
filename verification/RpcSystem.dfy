/** Client and server joined by two FIFO channels.

    A channel is the log of what one side has sent plus how much of it the other side has taken. The
    two sides interleave freely: any number of concurrent requests, any completion order, timeouts,
    cancellations, requests and notifications in the other direction, and either side stopping. */
module RpcSystem {
  import opened Messages
  import opened Options
  import C = Client
  import S = ServerSession

  datatype System = System(client: C.State, server: S.State, toServer: nat, toClient: nat)

  datatype Event =
    | ClientEvent(c: C.Event)
    | ServerEvent(s: S.Event)
    | DeliverToServer
    | DeliverToClient

  predicate Enabled(y: System, e: Event) {
    match e
    case ClientEvent(c) => !c.HandleMessage? && C.Enabled(y.client, c)
    case ServerEvent(s) => !s.Deliver? && S.Enabled(y.server, s)
    case DeliverToServer => y.toServer < |y.client.out|
    case DeliverToClient => y.toClient < |y.server.out|
  }

  function Step(env: C.Env, y: System, e: Event): System
    requires C.Valid(env, y.client) && S.Valid(y.server) && Enabled(y, e)
  {
    match e
    case ClientEvent(c) => y.(client := C.Step(env, y.client, c))
    case ServerEvent(s) => y.(server := S.Step(y.server, s))
    case DeliverToServer =>
      y.(server := S.AfterDeliver(y.server, y.client.out[y.toServer]), toServer := y.toServer + 1)
    case DeliverToClient =>
      y.(client := C.AfterMessage(env, y.client, y.server.out[y.toClient]), toClient := y.toClient + 1)
  }

  ghost predicate Run(env: C.Env, states: seq<System>, events: seq<Event>) {
    && |states| == |events| + 1
    && states[0] == System(C.Init, S.Init(states[0].server.handlers), 0, 0)
    && forall i :: 0 <= i < |events| ==> Follows(env, states, events, i)
  }

  ghost predicate Follows(env: C.Env, states: seq<System>, events: seq<Event>, i: nat)
    requires i < |events| && |states| == |events| + 1
  {
    && C.Valid(env, states[i].client) && S.Valid(states[i].server)
    && Enabled(states[i], events[i]) && states[i + 1] == Step(env, states[i], events[i])
  }

  // ----- the invariant ------------------------------------------------------------------------

  /** The response to the client's request `f` has reached the client. */
  predicate Answered(y: System, f: nat) {
    f < |y.server.tasks| && y.server.tasks[f].status.Ended? && y.server.tasks[f].status.pos < y.toClient
  }

  /** Tasks start in the order of sending: task `k` serves the client's request `k`. */
  predicate TasksServeRequests(sent: seq<C.Sent>, tasks: seq<Task>, toServer: nat) {
    && |tasks| <= |sent|
    && (forall k :: 0 <= k < |sent| ==> (k < |tasks| <==> sent[k].pos < toServer))
    && (forall k :: 0 <= k < |tasks| ==> tasks[k].request == C.RequestOf(sent[k]))
  }

  /** A request's id is in the client's table until its response arrives. */
  predicate TableAwaitsResponses(y: System) {
    forall f :: 0 <= f < |y.client.sent| ==>
      (y.client.sent[f].id in y.client.asyncFutures <==> !Answered(y, f))
  }

  /** The outcome the client should see for the way a task ended. */
  function OutcomeOfEnd(env: C.Env, r: C.Sent, end: HandlerEnd): Outcome
    requires r.name in env.resultType
  {
    C.OutcomeOf(env, env.resultType[r.name], S.ResponseTo(C.RequestOf(r), end))
  }

  /** Cut off from the server: given up by the caller, or because the server stopped. */
  predicate GivenUp(o: Outcome) {
    o == Cancelled || o == Failed(ServerStopped)
  }

  predicate OutcomesAreAnswers(env: C.Env, y: System) {
    forall f :: 0 <= f < |y.client.futures| && f < |y.client.sent| ==>
      && y.client.sent[f].name in env.resultType
      && (y.client.futures[f].Pending? || GivenUp(y.client.futures[f])
          || (Answered(y, f)
              && y.client.futures[f] == OutcomeOfEnd(env, y.client.sent[f], y.server.tasks[f].status.end)))
  }

  /** What the server sends under a method name is never an error. */
  predicate ServerLogValid(s: S.State) {
    forall p :: 0 <= p < |s.out| && s.out[p].name.Some? ==> s.out[p].error.None?
  }

  ghost predicate Valid(env: C.Env, y: System) {
    && C.Valid(env, y.client) && S.Valid(y.server) && S.ResponsesValid(y.server)
    && ServerLogValid(y.server)
    && y.toServer <= |y.client.out| && y.toClient <= |y.server.out|
    && TasksServeRequests(y.client.sent, y.server.tasks, y.toServer)
    && TableAwaitsResponses(y) && OutcomesAreAnswers(env, y)
  }

  // ----- what each side's steps leave alone ---------------------------------------------------

  /** Server tasks keep their requests, an ended one keeps its end, and a newly ended one's response
      comes after everything already in the log. */
  predicate ServerGrows(s: S.State, s': S.State) {
    && |s.out| <= |s'.out| && |s.tasks| <= |s'.tasks|
    && (forall t :: 0 <= t < |s.tasks| ==>
          && s'.tasks[t].request == s.tasks[t].request
          && (s.tasks[t].status.Ended? ==> s'.tasks[t].status == s.tasks[t].status)
          && (!s.tasks[t].status.Ended? && s'.tasks[t].status.Ended? ==> s'.tasks[t].status.pos >= |s.out|))
  }

  lemma ServerStepGrows(s: S.State, e: S.Event)
    requires S.Valid(s) && S.Enabled(s, e)
    ensures ServerGrows(s, S.Step(s, e))
    ensures !e.Deliver? ==> |S.Step(s, e).tasks| == |s.tasks|
  {
  }

  lemma ServerStepKeepsLog(s: S.State, e: S.Event)
    requires S.Valid(s) && S.Enabled(s, e) && ServerLogValid(s)
    ensures ServerLogValid(S.Step(s, e))
  {
  }

  /** Requests stay, and a future moves only from pending to given up. */
  predicate ClientMoves(c: C.State, c': C.State) {
    && |c.out| <= |c'.out| && |c.sent| <= |c'.sent| && c'.sent[..|c.sent|] == c.sent
    && |c.sent| == |c.futures| && |c'.sent| == |c'.futures|
    && (forall f :: 0 <= f < |c.sent| ==>
          && (c'.sent[f].id in c'.asyncFutures <==> c.sent[f].id in c.asyncFutures)
          && (c'.futures[f] == c.futures[f] || (c.futures[f].Pending? && GivenUp(c'.futures[f]))))
    && (forall f :: |c.sent| <= f < |c'.sent| ==>
          c'.sent[f].pos >= |c.out| && c'.sent[f].id in c'.asyncFutures && c'.futures[f].Pending?)
  }

  lemma SendingMoves(env: C.Env, c: C.State, e: C.Event)
    requires C.Valid(env, c) && C.Enabled(c, e) && e.SendRequest?
    ensures ClientMoves(c, C.AfterSendRequest(env, c, e))
    ensures forall f :: |c.sent| <= f < |C.AfterSendRequest(env, c, e).sent| ==>
              C.AfterSendRequest(env, c, e).sent[f].name in env.resultType
  {
  }

  lemma EndingMoves(env: C.Env, c: C.State, t: nat, end: HandlerEnd)
    requires C.Valid(env, c) && t < |c.serving|
    ensures ClientMoves(c, C.AfterEndTask(c, t, end))
  {
  }

  lemma ClientStepMoves(env: C.Env, c: C.State, e: C.Event)
    requires C.Valid(env, c) && C.Enabled(c, e) && !e.HandleMessage?
    ensures ClientMoves(c, C.Step(env, c, e))
    ensures forall f :: |c.sent| <= f < |C.Step(env, c, e).sent| ==>
              C.Step(env, c, e).sent[f].name in env.resultType
  {
    match e
    case SendRequest(_, _, _, _) => SendingMoves(env, c, e);
    case Notify(_, _) =>
    case EndTask(t, end) => EndingMoves(env, c, t, end);
    case CancelFuture(_) =>
    case ServerStops =>
  }

  // ----- the four kinds of steps keep the invariant ---------------------------------------------

  lemma ClientMovesKeepLink(env: C.Env, y: System, client: C.State)
    requires ClientMoves(y.client, client)
    requires forall f :: |y.client.sent| <= f < |client.sent| ==> client.sent[f].name in env.resultType
    requires y.toServer <= |y.client.out|
    requires TasksServeRequests(y.client.sent, y.server.tasks, y.toServer)
    requires TableAwaitsResponses(y) && OutcomesAreAnswers(env, y)
    ensures TasksServeRequests(client.sent, y.server.tasks, y.toServer)
    ensures TableAwaitsResponses(y.(client := client)) && OutcomesAreAnswers(env, y.(client := client))
  {
    assert forall f :: 0 <= f < |y.client.sent| ==> client.sent[f] == client.sent[..|y.client.sent|][f];
    assert forall f :: Answered(y.(client := client), f) <==> Answered(y, f);
  }

  lemma ClientEventKeepsValid(env: C.Env, y: System, e: C.Event)
    requires Valid(env, y) && Enabled(y, ClientEvent(e))
    ensures Valid(env, Step(env, y, ClientEvent(e)))
  {
    C.StepKeepsValid(env, y.client, e);
    ClientStepMoves(env, y.client, e);
    ClientMovesKeepLink(env, y, C.Step(env, y.client, e));
  }

  lemma ServerEventKeepsValid(env: C.Env, y: System, e: S.Event)
    requires Valid(env, y) && Enabled(y, ServerEvent(e))
    ensures Valid(env, Step(env, y, ServerEvent(e)))
  {
    S.StepKeepsValid(y.server, e);
    S.StepKeepsResponses(y.server, e);
    ServerStepGrows(y.server, e);
    ServerStepKeepsLog(y.server, e);
  }

  /** Taking the next message from the client's log: a request becomes the next task. */
  lemma TakingKeepsTasks(c: C.State, tasks: seq<Task>, tasks': seq<Task>, n: nat)
    requires C.LogValid(c) && TasksServeRequests(c.sent, tasks, n) && n < |c.out|
    requires tasks' == if c.out[n].id.Some? && c.out[n].name.Some? then tasks + [Task(c.out[n], Created)] else tasks
    ensures TasksServeRequests(c.sent, tasks', n + 1)
  {
    if c.out[n].id.Some? && c.out[n].name.Some? {
      var f :| 0 <= f < |c.sent| && c.sent[f].pos == n;
      RequestBecomesTask(c.sent, tasks, f);
    } else {
      assert forall k :: 0 <= k < |c.sent| ==> c.sent[k].pos != n;
    }
  }

  lemma RequestBecomesTask(sent: seq<C.Sent>, tasks: seq<Task>, f: nat)
    requires f < |sent| && TasksServeRequests(sent, tasks, sent[f].pos)
    requires forall g, h :: 0 <= g < h < |sent| ==> sent[g].pos < sent[h].pos
    ensures TasksServeRequests(sent, tasks + [Task(C.RequestOf(sent[f]), Created)], sent[f].pos + 1)
  {
    assert f >= |tasks|;
    assert sent[|tasks|].pos >= sent[f].pos;
    assert forall k :: 0 <= k < |sent| ==> (k <= f <==> sent[k].pos < sent[f].pos + 1);
  }

  /** Whether a task was cancelled does not matter for which request it serves. */
  lemma SameRequests(sent: seq<C.Sent>, tasks: seq<Task>, tasks': seq<Task>, n: nat)
    requires TasksServeRequests(sent, tasks, n) && |tasks'| == |tasks|
    requires forall t :: 0 <= t < |tasks| ==> tasks'[t].request == tasks[t].request
    ensures TasksServeRequests(sent, tasks', n)
  {
  }

  lemma DeliveryToServerKeepsTasks(env: C.Env, y: System)
    requires Valid(env, y) && Enabled(y, DeliverToServer)
    ensures var y' := Step(env, y, DeliverToServer);
            TasksServeRequests(y'.client.sent, y'.server.tasks, y'.toServer)
  {
    var m := y.client.out[y.toServer];
    S.DeliveryAloneAnswersNothing(y.server, m);
    if m.id.Some? && m.name.Some? {
      TakingKeepsTasks(y.client, y.server.tasks, y.server.tasks + [Task(m, Created)], y.toServer);
    } else {
      TakingKeepsTasks(y.client, y.server.tasks, y.server.tasks, y.toServer);
      ServerStepGrows(y.server, S.Deliver(m));
      SameRequests(y.client.sent, y.server.tasks, S.AfterDeliver(y.server, m).tasks, y.toServer + 1);
    }
  }

  /** The server's moves change no answer the client already has. */
  lemma ServerMovesKeepAnswers(env: C.Env, y: System, server: S.State, toServer: nat)
    requires ServerGrows(y.server, server) && |y.server.tasks| <= |y.client.sent|
    requires |y.client.sent| == |y.client.futures| && y.toClient <= |y.server.out|
    requires forall t :: |y.server.tasks| <= t < |server.tasks| ==> !server.tasks[t].status.Ended?
    requires TableAwaitsResponses(y) && OutcomesAreAnswers(env, y)
    ensures TableAwaitsResponses(y.(server := server, toServer := toServer))
    ensures OutcomesAreAnswers(env, y.(server := server, toServer := toServer))
  {
    var y' := y.(server := server, toServer := toServer);
    assert forall f :: Answered(y', f) <==> Answered(y, f);
  }

  lemma DeliveryToServerKeepsValid(env: C.Env, y: System)
    requires Valid(env, y) && Enabled(y, DeliverToServer)
    ensures Valid(env, Step(env, y, DeliverToServer))
  {
    var m := y.client.out[y.toServer];
    var server := S.AfterDeliver(y.server, m);
    assert server == S.Step(y.server, S.Deliver(m));
    S.StepKeepsValid(y.server, S.Deliver(m));
    S.StepKeepsResponses(y.server, S.Deliver(m));
    S.DeliveryAloneAnswersNothing(y.server, m);
    ServerStepGrows(y.server, S.Deliver(m));
    DeliveryToServerKeepsTasks(env, y);
    ServerMovesKeepAnswers(env, y, server, y.toServer + 1);
  }

  /** Request `f` gets its answer: its id leaves the table and its future is settled. */
  lemma AnsweringKeepsOutcomes(env: C.Env, y: System, f: nat)
    requires C.TableValid(env, y.client) && f < |y.client.sent| && y.client.sent[f].name in env.resultType
    requires |y.server.tasks| <= |y.client.sent| && TableAwaitsResponses(y) && OutcomesAreAnswers(env, y)
    requires S.EndedAt(y.server, f, y.toClient)
    requires forall t :: 0 <= t < |y.server.tasks| && S.EndedAt(y.server, t, y.toClient) ==> t == f
    ensures var y' := y.(client := C.Settle(C.Pop(y.client, y.client.sent[f].id), f,
                                            OutcomeOfEnd(env, y.client.sent[f], y.server.tasks[f].status.end)),
                         toClient := y.toClient + 1);
            TableAwaitsResponses(y') && OutcomesAreAnswers(env, y')
  {
    var y' := y.(toClient := y.toClient + 1);
    assert forall g: nat :: Answered(y', g) <==> Answered(y, g) || g == f by {
      forall g: nat ensures Answered(y', g) <==> Answered(y, g) || g == f {
        assert S.EndedAt(y.server, g, y.toClient) ==> g == f;
      }
    }
  }

  /** A message from the server that answers nothing. */
  lemma SkippingKeepsOutcomes(env: C.Env, y: System, client: C.State)
    requires client.sent == y.client.sent && client.futures == y.client.futures
    requires client.asyncFutures == y.client.asyncFutures
    requires TableAwaitsResponses(y) && OutcomesAreAnswers(env, y)
    requires forall t :: 0 <= t < |y.server.tasks| ==> !S.EndedAt(y.server, t, y.toClient)
    ensures TableAwaitsResponses(y.(client := client, toClient := y.toClient + 1))
    ensures OutcomesAreAnswers(env, y.(client := client, toClient := y.toClient + 1))
  {
    var y' := y.(client := client, toClient := y.toClient + 1);
    assert forall g: nat :: Answered(y', g) <==> Answered(y, g) by {
      forall g: nat ensures Answered(y', g) <==> Answered(y, g) {
        assert g < |y.server.tasks| ==> !S.EndedAt(y.server, g, y.toClient);
      }
    }
  }

  /** The next response belongs to whichever task ended at its place, and settles the request it served. */
  lemma DeliveredResponseSettles(env: C.Env, y: System, f: nat)
    requires Valid(env, y) && Enabled(y, DeliverToClient) && S.EndedAt(y.server, f, y.toClient)
    ensures f < |y.client.sent| && y.client.sent[f].name in env.resultType
    ensures y.server.out[y.toClient].name.None?
    ensures forall t :: 0 <= t < |y.server.tasks| && S.EndedAt(y.server, t, y.toClient) ==> t == f
    ensures C.AfterMessage(env, y.client, y.server.out[y.toClient]) ==
            C.Settle(C.Pop(y.client, y.client.sent[f].id), f,
                     OutcomeOfEnd(env, y.client.sent[f], y.server.tasks[f].status.end))
  {
    assert !Answered(y, f);
    C.ResponseSettles(env, y.client, f, y.server.out[y.toClient]);
  }

  lemma ResponseKeepsOutcomes(env: C.Env, y: System)
    requires Valid(env, y) && Enabled(y, DeliverToClient) && y.server.out[y.toClient].name.None?
    ensures var y' := Step(env, y, DeliverToClient);
            TableAwaitsResponses(y') && OutcomesAreAnswers(env, y')
  {
    var f :| S.EndedAt(y.server, f, y.toClient);
    DeliveredResponseSettles(env, y, f);
    AnsweringKeepsOutcomes(env, y, f);
  }

  /** A message under a method name answers no request. */
  lemma MethodIsNotAnAnswer(env: C.Env, y: System)
    requires C.Valid(env, y.client) && S.Valid(y.server) && ServerLogValid(y.server)
    requires Enabled(y, DeliverToClient) && y.server.out[y.toClient].name.Some?
    ensures forall t :: 0 <= t < |y.server.tasks| ==> !S.EndedAt(y.server, t, y.toClient)
    ensures var c := C.AfterMessage(env, y.client, y.server.out[y.toClient]);
            c.sent == y.client.sent && c.futures == y.client.futures && c.asyncFutures == y.client.asyncFutures
  {
    C.IncomingChangesNoFuture(env, y.client, y.server.out[y.toClient]);
  }

  lemma OtherMessageKeepsOutcomes(env: C.Env, y: System)
    requires Valid(env, y) && Enabled(y, DeliverToClient) && y.server.out[y.toClient].name.Some?
    ensures var y' := Step(env, y, DeliverToClient);
            TableAwaitsResponses(y') && OutcomesAreAnswers(env, y')
  {
    MethodIsNotAnAnswer(env, y);
    SkippingKeepsOutcomes(env, y, C.AfterMessage(env, y.client, y.server.out[y.toClient]));
  }

  lemma DeliveryToClientKeepsValid(env: C.Env, y: System)
    requires Valid(env, y) && Enabled(y, DeliverToClient)
    ensures Valid(env, Step(env, y, DeliverToClient))
  {
    var e := C.HandleMessage(y.server.out[y.toClient]);
    assert Step(env, y, DeliverToClient).client == C.Step(env, y.client, e);
    C.StepKeepsValid(env, y.client, e);
    if y.server.out[y.toClient].name.None? {
      ResponseKeepsOutcomes(env, y);
    } else {
      OtherMessageKeepsOutcomes(env, y);
    }
  }

  lemma StepKeepsValid(env: C.Env, y: System, e: Event)
    requires Valid(env, y) && Enabled(y, e)
    ensures Valid(env, Step(env, y, e))
  {
    match e
    case ClientEvent(c) => ClientEventKeepsValid(env, y, c);
    case ServerEvent(s) => ServerEventKeepsValid(env, y, s);
    case DeliverToServer => DeliveryToServerKeepsValid(env, y);
    case DeliverToClient => DeliveryToClientKeepsValid(env, y);
  }

  // ----- results about every run ----------------------------------------------------------------

  lemma StartIsValid(env: C.Env, handlers: set<string>)
    ensures Valid(env, System(C.Init, S.Init(handlers), 0, 0))
  {
  }

  lemma {:induction false} RunKeepsValid(env: C.Env, states: seq<System>, events: seq<Event>, i: nat)
    requires Run(env, states, events) && i < |states|
    ensures Valid(env, states[i])
  {
    if i == 0 {
      StartIsValid(env, states[0].server.handlers);
    } else {
      RunKeepsValid(env, states, events, i - 1);
      assert Follows(env, states, events, i - 1);
      StepKeepsValid(env, states[i - 1], events[i - 1]);
    }
  }

  /** The invariants in `Run` only make `Step` defined: no run is ever kept from going on by them. */
  lemma RunGoesOn(env: C.Env, states: seq<System>, events: seq<Event>, e: Event)
    requires Run(env, states, events) && Enabled(states[|events|], e)
    ensures C.Valid(env, states[|events|].client) && S.Valid(states[|events|].server)
    ensures Run(env, states + [Step(env, states[|events|], e)], events + [e])
  {
    RunKeepsValid(env, states, events, |events|);
    var states', events' := states + [Step(env, states[|events|], e)], events + [e];
    forall i | 0 <= i < |events'| ensures Follows(env, states', events', i) {
      if i < |events| {
        assert Follows(env, states, events, i);
      }
    }
  }

  /** A future that completes holds what the handler computed for that very request: the server task
      that served it is the only one with its id, it received the request as sent, and the outcome is
      the conversion of that task's own end. */
  lemma OutcomeComesFromOwnRequest(env: C.Env, states: seq<System>, events: seq<Event>, i: nat, f: nat)
    requires Run(env, states, events) && i < |states|
    requires f < |states[i].client.futures|
    requires !states[i].client.futures[f].Pending? && !GivenUp(states[i].client.futures[f])
    ensures var y := states[i];
            && f < |y.client.sent| && f < |y.server.tasks|
            && y.client.sent[f].name in env.resultType
            && y.server.tasks[f].request == C.RequestOf(y.client.sent[f])
            && y.server.tasks[f].status.Ended?
            && y.client.futures[f] == OutcomeOfEnd(env, y.client.sent[f], y.server.tasks[f].status.end)
            && forall t :: 0 <= t < |y.server.tasks| && y.server.tasks[t].request.id == Some(y.client.sent[f].id) ==>
                 t == f
  {
    RunKeepsValid(env, states, events, i);
  }

  /** In particular a value is the conversion of the value the handler returned, and an error names
      what went wrong in that handler. */
  lemma ValueIsTheHandlersValue(env: C.Env, states: seq<System>, events: seq<Event>, i: nat, f: nat)
    requires Run(env, states, events) && i < |states| && f < |states[i].client.futures|
    requires !states[i].client.futures[f].Pending? && !GivenUp(states[i].client.futures[f])
    ensures var y := states[i];
            && f < |y.client.sent| && y.client.sent[f].name in env.resultType
            && f < |y.server.tasks| && y.server.tasks[f].status.Ended?
            && var r, o := y.client.sent[f], y.client.futures[f];
            match y.server.tasks[f].status.end
            case Returned(w) =>
              (match env.structure(env.resultType[r.name], Msg(Some(r.id), None, None, Some(w), None))
               case Some(v) => o == Value(v)
               case None => o == Failed(InvalidResponse))
            case RaisedHandlerError(code, message) => o == Failed(RemoteError(RpcError(code, message)))
            case WasCancelled => o == Failed(RemoteError(RpcError(-32800, "Request cancelled")))
            case ReturnedUnserialisable(message) => o == Failed(RemoteError(RpcError(-32603, message)))
            case RaisedOther(message) => o == Failed(RemoteError(RpcError(-32603, message)))
            case NotRegistered => o == Failed(RemoteError(RpcError(-32601, "Method not found: " + r.name)))
  {
    RunKeepsValid(env, states, events, i);
  }

  /** The first outcome a caller sees is never replaced, over the whole run. */
  lemma {:induction false} OutcomeIsFinal(env: C.Env, states: seq<System>, events: seq<Event>, i: nat, j: nat, f: nat)
    requires Run(env, states, events) && i <= j < |states|
    requires f < |states[i].client.futures| && !states[i].client.futures[f].Pending?
    ensures f < |states[j].client.futures| && states[j].client.futures[f] == states[i].client.futures[f]
  {
    if i < j {
      OutcomeIsFinal(env, states, events, i, j - 1, f);
      var y, e := states[j - 1], events[j - 1];
      assert Follows(env, states, events, j - 1);
      match e
      case ClientEvent(c) => C.OutcomeNeverReplaced(env, y.client, c, f);
      case DeliverToClient =>
        C.OutcomeNeverReplaced(env, y.client, C.HandleMessage(y.server.out[y.toClient]), f);
      case _ =>
    }
  }

  /** Nothing is lost: once both channels are drained and every server task has ended, no caller is
      still waiting. */
  lemma NobodyWaitsWhenQuiet(env: C.Env, states: seq<System>, events: seq<Event>, i: nat)
    requires Run(env, states, events) && i < |states|
    requires states[i].toServer == |states[i].client.out| && states[i].toClient == |states[i].server.out|
    requires forall t <- states[i].server.tasks :: t.status.Ended?
    ensures forall o <- states[i].client.futures :: !o.Pending?
    ensures |states[i].server.tasks| == |states[i].client.sent| == |states[i].client.futures|
  {
    RunKeepsValid(env, states, events, i);
    var y := states[i];
    forall k {:trigger y.client.sent[k]} | 0 <= k < |y.client.sent| ensures k < |y.server.tasks| {
      assert y.client.sent[k].pos < y.toServer;
    }
    assert |y.client.sent| > 0 ==> y.client.sent[|y.client.sent| - 1].id.Str?;
    forall f | 0 <= f < |y.client.futures| ensures !y.client.futures[f].Pending? {
      assert y.server.tasks[f] in y.server.tasks;
      assert Answered(y, f);
    }
  }
}
