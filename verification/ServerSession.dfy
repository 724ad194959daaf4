/** The server side of a JSON-RPC session: `JsonRpcServerSession`.

    `State` is the session together with the event loop's view of it (futures, tasks, everything
    enqueued on the transport). The functions are the atomic stretches between two awaits; the class
    at the end performs them on its fields. */
module ServerSession {
  import opened Messages
  import opened Options

  datatype State = State(
    handlers: set<string>,
    nextId: nat,
    requestFutures: map<Id, nat>,
    activeTasks: map<Id, nat>,
    futures: seq<Outcome>,
    tasks: seq<Task>,
    out: seq<Msg>)

  /** Everything that can happen to a session, in any order the event loop chooses. */
  datatype Event =
    | SendRequest(name: string, params: Option<Params>)
    | SendNotification(name: string, params: Option<Params>)
    | CancelFuture(future: nat)     // the timer of wait_for fires, or the waiting task is cancelled
    | ForgetTimedOut(future: nat)   // the waiting task resumes with TimeoutError
    | Deliver(message: Msg)
    | BeginTask(task: nat)
    | EndTask(task: nat, end: HandlerEnd)
    | Exit

  function Init(handlers: set<string>): State {
    State(handlers, 0, map[], map[], [], [], [])
  }

  function Enqueue(s: State, m: Msg): State {
    s.(out := s.out + [m])
  }

  function AfterSendRequest(s: State, name: string, params: Option<Params>): State {
    Enqueue(s.(nextId := s.nextId + 1,
               futures := s.futures + [Pending],
               requestFutures := s.requestFutures[Num(s.nextId) := |s.futures|]),
            Request(Num(s.nextId), name, params))
  }

  function AfterCancelFuture(s: State, f: nat): State
    requires f < |s.futures|
  {
    if s.futures[f].Pending? then s.(futures := s.futures[f := Cancelled]) else s
  }

  function AfterForgetTimedOut(s: State, f: nat): State {
    s.(requestFutures := s.requestFutures - {Num(f)})
  }

  function AfterResponse(s: State, m: Msg): State
    requires m.id.Some?
    requires m.id.value in s.requestFutures ==> s.requestFutures[m.id.value] < |s.futures|
  {
    if m.id.value !in s.requestFutures then s
    else
      var f := s.requestFutures[m.id.value];
      var popped := s.(requestFutures := s.requestFutures - {m.id.value});
      if s.futures[f].Cancelled? then popped
      else popped.(futures := s.futures[f := OutcomeOf(m)])
  }

  function OutcomeOf(m: Msg): Outcome {
    if m.error.Some? then Failed(RemoteError(m.error.value))
    else if m.result.Some? then Value(m.result.value)
    else Value("null")
  }

  function AfterCancelRequest(s: State, params: Option<Params>): State
    requires forall id <- s.activeTasks :: s.activeTasks[id] < |s.tasks|
  {
    if params.None? || params.value.requestId.None? || params.value.requestId == Some(NullId) then s
    else if params.value.requestId.value !in s.activeTasks then s
    else
      var id := params.value.requestId.value;
      var t := s.activeTasks[id];
      CancelTask(s.(activeTasks := s.activeTasks - {id}), t)
  }

  function CancelTask(s: State, t: nat): State
    requires t < |s.tasks|
  {
    if s.tasks[t].status.Ended? then s
    else s.(tasks := s.tasks[t := s.tasks[t].(status := Running(true))])
  }

  function AfterDeliver(s: State, m: Msg): State
    requires Valid(s)
  {
    if m.id.Some? && (m.result.Some? || m.error.Some?) && m.name.None? then AfterResponse(s, m)
    else if m.id.Some? && m.name.Some? then s.(tasks := s.tasks + [Task(m, Created)])
    else if m.name.Some? && m.name.value == CANCEL_METHOD then AfterCancelRequest(s, m.params)
    else s
  }

  /** The response each way of ending produces. */
  function ResponseTo(request: Msg, end: HandlerEnd): Msg
    requires request.id.Some? && request.name.Some?
  {
    var id := request.id.value;
    match end
    case Returned(v) => ResultResponse(id, v)
    case ReturnedUnserialisable(message) => ErrorResponse(id, INTERNAL_ERROR, message)
    case RaisedHandlerError(code, message) => ErrorResponse(id, code, message)
    case RaisedOther(message) => ErrorResponse(id, INTERNAL_ERROR, message)
    case WasCancelled => ErrorResponse(id, REQUEST_CANCELLED, "Request cancelled")
    case NotRegistered => ErrorResponse(id, METHOD_NOT_FOUND, "Method not found: " + request.name.value)
  }

  /** What the response to a request says, by how its handler ended. */
  predicate Answers(m: Msg, request: Msg, end: HandlerEnd) {
    && m.id == request.id && m.name == None && m.params == None
    && match end
       case Returned(v) => m.result == Some(v) && m.error == None
       case ReturnedUnserialisable(message) => m.result == None && m.error == Some(RpcError(-32603, message))
       case RaisedHandlerError(code, message) => m.result == None && m.error == Some(RpcError(code, message))
       case RaisedOther(message) => m.result == None && m.error == Some(RpcError(-32603, message))
       case WasCancelled => m.result == None && m.error == Some(RpcError(-32800, "Request cancelled"))
       case NotRegistered =>
         && request.name.Some? && m.result == None
         && m.error == Some(RpcError(-32601, "Method not found: " + request.name.value))
  }

  function Finish(s: State, t: nat, end: HandlerEnd): State
    requires t < |s.tasks| && s.tasks[t].request.id.Some? && s.tasks[t].request.name.Some?
  {
    Enqueue(s.(tasks := s.tasks[t := s.tasks[t].(status := Ended(end, |s.out|))]),
            ResponseTo(s.tasks[t].request, end))
  }

  function AfterBeginTask(s: State, t: nat): State
    requires Valid(s) && t < |s.tasks|
  {
    var request := s.tasks[t].request;
    if request.name.value !in s.handlers then Finish(s, t, NotRegistered)
    else s.(tasks := s.tasks[t := s.tasks[t].(status := Running(false))],
            activeTasks := s.activeTasks[request.id.value := t])
  }

  function AfterEndTask(s: State, t: nat, end: HandlerEnd): State
    requires Valid(s) && t < |s.tasks|
  {
    var finished := Finish(s, t, end);
    finished.(activeTasks := finished.activeTasks - {s.tasks[t].request.id.value})
  }

  /** The transport closed: every pending future in the table fails, every active task is cancelled. */
  function AfterExit(s: State): State {
    s.(futures := seq(|s.futures|, f requires 0 <= f < |s.futures| =>
                    if f in s.requestFutures.Values && s.futures[f].Pending? then Failed(TransportClosed)
                    else s.futures[f]),
       requestFutures := map[],
       tasks := seq(|s.tasks|, t requires 0 <= t < |s.tasks| =>
                  if t in s.activeTasks.Values && !s.tasks[t].status.Ended?
                  then s.tasks[t].(status := Running(true))
                  else s.tasks[t]),
       activeTasks := map[])
  }

  // ----- runs ---------------------------------------------------------------------------------

  /** When the event loop can perform the event: a task is begun once and ends once, and only a wait
      that is over can raise TimeoutError. */
  predicate Enabled(s: State, e: Event) {
    match e
    case CancelFuture(f) => f < |s.futures|
    case ForgetTimedOut(f) => f < |s.futures| && !s.futures[f].Pending?
    case BeginTask(t) => t < |s.tasks| && s.tasks[t].status.Created?
    case EndTask(t, end) => t < |s.tasks| && s.tasks[t].status.Running? && !end.NotRegistered?
    case _ => true
  }

  function Step(s: State, e: Event): State
    requires Valid(s) && Enabled(s, e)
  {
    match e
    case SendRequest(name, params) => AfterSendRequest(s, name, params)
    case SendNotification(name, params) => Enqueue(s, Notification(name, params))
    case CancelFuture(f) => AfterCancelFuture(s, f)
    case ForgetTimedOut(f) => AfterForgetTimedOut(s, f)
    case Deliver(m) => AfterDeliver(s, m)
    case BeginTask(t) => AfterBeginTask(s, t)
    case EndTask(t, end) => AfterEndTask(s, t, end)
    case Exit => AfterExit(s)
  }

  /** A run from a fresh session; `states[i + 1]` follows from `states[i]` by `events[i]`. */
  ghost predicate Run(states: seq<State>, events: seq<Event>) {
    && |states| == |events| + 1
    && states[0] == Init(states[0].handlers)
    && forall i :: 0 <= i < |events| ==> Follows(states, events, i)
  }

  ghost predicate Follows(states: seq<State>, events: seq<Event>, i: nat)
    requires i < |events| && |states| == |events| + 1
  {
    Valid(states[i]) && Enabled(states[i], events[i]) && states[i + 1] == Step(states[i], events[i])
  }

  // ----- the invariant -----------------------------------------------------------------------

  /** Future `n` belongs to request id `n`. The outbound table maps ids below `nextId` to their own
      future, which is pending or cancelled, and every pending future is in it. */
  predicate TableValid(s: State) {
    && |s.futures| == s.nextId
    && (forall id <- s.requestFutures ::
          && id.Num? && 0 <= id.n < s.nextId && s.requestFutures[id] == id.n
          && (s.futures[id.n].Pending? || s.futures[id.n].Cancelled?))
    && (forall f :: 0 <= f < |s.futures| && s.futures[f].Pending? ==> Num(f) in s.requestFutures)
  }

  /** The active table holds running tasks under their own request id. */
  predicate ActiveValid(s: State) {
    forall id <- s.activeTasks ::
      && s.activeTasks[id] < |s.tasks|
      && s.tasks[s.activeTasks[id]].status.Running?
      && s.tasks[s.activeTasks[id]].request.id == Some(id)
  }

  predicate TasksValid(s: State) {
    forall t :: 0 <= t < |s.tasks| ==>
      && s.tasks[t].request.id.Some? && s.tasks[t].request.name.Some?
      && (s.tasks[t].status.Ended? ==>
            && s.tasks[t].status.pos < |s.out|
            && s.out[s.tasks[t].status.pos] == ResponseTo(s.tasks[t].request, s.tasks[t].status.end))
  }

  ghost predicate EndedAt(s: State, t: nat, p: nat) {
    t < |s.tasks| && s.tasks[t].status.Ended? && s.tasks[t].status.pos == p
  }

  /** Tasks that ended and responses in the log correspond one to one. */
  ghost predicate ResponsesValid(s: State) {
    && (forall t, u | 0 <= t < |s.tasks| && 0 <= u < |s.tasks| && s.tasks[t].status.Ended? && s.tasks[u].status.Ended? ::
          s.tasks[t].status.pos == s.tasks[u].status.pos ==> t == u)
    && (forall p :: 0 <= p < |s.out| && s.out[p].name.None? ==> exists t :: EndedAt(s, t, p))
  }

  predicate Valid(s: State) {
    TableValid(s) && ActiveValid(s) && TasksValid(s)
  }

  // ----- what every step keeps ------------------------------------------------------------------

  lemma StepKeepsTable(s: State, e: Event)
    requires Valid(s) && Enabled(s, e)
    ensures TableValid(Step(s, e))
  {
  }

  lemma StepKeepsActive(s: State, e: Event)
    requires Valid(s) && Enabled(s, e)
    ensures ActiveValid(Step(s, e))
  {
  }

  lemma StepKeepsTasks(s: State, e: Event)
    requires Valid(s) && Enabled(s, e)
    ensures TasksValid(Step(s, e))
  {
  }

  lemma StepKeepsValid(s: State, e: Event)
    requires Valid(s) && Enabled(s, e)
    ensures Valid(Step(s, e))
  {
    StepKeepsTable(s, e);
    StepKeepsActive(s, e);
    StepKeepsTasks(s, e);
  }

  lemma FinishKeepsResponses(s: State, t: nat, end: HandlerEnd)
    requires Valid(s) && ResponsesValid(s) && t < |s.tasks| && !s.tasks[t].status.Ended?
    ensures ResponsesValid(Finish(s, t, end))
  {
    var s' := Finish(s, t, end);
    forall p | 0 <= p < |s'.out| && s'.out[p].name.None?
      ensures exists t :: EndedAt(s', t, p)
    {
      if p < |s.out| {
        var u :| EndedAt(s, u, p);
        assert EndedAt(s', u, p);
      } else {
        assert EndedAt(s', t, p);
      }
    }
  }

  /** Ends and responses stay as they are; at most a message under a method name is added. */
  predicate AnswersNothing(s: State, s': State) {
    && |s.out| <= |s'.out| <= |s.out| + 1 && s'.out[..|s.out|] == s.out
    && (|s'.out| > |s.out| ==> s'.out[|s.out|].name.Some?)
    && |s.tasks| <= |s'.tasks|
    && (forall t :: 0 <= t < |s.tasks| && (s.tasks[t].status.Ended? || s'.tasks[t].status.Ended?) ==>
          s'.tasks[t].status == s.tasks[t].status)
    && (forall t :: |s.tasks| <= t < |s'.tasks| ==> !s'.tasks[t].status.Ended?)
  }

  lemma AnsweringNothingKeepsResponses(s: State, s': State)
    requires ResponsesValid(s) && AnswersNothing(s, s')
    ensures ResponsesValid(s')
  {
    forall p | 0 <= p < |s'.out| && s'.out[p].name.None?
      ensures exists t :: EndedAt(s', t, p)
    {
      assert s'.out[p] == s'.out[..|s.out|][p];
      var t :| EndedAt(s, t, p);
      assert EndedAt(s', t, p);
    }
  }

  lemma StepKeepsResponses(s: State, e: Event)
    requires Valid(s) && ResponsesValid(s) && Enabled(s, e)
    ensures ResponsesValid(Step(s, e))
  {
    var s' := Step(s, e);
    if e.EndTask? || (e.BeginTask? && s.tasks[e.task].request.name.value !in s.handlers) {
      var end := if e.EndTask? then e.end else NotRegistered;
      FinishKeepsResponses(s, e.task, end);
      AnsweringNothingKeepsResponses(Finish(s, e.task, end), s');
    } else {
      OtherStepsAnswerNothing(s, e);
      AnsweringNothingKeepsResponses(s, s');
    }
  }

  lemma OtherStepsAnswerNothing(s: State, e: Event)
    requires Valid(s) && Enabled(s, e) && !e.EndTask?
    requires e.BeginTask? ==> s.tasks[e.task].request.name.value in s.handlers
    ensures AnswersNothing(s, Step(s, e))
  {
  }

  // ----- results about every run ---------------------------------------------------------------

  lemma {:induction false} RunKeepsInvariant(states: seq<State>, events: seq<Event>, i: nat)
    requires Run(states, events) && i < |states|
    ensures Valid(states[i]) && ResponsesValid(states[i])
  {
    if i > 0 {
      RunKeepsInvariant(states, events, i - 1);
      assert Follows(states, events, i - 1);
      StepKeepsValid(states[i - 1], events[i - 1]);
      StepKeepsResponses(states[i - 1], events[i - 1]);
    }
  }

  /** `Valid` in `Run` only makes `Step` defined: no run is ever kept from going on by it. */
  lemma RunGoesOn(states: seq<State>, events: seq<Event>, e: Event)
    requires Run(states, events) && Enabled(states[|events|], e)
    ensures Valid(states[|events|]) && Run(states + [Step(states[|events|], e)], events + [e])
  {
    RunKeepsInvariant(states, events, |events|);
    var states', events' := states + [Step(states[|events|], e)], events + [e];
    forall i | 0 <= i < |events'| ensures Follows(states', events', i) {
      if i < |events| {
        assert Follows(states, events, i);
      }
    }
  }

  /** A future's first outcome is its last one. */
  lemma {:induction false} OutcomeNeverReplaced(states: seq<State>, events: seq<Event>, i: nat, j: nat, f: nat)
    requires Run(states, events) && i <= j < |states|
    requires f < |states[i].futures| && !states[i].futures[f].Pending?
    ensures f < |states[j].futures| && states[j].futures[f] == states[i].futures[f]
  {
    if i < j {
      assert Follows(states, events, j - 1);
      OutcomeNeverReplaced(states, events, i, j - 1, f);
    }
  }

  /** When the transport has closed, no future issued so far is still pending, both tables are empty,
      and exactly those tasks that were registered are told to stop. */
  lemma ExitFinishesEveryFuture(states: seq<State>, events: seq<Event>, i: nat)
    requires Run(states, events) && i < |events| && events[i].Exit?
    ensures var s, s' := states[i], states[i + 1];
            && s'.nextId == |s'.futures| && |s'.tasks| == |s.tasks|
            && (forall f :: 0 <= f < |s'.futures| ==> !s'.futures[f].Pending?)
            && s'.requestFutures == map[] && s'.activeTasks == map[]
            && (forall t :: 0 <= t < |s.tasks| ==>
                  s'.tasks[t].status == if t in s.activeTasks.Values then Running(true) else s.tasks[t].status)
  {
    RunKeepsInvariant(states, events, i);
    assert Follows(states, events, i);
    var s, s' := states[i], states[i + 1];
    forall f | 0 <= f < |s.futures|
      ensures !s'.futures[f].Pending?
    {
      if s.futures[f].Pending? {
        assert s.requestFutures[Num(f)] == f;
      }
    }
  }

  ghost function EndedTasks(s: State, id: Id): set<int> {
    set t: int | 0 <= t < |s.tasks| && s.tasks[t].status.Ended? && s.tasks[t].request.id == Some(id)
  }

  ghost function Responses(s: State, id: Id): set<int> {
    set p: int | 0 <= p < |s.out| && s.out[p].name.None? && s.out[p].id == Some(id)
  }

  /** Whatever the interleaving, and even when a client reuses an id: as many responses with an id
      have been enqueued as tasks serving that id have ended. Each is a well-formed Response, and
      each ended task's own response is among them. */
  lemma OneResponsePerEndedTask(states: seq<State>, events: seq<Event>, i: nat, id: Id)
    requires Run(states, events) && i < |states|
    ensures |Responses(states[i], id)| == |EndedTasks(states[i], id)|
    ensures forall p <- Responses(states[i], id) :: IsResponse(states[i].out[p])
    ensures forall t <- EndedTasks(states[i], id) ::
              && states[i].tasks[t].request.id.Some? && states[i].tasks[t].request.name.Some?
              && exists p <- Responses(states[i], id) ::
                   Answers(states[i].out[p], states[i].tasks[t].request, states[i].tasks[t].status.end)
  {
    RunKeepsInvariant(states, events, i);
    ResponsesMatchEndedTasks(states[i], id);
  }

  lemma ResponsesMatchEndedTasks(s: State, id: Id)
    requires Valid(s) && ResponsesValid(s)
    ensures |Responses(s, id)| == |EndedTasks(s, id)|
    ensures forall p <- Responses(s, id) :: IsResponse(s.out[p])
    ensures forall t <- EndedTasks(s, id) ::
              exists p <- Responses(s, id) :: Answers(s.out[p], s.tasks[t].request, s.tasks[t].status.end)
  {
    var owner: map<int, int> := map t: int | t in EndedTasks(s, id) :: s.tasks[t].status.pos;
    forall t | t in EndedTasks(s, id)
      ensures owner[t] in Responses(s, id) && Answers(s.out[owner[t]], s.tasks[t].request, s.tasks[t].status.end)
    {
    }
    forall p | p in Responses(s, id)
      ensures IsResponse(s.out[p]) && exists t <- EndedTasks(s, id) :: owner[t] == p
    {
      ResponseHasOwner(s, p);
      var t :| EndedAt(s, t, p);
      assert t in EndedTasks(s, id);
    }
    Bijection(EndedTasks(s, id), owner, Responses(s, id));
  }

  lemma ResponseHasOwner(s: State, p: nat)
    requires Valid(s) && ResponsesValid(s) && p < |s.out| && s.out[p].name.None?
    ensures exists t :: EndedAt(s, t, p)
    ensures forall t: nat :: EndedAt(s, t, p) ==> s.tasks[t].request.id == s.out[p].id
    ensures IsResponse(s.out[p])
  {
    var t :| EndedAt(s, t, p);
  }

  lemma {:induction false} Bijection<A, B>(domain: set<A>, f: map<A, B>, image: set<B>)
    requires domain <= f.Keys
    requires forall x <- domain, y <- domain :: f[x] == f[y] ==> x == y
    requires forall x <- domain :: f[x] in image
    requires forall z <- image :: exists x <- domain :: f[x] == z
    ensures |domain| == |image|
  {
    if domain == {} {
      assert forall z :: z !in image;
    } else {
      var x :| x in domain;
      forall z | z in image - {f[x]}
        ensures exists y <- domain - {x} :: f[y] == z
      {
        var y :| y in domain && f[y] == z;
        assert y in domain - {x};
      }
      Bijection(domain - {x}, f, image - {f[x]});
    }
  }

  /** Only requests are answered: nothing else that arrives enqueues a message or starts a task
      (section 4.1 of JSON-RPC 2.0), and a request is answered by its task only. */
  lemma DeliveryAloneAnswersNothing(s: State, m: Msg)
    requires Valid(s)
    ensures AfterDeliver(s, m).out == s.out
    ensures |AfterDeliver(s, m).tasks| == |s.tasks| + if m.id.Some? && m.name.Some? then 1 else 0
    ensures m.id.Some? && m.name.Some? ==> AfterDeliver(s, m) == s.(tasks := s.tasks + [Task(m, Created)])
  {
  }

  /** LSP cancellation: the notification reaches exactly the asyncio task registered under its id and takes it
      off the table; any other task, future or message is untouched. A cancel that names the null id is
      ignored, even when a request with that id is registered. */
  lemma CancelReachesItsTask(s: State, id: Id, body: Json)
    requires Valid(s)
    ensures var s' := AfterDeliver(s, Notification(CANCEL_METHOD, Some(Params(Some(id), body))));
            && s'.(tasks := s.tasks, activeTasks := s.activeTasks) == s
            && s'.activeTasks == (if id.NullId? then s.activeTasks else s.activeTasks - {id})
            && |s'.tasks| == |s.tasks|
            && forall t :: 0 <= t < |s.tasks| ==>
                 s'.tasks[t] == if !id.NullId? && id in s.activeTasks && s.activeTasks[id] == t
                                then s.tasks[t].(status := Running(true)) else s.tasks[t]
  {
  }

  /** A cancel is lost exactly when its id is null or no task is registered under it; in particular one that arrives
      before the only task with that id has begun leaves no trace. */
  lemma EarlyCancelIsLost(s: State, t: nat, body: Json)
    requires Valid(s) && t < |s.tasks| && s.tasks[t].status.Created?
    ensures var id := s.tasks[t].request.id.value;
            (AfterDeliver(s, Notification(CANCEL_METHOD, Some(Params(Some(id), body)))) == s) <==>
            (id.NullId? || id !in s.activeTasks)
  {
    var id := s.tasks[t].request.id.value;
    assert id in s.activeTasks ==> s.activeTasks - {id} != s.activeTasks;
  }

  // ----- the session itself ---------------------------------------------------------------------

  class JsonRpcServerSession {
    const requestHandlers: set<string>
    var nextId: nat
    var requestFutures: map<Id, nat>
    var activeTasks: map<Id, nat>
    // the event loop's futures and tasks, and everything handed to the transport
    var futures: seq<Outcome>
    var tasks: seq<Task>
    var out: seq<Msg>

    function View(): State
      reads this
    {
      State(requestHandlers, nextId, requestFutures, activeTasks, futures, tasks, out)
    }

    constructor (handlers: set<string>)
      ensures View() == Init(handlers) && Valid(View())
    {
      requestHandlers := handlers;
      nextId, requestFutures, activeTasks := 0, map[], map[];
      futures, tasks, out := [], [], [];
    }

    method Send(m: Msg)
      modifies this`out
      ensures View() == Enqueue(old(View()), m)
    {
      out := out + [m];
    }

    /** Completing a future that is done raises InvalidStateError, so only pending ones may be. */
    method Complete(f: nat, outcome: Outcome)
      requires f < |futures| && futures[f].Pending?
      modifies this`futures
      ensures futures == old(futures)[f := outcome]
    {
      futures := futures[f := outcome];
    }

    /** `send_request` up to its await; the caller then waits for future `f`. */
    method SendRequest(name: string, params: Option<Params>) returns (f: nat)
      requires Valid(View())
      modifies this
      ensures View() == AfterSendRequest(old(View()), name, params) && f == old(nextId)
    {
      var id := nextId;
      nextId := nextId + 1;
      f := |futures|;
      futures := futures + [Pending];
      requestFutures := requestFutures[Num(id) := f];
      Send(Request(Num(id), name, params));
    }

    /** The rest of `send_request` when the wait timed out. */
    method ForgetTimedOut(f: nat)
      modifies this`requestFutures
      ensures View() == AfterForgetTimedOut(old(View()), f)
    {
      requestFutures := requestFutures - {Num(f)};
    }

    method HandleMessage(m: Msg)
      requires Valid(View())
      modifies this
      ensures View() == AfterDeliver(old(View()), m)
    {
      if m.id.Some? && (m.result.Some? || m.error.Some?) && m.name.None? {
        ResolveResponse(m);
      } else if m.id.Some? && m.name.Some? {
        tasks := tasks + [Task(m, Created)];
      } else if m.name.Some? && m.id.None? {
        if m.name.value == CANCEL_METHOD {
          BuiltinCancelRequest(m.params);
        }
      }
    }

    method ResolveResponse(m: Msg)
      requires Valid(View()) && m.id.Some?
      modifies this
      ensures View() == AfterResponse(old(View()), m)
    {
      var id := m.id.value;
      if id !in requestFutures {
        return;
      }
      var f := requestFutures[id];
      requestFutures := requestFutures - {id};
      if futures[f].Cancelled? {
        return;
      }
      if m.error.Some? {
        Complete(f, Failed(RemoteError(m.error.value)));
      } else {
        Complete(f, Value(if m.result.Some? then m.result.value else "null"));
      }
    }

    /** `_execute_request` up to the await of the handler. */
    method BeginRequest(t: nat)
      requires Valid(View()) && Enabled(View(), BeginTask(t))
      modifies this
      ensures View() == AfterBeginTask(old(View()), t)
    {
      var request := tasks[t].request;
      if request.name.value !in requestHandlers {
        tasks := tasks[t := tasks[t].(status := Ended(NotRegistered, |out|))];
        SendResponse(request.id.value, "null",
                     Some(RpcError(METHOD_NOT_FOUND, "Method not found: " + request.name.value)));
        return;
      }
      activeTasks := activeTasks[request.id.value := t];
      tasks := tasks[t := tasks[t].(status := Running(false))];
    }

    /** `_execute_request` from the end of the handler on. */
    method EndRequest(t: nat, end: HandlerEnd)
      requires Valid(View()) && Enabled(View(), EndTask(t, end))
      modifies this
      ensures View() == AfterEndTask(old(View()), t, end)
    {
      var id := tasks[t].request.id.value;
      tasks := tasks[t := tasks[t].(status := Ended(end, |out|))];
      match end {
        case Returned(value) => Send(ResultResponse(id, value));
        case ReturnedUnserialisable(message) => SendResponse(id, "null", Some(RpcError(INTERNAL_ERROR, message)));
        case RaisedHandlerError(code, message) => SendResponse(id, "null", Some(RpcError(code, message)));
        case RaisedOther(message) => SendResponse(id, "null", Some(RpcError(INTERNAL_ERROR, message)));
        case WasCancelled => SendResponse(id, "null", Some(RpcError(REQUEST_CANCELLED, "Request cancelled")));
      }
      activeTasks := activeTasks - {id};
    }

    method SendResponse(id: Id, result: Json, error: Option<ErrorObject>)
      requires error.Some? ==> error.value.RpcError?
      modifies this`out
      ensures View() == Enqueue(old(View()), if error.Some? then ErrorResponse(id, error.value.code, error.value.message)
                                             else ResultResponse(id, result))
    {
      if error.Some? {
        Send(ErrorResponse(id, error.value.code, error.value.message));
      } else {
        Send(ResultResponse(id, result));
      }
    }

    method BuiltinCancelRequest(params: Option<Params>)
      requires Valid(View())
      modifies this
      ensures View() == AfterCancelRequest(old(View()), params)
    {
      if params.None? || params.value.requestId.None? || params.value.requestId.value.NullId? {
        return;
      }
      var id := params.value.requestId.value;
      if id in activeTasks {
        var t := activeTasks[id];
        activeTasks := activeTasks - {id};
        if !tasks[t].status.Ended? {
          tasks := tasks[t := tasks[t].(status := Running(true))];
        }
      }
    }

    method HandleExit()
      requires Valid(View())
      modifies this
      ensures View() == AfterExit(old(View()))
    {
      FailPendingFutures();
      CancelActiveTasks();
      assert forall f :: 0 <= f < |futures| && Num(f) in requestFutures ==> requestFutures[Num(f)] == f;
      assert futures == AfterExit(old(View())).futures;
      assert tasks == AfterExit(old(View())).tasks;
      requestFutures, activeTasks := map[], map[];
    }

    method FailPendingFutures()
      requires TableValid(View())
      modifies this`futures
      ensures |futures| == |old(futures)|
      ensures forall f :: 0 <= f < |futures| ==>
                futures[f] == if Num(f) in requestFutures && old(futures)[f].Pending?
                              then Failed(TransportClosed) else old(futures)[f]
    {
      var pending := requestFutures.Keys;
      while pending != {}
        invariant pending <= requestFutures.Keys && |futures| == |old(futures)|
        invariant forall f :: 0 <= f < |futures| ==>
                    futures[f] == if Num(f) in requestFutures.Keys - pending && old(futures)[f].Pending?
                                  then Failed(TransportClosed) else old(futures)[f]
        decreases pending
      {
        var id :| id in pending;
        if futures[requestFutures[id]].Pending? {
          Complete(requestFutures[id], Failed(TransportClosed));
        }
        pending := pending - {id};
      }
    }

    method CancelActiveTasks()
      requires ActiveValid(View())
      modifies this`tasks
      ensures |tasks| == |old(tasks)|
      ensures forall t :: 0 <= t < |tasks| ==>
                tasks[t] == if t in activeTasks.Values then old(tasks)[t].(status := Running(true)) else old(tasks)[t]
    {
      var active := activeTasks.Keys;
      while active != {}
        invariant active <= activeTasks.Keys && |tasks| == |old(tasks)|
        invariant forall t :: 0 <= t < |tasks| ==>
                    tasks[t] == if exists id <- activeTasks.Keys - active :: activeTasks[id] == t
                                then old(tasks)[t].(status := Running(true)) else old(tasks)[t]
        decreases active
      {
        var id :| id in active;
        var t := activeTasks[id];
        if !tasks[t].status.Ended? {
          tasks := tasks[t := tasks[t].(status := Running(true))];
        }
        active := active - {id};
      }
    }
  }
}
