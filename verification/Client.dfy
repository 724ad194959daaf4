/** The client side of a JSON-RPC session: `JsonRpcClient`, asynchronous requests only. */
module Client {
  import opened Messages
  import opened Options

  /** What the client knows about methods, and the conversions it delegates: the result type of each
      registered method, the methods it implements itself, whether an incoming request fits its type,
      and how a response message is structured as a given result type. */
  datatype Env = Env(resultType: map<string, string>, impls: set<string>,
                     validRequest: Msg -> bool, structure: (string, Msg) -> Option<Json>)

  /** One `send_request`: its message, and where it stands in the log of everything sent. */
  datatype Sent = Sent(id: Id, name: string, params: Option<Params>, pos: nat)

  /** Future `f` belongs to `sent[f]`. `serving` are the incoming requests being handled. */
  datatype State = State(
    sent: seq<Sent>,
    futures: seq<Outcome>,
    asyncFutures: map<Id, nat>,
    expected: map<Id, string>,
    serving: seq<Msg>,
    out: seq<Msg>)

  datatype Event =
    | SendRequest(id: string, name: string, params: Option<Params>, serialisable: bool)
    | Notify(name: string, params: Option<Params>)
    | CancelFuture(future: nat)    // the timer of wait_for fires, or the caller is cancelled
    | HandleMessage(message: Msg)
    | EndTask(task: nat, end: HandlerEnd)
    | ServerStops

  const Init := State([], [], map[], map[], [], [])

  function RequestOf(r: Sent): Msg {
    Request(r.id, r.name, r.params)
  }

  function Enqueue(s: State, m: Msg): State {
    s.(out := s.out + [m])
  }

  function AfterSendRequest(env: Env, s: State, e: Event): State
    requires e.SendRequest?
  {
    if e.name !in env.resultType || !e.serialisable then s
    else
      var r := Sent(Str(e.id), e.name, e.params, |s.out|);
      Enqueue(s.(sent := s.sent + [r],
                 futures := s.futures + [Pending],
                 asyncFutures := s.asyncFutures[r.id := |s.futures|],
                 expected := s.expected[r.id := env.resultType[e.name]]),
              RequestOf(r))
  }

  /** Completing a future that is no longer pending is refused or skipped. */
  function Settle(s: State, f: nat, outcome: Outcome): State
    requires f < |s.futures|
  {
    if s.futures[f].Pending? then s.(futures := s.futures[f := outcome]) else s
  }

  function Pop(s: State, id: Id): State {
    s.(asyncFutures := s.asyncFutures - {id})
  }

  /** What a response message means to a caller that expects `resultType`. */
  function OutcomeOf(env: Env, resultType: string, m: Msg): Outcome {
    if m.error.Some? then
      if m.error.value.RpcError? then Failed(RemoteError(m.error.value)) else Failed(InvalidResponse)
    else
      match env.structure(resultType, m)
      case Some(v) => Value(v)
      case None => Failed(InvalidResponse)
  }

  /** Whatever happens here, no request of ours is added or moved. */
  predicate AppendsNoRequest(s: State, s': State) {
    && s'.sent == s.sent
    && |s.out| <= |s'.out| <= |s.out| + 1
    && s'.out[..|s.out|] == s.out
    && (|s'.out| > |s.out| ==> s'.out[|s.out|].id.None? || s'.out[|s.out|].name.None?)
  }

  function AfterMessage(env: Env, s: State, m: Msg): (s': State)
    requires Valid(env, s)
    ensures AppendsNoRequest(s, s')
  {
    if m.id.None? || m.id.value.NullId? then s
    else if m.error.Some? || m.name.None? then
      if m.id.value !in s.asyncFutures then s
      else Settle(Pop(s, m.id.value), s.asyncFutures[m.id.value], OutcomeOf(env, s.expected[m.id.value], m))
    else if m.name.value !in env.resultType then
      Enqueue(s, ErrorResponse(m.id.value, METHOD_NOT_FOUND, "Method not found"))
    else if !env.validRequest(m) then
      Enqueue(s, ErrorResponse(m.id.value, INVALID_PARAMS, "Invalid params"))
    else if m.name.value !in env.impls then
      Enqueue(s, ErrorResponse(m.id.value, METHOD_NOT_FOUND, "Method not found"))
    else s.(serving := s.serving + [m])
  }

  /** The end of a task serving an incoming request. A cancelled one sends nothing. */
  function AfterEndTask(s: State, t: nat, end: HandlerEnd): (s': State)
    requires t < |s.serving| && s.serving[t].id.Some?
    ensures AppendsNoRequest(s, s')
  {
    var id := s.serving[t].id.value;
    var ended := s.(serving := s.serving[..t] + s.serving[t + 1..]);
    match end
    case Returned(v) => Enqueue(ended, ResultResponse(id, v))
    case RaisedHandlerError(code, message) => Enqueue(ended, ErrorResponse(id, code, message))
    case ReturnedUnserialisable(message) => Enqueue(ended, ErrorResponse(id, INTERNAL_ERROR, message))
    case RaisedOther(message) => Enqueue(ended, ErrorResponse(id, INTERNAL_ERROR, message))
    case _ => ended
  }

  function AfterStop(s: State): State {
    s.(futures := Stopped(s.futures, s.asyncFutures.Values))
  }

  /** The futures of `which` that are pending fail. */
  function Stopped(futures: seq<Outcome>, which: set<nat>): (r: seq<Outcome>)
    ensures |r| == |futures|
    ensures forall f: nat :: f < |r| ==>
              r[f] == if f in which && futures[f].Pending? then Failed(ServerStopped) else futures[f]
  {
    seq(|futures|, f requires 0 <= f < |futures| =>
      if f in which && futures[f].Pending? then Failed(ServerStopped) else futures[f])
  }

  lemma StoppingOneMore(futures: seq<Outcome>, which: set<nat>, f: nat)
    requires f < |futures|
    ensures Stopped(futures, which + {f}) ==
            if Stopped(futures, which)[f].Pending? then Stopped(futures, which)[f := Failed(ServerStopped)]
            else Stopped(futures, which)
  {
  }

  predicate Enabled(s: State, e: Event) {
    match e
    case SendRequest(id, _, _, _) => forall r <- s.sent :: r.id != Str(id)  // a fresh uuid
    case CancelFuture(f) => f < |s.futures|
    case EndTask(t, _) => t < |s.serving|
    case _ => true
  }

  function Step(env: Env, s: State, e: Event): State
    requires Valid(env, s) && Enabled(s, e)
  {
    match e
    case SendRequest(_, _, _, _) => AfterSendRequest(env, s, e)
    case Notify(name, params) => Enqueue(s, Notification(name, params))
    case CancelFuture(f) => Settle(s, f, Cancelled)
    case HandleMessage(m) => AfterMessage(env, s, m)
    case EndTask(t, end) => AfterEndTask(s, t, end)
    case ServerStops => AfterStop(s)
  }

  /** Ids are never reused, the table maps an id to its own future, a pending future is in the table,
      and the log holds each request exactly once, in the order of sending. */
  predicate Valid(env: Env, s: State) {
    TableValid(env, s) && LogValid(s) && forall m <- s.serving :: m.id.Some?
  }

  predicate TableValid(env: Env, s: State) {
    && |s.sent| == |s.futures|
    && IdsValid(s.sent)
    && (forall id <- s.asyncFutures ::
          && s.asyncFutures[id] < |s.sent|
          && s.sent[s.asyncFutures[id]].id == id
          && s.sent[s.asyncFutures[id]].name in env.resultType
          && id in s.expected
          && s.expected[id] == env.resultType[s.sent[s.asyncFutures[id]].name])
    && (forall f :: 0 <= f < |s.futures| && s.futures[f].Pending? ==> s.sent[f].id in s.asyncFutures)
  }

  predicate IdsValid(sent: seq<Sent>) {
    && (forall f, g :: 0 <= f < g < |sent| ==> sent[f].id != sent[g].id)
    && (forall f :: 0 <= f < |sent| ==> sent[f].id.Str?)
  }

  lemma AddingKeepsIds(sent: seq<Sent>, r: Sent)
    requires IdsValid(sent) && r.id.Str? && forall q <- sent :: q.id != r.id
    ensures IdsValid(sent + [r])
  {
  }

  predicate LogValid(s: State) {
    && (forall f, g :: 0 <= f < g < |s.sent| ==> s.sent[f].pos < s.sent[g].pos)
    && (forall f :: 0 <= f < |s.sent| ==> s.sent[f].pos < |s.out| && s.out[s.sent[f].pos] == RequestOf(s.sent[f]))
    && (forall p :: 0 <= p < |s.out| && s.out[p].id.Some? && s.out[p].name.Some? ==>
          exists f :: 0 <= f < |s.sent| && s.sent[f].pos == p)
  }

  lemma SendingKeepsTable(env: Env, s: State, e: Event)
    requires TableValid(env, s) && Enabled(s, e) && e.SendRequest?
    ensures TableValid(env, AfterSendRequest(env, s, e))
  {
    if e.name in env.resultType && e.serialisable {
      AddingKeepsTable(env, s, Sent(Str(e.id), e.name, e.params, |s.out|));
      FrameKeepsTable(env, WithRequest(env, s, Sent(Str(e.id), e.name, e.params, |s.out|)), AfterSendRequest(env, s, e));
    }
  }

  function WithRequest(env: Env, s: State, r: Sent): State
    requires r.name in env.resultType
  {
    s.(sent := s.sent + [r],
       futures := s.futures + [Pending],
       asyncFutures := s.asyncFutures[r.id := |s.futures|],
       expected := s.expected[r.id := env.resultType[r.name]])
  }

  lemma AddingKeepsTable(env: Env, s: State, r: Sent)
    requires TableValid(env, s) && r.name in env.resultType && r.id.Str?
    requires forall q <- s.sent :: q.id != r.id
    ensures TableValid(env, WithRequest(env, s, r))
  {
    var s' := WithRequest(env, s, r);
    assert forall f :: 0 <= f < |s.sent| ==>
             s.sent[f] in s.sent && s'.sent[f] == s.sent[f] && s'.futures[f] == s.futures[f];
    assert r.id !in s.asyncFutures;
    AddingKeepsIds(s.sent, r);
  }

  lemma SettlingKeepsTable(env: Env, s: State, id: Id, outcome: Outcome)
    requires TableValid(env, s) && id in s.asyncFutures && !outcome.Pending?
    ensures TableValid(env, Settle(Pop(s, id), s.asyncFutures[id], outcome))
  {
  }

  /** Changes that leave the requests and their futures alone. */
  lemma FrameKeepsTable(env: Env, s: State, s': State)
    requires TableValid(env, s) && s'.(serving := s.serving, out := s.out) == s
    ensures TableValid(env, s')
  {
  }

  lemma HandlingKeepsTable(env: Env, s: State, m: Msg)
    requires Valid(env, s)
    ensures TableValid(env, AfterMessage(env, s, m))
  {
    if m.id.Some? && !m.id.value.NullId? && (m.error.Some? || m.name.None?) {
      if m.id.value in s.asyncFutures {
        SettlingKeepsTable(env, s, m.id.value, OutcomeOf(env, s.expected[m.id.value], m));
      }
    } else {
      FrameKeepsTable(env, s, AfterMessage(env, s, m));
    }
  }

  lemma StoppingKeepsTable(env: Env, s: State)
    requires TableValid(env, s)
    ensures TableValid(env, AfterStop(s))
  {
  }

  lemma StepKeepsTable(env: Env, s: State, e: Event)
    requires Valid(env, s) && Enabled(s, e)
    ensures TableValid(env, Step(env, s, e))
  {
    match e
    case SendRequest(_, _, _, _) => SendingKeepsTable(env, s, e);
    case HandleMessage(m) => HandlingKeepsTable(env, s, m);
    case Notify(_, _) => FrameKeepsTable(env, s, Step(env, s, e));
    case EndTask(_, _) => FrameKeepsTable(env, s, Step(env, s, e));
    case CancelFuture(_) =>
    case ServerStops => StoppingKeepsTable(env, s);
  }

  lemma AppendingKeepsLog(s: State, s': State)
    requires LogValid(s) && AppendsNoRequest(s, s')
    ensures LogValid(s')
  {
    assert forall p :: 0 <= p < |s.out| ==> s'.out[p] == s'.out[..|s.out|][p];
    forall p | 0 <= p < |s'.out| && s'.out[p].id.Some? && s'.out[p].name.Some?
      ensures exists f :: 0 <= f < |s'.sent| && s'.sent[f].pos == p
    {
      assert s'.out[p] == s.out[p];
    }
  }

  lemma SendingKeepsLog(env: Env, s: State, e: Event)
    requires Valid(env, s) && Enabled(s, e) && e.SendRequest?
    ensures LogValid(AfterSendRequest(env, s, e))
  {
    var s' := AfterSendRequest(env, s, e);
    if s' != s {
      forall p | 0 <= p < |s'.out| && s'.out[p].id.Some? && s'.out[p].name.Some?
        ensures exists f :: 0 <= f < |s'.sent| && s'.sent[f].pos == p
      {
        if p < |s.out| {
          assert s'.out[p] == s.out[p];
          var f :| 0 <= f < |s.sent| && s.sent[f].pos == p;
          assert s'.sent[f].pos == p;
        } else {
          assert s'.sent[|s.sent|].pos == p;
        }
      }
    }
  }

  lemma StepKeepsLog(env: Env, s: State, e: Event)
    requires Valid(env, s) && Enabled(s, e)
    ensures LogValid(Step(env, s, e))
  {
    if e.SendRequest? {
      SendingKeepsLog(env, s, e);
    } else {
      LogGrowsByOne(env, s, e);
      AppendingKeepsLog(s, Step(env, s, e));
    }
  }

  /** Only `SendRequest` puts a request into the log. */
  lemma LogGrowsByOne(env: Env, s: State, e: Event)
    requires Valid(env, s) && Enabled(s, e) && !e.SendRequest?
    ensures AppendsNoRequest(s, Step(env, s, e))
  {
  }

  lemma StepKeepsValid(env: Env, s: State, e: Event)
    requires Valid(env, s) && Enabled(s, e)
    ensures Valid(env, Step(env, s, e))
  {
    StepKeepsTable(env, s, e);
    StepKeepsLog(env, s, e);
  }

  /** A response to request `f` settles future `f` with what the response means for `f`'s method. */
  lemma ResponseSettles(env: Env, s: State, f: nat, m: Msg)
    requires Valid(env, s) && f < |s.sent| && s.sent[f].id in s.asyncFutures
    requires m.id == Some(s.sent[f].id) && m.name.None?
    ensures s.sent[f].name in env.resultType
    ensures AfterMessage(env, s, m) ==
            Settle(Pop(s, s.sent[f].id), f, OutcomeOf(env, env.resultType[s.sent[f].name], m))
  {
    assert s.asyncFutures[s.sent[f].id] == f;
  }

  /** A message under a method name changes no future and no table entry. */
  lemma IncomingChangesNoFuture(env: Env, s: State, m: Msg)
    requires Valid(env, s) && m.name.Some? && m.error.None?
    ensures AfterMessage(env, s, m).(out := s.out, serving := s.serving) == s
  {
  }

  lemma MessageKeepsOutcome(env: Env, s: State, m: Msg, f: nat)
    requires Valid(env, s) && f < |s.futures| && !s.futures[f].Pending?
    ensures f < |AfterMessage(env, s, m).futures| && AfterMessage(env, s, m).futures[f] == s.futures[f]
  {
  }

  /** No step changes the outcome of a future that is done, be it by a late response, a timeout or
      the server stopping. */
  lemma OutcomeNeverReplaced(env: Env, s: State, e: Event, f: nat)
    requires Valid(env, s) && Enabled(s, e)
    requires f < |s.futures| && !s.futures[f].Pending?
    ensures f < |Step(env, s, e).futures| && Step(env, s, e).futures[f] == s.futures[f]
  {
    match e
    case HandleMessage(m) => MessageKeepsOutcome(env, s, m, f);
    case EndTask(t, end) =>
    case _ =>
  }

  // ----- the client itself ----------------------------------------------------------------------

  class JsonRpcClient {
    const env: Env
    var asyncFutures: map<Id, nat>
    var expected: map<Id, string>
    var serving: seq<Msg>
    // the requests made so far with their futures, and everything handed to the writer
    var sent: seq<Sent>
    var futures: seq<Outcome>
    var out: seq<Msg>

    ghost function View(): State
      reads this
    {
      State(sent, futures, asyncFutures, expected, serving, out)
    }

    constructor (env: Env)
      ensures View() == Init && this.env == env
    {
      this.env := env;
      asyncFutures, expected, serving := map[], map[], [];
      sent, futures, out := [], [], [];
    }

    method SendData(m: Msg)
      modifies this`out
      ensures View() == Enqueue(old(View()), m)
    {
      out := out + [m];
    }

    /** `set_result` and `set_exception` refuse a future that is done; a cancelled one is skipped. */
    method Complete(f: nat, outcome: Outcome)
      requires f < |futures|
      modifies this`futures
      ensures View() == Settle(old(View()), f, outcome)
    {
      if futures[f].Pending? {
        futures := futures[f := outcome];
      }
    }

    /** `send_request` up to its await. It raises before anything is changed when the method is not
        registered or the message cannot be dumped. */
    method SendRequest(id: string, name: string, params: Option<Params>, serialisable: bool) returns (raised: bool)
      requires Valid(env, View()) && Enabled(View(), Event.SendRequest(id, name, params, serialisable))
      modifies this
      ensures View() == AfterSendRequest(env, old(View()), Event.SendRequest(id, name, params, serialisable))
      ensures raised <==> View() == old(View())
    {
      if name !in env.resultType || !serialisable {
        return true;
      }
      var r := Sent(Str(id), name, params, |out|);
      sent := sent + [r];
      asyncFutures := asyncFutures[r.id := |futures|];
      futures := futures + [Pending];
      expected := expected[r.id := env.resultType[name]];
      SendData(Request(r.id, name, params));
      return false;
    }

    method HandleMessage(m: Msg)
      requires Valid(env, View())
      modifies this
      ensures View() == AfterMessage(env, old(View()), m)
    {
      if m.id.None? || m.id.value.NullId? {
        return;
      }
      var id := m.id.value;
      if m.error.Some? {
        if id !in asyncFutures {
          return;
        }
        var f := asyncFutures[id];
        asyncFutures := asyncFutures - {id};
        Complete(f, Failed(if m.error.value.RpcError? then RemoteError(m.error.value) else InvalidResponse));
      } else if m.name.Some? {
        HandleRequest(m);
      } else {
        if id !in asyncFutures {
          return;
        }
        var f := asyncFutures[id];
        asyncFutures := asyncFutures - {id};
        match env.structure(expected[id], m) {
          case None => Complete(f, Failed(InvalidResponse));
          case Some(v) => Complete(f, Value(v));
        }
      }
    }

    method HandleRequest(m: Msg)
      requires Valid(env, View()) && m.id.Some? && !m.id.value.NullId? && m.name.Some? && m.error.None?
      modifies this
      ensures View() == AfterMessage(env, old(View()), m)
    {
      if m.name.value !in env.resultType {
        SendData(ErrorResponse(m.id.value, METHOD_NOT_FOUND, "Method not found"));
      } else if !env.validRequest(m) {
        SendData(ErrorResponse(m.id.value, INVALID_PARAMS, "Invalid params"));
      } else if m.name.value !in env.impls {
        SendData(ErrorResponse(m.id.value, METHOD_NOT_FOUND, "Method not found"));
      } else {
        serving := serving + [m];
      }
    }

    /** The end of `run_feature_impl`. */
    method EndTask(t: nat, end: HandlerEnd)
      requires Valid(env, View()) && t < |serving|
      modifies this
      ensures View() == AfterEndTask(old(View()), t, end)
    {
      assert serving[t] in serving;
      var id := serving[t].id.value;
      match end {
        case Returned(value) => SendData(ResultResponse(id, value));
        case RaisedHandlerError(code, message) => SendData(ErrorResponse(id, code, message));
        case ReturnedUnserialisable(message) => SendData(ErrorResponse(id, INTERNAL_ERROR, message));
        case RaisedOther(message) => SendData(ErrorResponse(id, INTERNAL_ERROR, message));
        case _ =>
      }
      serving := serving[..t] + serving[t + 1..];
    }

    /** The stop handler fails what is pending and leaves the table as it is. */
    method ServerProcessStopped()
      requires Valid(env, View())
      modifies this
      ensures View() == AfterStop(old(View()))
    {
      FailTable();
    }

    method FailTable()
      requires forall id <- asyncFutures :: asyncFutures[id] < |futures|
      modifies this`futures
      ensures futures == Stopped(old(futures), asyncFutures.Values)
    {
      var left := asyncFutures.Keys;
      ghost var seen: set<nat> := {};
      while left != {}
        modifies this`futures
        invariant left <= asyncFutures.Keys
        invariant forall id <- asyncFutures :: id in left || asyncFutures[id] in seen
        invariant seen <= asyncFutures.Values
        invariant futures == Stopped(old(futures), seen)
        decreases left
      {
        var id :| id in left;
        StoppingOneMore(old(futures), seen, asyncFutures[id]);
        FailIfPending(asyncFutures[id]);
        seen := seen + {asyncFutures[id]};
        left := left - {id};
      }
      assert seen == asyncFutures.Values;
    }

    method FailIfPending(f: nat)
      requires f < |futures|
      modifies this`futures
      ensures futures == if old(futures)[f].Pending? then old(futures)[f := Failed(ServerStopped)] else old(futures)
    {
      if futures[f].Pending? {
        futures := futures[f := Failed(ServerStopped)];
      }
    }
  }
}
