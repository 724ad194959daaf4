/** The pending-request table of `ApiClient`, the client of the workspace manager. */
module WmClient {
  import opened Messages
  import opened Options

  /** A waiting future holds the whole response message; `request` looks into it afterwards. */
  datatype Reply = Waiting | WaitCancelled | Got(message: Msg) | ConnectionFailed

  /** `replies` holds the future of every request issued so far, under its request id. */
  datatype State = State(requestId: nat, pending: map<Id, nat>, replies: map<nat, Reply>)

  datatype Event =
    | Issue                      // `request`, up to its await
    | CancelWait(future: nat)    // the caller of `request` is cancelled
    | Arrive(message: Msg)       // the reader loop takes a message
    | LoopEnds                   // end of stream, lost connection, error or cancellation
    | Close

  const Init := State(0, map[], map[])

  function Fail(s: State): State {
    s.(replies := map f | f in s.replies ::
                    if f in s.pending.Values && s.replies[f].Waiting? then ConnectionFailed else s.replies[f],
       pending := map[])
  }

  predicate Enabled(s: State, e: Event) {
    e.CancelWait? ==> e.future in s.replies
  }

  function Step(s: State, e: Event): State
    requires Valid(s) && Enabled(s, e)
  {
    match e
    case Issue => 
      var id := s.requestId + 1;
      State(id, s.pending[Num(id) := id], s.replies[id := Waiting])
    case CancelWait(f) => if s.replies[f].Waiting? then s.(replies := s.replies[f := WaitCancelled]) else s
    case Arrive(m) =>
      if m.id.None? || m.id.value !in s.pending then s
      else
        var f := s.pending[m.id.value];
        var popped := s.(pending := s.pending - {m.id.value});
        if s.replies[f].Waiting? then popped.(replies := s.replies[f := Got(m)]) else popped
    case LoopEnds => Fail(s)
    case Close => Fail(s)
  }

  /** Ids count up from 1. An id in the table maps to its own future, which has no reply yet, every
      waiting future is in the table, and a message is only ever given to the future of its id. */
  ghost predicate Valid(s: State) {
    && (forall f: nat :: f in s.replies <==> 1 <= f <= s.requestId)
    && (forall id <- s.pending ::
          && id.Num? && 1 <= id.n <= s.requestId && s.pending[id] == id.n
          && (s.replies[s.pending[id]].Waiting? || s.replies[s.pending[id]].WaitCancelled?))
    && (forall f <- s.replies :: s.replies[f].Waiting? ==> Num(f) in s.pending)
    && (forall f <- s.replies :: s.replies[f].Got? ==> s.replies[f].message.id == Some(Num(f)))
  }

  ghost predicate Run(states: seq<State>, events: seq<Event>) {
    && |states| == |events| + 1
    && states[0] == Init
    && forall i :: 0 <= i < |events| ==> Follows(states, events, i)
  }

  ghost predicate Follows(states: seq<State>, events: seq<Event>, i: nat)
    requires i < |events| && |states| == |events| + 1
  {
    Valid(states[i]) && Enabled(states[i], events[i]) && states[i + 1] == Step(states[i], events[i])
  }

  lemma StepKeepsValid(s: State, e: Event)
    requires Valid(s) && Enabled(s, e)
    ensures Valid(Step(s, e))
  {
    match e
    case Issue => IssuingKeepsValid(s);
    case CancelWait(f) => CancellingKeepsValid(s, f);
    case Arrive(m) => ArrivalKeepsValid(s, m);
    case LoopEnds => FailingKeepsValid(s);
    case Close => FailingKeepsValid(s);
  }

  lemma IssuingKeepsValid(s: State)
    requires Valid(s)
    ensures Valid(Step(s, Issue))
  {
  }

  lemma CancellingKeepsValid(s: State, f: nat)
    requires Valid(s) && f in s.replies
    ensures Valid(Step(s, CancelWait(f)))
  {
  }

  lemma ArrivalKeepsValid(s: State, m: Msg)
    requires Valid(s)
    ensures Valid(Step(s, Arrive(m)))
  {
    assert forall f: nat :: Num(f) in s.pending ==> s.pending[Num(f)] == f;
  }

  lemma FailingKeepsValid(s: State)
    requires Valid(s)
    ensures Valid(Fail(s))
  {
    assert forall f: nat :: Num(f) in s.pending ==> s.pending[Num(f)] == f;
  }

  lemma {:induction false} RunKeepsValid(states: seq<State>, events: seq<Event>, i: nat)
    requires Run(states, events) && i < |states|
    ensures Valid(states[i])
  {
    if i > 0 {
      RunKeepsValid(states, events, i - 1);
      assert Follows(states, events, i - 1);
      StepKeepsValid(states[i - 1], events[i - 1]);
    }
  }

  /** `Valid` in `Run` only makes `Step` defined: no run is ever kept from going on by it. */
  lemma RunGoesOn(states: seq<State>, events: seq<Event>, e: Event)
    requires Run(states, events) && Enabled(states[|events|], e)
    ensures Valid(states[|events|]) && Run(states + [Step(states[|events|], e)], events + [e])
  {
    RunKeepsValid(states, events, |events|);
    var states', events' := states + [Step(states[|events|], e)], events + [e];
    forall i | 0 <= i < |events'| ensures Follows(states', events', i) {
      if i < |events| {
        assert Follows(states, events, i);
      }
    }
  }

  /** A reply is never replaced; it is the message with the request's own id, the loss of the
      connection, or the caller's own cancellation. */
  lemma {:induction false} ReplyIsFinal(states: seq<State>, events: seq<Event>, i: nat, j: nat, f: nat)
    requires Run(states, events) && i <= j < |states|
    requires f in states[i].replies && !states[i].replies[f].Waiting?
    ensures f in states[j].replies && states[j].replies[f] == states[i].replies[f]
    ensures states[j].replies[f].Got? ==> states[j].replies[f].message.id == Some(Num(f))
  {
    RunKeepsValid(states, events, j);
    if i < j {
      ReplyIsFinal(states, events, i, j - 1, f);
      assert Follows(states, events, j - 1);
    }
  }

  /** When the reader loop ends, and again when the client is closed, every request issued so far is
      done and the table is empty. A request issued between the two waits until the close. */
  lemma LoopEndFailsEveryWaiter(states: seq<State>, events: seq<Event>, i: nat)
    requires Run(states, events) && i < |events| && (events[i].LoopEnds? || events[i].Close?)
    ensures var s, s' := states[i], states[i + 1];
            && s'.pending == map[] && s'.requestId == s.requestId
            && forall f: nat :: 1 <= f <= s.requestId ==>
                 && f in s.replies && f in s'.replies
                 && s'.replies[f] == if s.replies[f].Waiting? then ConnectionFailed else s.replies[f]
  {
    RunKeepsValid(states, events, i);
    assert Follows(states, events, i);
    var s := states[i];
    forall f | f in s.replies && s.replies[f].Waiting?
      ensures f in s.pending.Values
    {
      assert s.pending[Num(f)] == f;
    }
  }

  /** A response completes the request it names, whatever else is waiting, and nothing more. */
  lemma ResponseReachesItsWaiter(s: State, f: nat, m: Msg)
    requires Valid(s) && f in s.replies && s.replies[f].Waiting? && m.id == Some(Num(f))
    ensures Step(s, Arrive(m)) == State(s.requestId, s.pending - {Num(f)}, s.replies[f := Got(m)])
    ensures Step(Step(s, Arrive(m)), Arrive(m)) == Step(s, Arrive(m))
  {
    assert s.pending[Num(f)] == f;
  }

  /** The caller of a waiting request stops waiting, and nothing else changes. */
  lemma CancellingEndsTheWait(s: State, f: nat)
    requires Valid(s) && f in s.replies
    ensures var s' := Step(s, CancelWait(f));
            && s'.pending == s.pending && s'.requestId == s.requestId && s'.replies.Keys == s.replies.Keys
            && forall g <- s.replies ::
                 s'.replies[g] == if g == f && s.replies[g] == Waiting then WaitCancelled else s.replies[g]
  {
  }

  /** A request issued gets the next number and waits. */
  lemma IssuingWaits(s: State)
    requires Valid(s)
    ensures var s', f := Step(s, Issue), s.requestId + 1;
            s' == State(f, s.pending[Num(f) := f], s.replies[f := Waiting])
  {
  }

  /** What ends a wait with this reply. */
  predicate Ends(e: Event, f: nat, r: Reply) {
    match r
    case Waiting => false
    case Got(m) => e == Arrive(m) && m.id == Some(Num(f))
    case WaitCancelled => e == CancelWait(f)
    case ConnectionFailed => e == LoopEnds || e == Close
  }

  /** Every reply came by such an event, while the request was waiting. */
  lemma {:induction false} ReplyHasCause(states: seq<State>, events: seq<Event>, i: nat, f: nat) returns (j: nat)
    requires Run(states, events) && i < |states| && f in states[i].replies && states[i].replies[f] != Waiting
    ensures j < i && f in states[j].replies && states[j].replies[f] == Waiting && Ends(events[j], f, states[i].replies[f])
  {
    assert i > 0;
    j := i - 1;
    assert Follows(states, events, j);
    if f in states[j].replies && states[j].replies[f] != Waiting {
      ReplyIsFinal(states, events, j, i, f);
      j := ReplyHasCause(states, events, j, f);
    }
  }

  class ApiClient {
    var requestId: nat
    var pending: map<Id, nat>
    var replies: map<nat, Reply>   // the event loop's futures

    function View(): State
      reads this
    {
      State(requestId, pending, replies)
    }

    constructor ()
      ensures View() == Init && Valid(View())
    {
      requestId, pending, replies := 0, map[], map[];
    }

    method Complete(f: nat, reply: Reply)
      requires f in replies && replies[f].Waiting?
      modifies this`replies
      ensures replies == old(replies)[f := reply]
    {
      replies := replies[f := reply];
    }

    /** `request` up to its await; the message is written to the stream. */
    method Request(name: string, params: Option<Params>) returns (message: Msg, f: nat)
      requires Valid(View())
      modifies this
      ensures View() == Step(old(View()), Issue)
      ensures f == requestId && message == Msg(Some(Num(requestId)), Some(name), params, None, None)
    {
      requestId := requestId + 1;
      f := requestId;
      replies := replies[f := Waiting];
      pending := pending[Num(requestId) := f];
      message := Messages.Request(Num(requestId), name, params);
    }

    /** The rest of `request`, once its wait is over with a message: an error is raised as it is, and one that is
        not well-formed fails; a response without either is null. */
    method Answer(m: Msg) returns (o: Outcome)
      ensures forall code, message :: m.error == Some(RpcError(code, message)) ==>
                o == Failed(RemoteError(RpcError(code, message)))
      ensures m.error == Some(Malformed) ==> o == Failed(InvalidResponse)
      ensures m.error == None ==> o == Value(if m.result.Some? then m.result.value else "null")
    {
      if m.error.Some? {
        return Failed(if m.error.value.RpcError? then RemoteError(m.error.value) else InvalidResponse);
      }
      return Value(if m.result.Some? then m.result.value else "null");
    }

    /** One turn of the reader loop. The branch for a future that is done but not cancelled is never
        taken. */
    method Dispatch(m: Msg)
      requires Valid(View())
      modifies this
      ensures View() == Step(old(View()), Arrive(m))
    {
      if m.id.Some? && m.id.value in pending {
        var f := pending[m.id.value];
        pending := pending - {m.id.value};
        if !replies[f].WaitCancelled? {
          Complete(f, Got(m));
        }
      }
    }

    /** The end of the reader loop; `close` repeats it. */
    method FailPending()
      requires Valid(View())
      modifies this
      ensures View() == Fail(old(View()))
    {
      var left := pending.Keys;
      while left != {}
        modifies this`replies
        invariant left <= pending.Keys && replies.Keys == old(replies).Keys
        invariant forall f <- replies ::
                    replies[f] == if Num(f) in pending.Keys - left && old(replies)[f].Waiting?
                                  then ConnectionFailed else old(replies)[f]
        decreases left
      {
        var id :| id in left;
        if replies[pending[id]].Waiting? {
          Complete(pending[id], ConnectionFailed);
        }
        left := left - {id};
      }
      assert replies == Fail(old(View())).replies by {
        assert forall f: nat :: Num(f) in pending ==> pending[Num(f)] == f;
      }
      pending := map[];
    }
  }
}
