/** The explorer's hand-over of the store between its own connection and the ingester. */
module ServeState {
  import opened Options

  const ATTEMPTS := 20

  /** Why a request ends: `Failed` is the ingest's own exception or that of connecting again. */
  datatype Reply = Served | Unavailable | Conflict | BadRequest | Ingested | Failed

  /** Where a request's thread stands; an ingest's coroutine is counted with the thread that waits for it.
      From `ReadHolding` to `ReadReleasing`, from `Marking` to `CloseReleasing` and from `Connecting` to
      `OpenReleasing` it holds `db_lock`; from `Submitted` on, `ingest_lock`. */
  datatype Pc =
    | Idle
    | ReadWaiting | ReadHolding | Querying(conn: nat) | ReadReleasing(reply: Reply)
    | Submitted(bad: bool) | CloseWaiting | Marking | Closing | Clearing | CloseReleasing
    | Fanout | Fallback(attempt: nat) | Sleeping(attempt: nat)
    | OpenWaiting(result: Reply) | Connecting(result: Reply) | Unmarking(result: Reply) | OpenReleasing(result: Reply)
    | Finishing(result: Reply)

  /** `_ServeState` with the serving connections that are open and the number opened so far. */
  datatype Serving = Serving(connection: Option<nat>, refreshing: bool, open: set<nat>, issued: nat)

  /** `writers` counts the connections that the ingester has open. */
  datatype State = State(serving: Serving, dbLock: Option<nat>, ingestLock: Option<nat>, pcs: seq<Pc>, writers: nat,
                         queries: seq<nat>, replies: seq<(nat, Reply)>)

  /** How an ingest action ends. */
  datatype Attempt = Success | LockConflict | OtherError

  datatype Event =
    | AskRead(t: nat)
    | AskIngest(t: nat, bad: bool)
    | AcquireDb(t: nat)
    | ActionEnds(t: nat, outcome: Attempt)
    | Go(t: nat)                 // the next statement of a thread that waits for nothing
    | WriterOpens(t: nat)        // the ingester connects on behalf of `t`'s action
    | WriterGone                 // perhaps after the action ended

  predicate InDbSection(pc: Pc) {
    || pc.ReadHolding? || pc.Querying? || pc.ReadReleasing?
    || pc.Marking? || pc.Closing? || pc.Clearing? || pc.CloseReleasing?
    || pc.Connecting? || pc.Unmarking? || pc.OpenReleasing?
  }

  predicate InIngest(pc: Pc) {
    !(pc.Idle? || pc.ReadWaiting? || pc.ReadHolding? || pc.Querying? || pc.ReadReleasing?)
  }

  predicate WaitsForDb(pc: Pc) {
    pc.ReadWaiting? || pc.CloseWaiting? || pc.OpenWaiting?
  }

  // ----- the serving connection -------------------------------------------------------------------------

  function Mark(v: Serving): Serving {
    v.(refreshing := true)
  }

  function Close(v: Serving): Serving {
    v.(open := if v.connection.Some? then v.open - {v.connection.value} else v.open)
  }

  function Clear(v: Serving): Serving {
    v.(connection := None)
  }

  function Connected(v: Serving): Serving {
    v.(connection := Some(v.issued), open := v.open + {v.issued}, issued := v.issued + 1)
  }

  function Unmark(v: Serving): Serving {
    v.(refreshing := false)
  }

  // ----- steps ------------------------------------------------------------------------------------------

  function At(s: State, t: nat, pc: Pc): State
    requires t < |s.pcs|
  {
    s.(pcs := s.pcs[t := pc])
  }

  function Answer(s: State, t: nat, reply: Reply): State {
    s.(replies := s.replies + [(t, reply)])
  }

  /** `_require_connection`. */
  function Require(connection: Option<nat>, refreshing: bool): Option<nat> {
    if refreshing then None else connection
  }

  function AfterAttempt(k: nat, outcome: Attempt): Pc {
    match outcome
    case Success => OpenWaiting(Ingested)
    case LockConflict => if k == ATTEMPTS then OpenWaiting(Failed) else Sleeping(k)
    case OtherError => OpenWaiting(Failed)
  }

  function AfterAction(pc: Pc, outcome: Attempt): Pc
    requires pc.Fanout? || pc.Fallback?
  {
    if pc.Fallback? then AfterAttempt(pc.attempt, outcome)
    else
      match outcome
      case Success => OpenWaiting(Ingested)
      case LockConflict => Fallback(1)
      case OtherError => OpenWaiting(Failed)
  }

  function Acquired(pc: Pc): Pc
    requires WaitsForDb(pc)
  {
    match pc
    case ReadWaiting => ReadHolding
    case CloseWaiting => Marking
    case OpenWaiting(result) => Connecting(result)
  }

  /** The store has one writer at a time: connecting raises while the ingester has it open. */
  function Connect(s: State, t: nat, result: Reply): State
    requires t < |s.pcs|
  {
    if s.writers > 0 then At(s, t, OpenReleasing(Failed))
    else At(s.(serving := Connected(s.serving)), t, Unmarking(result))
  }

  predicate CanGo(pc: Pc) {
    !(pc.Idle? || WaitsForDb(pc) || pc.Fanout? || pc.Fallback?)
  }

  function AfterGo(s: State, t: nat): State
    requires t < |s.pcs| && CanGo(s.pcs[t])
  {
    match s.pcs[t]
    case ReadHolding =>
      var c := Require(s.serving.connection, s.serving.refreshing);
      At(s, t, if c.Some? then Querying(c.value) else ReadReleasing(Unavailable))
    case Querying(c) => At(s.(queries := s.queries + [c]), t, ReadReleasing(Served))
    case ReadReleasing(reply) => At(Answer(s.(dbLock := None), t, reply), t, Idle)
    case Submitted(bad) => At(s, t, if bad then Finishing(BadRequest) else CloseWaiting)
    case Marking => At(s.(serving := Mark(s.serving)), t, Closing)
    case Closing => At(s.(serving := Close(s.serving)), t, Clearing)
    case Clearing => At(s.(serving := Clear(s.serving)), t, CloseReleasing)
    case CloseReleasing => At(s.(dbLock := None), t, Fanout)
    case Sleeping(k) => At(s, t, Fallback(k + 1))
    case Connecting(result) => Connect(s, t, result)
    case Unmarking(result) => At(s.(serving := Unmark(s.serving)), t, OpenReleasing(result))
    case OpenReleasing(result) => At(s.(dbLock := None), t, Finishing(result))
    case Finishing(result) => At(Answer(s.(ingestLock := None), t, result), t, Idle)
  }

  predicate Enabled(s: State, e: Event) {
    match e
    case AskRead(t) => t < |s.pcs| && s.pcs[t].Idle?
    case AskIngest(t, _) => t < |s.pcs| && s.pcs[t].Idle?
    case AcquireDb(t) => t < |s.pcs| && WaitsForDb(s.pcs[t]) && s.dbLock.None?
    case ActionEnds(t, _) => t < |s.pcs| && (s.pcs[t].Fanout? || s.pcs[t].Fallback?)
    case Go(t) => t < |s.pcs| && CanGo(s.pcs[t])
    case WriterOpens(t) => t < |s.pcs| && (s.pcs[t].Fanout? || s.pcs[t].Fallback?)
    case WriterGone => s.writers > 0
  }

  function Step(s: State, e: Event): State
    requires Enabled(s, e)
  {
    match e
    case AskRead(t) => At(s, t, ReadWaiting)
    case AskIngest(t, bad) =>
      if s.ingestLock.Some? then Answer(s, t, Conflict) else At(s.(ingestLock := Some(t)), t, Submitted(bad))
    case AcquireDb(t) => At(s.(dbLock := Some(t)), t, Acquired(s.pcs[t]))
    case ActionEnds(t, outcome) => At(s, t, AfterAction(s.pcs[t], outcome))
    case Go(t) => AfterGo(s, t)
    case WriterOpens(_) => s.(writers := s.writers + 1)
    case WriterGone => s.(writers := s.writers - 1)
  }

  /** The server starts with its connection open, for any number of threads. */
  function Init(threads: nat): State {
    State(Serving(Some(0), false, {0}, 1), None, None, seq(threads, _ => Idle), 0, [], [])
  }

  ghost predicate Run(states: seq<State>, events: seq<Event>) {
    && |states| == |events| + 1 && states[0] == Init(|states[0].pcs|)
    && forall i :: 0 <= i < |events| ==> Follows(states, events, i)
  }

  predicate Follows(states: seq<State>, events: seq<Event>, i: nat)
    requires i < |events| && |states| == |events| + 1
  {
    Enabled(states[i], events[i]) && states[i + 1] == Step(states[i], events[i])
  }

  // ----- what every step keeps --------------------------------------------------------------------------

  predicate LocksValid(s: State) {
    && (forall t :: 0 <= t < |s.pcs| ==> (InDbSection(s.pcs[t]) <==> s.dbLock == Some(t)))
    && (forall t :: 0 <= t < |s.pcs| ==> (InIngest(s.pcs[t]) <==> s.ingestLock == Some(t)))
    && (s.dbLock.Some? ==> s.dbLock.value < |s.pcs|)
    && (s.ingestLock.Some? ==> s.ingestLock.value < |s.pcs|)
  }

  /** `refreshing` says that there is no connection. */
  predicate Settled(s: State) {
    s.serving.refreshing <==> s.serving.connection.None?
  }

  /** What holds while an ingest stands at `pc`. */
  predicate AtIngest(s: State, pc: Pc) {
    match pc
    case Closing => s.serving.refreshing
    case Clearing => s.serving.refreshing
    case CloseReleasing => s.serving.refreshing && s.serving.connection.None?
    case Fanout => s.serving.refreshing && s.serving.connection.None?
    case Fallback(k) => s.serving.refreshing && s.serving.connection.None? && 1 <= k <= ATTEMPTS
    case Sleeping(k) => s.serving.refreshing && s.serving.connection.None? && 1 <= k < ATTEMPTS
    case OpenWaiting(_) => s.serving.refreshing && s.serving.connection.None?
    case Connecting(_) => s.serving.refreshing && s.serving.connection.None?
    case Unmarking(_) => s.serving.refreshing && s.serving.connection.Some?
    case _ => Settled(s)
  }

  /** The pc of the ingest in flight. */
  function IngestPc(s: State): Pc
    requires LocksValid(s)
  {
    if s.ingestLock.Some? then s.pcs[s.ingestLock.value] else Idle
  }

  predicate StoreValid(s: State)
    requires LocksValid(s)
  {
    && AtIngest(s, IngestPc(s))
    && s.serving.open ==
       (if s.serving.connection.Some? && !IngestPc(s).Clearing? then {s.serving.connection.value} else {})
    && (s.serving.connection.Some? ==> s.serving.connection.value < s.serving.issued)
    && (s.writers > 0 ==> s.serving.connection.None?)
  }

  /** A query runs on the connection that is set. */
  predicate QueriesValid(s: State) {
    forall t :: 0 <= t < |s.pcs| && s.pcs[t].Querying? ==>
      s.serving.connection == Some(s.pcs[t].conn) && !s.serving.refreshing
  }

  predicate Valid(s: State) {
    LocksValid(s) && StoreValid(s) && QueriesValid(s)
  }

  /** One thread moves, and takes or gives back a lock only along with its own section. */
  predicate LockMoves(lock: Option<nat>, lock': Option<nat>, t: nat, inside: bool, inside': bool) {
    if inside == inside' then lock' == lock
    else if inside then lock == Some(t) && lock' == None
    else lock == None && lock' == Some(t)
  }

  predicate Moves(s: State, s': State, t: nat) {
    && t < |s.pcs| == |s'.pcs| && s'.pcs == s.pcs[t := s'.pcs[t]]
    && LockMoves(s.dbLock, s'.dbLock, t, InDbSection(s.pcs[t]), InDbSection(s'.pcs[t]))
    && LockMoves(s.ingestLock, s'.ingestLock, t, InIngest(s.pcs[t]), InIngest(s'.pcs[t]))
  }

  lemma MovingKeepsLocks(s: State, s': State, t: nat)
    requires LocksValid(s) && Moves(s, s', t)
    ensures LocksValid(s')
  {
    assert forall u :: 0 <= u < |s.pcs| && u != t ==> s'.pcs[u] == s.pcs[u];
  }

  lemma GoingMoves(s: State, t: nat)
    requires LocksValid(s) && Enabled(s, Go(t))
    ensures Moves(s, AfterGo(s, t), t)
  {
  }

  lemma StepMoves(s: State, e: Event)
    requires LocksValid(s) && Enabled(s, e) && !e.Go? && !e.WriterOpens? && !e.WriterGone?
    ensures Moves(s, Step(s, e), e.t)
  {
  }

  lemma StepKeepsLocks(s: State, e: Event)
    requires LocksValid(s) && Enabled(s, e)
    ensures LocksValid(Step(s, e))
  {
    if e.Go? {
      GoingMoves(s, e.t);
      MovingKeepsLocks(s, Step(s, e), e.t);
    } else if !e.WriterOpens? && !e.WriterGone? {
      StepMoves(s, e);
      MovingKeepsLocks(s, Step(s, e), e.t);
    }
  }

  /** A step of the ingest in flight. */
  lemma IngestStepKeepsStore(s: State, t: nat)
    requires LocksValid(s) && StoreValid(s) && Enabled(s, Go(t)) && InIngest(s.pcs[t])
    requires LocksValid(AfterGo(s, t))
    ensures StoreValid(AfterGo(s, t))
  {
    assert IngestPc(s) == s.pcs[t];
  }

  lemma OtherStepsKeepStore(s: State, e: Event)
    requires LocksValid(s) && StoreValid(s) && Enabled(s, e) && LocksValid(Step(s, e))
    requires e.Go? ==> !InIngest(s.pcs[e.t])
    ensures StoreValid(Step(s, e))
  {
  }

  /** While a query runs its thread has `db_lock`, so nobody changes the connection. */
  lemma StepKeepsQueries(s: State, e: Event)
    requires LocksValid(s) && QueriesValid(s) && Enabled(s, e)
    ensures QueriesValid(Step(s, e))
  {
    if e.Go? {
      GoingKeepsQueries(s, e.t);
    }
  }

  lemma GoingKeepsQueries(s: State, t: nat)
    requires LocksValid(s) && QueriesValid(s) && Enabled(s, Go(t))
    ensures QueriesValid(AfterGo(s, t))
  {
    assert InDbSection(s.pcs[t]) ==> s.dbLock == Some(t);
    forall u | 0 <= u < |s.pcs| && u != t && s.pcs[u].Querying? ensures s.dbLock == Some(u) {
    }
  }

  lemma StepKeepsValid(s: State, e: Event)
    requires Valid(s) && Enabled(s, e)
    ensures Valid(Step(s, e))
  {
    StepKeepsLocks(s, e);
    StepKeepsQueries(s, e);
    if e.Go? && InIngest(s.pcs[e.t]) {
      IngestStepKeepsStore(s, e.t);
    } else {
      OtherStepsKeepStore(s, e);
    }
  }

  // ----- results about every run ------------------------------------------------------------------------

  lemma {:induction false} RunKeepsValid(states: seq<State>, events: seq<Event>, i: nat)
    requires Run(states, events) && i < |states|
    ensures Valid(states[i])
  {
    if i > 0 {
      RunKeepsValid(states, events, i - 1);
      assert Follows(states, events, i - 1);
      StepKeepsValid(states[i - 1], events[i - 1]);
    }
  }

  /** Outside `db_lock`, `refreshing` holds exactly when there is no connection. */
  lemma RefreshingIffNoConnection(states: seq<State>, events: seq<Event>, i: nat)
    requires Run(states, events) && i < |states| && states[i].dbLock.None?
    ensures states[i].serving.refreshing <==> states[i].serving.connection.None?
  {
    RunKeepsValid(states, events, i);
    var s := states[i];
    if s.ingestLock.Some? {
      assert !InDbSection(s.pcs[s.ingestLock.value]);
    }
  }

  /** Every query runs on an open connection, the one that is set. */
  lemma QueriesRunOnOpenConnections(states: seq<State>, events: seq<Event>, i: nat, t: nat)
    requires Run(states, events) && i < |events| && events[i] == Go(t)
    requires t < |states[i].pcs| && states[i].pcs[t].Querying?
    ensures states[i].pcs[t].conn in states[i].serving.open
    ensures states[i].serving.connection == Some(states[i].pcs[t].conn)
  {
    RunKeepsValid(states, events, i);
    var s := states[i];
    assert Follows(states, events, i);
    assert s.dbLock == Some(t) && !InIngest(s.pcs[t]);
    if s.ingestLock.Some? {
      assert !InDbSection(s.pcs[s.ingestLock.value]);
    }
  }

  /** A read is turned away exactly while there is no connection. */
  lemma ReadsAreTurnedAwayIff(states: seq<State>, events: seq<Event>, i: nat, t: nat)
    requires Run(states, events) && i < |events| && events[i] == Go(t)
    requires t < |states[i].pcs| && states[i].pcs[t].ReadHolding?
    ensures t < |states[i + 1].pcs|
    ensures states[i + 1].pcs[t] == ReadReleasing(Unavailable) <==> states[i].serving.connection.None?
    ensures states[i].serving.connection.None? <==> states[i].serving.refreshing
  {
    RunKeepsValid(states, events, i);
    var s := states[i];
    assert Follows(states, events, i);
    assert s.dbLock == Some(t) && !InIngest(s.pcs[t]);
    if s.ingestLock.Some? {
      assert !InDbSection(s.pcs[s.ingestLock.value]);
    }
  }

  /** At most one ingest is in flight; a second request is refused exactly while there is one. */
  lemma OneIngestAtATime(states: seq<State>, events: seq<Event>, i: nat, t: nat, u: nat)
    requires Run(states, events) && i < |states| && t < |states[i].pcs| && u < |states[i].pcs|
    ensures InIngest(states[i].pcs[t]) && InIngest(states[i].pcs[u]) ==> t == u
    ensures i < |events| && events[i].AskIngest? && events[i].t == t ==>
              (states[i + 1].replies == states[i].replies + [(t, Conflict)] <==>
               exists v :: 0 <= v < |states[i].pcs| && InIngest(states[i].pcs[v]))
  {
    RunKeepsValid(states, events, i);
    var s := states[i];
    assert i < |events| ==> Follows(states, events, i);
    if s.ingestLock.Some? {
      assert InIngest(s.pcs[s.ingestLock.value]);
    }
  }

  /** The serving connection and the ingester's own are never open together, and at most one serves. */
  lemma NeverOpenTogether(states: seq<State>, events: seq<Event>, i: nat)
    requires Run(states, events) && i < |states|
    ensures states[i].serving.open == {} || states[i].writers == 0
    ensures |states[i].serving.open| <= 1
  {
    RunKeepsValid(states, events, i);
  }

  /** Whoever holds `db_lock` waits for nothing, so every other thread gets its turn. */
  lemma HolderCanGo(states: seq<State>, events: seq<Event>, i: nat)
    requires Run(states, events) && i < |states| && states[i].dbLock.Some?
    ensures Enabled(states[i], Go(states[i].dbLock.value))
  {
    RunKeepsValid(states, events, i);
    var s := states[i];
    assert InDbSection(s.pcs[s.dbLock.value]);
  }

  /** At the end of an ingest the store is served again exactly when no writer of the ingester was left. */
  lemma ServesAgainIff(states: seq<State>, events: seq<Event>, i: nat, t: nat)
    requires Run(states, events) && i + 2 < |states| && events[i] == Go(t) && events[i + 1] == Go(t)
    requires t < |states[i].pcs| && states[i].pcs[t].Connecting?
    ensures (!states[i + 2].serving.refreshing && states[i + 2].serving.connection.Some?) <==> states[i].writers == 0
  {
    RunKeepsValid(states, events, i);
    assert IngestPc(states[i]) == states[i].pcs[t];
    assert Follows(states, events, i) && Follows(states, events, i + 1);
  }

  // ----- the handler's own code -------------------------------------------------------------------------

  class ServeState {
    var connection: Option<nat>
    var refreshing: bool
    // the store's open connections that serve, and how many were opened
    var open: set<nat>
    var issued: nat

    function View(): Serving
      reads this
    {
      Serving(connection, refreshing, open, issued)
    }

    constructor ()
      ensures View() == Init(0).serving
    {
      connection, refreshing, open, issued := Some(0), false, {0}, 1;
    }

    method RequireConnection() returns (c: Option<nat>)
      ensures c == Require(connection, refreshing)
    {
      if refreshing {
        return None;
      }
      if connection.None? {
        return None;
      }
      return connection;
    }

    /** The first critical section of `_run_ingest`. */
    method GiveUpConnection()
      modifies this
      ensures View() == Clear(Close(Mark(old(View()))))
    {
      refreshing := true;
      if connection.Some? {
        open := open - {connection.value};
        connection := None;
      }
    }

    /** The last one; `available` says whether the store can be opened. */
    method Reconnect(available: bool) returns (ok: bool)
      modifies this
      ensures ok == available
      ensures View() == if available then Unmark(Connected(old(View()))) else old(View())
    {
      if !available {
        return false;
      }
      connection := Some(issued);
      open := open + {issued};
      issued := issued + 1;
      refreshing := false;
      return true;
    }
  }

  /** The local fallback: run the action again while the store is locked, twenty times at most. `tries`
      tells how each attempt ends. */
  method LocalFallback(tries: nat -> Attempt) returns (ok: bool, attempts: nat)
    ensures 1 <= attempts <= 20 && forall k :: 1 <= k < attempts ==> tries(k).LockConflict?
    ensures ok <==> tries(attempts).Success?
    ensures tries(attempts).LockConflict? ==> attempts == 20
    ensures forall k :: 1 <= k < attempts ==> AfterAttempt(k, tries(k)) == Sleeping(k)
    ensures AfterAttempt(attempts, tries(attempts)) == OpenWaiting(if ok then Ingested else Failed)
  {
    attempts := 1;
    while true
      invariant 1 <= attempts <= ATTEMPTS
      invariant forall k :: 1 <= k < attempts ==> AfterAttempt(k, tries(k)) == Sleeping(k)
      decreases ATTEMPTS - attempts
    {
      var outcome := tries(attempts);
      if outcome.Success? {
        return true, attempts;
      }
      if !outcome.LockConflict? || attempts == ATTEMPTS {
        return false, attempts;
      }
      attempts := attempts + 1;
    }
  }
}
