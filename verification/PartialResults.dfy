/** The throttled sender of partial results. */
module PartialResults {
  import opened Options

  datatype Token = Num(n: int) | Text(s: string)

  type Formats = seq<string>

  datatype Entry<+V> = Entry(token: Token, value: V)

  /** What happened at the boundary: a value was scheduled, or the sender was called with one. */
  datatype Item<+V> =
    | Put(token: Token, value: V, formats: Option<Formats>)
    | Sent(token: Token, value: V, formats: Option<Formats>)

  /** `Dead` is a task that ended by an exception while the field still refers to it. */
  datatype Timer = NoTimer | Waiting(since: nat) | Dead

  /** `pending` is the dictionary in insertion order, `now` the clock in milliseconds, `fires` the times
      at which the timer sent. */
  datatype State<+V> = State(pending: seq<Entry<V>>, formats: map<Token, Formats>, timer: Timer, now: nat,
                             log: seq<Item<V>>, fires: seq<nat>)

  datatype Event<+V> =
    | Schedule(token: Token, value: V, formats: Option<Formats>)
    | SendNow(raisesAt: Option<nat>)   // the sender raises at its call number `raisesAt`, if that comes
    | Fire(raisesAt: Option<nat>)
    | Tick(ms: nat)

  // ----- the sender's steps ---------------------------------------------------------------------------

  function IndexOf<V>(pending: seq<Entry<V>>, token: Token): (i: nat)
    ensures i <= |pending| && (i < |pending| ==> pending[i].token == token)
    ensures forall j :: 0 <= j < i ==> pending[j].token != token
  {
    if pending == [] || pending[0].token == token then 0 else 1 + IndexOf(pending[1..], token)
  }

  function Merged<V>(update: (V, V) -> V, pending: seq<Entry<V>>, token: Token, value: V): seq<Entry<V>> {
    var i := IndexOf(pending, token);
    if i == |pending| then pending + [Entry(token, value)]
    else pending[i := Entry(token, update(pending[i].value, value))]
  }

  function AfterSchedule<V>(update: (V, V) -> V, s: State<V>, token: Token, value: V,
                            formats: Option<Formats>): State<V> {
    s.(pending := Merged(update, s.pending, token, value),
       formats := if formats.Some? then s.formats[token := formats.value] else s.formats,
       timer := if s.timer.NoTimer? then Waiting(s.now) else s.timer,
       log := s.log + [Put(token, value, formats)])
  }

  function FormatsOf(formats: map<Token, Formats>, token: Token): Option<Formats> {
    if token in formats then Some(formats[token]) else None
  }

  /** `popitem` takes the youngest entry. */
  function AfterCall<V>(s: State<V>): State<V>
    requires s.pending != []
  {
    var e := s.pending[|s.pending| - 1];
    s.(pending := s.pending[..|s.pending| - 1],
       formats := s.formats - {e.token},
       log := s.log + [Sent(e.token, e.value, FormatsOf(s.formats, e.token))])
  }

  function Less(raisesAt: Option<nat>): Option<nat> {
    if raisesAt.Some? && raisesAt.value > 0 then Some(raisesAt.value - 1) else None
  }

  /** `_send_all`: empty the dictionary, or stop where the sender raises. */
  function AfterSendAll<V>(s: State<V>, raisesAt: Option<nat>): (r: State<V>)
    ensures r.timer == s.timer && r.now == s.now && r.fires == s.fires
    decreases |s.pending|
  {
    if s.pending == [] then s
    else if raisesAt == Some(0) then AfterCall(s)
    else AfterSendAll(AfterCall(s), Less(raisesAt))
  }

  predicate Raises<V>(s: State<V>, raisesAt: Option<nat>) {
    raisesAt.Some? && raisesAt.value < |s.pending|
  }

  function Step<V>(update: (V, V) -> V, s: State<V>, e: Event<V>): State<V> {
    match e
    case Schedule(token, value, formats) => AfterSchedule(update, s, token, value, formats)
    case SendNow(raisesAt) => AfterSendAll(s.(timer := NoTimer), raisesAt)
    case Fire(raisesAt) =>
      AfterSendAll(s, raisesAt).(timer := if Raises(s, raisesAt) then Dead else NoTimer, fires := s.fires + [s.now])
    case Tick(ms) => s.(now := s.now + ms)
  }

  /** The timer fires when its sleep is over. */
  predicate Enabled<V>(wait: nat, s: State<V>, e: Event<V>) {
    e.Fire? ==> s.timer.Waiting? && s.now >= s.timer.since + wait
  }

  function Init<V>(): State<V> {
    State([], map[], NoTimer, 0, [], [])
  }

  ghost predicate Run<V>(update: (V, V) -> V, wait: nat, states: seq<State<V>>, events: seq<Event<V>>) {
    && |states| == |events| + 1 && states[0] == Init()
    && forall i :: 0 <= i < |events| ==> Follows(update, wait, states, events, i)
  }

  ghost predicate Follows<V>(update: (V, V) -> V, wait: nat, states: seq<State<V>>, events: seq<Event<V>>, i: nat)
    requires i < |events| && |states| == |events| + 1
  {
    Enabled(wait, states[i], events[i]) && states[i + 1] == Step(update, states[i], events[i])
  }

  // ----- what the log should say ------------------------------------------------------------------------

  datatype Out<+V> = Out(value: V, formats: Option<Formats>)

  /** What is owed for a token: the values scheduled since the last call for it, merged in order, with
      the last formats given. */
  function Owed<V>(update: (V, V) -> V, log: seq<Item<V>>, token: Token): Option<Out<V>> {
    if log == [] then None
    else
      var before, item := Owed(update, log[..|log| - 1], token), log[|log| - 1];
      if item.token != token then before
      else if item.Sent? then None
      else if before.None? then Some(Out(item.value, item.formats))
      else Some(Out(update(before.value.value, item.value),
                    if item.formats.Some? then item.formats else before.value.formats))
  }

  /** Every call hands over exactly what was owed. */
  ghost predicate Faithful<V>(update: (V, V) -> V, log: seq<Item<V>>) {
    forall i :: 0 <= i < |log| && log[i].Sent? ==>
      Owed(update, log[..i], log[i].token) == Some(Out(log[i].value, log[i].formats))
  }

  function Lookup<V>(s: State<V>, token: Token): Option<Out<V>> {
    var i := IndexOf(s.pending, token);
    if i == |s.pending| then None else Some(Out(s.pending[i].value, FormatsOf(s.formats, token)))
  }

  predicate Distinct<V>(pending: seq<Entry<V>>) {
    forall i, j :: 0 <= i < j < |pending| ==> pending[i].token != pending[j].token
  }

  /** The dictionaries hold what is owed, and formats only for tokens that are pending. */
  ghost predicate TablesValid<V>(update: (V, V) -> V, s: State<V>) {
    && Distinct(s.pending)
    && (forall token :: Lookup(s, token) == Owed(update, s.log, token))
    && (forall token <- s.formats :: IndexOf(s.pending, token) < |s.pending|)
    && Faithful(update, s.log)
  }

  /** The timer's sends so far are at least `wait` apart, and the timer that is waiting was started after
      the last of them. */
  predicate FiresApart<V>(wait: nat, s: State<V>) {
    && (s.timer.Waiting? ==> s.timer.since <= s.now)
    && (forall i, j :: 0 <= i < j < |s.fires| ==> s.fires[i] + wait <= s.fires[j])
    && (s.fires != [] ==> s.fires[|s.fires| - 1] <= s.now)
    && (s.fires != [] && s.timer.Waiting? ==> s.fires[|s.fires| - 1] <= s.timer.since)
  }

  /** Pending work has a timer that will send it. */
  predicate Alive<V>(s: State<V>) {
    !s.timer.Dead? && (s.pending != [] ==> s.timer.Waiting?)
  }

  lemma IndexIs<V>(pending: seq<Entry<V>>, token: Token, i: nat)
    requires Distinct(pending) && i < |pending| && pending[i].token == token
    ensures IndexOf(pending, token) == i
  {
  }

  lemma FaithfulMore<V>(update: (V, V) -> V, log: seq<Item<V>>, item: Item<V>)
    requires Faithful(update, log)
    requires item.Sent? ==> Owed(update, log, item.token) == Some(Out(item.value, item.formats))
    ensures Faithful(update, log + [item])
  {
    var log' := log + [item];
    forall i | 0 <= i < |log'| && log'[i].Sent?
      ensures Owed(update, log'[..i], log'[i].token) == Some(Out(log'[i].value, log'[i].formats))
    {
      assert log'[..i] == log[..i];
      assert log[..|log|] == log;
    }
  }

  lemma OwedMore<V>(update: (V, V) -> V, log: seq<Item<V>>, item: Item<V>, token: Token)
    ensures token != item.token ==> Owed(update, log + [item], token) == Owed(update, log, token)
    ensures item.Sent? ==> Owed(update, log + [item], item.token) == None
  {
    assert (log + [item])[..|log|] == log;
  }

  /** Merging a value in moves no other token and adds at most its own. */
  lemma MergedIndex<V>(update: (V, V) -> V, pending: seq<Entry<V>>, token: Token, value: V, t: Token)
    requires Distinct(pending)
    ensures var merged, i := Merged(update, pending, token, value), IndexOf(pending, t);
            && Distinct(merged)
            && IndexOf(merged, t) == (if t != token && i == |pending| then |merged| else i)
            && (t != token && i < |pending| ==> merged[i] == pending[i])
            && (t == token ==> i < |merged|)
            && (t == token ==> merged[i].value == if i == |pending| then value else update(pending[i].value, value))
  {
    var merged, i := Merged(update, pending, token, value), IndexOf(pending, t);
    if i < |merged| && merged[i].token == t {
      IndexIs(merged, t, i);
    }
  }

  lemma OwedAfterPut<V>(update: (V, V) -> V, log: seq<Item<V>>, token: Token, value: V, formats: Option<Formats>)
    ensures var before := Owed(update, log, token);
            Owed(update, log + [Put(token, value, formats)], token) ==
            if before.None? then Some(Out(value, formats))
            else Some(Out(update(before.value.value, value), if formats.Some? then formats else before.value.formats))
  {
    assert (log + [Put(token, value, formats)])[..|log|] == log;
  }

  lemma SchedulingLookup<V>(update: (V, V) -> V, s: State<V>, token: Token, value: V, formats: Option<Formats>, t: Token)
    requires TablesValid(update, s)
    ensures var s' := AfterSchedule(update, s, token, value, formats); Lookup(s', t) == Owed(update, s'.log, t)
  {
    assert Lookup(s, t) == Owed(update, s.log, t);
    MergedIndex(update, s.pending, token, value, t);
    OwedMore(update, s.log, Put(token, value, formats), t);
    OwedAfterPut(update, s.log, token, value, formats);
  }

  lemma SchedulingKeepsTables<V>(update: (V, V) -> V, s: State<V>, token: Token, value: V, formats: Option<Formats>)
    requires TablesValid(update, s)
    ensures TablesValid(update, AfterSchedule(update, s, token, value, formats))
  {
    var s' := AfterSchedule(update, s, token, value, formats);
    forall t ensures Lookup(s', t) == Owed(update, s'.log, t) {
      SchedulingLookup(update, s, token, value, formats, t);
    }
    FaithfulMore(update, s.log, Put(token, value, formats));
    MergedIndex(update, s.pending, token, value, token);
    forall t | t in s'.formats ensures IndexOf(s'.pending, t) < |s'.pending| {
      MergedIndex(update, s.pending, token, value, t);
    }
  }

  lemma CallLookup<V>(update: (V, V) -> V, s: State<V>, t: Token)
    requires TablesValid(update, s) && s.pending != []
    ensures Lookup(AfterCall(s), t) == Owed(update, AfterCall(s).log, t)
  {
    var s', n := AfterCall(s), |s.pending| - 1;
    var e := s.pending[n];
    assert Lookup(s, t) == Owed(update, s.log, t);
    OwedMore(update, s.log, s'.log[|s.log|], t);
    IndexIs(s.pending, e.token, n);
    var i := IndexOf(s.pending, t);
    if i < n {
      IndexIs(s'.pending, t, i);
    }
  }

  lemma CallKeepsTables<V>(update: (V, V) -> V, s: State<V>)
    requires TablesValid(update, s) && s.pending != []
    ensures TablesValid(update, AfterCall(s))
  {
    var s', n := AfterCall(s), |s.pending| - 1;
    forall t ensures Lookup(s', t) == Owed(update, s'.log, t) {
      CallLookup(update, s, t);
    }
    IndexIs(s.pending, s.pending[n].token, n);
    assert Lookup(s, s.pending[n].token) == Owed(update, s.log, s.pending[n].token);
    FaithfulMore(update, s.log, s'.log[|s.log|]);
    forall t | t in s'.formats ensures IndexOf(s'.pending, t) < |s'.pending| {
      IndexIs(s'.pending, t, IndexOf(s.pending, t));
    }
  }

  lemma {:induction false} SendingKeepsTables<V>(update: (V, V) -> V, s: State<V>, raisesAt: Option<nat>)
    requires TablesValid(update, s)
    ensures TablesValid(update, AfterSendAll(s, raisesAt))
    decreases |s.pending|
  {
    if s.pending != [] {
      CallKeepsTables(update, s);
      if raisesAt != Some(0) {
        SendingKeepsTables(update, AfterCall(s), Less(raisesAt));
      }
    }
  }

  lemma {:induction false} SendingEmpties<V>(s: State<V>, raisesAt: Option<nat>)
    ensures !Raises(s, raisesAt) ==> AfterSendAll(s, raisesAt).pending == []
    ensures Raises(s, raisesAt) ==> |AfterSendAll(s, raisesAt).pending| == |s.pending| - raisesAt.value - 1
    decreases |s.pending|
  {
    if s.pending != [] && raisesAt != Some(0) {
      SendingEmpties(AfterCall(s), Less(raisesAt));
    }
  }

  // ----- results about every run ------------------------------------------------------------------------

  lemma StepKeepsTables<V>(update: (V, V) -> V, s: State<V>, e: Event<V>)
    requires TablesValid(update, s)
    ensures TablesValid(update, Step(update, s, e))
  {
    match e
    case Schedule(token, value, formats) => SchedulingKeepsTables(update, s, token, value, formats);
    case SendNow(raisesAt) =>
      SameTables(update, s, s.(timer := NoTimer));
      SendingKeepsTables(update, s.(timer := NoTimer), raisesAt);
    case Fire(raisesAt) =>
      SendingKeepsTables(update, s, raisesAt);
      SameTables(update, AfterSendAll(s, raisesAt), Step(update, s, e));
    case Tick(ms) => SameTables(update, s, Step(update, s, e));
  }

  lemma SameTables<V>(update: (V, V) -> V, s: State<V>, s': State<V>)
    requires TablesValid(update, s) && s'.pending == s.pending && s'.formats == s.formats && s'.log == s.log
    ensures TablesValid(update, s')
  {
    forall t ensures Lookup(s', t) == Owed(update, s'.log, t) {
      assert Lookup(s', t) == Lookup(s, t);
    }
  }

  lemma {:induction false} RunKeepsTables<V>(update: (V, V) -> V, wait: nat,
      states: seq<State<V>>, events: seq<Event<V>>, i: nat)
    requires Run(update, wait, states, events) && i < |states|
    ensures TablesValid(update, states[i])
  {
    if i > 0 {
      RunKeepsTables(update, wait, states, events, i - 1);
      assert Follows(update, wait, states, events, i - 1);
      StepKeepsTables(update, states[i - 1], events[i - 1]);
    }
  }

  /** Each call of the sender hands over what was owed for its token, and the dictionary holds what still
      is: in every run, whenever the sender raises. */
  lemma CallsAreExact<V>(update: (V, V) -> V, wait: nat,
      states: seq<State<V>>, events: seq<Event<V>>, i: nat, token: Token)
    requires Run(update, wait, states, events) && i < |states|
    ensures Faithful(update, states[i].log) && Lookup(states[i], token) == Owed(update, states[i].log, token)
  {
    RunKeepsTables(update, wait, states, events, i);
  }

  // ----- conservation -----------------------------------------------------------------------------------

  ghost predicate Associative<V(!new)>(update: (V, V) -> V) {
    forall a, b, c :: update(update(a, b), c) == update(a, update(b, c))
  }

  function Join<V>(update: (V, V) -> V, a: Option<V>, b: Option<V>): Option<V> {
    if a.None? then b else if b.None? then a else Some(update(a.value, b.value))
  }

  /** All values scheduled for a token, merged in order. */
  function AllPut<V>(update: (V, V) -> V, log: seq<Item<V>>, token: Token): Option<V> {
    if log == [] then None
    else
      var before, item := AllPut(update, log[..|log| - 1], token), log[|log| - 1];
      if item.Put? && item.token == token then Join(update, before, Some(item.value)) else before
  }

  /** All values handed to the sender for a token, merged in order. */
  function AllSent<V>(update: (V, V) -> V, log: seq<Item<V>>, token: Token): Option<V> {
    if log == [] then None
    else
      var before, item := AllSent(update, log[..|log| - 1], token), log[|log| - 1];
      if item.Sent? && item.token == token then Join(update, before, Some(item.value)) else before
  }

  function ValueOf<V>(o: Option<Out<V>>): Option<V> {
    if o.None? then None else Some(o.value.value)
  }

  lemma FaithfulLess<V>(update: (V, V) -> V, log: seq<Item<V>>)
    requires Faithful(update, log) && log != []
    ensures Faithful(update, log[..|log| - 1])
  {
    var init := log[..|log| - 1];
    assert forall i :: 0 <= i < |init| ==> init[..i] == log[..i] && init[i] == log[i];
  }

  lemma JoinAssociative<V(!new)>(update: (V, V) -> V, a: Option<V>, b: Option<V>, c: Option<V>)
    requires Associative(update)
    ensures Join(update, Join(update, a, b), c) == Join(update, a, Join(update, b, c))
  {
  }

  lemma {:induction false} NothingIsLost<V(!new)>(update: (V, V) -> V, log: seq<Item<V>>, token: Token)
    requires Associative(update) && Faithful(update, log)
    ensures AllPut(update, log, token) == Join(update, AllSent(update, log, token), ValueOf(Owed(update, log, token)))
  {
    if log != [] {
      var init, item := log[..|log| - 1], log[|log| - 1];
      FaithfulLess(update, log);
      NothingIsLost(update, init, token);
      if item.token == token {
        var owed := ValueOf(Owed(update, init, token));
        if item.Put? {
          JoinAssociative(update, AllSent(update, init, token), owed, Some(item.value));
          assert ValueOf(Owed(update, log, token)) == Join(update, owed, Some(item.value));
        } else {
          assert Owed(update, init, token) == Some(Out(item.value, item.formats));
        }
      }
    }
  }

  /** For each token, the values sent so far merged with the pending one are all values scheduled. */
  lemma RunConserves<V(!new)>(update: (V, V) -> V, wait: nat,
      states: seq<State<V>>, events: seq<Event<V>>, i: nat, token: Token)
    requires Associative(update) && Run(update, wait, states, events) && i < |states|
    ensures AllPut(update, states[i].log, token) ==
            Join(update, AllSent(update, states[i].log, token), ValueOf(Lookup(states[i], token)))
  {
    CallsAreExact(update, wait, states, events, i, token);
    NothingIsLost(update, states[i].log, token);
  }

  /** After `send_all_immediately`, everything scheduled was sent. */
  lemma SendNowCompletes<V(!new)>(update: (V, V) -> V, wait: nat,
      states: seq<State<V>>, events: seq<Event<V>>, i: nat, token: Token)
    requires Associative(update) && Run(update, wait, states, events) && i < |events|
    requires events[i].SendNow? && !Raises(states[i], events[i].raisesAt)
    ensures AllPut(update, states[i + 1].log, token) == AllSent(update, states[i + 1].log, token)
    ensures states[i + 1].timer.NoTimer?
  {
    RunConserves(update, wait, states, events, i + 1, token);
    assert Follows(update, wait, states, events, i);
    SendingEmpties(states[i].(timer := NoTimer), events[i].raisesAt);
  }

  // ----- the timer --------------------------------------------------------------------------------------

  lemma {:induction false} TimerSendsApart<V>(update: (V, V) -> V, wait: nat,
      states: seq<State<V>>, events: seq<Event<V>>, i: nat)
    requires Run(update, wait, states, events) && i < |states|
    ensures FiresApart(wait, states[i])
  {
    if i > 0 {
      TimerSendsApart(update, wait, states, events, i - 1);
      assert Follows(update, wait, states, events, i - 1);
    }
  }

  /** The sender raises, and that costs the pending work its timer. */
  predicate Stalls<V>(s: State<V>, e: Event<V>) {
    || (e.Fire? && Raises(s, e.raisesAt))
    || (e.SendNow? && Raises(s, e.raisesAt) && e.raisesAt.value + 1 < |s.pending|)
  }

  lemma StepKeepsAliveIff<V>(update: (V, V) -> V, wait: nat, s: State<V>, e: Event<V>)
    requires Alive(s) && Enabled(wait, s, e)
    ensures Alive(Step(update, s, e)) <==> !Stalls(s, e)
  {
    match e
    case SendNow(raisesAt) => SendingEmpties(s.(timer := NoTimer), raisesAt);
    case Fire(raisesAt) => SendingEmpties(s, raisesAt);
    case _ =>
  }

  /** With a sender that does not raise, pending work always has a timer. */
  lemma {:induction false} PendingHasTimer<V>(update: (V, V) -> V, wait: nat,
      states: seq<State<V>>, events: seq<Event<V>>, i: nat)
    requires Run(update, wait, states, events) && i < |states|
    requires forall j :: 0 <= j < i ==> !Stalls(states[j], events[j])
    ensures Alive(states[i])
  {
    if i > 0 {
      PendingHasTimer(update, wait, states, events, i - 1);
      assert Follows(update, wait, states, events, i - 1);
      StepKeepsAliveIff(update, wait, states[i - 1], events[i - 1]);
    }
  }

  /** Once the sender raised under the timer, nothing is sent any more until `send_all_immediately`. */
  lemma {:induction false} RaisingTimerSilences<V>(update: (V, V) -> V, wait: nat,
      states: seq<State<V>>, events: seq<Event<V>>, i: nat, k: nat, token: Token)
    requires Run(update, wait, states, events) && i <= k < |states| && states[i].timer.Dead?
    requires forall j :: i <= j < k ==> !events[j].SendNow?
    ensures states[k].timer.Dead? && AllSent(update, states[k].log, token) == AllSent(update, states[i].log, token)
  {
    if i < k {
      RaisingTimerSilences(update, wait, states, events, i, k - 1, token);
      assert Follows(update, wait, states, events, k - 1);
      var s, e := states[k - 1], events[k - 1];
      if e.Schedule? {
        assert states[k].log[..|s.log|] == s.log;
      }
    }
  }

  // ----- the log, the clock and the timer, by the events --------------------------------------------------

  /** What was scheduled, in order. */
  function Scheduled<V>(events: seq<Event<V>>): seq<Item<V>> {
    if events == [] then []
    else
      var e := events[|events| - 1];
      Scheduled(events[..|events| - 1]) + (if e.Schedule? then [Put(e.token, e.value, e.formats)] else [])
  }

  function Puts<V>(log: seq<Item<V>>): seq<Item<V>> {
    if log == [] then []
    else Puts(log[..|log| - 1]) + (if log[|log| - 1].Put? then [log[|log| - 1]] else [])
  }

  function Elapsed<V>(events: seq<Event<V>>): nat {
    if events == [] then 0
    else Elapsed(events[..|events| - 1]) + (if events[|events| - 1].Tick? then events[|events| - 1].ms else 0)
  }

  /** The times of the timer's sends. */
  function FireTimes<V>(events: seq<Event<V>>): seq<nat> {
    if events == [] then []
    else
      var init := events[..|events| - 1];
      FireTimes(init) + (if events[|events| - 1].Fire? then [Elapsed(init)] else [])
  }

  lemma PutsMore<V>(log: seq<Item<V>>, item: Item<V>)
    ensures Puts(log + [item]) == Puts(log) + (if item.Put? then [item] else [])
  {
    assert (log + [item])[..|log|] == log;
  }

  lemma {:induction false} SendingPutsNothing<V>(s: State<V>, raisesAt: Option<nat>)
    ensures Puts(AfterSendAll(s, raisesAt).log) == Puts(s.log)
    decreases |s.pending|
  {
    if s.pending != [] {
      PutsMore(s.log, AfterCall(s).log[|s.log|]);
      if raisesAt != Some(0) {
        SendingPutsNothing(AfterCall(s), Less(raisesAt));
      }
    }
  }

  lemma StepIsLogged<V>(update: (V, V) -> V, s: State<V>, e: Event<V>)
    ensures Puts(Step(update, s, e).log) ==
            Puts(s.log) + (if e.Schedule? then [Put(e.token, e.value, e.formats)] else [])
    ensures Step(update, s, e).now == s.now + (if e.Tick? then e.ms else 0)
    ensures Step(update, s, e).fires == s.fires + (if e.Fire? then [s.now] else [])
  {
    match e
    case Schedule(token, value, formats) => PutsMore(s.log, Put(token, value, formats));
    case SendNow(raisesAt) => SendingPutsNothing(s.(timer := NoTimer), raisesAt);
    case Fire(raisesAt) => SendingPutsNothing(s, raisesAt);
    case Tick(_) =>
  }

  /** In every run the log has what was scheduled, in order and with its formats, and the clock and the times are
      those of the events. */
  lemma {:induction false} RunIsLogged<V>(update: (V, V) -> V, wait: nat,
      states: seq<State<V>>, events: seq<Event<V>>, i: nat)
    requires Run(update, wait, states, events) && i < |states|
    ensures Puts(states[i].log) == Scheduled(events[..i])
    ensures states[i].now == Elapsed(events[..i]) && states[i].fires == FireTimes(events[..i])
  {
    if i > 0 {
      RunIsLogged(update, wait, states, events, i - 1);
      assert Follows(update, wait, states, events, i - 1);
      StepIsLogged(update, states[i - 1], events[i - 1]);
      assert events[..i][..i - 1] == events[..i - 1];
    }
  }

  /** So two sends of the timer are never closer than the waiting time. */
  lemma FiresAreApart<V>(update: (V, V) -> V, wait: nat,
      states: seq<State<V>>, events: seq<Event<V>>, i: nat, j: nat)
    requires Run(update, wait, states, events) && i < j < |events| && events[i].Fire? && events[j].Fire?
    ensures Elapsed(events[..i]) + wait <= Elapsed(events[..j])
  {
    TimerSendsApart(update, wait, states, events, j + 1);
    RunIsLogged(update, wait, states, events, j + 1);
    var k := FireIsListed(events, i, j);
    assert events[..j + 1][..j] == events[..j];
    assert states[j + 1].fires == FireTimes(events[..j]) + [Elapsed(events[..j])];
    assert states[j + 1].fires[k] == Elapsed(events[..i]);
  }

  lemma {:induction false} FireIsListed<V>(events: seq<Event<V>>, i: nat, j: nat) returns (k: nat)
    requires i < j <= |events| && events[i].Fire?
    ensures k < |FireTimes(events[..j])| && FireTimes(events[..j])[k] == Elapsed(events[..i])
  {
    assert events[..j][..j - 1] == events[..j - 1];
    if i < j - 1 {
      k := FireIsListed(events, i, j - 1);
    } else {
      k := |FireTimes(events[..j])| - 1;
    }
  }

  // ----- the sender itself --------------------------------------------------------------------------------

  class PartialResultSender<V> {
    const update: (V, V) -> V
    var pending: seq<Entry<V>>
    var formats: map<Token, Formats>
    var timer: Timer
    // the clock, the calls of the sender among the values scheduled, and the times of the timer's sends
    var now: nat
    var log: seq<Item<V>>
    var fires: seq<nat>

    ghost function View(): State<V>
      reads this
    {
      State(pending, formats, timer, now, log, fires)
    }

    constructor (update: (V, V) -> V)
      ensures View() == Init() && this.update == update
    {
      this.update := update;
      pending, formats, timer, now, log, fires := [], map[], NoTimer, 0, [], [];
    }

    method Find(token: Token) returns (i: nat)
      ensures i == IndexOf(pending, token)
    {
      i := 0;
      while i < |pending| && pending[i].token != token
        invariant i <= |pending| && forall j :: 0 <= j < i ==> pending[j].token != token
      {
        i := i + 1;
      }
      ghost var first := IndexOf(pending, token);
    }

    method ScheduleSending(token: Token, value: V, resultFormats: Option<Formats>)
      modifies this
      ensures View() == AfterSchedule(update, old(View()), token, value, resultFormats)
    {
      var i := Find(token);
      log := log + [Put(token, value, resultFormats)];
      if i == |pending| {
        pending := pending + [Entry(token, value)];
      } else {
        pending := pending[i := Entry(token, update(pending[i].value, value))];
      }
      if resultFormats.Some? {
        formats := formats[token := resultFormats.value];
      }
      if timer.NoTimer? {
        timer := Waiting(now);
      }
    }

    /** Whether and when the sender raises is up to it; `raised` passes the exception on. */
    method SendAll(raisesAt: Option<nat>) returns (raised: bool)
      modifies `pending, `formats, `log
      ensures View() == AfterSendAll(old(View()), raisesAt)
      ensures raised <==> Raises(old(View()), raisesAt)
    {
      ghost var s, left := View(), raisesAt;
      var calls := 0;
      while |pending| > 0
        invariant AfterSendAll(View(), left) == AfterSendAll(s, raisesAt)
        invariant Raises(View(), left) == Raises(s, raisesAt)
        invariant left == (if raisesAt.Some? && raisesAt.value >= calls then Some(raisesAt.value - calls) else None)
        decreases |pending|
      {
        var e := pending[|pending| - 1];
        pending := pending[..|pending| - 1];
        var resultFormats := FormatsOf(formats, e.token);
        formats := formats - {e.token};
        log := log + [Sent(e.token, e.value, resultFormats)];
        if raisesAt == Some(calls) {
          return true;
        }
        calls := calls + 1;
        left := Less(left);
      }
      return false;
    }

    method SendAllImmediately(raisesAt: Option<nat>) returns (raised: bool)
      modifies this
      ensures View() == Step(update, old(View()), SendNow(raisesAt))
      ensures raised <==> Raises(old(View()), raisesAt)
    {
      if !timer.NoTimer? {
        timer := NoTimer;
      }
      raised := SendAll(raisesAt);
    }

    /** `_wait_and_send` once its sleep is over. An exception ends the timer and leaves the field set. */
    method WaitAndSend(raisesAt: Option<nat>) returns (raised: bool)
      requires timer.Waiting?
      modifies this
      ensures View() == Step(update, old(View()), Fire(raisesAt))
      ensures raised <==> Raises(old(View()), raisesAt)
    {
      fires := fires + [now];
      raised := SendAll(raisesAt);
      timer := if raised then Dead else NoTimer;
      SameButFires(old(View()), old(View()).(fires := old(fires) + [now]), raisesAt);
    }
  }

  lemma {:induction false} SameButFires<V>(s: State<V>, t: State<V>, raisesAt: Option<nat>)
    requires t == s.(fires := t.fires)
    ensures AfterSendAll(t, raisesAt) == AfterSendAll(s, raisesAt).(fires := t.fires)
    decreases |s.pending|
  {
    if s.pending != [] && raisesAt != Some(0) {
      SameButFires(AfterCall(s), AfterCall(t), Less(raisesAt));
    }
  }
}
