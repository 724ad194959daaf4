/** What the caches, the attempts and the services hold, told by the events that led there. */
module ServiceHistory {
  import opened Options
  import opened Sequences
  import opened Services
  import L = ServiceLeaks

  // ----- which handlers an action has -------------------------------------------------------------------

  predicate DistinctActions(cache: seq<Entry>) {
    forall i, j :: 0 <= i < j < |cache| ==> cache[i].action != cache[j].action
  }

  /** The cache has the handler under the action. */
  predicate IsListed(cache: seq<Entry>, action: string, h: nat) {
    exists i :: 0 <= i < |cache| && IsListedAt(cache, i, action, h)
  }

  predicate IsListedAt(cache: seq<Entry>, i: nat, action: string, h: nat)
    requires i < |cache|
  {
    cache[i].action == action && h in cache[i].handlers
  }

  lemma {:induction false} AddToIs(cache: seq<Entry>, action: string, h: nat)
    ensures var i := IndexOf(cache, action);
            AddTo(cache, action, h) ==
            if i == |cache| then cache + [Entry(action, [h])]
            else cache[i := Entry(action, cache[i].handlers + [h])]
  {
    if cache != [] && cache[0].action != action {
      AddToIs(cache[1..], action, h);
      assert cache == [cache[0]] + cache[1..];
    }
  }

  lemma AddingLists(cache: seq<Entry>, action: string, n: nat, a: string, h: nat)
    requires DistinctActions(cache)
    ensures DistinctActions(AddTo(cache, action, n))
    ensures IsListed(AddTo(cache, action, n), a, h) <==> (a == action && h == n) || IsListed(cache, a, h)
  {
    AddToIs(cache, action, n);
    var added, i := AddTo(cache, action, n), IndexOf(cache, action);
    assert IsListedAt(added, i, action, n);
    assert forall j :: 0 <= j < |cache| ==>
             (IsListedAt(added, j, a, h) <==> (j == i && a == action && h == n) || IsListedAt(cache, j, a, h));
    if j :| 0 <= j < |cache| && IsListedAt(cache, j, a, h) {
      assert IsListedAt(added, j, a, h);
    }
  }

  lemma DroppingUnlists(cache: seq<Entry>, i: nat, a: string, h: nat)
    requires DistinctActions(cache) && i < |cache|
    ensures DistinctActions(Without(cache, i))
    ensures IsListed(Without(cache, i), a, h) <==> a != cache[i].action && IsListed(cache, a, h)
  {
    var rest := Without(cache, i);
    if j :| 0 <= j < |cache| && IsListedAt(cache, j, a, h) && a != cache[i].action {
      assert IsListedAt(rest, if j < i then j else j - 1, a, h);
    }
    if j :| 0 <= j < |rest| && IsListedAt(rest, j, a, h) {
      assert IsListedAt(cache, if j < i then j else j + 1, a, h);
    }
  }

  /** The event makes the action forget its handlers: an exit, or a reload that did not raise. */
  predicate Forgets(s: State, e: Event, action: string)
    requires CachesValid(s) && Enabled(s, e)
  {
    e.ExitEverything? || (e.Reload? && e.action == action && e.known && Step(s, e).ok)
  }

  lemma StepLists(s: State, e: Event, a: string, h: nat)
    requires Valid(s) && Enabled(s, e) && DistinctActions(s.cache)
    ensures var s' := Step(s, e).state;
            && DistinctActions(s'.cache)
            && (IsListed(s'.cache, a, h) <==>
                (e == Prepare(a) && h == |s.handlers|) || (IsListed(s.cache, a, h) && !Forgets(s, e, a)))
  {
    match e
    case Prepare(action) => AddingLists(s.cache, action, |s.handlers|, a, h);
    case Reload(action, known) =>
      var i := IndexOf(s.cache, action);
      if known && i < |s.cache| {
        DroppingUnlists(s.cache, i, a, h);
      }
      assert IsListed(s.cache, action, h) ==> i < |s.cache|;
    case ExitEverything =>
    case ShutdownEverything =>
    case _ =>
  }

  ghost predicate Remembers(states: seq<State>, events: seq<Event>, k: nat, a: string)
    requires k < |events| && |states| == |events| + 1
  {
    Follows(states, events, k) && !Forgets(states[k], events[k], a)
  }

  /** Handler `h` was prepared for the action at step `j`, and not forgotten until `i`. */
  ghost predicate PreparedSince(states: seq<State>, events: seq<Event>, j: nat, i: nat, a: string, h: nat)
    requires |states| == |events| + 1 && i < |states|
  {
    && j < i && events[j] == Prepare(a) && |states[j].handlers| == h
    && forall k :: j < k < i ==> Remembers(states, events, k, a)
  }

  lemma {:induction false} RunKeepsDistinct(states: seq<State>, events: seq<Event>, i: nat)
    requires Run(states, events) && i < |states|
    ensures DistinctActions(states[i].cache)
  {
    if i > 0 {
      RunKeepsDistinct(states, events, i - 1);
      RunKeepsValid(states, events, i - 1);
      assert Follows(states, events, i - 1);
      StepLists(states[i - 1], events[i - 1], "", 0);
    }
  }

  /** The cache has exactly the handlers prepared since their action was last forgotten. */
  lemma {:induction false} ListedIff(states: seq<State>, events: seq<Event>, i: nat, a: string, h: nat)
    requires Run(states, events) && i < |states|
    ensures IsListed(states[i].cache, a, h) <==> exists j: nat :: PreparedSince(states, events, j, i, a, h)
  {
    if i > 0 {
      ListedIff(states, events, i - 1, a, h);
      RunKeepsDistinct(states, events, i - 1);
      RunKeepsValid(states, events, i - 1);
      assert Follows(states, events, i - 1);
      StepLists(states[i - 1], events[i - 1], a, h);
      PreparedOneMore(states, events, i - 1, i, a, h);
    }
  }

  lemma PreparedOneMore(states: seq<State>, events: seq<Event>, g: nat, i: nat, a: string, h: nat)
    requires |states| == |events| + 1 && i == g + 1 < |states|
    ensures (exists j: nat :: PreparedSince(states, events, j, i, a, h)) <==>
            || (events[g] == Prepare(a) && |states[g].handlers| == h)
            || (Remembers(states, events, g, a) && exists j: nat :: PreparedSince(states, events, j, g, a, h))
  {
    if events[g] == Prepare(a) && |states[g].handlers| == h {
      assert PreparedSince(states, events, g, i, a, h);
    }
    if Remembers(states, events, g, a) {
      if j: nat :| PreparedSince(states, events, j, g, a, h) {
        assert PreparedSince(states, events, j, i, a, h);
      }
    }
    if j: nat :| PreparedSince(states, events, j, i, a, h) {
      assert j < g ==> PreparedSince(states, events, j, g, a, h);
    }
  }

  // ----- what a handler's cache names ---------------------------------------------------------------------

  predicate Starts(e: Event, h: nat) {
    e == Begin(h) || e == PlainFunction(h)
  }

  /** A step's effect on the cache of a handler: an attempt that starts leaves its `exec_info` there, and one that
      registers its instance. */
  lemma StepNames(s: State, e: Event, h: nat)
    requires Valid(s) && Enabled(s, e) && h < |s.handlers|
    ensures h < |Step(s, e).state.handlers|
    ensures var x, x' := s.handlers[h], Step(s, e).state.handlers[h];
            && x'.execInfo == (if Starts(e, h) then Some(|s.attempts|) else x.execInfo)
            && x'.instance == (if e.Register? && s.attempts[e.k].handler == h then Some(e.k) else x.instance)
  {
    if e.Register? {
      assert AttemptValid(s, e.k);
    }
  }

  lemma StepPrepares(s: State, e: Event)
    requires Valid(s) && Enabled(s, e)
    ensures |Step(s, e).state.handlers| == |s.handlers| + (if e.Prepare? then 1 else 0)
    ensures e.Prepare? ==> Step(s, e).state.handlers[|s.handlers|] == Handler(None, None)
  {
    match e
    case Register(k, _) => assert AttemptValid(s, k);
    case Reload(_, _) =>
    case _ =>
  }

  /** What a step makes of an attempt. */
  lemma StepMovesAttempt(s: State, e: Event, k: nat)
    requires Valid(s) && Enabled(s, e) && k < |s.attempts|
    ensures k < |Step(s, e).state.attempts|
    ensures var a, a' := s.attempts[k], Step(s, e).state.attempts[k];
            && a'.handler == a.handler
            && a'.services == (if e.Register? && e.k == k then e.services else a.services)
            && a'.phase == (if e == GiveUp(k) || e == InitDone(k) || e == InitFailed(k) then Finished
                            else if e.Register? && e.k == k then Initialising else a.phase)
            && (e == InitDone(k) ==> a'.status == Initialized)
            && (e != InitDone(k) ==> a'.status == a.status || a'.status == Shutdown)
            && (e.Register? || e.Begin? || e.GiveUp? || e == InitFailed(k) || e.Prepare? || e.ExitEverything? ==>
                  a'.status == a.status)
  {
    if e.ShutdownEverything? {
      CachedInRange(s.cache, |s.handlers|);
      RoundKeepsAttempt(s, Cached(s.cache), k);
    } else if e.Reload? {
      var i := IndexOf(s.cache, e.action);
      if i < |s.cache| {
        RoundKeepsAttempt(s, s.cache[i].handlers, k);
      }
    }
  }

  lemma {:induction false} RoundKeepsAttempt(s: State, hs: seq<nat>, k: nat)
    requires InRange(hs, |s.handlers|) && RefsInRange(s) && k < |s.attempts|
    ensures var a, a' := s.attempts[k], ShutdownHandlers(s, hs).state.attempts[k];
            SameButStatus(a, a') && (a'.status == a.status || a'.status == Shutdown)
  {
    if hs != [] {
      RoundKeepsAttempt(s, hs[..|hs| - 1], k);
    }
  }

  /** A new attempt, for the handler that was asked for. */
  lemma StepStarts(s: State, e: Event)
    requires Valid(s) && Enabled(s, e)
    ensures var n, s' := |s.attempts|, Step(s, e).state;
            match e
            case Begin(h) => s'.attempts == s.attempts + [Attempt(h, Resolving, Created, [])]
            case PlainFunction(h) => s'.attempts == s.attempts + [Attempt(h, Finished, Initialized, [])]
            case _ => |s'.attempts| == n
  {
  }

  // ----- what a shutdown reaches ----------------------------------------------------------------------------

  /** The event shuts the handler down: everything, or its own action. */
  predicate Reaches(s: State, e: Event, h: nat) {
    || (e.ShutdownEverything? && exists i :: 0 <= i < |s.cache| && h in s.cache[i].handlers)
    || (e.Reload? && e.known && IsListed(s.cache, e.action, h))
  }

  /** A round that gets through marks the `exec_info` of each of its handlers as shut down, and lets go of the instances
      in the caches of those that were not marked before. */
  predicate RoundDoes(s: State, s': State, k: nat, reached: bool)
    requires CachesValid(s) && k < |s.attempts| == |s'.attempts|
  {
    assert AttemptValid(s, k);
    var x := s.handlers[s.attempts[k].handler];
    && s'.attempts[k].status == (if reached && x.execInfo == Some(k) then Shutdown else s.attempts[k].status)
    && (k in s'.live <==>
        k in s.live && !(reached && x.instance == Some(k) && s.attempts[x.execInfo.value].status != Shutdown))
  }

  lemma RoundReaches(s: State, hs: seq<nat>, k: nat)
    requires Valid(s) && InRange(hs, |s.handlers|) && ShutdownHandlers(s, hs).ok && k < |s.attempts|
    ensures RoundDoes(s, ShutdownHandlers(s, hs).state, k, s.attempts[k].handler in hs)
  {
    HandlersFailIff(s, hs);
    assert AttemptValid(s, k);
    assert ShutdownHandlers(s, hs).state.attempts[k] == AfterMarking(s, hs, k);
    assert k in s.live ==> (k in ShutdownHandlers(s, hs).state.live <==> !IsReleased(s, hs, k));
  }

  /** In every run: what a shutdown of everything, or a reload, that does not raise does to each attempt. */
  lemma ShutdownReaches(states: seq<State>, events: seq<Event>, i: nat, k: nat)
    requires Run(states, events) && i < |events| && (events[i].ShutdownEverything? || events[i].Reload?)
    requires Follows(states, events, i) && Step(states[i], events[i]).ok && k < |states[i].attempts|
    ensures |states[i + 1].attempts| == |states[i].attempts|
    ensures RoundDoes(states[i], states[i + 1], k, Reaches(states[i], events[i], states[i].attempts[k].handler))
  {
    RunKeepsValid(states, events, i);
    RunKeepsDistinct(states, events, i);
    var s, h := states[i], states[i].attempts[k].handler;
    assert AttemptValid(s, k);
    match events[i] {
      case ShutdownEverything =>
        CachedInRange(s.cache, |s.handlers|);
        CachedIff(s.cache, h);
        RoundReaches(s, Cached(s.cache), k);
      case Reload(action, known) =>
        var n := IndexOf(s.cache, action);
        if known && n < |s.cache| {
          assert h in s.cache[n].handlers ==> IsListedAt(s.cache, n, action, h);
          RoundReaches(s, s.cache[n].handlers, k);
        }
    }
  }

  // ----- disposal -------------------------------------------------------------------------------------------

  /** Some live instance uses the service. */
  predicate InUse(s: State, sv: Service) {
    exists k <- s.live :: k < |s.attempts| && sv in s.attempts[k].services
  }

  function Disposals(s: State, sv: Service): nat {
    multiset(s.disposed)[sv]
  }

  lemma ShutdownDisposesIff(s: State, h: nat, sv: Service)
    requires Valid(s) && h < |s.handlers| && s.handlers[h].execInfo.Some?
    ensures var s' := ShutdownHandler(s, h).state;
            && (InUse(s', sv) ==> InUse(s, sv))
            && Disposals(s', sv) == Disposals(s, sv) + if sv.disposable && InUse(s, sv) && !InUse(s', sv) then 1 else 0
  {
    var s' := ShutdownHandler(s, h).state;
    ShutdownDisposes(s, h, sv);
    ShutdownFailsIff(s, h);
    forall k | k in s.live ensures k < |s.attempts| && s'.attempts[k].services == s.attempts[k].services {
      assert k < |s.attempts|;
    }
    if Releases(s, h) {
      var k := s.handlers[h].instance.value;
      if LastLiveUser(s, k, sv) {
        assert InUse(s, sv);
      } else if InUse(s, sv) {
        StillInUse(s, s', k, sv);
      }
    } else {
      SameLiveSameUse(s, s', sv);
    }
  }

  lemma SameLiveSameUse(s: State, s': State, sv: Service)
    requires CachesValid(s) && s'.live == s.live && |s.attempts| <= |s'.attempts|
    requires forall k <- s.live :: s'.attempts[k].services == s.attempts[k].services
    ensures InUse(s', sv) <==> InUse(s, sv)
  {
  }

  lemma StillInUse(s: State, s': State, k: nat, sv: Service)
    requires CachesValid(s) && s'.live == s.live - {k} && |s.attempts| == |s'.attempts| && k in s.live
    requires forall g <- s.live :: s'.attempts[g].services == s.attempts[g].services
    requires InUse(s, sv) && !LastLiveUser(s, k, sv)
    ensures InUse(s', sv)
  {
    var g :| g in s.live && sv in s.attempts[g].services;
    if g == k {
      var u :| u in s.live && u != k && sv in s.attempts[u].services;
      assert u in s'.live;
    } else {
      assert g in s'.live;
    }
  }

  lemma {:induction false} RoundDisposesIff(s: State, hs: seq<nat>, sv: Service)
    requires Valid(s) && InRange(hs, |s.handlers|)
    ensures var s' := ShutdownHandlers(s, hs).state;
            && (InUse(s', sv) ==> InUse(s, sv))
            && Disposals(s', sv) == Disposals(s, sv) + if sv.disposable && InUse(s, sv) && !InUse(s', sv) then 1 else 0
  {
    if hs != [] {
      var init, h := hs[..|hs| - 1], hs[|hs| - 1];
      RoundDisposesIff(s, init, sv);
      HandlersKeepValid(s, init);
      var t := ShutdownHandlers(s, init);
      if t.ok && t.state.handlers[h].execInfo.Some? {
        ShutdownDisposesIff(t.state, h, sv);
      }
    }
  }

  /** In every run, whatever the step and wherever it raises: a service is disposed exactly when its last live user
      goes, once, and only if it can be disposed. */
  lemma DisposedWhenLastUserGoes(states: seq<State>, events: seq<Event>, i: nat, sv: Service)
    requires Run(states, events) && i < |events|
    ensures var s, s' := states[i], states[i + 1];
            Disposals(s', sv) == Disposals(s, sv) + if sv.disposable && InUse(s, sv) && !InUse(s', sv) then 1 else 0
  {
    RunKeepsValid(states, events, i);
    assert Follows(states, events, i);
    StepDisposesIff(states[i], events[i], sv);
  }

  lemma StepDisposesIff(s: State, e: Event, sv: Service)
    requires Valid(s) && Enabled(s, e)
    ensures var s' := Step(s, e).state;
            Disposals(s', sv) == Disposals(s, sv) + if sv.disposable && InUse(s, sv) && !InUse(s', sv) then 1 else 0
  {
    var s' := Step(s, e).state;
    match e
    case ShutdownEverything =>
      CachedInRange(s.cache, |s.handlers|);
      RoundDisposesIff(s, Cached(s.cache), sv);
    case Reload(action, known) =>
      var i := IndexOf(s.cache, action);
      if known && i < |s.cache| {
        RoundDisposesIff(s, s.cache[i].handlers, sv);
        var r := ShutdownHandlers(s, s.cache[i].handlers).state;
        assert InUse(s', sv) <==> InUse(r, sv);
      }
    case Register(k, services) => RegisteringKeepsUse(s, k, services, sv);
    case _ => SameLiveSameUse(s, s', sv);
  }

  lemma RegisteringKeepsUse(s: State, k: nat, services: seq<Service>, sv: Service)
    requires Valid(s) && Enabled(s, Register(k, services))
    ensures InUse(s, sv) ==> InUse(Step(s, Register(k, services)).state, sv)
  {
    var s' := Step(s, Register(k, services)).state;
    assert AttemptValid(s, k);
    if g :| g in s.live && g < |s.attempts| && sv in s.attempts[g].services {
      assert g in s'.live && s'.attempts[g].services == s.attempts[g].services;
    }
  }
}
