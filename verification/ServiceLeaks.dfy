/** Which instances a shutdown of everything reaches, and what becomes of the services of the others. */
module ServiceLeaks {
  import opened Options
  import opened Sequences
  import opened Services

  // ----- within reach -----------------------------------------------------------------------------------

  /** A shutdown of everything would release the instance: its handler is in the cache and not marked as shut
      down, and no later instance has taken its place there. */
  predicate InReach(s: State, k: nat)
    requires k < |s.attempts| && CachesValid(s)
  {
    assert AttemptValid(s, k);
    var h := s.attempts[k].handler;
    h in Cached(s.cache) && s.handlers[h].instance == Some(k) && !StatusOf(s, h).Shutdown?
  }

  lemma ShutdownAllReleases(s: State)
    requires Valid(s) && ShutdownAll(s).ok
    ensures Valid(ShutdownAll(s).state) && ShutdownAll(s).state.live <= s.live
    ensures forall k <- s.live :: k in ShutdownAll(s).state.live <==> !InReach(s, k)
    ensures forall k <- s.live :: ShutdownAll(s).state.attempts[k].services == s.attempts[k].services
  {
    var hs := Cached(s.cache);
    CachedInRange(s.cache, |s.handlers|);
    HandlersFailIff(s, hs);
    HandlersKeepValid(s, hs);
    forall k | k in s.live ensures IsReleased(s, hs, k) <==> InReach(s, k) {
      assert AttemptValid(s, k);
    }
    forall k | k in s.live ensures ShutdownAll(s).state.attempts[k].services == s.attempts[k].services {
      assert ShutdownAll(s).state.attempts[k] == AfterMarking(s, hs, k);
    }
  }

  /** After it, no service has a user, unless some live instance was out of its reach. */
  lemma AllServicesFreeIff(s: State)
    requires Valid(s) && ShutdownAll(s).ok
    ensures (forall sv, g :: Users(ShutdownAll(s).state.usedBy, sv)[g] == 0) <==>
            (forall k <- s.live :: s.attempts[k].services == [] || InReach(s, k))
  {
    var s' := ShutdownAll(s).state;
    ShutdownAllReleases(s);
    forall k | k in s'.live && s'.attempts[k].services != [] ensures exists sv :: Users(s'.usedBy, sv)[k] != 0 {
      var sv := s'.attempts[k].services[0];
      assert Users(s'.usedBy, sv)[k] == Holds(s', k, sv);
    }
    if forall k <- s.live :: s.attempts[k].services == [] || InReach(s, k) {
      forall sv, g ensures Users(s'.usedBy, sv)[g] == 0 {
        assert Users(s'.usedBy, sv)[g] == Holds(s', g, sv);
      }
    }
  }

  // ----- what no shutdown reaches -----------------------------------------------------------------------

  predicate AllInReach(s: State)
    requires CachesValid(s)
  {
    forall k <- s.live :: InReach(s, k)
  }

  /** The step puts a live instance out of reach: a new one takes the place of another that is live, or
      registers for a handler that is not cached any more or marked as shut down; or the caches are forgotten. */
  predicate Strands(s: State, e: Event)
    requires CachesValid(s) && Enabled(s, e)
  {
    match e
    case Register(k, _) =>
      assert AttemptValid(s, k);
      var h := s.attempts[k].handler;
      || h !in Cached(s.cache) || StatusOf(s, h).Shutdown?
      || (s.handlers[h].instance.Some? && s.handlers[h].instance.value in s.live)
    case ExitEverything => s.live != {}
    case _ => false
  }

  lemma AddingKeepsCached(cache: seq<Entry>, action: string, h: nat, g: nat)
    requires g in Cached(cache)
    ensures g in Cached(AddTo(cache, action, h))
  {
    CachedIff(cache, g);
    AddingKeepsListed(cache, action, h, g);
    CachedIff(AddTo(cache, action, h), g);
  }

  lemma {:induction false} AddingKeepsListed(cache: seq<Entry>, action: string, h: nat, g: nat)
    requires exists i :: 0 <= i < |cache| && g in cache[i].handlers
    ensures exists i :: 0 <= i < |AddTo(cache, action, h)| && g in AddTo(cache, action, h)[i].handlers
  {
    var i :| 0 <= i < |cache| && g in cache[i].handlers;
    var added := AddTo(cache, action, h);
    if cache[0].action == action || i == 0 {
      assert g in added[i].handlers;
    } else {
      assert g in cache[1..][i - 1].handlers;
      AddingKeepsListed(cache[1..], action, h, g);
      var j :| 0 <= j < |AddTo(cache[1..], action, h)| && g in AddTo(cache[1..], action, h)[j].handlers;
      assert added[j + 1] == AddTo(cache[1..], action, h)[j];
    }
  }

  lemma WithoutKeepsCached(cache: seq<Entry>, i: nat, h: nat)
    requires i < |cache| && h in Cached(cache) && h !in cache[i].handlers
    ensures h in Cached(Without(cache, i))
  {
    CachedIff(cache, h);
    var j :| 0 <= j < |cache| && h in cache[j].handlers;
    assert h in Without(cache, i)[if j < i then j else j - 1].handlers;
    CachedIff(Without(cache, i), h);
  }

  lemma NoneCached(cache: seq<Entry>, h: nat)
    ensures h !in Cached(Emptied(cache))
  {
    CachedIff(Emptied(cache), h);
  }

  lemma ShutdownKeepsReach(s: State, h: nat)
    requires Valid(s) && AllInReach(s) && h < |s.handlers| && s.handlers[h].execInfo.Some?
    ensures Valid(ShutdownHandler(s, h).state) && AllInReach(ShutdownHandler(s, h).state)
  {
    ShutdownKeepsValid(s, h);
    ShutdownFailsIff(s, h);
    var s' := ShutdownHandler(s, h).state;
    forall k | k in s'.live ensures InReach(s', k) {
      assert InReach(s, k) && AttemptValid(s, k) && HandlerValid(s, h) && HandlerValid(s, s.attempts[k].handler);
    }
  }

  lemma {:induction false} HandlersKeepReach(s: State, hs: seq<nat>)
    requires Valid(s) && AllInReach(s) && InRange(hs, |s.handlers|)
    ensures Valid(ShutdownHandlers(s, hs).state) && AllInReach(ShutdownHandlers(s, hs).state)
  {
    if hs != [] {
      var init, h := hs[..|hs| - 1], hs[|hs| - 1];
      HandlersKeepReach(s, init);
      var before := ShutdownHandlers(s, init);
      if before.ok && before.state.handlers[h].execInfo.Some? {
        ShutdownKeepsReach(before.state, h);
      }
    }
  }

  lemma ReloadingKeepsReach(s: State, action: string, known: bool)
    requires Valid(s) && AllInReach(s)
    ensures Valid(ReloadAction(s, action, known).state) && AllInReach(ReloadAction(s, action, known).state)
  {
    ReloadingKeepsValid(s, action, known);
    var i := IndexOf(s.cache, action);
    if known && i < |s.cache| {
      var hs := s.cache[i].handlers;
      HandlersKeepReach(s, hs);
      HandlersFailIff(s, hs);
      var r := ShutdownHandlers(s, hs);
      if r.ok {
        var s' := ReloadAction(s, action, known).state;
        forall k | k in s'.live ensures InReach(s', k) {
          assert InReach(s, k) && InReach(r.state, k) && AttemptValid(s, k);
          assert !IsReleased(s, hs, k);
          assert r.state.attempts[k] == AfterMarking(s, hs, k);
          WithoutKeepsCached(s.cache, i, s.attempts[k].handler);
        }
      }
    }
  }

  lemma PreparingKeepsReach(s: State, action: string)
    requires Valid(s) && AllInReach(s)
    ensures Valid(Step(s, Prepare(action)).state) && AllInReach(Step(s, Prepare(action)).state)
  {
    PreparingKeepsValid(s, action);
    var s' := Step(s, Prepare(action)).state;
    forall k | k in s'.live ensures InReach(s', k) {
      assert InReach(s, k) && AttemptValid(s, k);
      AddingKeepsCached(s.cache, action, |s.handlers|, s.attempts[k].handler);
    }
  }

  lemma BeginningKeepsReach(s: State, h: nat, phase: Phase, status: Status)
    requires Valid(s) && AllInReach(s) && h < |s.handlers| && s.handlers[h].instance.None?
    ensures Valid(Begun(s, h, phase, status)) && AllInReach(Begun(s, h, phase, status))
  {
    BeginningKeepsValid(s, h, phase, status);
    forall k | k in s.live ensures InReach(Begun(s, h, phase, status), k) {
      assert InReach(s, k) && AttemptValid(s, k);
    }
  }

  lemma MovingKeepsReach(s: State, k: nat, status: Status)
    requires Valid(s) && AllInReach(s) && k < |s.attempts| && (status == Initialized || status == s.attempts[k].status)
    ensures Valid(Moved(s, k, Finished, status)) && AllInReach(Moved(s, k, Finished, status))
  {
    MovingKeepsValid(s, k, Finished, status);
    forall g | g in s.live ensures InReach(Moved(s, k, Finished, status), g) {
      assert InReach(s, g) && AttemptValid(s, g);
    }
  }

  lemma RegisteringStrandsIff(s: State, k: nat, services: seq<Service>)
    requires Valid(s) && AllInReach(s) && Enabled(s, Register(k, services))
    ensures var s' := Step(s, Register(k, services)).state;
            Valid(s') && (AllInReach(s') <==> !Strands(s, Register(k, services)))
  {
    RegisteringKeepsValid(s, k, services);
    var s', h := Step(s, Register(k, services)).state, s.attempts[k].handler;
    assert AttemptValid(s, k) && HandlerValid(s, h);
    assert InReach(s', k) <==> h in Cached(s.cache) && !StatusOf(s, h).Shutdown?;
    forall g | g in s.live ensures InReach(s', g) <==> s.handlers[h].instance != Some(g) {
      assert InReach(s, g) && AttemptValid(s, g);
      assert g != k;
    }
    assert k in s'.live;
    if s.handlers[h].instance.Some? && s.handlers[h].instance.value in s.live {
      assert s.handlers[h].instance.value in s'.live && !InReach(s', s.handlers[h].instance.value);
    }
  }

  /** With all live instances in reach, exactly those steps put one out of reach. */
  lemma StepStrandsIff(s: State, e: Event)
    requires Valid(s) && AllInReach(s) && Enabled(s, e)
    ensures Valid(Step(s, e).state) && (AllInReach(Step(s, e).state) <==> !Strands(s, e))
  {
    match e
    case Prepare(action) => PreparingKeepsReach(s, action);
    case Begin(h) => BeginningKeepsReach(s, h, Resolving, Created);
    case PlainFunction(h) => BeginningKeepsReach(s, h, Finished, Initialized);
    case GiveUp(k) => MovingKeepsReach(s, k, s.attempts[k].status);
    case Register(k, services) => RegisteringStrandsIff(s, k, services);
    case InitDone(k) => MovingKeepsReach(s, k, Initialized);
    case InitFailed(k) => MovingKeepsReach(s, k, s.attempts[k].status);
    case ShutdownEverything =>
      CachedInRange(s.cache, |s.handlers|);
      HandlersKeepReach(s, Cached(s.cache));
    case Reload(action, known) => ReloadingKeepsReach(s, action, known);
    case ExitEverything =>
      StepKeepsValid(s, e);
      forall k | k in s.live ensures !InReach(Step(s, e).state, k) {
        assert AttemptValid(s, k);
        NoneCached(s.cache, s.attempts[k].handler);
      }
      if k :| k in s.live {
        assert !InReach(Step(s, e).state, k);
      }
  }

  ghost predicate NoneStrands(states: seq<State>, events: seq<Event>, i: nat)
    requires Run(states, events) && i <= |events|
  {
    forall j :: 0 <= j < i ==> Follows(states, events, j) && !Strands(states[j], events[j])
  }

  /** In a run without such steps and without a late end of an initialisation, shutting everything down never
      raises and leaves no service with a user. */
  lemma RunFreesAll(states: seq<State>, events: seq<Event>, i: nat)
    requires Run(states, events) && i < |states| && NoneStrands(states, events, i) && NoLateEnd(states, events, i)
    ensures Valid(states[i]) && AllInReach(states[i]) && ShutdownAll(states[i]).ok
    ensures forall sv, g :: Users(ShutdownAll(states[i]).state.usedBy, sv)[g] == 0
  {
    RunKeepsReach(states, events, i);
    RunNeverFails(states, events, i);
    CachedInRange(states[i].cache, |states[i].handlers|);
    HandlersReviveNone(states[i], Cached(states[i].cache));
    AllServicesFreeIff(states[i]);
  }

  lemma {:induction false} RunKeepsReach(states: seq<State>, events: seq<Event>, i: nat)
    requires Run(states, events) && i < |states| && NoneStrands(states, events, i)
    ensures Valid(states[i]) && AllInReach(states[i])
  {
    RunKeepsValid(states, events, i);
    if i > 0 {
      RunKeepsReach(states, events, i - 1);
      assert Follows(states, events, i - 1);
      StepStrandsIff(states[i - 1], events[i - 1]);
    }
  }

  /** A live instance whose place in the cache another one has taken, or whose handler is not cached any more. */
  predicate Stranded(s: State, k: nat)
    requires CachesValid(s)
  {
    && k in s.live
    && assert AttemptValid(s, k);
       s.handlers[s.attempts[k].handler].instance != Some(k) || s.attempts[k].handler !in Cached(s.cache)
  }

  /** What an instance keeps on using. */
  ghost predicate StillUses(s: State, s': State, k: nat)
    requires k < |s.attempts|
  {
    && k < |s'.attempts| && s'.attempts[k].handler == s.attempts[k].handler
    && s'.attempts[k].services == s.attempts[k].services
    && forall sv <- s.attempts[k].services ::
         Users(s'.usedBy, sv)[k] > 0 && multiset(s'.disposed)[sv] == multiset(s.disposed)[sv]
  }

  lemma {:induction false} RoundSpares(s: State, hs: seq<nat>, k: nat, sv: Service)
    requires Valid(s) && InRange(hs, |s.handlers|) && k in s.live
    requires forall h <- hs :: s.handlers[h].instance != Some(k)
    ensures var s' := ShutdownHandlers(s, hs).state;
            && Valid(s') && k in s'.live && SameButStatus(s.attempts[k], s'.attempts[k])
            && (sv in s.attempts[k].services ==> multiset(s'.disposed)[sv] == multiset(s.disposed)[sv])
  {
    HandlersKeepValid(s, hs);
    if hs != [] {
      var init, h := hs[..|hs| - 1], hs[|hs| - 1];
      assert h in hs;
      RoundSpares(s, init, k, sv);
      var before := ShutdownHandlers(s, init);
      if before.ok && before.state.handlers[h].execInfo.Some? {
        ShutdownFailsIff(before.state, h);
        ShutdownDisposes(before.state, h, sv);
      }
    }
  }

  lemma RoundKeepsUses(s: State, hs: seq<nat>, k: nat)
    requires Valid(s) && InRange(hs, |s.handlers|) && k in s.live
    requires forall h <- hs :: s.handlers[h].instance != Some(k)
    ensures Valid(ShutdownHandlers(s, hs).state) && k in ShutdownHandlers(s, hs).state.live
    ensures StillUses(s, ShutdownHandlers(s, hs).state, k)
  {
    var s' := ShutdownHandlers(s, hs).state;
    RoundSpares(s, hs, k, Service(0, false));
    forall sv | sv in s.attempts[k].services
      ensures Users(s'.usedBy, sv)[k] > 0 && multiset(s'.disposed)[sv] == multiset(s.disposed)[sv]
    {
      RoundSpares(s, hs, k, sv);
      assert Users(s'.usedBy, sv)[k] == Holds(s', k, sv);
    }
  }

  /** A handler never comes back into the cache. */
  lemma AddingCachesOne(cache: seq<Entry>, action: string, h: nat, g: nat)
    requires g in Cached(AddTo(cache, action, h))
    ensures g == h || g in Cached(cache)
  {
    CachedIff(AddTo(cache, action, h), g);
    AddingListsOne(cache, action, h, g);
    CachedIff(cache, g);
  }

  lemma {:induction false} AddingListsOne(cache: seq<Entry>, action: string, h: nat, g: nat)
    requires exists i :: 0 <= i < |AddTo(cache, action, h)| && g in AddTo(cache, action, h)[i].handlers
    ensures g == h || exists i :: 0 <= i < |cache| && g in cache[i].handlers
  {
    var added := AddTo(cache, action, h);
    var i :| 0 <= i < |added| && g in added[i].handlers;
    if cache != [] && g != h {
      if cache[0].action == action || i == 0 {
        assert g in cache[i].handlers;
      } else {
        assert added[i] == AddTo(cache[1..], action, h)[i - 1];
        AddingListsOne(cache[1..], action, h, g);
        var j :| 0 <= j < |cache[1..]| && g in cache[1..][j].handlers;
        assert g in cache[j + 1].handlers;
      }
    }
  }

  lemma WithoutCachesLess(cache: seq<Entry>, i: nat, h: nat)
    requires i < |cache| && h in Cached(Without(cache, i))
    ensures h in Cached(cache)
  {
    CachedIff(Without(cache, i), h);
    var j :| 0 <= j < |Without(cache, i)| && h in Without(cache, i)[j].handlers;
    assert h in cache[if j < i then j else j + 1].handlers;
    CachedIff(cache, h);
  }

  lemma LiveUses(s: State, s': State, k: nat)
    requires Valid(s') && k in s'.live && k < |s.attempts| && s'.disposed == s.disposed
    requires s'.attempts[k].handler == s.attempts[k].handler && s'.attempts[k].services == s.attempts[k].services
    ensures StillUses(s, s', k)
  {
    forall sv | sv in s.attempts[k].services ensures Users(s'.usedBy, sv)[k] > 0 {
      assert Users(s'.usedBy, sv)[k] == Holds(s', k, sv);
    }
  }

  lemma RoundMissesStranded(s: State, hs: seq<nat>, k: nat)
    requires CachesValid(s) && Stranded(s, k) && InRange(hs, |s.handlers|) && forall h <- hs :: h in Cached(s.cache)
    ensures forall h <- hs :: s.handlers[h].instance != Some(k)
  {
    forall h | h in hs ensures s.handlers[h].instance != Some(k) {
      assert HandlerValid(s, h) && AttemptValid(s, k);
    }
  }

  lemma ReloadingMissesStranded(s: State, action: string, known: bool, k: nat)
    requires Valid(s) && Stranded(s, k)
    ensures var s' := ReloadAction(s, action, known).state; Valid(s') && Stranded(s', k) && StillUses(s, s', k)
  {
    var s', i := ReloadAction(s, action, known).state, IndexOf(s.cache, action);
    ReloadingKeepsValid(s, action, known);
    if known && i < |s.cache| {
      var hs := s.cache[i].handlers;
      forall h | h in hs ensures h in Cached(s.cache) {
        CachedIff(s.cache, h);
      }
      RoundMissesStranded(s, hs, k);
      RoundKeepsUses(s, hs, k);
      if s.attempts[k].handler in Cached(Without(s.cache, i)) {
        WithoutCachesLess(s.cache, i, s.attempts[k].handler);
      }
    } else {
      LiveUses(s, s, k);
    }
  }

  lemma StepMissesStranded(s: State, e: Event, k: nat)
    requires Valid(s) && Enabled(s, e) && Stranded(s, k)
    ensures Valid(Step(s, e).state) && Stranded(Step(s, e).state, k) && StillUses(s, Step(s, e).state, k)
  {
    var s', h := Step(s, e).state, s.attempts[k].handler;
    StepKeepsValid(s, e);
    assert AttemptValid(s, k);
    match e
    case ShutdownEverything =>
      CachedInRange(s.cache, |s.handlers|);
      RoundMissesStranded(s, Cached(s.cache), k);
      RoundKeepsUses(s, Cached(s.cache), k);
    case Reload(action, known) => ReloadingMissesStranded(s, action, known, k);
    case Prepare(action) =>
      LiveUses(s, s', k);
      if h in Cached(s'.cache) {
        AddingCachesOne(s.cache, action, |s.handlers|, h);
      }
    case ExitEverything =>
      LiveUses(s, s', k);
      NoneCached(s.cache, h);
    case _ => LiveUses(s, s', k);
  }

  /** An instance that is out of the cache stays in the lists of its services for the rest of the run, and none
      of these is ever disposed again. */
  lemma {:induction false} StrandedForGood(states: seq<State>, events: seq<Event>, j: nat, i: nat, k: nat)
    requires Run(states, events) && j <= i < |states| && CachesValid(states[j]) && Stranded(states[j], k)
    ensures Valid(states[i]) && Stranded(states[i], k) && StillUses(states[j], states[i], k)
  {
    RunKeepsValid(states, events, j);
    if i == j {
      LiveUses(states[j], states[j], k);
    } else {
      StrandedForGood(states, events, j, i - 1, k);
      assert Follows(states, events, i - 1);
      StepMissesStranded(states[i - 1], events[i - 1], k);
    }
  }

  /** An instance is stranded when another one takes its place. */
  lemma OverwritingStrands(s: State, k: nat, services: seq<Service>, old': nat)
    requires Valid(s) && Enabled(s, Register(k, services)) && old' in s.live
    requires s.attempts[k].handler == s.attempts[old'].handler
    ensures Valid(Step(s, Register(k, services)).state) && Stranded(Step(s, Register(k, services)).state, old')
  {
    RegisteringKeepsValid(s, k, services);
    assert AttemptValid(s, k) && AttemptValid(s, old');
  }

  const TWO_ATTEMPTS: seq<Event> := [Prepare("lint"), Begin(0), Begin(0)]

  function TwoAttempts(): State {
    State([Handler(Some(1), None)], [Attempt(0, Resolving, Created, []), Attempt(0, Resolving, Created, [])],
          [Entry("lint", [0])], map[], {}, [])
  }

  lemma TwoAttemptsCanOverlap() returns (states: seq<State>)
    ensures Run(states, TWO_ATTEMPTS) && states[3] == TwoAttempts()
  {
    states := [State([], [], [], map[], {}, [])];
    RunGoesOn(states, [], Prepare("lint"));
    states := states + [Step(states[0], Prepare("lint")).state];
    assert [] + [Prepare("lint")] == [Prepare("lint")];
    RunGoesOn(states, [Prepare("lint")], Begin(0));
    states := states + [Step(states[1], Begin(0)).state];
    RunGoesOn(states, [Prepare("lint"), Begin(0)], Begin(0));
    states := states + [Step(states[2], Begin(0)).state];
    assert states[3].cache == [Entry("lint", [0])];
  }

  /** Two runs that instantiate one handler at the same time are enough: the second instance takes the place of
      the first, and whatever happens from then on, the service keeps its user and is not disposed. */
  lemma OverlapLeaks(sv: Service) returns (states: seq<State>, events: seq<Event>)
    ensures Run(states, events) && events == TWO_ATTEMPTS + [Register(0, [sv]), Register(1, [sv])]
    ensures CachesValid(states[5]) && Stranded(states[5], 0)
  {
    states := TwoAttemptsCanOverlap();
    RunGoesOn(states, TWO_ATTEMPTS, Register(0, [sv]));
    var events' := TWO_ATTEMPTS + [Register(0, [sv])];
    states := states + [Step(states[3], Register(0, [sv])).state];
    RunGoesOn(states, events', Register(1, [sv]));
    RunKeepsValid(states, events', 4);
    OverwritingStrands(states[4], 1, [sv], 0);
    states := states + [Step(states[4], Register(1, [sv])).state];
    events := events' + [Register(1, [sv])];
  }
}
