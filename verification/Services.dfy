/** Handlers, their instances and the services these use: who is in whose `used_by` list, and when a service
    is disposed. Nothing keeps two runs from instantiating one handler at the same time. */
module Services {
  import opened Options
  import opened Sequences

  datatype Service = Service(id: nat, disposable: bool)

  datatype Status = Created | Initialized | Shutdown

  /** How far an attempt got: it awaits the dependencies in `Resolving` and the handler's own initialisation
      in `Initialising`. One whose initialisation awaits nothing goes through the latter at once. */
  datatype Phase = Resolving | Initialising | Finished

  /** One call of `ensure_handler_instantiated` that found no instance in the cache: the handler's cache entry,
      the `exec_info` of its own that it makes, and the services that its instance was constructed with. */
  datatype Attempt = Attempt(handler: nat, phase: Phase, status: Status, services: seq<Service>)

  /** One `ActionHandlerCache`: the attempts that its `exec_info` and its instance come from. Its
      `used_services` are written together with the instance, so they are those of that attempt. */
  datatype Handler = Handler(execInfo: Option<nat>, instance: Option<nat>)

  /** The cache entry of an action: its handlers in the order of their creation. */
  datatype Entry = Entry(action: string, handlers: seq<nat>)

  /** `usedBy` names an instance by the attempt that made it. `live` has the attempts whose instances were
      registered with their services and not released yet; `disposed` lists the calls of `dispose`. */
  datatype State = State(handlers: seq<Handler>, attempts: seq<Attempt>, cache: seq<Entry>,
                         usedBy: map<Service, seq<nat>>, live: set<nat>, disposed: seq<Service>)

  /** `ok` is false where the source raises. */
  datatype Result = Result(state: State, ok: bool)

  // ----- the lists ----------------------------------------------------------------------------------

  function RemoveFirst(users: seq<nat>, k: nat): (r: seq<nat>)
    requires k in users
    ensures multiset(r) == multiset(users) - multiset{k}
  {
    if users[0] == k then
      assert users == [k] + users[1..];
      users[1..]
    else
      assert users == [users[0]] + users[1..];
      [users[0]] + RemoveFirst(users[1..], k)
  }

  function Users(usedBy: map<Service, seq<nat>>, sv: Service): multiset<nat> {
    if sv in usedBy then multiset(usedBy[sv]) else multiset{}
  }

  function WithUser(usedBy: map<Service, seq<nat>>, sv: Service, k: nat): map<Service, seq<nat>> {
    usedBy[sv := (if sv in usedBy then usedBy[sv] else []) + [k]]
  }

  // ----- registration -------------------------------------------------------------------------------

  /** The registration loop over the services an instance was constructed with. */
  function WithUses(usedBy: map<Service, seq<nat>>, services: seq<Service>, k: nat): map<Service, seq<nat>> {
    if services == [] then usedBy
    else WithUser(WithUses(usedBy, services[..|services| - 1], k), services[|services| - 1], k)
  }

  lemma TimesInPrefix(services: seq<Service>, n: nat, sv: Service)
    requires n < |services|
    ensures multiset(services[..n + 1])[sv] == multiset(services[..n])[sv] + (if services[n] == sv then 1 else 0)
  {
    assert services[..n + 1] == services[..n] + [services[n]];
  }

  /** Registering adds the instance to a list once for each time it uses the service. */
  lemma {:induction false} RegisteringCounts(usedBy: map<Service, seq<nat>>, services: seq<Service>, k: nat,
                                             sv: Service, g: nat)
    ensures Users(WithUses(usedBy, services, k), sv)[g] ==
            Users(usedBy, sv)[g] + (if g == k then multiset(services)[sv] else 0)
  {
    if services != [] {
      RegisteringCounts(usedBy, services[..|services| - 1], k, sv, g);
      TimesInPrefix(services, |services| - 1, sv);
      assert services[..|services|] == services;
    }
  }

  // ----- shutting one handler down --------------------------------------------------------------------

  /** One turn of the loop over an instance's services. */
  function DropUser(s: State, sv: Service, k: nat): (r: Result)
    ensures r.state.(usedBy := s.usedBy, disposed := s.disposed) == s
  {
    if sv !in s.usedBy || k !in s.usedBy[sv] then Result(s, false)
    else
      var users := RemoveFirst(s.usedBy[sv], k);
      Result(s.(usedBy := s.usedBy[sv := users],
                disposed := if users == [] && sv.disposable then s.disposed + [sv] else s.disposed), true)
  }

  function DropUses(s: State, services: seq<Service>, k: nat): (r: Result)
    ensures r.state.(usedBy := s.usedBy, disposed := s.disposed) == s
  {
    if services == [] then Result(s, true)
    else
      var before := DropUses(s, services[..|services| - 1], k);
      if before.ok then DropUser(before.state, services[|services| - 1], k) else before
  }

  predicate RefIn(ref: Option<nat>, n: nat) {
    ref.Some? ==> ref.value < n
  }

  /** The caches name attempts that were made. */
  predicate RefsInRange(s: State) {
    forall h :: 0 <= h < |s.handlers| ==>
      RefIn(s.handlers[h].execInfo, |s.attempts|) && RefIn(s.handlers[h].instance, |s.attempts|)
  }

  function Marked(s: State, k: nat, status: Status): State
    requires k < |s.attempts|
  {
    s.(attempts := s.attempts[k := s.attempts[k].(status := status)])
  }

  /** `shutdown_action_handler`. */
  function ShutdownHandler(s: State, h: nat): (r: Result)
    requires h < |s.handlers| && RefsInRange(s) && s.handlers[h].execInfo.Some?
    ensures r.state.handlers == s.handlers && r.state.cache == s.cache
    ensures r.state.attempts == Marked(s, s.handlers[h].execInfo.value, Shutdown).attempts
  {
    var handler := s.handlers[h];
    if s.attempts[handler.execInfo.value].status.Shutdown? then
      assert Marked(s, handler.execInfo.value, Shutdown).attempts == s.attempts;
      Result(s, true)
    else
      var marked := Marked(s, handler.execInfo.value, Shutdown);
      if handler.instance.None? then Result(marked, true)
      else
        var k := handler.instance.value;
        var r := DropUses(marked, s.attempts[k].services, k);
        if r.ok then r.(state := r.state.(live := r.state.live - {k})) else r
  }

  /** Shutting handlers down one after the other; a failure ends it. */
  function ShutdownHandlers(s: State, hs: seq<nat>): (r: Result)
    requires InRange(hs, |s.handlers|) && RefsInRange(s)
    ensures r.state.handlers == s.handlers && r.state.cache == s.cache && |r.state.attempts| == |s.attempts|
  {
    if hs == [] then Result(s, true)
    else
      var before := ShutdownHandlers(s, hs[..|hs| - 1]);
      var h := hs[|hs| - 1];
      if !before.ok || before.state.handlers[h].execInfo.None? then before else ShutdownHandler(before.state, h)
  }

  // ----- the match ------------------------------------------------------------------------------------

  /** How often an instance holds a service. */
  function Holds(s: State, k: nat, sv: Service): nat {
    if k in s.live && k < |s.attempts| then multiset(s.attempts[k].services)[sv] else 0
  }

  /** Each `used_by` list has each live instance as often as the instance holds the service, and no other. */
  ghost predicate Match(s: State) {
    forall sv, k :: Users(s.usedBy, sv)[k] == Holds(s, k, sv)
  }

  lemma EmptyUsers(users: seq<nat>)
    ensures users == [] <==> forall g :: multiset(users)[g] == 0
  {
    if users != [] {
      assert users[0] in multiset(users);
    }
  }

  /** `k`'s remaining uses of `sv` are the last ones of anybody. */
  ghost predicate LastUses(s: State, k: nat, sv: Service, uses: nat) {
    uses > 0 && Users(s.usedBy, sv)[k] == uses && forall g :: g != k ==> Users(s.usedBy, sv)[g] == 0
  }

  lemma DropOneCounts(s: State, sv: Service, k: nat, tv: Service, g: nat)
    requires Users(s.usedBy, sv)[k] > 0
    ensures DropUser(s, sv, k).ok
    ensures Users(DropUser(s, sv, k).state.usedBy, tv)[g] ==
            Users(s.usedBy, tv)[g] - (if tv == sv && g == k then 1 else 0)
  {
  }

  lemma DropOneDisposes(s: State, sv: Service, k: nat)
    requires Users(s.usedBy, sv)[k] > 0
    ensures DropUser(s, sv, k).state.disposed ==
            s.disposed + (if sv.disposable && LastUses(s, k, sv, 1) then [sv] else [])
  {
    var users := RemoveFirst(s.usedBy[sv], k);
    EmptyUsers(users);
    assert forall g :: multiset(users)[g] == Users(s.usedBy, sv)[g] - (if g == k then 1 else 0);
  }

  /** The instance is in the lists as often as the loop is going to remove it. */
  ghost predicate Covers(s: State, services: seq<Service>, k: nat) {
    forall sv :: multiset(services)[sv] <= Users(s.usedBy, sv)[k]
  }

  lemma PrefixCovered(s: State, services: seq<Service>, k: nat)
    requires Covers(s, services, k) && services != []
    ensures Covers(s, services[..|services| - 1], k)
    ensures multiset(services[..|services| - 1])[services[|services| - 1]] < Users(s.usedBy, services[|services| - 1])[k]
  {
    assert services[..|services|] == services;
    forall sv ensures multiset(services[..|services| - 1])[sv] <= multiset(services)[sv] {
      TimesInPrefix(services, |services| - 1, sv);
    }
    TimesInPrefix(services, |services| - 1, services[|services| - 1]);
  }

  lemma DroppingUnfolds(s: State, services: seq<Service>, k: nat)
    requires services != [] && DropUses(s, services, k).ok
    ensures var before, last := DropUses(s, services[..|services| - 1], k), services[|services| - 1];
            && before.ok && Users(before.state.usedBy, last)[k] > 0
            && DropUses(s, services, k) == DropUser(before.state, last, k)
  {
  }

  lemma TimesInAll(services: seq<Service>, sv: Service)
    requires services != []
    ensures multiset(services)[sv] ==
            multiset(services[..|services| - 1])[sv] + (if services[|services| - 1] == sv then 1 else 0)
  {
    TimesInPrefix(services, |services| - 1, sv);
    assert services[..|services|] == services;
  }

  lemma {:induction false} DroppingCounts(s: State, services: seq<Service>, k: nat, sv: Service, g: nat)
    requires DropUses(s, services, k).ok
    ensures Users(DropUses(s, services, k).state.usedBy, sv)[g] + (if g == k then multiset(services)[sv] else 0) ==
            Users(s.usedBy, sv)[g]
  {
    if services != [] {
      var init, last := services[..|services| - 1], services[|services| - 1];
      DroppingUnfolds(s, services, k);
      DroppingCounts(s, init, k, sv, g);
      DropOneCounts(DropUses(s, init, k).state, last, k, sv, g);
      TimesInAll(services, sv);
    }
  }

  lemma {:induction false} DroppingSucceeds(s: State, services: seq<Service>, k: nat)
    requires Covers(s, services, k)
    ensures DropUses(s, services, k).ok
  {
    if services != [] {
      var init, last := services[..|services| - 1], services[|services| - 1];
      PrefixCovered(s, services, k);
      DroppingSucceeds(s, init, k);
      DroppingCounts(s, init, k, last, k);
    }
  }

  /** Once `n` of the uses are gone, one more is the last exactly when all `n + 1` are. */
  lemma LastOfSeveral(s: State, t: State, k: nat, sv: Service, n: nat)
    requires forall g :: Users(t.usedBy, sv)[g] + (if g == k then n else 0) == Users(s.usedBy, sv)[g]
    ensures LastUses(t, k, sv, 1) <==> LastUses(s, k, sv, n + 1)
  {
  }

  /** A service is disposed, once, exactly when the last use of anybody goes. */
  lemma {:induction false} DroppingDisposes(s: State, services: seq<Service>, k: nat, sv: Service)
    requires DropUses(s, services, k).ok
    ensures multiset(DropUses(s, services, k).state.disposed)[sv] == multiset(s.disposed)[sv] +
            (if sv.disposable && LastUses(s, k, sv, multiset(services)[sv]) then 1 else 0)
  {
    if services == [] {
      assert DropUses(s, services, k).state == s;
    } else {
      var init, last := services[..|services| - 1], services[|services| - 1];
      var before := DropUses(s, init, k).state;
      DroppingDisposes(s, init, k, sv);
      assert services[..|services|] == services;
      TimesInPrefix(services, |services| - 1, sv);
      DropOneDisposes(before, last, k);
      if last == sv {
        var n := multiset(init)[sv];
        forall g ensures Users(before.usedBy, sv)[g] + (if g == k then n else 0) == Users(s.usedBy, sv)[g] {
          DroppingCounts(s, init, k, sv, g);
        }
        LastOfSeveral(s, before, k, sv, n);
      }
    }
  }

  lemma {:induction false} DroppingFails(s: State, services: seq<Service>, k: nat)
    requires services != [] && forall sv :: Users(s.usedBy, sv)[k] == 0
    ensures DropUses(s, services, k) == Result(s, false)
  {
    if |services| > 1 {
      DroppingFails(s, services[..|services| - 1], k);
    } else {
      assert services[..0] == [];
      assert Users(s.usedBy, services[0])[k] == 0;
    }
  }

  // ----- one handler ------------------------------------------------------------------------------------

  /** What a cache entry names are attempts at its own handler, and the instance of it was made. */
  predicate HandlerValid(s: State, h: nat)
    requires h < |s.handlers| && RefsInRange(s)
  {
    var x := s.handlers[h];
    && (x.execInfo.Some? ==> s.attempts[x.execInfo.value].handler == h)
    && (x.instance.Some? ==> x.execInfo.Some? && s.attempts[x.instance.value].handler == h
                             && !s.attempts[x.instance.value].phase.Resolving?)
  }

  predicate AttemptValid(s: State, k: nat)
    requires k < |s.attempts|
  {
    && s.attempts[k].handler < |s.handlers| && s.handlers[s.attempts[k].handler].execInfo.Some?
    && (k in s.live ==> !s.attempts[k].phase.Resolving?)
  }

  predicate CachesValid(s: State) {
    && RefsInRange(s) && CacheInRange(s.cache, |s.handlers|)
    && (forall h :: 0 <= h < |s.handlers| ==> HandlerValid(s, h))
    && (forall k :: 0 <= k < |s.attempts| ==> AttemptValid(s, k))
    && (forall k <- s.live :: k < |s.attempts|)
  }

  ghost predicate Valid(s: State) {
    CachesValid(s) && Match(s)
  }

  /** All cached handlers, action by action. */
  function Cached(cache: seq<Entry>): seq<nat> {
    Flatten(HandlerLists(cache))
  }

  function HandlerLists(cache: seq<Entry>): seq<seq<nat>> {
    seq(|cache|, i requires 0 <= i < |cache| => cache[i].handlers)
  }

  predicate InRange(hs: seq<nat>, n: nat) {
    forall i :: 0 <= i < |hs| ==> hs[i] < n
  }

  predicate CacheInRange(cache: seq<Entry>, n: nat) {
    forall i :: 0 <= i < |cache| ==> InRange(cache[i].handlers, n)
  }

  /** A handler is cached when it is in the list of some action. */
  lemma CachedIff(cache: seq<Entry>, h: nat)
    ensures h in Cached(cache) <==> exists i :: 0 <= i < |cache| && h in cache[i].handlers
  {
    if h in Cached(cache) {
      var i := PartOf<nat>(HandlerLists(cache), h);
    }
    if i :| 0 <= i < |cache| && h in cache[i].handlers {
      InFlatten<nat>(HandlerLists(cache), i, h);
    }
  }

  lemma CachedInRange(cache: seq<Entry>, n: nat)
    requires CacheInRange(cache, n)
    ensures InRange(Cached(cache), n)
  {
    var hs := Cached(cache);
    forall k | 0 <= k < |hs| ensures hs[k] < n {
      CachedIff(cache, hs[k]);
    }
  }

  function StatusOf(s: State, h: nat): Status
    requires h < |s.handlers| && RefsInRange(s) && s.handlers[h].execInfo.Some?
  {
    s.attempts[s.handlers[h].execInfo.value].status
  }

  /** The handler is not marked as shut down, though the instance in its cache was released already. */
  predicate Revived(s: State, h: nat)
    requires h < |s.handlers| && RefsInRange(s)
  {
    && s.handlers[h].execInfo.Some? && !StatusOf(s, h).Shutdown?
    && s.handlers[h].instance.Some? && s.handlers[h].instance.value !in s.live
    && s.attempts[s.handlers[h].instance.value].services != []
  }

  lemma LiveIsCovered(s: State, k: nat)
    requires Match(s) && k in s.live && k < |s.attempts|
    ensures Covers(s, s.attempts[k].services, k)
  {
    forall sv ensures multiset(s.attempts[k].services)[sv] <= Users(s.usedBy, sv)[k] {
      assert Users(s.usedBy, sv)[k] == Holds(s, k, sv);
    }
  }

  lemma SameUsesKeepMatch(s: State, s': State)
    requires Match(s) && s'.usedBy == s.usedBy && s'.live == s.live && |s.attempts| <= |s'.attempts|
    requires forall k <- s.live :: k < |s.attempts| && s'.attempts[k].services == s.attempts[k].services
    ensures Match(s')
  {
    forall sv, g ensures Users(s'.usedBy, sv)[g] == Holds(s', g, sv) {
      assert Users(s.usedBy, sv)[g] == Holds(s, g, sv);
    }
  }

  lemma MarkingKeepsMatch(s: State, k: nat, status: Status)
    requires Valid(s) && k < |s.attempts|
    ensures Match(Marked(s, k, status))
  {
    SameUsesKeepMatch(s, Marked(s, k, status));
  }

  lemma DroppingAllKeepsMatch(s: State, k: nat)
    requires Match(s) && k in s.live && k < |s.attempts|
    ensures var r := DropUses(s, s.attempts[k].services, k);
            r.ok && Match(r.state.(live := r.state.live - {k}))
  {
    LiveIsCovered(s, k);
    var services := s.attempts[k].services;
    DroppingSucceeds(s, services, k);
    var r := DropUses(s, services, k).state;
    var s' := r.(live := r.live - {k});
    forall sv, g ensures Users(s'.usedBy, sv)[g] == Holds(s', g, sv) {
      DroppingCounts(s, services, k, sv, g);
      assert Users(s.usedBy, sv)[g] == Holds(s, g, sv);
    }
  }

  /** No list has an instance that was released. */
  lemma ReleasedIsNowhere(s: State, k: nat)
    requires Match(s) && k !in s.live
    ensures forall sv :: Users(s.usedBy, sv)[k] == 0
  {
    forall sv ensures Users(s.usedBy, sv)[k] == 0 {
      assert Users(s.usedBy, sv)[k] == Holds(s, k, sv);
    }
  }

  /** What a shutdown does to the lists, case by case: it leaves them alone, or releases the cached instance,
      or raises at once as that instance was released before. */
  lemma ShutdownCases(s: State, h: nat)
    requires Valid(s) && h < |s.handlers| && s.handlers[h].execInfo.Some?
    ensures var r, e := ShutdownHandler(s, h), s.handlers[h].execInfo.value;
            if Releases(s, h) then
              var k := s.handlers[h].instance.value;
              var dropped := DropUses(Marked(s, e, Shutdown), s.attempts[k].services, k);
              dropped.ok && r == Result(dropped.state.(live := s.live - {k}), true)
            else r == Result(Marked(s, e, Shutdown), !Revived(s, h))
  {
    var marked := Marked(s, s.handlers[h].execInfo.value, Shutdown);
    MarkingKeepsMatch(s, s.handlers[h].execInfo.value, Shutdown);
    if s.handlers[h].instance.Some? {
      var k := s.handlers[h].instance.value;
      assert marked.attempts[k].services == s.attempts[k].services;
      if k in s.live {
        LiveIsCovered(marked, k);
        DroppingSucceeds(marked, s.attempts[k].services, k);
      } else {
        ReleasedIsNowhere(marked, k);
        if s.attempts[k].services != [] {
          DroppingFails(marked, s.attempts[k].services, k);
        }
        assert marked.live - {k} == marked.live;
      }
    }
  }

  /** The shutdown of the handler releases the instance in its cache. */
  predicate Releases(s: State, h: nat)
    requires h < |s.handlers| && RefsInRange(s)
  {
    && s.handlers[h].execInfo.Some? && !StatusOf(s, h).Shutdown?
    && s.handlers[h].instance.Some? && s.handlers[h].instance.value in s.live
  }

  /** Shutting a handler down raises exactly for a revived handler. */
  lemma ShutdownFailsIff(s: State, h: nat)
    requires Valid(s) && h < |s.handlers| && s.handlers[h].execInfo.Some?
    ensures !ShutdownHandler(s, h).ok <==> Revived(s, h)
    ensures ShutdownHandler(s, h).state.live == if Releases(s, h) then s.live - {s.handlers[h].instance.value} else s.live
  {
    ShutdownCases(s, h);
  }

  lemma ShutdownKeepsValid(s: State, h: nat)
    requires Valid(s) && h < |s.handlers| && s.handlers[h].execInfo.Some?
    ensures Valid(ShutdownHandler(s, h).state)
  {
    var e := s.handlers[h].execInfo.value;
    ShutdownCases(s, h);
    MarkingKeepsMatch(s, e, Shutdown);
    if Releases(s, h) {
      var k := s.handlers[h].instance.value;
      assert Marked(s, e, Shutdown).attempts[k].services == s.attempts[k].services;
      DroppingAllKeepsMatch(Marked(s, e, Shutdown), k);
    }
    FewerLiveKeepCaches(s, ShutdownHandler(s, h).state);
  }

  predicate SameButStatus(a: Attempt, b: Attempt) {
    a.(status := b.status) == b
  }

  lemma FewerLiveKeepCaches(s: State, s': State)
    requires CachesValid(s) && s'.handlers == s.handlers && s'.cache == s.cache && s'.live <= s.live
    requires |s'.attempts| == |s.attempts|
    requires forall k :: 0 <= k < |s.attempts| ==> SameButStatus(s.attempts[k], s'.attempts[k])
    ensures CachesValid(s')
  {
    assert forall k :: 0 <= k < |s.attempts| ==> SameButStatus(s.attempts[k], s'.attempts[k]);
    forall h | 0 <= h < |s'.handlers| ensures HandlerValid(s', h) {
      assert HandlerValid(s, h);
    }
    forall k | 0 <= k < |s'.attempts| ensures AttemptValid(s', k) {
      assert AttemptValid(s, k);
    }
  }

  /** `sv` is used by no live instance but `k`. */
  predicate LastLiveUser(s: State, k: nat, sv: Service)
    requires k < |s.attempts|
  {
    && k in s.live && sv in s.attempts[k].services
    && forall g <- s.live :: g < |s.attempts| && g != k ==> sv !in s.attempts[g].services
  }

  lemma LastLiveUserIsLastUses(s: State, k: nat, sv: Service)
    requires Valid(s) && k in s.live
    ensures LastUses(s, k, sv, multiset(s.attempts[k].services)[sv]) <==> LastLiveUser(s, k, sv)
  {
    forall g ensures Users(s.usedBy, sv)[g] == Holds(s, g, sv) {
    }
    assert forall g <- s.live :: Users(s.usedBy, sv)[g] == 0 <==> sv !in s.attempts[g].services;
  }

  lemma MarkingKeepsUses(s: State, e: nat, k: nat, sv: Service, uses: nat)
    requires e < |s.attempts|
    ensures LastUses(Marked(s, e, Shutdown), k, sv, uses) <==> LastUses(s, k, sv, uses)
  {
  }

  /** A disposable service is disposed exactly when its last live user leaves, and then once. */
  lemma ShutdownDisposes(s: State, h: nat, sv: Service)
    requires Valid(s) && h < |s.handlers| && s.handlers[h].execInfo.Some?
    ensures multiset(ShutdownHandler(s, h).state.disposed)[sv] == multiset(s.disposed)[sv] +
            (if sv.disposable && Releases(s, h) && LastLiveUser(s, s.handlers[h].instance.value, sv) then 1 else 0)
  {
    var e := s.handlers[h].execInfo.value;
    ShutdownCases(s, h);
    if Releases(s, h) {
      var k := s.handlers[h].instance.value;
      DroppingDisposes(Marked(s, e, Shutdown), s.attempts[k].services, k, sv);
      LastLiveUserIsLastUses(s, k, sv);
      MarkingKeepsUses(s, e, k, sv, multiset(s.attempts[k].services)[sv]);
    }
  }

  // ----- several handlers -------------------------------------------------------------------------------

  /** The handlers that a round of shutdowns touches: those with an `exec_info` that are not shut down. */
  predicate Touched(s: State, hs: seq<nat>, h: nat)
    requires h < |s.handlers| && RefsInRange(s)
  {
    h in hs && s.handlers[h].execInfo.Some? && !StatusOf(s, h).Shutdown?
  }

  lemma {:induction false} HandlersKeepValid(s: State, hs: seq<nat>)
    requires Valid(s) && InRange(hs, |s.handlers|)
    ensures Valid(ShutdownHandlers(s, hs).state)
  {
    if hs != [] {
      var init, h := hs[..|hs| - 1], hs[|hs| - 1];
      HandlersKeepValid(s, init);
      var before := ShutdownHandlers(s, init);
      if before.ok && before.state.handlers[h].execInfo.Some? {
        ShutdownKeepsValid(before.state, h);
      }
    }
  }

  /** A round that got through the handlers marks the attempt if it is the touched handler's `exec_info` ... */
  predicate IsMarked(s: State, hs: seq<nat>, k: nat)
    requires k < |s.attempts| && CachesValid(s)
  {
    assert AttemptValid(s, k);
    s.handlers[s.attempts[k].handler].execInfo == Some(k) && Touched(s, hs, s.attempts[k].handler)
  }

  /** ... and releases its instance if it is in that handler's cache. */
  predicate IsReleased(s: State, hs: seq<nat>, k: nat)
    requires k < |s.attempts| && CachesValid(s)
  {
    assert AttemptValid(s, k);
    k in s.live && s.handlers[s.attempts[k].handler].instance == Some(k) && Touched(s, hs, s.attempts[k].handler)
  }

  function AfterMarking(s: State, hs: seq<nat>, k: nat): Attempt
    requires k < |s.attempts| && CachesValid(s)
  {
    if IsMarked(s, hs, k) then s.attempts[k].(status := Shutdown) else s.attempts[k]
  }

  /** What a round of shutdowns that did not raise has done. */
  predicate AllDown(s: State, hs: seq<nat>, s': State)
    requires CachesValid(s)
  {
    && s'.handlers == s.handlers && s'.cache == s.cache && |s'.attempts| == |s.attempts|
    && (forall k :: 0 <= k < |s.attempts| ==> s'.attempts[k] == AfterMarking(s, hs, k))
    && s'.live <= s.live
    && (forall k <- s.live :: k in s'.live <==> !IsReleased(s, hs, k))
  }

  lemma OneMoreTouched(s: State, hs: seq<nat>, h: nat, g: nat)
    requires CachesValid(s) && g < |s.handlers|
    ensures Touched(s, hs + [h], g) <==> Touched(s, hs, g) || (g == h && Touched(s, [h], g))
  {
  }

  lemma DownSoFar(s: State, hs: seq<nat>, t: State, h: nat)
    requires CachesValid(s) && h < |s.handlers| && AllDown(s, hs, t) && CachesValid(t)
    requires s.handlers[h].execInfo.Some?
    ensures StatusOf(t, h) == if Touched(s, hs, h) then Shutdown else StatusOf(s, h)
    ensures Revived(t, h) <==> Revived(s, h) && !Touched(s, hs, h)
    ensures Releases(t, h) <==> Releases(s, h) && !Touched(s, hs, h)
  {
    assert HandlerValid(s, h);
    var e := s.handlers[h].execInfo.value;
    assert t.attempts[e] == AfterMarking(s, hs, e);
    if s.handlers[h].instance.Some? {
      var k := s.handlers[h].instance.value;
      assert t.attempts[k] == AfterMarking(s, hs, k);
      assert k in s.live ==> (k in t.live <==> !IsReleased(s, hs, k));
    }
  }

  lemma OneMoreMarked(s: State, hs: seq<nat>, t: State, h: nat)
    requires CachesValid(s) && h < |s.handlers| && AllDown(s, hs, t) && CachesValid(t)
    requires s.handlers[h].execInfo.Some?
    ensures forall k :: 0 <= k < |s.attempts| ==>
              Marked(t, s.handlers[h].execInfo.value, Shutdown).attempts[k] == AfterMarking(s, hs + [h], k)
  {
    var e := s.handlers[h].execInfo.value;
    assert HandlerValid(s, h);
    DownSoFar(s, hs, t, h);
    forall k | 0 <= k < |s.attempts| ensures Marked(t, e, Shutdown).attempts[k] == AfterMarking(s, hs + [h], k) {
      assert AttemptValid(s, k);
      assert t.attempts[k] == AfterMarking(s, hs, k);
      OneMoreTouched(s, hs, h, s.attempts[k].handler);
    }
  }

  lemma OneMoreReleased(s: State, hs: seq<nat>, t: State, h: nat)
    requires CachesValid(s) && h < |s.handlers| && AllDown(s, hs, t) && CachesValid(t)
    requires s.handlers[h].execInfo.Some?
    ensures forall k <- s.live ::
              IsReleased(s, hs + [h], k) <==>
              IsReleased(s, hs, k) || (Releases(t, h) && t.handlers[h].instance == Some(k))
  {
    DownSoFar(s, hs, t, h);
    assert HandlerValid(s, h);
    forall k | k in s.live
      ensures IsReleased(s, hs + [h], k) <==>
              IsReleased(s, hs, k) || (Releases(t, h) && t.handlers[h].instance == Some(k))
    {
      assert AttemptValid(s, k);
      OneMoreTouched(s, hs, h, s.attempts[k].handler);
    }
  }

  lemma OneMoreDown(s: State, hs: seq<nat>, t: State, h: nat)
    requires Valid(s) && h < |s.handlers| && AllDown(s, hs, t) && Valid(t) && s.handlers[h].execInfo.Some?
    requires ShutdownHandler(t, h).ok
    ensures AllDown(s, hs + [h], ShutdownHandler(t, h).state)
  {
    var s' := ShutdownHandler(t, h).state;
    ShutdownFailsIff(t, h);
    OneMoreMarked(s, hs, t, h);
    OneMoreReleased(s, hs, t, h);
    forall k | k in s.live ensures k in s'.live <==> !IsReleased(s, hs + [h], k) {
      assert k in t.live <==> !IsReleased(s, hs, k);
    }
  }

  lemma NoneMoreDown(s: State, hs: seq<nat>, t: State, h: nat)
    requires CachesValid(s) && h < |s.handlers| && AllDown(s, hs, t) && s.handlers[h].execInfo.None?
    ensures AllDown(s, hs + [h], t)
  {
    forall k | 0 <= k < |s.attempts|
      ensures AfterMarking(s, hs + [h], k) == AfterMarking(s, hs, k)
      ensures IsReleased(s, hs + [h], k) == IsReleased(s, hs, k)
    {
      assert AttemptValid(s, k);
      OneMoreTouched(s, hs, h, s.attempts[k].handler);
    }
  }

  /** A round of shutdowns raises exactly when one of the handlers is revived. */
  lemma {:induction false} HandlersFailIff(s: State, hs: seq<nat>)
    requires Valid(s) && InRange(hs, |s.handlers|)
    ensures !ShutdownHandlers(s, hs).ok <==> exists h :: h in hs && Revived(s, h)
    ensures ShutdownHandlers(s, hs).ok ==> AllDown(s, hs, ShutdownHandlers(s, hs).state)
  {
    if hs == [] {
      assert forall k :: 0 <= k < |s.attempts| ==> AfterMarking(s, hs, k) == s.attempts[k];
    } else {
      var init, h := hs[..|hs| - 1], hs[|hs| - 1];
      assert hs == init + [h];
      HandlersFailIff(s, init);
      HandlersKeepValid(s, init);
      var t := ShutdownHandlers(s, init);
      if t.ok && s.handlers[h].execInfo.Some? {
        DownSoFar(s, init, t.state, h);
        ShutdownFailsIff(t.state, h);
        assert Touched(s, init, h) ==> !Revived(s, h);
        if ShutdownHandler(t.state, h).ok {
          OneMoreDown(s, init, t.state, h);
        }
      } else if t.ok {
        NoneMoreDown(s, init, t.state, h);
      }
    }
  }

  /** With everything down already, a round changes nothing. */
  lemma {:induction false} SecondRound(s: State, hs: seq<nat>)
    requires InRange(hs, |s.handlers|) && RefsInRange(s)
    requires forall h <- hs :: s.handlers[h].execInfo.None? || StatusOf(s, h).Shutdown?
    ensures ShutdownHandlers(s, hs) == Result(s, true)
  {
    if hs != [] {
      SecondRound(s, hs[..|hs| - 1]);
      assert hs[|hs| - 1] in hs;
    }
  }

  function ShutdownAll(s: State): (r: Result)
    requires CacheInRange(s.cache, |s.handlers|) && RefsInRange(s)
    ensures r.state.handlers == s.handlers && r.state.cache == s.cache && |r.state.attempts| == |s.attempts|
  {
    CachedInRange(s.cache, |s.handlers|);
    ShutdownHandlers(s, Cached(s.cache))
  }

  /** `shutdown_all_action_handlers` a second time changes nothing. */
  lemma SecondShutdownAllChangesNothing(s: State)
    requires Valid(s) && ShutdownAll(s).ok
    ensures var s' := ShutdownAll(s).state; ShutdownAll(s') == Result(s', true)
  {
    var hs, s' := Cached(s.cache), ShutdownAll(s).state;
    CachedInRange(s.cache, |s.handlers|);
    HandlersFailIff(s, hs);
    HandlersKeepValid(s, hs);
    forall h | h in hs && s.handlers[h].execInfo.Some? ensures StatusOf(s', h).Shutdown? {
      DownSoFar(s, hs, s', h);
    }
    SecondRound(s', hs);
  }

  // ----- runs -------------------------------------------------------------------------------------------

  /** Everything that happens to handlers. Instantiation awaits between `Begin` and its end, and again
      between `Register` and its end, so that shutdowns and other attempts can come in between. */
  datatype Event =
    | Prepare(action: string)                     // a new entry for a handler of the action
    | Begin(h: nat)
    | PlainFunction(h: nat)                       // the handler is no class: nothing to instantiate
    | GiveUp(k: nat)                              // a dependency is missing or the constructor raises
    | Register(k: nat, services: seq<Service>)
    | InitDone(k: nat)
    | InitFailed(k: nat)
    | ShutdownEverything
    | Reload(action: string, known: bool)
    | ExitEverything                              // every action forgets its handlers

  function AddTo(cache: seq<Entry>, action: string, h: nat): seq<Entry> {
    if cache == [] then [Entry(action, [h])]
    else if cache[0].action == action then [Entry(action, cache[0].handlers + [h])] + cache[1..]
    else [cache[0]] + AddTo(cache[1..], action, h)
  }

  function Without(cache: seq<Entry>, i: nat): seq<Entry>
    requires i < |cache|
  {
    cache[..i] + cache[i + 1..]
  }

  function Emptied(cache: seq<Entry>): seq<Entry> {
    seq(|cache|, i requires 0 <= i < |cache| => Entry(cache[i].action, []))
  }

  function IndexOf(cache: seq<Entry>, action: string): (i: nat)
    ensures i <= |cache| && (i < |cache| ==> cache[i].action == action)
    ensures forall j :: 0 <= j < i ==> cache[j].action != action
  {
    if cache == [] || cache[0].action == action then 0 else 1 + IndexOf(cache[1..], action)
  }

  /** `reload_action`, up to the modules it forgets. */
  function ReloadAction(s: State, action: string, known: bool): Result
    requires CacheInRange(s.cache, |s.handlers|) && RefsInRange(s)
  {
    var i := IndexOf(s.cache, action);
    if !known || i == |s.cache| then Result(s, true)
    else
      var r := ShutdownHandlers(s, s.cache[i].handlers);
      if r.ok then r.(state := r.state.(cache := Without(s.cache, i))) else r
  }

  /** A new attempt, whose `exec_info` goes into the cache at once. */
  function Begun(s: State, h: nat, phase: Phase, status: Status): State
    requires h < |s.handlers|
  {
    s.(attempts := s.attempts + [Attempt(h, phase, status, [])],
       handlers := s.handlers[h := s.handlers[h].(execInfo := Some(|s.attempts|))])
  }

  function Moved(s: State, k: nat, phase: Phase, status: Status): State
    requires k < |s.attempts|
  {
    s.(attempts := s.attempts[k := s.attempts[k].(phase := phase, status := status)])
  }

  /** The instance is there: it goes into the cache, over another one if need be, and into the lists. */
  function Registered(s: State, k: nat, services: seq<Service>): State
    requires k < |s.attempts| && s.attempts[k].handler < |s.handlers|
  {
    var h := s.attempts[k].handler;
    s.(attempts := s.attempts[k := s.attempts[k].(phase := Initialising, services := services)],
       handlers := s.handlers[h := s.handlers[h].(instance := Some(k))],
       usedBy := WithUses(s.usedBy, services, k), live := s.live + {k})
  }

  predicate Enabled(s: State, e: Event) {
    match e
    case Begin(h) => h < |s.handlers| && s.handlers[h].instance.None?
    case PlainFunction(h) => h < |s.handlers| && s.handlers[h].instance.None?
    case GiveUp(k) => k < |s.attempts| && s.attempts[k].phase.Resolving?
    case Register(k, _) => k < |s.attempts| && s.attempts[k].phase.Resolving?
    case InitDone(k) => k < |s.attempts| && s.attempts[k].phase.Initialising?
    case InitFailed(k) => k < |s.attempts| && s.attempts[k].phase.Initialising?
    case _ => true
  }

  function Step(s: State, e: Event): Result
    requires CachesValid(s) && Enabled(s, e)
  {
    match e
    case Prepare(action) =>
      Result(s.(handlers := s.handlers + [Handler(None, None)], cache := AddTo(s.cache, action, |s.handlers|)), true)
    case Begin(h) => Result(Begun(s, h, Resolving, Created), true)
    case PlainFunction(h) => Result(Begun(s, h, Finished, Initialized), true)
    case GiveUp(k) => Result(Moved(s, k, Finished, s.attempts[k].status), true)
    case Register(k, services) =>
      assert AttemptValid(s, k);
      Result(Registered(s, k, services), true)
    case InitDone(k) => Result(Moved(s, k, Finished, Initialized), true)
    case InitFailed(k) => Result(Moved(s, k, Finished, s.attempts[k].status), true)
    case ShutdownEverything => ShutdownAll(s)
    case Reload(action, known) => ReloadAction(s, action, known)
    case ExitEverything => Result(s.(cache := Emptied(s.cache)), true)
  }

  /** Whatever raises, the next event finds the state it left. */
  ghost predicate Run(states: seq<State>, events: seq<Event>) {
    && |states| == |events| + 1 && states[0] == State([], [], [], map[], {}, [])
    && forall i :: 0 <= i < |events| ==> Follows(states, events, i)
  }

  ghost predicate Follows(states: seq<State>, events: seq<Event>, i: nat)
    requires i < |events| && |states| == |events| + 1
  {
    CachesValid(states[i]) && Enabled(states[i], events[i]) && states[i + 1] == Step(states[i], events[i]).state
  }

  lemma {:induction false} AddingInRange(cache: seq<Entry>, action: string, n: nat)
    requires CacheInRange(cache, n)
    ensures CacheInRange(AddTo(cache, action, n), n + 1)
  {
    if cache != [] {
      assert CacheInRange(cache[1..], n);
      AddingInRange(cache[1..], action, n);
    }
  }

  lemma PreparingKeepsValid(s: State, action: string)
    requires Valid(s)
    ensures Valid(Step(s, Prepare(action)).state)
  {
    var s' := Step(s, Prepare(action)).state;
    SameUsesKeepMatch(s, s');
    AddingInRange(s.cache, action, |s.handlers|);
    forall g | 0 <= g < |s.handlers| ensures s'.handlers[g] == s.handlers[g] && HandlerValid(s, g) {
    }
    forall k | 0 <= k < |s.attempts| ensures AttemptValid(s', k) {
      assert AttemptValid(s, k);
    }
  }

  lemma BeginningKeepsValid(s: State, h: nat, phase: Phase, status: Status)
    requires Valid(s) && h < |s.handlers| && s.handlers[h].instance.None?
    ensures Valid(Begun(s, h, phase, status))
  {
    var s' := Begun(s, h, phase, status);
    SameUsesKeepMatch(s, s');
    forall g | 0 <= g < |s.handlers| ensures HandlerValid(s', g) {
      assert HandlerValid(s, g);
    }
    forall k | 0 <= k < |s'.attempts| ensures AttemptValid(s', k) {
      if k < |s.attempts| {
        assert AttemptValid(s, k);
      }
    }
  }

  lemma MovingKeepsValid(s: State, k: nat, phase: Phase, status: Status)
    requires Valid(s) && k < |s.attempts| && !phase.Resolving?
    ensures Valid(Moved(s, k, phase, status))
  {
    var s' := Moved(s, k, phase, status);
    SameUsesKeepMatch(s, s');
    forall h | 0 <= h < |s.handlers| ensures HandlerValid(s', h) {
      assert HandlerValid(s, h);
    }
    forall g | 0 <= g < |s.attempts| ensures AttemptValid(s', g) {
      assert AttemptValid(s, g);
    }
  }

  lemma RegisteringKeepsMatch(s: State, k: nat, services: seq<Service>)
    requires Valid(s) && Enabled(s, Register(k, services))
    ensures s.attempts[k].handler < |s.handlers| && Match(Registered(s, k, services))
  {
    assert AttemptValid(s, k);
    var s' := Registered(s, k, services);
    forall sv, g ensures Users(s'.usedBy, sv)[g] == Holds(s', g, sv) {
      assert Users(s.usedBy, sv)[g] == Holds(s, g, sv);
      RegisteringCounts(s.usedBy, services, k, sv, g);
    }
  }

  lemma RegisteringKeepsValid(s: State, k: nat, services: seq<Service>)
    requires Valid(s) && Enabled(s, Register(k, services))
    ensures s.attempts[k].handler < |s.handlers| && Valid(Registered(s, k, services))
  {
    assert AttemptValid(s, k);
    RegisteringKeepsMatch(s, k, services);
    var s' := Registered(s, k, services);
    forall h | 0 <= h < |s.handlers| ensures HandlerValid(s', h) {
      assert HandlerValid(s, h);
    }
    forall g | 0 <= g < |s.attempts| ensures AttemptValid(s', g) {
      assert AttemptValid(s, g);
    }
  }

  lemma CacheKeepsValid(s: State, cache: seq<Entry>)
    requires Valid(s) && CacheInRange(cache, |s.handlers|)
    ensures Valid(s.(cache := cache))
  {
    var s' := s.(cache := cache);
    SameUsesKeepMatch(s, s');
    forall h | 0 <= h < |s.handlers| ensures HandlerValid(s', h) {
      assert HandlerValid(s, h);
    }
    forall k | 0 <= k < |s.attempts| ensures AttemptValid(s', k) {
      assert AttemptValid(s, k);
    }
  }

  lemma ReloadingKeepsValid(s: State, action: string, known: bool)
    requires Valid(s)
    ensures Valid(ReloadAction(s, action, known).state)
  {
    var i := IndexOf(s.cache, action);
    if known && i < |s.cache| {
      HandlersKeepValid(s, s.cache[i].handlers);
      var r := ShutdownHandlers(s, s.cache[i].handlers);
      if r.ok {
        CacheKeepsValid(r.state, Without(s.cache, i));
      }
    }
  }

  lemma StepKeepsValid(s: State, e: Event)
    requires Valid(s) && Enabled(s, e)
    ensures Valid(Step(s, e).state)
  {
    match e
    case Prepare(action) => PreparingKeepsValid(s, action);
    case Begin(h) => BeginningKeepsValid(s, h, Resolving, Created);
    case PlainFunction(h) => BeginningKeepsValid(s, h, Finished, Initialized);
    case GiveUp(k) => MovingKeepsValid(s, k, Finished, s.attempts[k].status);
    case Register(k, services) => RegisteringKeepsValid(s, k, services);
    case InitDone(k) => MovingKeepsValid(s, k, Finished, Initialized);
    case InitFailed(k) => MovingKeepsValid(s, k, Finished, s.attempts[k].status);
    case ShutdownEverything =>
      CachedInRange(s.cache, |s.handlers|);
      HandlersKeepValid(s, Cached(s.cache));
    case Reload(action, known) => ReloadingKeepsValid(s, action, known);
    case ExitEverything => CacheKeepsValid(s, Emptied(s.cache));
  }

  /** Every run keeps the match, whatever raises on the way and however attempts overlap. */
  lemma {:induction false} RunKeepsValid(states: seq<State>, events: seq<Event>, i: nat)
    requires Run(states, events) && i < |states|
    ensures Valid(states[i])
  {
    if i > 0 {
      RunKeepsValid(states, events, i - 1);
      assert Follows(states, events, i - 1);
      StepKeepsValid(states[i - 1], events[i - 1]);
    }
  }

  /** The condition on the caches in `Run` only makes `Step` defined. */
  lemma RunGoesOn(states: seq<State>, events: seq<Event>, e: Event)
    requires Run(states, events) && Enabled(states[|events|], e)
    ensures CachesValid(states[|events|])
    ensures Run(states + [Step(states[|events|], e).state], events + [e])
  {
    RunKeepsValid(states, events, |events|);
    var states', events' := states + [Step(states[|events|], e).state], events + [e];
    forall i | 0 <= i < |events'| ensures Follows(states', events', i) {
      if i < |events| {
        assert Follows(states, events, i);
      }
    }
  }

  // ----- when a shutdown raises -------------------------------------------------------------------------

  predicate NoneRevived(s: State)
    requires RefsInRange(s)
  {
    forall h :: 0 <= h < |s.handlers| ==> !Revived(s, h)
  }

  /** The initialisation ends after its `exec_info` was marked as shut down, while the instance in the cache is
      one that was released. */
  predicate FinishesAfterShutdown(s: State, e: Event)
    requires CachesValid(s) && Enabled(s, e)
  {
    && e.InitDone?
    && assert AttemptValid(s, e.k);
       var h := s.attempts[e.k].handler;
       && s.handlers[h].execInfo == Some(e.k) && s.attempts[e.k].status.Shutdown?
       && s.handlers[h].instance.Some? && s.handlers[h].instance.value !in s.live
       && s.attempts[s.handlers[h].instance.value].services != []
  }

  lemma HandlersReviveNone(s: State, hs: seq<nat>)
    requires Valid(s) && InRange(hs, |s.handlers|) && NoneRevived(s)
    ensures ShutdownHandlers(s, hs).ok && NoneRevived(ShutdownHandlers(s, hs).state)
  {
    HandlersFailIff(s, hs);
    HandlersKeepValid(s, hs);
    var s' := ShutdownHandlers(s, hs).state;
    forall h | 0 <= h < |s'.handlers| ensures !Revived(s', h) {
      assert !Revived(s, h);
      if s.handlers[h].execInfo.Some? {
        DownSoFar(s, hs, s', h);
      }
    }
  }

  lemma ReloadingRevivesNone(s: State, action: string, known: bool)
    requires Valid(s) && NoneRevived(s)
    ensures ReloadAction(s, action, known).ok && NoneRevived(ReloadAction(s, action, known).state)
  {
    var i := IndexOf(s.cache, action);
    if known && i < |s.cache| {
      HandlersReviveNone(s, s.cache[i].handlers);
      var r := ShutdownHandlers(s, s.cache[i].handlers).state;
      SameRevived(r, r.(cache := Without(s.cache, i)));
    }
  }

  /** Being revived is a matter of the handler's own attempts. */
  lemma SameRevived(s: State, s': State)
    requires RefsInRange(s) && NoneRevived(s) && s'.live == s.live && RefsInRange(s')
    requires |s'.handlers| == |s.handlers| && s'.handlers == s.handlers && s'.attempts == s.attempts
    ensures NoneRevived(s')
  {
    forall h | 0 <= h < |s'.handlers| ensures !Revived(s', h) {
      assert !Revived(s, h);
    }
  }

  lemma EndingRevivesIff(s: State, k: nat)
    requires Valid(s) && NoneRevived(s) && k < |s.attempts| && s.attempts[k].phase.Initialising?
    ensures NoneRevived(Moved(s, k, Finished, Initialized)) <==> !FinishesAfterShutdown(s, InitDone(k))
  {
    var s', h := Moved(s, k, Finished, Initialized), s.attempts[k].handler;
    assert AttemptValid(s, k);
    forall g | 0 <= g < |s.handlers| ensures Revived(s', g) <==> g == h && FinishesAfterShutdown(s, InitDone(k)) {
      assert !Revived(s, g) && HandlerValid(s, g);
    }
    assert Revived(s', h) <==> FinishesAfterShutdown(s, InitDone(k));
  }

  lemma MovingRevivesNone(s: State, k: nat)
    requires Valid(s) && NoneRevived(s) && k < |s.attempts|
    ensures NoneRevived(Moved(s, k, Finished, s.attempts[k].status))
  {
    forall g | 0 <= g < |s.handlers| ensures !Revived(Moved(s, k, Finished, s.attempts[k].status), g) {
      assert !Revived(s, g);
    }
  }

  lemma RegisteringRevivesNone(s: State, k: nat, services: seq<Service>)
    requires Valid(s) && NoneRevived(s) && Enabled(s, Register(k, services))
    ensures RefsInRange(Step(s, Register(k, services)).state) && NoneRevived(Step(s, Register(k, services)).state)
  {
    var s' := Step(s, Register(k, services)).state;
    RegisteringKeepsValid(s, k, services);
    forall g | 0 <= g < |s.handlers| ensures !Revived(s', g) {
      assert !Revived(s, g) && HandlerValid(s, g);
    }
  }

  lemma BeginningRevivesNone(s: State, h: nat, phase: Phase, status: Status)
    requires Valid(s) && NoneRevived(s) && h < |s.handlers| && s.handlers[h].instance.None?
    ensures RefsInRange(Begun(s, h, phase, status)) && NoneRevived(Begun(s, h, phase, status))
  {
    BeginningKeepsValid(s, h, phase, status);
    forall g | 0 <= g < |s.handlers| ensures !Revived(Begun(s, h, phase, status), g) {
      assert !Revived(s, g);
    }
  }

  lemma PreparingRevivesNone(s: State, action: string)
    requires Valid(s) && NoneRevived(s)
    ensures NoneRevived(Step(s, Prepare(action)).state)
  {
    PreparingKeepsValid(s, action);
    forall g | 0 <= g < |s.handlers| ensures !Revived(Step(s, Prepare(action)).state, g) {
      assert !Revived(s, g);
    }
  }

  /** Only the late end of an initialisation leaves a handler that the next shutdown trips over. */
  lemma StepRevivesIff(s: State, e: Event)
    requires Valid(s) && Enabled(s, e) && NoneRevived(s)
    ensures Step(s, e).ok && RefsInRange(Step(s, e).state)
    ensures NoneRevived(Step(s, e).state) <==> !FinishesAfterShutdown(s, e)
  {
    StepKeepsValid(s, e);
    match e
    case Prepare(action) => PreparingRevivesNone(s, action);
    case Begin(h) => BeginningRevivesNone(s, h, Resolving, Created);
    case PlainFunction(h) => BeginningRevivesNone(s, h, Finished, Initialized);
    case GiveUp(k) => MovingRevivesNone(s, k);
    case Register(k, services) => RegisteringRevivesNone(s, k, services);
    case InitDone(k) => EndingRevivesIff(s, k);
    case InitFailed(k) => MovingRevivesNone(s, k);
    case ShutdownEverything =>
      CachedInRange(s.cache, |s.handlers|);
      HandlersReviveNone(s, Cached(s.cache));
    case Reload(action, known) => ReloadingRevivesNone(s, action, known);
    case ExitEverything => SameRevived(s, Step(s, e).state);
  }

  /** The run has no late end of an initialisation before step `i`. */
  ghost predicate NoLateEnd(states: seq<State>, events: seq<Event>, i: nat)
    requires Run(states, events) && i <= |events|
  {
    forall j :: 0 <= j < i ==> Follows(states, events, j) && !FinishesAfterShutdown(states[j], events[j])
  }

  /** Nothing ever raises in a run in which no initialisation ends after the shutdown of its handler. */
  lemma {:induction false} RunNeverFails(states: seq<State>, events: seq<Event>, i: nat)
    requires Run(states, events) && i < |states| && NoLateEnd(states, events, i)
    ensures Valid(states[i]) && NoneRevived(states[i])
    ensures i < |events| ==> Follows(states, events, i) && Step(states[i], events[i]).ok
  {
    RunKeepsValid(states, events, i);
    if i > 0 {
      RunNeverFails(states, events, i - 1);
      StepRevivesIff(states[i - 1], events[i - 1]);
    }
    if i < |events| {
      assert Follows(states, events, i);
      StepRevivesIff(states[i], events[i]);
    }
  }

  /** Shutting everything down raises exactly when the cache has a revived handler, in particular right
      after a late end of an initialisation. */
  lemma ShutdownAllFailsIff(s: State)
    requires Valid(s)
    ensures !ShutdownAll(s).ok <==> exists h :: h in Cached(s.cache) && h < |s.handlers| && Revived(s, h)
  {
    CachedInRange(s.cache, |s.handlers|);
    HandlersFailIff(s, Cached(s.cache));
  }

  lemma LateEndMakesShutdownFail(s: State, k: nat)
    requires Valid(s) && Enabled(s, InitDone(k)) && FinishesAfterShutdown(s, InitDone(k))
    requires s.attempts[k].handler in Cached(s.cache)
    ensures Valid(Step(s, InitDone(k)).state) && !ShutdownAll(Step(s, InitDone(k)).state).ok
  {
    StepKeepsValid(s, InitDone(k));
    assert AttemptValid(s, k);
    var s', h := Step(s, InitDone(k)).state, s.attempts[k].handler;
    ShutdownAllFailsIff(s');
    assert HandlerValid(s, h);
    assert Revived(s', h);
  }

  // ----- the runner's own state --------------------------------------------------------------------------

  lemma {:induction false} DroppingStopped(s: State, services: seq<Service>, k: nat, n: nat)
    requires n <= |services| && !DropUses(s, services[..n], k).ok
    ensures DropUses(s, services, k) == DropUses(s, services[..n], k)
  {
    if n < |services| {
      assert services[..|services| - 1][..n] == services[..n];
      DroppingStopped(s, services[..|services| - 1], k, n);
    } else {
      assert services[..n] == services;
    }
  }

  lemma {:induction false} RoundStopped(s: State, a: seq<nat>, b: seq<nat>)
    requires InRange(a, |s.handlers|) && InRange(a + b, |s.handlers|) && RefsInRange(s) && !ShutdownHandlers(s, a).ok
    ensures ShutdownHandlers(s, a + b) == ShutdownHandlers(s, a)
  {
    if b == [] {
      assert a + b == a;
    } else {
      var init := b[..|b| - 1];
      assert (a + b)[..|a + b| - 1] == a + init;
      RoundStopped(s, a, init);
    }
  }

  class Runner {
    var handlers: seq<Handler>
    var attempts: seq<Attempt>
    var cache: seq<Entry>
    var usedBy: map<Service, seq<nat>>
    var disposed: seq<Service>
    ghost var live: set<nat>

    ghost function View(): State
      reads this
    {
      State(handlers, attempts, cache, usedBy, live, disposed)
    }

    constructor ()
      ensures View() == State([], [], [], map[], {}, [])
    {
      handlers, attempts, cache, usedBy, disposed, live := [], [], [], map[], [], {};
    }

    /** The first stretch of an attempt, up to where it awaits the dependencies. */
    method BeginAttempt(h: nat) returns (begun: bool)
      requires h < |handlers|
      modifies this
      ensures begun <==> Enabled(old(View()), Begin(h))
      ensures View() == if begun then Begun(old(View()), h, Resolving, Created) else old(View())
    {
      if handlers[h].instance.Some? {
        return false;
      }
      attempts := attempts + [Attempt(h, Resolving, Created, [])];
      handlers := handlers[h := handlers[h].(execInfo := Some(|attempts| - 1))];
      return true;
    }

    /** The instance is there: remember it and its services and enter it in their lists. */
    method RegisterServices(k: nat, services: seq<Service>)
      requires k < |attempts| && attempts[k].handler < |handlers|
      modifies this
      ensures View() == Registered(old(View()), k, services)
    {
      var h := attempts[k].handler;
      attempts := attempts[k := attempts[k].(phase := Initialising, services := services)];
      handlers := handlers[h := handlers[h].(instance := Some(k))];
      for i := 0 to |services|
        modifies `usedBy
        invariant usedBy == WithUses(old(usedBy), services[..i], k)
      {
        assert services[..i + 1][..i] == services[..i];
        if services[i] !in usedBy {
          usedBy := usedBy[services[i] := []];
        }
        usedBy := usedBy[services[i] := usedBy[services[i]] + [k]];
      }
      assert services[..|services|] == services;
      live := live + {k};
    }

    /** One turn of the loop over the used services; false where the look-up or the removal raises. */
    method ReleaseService(sv: Service, k: nat) returns (ok: bool)
      modifies `usedBy, `disposed
      ensures Result(View(), ok) == DropUser(old(View()), sv, k)
    {
      if sv !in usedBy || k !in usedBy[sv] {
        return false;
      }
      usedBy := usedBy[sv := RemoveFirst(usedBy[sv], k)];
      if |usedBy[sv]| == 0 && sv.disposable {
        disposed := disposed + [sv];
      }
      return true;
    }

    method ReleaseServices(services: seq<Service>, k: nat) returns (ok: bool)
      modifies `usedBy, `disposed
      ensures Result(View(), ok) == DropUses(old(View()), services, k)
    {
      ghost var s := View();
      for i := 0 to |services|
        invariant Result(View(), true) == DropUses(s, services[..i], k)
      {
        assert services[..i + 1][..i] == services[..i];
        ok := ReleaseService(services[i], k);
        if !ok {
          DroppingStopped(s, services, k, i + 1);
          return;
        }
      }
      assert services[..|services|] == services;
      return true;
    }

    method ShutdownActionHandler(h: nat) returns (ok: bool)
      requires h < |handlers| && RefsInRange(View()) && handlers[h].execInfo.Some?
      modifies this
      ensures Result(View(), ok) == ShutdownHandler(old(View()), h)
    {
      var e := handlers[h].execInfo.value;
      if attempts[e].status.Shutdown? {
        return true;
      }
      attempts := attempts[e := attempts[e].(status := Shutdown)];
      if handlers[h].instance.None? {
        return true;
      }
      var k := handlers[h].instance.value;
      ok := ReleaseServices(attempts[k].services, k);
      if ok {
        live := live - {k};
      }
    }

    method ShutdownEach(hs: seq<nat>) returns (ok: bool)
      requires InRange(hs, |handlers|) && RefsInRange(View())
      modifies this
      ensures Result(View(), ok) == ShutdownHandlers(old(View()), hs)
    {
      ghost var s := View();
      for i := 0 to |hs|
        invariant InRange(hs[..i], |s.handlers|)
        invariant Result(View(), true) == ShutdownHandlers(s, hs[..i])
      {
        assert hs[..i + 1][..i] == hs[..i];
        if handlers[hs[i]].execInfo.Some? {
          ok := ShutdownActionHandler(hs[i]);
          if !ok {
            assert hs == hs[..i + 1] + hs[i + 1..];
            RoundStopped(s, hs[..i + 1], hs[i + 1..]);
            return;
          }
        }
      }
      assert hs[..|hs|] == hs;
      return true;
    }

    method ShutdownAllActionHandlers() returns (ok: bool)
      requires CacheInRange(cache, |handlers|) && RefsInRange(View())
      modifies this
      ensures Result(View(), ok) == ShutdownAll(old(View()))
    {
      CachedInRange(cache, |handlers|);
      var all: seq<nat> := [];
      for i := 0 to |cache|
        invariant all == Cached(cache[..i])
      {
        assert HandlerLists(cache[..i + 1])[..i] == HandlerLists(cache[..i]);
        all := all + cache[i].handlers;
      }
      assert cache[..|cache|] == cache;
      ok := ShutdownEach(all);
    }

    method ReloadCachedAction(action: string, known: bool) returns (ok: bool)
      requires CacheInRange(cache, |handlers|) && RefsInRange(View())
      modifies this
      ensures Result(View(), ok) == ReloadAction(old(View()), action, known)
    {
      if !known {
        return true;
      }
      var i := 0;
      while i < |cache| && cache[i].action != action
        invariant i <= |cache| && forall j :: 0 <= j < i ==> cache[j].action != action
      {
        i := i + 1;
      }
      ghost var first := IndexOf(cache, action);
      if i == |cache| {
        return true;
      }
      ok := ShutdownEach(cache[i].handlers);
      if ok {
        cache := cache[..i] + cache[i + 1..];
      }
    }
  }
}
