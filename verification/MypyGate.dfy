/** One dmypy run per project: the gate of events and the lock behind it. */
module MypyGate {
  import opened Options

  type Project = string

  /** Where a check of one file stands at its awaits. `Waiting` names the event it waits for by its
      maker. From `ReadingVersions` to `Saving` a check has its project's entry in the gate. */
  datatype Pc =
    | AskingCache
    | Waiting(event: nat)
    | ReadingVersions
    | LockWaiting
    | InDmypy
    | Saving
    | Done
    | DiedReading       // the file versions could not be read: that is outside the `try`

  datatype Task = Task(project: Project, pc: Pc)

  /** `gate` maps a project to its event, `holder` to whoever has its lock; `signalled` has the events that are set.
      `keyErrors` counts deletions of an entry that is not there. */
  datatype State = State(tasks: seq<Task>, gate: map<Project, nat>, holder: map<Project, nat>,
                         signalled: set<nat>, keyErrors: nat)

  /** What a check finds when it goes on. An exception stands for a cancellation too. */
  datatype Outcome = Fine | Raised

  datatype Event =
    | Arrive(project: Project)
    | CacheHit(t: nat)
    | CacheMiss(t: nat)
    | CacheFails(t: nat)
    | VersionsRead(t: nat, outcome: Outcome)
    | GetLock(t: nat)                       // a task that waited for the lock gets it
    | DmypyEnds(t: nat, outcome: Outcome)   // `Fine` includes the failures that mypy reports
    | SavingEnds(t: nat, outcome: Outcome)
    | Wake(t: nat)
    | GiveUpWaiting(t: nat)

  function At(s: State, t: nat, pc: Pc): State
    requires t < |s.tasks|
  {
    s.(tasks := s.tasks[t := s.tasks[t].(pc := pc)])
  }

  /** After a cache miss there is no await before the entry is looked up and made. */
  function AfterMiss(s: State, t: nat): State
    requires t < |s.tasks|
  {
    var p := s.tasks[t].project;
    if p in s.gate then At(s, t, Waiting(s.gate[p])) else At(s.(gate := s.gate[p := t]), t, ReadingVersions)
  }

  /** A free lock is taken without an await. */
  function AfterVersions(s: State, t: nat): State
    requires t < |s.tasks|
  {
    var p := s.tasks[t].project;
    if p in s.holder then At(s, t, LockWaiting) else At(s.(holder := s.holder[p := t]), t, InDmypy)
  }

  function Unlocked(s: State, t: nat): State
    requires t < |s.tasks|
  {
    s.(holder := s.holder - {s.tasks[t].project})
  }

  /** The `finally`: set the event, delete the entry. */
  function Leave(s: State, t: nat): State
    requires t < |s.tasks|
  {
    var p := s.tasks[t].project;
    At(s.(signalled := s.signalled + {t}, gate := s.gate - {p},
          keyErrors := s.keyErrors + (if p in s.gate then 0 else 1)), t, Done)
  }

  predicate Enabled(s: State, e: Event) {
    e.Arrive? || (e.t < |s.tasks| &&
      var pc := s.tasks[e.t].pc;
      match e
      case CacheHit(_) => pc.AskingCache?
      case CacheMiss(_) => pc.AskingCache?
      case CacheFails(_) => pc.AskingCache?
      case VersionsRead(_, _) => pc.ReadingVersions?
      case GetLock(t) => pc.LockWaiting? && s.tasks[t].project !in s.holder
      case DmypyEnds(_, _) => pc.InDmypy?
      case SavingEnds(_, _) => pc.Saving?
      case Wake(_) => pc.Waiting? && pc.event in s.signalled
      case GiveUpWaiting(_) => pc.Waiting? || pc.LockWaiting?)
  }

  function Step(s: State, e: Event): State
    requires Enabled(s, e)
  {
    match e
    case Arrive(project) => s.(tasks := s.tasks + [Task(project, AskingCache)])
    case CacheHit(t) => At(s, t, Done)
    case CacheMiss(t) => AfterMiss(s, t)
    case CacheFails(t) => At(s, t, Done)
    case VersionsRead(t, outcome) => if outcome.Raised? then At(s, t, DiedReading) else AfterVersions(s, t)
    case GetLock(t) => At(s.(holder := s.holder[s.tasks[t].project := t]), t, InDmypy)
    case DmypyEnds(t, outcome) => if outcome.Raised? then Leave(Unlocked(s, t), t) else At(Unlocked(s, t), t, Saving)
    case SavingEnds(t, _) => Leave(s, t)
    case Wake(t) => At(s, t, Done)
    case GiveUpWaiting(t) => if s.tasks[t].pc.LockWaiting? then Leave(s, t) else At(s, t, Done)
  }

  ghost predicate Run(states: seq<State>, events: seq<Event>) {
    && |states| == |events| + 1 && states[0] == State([], map[], map[], {}, 0)
    && forall i :: 0 <= i < |events| ==> Follows(states, events, i)
  }

  predicate Follows(states: seq<State>, events: seq<Event>, i: nat)
    requires i < |events| && |states| == |events| + 1
  {
    Enabled(states[i], events[i]) && states[i + 1] == Step(states[i], events[i])
  }

  // ----- what every step keeps ----------------------------------------------------------------------------

  predicate HasEntry(pc: Pc) {
    pc.ReadingVersions? || pc.LockWaiting? || pc.InDmypy? || pc.Saving? || pc.DiedReading?
  }

  /** The entry of a project is the event of the one task that is past the gate. */
  predicate GateValid(s: State) {
    && (forall t :: 0 <= t < |s.tasks| && HasEntry(s.tasks[t].pc) ==>
          s.tasks[t].project in s.gate && s.gate[s.tasks[t].project] == t)
    && (forall p <- s.gate ::
          s.gate[p] < |s.tasks| && HasEntry(s.tasks[s.gate[p]].pc) && s.tasks[s.gate[p]].project == p)
    && s.keyErrors == 0
  }

  predicate LockValid(s: State) {
    && (forall t :: 0 <= t < |s.tasks| ==> !s.tasks[t].pc.LockWaiting?)
    && (forall t :: 0 <= t < |s.tasks| && s.tasks[t].pc.InDmypy? ==>
          s.tasks[t].project in s.holder && s.holder[s.tasks[t].project] == t)
    && (forall p <- s.holder ::
          s.holder[p] < |s.tasks| && s.tasks[s.holder[p]].pc.InDmypy? && s.tasks[s.holder[p]].project == p)
  }

  /** An event is set when its task leaves the gate. A task that waits does so for an event that is set,
      or for a task of its own project past the gate. */
  predicate EventsValid(s: State) {
    && (forall t <- s.signalled :: t < |s.tasks| && s.tasks[t].pc.Done?)
    && (forall t :: 0 <= t < |s.tasks| && s.tasks[t].pc.Waiting? ==>
          var w := s.tasks[t].pc.event;
          w in s.signalled || (w < |s.tasks| && HasEntry(s.tasks[w].pc) && s.tasks[w].project == s.tasks[t].project))
  }

  predicate Valid(s: State) {
    GateValid(s) && LockValid(s) && EventsValid(s)
  }

  /** Only task `t` moves. */
  predicate OneMoves(s: State, s': State, t: nat) {
    t < |s.tasks| == |s'.tasks| && s'.tasks == s.tasks[t := s.tasks[t].(pc := s'.tasks[t].pc)]
  }

  /** The entry of project `p` in a table comes and goes with task `t`. */
  predicate EntryMoves(table: map<Project, nat>, table': map<Project, nat>, p: Project, t: nat,
                       inside: bool, inside': bool) {
    if inside == inside' then table' == table
    else if inside then table' == table - {p}
    else p !in table && table' == table[p := t]
  }

  predicate Moves(s: State, s': State, t: nat) {
    && OneMoves(s, s', t)
    && EntryMoves(s.gate, s'.gate, s.tasks[t].project, t, HasEntry(s.tasks[t].pc), HasEntry(s'.tasks[t].pc))
    && EntryMoves(s.holder, s'.holder, s.tasks[t].project, t, s.tasks[t].pc.InDmypy?, s'.tasks[t].pc.InDmypy?)
    && !s'.tasks[t].pc.LockWaiting? && s'.keyErrors == 0
  }

  lemma MovingKeepsGate(s: State, s': State, t: nat)
    requires GateValid(s) && Moves(s, s', t)
    ensures GateValid(s')
  {
  }

  lemma MovingKeepsLock(s: State, s': State, t: nat)
    requires LockValid(s) && Moves(s, s', t)
    ensures LockValid(s')
  {
  }

  /** The lock is free for a task past the gate, as nobody else of its project is there. */
  lemma LockIsFree(s: State, t: nat)
    requires GateValid(s) && LockValid(s) && t < |s.tasks| && HasEntry(s.tasks[t].pc) && !s.tasks[t].pc.InDmypy?
    ensures s.tasks[t].project !in s.holder
  {
    if s.tasks[t].project in s.holder {
      assert HasEntry(s.tasks[s.holder[s.tasks[t].project]].pc);
    }
  }

  lemma StepMoves(s: State, e: Event)
    requires GateValid(s) && LockValid(s) && Enabled(s, e) && !e.Arrive?
    ensures Moves(s, Step(s, e), e.t)
  {
    if e.VersionsRead? {
      LockIsFree(s, e.t);
    }
  }

  lemma ArrivingKeepsValid(s: State, project: Project)
    requires Valid(s)
    ensures Valid(Step(s, Arrive(project)))
  {
  }

  lemma StepKeepsEvents(s: State, e: Event)
    requires GateValid(s) && EventsValid(s) && Enabled(s, e) && !e.Arrive? && OneMoves(s, Step(s, e), e.t)
    ensures EventsValid(Step(s, e))
  {
    var s' := Step(s, e);
    assert HasEntry(s.tasks[e.t].pc) ==> HasEntry(s'.tasks[e.t].pc) || e.t in s'.signalled;
    assert s'.tasks[e.t].pc.Waiting? ==>
             s.tasks[e.t].project in s.gate && s'.tasks[e.t].pc.event == s.gate[s.tasks[e.t].project];
  }

  lemma StepKeepsValid(s: State, e: Event)
    requires Valid(s) && Enabled(s, e)
    ensures Valid(Step(s, e))
  {
    if e.Arrive? {
      ArrivingKeepsValid(s, e.project);
    } else {
      StepMoves(s, e);
      MovingKeepsGate(s, Step(s, e), e.t);
      MovingKeepsLock(s, Step(s, e), e.t);
      StepKeepsEvents(s, e);
    }
  }

  lemma {:induction false} RunKeepsValid(states: seq<State>, events: seq<Event>, i: nat)
    requires Run(states, events) && i < |states|
    ensures Valid(states[i])
  {
    if i > 0 {
      RunKeepsValid(states, events, i - 1);
      assert Follows(states, events, i - 1);
      StepKeepsValid(states[i - 1], events[i - 1]);
    }
  }

  // ----- results about every run ------------------------------------------------------------------------

  /** At most one dmypy run per project is in flight. */
  lemma OneRunPerProject(states: seq<State>, events: seq<Event>, i: nat, t: nat, u: nat)
    requires Run(states, events) && i < |states| && t < |states[i].tasks| && u < |states[i].tasks|
    requires states[i].tasks[t].pc.InDmypy? && states[i].tasks[u].pc.InDmypy?
    requires states[i].tasks[t].project == states[i].tasks[u].project
    ensures t == u
  {
    RunKeepsValid(states, events, i);
  }

  /** Nobody ever waits for the lock. */
  lemma LockIsNeverContended(states: seq<State>, events: seq<Event>, i: nat, t: nat)
    requires Run(states, events) && i < |events| && events[i] == VersionsRead(t, Fine)
    ensures t < |states[i].tasks| == |states[i + 1].tasks|
    ensures states[i].tasks[t].project !in states[i].holder && states[i + 1].tasks[t].pc.InDmypy?
  {
    RunKeepsValid(states, events, i);
    assert Follows(states, events, i);
    LockIsFree(states[i], t);
  }

  /** An entry goes only when its maker goes, and deleting it never fails. */
  lemma EntryRemovedByItsTask(states: seq<State>, events: seq<Event>, i: nat, p: Project)
    requires Run(states, events) && i < |events| && p in states[i].gate && p !in states[i + 1].gate
    ensures !events[i].Arrive? && states[i].gate[p] == events[i].t
    ensures events[i].t < |states[i + 1].tasks|
    ensures states[i + 1].tasks[events[i].t].pc.Done? && events[i].t in states[i + 1].signalled
    ensures states[i + 1].keyErrors == 0
  {
    RunKeepsValid(states, events, i);
    RunKeepsValid(states, events, i + 1);
    assert Follows(states, events, i);
    assert !events[i].Arrive?;
    StepMoves(states[i], events[i]);
  }

  /** A check that waits is never forgotten: its event is set, or whoever will set it is on its way,
      or the maker died reading the file versions. */
  lemma WaitingIsForSomebody(states: seq<State>, events: seq<Event>, i: nat, t: nat)
    requires Run(states, events) && i < |states| && t < |states[i].tasks| && states[i].tasks[t].pc.Waiting?
    ensures var w, tasks := states[i].tasks[t].pc.event, states[i].tasks;
            w in states[i].signalled ||
            (w < |tasks| && tasks[w].project == tasks[t].project &&
             (tasks[w].pc.ReadingVersions? || tasks[w].pc.InDmypy? || tasks[w].pc.Saving? || tasks[w].pc.DiedReading?))
  {
    RunKeepsValid(states, events, i);
  }

  predicate StaysShut(s: State, t: nat) {
    && t < |s.tasks| && s.tasks[t].pc.DiedReading? && t !in s.signalled
    && s.tasks[t].project in s.gate && s.gate[s.tasks[t].project] == t
  }

  lemma StepKeepsShut(s: State, e: Event, t: nat)
    requires Valid(s) && Enabled(s, e) && StaysShut(s, t)
    ensures StaysShut(Step(s, e), t)
  {
    StepKeepsValid(s, e);
  }

  /** Reading the versions is outside the `try`: when it raises, the project's entry stays for ever and
      its event is never set. */
  lemma {:induction false} DyingWhileReadingShutsTheGate(states: seq<State>, events: seq<Event>, i: nat, k: nat, t: nat)
    requires Run(states, events) && i < k < |states| && events[i] == VersionsRead(t, Raised)
    ensures StaysShut(states[k], t)
  {
    RunKeepsValid(states, events, k - 1);
    assert Follows(states, events, k - 1);
    StepKeepsValid(states[k - 1], events[k - 1]);
    if k == i + 1 {
      assert !states[i].tasks[t].pc.Done?;
    } else {
      DyingWhileReadingShutsTheGate(states, events, i, k - 1, t);
      StepKeepsShut(states[k - 1], events[k - 1], t);
    }
  }

  /** From then on, a check of the project that misses the cache waits and is never woken. */
  lemma ShutGateStrandsTasks(states: seq<State>, events: seq<Event>, i: nat, k: nat, t: nat, u: nat)
    requires Run(states, events) && i < k < |events| && events[i] == VersionsRead(t, Raised)
    requires t < |states[k].tasks| && u < |states[k].tasks| && states[k].tasks[u].project == states[k].tasks[t].project
    ensures events[k] == CacheMiss(u) ==> u < |states[k + 1].tasks| && states[k + 1].tasks[u].pc == Waiting(t)
    ensures events[k] == Wake(u) ==> states[k].tasks[u].pc != Waiting(t)
  {
    DyingWhileReadingShutsTheGate(states, events, i, k, t);
    assert Follows(states, events, k);
  }

  // ----- where a check stands, by its events --------------------------------------------------------------

  predicate IsAbout(e: Event, t: nat) {
    !e.Arrive? && e.t == t
  }

  /** The last of the first `i` events that is about task `t`. */
  function LastAbout(events: seq<Event>, i: nat, t: nat): Option<Event>
    requires i <= |events|
  {
    if i == 0 then None else if IsAbout(events[i - 1], t) then Some(events[i - 1]) else LastAbout(events, i - 1, t)
  }

  /** A check stands where its last event led it: an exception while reading versions leads nowhere, while one in
      dmypy or while saving ends the check. */
  predicate StandsAt(pc: Pc, last: Option<Event>) {
    match last
    case None => pc == AskingCache
    case Some(CacheHit(_)) => pc == Done
    case Some(CacheFails(_)) => pc == Done
    case Some(CacheMiss(_)) => pc.Waiting? || pc == ReadingVersions
    case Some(VersionsRead(_, outcome)) => pc == if outcome == Raised then DiedReading else InDmypy
    case Some(DmypyEnds(_, outcome)) => pc == if outcome == Raised then Done else Saving
    case Some(SavingEnds(_, _)) => pc == Done
    case Some(Wake(_)) => pc == Done
    case Some(GiveUpWaiting(_)) => pc == Done
    case Some(GetLock(_)) => false
    case Some(Arrive(_)) => false
  }

  lemma StepLeads(s: State, e: Event)
    requires Valid(s) && Enabled(s, e) && !e.Arrive?
    ensures StandsAt(Step(s, e).tasks[e.t].pc, Some(e))
  {
    if e.VersionsRead? {
      LockIsFree(s, e.t);
    }
  }

  lemma {:induction false} PcIsLastEvents(states: seq<State>, events: seq<Event>, i: nat, t: nat)
    requires Run(states, events) && i < |states| && t < |states[i].tasks|
    ensures StandsAt(states[i].tasks[t].pc, LastAbout(events, i, t))
  {
    assert i > 0;
    var s, e := states[i - 1], events[i - 1];
    RunKeepsValid(states, events, i - 1);
    assert Follows(states, events, i - 1);
    if IsAbout(e, t) {
      StepLeads(s, e);
    } else if t < |s.tasks| {
      PcIsLastEvents(states, events, i - 1, t);
      OthersStay(s, e, t);
    } else {
      NobodyYet(states, events, i - 1, t);
    }
  }

  lemma OthersStay(s: State, e: Event, t: nat)
    requires Valid(s) && Enabled(s, e) && !IsAbout(e, t) && t < |s.tasks|
    ensures t < |Step(s, e).tasks| && Step(s, e).tasks[t] == s.tasks[t]
  {
  }

  /** There are no events about a task before it arrives. */
  lemma {:induction false} NobodyYet(states: seq<State>, events: seq<Event>, i: nat, t: nat)
    requires Run(states, events) && i < |states| && t >= |states[i].tasks|
    ensures LastAbout(events, i, t) == None
  {
    if i > 0 {
      assert Follows(states, events, i - 1);
      NobodyYet(states, events, i - 1, t);
    }
  }

  /** A check dies reading the file versions exactly if that raised. */
  lemma {:induction false} DiedReadingIff(states: seq<State>, events: seq<Event>, i: nat, t: nat)
    requires Run(states, events) && i < |states|
    ensures (t < |states[i].tasks| && states[i].tasks[t].pc == DiedReading) <==>
            exists j: nat :: j < i && events[j] == VersionsRead(t, Raised)
  {
    if i > 0 {
      DiedReadingIff(states, events, i - 1, t);
      var s, e := states[i - 1], events[i - 1];
      RunKeepsValid(states, events, i - 1);
      assert Follows(states, events, i - 1);
      if IsAbout(e, t) {
        StepLeads(s, e);
      } else if t < |s.tasks| {
        OthersStay(s, e, t);
      }
    }
  }

  /** The event is the `finally` of the check. */
  predicate Leaves(e: Event, t: nat) {
    e == DmypyEnds(t, Raised) || (e.SavingEnds? && e.t == t)
  }

  /** An event is set exactly if its check has come to its `finally`. */
  lemma {:induction false} SignalledIff(states: seq<State>, events: seq<Event>, i: nat, t: nat)
    requires Run(states, events) && i < |states|
    ensures t in states[i].signalled <==> exists j: nat :: j < i && Leaves(events[j], t)
  {
    if i > 0 {
      SignalledIff(states, events, i - 1, t);
      RunKeepsValid(states, events, i - 1);
      assert Follows(states, events, i - 1);
    }
  }

  /** The check makes an entry for its project. */
  predicate Enters(s: State, e: Event, t: nat) {
    e == CacheMiss(t) && t < |s.tasks| && s.tasks[t].project !in s.gate
  }

  predicate HasGate(s: State, t: nat) {
    t < |s.tasks| && s.tasks[t].project in s.gate && s.gate[s.tasks[t].project] == t
  }

  /** A check has its project's entry exactly if it made one and has not come to its `finally`. */
  lemma {:induction false} EntryIff(states: seq<State>, events: seq<Event>, i: nat, t: nat)
    requires Run(states, events) && i < |states|
    ensures HasGate(states[i], t) <==>
            && (exists j: nat :: j < i && Enters(states[j], events[j], t))
            && !(exists j: nat :: j < i && Leaves(events[j], t))
  {
    if i > 0 {
      EntryIff(states, events, i - 1, t);
      RunKeepsValid(states, events, i - 1);
      assert Follows(states, events, i - 1);
      GateChanges(states[i - 1], events[i - 1], t);
      if Enters(states[i - 1], events[i - 1], t) {
        NotYetLeft(states, events, i - 1, t);
      }
    }
  }

  lemma GateChanges(s: State, e: Event, t: nat)
    requires Valid(s) && Enabled(s, e)
    ensures HasGate(Step(s, e), t) <==> Enters(s, e, t) || (HasGate(s, t) && !Leaves(e, t))
  {
    if !e.Arrive? {
      StepMoves(s, e);
      StepLeads(s, e);
      if e.t != t && t < |s.tasks| {
        OthersStay(s, e, t);
      }
    }
  }

  /** A check that asks the cache has not come to its `finally`. */
  lemma {:induction false} NotYetLeft(states: seq<State>, events: seq<Event>, i: nat, t: nat)
    requires Run(states, events) && i < |states|
    requires t < |states[i].tasks| ==> states[i].tasks[t].pc == AskingCache
    ensures forall j: nat :: j < i ==> !Leaves(events[j], t)
  {
    if i > 0 {
      RunKeepsValid(states, events, i - 1);
      assert Follows(states, events, i - 1);
      if !events[i - 1].Arrive? {
        StepLeads(states[i - 1], events[i - 1]);
      }
      NotYetLeft(states, events, i - 1, t);
    }
  }

  /** Every arrival is a check of its project, which asks the cache first, and every check arrived. */
  lemma {:induction false} ChecksArrive(states: seq<State>, events: seq<Event>, i: nat, t: nat)
    requires Run(states, events) && i < |states|
    ensures t < |states[i].tasks| <==>
            exists j: nat :: j < i && events[j].Arrive? && |states[j].tasks| == t
    ensures forall j: nat :: j < i && events[j].Arrive? && |states[j].tasks| == t ==>
              t < |states[i].tasks| && states[i].tasks[t].project == events[j].project
  {
    if i > 0 {
      assert Follows(states, events, i - 1);
      ChecksArrive(states, events, i - 1, t);
      StepKeepsProjects(states[i - 1], events[i - 1]);
    }
  }

  lemma StepKeepsProjects(s: State, e: Event)
    requires Enabled(s, e)
    ensures |Step(s, e).tasks| == |s.tasks| + if e.Arrive? then 1 else 0
    ensures e.Arrive? ==> Step(s, e).tasks[|s.tasks|] == Task(e.project, AskingCache)
    ensures forall t :: 0 <= t < |s.tasks| ==> Step(s, e).tasks[t].project == s.tasks[t].project
  {
  }

  /** A check that misses the cache waits exactly for the one of its project that has the entry. */
  lemma MissWaitsIff(states: seq<State>, events: seq<Event>, i: nat, t: nat, u: nat)
    requires Run(states, events) && i < |events| && events[i] == CacheMiss(t) && t < |states[i].tasks|
    ensures t < |states[i + 1].tasks|
    ensures states[i + 1].tasks[t].pc == Waiting(u) <==>
            HasGate(states[i], u) && states[i].tasks[u].project == states[i].tasks[t].project
    ensures states[i + 1].tasks[t].pc == ReadingVersions <==> Enters(states[i], events[i], t)
  {
    RunKeepsValid(states, events, i);
    assert Follows(states, events, i);
  }

  /** The `finally`, in every run: after an exception in dmypy, and after saving with or without one, the project is
      open again and whoever waited for this check can go on. */
  lemma LeavingOpensTheGate(states: seq<State>, events: seq<Event>, i: nat, t: nat)
    requires Run(states, events) && i < |events| && Leaves(events[i], t)
    ensures var s, s' := states[i], states[i + 1];
            && t < |s.tasks| == |s'.tasks| && s.tasks[t].project in s.gate && s.tasks[t].project !in s'.gate
            && t in s'.signalled && s'.tasks[t].pc == Done && s'.tasks[t].project !in s'.holder
  {
    RunKeepsValid(states, events, i);
    RunKeepsValid(states, events, i + 1);
    assert Follows(states, events, i);
  }

  /** When the maker of an entry is finished, the entry is still there exactly if reading the versions raised. */
  lemma EntryIsGoneIff(states: seq<State>, events: seq<Event>, i: nat, t: nat)
    requires Run(states, events) && i < |states| && t < |states[i].tasks|
    requires states[i].tasks[t].pc == Done || exists j: nat :: j < i && events[j] == VersionsRead(t, Raised)
    ensures (exists p :: p in states[i].gate && states[i].gate[p] == t) <==>
            exists j: nat :: j < i && events[j] == VersionsRead(t, Raised)
  {
    RunKeepsValid(states, events, i);
    DiedReadingIff(states, events, i, t);
  }

  // ----- the handler's own tables -------------------------------------------------------------------------

  class TypeChecker {
    var tasks: seq<Task>    // the event loop's view
    var projectsBeingChecked: map<Project, nat>
    var lockHolder: map<Project, nat>
    var signalled: set<nat>
    var keyErrors: nat

    ghost function View(): State
      reads this
    {
      State(tasks, projectsBeingChecked, lockHolder, signalled, keyErrors)
    }

    constructor ()
      ensures View() == State([], map[], map[], {}, 0) && Valid(View())
    {
      tasks, projectsBeingChecked, lockHolder, signalled, keyErrors := [], map[], map[], {}, 0;
    }

    method GoOn(t: nat, pc: Pc)
      requires t < |tasks|
      modifies `tasks
      ensures View() == At(old(View()), t, pc)
    {
      tasks := tasks[t := tasks[t].(pc := pc)];
    }

    /** The part of `run_on_single_file` between the cache miss and the next await. */
    method EnterGate(t: nat) returns (waitFor: Option<nat>)
      requires Valid(View()) && Enabled(View(), CacheMiss(t))
      modifies this
      ensures View() == Step(old(View()), CacheMiss(t)) && Valid(View())
      ensures waitFor.Some? <==>
              exists u :: 0 <= u < |tasks| && u != t && HasEntry(tasks[u].pc) && tasks[u].project == tasks[t].project
    {
      StepKeepsValid(View(), CacheMiss(t));
      var project := tasks[t].project;
      if project in projectsBeingChecked {
        waitFor := Some(projectsBeingChecked[project]);
        GoOn(t, Waiting(projectsBeingChecked[project]));
        assert HasEntry(tasks[waitFor.value].pc) && tasks[waitFor.value].project == project;
      } else {
        waitFor := None;
        projectsBeingChecked := projectsBeingChecked[project := t];
        GoOn(t, ReadingVersions);
      }
    }

    /** Entering `_run_dmypy_on_project`: the lock is there to be taken. */
    method StartDmypy(t: nat)
      requires Valid(View()) && Enabled(View(), VersionsRead(t, Fine))
      modifies this
      ensures View() == Step(old(View()), VersionsRead(t, Fine)) && Valid(View()) && tasks[t].pc.InDmypy?
    {
      LockIsFree(View(), t);
      StepKeepsValid(View(), VersionsRead(t, Fine));
      lockHolder := lockHolder[tasks[t].project := t];
      GoOn(t, InDmypy);
    }

    method EndDmypy(t: nat, outcome: Outcome)
      requires Valid(View()) && Enabled(View(), DmypyEnds(t, outcome))
      modifies this
      ensures View() == Step(old(View()), DmypyEnds(t, outcome)) && Valid(View())
    {
      StepKeepsValid(View(), DmypyEnds(t, outcome));
      lockHolder := lockHolder - {tasks[t].project};
      if outcome.Fine? {
        GoOn(t, Saving);
      } else {
        LeaveGate(t);
      }
    }

    /** The `finally` block. */
    method LeaveGate(t: nat)
      requires t < |tasks|
      modifies this
      ensures View() == Leave(old(View()), t)
    {
      signalled := signalled + {t};
      if tasks[t].project !in projectsBeingChecked {
        keyErrors := keyErrors + 1;
      }
      projectsBeingChecked := projectsBeingChecked - {tasks[t].project};
      GoOn(t, Done);
    }
  }
}
