/** Why each request to the explorer is answered as it is, told by the events that led there. */
module ServeHistory {
  import opened Options
  import opened ServeState

  predicate Asks(e: Event, t: nat) {
    (e.AskRead? || e.AskIngest?) && e.t == t
  }

  /** Step `j` belongs to the request of thread `t` that is under way at step `i`. */
  predicate InRequest(events: seq<Event>, j: nat, i: nat, t: nat)
    requires i <= |events|
  {
    j < i && forall k :: j < k < i ==> !Asks(events[k], t)
  }

  /** How many attempts in a row have met a lock conflict, the first one across the workspace included. */
  function Conflicts(events: seq<Event>, i: nat, t: nat): nat
    requires i <= |events|
  {
    if i == 0 || Asks(events[i - 1], t) then 0
    else if events[i - 1].ActionEnds? && events[i - 1].t == t then
      if events[i - 1].outcome.LockConflict? then Conflicts(events, i - 1, t) + 1 else 0
    else Conflicts(events, i - 1, t)
  }

  /** An ingest has conflicted as often as its state says. */
  predicate CountsConflicts(pc: Pc, n: nat) {
    match pc
    case Submitted(_) => n == 0
    case CloseWaiting => n == 0
    case Marking => n == 0
    case Closing => n == 0
    case Clearing => n == 0
    case CloseReleasing => n == 0
    case Fanout => n == 0
    case Fallback(k) => n == k
    case Sleeping(k) => n == k + 1
    case _ => true
  }

  lemma {:induction false} ConflictsAreCounted(states: seq<State>, events: seq<Event>, i: nat, t: nat)
    requires Run(states, events) && i < |states| && t < |states[i].pcs|
    ensures CountsConflicts(states[i].pcs[t], Conflicts(events, i, t))
  {
    if i > 0 {
      assert Follows(states, events, i - 1);
      ConflictsAreCounted(states, events, i - 1, t);
      StepCounts(states[i - 1], events[i - 1], t, Conflicts(events, i - 1, t));
    }
  }

  lemma StepCounts(s: State, e: Event, t: nat, n: nat)
    requires Enabled(s, e) && t < |s.pcs| && CountsConflicts(s.pcs[t], n)
    ensures t < |Step(s, e).pcs|
    ensures CountsConflicts(Step(s, e).pcs[t],
                            if Asks(e, t) then 0
                            else if e.ActionEnds? && e.t == t then if e.outcome.LockConflict? then n + 1 else 0
                            else n)
  {
  }

  /** In every run: an action that succeeds or fails otherwise ends the ingest with that; one that meets a lock is
      tried again, until the first attempt and twenty more have met it. */
  lemma ActionDecides(states: seq<State>, events: seq<Event>, i: nat, t: nat, outcome: Attempt)
    requires Run(states, events) && i < |events| && events[i] == ActionEnds(t, outcome)
    ensures t < |states[i + 1].pcs|
    ensures var pc, n := states[i + 1].pcs[t], Conflicts(events, i + 1, t);
            && (outcome.Success? ==> pc == OpenWaiting(Ingested))
            && (outcome.OtherError? ==> pc == OpenWaiting(Failed))
            && (outcome.LockConflict? && n == 21 ==> pc == OpenWaiting(Failed))
            && (outcome.LockConflict? && n == 1 ==> pc == Fallback(1))
            && (outcome.LockConflict? && 1 < n < 21 ==> pc == Sleeping(n - 1))
            && n <= 21
  {
    RunKeepsValid(states, events, i);
    assert Follows(states, events, i);
    ConflictsAreCounted(states, events, i, t);
    assert InIngest(states[i].pcs[t]) && IngestPc(states[i]) == states[i].pcs[t];
  }

  // ----- replies ----------------------------------------------------------------------------------------

  /** What makes a request of thread `t` be answered as it is; an ingest is reported only after the store is served
      again. */
  datatype Cause = For(reply: Reply) | Reconnected

  /** The event, which leaves the thread with `n` conflicts, is such a cause. */
  predicate IsCause(s: State, e: Event, n: nat, t: nat, c: Cause)
    requires t < |s.pcs|
  {
    match c
    case For(Served) => e == Go(t) && s.pcs[t].Querying?
    case For(Unavailable) =>
      e == Go(t) && s.pcs[t] == ReadHolding && (s.serving.connection.None? || s.serving.refreshing)
    case For(Conflict) => e.AskIngest? && e.t == t && s.ingestLock.Some?
    case For(BadRequest) => e == AskIngest(t, true) && s.ingestLock.None?
    case For(Ingested) => e == ActionEnds(t, Success)
    case For(Failed) =>
      || e == ActionEnds(t, OtherError) || (e == ActionEnds(t, LockConflict) && n == 21)
      || (e == Go(t) && s.pcs[t].Connecting? && s.writers > 0)
    case Reconnected => e == Go(t) && s.pcs[t].Connecting? && s.writers == 0
  }

  ghost predicate IsCauseAt(states: seq<State>, events: seq<Event>, j: nat, i: nat, t: nat, c: Cause)
    requires i <= |events| < |states|
  {
    && InRequest(events, j, i, t) && t < |states[j].pcs|
    && IsCause(states[j], events[j], Conflicts(events, j + 1, t), t, c)
  }

  /** The causes within the request that is under way. */
  ghost function Causes(states: seq<State>, events: seq<Event>, i: nat, t: nat): iset<Cause>
    requires i <= |events| < |states|
  {
    iset c | HasCause(states, events, i, t, c)
  }

  ghost predicate HasCause(states: seq<State>, events: seq<Event>, i: nat, t: nat, c: Cause)
    requires i <= |events| < |states|
  {
    exists j: nat :: IsCauseAt(states, events, j, i, t, c)
  }

  /** A thread that knows its answer has a cause for it. */
  predicate IsJustified(pc: Pc, causes: iset<Cause>) {
    match pc
    case ReadReleasing(r) => (r.Served? || r.Unavailable?) && For(r) in causes
    case Submitted(bad) => bad ==> For(BadRequest) in causes
    case OpenWaiting(r) => (r.Ingested? || r.Failed?) && For(r) in causes
    case Connecting(r) => (r.Ingested? || r.Failed?) && For(r) in causes
    case Unmarking(r) => (r.Ingested? || r.Failed?) && For(r) in causes && Reconnected in causes
    case OpenReleasing(r) => (r.Ingested? || r.Failed?) && For(r) in causes && (r.Ingested? ==> Reconnected in causes)
    case Finishing(r) =>
      (r.Ingested? || r.Failed? || r.BadRequest?) && For(r) in causes && (r.Ingested? ==> Reconnected in causes)
    case _ => true
  }

  lemma StepJustifies(s: State, e: Event, n: nat, n': nat, t: nat, causes: iset<Cause>, causes': iset<Cause>)
    requires Valid(s) && Enabled(s, e) && t < |s.pcs| && IsJustified(s.pcs[t], causes)
    requires CountsConflicts(s.pcs[t], n) && (e == ActionEnds(t, LockConflict) ==> n' == n + 1)
    requires !Asks(e, t) ==> causes <= causes'
    requires forall c :: IsCause(s, e, n', t, c) ==> c in causes'
    ensures t < |Step(s, e).pcs| && IsJustified(Step(s, e).pcs[t], causes')
  {
    if e.Go? && e.t == t {
      GoingJustifies(s, n', t, causes, causes');
    } else if e == AskIngest(t, true) {
      assert s.ingestLock.None? ==> IsCause(s, e, n', t, For(BadRequest));
    } else if e.ActionEnds? && e.t == t {
      assert e.outcome.Success? ==> IsCause(s, e, n', t, For(Ingested));
      assert e.outcome.OtherError? ==> IsCause(s, e, n', t, For(Failed));
      assert e.outcome.LockConflict? && n' == 21 ==> IsCause(s, e, n', t, For(Failed));
    }
  }

  lemma GoingJustifies(s: State, n': nat, t: nat, causes: iset<Cause>, causes': iset<Cause>)
    requires Valid(s) && Enabled(s, Go(t)) && IsJustified(s.pcs[t], causes) && causes <= causes'
    requires forall c :: IsCause(s, Go(t), n', t, c) ==> c in causes'
    ensures t < |AfterGo(s, t).pcs| && IsJustified(AfterGo(s, t).pcs[t], causes')
  {
    match s.pcs[t]
    case ReadHolding =>
      assert s.serving.connection.None? || s.serving.refreshing ==> IsCause(s, Go(t), n', t, For(Unavailable));
    case Querying(_) => assert IsCause(s, Go(t), n', t, For(Served));
    case Connecting(_) =>
      assert s.writers > 0 ==> IsCause(s, Go(t), n', t, For(Failed));
      assert s.writers == 0 ==> IsCause(s, Go(t), n', t, Reconnected);
    case _ =>
  }

  lemma CausesStay(states: seq<State>, events: seq<Event>, h: nat, i: nat, t: nat)
    requires h + 1 == i <= |events| < |states| && !Asks(events[h], t)
    ensures Causes(states, events, h, t) <= Causes(states, events, i, t)
  {
    forall c | c in Causes(states, events, h, t) ensures c in Causes(states, events, i, t) {
      var j: nat :| IsCauseAt(states, events, j, h, t, c);
      assert IsCauseAt(states, events, j, i, t, c);
    }
  }

  lemma NewCauses(states: seq<State>, events: seq<Event>, h: nat, i: nat, t: nat)
    requires h + 1 == i <= |events| < |states| && t < |states[h].pcs|
    ensures forall c :: IsCause(states[h], events[h], Conflicts(events, i, t), t, c) ==> c in Causes(states, events, i, t)
  {
    forall c | IsCause(states[h], events[h], Conflicts(events, i, t), t, c) ensures c in Causes(states, events, i, t) {
      assert IsCauseAt(states, events, h, i, t, c);
    }
  }

  lemma {:induction false} RunIsJustified(states: seq<State>, events: seq<Event>, i: nat, t: nat)
    requires Run(states, events) && i < |states| && t < |states[i].pcs|
    ensures IsJustified(states[i].pcs[t], Causes(states, events, i, t))
  {
    if i > 0 {
      assert Follows(states, events, i - 1);
      RunKeepsValid(states, events, i - 1);
      RunIsJustified(states, events, i - 1, t);
      ConflictsAreCounted(states, events, i - 1, t);
      NewCauses(states, events, i - 1, i, t);
      if !Asks(events[i - 1], t) {
        CausesStay(states, events, i - 1, i, t);
      }
      StepJustifies(states[i - 1], events[i - 1], Conflicts(events, i - 1, t), Conflicts(events, i, t), t,
                    Causes(states, events, i - 1, t), Causes(states, events, i, t));
    }
  }

  /** Every reply is given for a cause within its own request: a query that ran, no connection, an ingest under way,
      and so on; and an ingest is only reported as done once the store is served again. */
  lemma {:induction false} RepliesHaveCauses(states: seq<State>, events: seq<Event>, i: nat, n: nat) returns (h: nat)
    requires Run(states, events) && i < |states| && n < |states[i].replies|
    ensures var (t, r) := states[i].replies[n];
            && h < i && t < |states[h].pcs|
            && if r.Conflict? then IsCause(states[h], events[h], 0, t, For(Conflict))
               else
                 && For(r) in Causes(states, events, h, t)
                 && (r.Ingested? ==> Reconnected in Causes(states, events, h, t))
  {
    assert i > 0;
    h := i - 1;
    assert Follows(states, events, h);
    if n < |states[h].replies| {
      h := RepliesHaveCauses(states, events, h, n);
      assert states[i].replies[n] == states[i - 1].replies[n];
    } else if events[h].Go? {
      RunIsJustified(states, events, h, events[h].t);
      LastReplyIs(states[h], events[h].t);
    }
  }

  lemma LastReplyIs(s: State, t: nat)
    requires Enabled(s, Go(t)) && |AfterGo(s, t).replies| > |s.replies|
    ensures s.pcs[t].ReadReleasing? || s.pcs[t].Finishing?
    ensures AfterGo(s, t).replies ==
            s.replies + [(t, if s.pcs[t].ReadReleasing? then s.pcs[t].reply else s.pcs[t].result)]
  {
  }

  /** A request for an ingest that is not well-formed is refused, and no connection is given up for it. */
  lemma BadIsRefused(states: seq<State>, events: seq<Event>, i: nat, t: nat)
    requires Run(states, events) && i < |events| && t < |states[i].pcs| && HasCause(states, events, i, t, For(BadRequest))
    ensures states[i].pcs[t].Submitted? || states[i].pcs[t] == Finishing(BadRequest) || !InIngest(states[i].pcs[t])
    ensures events[i] == Go(t) && states[i].pcs[t].Submitted? ==>
              states[i + 1] == states[i].(pcs := states[i].pcs[t := Finishing(BadRequest)])
  {
    BadStays(states, events, i, t);
    assert Follows(states, events, i);
  }

  lemma {:induction false} BadStays(states: seq<State>, events: seq<Event>, i: nat, t: nat)
    requires Run(states, events) && i < |states| && t < |states[i].pcs| && HasCause(states, events, i, t, For(BadRequest))
    ensures states[i].pcs[t] == Submitted(true) || states[i].pcs[t] == Finishing(BadRequest) || states[i].pcs[t] == Idle
  {
    var j: nat :| IsCauseAt(states, events, j, i, t, For(BadRequest));
    assert Follows(states, events, i - 1);
    if j < i - 1 {
      assert IsCauseAt(states, events, j, i - 1, t, For(BadRequest));
      BadStays(states, events, i - 1, t);
    }
  }

  function Count(events: seq<Event>, opens: bool): nat {
    if events == [] then 0
    else
      var e := events[|events| - 1];
      Count(events[..|events| - 1], opens) + (if (if opens then e.WriterOpens? else e.WriterGone?) then 1 else 0)
  }

  /** The ingester has as many writers as have come and not gone. */
  lemma {:induction false} WritersAreCounted(states: seq<State>, events: seq<Event>, i: nat)
    requires Run(states, events) && i < |states|
    ensures states[i].writers == Count(events[..i], true) - Count(events[..i], false)
  {
    if i > 0 {
      assert Follows(states, events, i - 1);
      WritersAreCounted(states, events, i - 1);
      assert events[..i][..i - 1] == events[..i - 1];
    }
  }

  /** The queries recorded are those that ran, with the connections they ran on. */
  lemma QueriesAreRecorded(states: seq<State>, events: seq<Event>, i: nat)
    requires Run(states, events) && i < |events|
    ensures var s, e := states[i], events[i];
            states[i + 1].queries == s.queries +
              if e.Go? && e.t < |s.pcs| && s.pcs[e.t].Querying? then [s.pcs[e.t].conn] else []
  {
    assert Follows(states, events, i);
  }
}
