/** What each event does to the directory and to the history, file by file and line by line. */
module WalEffects {
  import opened Sequences
  import opened WalByName
  import W = Wal

  // ----- sizes ----------------------------------------------------------------------------------------

  function Texts<T>(lines: W.Segment, text: W.Record -> seq<T>): seq<seq<T>> {
    seq(|lines|, i requires 0 <= i < |lines| => text(lines[i]))
  }

  /** The size of a file is the length of its lines put end to end, whatever they are written as. */
  lemma {:induction false} SizeIsLength<T>(lines: W.Segment, text: W.Record -> seq<T>)
    requires forall i :: 0 <= i < |lines| ==> |text(lines[i])| == lines[i].size
    ensures W.Size(lines) == |Flatten(Texts(lines, text))|
  {
    if lines != [] {
      var n := |lines| - 1;
      SizeIsLength(lines[..n], text);
      assert Texts(lines, text)[..n] == Texts(lines[..n], text);
    }
  }

  // ----- clean-up -------------------------------------------------------------------------------------

  /** The files with higher numbers. */
  function Above(files: Files, n: nat): set<nat> {
    set m | m in files && m > n
  }

  /** Clean-up keeps a file exactly if fewer than the configured number are newer. */
  lemma {:induction false} KeptIff(files: Files, maxSegments: nat, n: nat)
    requires AllUpTo(files, LAST_NUMBER) && n in files
    ensures n in CleanUp(files, maxSegments) <==> |Above(files, n)| < maxSegments
    ensures n in CleanUp(files, maxSegments) ==> CleanUp(files, maxSegments)[n] == files[n]
    ensures CleanUp(files, maxSegments).Keys <= files.Keys
    decreases |files.Keys|
  {
    assert Above(files, n) <= files.Keys - {n};
    if |files.Keys| <= maxSegments {
      FewerElements(Above(files, n), files.Keys - {n});
    } else {
      var first := First(files.Keys);
      FirstIsLeast(files.Keys);
      var rest := files - {first};
      assert rest.Keys == files.Keys - {first} && |rest.Keys| == |files.Keys| - 1;
      if n == first {
        assert Above(files, n) == rest.Keys;
        OnlyFewer(rest, maxSegments);
      } else {
        assert Above(files, n) == Above(rest, n);
        KeptIff(rest, maxSegments, n);
      }
    }
  }

  lemma {:induction false} OnlyFewer(files: Files, maxSegments: nat)
    ensures CleanUp(files, maxSegments).Keys <= files.Keys
    ensures |CleanUp(files, maxSegments).Keys| == if |files.Keys| <= maxSegments then |files.Keys| else maxSegments
    decreases |files.Keys|
  {
    if |files.Keys| > maxSegments {
      var rest := files - {First(files.Keys)};
      assert rest.Keys == files.Keys - {First(files.Keys)} && |rest.Keys| == |files.Keys| - 1;
      OnlyFewer(rest, maxSegments);
    }
  }

  lemma {:induction false} FewerElements(a: set<nat>, b: set<nat>)
    requires a <= b
    ensures |a| <= |b|
  {
    if a != {} {
      var x :| x in a;
      FewerElements(a - {x}, b - {x});
    }
  }

  // ----- one event --------------------------------------------------------------------------------------

  /** The writer's file is there and has reached the limit, and the event is not a mere reopening. */
  predicate Rotates(s: State, e: W.Event) {
    !e.Reopen? && s.index in s.files && W.Size(s.files[s.index]) >= s.config.maxBytes
  }

  /** The event deletes the file. */
  predicate Deletes(s: State, e: W.Event, n: nat) {
    Rotates(s, e) && n in s.files && |Above(s.files, n)| >= s.config.maxSegments
  }

  /** The file that the event opens for appending. */
  function Target(s: State, e: W.Event): nat {
    if Rotates(s, e) then s.index + 1 else s.index
  }

  predicate Appends(e: W.Event) {
    e.Append? || e.FailedAppend?
  }

  /** The directory after an event: a file is gone exactly if there was a rotation and as many newer ones as are
      to be kept; an append creates the file it opens if it is not there, and adds one line at its end. */
  ghost predicate FileAfter(s: State, e: W.Event, s': State, n: nat) {
    && (n in s'.files <==> (n in s.files && !Deletes(s, e, n)) || (Appends(e) && n == Target(s, e)))
    && (n in s'.files ==>
          s'.files[n] == (if n in s.files && !Deletes(s, e, n) then s.files[n] else [])
                         + (if e.Append? && n == Target(s, e) then [W.Record(s.sequence + 1, e.fields, e.size)] else []))
  }

  lemma RotatingKeeps(s: State, e: W.Event, n: nat)
    requires Standing(s) && s.index <= LAST_NUMBER && !e.Reopen?
    ensures Rotate(s).index == Target(s, e)
    ensures n in Rotate(s).files <==> n in s.files && !Deletes(s, e, n)
    ensures n in Rotate(s).files ==> Rotate(s).files[n] == s.files[n]
  {
    if Rotates(s, e) {
      OnlyFewer(s.files, s.config.maxSegments);
      if n in s.files {
        KeptIff(s.files, s.config.maxSegments, n);
      }
    }
  }

  lemma StepChanges(s: State, e: W.Event, n: nat)
    requires Standing(s) && s.index <= LAST_NUMBER
    ensures FileAfter(s, e, Step(s, e), n)
  {
    match e
    case Append(fields, size) => RotatingKeeps(s, e, n);
    case FailedAppend => RotatingKeeps(s, e, n);
    case DieRotating(_) => RotatingKeeps(s, e, n);
    case Reopen(_) =>
  }

  /** In every run up to 999999, file by file: what is deleted, created and written. */
  lemma EachStepChanges(states: seq<State>, events: seq<W.Event>, i: nat, n: nat)
    requires Run(states, events) && i < |events| && UpTo(states, i + 1, LAST_NUMBER)
    ensures FileAfter(states[i], events[i], states[i + 1], n)
  {
    RunKeepsStanding(states, events, i);
    assert StepAt(states, events, i);
    StepChanges(states[i], events[i], n);
  }

  /** Hence a rotation leaves as many of the old files as configured, if there were that many. */
  lemma RotationLeaves(states: seq<State>, events: seq<W.Event>, i: nat)
    requires Run(states, events) && i < |events| && UpTo(states, i + 1, LAST_NUMBER) && Rotates(states[i], events[i])
    ensures var s, s' := states[i], states[i + 1];
            |s.files.Keys * s'.files.Keys| ==
            if |s.files.Keys| <= s.config.maxSegments then |s.files.Keys| else s.config.maxSegments
  {
    RunKeepsStanding(states, events, i);
    var s, s' := states[i], states[i + 1];
    OnlyFewer(s.files, s.config.maxSegments);
    forall n: nat ensures n in s.files.Keys * s'.files.Keys <==> n in CleanUp(s.files, s.config.maxSegments).Keys {
      EachStepChanges(states, events, i, n);
      if n in s.files {
        KeptIff(s.files, s.config.maxSegments, n);
        assert n == Target(s, events[i]) ==> n !in s.files;
      }
    }
    assert s.files.Keys * s'.files.Keys == CleanUp(s.files, s.config.maxSegments).Keys;
  }

  /** The numbers after an event: an append counts whether or not it fails, and a new writer starts where the last
      file that is listed ends. */
  lemma EachStepCounts(states: seq<State>, events: seq<W.Event>, i: nat)
    requires Run(states, events) && i < |events| && UpTo(states, i + 1, LAST_NUMBER)
    ensures var s, s', e := states[i], states[i + 1], events[i];
            if Appends(e) then s'.sequence == s.sequence + 1 && s'.index == Target(s, e) && s'.config == s.config
            else
              && s'.config == e.config
              && (s'.files == map[] ==> s'.index == 1 && s'.sequence == 0)
              && (s'.files != map[] ==>
                    && s'.index in s'.files && (forall n <- s'.files :: n <= s'.index)
                    && var lines := s'.files[s'.index];
                       s'.sequence == if lines == [] then 0 else lines[|lines| - 1].sequence)
  {
    RunKeepsStanding(states, events, i);
    RunKeepsStanding(states, events, i + 1);
    assert StepAt(states, events, i);
    RotatingKeeps(states[i], if events[i].Reopen? then W.FailedAppend else events[i], 0);
  }

  // ----- the history ------------------------------------------------------------------------------------

  /** What the appends that did not fail were given, in order. */
  function Appended(events: seq<W.Event>): seq<(string, nat)> {
    if events == [] then []
    else
      var e := events[|events| - 1];
      Appended(events[..|events| - 1]) + (if e.Append? then [(e.fields, e.size)] else [])
  }

  function Contents(records: seq<W.Record>): seq<(string, nat)> {
    seq(|records|, k requires 0 <= k < |records| => (records[k].fields, records[k].size))
  }

  lemma WritingAdds(history: seq<W.Record>, r: W.Record)
    ensures Contents(history + [r]) == Contents(history) + [(r.fields, r.size)]
  {
  }

  lemma StepAdds(s: State, e: W.Event)
    ensures Contents(Step(s, e).history) == Contents(s.history) + (if e.Append? then [(e.fields, e.size)] else [])
  {
    if e.Append? {
      WritingAdds(s.history, W.Record(s.sequence + 1, e.fields, e.size));
    }
  }

  /** In every run the history is what was appended, event by event. */
  lemma {:induction false} HistoryIsAppended(states: seq<State>, events: seq<W.Event>, i: nat)
    requires Run(states, events) && i < |states|
    ensures Contents(states[i].history) == Appended(events[..i])
  {
    if i > 0 {
      HistoryIsAppended(states, events, i - 1);
      assert StepAt(states, events, i - 1);
      StepAdds(states[i - 1], events[i - 1]);
      assert events[..i][..i - 1] == events[..i - 1];
    }
  }

  /** So reading the files as they are listed gives the last of what was appended, in every run up to 999999. */
  lemma ReadBackIsAppended(states: seq<State>, events: seq<W.Event>, i: nat)
    requires Run(states, events) && i < |states| && UpTo(states, i + 1, LAST_NUMBER)
    ensures W.IsSuffix(Contents(ReadBack(states[i].files)), Appended(events[..i]))
    ensures ReadBack(states[i].files) == [] ==> Appended(events[..i]) == []
  {
    var logs := WalByName.ReadBackIsContiguousSuffix(states, events, i);
    HistoryIsAppended(states, events, i);
    var read, all := ReadBack(states[i].files), states[i].history;
    assert Contents(read) == Contents(all)[|all| - |read|..];
  }
}
