/** The write-ahead log: segments of whole lines, rotation, clean-up, and recovery on reopening. The directory
    is taken in the order of the segments' numbers; `WalByName` takes it in the order of their names. */
module Wal {
  import opened Sequences

  /** One event as a line of a segment file; `size` is the length of that line in bytes. */
  datatype Record = Record(sequence: nat, fields: string, size: nat)

  type Segment = seq<Record>

  datatype Config = Config(maxBytes: nat, maxSegments: nat)

  /** The directory as a stack of segments: file number `first + j` holds `segments[j]`. */
  datatype Log = Log(first: nat, segments: seq<Segment>)

  /** A writer and its directory. `history` is everything ever appended. */
  datatype State = State(log: Log, index: nat, sequence: nat, config: Config, history: seq<Record>)

  datatype Event =
    | Append(fields: string, size: nat)
    | FailedAppend               // the event cannot be dumped: `append` raises after counting it
    | Reopen(config: Config)     // a new writer on the same directory
    | DieRotating(config: Config) // the writer dies between rotation and write; a new one follows

  predicate ConfigValid(c: Config) {
    c.maxBytes > 0 && c.maxSegments > 0
  }

  function Size(s: Segment): nat {
    if s == [] then 0 else Size(s[..|s| - 1]) + s[|s| - 1].size
  }

  function Last<T>(s: seq<T>): T
    requires s != []
  {
    s[|s| - 1]
  }

  /** `_discover_last_segment_index` and `_discover_last_sequence`. */
  function Open(log: Log, config: Config, history: seq<Record>): State {
    if log.segments == [] then State(log, 1, 0, config, history)
    else State(log, log.first + |log.segments| - 1,
               if Last(log.segments) == [] then 0 else Last(Last(log.segments)).sequence, config, history)
  }

  predicate ActiveExists(s: State) {
    s.log.segments != [] && s.index < s.log.first + |s.log.segments|
  }

  function CleanUp(log: Log, maxSegments: nat): Log {
    if |log.segments| <= maxSegments then log
    else var drop := |log.segments| - maxSegments; Log(log.first + drop, log.segments[drop..])
  }

  function Rotate(s: State): (r: State)
    ensures r.history == s.history && r.config == s.config && r.sequence == s.sequence
  {
    if ActiveExists(s) && Size(Last(s.log.segments)) >= s.config.maxBytes
    then s.(index := s.index + 1, log := CleanUp(s.log, s.config.maxSegments))
    else s
  }

  /** Opening the active file for appending creates it. */
  function Touch(s: State): (r: State)
    ensures r.history == s.history && r.config == s.config && r.sequence == s.sequence
  {
    if ActiveExists(s) then s
    else s.(log := Log(if s.log.segments == [] then s.index else s.log.first, s.log.segments + [[]]))
  }

  function Write(s: State, r: Record): State
    requires s.log.segments != []
  {
    var n := |s.log.segments| - 1;
    var segment := s.log.segments[n] + [r];
    s.(log := s.log.(segments := s.log.segments[n := segment]), history := s.history + [r])
  }

  function AfterAppend(s: State, fields: string, size: nat): State {
    var ready := Touch(Rotate(s));
    Write(ready.(sequence := s.sequence + 1), Record(s.sequence + 1, fields, size))
  }

  function Step(s: State, e: Event): State {
    match e
    case Append(fields, size) => AfterAppend(s, fields, size)
    case FailedAppend => Touch(Rotate(s)).(sequence := s.sequence + 1)
    case Reopen(config) => Open(s.log, config, s.history)
    case DieRotating(config) => Open(Rotate(s).log, config, s.history)
  }

  predicate Enabled(e: Event) {
    match e
    case Append(_, size) => size > 0
    case Reopen(c) => ConfigValid(c)
    case DieRotating(c) => ConfigValid(c)
    case FailedAppend => true
  }

  function Init(config: Config): State {
    Open(Log(1, []), config, [])
  }

  ghost predicate Run(states: seq<State>, events: seq<Event>) {
    && |states| == |events| + 1
    && ConfigValid(states[0].config) && states[0] == Init(states[0].config)
    && forall i :: 0 <= i < |events| ==> StepAt(states, events, i)
  }

  predicate StepAt(states: seq<State>, events: seq<Event>, i: nat)
    requires i < |events| && |states| == |events| + 1
  {
    Enabled(events[i]) && states[i + 1] == Step(states[i], events[i])
  }

  lemma RunExtends(states: seq<State>, events: seq<Event>, e: Event)
    requires Run(states, events) && Enabled(e)
    ensures Run(states + [Step(states[|events|], e)], events + [e])
  {
    var states', events' := states + [Step(states[|events|], e)], events + [e];
    forall i | 0 <= i < |events'| ensures StepAt(states', events', i) {
      if i < |events| {
        assert StepAt(states, events, i);
      }
    }
  }

  // ----- where the writer stands ----------------------------------------------------------------------

  /** The writer's file is the newest one; the directory is empty only before the first append. */
  predicate Positioned(s: State) {
    && ConfigValid(s.config)
    && (if s.log.segments == [] then s.index == 1 && s.history == []
        else s.index == s.log.first + |s.log.segments| - 1)
  }

  lemma RotatingMovesOn(s: State)
    requires Positioned(s)
    ensures s.log.segments == [] ==> Rotate(s) == s
    ensures s.log.segments != [] ==> Rotate(s).log.segments != []
    ensures Rotate(s).log.first + |Rotate(s).log.segments| == s.log.first + |s.log.segments|
  {
  }

  lemma PreparingKeepsPositioned(s: State)
    requires Positioned(s)
    ensures Positioned(Touch(Rotate(s))) && Touch(Rotate(s)).log.segments != []
  {
    RotatingMovesOn(s);
  }

  lemma StepKeepsPositioned(s: State, e: Event)
    requires Positioned(s) && Enabled(e)
    ensures Positioned(Step(s, e))
  {
    PreparingKeepsPositioned(s);
    RotatingMovesOn(s);
  }

  lemma {:induction false} RunKeepsPositioned(states: seq<State>, events: seq<Event>, i: nat)
    requires Run(states, events) && i < |states|
    ensures Positioned(states[i])
  {
    if i > 0 {
      RunKeepsPositioned(states, events, i - 1);
      assert StepAt(states, events, i - 1);
      StepKeepsPositioned(states[i - 1], events[i - 1]);
    }
  }

  // ----- what is on disk --------------------------------------------------------------------------------

  predicate IsSuffix<T(==)>(a: seq<T>, b: seq<T>) {
    |a| <= |b| && a == b[|b| - |a|..]
  }

  predicate NoneEmpty(segments: seq<Segment>) {
    forall j :: 0 <= j < |segments| ==> segments[j] != []
  }

  /** The newest file is there and has no record: an append that failed has created it. */
  predicate NewestEmpty(log: Log) {
    log.segments != [] && Last(log.segments) == []
  }

  /** What is on disk is the end of the history, its last event included; at most the newest file is empty. */
  predicate Consistent(s: State) {
    Positioned(s) && DiskValid(s.log.segments, s.history)
  }

  predicate DiskValid(segments: seq<Segment>, history: seq<Record>) {
    && IsSuffix(Flatten(segments), history)
    && (segments != [] ==> NoneEmpty(segments[..|segments| - 1]))
    && (history != [] ==> Flatten(segments) != [])
    && (forall n :: 0 <= n < |history| ==> history[n].sequence >= 1)
  }

  lemma FlattenDrop(segments: seq<Segment>, drop: nat)
    requires drop <= |segments|
    ensures IsSuffix(Flatten(segments[drop..]), Flatten(segments))
  {
    FlattenSplit(segments, drop);
  }

  lemma SuffixOfSuffix(a: seq<Record>, b: seq<Record>, c: seq<Record>)
    requires IsSuffix(a, b) && IsSuffix(b, c)
    ensures IsSuffix(a, c)
  {
  }

  lemma CleanUpKeepsSuffix(log: Log, maxSegments: nat, history: seq<Record>)
    requires IsSuffix(Flatten(log.segments), history)
    ensures IsSuffix(Flatten(CleanUp(log, maxSegments).segments), history)
  {
    var left := CleanUp(log, maxSegments).segments;
    assert left == log.segments[|log.segments| - |left|..];
    FlattenDrop(log.segments, |log.segments| - |left|);
    SuffixOfSuffix(Flatten(left), Flatten(log.segments), history);
  }

  lemma RotatingKeepsConsistent(s: State)
    requires Consistent(s)
    ensures var r := Rotate(s);
            && IsSuffix(Flatten(r.log.segments), s.history)
            && (r == s || NoneEmpty(r.log.segments))
            && (s.log.segments != [] ==> r.log.segments != [] && Last(r.log.segments) == Last(s.log.segments))
  {
    var r := Rotate(s);
    if r != s {
      assert Size([]) == 0;
      CleanUpKeepsSuffix(s.log, s.config.maxSegments, s.history);
      var n := |s.log.segments| - 1;
      assert forall j :: 0 <= j < n ==> s.log.segments[..n][j] == s.log.segments[j];
    }
  }

  lemma FlattenTouch(segments: seq<Segment>)
    ensures Flatten(segments + [[]]) == Flatten(segments)
  {
    assert (segments + [[]])[..|segments|] == segments;
  }

  /** Adding a record at the end of the last segment adds it at the end of what is read back. */
  lemma FlattenWrite(segments: seq<Segment>, r: Record)
    requires segments != []
    ensures Flatten(segments[|segments| - 1 := Last(segments) + [r]]) == Flatten(segments) + [r]
  {
    var n := |segments| - 1;
    assert segments[n := Last(segments) + [r]][..n] == segments[..n];
  }

  lemma LastComesLast(segments: seq<Segment>)
    requires segments != [] && Last(segments) != []
    ensures Flatten(segments) != [] && Last(Flatten(segments)) == Last(Last(segments))
  {
  }

  lemma PreparingKeepsConsistent(s: State)
    requires Consistent(s)
    ensures Consistent(Touch(Rotate(s)))
  {
    RotatingKeepsConsistent(s);
    PreparingKeepsPositioned(s);
    var r := Rotate(s);
    if !ActiveExists(r) {
      assert NoneEmpty(r.log.segments);
      EmptySegmentKeepsDisk(r.log.segments, r.history);
    }
  }

  lemma EmptySegmentKeepsDisk(segments: seq<Segment>, history: seq<Record>)
    requires DiskValid(segments, history) && NoneEmpty(segments)
    ensures DiskValid(segments + [[]], history)
  {
    FlattenTouch(segments);
    assert (segments + [[]])[..|segments|] == segments;
  }

  lemma WritingKeepsConsistent(s: State, r: Record)
    requires Consistent(s) && s.log.segments != [] && r.sequence >= 1
    ensures Consistent(Write(s, r))
  {
    FlattenWrite(s.log.segments, r);
    var n := |s.log.segments| - 1;
    assert s.log.segments[n := Last(s.log.segments) + [r]][..n] == s.log.segments[..n];
  }

  lemma CountingKeepsConsistent(s: State, sequence: nat)
    requires Consistent(s)
    ensures Consistent(s.(sequence := sequence))
  {
  }

  lemma AppendKeepsConsistent(s: State, fields: string, size: nat)
    requires Consistent(s)
    ensures Consistent(AfterAppend(s, fields, size))
  {
    PreparingKeepsConsistent(s);
    PreparingKeepsPositioned(s);
    CountingKeepsConsistent(Touch(Rotate(s)), s.sequence + 1);
    WritingKeepsConsistent(Touch(Rotate(s)).(sequence := s.sequence + 1), Record(s.sequence + 1, fields, size));
  }

  lemma StepKeepsConsistent(s: State, e: Event)
    requires Consistent(s) && Enabled(e)
    ensures Consistent(Step(s, e))
  {
    match e
    case Append(fields, size) => AppendKeepsConsistent(s, fields, size);
    case FailedAppend =>
      PreparingKeepsConsistent(s);
      CountingKeepsConsistent(Touch(Rotate(s)), s.sequence + 1);
    case Reopen(_) =>
    case DieRotating(_) => DyingKeepsConsistent(s, e);
  }

  lemma DyingKeepsConsistent(s: State, e: Event)
    requires Consistent(s) && Enabled(e) && e.DieRotating?
    ensures Consistent(Step(s, e))
  {
    RotatingKeepsConsistent(s);
    RotatingMovesOn(s);
    RotatedIsValid(s);
    OpeningKeepsConsistent(Rotate(s).log, e.config, s.history);
  }

  lemma RotatedIsValid(s: State)
    requires Consistent(s)
    ensures DiskValid(Rotate(s).log.segments, s.history)
  {
    RotatingKeepsConsistent(s);
    var r := Rotate(s);
    if r != s {
      LastComesLast(r.log.segments);
      var n := |r.log.segments| - 1;
      assert forall j :: 0 <= j < n ==> r.log.segments[..n][j] == r.log.segments[j];
    }
  }

  lemma OpeningKeepsConsistent(log: Log, config: Config, history: seq<Record>)
    requires ConfigValid(config) && DiskValid(log.segments, history) && (log.segments == [] ==> history == [])
    ensures Consistent(Open(log, config, history))
  {
  }

  lemma {:induction false} RunKeepsConsistent(states: seq<State>, events: seq<Event>, i: nat)
    requires Run(states, events) && i < |states|
    ensures Consistent(states[i])
  {
    if i > 0 {
      RunKeepsConsistent(states, events, i - 1);
      assert StepAt(states, events, i - 1);
      StepKeepsConsistent(states[i - 1], events[i - 1]);
    }
  }

  // ----- numbers ----------------------------------------------------------------------------------------

  /** The number of the last event appended. */
  function LastNumber(history: seq<Record>): nat {
    if history == [] then 0 else Last(history).sequence
  }

  predicate IsOpening(e: Event) {
    e.Reopen? || e.DieRotating?
  }

  /** How many appends failed right before event `k`. */
  function Streak(events: seq<Event>, k: nat): (n: nat)
    requires k <= |events|
    ensures n <= k
  {
    if k == 0 || !events[k - 1].FailedAppend? then 0 else 1 + Streak(events, k - 1)
  }

  /** What the writer at event `k` forgot of the numbers given: all of them, if it was opened on an empty
      newest file and has only failed since. */
  function Lost(states: seq<State>, events: seq<Event>, k: nat): nat
    requires k <= |events| && |states| == |events| + 1
  {
    var opening := k - Streak(events, k);
    if opening > 0 && IsOpening(events[opening - 1]) && NewestEmpty(states[opening - 1].log)
    then LastNumber(states[k].history) else 0
  }

  /** The numbers that failed appends burned make up for those forgotten. */
  predicate Fits(states: seq<State>, events: seq<Event>, k: nat)
    requires k <= |events| && |states| == |events| + 1
  {
    Streak(events, k) == Lost(states, events, k)
  }

  lemma AppendingCounts(s: State, e: Event)
    requires e.Append?
    ensures Step(s, e).history == s.history + [Record(s.sequence + 1, e.fields, e.size)]
    ensures Step(s, e).sequence == s.sequence + 1 == LastNumber(Step(s, e).history)
  {
  }

  lemma OpeningCounts(s: State, e: Event)
    requires Consistent(s) && IsOpening(e)
    ensures Step(s, e).history == s.history
    ensures Step(s, e).sequence == if NewestEmpty(s.log) then 0 else LastNumber(s.history)
  {
    RotatingKeepsConsistent(s);
    if s.log.segments != [] && Last(s.log.segments) != [] {
      LastComesLast(s.log.segments);
    }
  }

  lemma FailingCounts(states: seq<State>, events: seq<Event>, k: nat)
    requires Run(states, events) && 0 < k < |states| && events[k - 1].FailedAppend?
    ensures states[k].history == states[k - 1].history && states[k].sequence == states[k - 1].sequence + 1
    ensures Streak(events, k) == Streak(events, k - 1) + 1
    ensures Lost(states, events, k) == Lost(states, events, k - 1)
  {
    assert StepAt(states, events, k - 1);
  }

  lemma StretchBegins(states: seq<State>, events: seq<Event>, k: nat)
    requires Run(states, events) && 0 < k < |states| && !events[k - 1].FailedAppend? && Consistent(states[k - 1])
    ensures states[k].sequence + Lost(states, events, k) == LastNumber(states[k].history) && Streak(events, k) == 0
  {
    assert StepAt(states, events, k - 1);
    if events[k - 1].Append? {
      AppendingCounts(states[k - 1], events[k - 1]);
    } else {
      OpeningCounts(states[k - 1], events[k - 1]);
    }
  }

  /** The counter is ahead of the last number by the failures, and behind it by what was forgotten. */
  lemma {:induction false} CounterIs(states: seq<State>, events: seq<Event>, k: nat)
    requires Run(states, events) && k < |states|
    ensures states[k].sequence + Lost(states, events, k) == LastNumber(states[k].history) + Streak(events, k)
  {
    if k > 0 {
      if events[k - 1].FailedAppend? {
        CounterIs(states, events, k - 1);
        FailingCounts(states, events, k);
      } else {
        RunKeepsConsistent(states, events, k - 1);
        StretchBegins(states, events, k);
      }
    }
  }

  lemma {:induction false} HistoryGrows(states: seq<State>, events: seq<Event>, j: nat, i: nat)
    requires Run(states, events) && j <= i < |states|
    ensures states[j].history <= states[i].history
  {
    if j < i {
      HistoryGrows(states, events, j, i - 1);
      assert StepAt(states, events, i - 1);
      if events[i - 1].Append? {
        AppendingCounts(states[i - 1], events[i - 1]);
      }
    }
  }

  /** The append that wrote event `n` of the history. */
  lemma {:induction false} WriterOf(states: seq<State>, events: seq<Event>, i: nat, n: nat) returns (k: nat)
    requires Run(states, events) && i < |states| && n < |states[i].history|
    ensures k < i && events[k].Append? && |states[k].history| == n
  {
    assert i > 0;
    k := i - 1;
    assert StepAt(states, events, k);
    if n < |states[k].history| {
      k := WriterOf(states, events, i - 1, n);
    } else if events[k].Append? {
      AppendingCounts(states[k], events[k]);
    }
  }

  /** An append gives the number after the last one exactly when it fits. */
  lemma NextNumberIff(states: seq<State>, events: seq<Event>, k: nat, i: nat)
    requires Run(states, events) && k < i < |states| && events[k].Append?
    ensures var n := |states[k].history|;
            && n < |states[i].history| && states[k].history == states[i].history[..n]
            && (states[i].history[n].sequence == LastNumber(states[k].history) + 1 <==> Fits(states, events, k))
  {
    CounterIs(states, events, k);
    assert StepAt(states, events, k);
    AppendingCounts(states[k], events[k]);
    HistoryGrows(states, events, k + 1, i);
    var n := |states[k].history|;
    assert states[i].history[..n + 1] == states[k + 1].history;
    assert states[i].history[n] == states[k + 1].history[n];
    assert states[i].history[..n] == states[k + 1].history[..n];
  }

  predicate Consecutive(read: seq<Record>) {
    forall m :: 0 < m < |read| ==> read[m].sequence == read[m - 1].sequence + 1
  }

  predicate Numbered(history: seq<Record>) {
    forall n :: 0 <= n < |history| ==> history[n].sequence == n + 1
  }

  /** Every append before `i` fits, but for those whose event is number `off` or earlier in the history. */
  ghost predicate AllFit(states: seq<State>, events: seq<Event>, i: nat, off: int)
    requires i < |states| == |events| + 1
  {
    forall k :: 0 <= k < i && events[k].Append? && |states[k].history| > off ==> Fits(states, events, k)
  }

  lemma FittingIffConsecutive(states: seq<State>, events: seq<Event>, i: nat, off: nat)
    requires Run(states, events) && i < |states| && off <= |states[i].history|
    ensures Consecutive(states[i].history[off..]) <==> AllFit(states, events, i, off)
  {
    var all := states[i].history;
    if Consecutive(all[off..]) {
      forall k | 0 <= k < i && events[k].Append? && |states[k].history| > off ensures Fits(states, events, k) {
        NextNumberIff(states, events, k, i);
        PreviousInRest(all, off, |states[k].history|);
      }
    }
    if AllFit(states, events, i, off) {
      forall m | 0 < m < |all| - off ensures all[off..][m].sequence == all[off..][m - 1].sequence + 1 {
        var k := WriterOf(states, events, i, off + m);
        NextNumberIff(states, events, k, i);
        PreviousInRest(all, off, off + m);
      }
    }
  }

  lemma PreviousInRest(all: seq<Record>, off: nat, n: nat)
    requires off < n < |all|
    ensures all[off..][n - off] == all[n] && all[off..][n - off - 1] == Last(all[..n])
  {
  }

  /** Reading the segments in order gives, in every run, a contiguous end of everything ever appended, up
      to the very last event; and its numbers are consecutive exactly when every append fits whose event
      is read back after another. */
  lemma ReadBackIsContiguousSuffix(states: seq<State>, events: seq<Event>, i: nat)
    requires Run(states, events) && i < |states|
    ensures var read, all := Flatten(states[i].log.segments), states[i].history;
            && IsSuffix(read, all) && (read == [] ==> all == [])
            && (Consecutive(read) <==> AllFit(states, events, i, |all| - |read|))
  {
    RunKeepsConsistent(states, events, i);
    FittingIffConsecutive(states, events, i, |states[i].history| - |Flatten(states[i].log.segments)|);
  }

  /** The events appended are numbered 1, 2, 3, ... exactly when every append fits. */
  lemma NumberedIff(states: seq<State>, events: seq<Event>, i: nat)
    requires Run(states, events) && i < |states|
    ensures Numbered(states[i].history) <==> AllFit(states, events, i, -1)
  {
    var all := states[i].history;
    if Numbered(all) {
      forall k | 0 <= k < i && events[k].Append? ensures Fits(states, events, k) {
        NextNumberIff(states, events, k, i);
      }
    }
    if AllFit(states, events, i, -1) {
      NumberedUpTo(states, events, i, |all|);
    }
  }

  lemma {:induction false} NumberedUpTo(states: seq<State>, events: seq<Event>, i: nat, n: nat)
    requires Run(states, events) && i < |states| && AllFit(states, events, i, -1) && n <= |states[i].history|
    ensures Numbered(states[i].history[..n])
  {
    if n > 0 {
      NumberedUpTo(states, events, i, n - 1);
      var k := WriterOf(states, events, i, n - 1);
      NextNumberIff(states, events, k, i);
      var before, upTo := states[i].history[..n - 1], states[i].history[..n];
      assert upTo == before + [states[i].history[n - 1]];
    }
  }

  /** An append whose event cannot be dumped burns a number: the next append leaves a gap. */
  lemma FailedAppendLeavesGap(s: State, fields: string, size: nat)
    requires s.sequence == LastNumber(s.history)
    ensures var s' := Step(Step(s, FailedAppend), Append(fields, size));
            Last(s'.history).sequence == LastNumber(s.history) + 2
  {
  }

  /** Reopening right after a failed append repairs the counter exactly when nothing was appended yet, or
      that append met a newest file with records and below the limit. */
  lemma FailedAppendThenReopen(s: State, config: Config)
    requires Consistent(s) && ConfigValid(config)
    ensures var s' := Step(Step(s, FailedAppend), Reopen(config));
            s'.sequence == LastNumber(s'.history) <==>
            s.history == [] || (!NewestEmpty(s.log) && Size(Last(s.log.segments)) < s.config.maxBytes)
  {
    StepKeepsConsistent(s, FailedAppend);
    OpeningCounts(Step(s, FailedAppend), Reopen(config));
    FailingEmptiesIff(s);
  }

  /** When a failed append leaves an empty newest file. */
  lemma FailingEmptiesIff(s: State)
    requires Positioned(s)
    ensures Step(s, FailedAppend).history == s.history
    ensures NewestEmpty(Step(s, FailedAppend).log) <==>
            s.log.segments == [] || NewestEmpty(s.log) || Size(Last(s.log.segments)) >= s.config.maxBytes
  {
    RotatingMovesOn(s);
    assert Size([]) == 0;
  }

  /** A failed append that some append follows is repaired: a reopening comes in between, and it met an
      empty history or a newest file below the limit. */
  ghost predicate Repaired(states: seq<State>, events: seq<Event>, j: nat, k: nat)
    requires j < k < |events| && |states| == |events| + 1
  {
    && (exists m :: j < m < k && IsOpening(events[m]))
    && (states[j].history == [] || !MakesFile(states[j]))
  }

  predicate NoAppendBetween(events: seq<Event>, j: nat, k: nat)
    requires k <= |events|
  {
    forall m :: j < m < k ==> !events[m].Append?
  }

  /** An empty newest file comes from a failed append since the last event was written. */
  lemma {:induction false} EmptyComesFromFailure(states: seq<State>, events: seq<Event>, i: nat) returns (j: nat)
    requires Run(states, events) && i < |states| && NewestEmpty(states[i].log)
    ensures j < i && events[j].FailedAppend? && NoAppendBetween(events, j, i) && states[j].history == states[i].history
    ensures MakesFile(states[j])
  {
    j := i - 1;
    RunKeepsConsistent(states, events, j);
    assert StepAt(states, events, j);
    EmptyOriginates(states[j], events[j]);
    if !(events[j].FailedAppend? && MakesFile(states[j])) {
      j := EmptyComesFromFailure(states, events, i - 1);
    }
  }

  /** There is no newest file, or it is full. */
  predicate MakesFile(s: State) {
    s.log.segments == [] || Size(Last(s.log.segments)) >= s.config.maxBytes
  }

  lemma EmptyOriginates(s: State, e: Event)
    requires Consistent(s) && NewestEmpty(Step(s, e).log)
    ensures !e.Append? && Step(s, e).history == s.history
    ensures (e.FailedAppend? && MakesFile(s)) || NewestEmpty(s.log)
  {
    match e
    case Append(_, _) => PreparingKeepsPositioned(s);
    case FailedAppend => FailingEmptiesIff(s);
    case Reopen(_) =>
    case DieRotating(_) => RotatingKeepsConsistent(s);
  }

  /** Repairing every failed append in time is enough. */
  lemma RepairedFits(states: seq<State>, events: seq<Event>, k: nat)
    requires Run(states, events) && k < |events|
    requires forall j :: 0 <= j < k && events[j].FailedAppend? && NoAppendBetween(events, j, k) ==>
               Repaired(states, events, j, k)
    ensures Fits(states, events, k)
  {
    if k > 0 && events[k - 1].FailedAppend? {
      assert NoAppendBetween(events, k - 1, k);
    } else if k > 0 && IsOpening(events[k - 1]) && NewestEmpty(states[k - 1].log) {
      var j := EmptyComesFromFailure(states, events, k - 1);
      assert NoAppendBetween(events, j, k);
      assert Repaired(states, events, j, k);
      RunKeepsConsistent(states, events, k - 1);
      assert StepAt(states, events, k - 1);
      OpeningCounts(states[k - 1], events[k - 1]);
    }
  }

  const TINY := Config(1, 1)
  const FIRST := Record(1, "", 1)
  const SECOND := Record(2, "", 1)

  lemma FirstIsFull()
    ensures Size([]) == 0 && Size([FIRST]) == 1
  {
    assert [FIRST][..0] == [];
  }

  const CANCELLING_EVENTS := [Append("", 1), FailedAppend, Reopen(TINY), FailedAppend, Append("", 1)]
  const CANCELLING_STATES := [
    Init(TINY),
    State(Log(1, [[FIRST]]), 1, 1, TINY, [FIRST]),
    State(Log(1, [[FIRST], []]), 2, 2, TINY, [FIRST]),
    State(Log(1, [[FIRST], []]), 2, 0, TINY, [FIRST]),
    State(Log(1, [[FIRST], []]), 2, 1, TINY, [FIRST]),
    State(Log(1, [[FIRST], [SECOND]]), 2, 2, TINY, [FIRST, SECOND])]

  lemma FirstEventFillsItsFile()
    ensures StepAt(CANCELLING_STATES, CANCELLING_EVENTS, 0)
  {
    var s := Step(CANCELLING_STATES[0], CANCELLING_EVENTS[0]);
    assert s.log.segments == [[FIRST]] && s.history == [FIRST];
  }

  lemma FailingStartsTheNextFile()
    ensures StepAt(CANCELLING_STATES, CANCELLING_EVENTS, 1)
  {
    FirstIsFull();
  }

  lemma ReopeningForgets()
    ensures StepAt(CANCELLING_STATES, CANCELLING_EVENTS, 2)
  {
  }

  lemma FailingAgainOnlyCounts()
    ensures StepAt(CANCELLING_STATES, CANCELLING_EVENTS, 3)
  {
    FirstIsFull();
  }

  lemma SecondEventFits()
    ensures StepAt(CANCELLING_STATES, CANCELLING_EVENTS, 4)
  {
    FirstIsFull();
    var s := Step(CANCELLING_STATES[4], CANCELLING_EVENTS[4]);
    assert Rotate(CANCELLING_STATES[4]) == CANCELLING_STATES[4] == Touch(CANCELLING_STATES[4]);
    assert [] + [SECOND] == [SECOND] && [[FIRST], []][1 := [SECOND]] == [[FIRST], [SECOND]];
    assert s.log.segments == [[FIRST], [SECOND]] && s.history == [FIRST, SECOND];
  }

  lemma CancellingIsRun()
    ensures Run(CANCELLING_STATES, CANCELLING_EVENTS)
  {
    FirstEventFillsItsFile();
    FailingStartsTheNextFile();
    ReopeningForgets();
    FailingAgainOnlyCounts();
    SecondEventFits();
    forall i | 0 <= i < |CANCELLING_EVENTS| ensures StepAt(CANCELLING_STATES, CANCELLING_EVENTS, i) {
      assert i == 0 || i == 1 || i == 2 || i == 3 || i == 4;
    }
  }

  /** It is not necessary: failures can make up for what a reopening forgot. Here one event fills the first
      file, a failed append creates the second one, the writer is reopened and starts again at 0, and one
      more failed append brings it back to 1 just before the next event. */
  lemma FailuresCanCancelOut()
    ensures Run(CANCELLING_STATES, CANCELLING_EVENTS) && Numbered(CANCELLING_STATES[5].history)
    ensures CANCELLING_EVENTS[1].FailedAppend? && CANCELLING_EVENTS[4].Append? && NoAppendBetween(CANCELLING_EVENTS, 1, 4)
    ensures !Repaired(CANCELLING_STATES, CANCELLING_EVENTS, 1, 4)
  {
    CancellingIsRun();
    FirstIsFull();
    forall m | 1 < m < 4 ensures !CANCELLING_EVENTS[m].Append? {
      assert m == 2 || m == 3;
    }
  }

  // ----- bounds ---------------------------------------------------------------------------------------

  /** At most one segment more than configured, each below the size limit but for its last record. */
  predicate Bounded(s: State) {
    && |s.log.segments| <= s.config.maxSegments + 1
    && forall j :: 0 <= j < |s.log.segments| && s.log.segments[j] != [] ==>
         Size(s.log.segments[j][..|s.log.segments[j]| - 1]) < s.config.maxBytes
  }

  predicate BoundedWhenReady(s: State) {
    Bounded(s) && s.log.segments != [] && Size(Last(s.log.segments)) < s.config.maxBytes
  }

  lemma RotatingKeepsBounded(s: State)
    requires Positioned(s) && Bounded(s)
    ensures Bounded(Rotate(s))
    ensures Rotate(s) != s ==> |Rotate(s).log.segments| <= s.config.maxSegments
  {
  }

  lemma PreparingKeepsBounded(s: State)
    requires Positioned(s) && Bounded(s)
    ensures BoundedWhenReady(Touch(Rotate(s)))
  {
    RotatingKeepsBounded(s);
    RotatingMovesOn(s);
    assert Size([]) == 0;
  }

  lemma WritingKeepsBounded(s: State, r: Record)
    requires BoundedWhenReady(s)
    ensures Bounded(Write(s, r))
  {
    var n := |s.log.segments| - 1;
    assert (s.log.segments[n] + [r])[..|s.log.segments[n]|] == s.log.segments[n];
  }

  lemma AppendKeepsBounded(s: State, fields: string, size: nat)
    requires Positioned(s) && Bounded(s)
    ensures Bounded(AfterAppend(s, fields, size))
  {
    PreparingKeepsBounded(s);
    WritingKeepsBounded(Touch(Rotate(s)).(sequence := s.sequence + 1), Record(s.sequence + 1, fields, size));
  }

  lemma StepKeepsBounded(s: State, e: Event)
    requires Positioned(s) && Bounded(s)
    requires (e.Reopen? || e.DieRotating?) ==> e.config == s.config
    ensures Bounded(Step(s, e)) && Step(s, e).config == s.config
  {
    match e
    case Append(fields, size) => AppendKeepsBounded(s, fields, size);
    case FailedAppend => PreparingKeepsBounded(s);
    case Reopen(_) =>
    case DieRotating(_) => RotatingKeepsBounded(s);
  }

  lemma {:induction false} RunKeepsBounded(states: seq<State>, events: seq<Event>, i: nat, config: Config)
    requires Run(states, events) && i < |states| && states[0].config == config
    requires forall j :: 0 <= j < i && (events[j].Reopen? || events[j].DieRotating?) ==> events[j].config == config
    ensures Bounded(states[i]) && states[i].config == config
  {
    if i > 0 {
      RunKeepsBounded(states, events, i - 1, config);
      RunKeepsPositioned(states, events, i - 1);
      assert StepAt(states, events, i - 1);
      StepKeepsBounded(states[i - 1], events[i - 1]);
    }
  }
}
