/** The log as its code sees the directory: a file is first or last by its name. Up to file number 999999
    that is the order of the numbers, which `Wal` takes; beyond it is not. */
module WalByName {
  import opened Sequences
  import opened WalNames
  import W = Wal

  /** The highest segment number whose name still sorts where it should. */
  const LAST_NUMBER: nat := 999999

  type Files = map<nat, W.Segment>

  /** A writer and its directory, the files by number. `places` has the file and the line that each event
      of the history was given. */
  datatype State = State(files: Files, index: nat, sequence: nat, config: W.Config,
                         history: seq<W.Record>, places: seq<(nat, nat)>)

  // ----- the listing --------------------------------------------------------------------------------

  predicate NoLater(a: nat, b: nat) {
    a == b || Less(Name(a), Name(b))
  }

  ghost predicate IsFirst(numbers: set<nat>, n: nat) {
    n in numbers && forall m: nat {:trigger NoLater(n, m)} :: m in numbers ==> NoLater(n, m)
  }

  ghost predicate IsLast(numbers: set<nat>, n: nat) {
    n in numbers && forall m: nat {:trigger NoLater(m, n)} :: m in numbers ==> NoLater(m, n)
  }

  lemma NoLaterOrder(a: nat, b: nat, c: nat)
    ensures NoLater(a, b) || NoLater(b, a)
    ensures NoLater(a, b) && NoLater(b, c) ==> NoLater(a, c)
    ensures NoLater(a, b) && NoLater(b, a) ==> a == b
  {
    NameReadsBack(a);
    NameReadsBack(b);
    LessTotal(Name(a), Name(b));
    if Less(Name(a), Name(b)) {
      LessAsymmetric(Name(a), Name(b));
      if Less(Name(b), Name(c)) {
        LessTransitive(Name(a), Name(b), Name(c));
      }
    }
  }

  lemma {:induction false} EndsExist(numbers: set<nat>)
    requires numbers != {}
    ensures (exists n :: IsFirst(numbers, n)) && (exists n :: IsLast(numbers, n))
  {
    var x :| x in numbers;
    if numbers == {x} {
      assert IsFirst(numbers, x) && IsLast(numbers, x);
    } else {
      EndsExist(numbers - {x});
      var a :| IsFirst(numbers - {x}, a);
      var b :| IsLast(numbers - {x}, b);
      NoLaterOrder(x, a, a);
      NoLaterOrder(b, x, x);
      forall m | m in numbers ensures NoLater(x, a) ==> NoLater(x, m) {
        NoLaterOrder(x, a, m);
      }
      forall m | m in numbers ensures NoLater(b, x) ==> NoLater(m, x) {
        NoLaterOrder(m, b, x);
      }
      assert IsFirst(numbers, if NoLater(x, a) then x else a);
      assert IsLast(numbers, if NoLater(b, x) then x else b);
    }
  }

  /** The file that is listed first, and the one that is listed last. */
  ghost function First(numbers: set<nat>): (n: nat)
    requires numbers != {}
    ensures IsFirst(numbers, n)
  {
    EndsExist(numbers);
    var n :| IsFirst(numbers, n);
    n
  }

  ghost function LastOf(numbers: set<nat>): (n: nat)
    requires numbers != {}
    ensures IsLast(numbers, n)
  {
    EndsExist(numbers);
    var n :| IsLast(numbers, n);
    n
  }

  lemma FirstIs(numbers: set<nat>, n: nat)
    requires IsFirst(numbers, n)
    ensures First(numbers) == n
  {
    NoLaterOrder(First(numbers), n, n);
  }

  lemma LastIs(numbers: set<nat>, n: nat)
    requires IsLast(numbers, n)
    ensures LastOf(numbers) == n
  {
    NoLaterOrder(LastOf(numbers), n, n);
  }

  // ----- the writer's steps ---------------------------------------------------------------------------

  /** `_discover_last_segment_index` and `_discover_last_sequence`. */
  ghost function Open(files: Files, config: W.Config, history: seq<W.Record>, places: seq<(nat, nat)>): State {
    if files == map[] then State(files, 1, 0, config, history, places)
    else
      var n := LastOf(files.Keys);
      State(files, n, if files[n] == [] then 0 else W.Last(files[n]).sequence, config, history, places)
  }

  /** Files are deleted from the front of the listing. */
  ghost function CleanUp(files: Files, maxSegments: nat): Files
    decreases |files.Keys|
  {
    if |files.Keys| <= maxSegments then files
    else
      var n := First(files.Keys);
      assert (files - {n}).Keys == files.Keys - {n};
      CleanUp(files - {n}, maxSegments)
  }

  ghost function Rotate(s: State): (r: State)
    ensures r.(files := s.files, index := s.index) == s
  {
    if s.index in s.files && W.Size(s.files[s.index]) >= s.config.maxBytes
    then s.(index := s.index + 1, files := CleanUp(s.files, s.config.maxSegments))
    else s
  }

  ghost function Touch(s: State): (r: State)
    ensures r.(files := s.files) == s && s.index in r.files
  {
    if s.index in s.files then s else s.(files := s.files[s.index := []])
  }

  function Write(s: State, r: W.Record): State
    requires s.index in s.files
  {
    var segment := s.files[s.index] + [r];
    s.(files := s.files[s.index := segment], history := s.history + [r], places := s.places + [(s.index, |segment|)])
  }

  ghost function AfterAppend(s: State, fields: string, size: nat): State {
    var ready := Touch(Rotate(s));
    Write(ready.(sequence := s.sequence + 1), W.Record(s.sequence + 1, fields, size))
  }

  ghost function Step(s: State, e: W.Event): State {
    match e
    case Append(fields, size) => AfterAppend(s, fields, size)
    case FailedAppend => Touch(Rotate(s)).(sequence := s.sequence + 1)
    case Reopen(config) => Open(s.files, config, s.history, s.places)
    case DieRotating(config) => Open(Rotate(s).files, config, s.history, s.places)
  }

  ghost function Init(config: W.Config): State {
    Open(map[], config, [], [])
  }

  ghost predicate Run(states: seq<State>, events: seq<W.Event>) {
    && |states| == |events| + 1
    && W.ConfigValid(states[0].config) && states[0] == Init(states[0].config)
    && forall i :: 0 <= i < |events| ==> StepAt(states, events, i)
  }

  ghost predicate StepAt(states: seq<State>, events: seq<W.Event>, i: nat)
    requires i < |events| && |states| == |events| + 1
  {
    W.Enabled(events[i]) && states[i + 1] == Step(states[i], events[i])
  }

  /** Up to step `i` the writer has not gone past file number `last`. */
  predicate UpTo(states: seq<State>, i: nat, last: nat)
    requires i <= |states|
  {
    forall j :: 0 <= j < i ==> states[j].index <= last
  }

  // ----- the order of numbers ---------------------------------------------------------------------------

  predicate AllUpTo(files: Files, last: nat) {
    forall n <- files :: n <= last
  }

  lemma SmallNumbersKeepOrder(a: nat, b: nat)
    requires a <= b <= LAST_NUMBER
    ensures NoLater(a, b)
  {
    if a < b {
      SixDigitNamesSortAsNumbers(a, b);
    }
  }

  lemma FirstIsLeast(numbers: set<nat>)
    requires numbers != {} && forall n <- numbers :: n <= LAST_NUMBER
    ensures forall n <- numbers :: First(numbers) <= n
  {
    forall n | n in numbers ensures First(numbers) <= n {
      if n < First(numbers) {
        SmallNumbersKeepOrder(n, First(numbers));
        NoLaterOrder(n, First(numbers), n);
      }
    }
  }

  lemma LastIsGreatest(numbers: set<nat>)
    requires numbers != {} && forall n <- numbers :: n <= LAST_NUMBER
    ensures forall n <- numbers :: n <= LastOf(numbers)
  {
    forall n | n in numbers ensures n <= LastOf(numbers) {
      if n > LastOf(numbers) {
        SmallNumbersKeepOrder(LastOf(numbers), n);
        NoLaterOrder(n, LastOf(numbers), n);
      }
    }
  }

  /** `c` has what is left of `files` after deleting some of the lowest numbers. */
  predicate LowestGone(files: Files, c: Files) {
    && (forall n <- c :: n in files && c[n] == files[n])
    && (forall n, m :: n in files && n !in c && m in c ==> n < m)
    && (files != map[] ==> c != map[])
  }

  lemma {:induction false} CleanUpDeletesLowest(files: Files, maxSegments: nat)
    requires AllUpTo(files, LAST_NUMBER) && maxSegments > 0
    ensures LowestGone(files, CleanUp(files, maxSegments))
    decreases |files.Keys|
  {
    if |files.Keys| > maxSegments {
      var n := First(files.Keys);
      FirstIsLeast(files.Keys);
      var rest := files - {n};
      assert rest.Keys == files.Keys - {n} && |rest.Keys| == |files.Keys| - 1;
      CleanUpDeletesLowest(rest, maxSegments);
    }
  }

  /** The writer's file is the newest one; the directory is empty only before the first append. */
  predicate Standing(s: State) {
    && W.ConfigValid(s.config)
    && (if s.files == map[] then s.index == 1 && s.history == [] else s.index in s.files)
    && (forall n <- s.files :: n <= s.index)
  }

  /** After rotation: the writer's file may be one that is not there yet, above all others. */
  predicate Ready(s: State) {
    W.ConfigValid(s.config) && forall n <- s.files :: n <= s.index
  }

  lemma RotatingIsReady(s: State)
    requires Standing(s) && s.index <= LAST_NUMBER
    ensures Ready(Rotate(s)) && LowestGone(s.files, Rotate(s).files)
    ensures s.index in s.files ==> s.index in Rotate(s).files
    ensures Rotate(s) != s ==> Rotate(s).index == s.index + 1 && Rotate(s).index !in Rotate(s).files
  {
    CleanUpDeletesLowest(s.files, s.config.maxSegments);
  }

  lemma OpeningStands(files: Files, config: W.Config, history: seq<W.Record>, places: seq<(nat, nat)>)
    requires AllUpTo(files, LAST_NUMBER) && W.ConfigValid(config) && (files == map[] ==> history == [])
    ensures Standing(Open(files, config, history, places))
  {
    if files != map[] {
      LastIsGreatest(files.Keys);
    }
  }

  lemma StepKeepsStanding(s: State, e: W.Event)
    requires Standing(s) && s.index <= LAST_NUMBER && W.Enabled(e)
    ensures Standing(Step(s, e))
  {
    RotatingIsReady(s);
    match e
    case Append(_, _) =>
    case FailedAppend =>
    case Reopen(config) => OpeningStands(s.files, config, s.history, s.places);
    case DieRotating(config) => OpeningStands(Rotate(s).files, config, s.history, s.places);
  }

  lemma {:induction false} RunKeepsStanding(states: seq<State>, events: seq<W.Event>, i: nat)
    requires Run(states, events) && i < |states| && UpTo(states, i, LAST_NUMBER)
    ensures Standing(states[i])
  {
    if i > 0 {
      RunKeepsStanding(states, events, i - 1);
      assert StepAt(states, events, i - 1);
      StepKeepsStanding(states[i - 1], events[i - 1]);
    }
  }

  // ----- what is deleted --------------------------------------------------------------------------------

  /** Of the files of `s` only lower numbers than all that stay are gone, the newest one stays, and every
      file that stays has at least its lines. */
  predicate KeepsNewest(s: Files, t: Files) {
    && (forall n, m :: n in s && n !in t && m in s && m in t ==> n < m)
    && (forall n :: n in s && (forall m <- s :: m <= n) ==> n in t)
    && (forall n :: n in s && n in t ==> s[n] <= t[n])
  }

  lemma StepKeepsNewest(s: State, e: W.Event)
    requires Standing(s) && s.index <= LAST_NUMBER
    ensures KeepsNewest(s.files, Step(s, e).files)
  {
    RotatingIsReady(s);
  }

  /** As long as the writer has not gone past 999999: only the oldest files ever go, never the newest one,
      and every file that stays keeps its lines. */
  lemma OnlyOldestAreDeleted(states: seq<State>, events: seq<W.Event>, i: nat)
    requires Run(states, events) && i < |events| && UpTo(states, i + 1, LAST_NUMBER)
    ensures KeepsNewest(states[i].files, states[i + 1].files)
  {
    RunKeepsStanding(states, events, i);
    assert StepAt(states, events, i);
    StepKeepsNewest(states[i], events[i]);
  }

  // ----- places -----------------------------------------------------------------------------------------

  predicate Before(p: (nat, nat), q: (nat, nat)) {
    p.0 < q.0 || (p.0 == q.0 && p.1 < q.1)
  }

  predicate Forward(places: seq<(nat, nat)>) {
    forall m, n :: 0 <= m < n < |places| ==> Before(places[m], places[n])
  }

  ghost predicate Placed(r: W.Record, place: (nat, nat), history: seq<W.Record>, places: seq<(nat, nat)>) {
    exists n :: 0 <= n < |history| && n < |places| && history[n] == r && places[n] == place
  }

  /** Every line of the file is an event placed there. */
  ghost predicate LinesPlaced(n: nat, lines: W.Segment, history: seq<W.Record>, places: seq<(nat, nat)>) {
    forall l :: 0 <= l < |lines| ==> Placed(lines[l], (n, l + 1), history, places)
  }

  /** Places only move forward and without gaps, none is beyond the writer's file, every line on disk is at its
      place, and a file that is there has all the lines that were ever placed in it. */
  ghost predicate PlacesValid(s: State) {
    && |s.places| == |s.history| && Forward(s.places)
    && (forall k :: 0 <= k < |s.places| ==> s.places[k].0 <= s.index)
    && Gapless(s.places)
    && FilesValid(s.files, s.history, s.places)
  }

  /** Before every line but the first of a file comes the one above it. */
  ghost predicate Gapless(places: seq<(nat, nat)>) {
    forall k :: 0 <= k < |places| ==>
      places[k].1 >= 1 && (places[k].1 > 1 ==> (places[k].0, places[k].1 - 1) in places)
  }

  ghost predicate FilesValid(files: Files, history: seq<W.Record>, places: seq<(nat, nat)>) {
    && (forall n <- files :: LinesPlaced(n, files[n], history, places))
    && (forall k :: 0 <= k < |places| && places[k].0 in files ==> 1 <= places[k].1 <= |files[places[k].0]|)
  }

  lemma FewerFilesStayValid(files: Files, c: Files, history: seq<W.Record>, places: seq<(nat, nat)>)
    requires FilesValid(files, history, places) && forall n <- c :: n in files && c[n] == files[n]
    ensures FilesValid(c, history, places)
  {
  }

  lemma NewFileIsValid(files: Files, index: nat, history: seq<W.Record>, places: seq<(nat, nat)>)
    requires FilesValid(files, history, places) && index !in files
    requires forall k :: 0 <= k < |places| ==> places[k].0 < index
    ensures FilesValid(files[index := []], history, places)
  {
  }

  lemma PlacedStays(r: W.Record, place: (nat, nat), history: seq<W.Record>, places: seq<(nat, nat)>,
                    added: W.Record, at: (nat, nat))
    requires |places| == |history| && Placed(r, place, history, places)
    ensures Placed(r, place, history + [added], places + [at])
  {
    var n :| 0 <= n < |history| && history[n] == r && places[n] == place;
    assert (history + [added])[n] == r && (places + [at])[n] == place;
  }

  lemma LastIsPlaced(history: seq<W.Record>, places: seq<(nat, nat)>, added: W.Record, at: (nat, nat))
    requires |places| == |history|
    ensures Placed(added, at, history + [added], places + [at])
  {
    assert (history + [added])[|history|] == added && (places + [at])[|history|] == at;
  }

  lemma LinesStayPlaced(n: nat, lines: W.Segment, history: seq<W.Record>, places: seq<(nat, nat)>,
                         added: W.Record, at: (nat, nat))
    requires |places| == |history| && LinesPlaced(n, lines, history, places)
    ensures LinesPlaced(n, lines, history + [added], places + [at])
  {
    forall l | 0 <= l < |lines| ensures Placed(lines[l], (n, l + 1), history + [added], places + [at]) {
      PlacedStays(lines[l], (n, l + 1), history, places, added, at);
    }
  }

  lemma WrittenLinesPlaced(n: nat, lines: W.Segment, history: seq<W.Record>, places: seq<(nat, nat)>, added: W.Record)
    requires |places| == |history| && LinesPlaced(n, lines, history, places)
    ensures LinesPlaced(n, lines + [added], history + [added], places + [(n, |lines| + 1)])
  {
    LinesStayPlaced(n, lines, history, places, added, (n, |lines| + 1));
    LastIsPlaced(history, places, added, (n, |lines| + 1));
  }

  /** A new event's place comes after all earlier ones. */
  lemma WritingKeepsPlaces(s: State, r: W.Record)
    requires PlacesValid(s) && s.index in s.files
    ensures PlacesValid(Write(s, r))
  {
    var s', at := Write(s, r), (s.index, |s.files[s.index]| + 1);
    forall k | 0 <= k < |s.places| ensures Before(s.places[k], at) {
      assert s.places[k].0 <= s.index;
    }
    if s.files[s.index] != [] {
      var l := |s.files[s.index]| - 1;
      assert Placed(s.files[s.index][l], (s.index, l + 1), s.history, s.places);
    }
    forall n | n in s'.files ensures LinesPlaced(n, s'.files[n], s'.history, s'.places) {
      if n == s.index {
        WrittenLinesPlaced(n, s.files[n], s.history, s.places, r);
      } else {
        LinesStayPlaced(n, s.files[n], s.history, s.places, r, at);
      }
    }
  }

  lemma RotatingKeepsPlaces(s: State)
    requires Standing(s) && PlacesValid(s) && s.index <= LAST_NUMBER
    ensures PlacesValid(Rotate(s))
  {
    RotatingIsReady(s);
    FewerFilesStayValid(s.files, Rotate(s).files, s.history, s.places);
  }

  lemma PreparingKeepsPlaces(s: State)
    requires Standing(s) && PlacesValid(s) && s.index <= LAST_NUMBER
    ensures PlacesValid(Touch(Rotate(s)))
  {
    RotatingIsReady(s);
    RotatingKeepsPlaces(s);
    var r := Rotate(s);
    if r.index !in r.files {
      NewFileIsValid(r.files, r.index, r.history, r.places);
    }
  }

  lemma CountingKeepsPlaces(s: State, sequence: nat)
    requires PlacesValid(s)
    ensures PlacesValid(s.(sequence := sequence))
  {
  }

  lemma WritingReadyKeepsPlaces(ready: State, sequence: nat, r: W.Record)
    requires PlacesValid(ready) && ready.index in ready.files
    ensures PlacesValid(Write(ready.(sequence := sequence), r))
  {
    CountingKeepsPlaces(ready, sequence);
    WritingKeepsPlaces(ready.(sequence := sequence), r);
  }

  lemma AppendingKeepsPlaces(s: State, fields: string, size: nat)
    requires Standing(s) && PlacesValid(s) && s.index <= LAST_NUMBER
    ensures PlacesValid(AfterAppend(s, fields, size))
  {
    PreparingKeepsPlaces(s);
    WritingReadyKeepsPlaces(Touch(Rotate(s)), s.sequence + 1, W.Record(s.sequence + 1, fields, size));
  }

  lemma StepKeepsPlaces(s: State, e: W.Event)
    requires Standing(s) && PlacesValid(s) && s.index <= LAST_NUMBER && W.Enabled(e)
    ensures PlacesValid(Step(s, e))
  {
    match e
    case Append(fields, size) => AppendingKeepsPlaces(s, fields, size);
    case FailedAppend =>
      PreparingKeepsPlaces(s);
      CountingKeepsPlaces(Touch(Rotate(s)), s.sequence + 1);
    case Reopen(config) =>
      OpeningKeepsPlaces(s, s.files, config);
    case DieRotating(config) =>
      RotatingIsReady(s);
      OpeningKeepsPlaces(s, Rotate(s).files, config);
  }

  lemma OpeningKeepsPlaces(s: State, files: Files, config: W.Config)
    requires Standing(s) && PlacesValid(s) && s.index <= LAST_NUMBER && LowestGone(s.files, files)
    ensures PlacesValid(Open(files, config, s.history, s.places))
  {
    FewerFilesStayValid(s.files, files, s.history, s.places);
    if files != map[] {
      LastIsGreatest(files.Keys);
      NewestStays(s, files);
    }
  }

  lemma NewestStays(s: State, files: Files)
    requires Standing(s) && s.files != map[] && LowestGone(s.files, files)
    ensures s.index in files
  {
    var n :| n in files;
    assert n in s.files && n <= s.index;
  }

  /** As long as the writer has not gone past 999999: a place is never given to two events, not even after
      its file was deleted, and what is on disk is at its place. */
  lemma {:induction false} RunKeepsPlaces(states: seq<State>, events: seq<W.Event>, i: nat)
    requires Run(states, events) && i < |states| && UpTo(states, i, LAST_NUMBER)
    ensures PlacesValid(states[i])
  {
    if i > 0 {
      RunKeepsPlaces(states, events, i - 1);
      RunKeepsStanding(states, events, i - 1);
      assert StepAt(states, events, i - 1);
      StepKeepsPlaces(states[i - 1], events[i - 1]);
    }
  }

  // ----- agreement with the order of numbers ----------------------------------------------------------------

  predicate InLog(log: W.Log, n: nat) {
    log.first <= n < log.first + |log.segments|
  }

  /** All numbers of the log sort as their names do. */
  predicate Small(log: W.Log) {
    log.segments != [] ==> log.first + |log.segments| <= LAST_NUMBER + 1
  }

  /** The files that a log by numbers stands for. */
  function FilesOf(log: W.Log): Files {
    map n: nat | log.first <= n < log.first + |log.segments| && InLog(log, n) :: log.segments[n - log.first]
  }

  predicate Agrees(s: State, w: W.State) {
    && s.files == FilesOf(w.log) && s.index == w.index && s.sequence == w.sequence
    && s.config == w.config && s.history == w.history
  }

  lemma {:induction false} CountFiles(log: W.Log)
    ensures |FilesOf(log).Keys| == |log.segments|
    decreases |log.segments|
  {
    if log.segments != [] {
      var rest := W.Log(log.first + 1, log.segments[1..]);
      CountFiles(rest);
      assert forall n: nat :: InLog(log, n) <==> InLog(rest, n) || n == log.first;
      assert FilesOf(log).Keys == FilesOf(rest).Keys + {log.first};
    } else {
      assert FilesOf(log).Keys == {};
    }
  }

  lemma WithoutFirst(log: W.Log)
    requires log.segments != [] && Small(log)
    ensures log.first in FilesOf(log)
    ensures First(FilesOf(log).Keys) == log.first
    ensures FilesOf(log) - {log.first} == FilesOf(W.Log(log.first + 1, log.segments[1..]))
  {
    assert InLog(log, log.first);
    forall n | n in FilesOf(log).Keys ensures NoLater(log.first, n) {
      SmallNumbersKeepOrder(log.first, n);
    }
    FirstIs(FilesOf(log).Keys, log.first);
  }

  lemma {:induction false} CleanUpAgrees(log: W.Log, maxSegments: nat)
    requires Small(log)
    ensures CleanUp(FilesOf(log), maxSegments) == FilesOf(W.CleanUp(log, maxSegments))
    decreases |log.segments|
  {
    CountFiles(log);
    if |log.segments| > maxSegments {
      var rest := W.Log(log.first + 1, log.segments[1..]);
      WithoutFirst(log);
      CleanUpAgrees(rest, maxSegments);
      CleanUpSkips(log, maxSegments);
    }
  }

  lemma CleanUpSkips(log: W.Log, maxSegments: nat)
    requires |log.segments| > maxSegments
    ensures W.CleanUp(log, maxSegments) == W.CleanUp(W.Log(log.first + 1, log.segments[1..]), maxSegments)
  {
    var rest := W.Log(log.first + 1, log.segments[1..]);
    if |rest.segments| > maxSegments {
      assert rest.segments[|rest.segments| - maxSegments..] == log.segments[|log.segments| - maxSegments..];
    }
  }

  lemma NewestIsLast(log: W.Log)
    requires log.segments != [] && Small(log)
    ensures log.first in FilesOf(log)
    ensures LastOf(FilesOf(log).Keys) == log.first + |log.segments| - 1
  {
    var newest := log.first + |log.segments| - 1;
    assert InLog(log, log.first) && InLog(log, newest);
    forall n | n in FilesOf(log).Keys ensures NoLater(n, newest) {
      SmallNumbersKeepOrder(n, newest);
    }
    LastIs(FilesOf(log).Keys, newest);
  }

  lemma NoFilesIff(log: W.Log)
    ensures FilesOf(log) == map[] <==> log.segments == []
  {
    if log.segments != [] {
      assert InLog(log, log.first);
      assert log.first in FilesOf(log);
    }
  }

  lemma OpenAgrees(log: W.Log, config: W.Config, history: seq<W.Record>, places: seq<(nat, nat)>)
    requires Small(log)
    ensures Agrees(Open(FilesOf(log), config, history, places), W.Open(log, config, history))
  {
    NoFilesIff(log);
    if log.segments != [] {
      NewestIsLast(log);
    }
  }

  lemma RotateAgrees(s: State, w: W.State)
    requires Agrees(s, w) && W.Positioned(w) && s.index <= LAST_NUMBER
    ensures Agrees(Rotate(s), W.Rotate(w))
  {
    ActiveAgrees(s, w);
    if W.ActiveExists(w) && W.Size(W.Last(w.log.segments)) >= w.config.maxBytes {
      CleanUpAgrees(w.log, w.config.maxSegments);
    }
  }

  lemma ActiveAgrees(s: State, w: W.State)
    requires Agrees(s, w) && W.Positioned(w)
    ensures s.index in s.files <==> W.ActiveExists(w)
    ensures W.ActiveExists(w) ==> s.files[s.index] == W.Last(w.log.segments)
  {
    assert InLog(w.log, s.index) <==> W.ActiveExists(w);
  }

  /** The writer's file is the newest one or the one after it. */
  predicate NearNewest(w: W.State) {
    w.log.segments != [] ==> w.log.first + |w.log.segments| - 1 <= w.index <= w.log.first + |w.log.segments|
  }

  lemma TouchAgrees(s: State, w: W.State)
    requires Agrees(s, w) && NearNewest(w)
    ensures Agrees(Touch(s), W.Touch(w))
  {
  }

  lemma WriteAgrees(s: State, w: W.State, r: W.Record)
    requires Agrees(s, w) && w.log.segments != [] && w.index == w.log.first + |w.log.segments| - 1
    ensures s.index in s.files && Agrees(Write(s, r), W.Write(w, r))
  {
  }

  lemma PrepareAgrees(s: State, w: W.State)
    requires Agrees(s, w) && W.Positioned(w) && s.index <= LAST_NUMBER
    ensures Agrees(Touch(Rotate(s)), W.Touch(W.Rotate(w)))
  {
    RotateAgrees(s, w);
    W.RotatingMovesOn(w);
    TouchAgrees(Rotate(s), W.Rotate(w));
  }

  lemma AppendAgrees(s: State, w: W.State, fields: string, size: nat)
    requires Agrees(s, w) && W.Positioned(w) && s.index <= LAST_NUMBER
    ensures Agrees(AfterAppend(s, fields, size), W.AfterAppend(w, fields, size))
  {
    PrepareAgrees(s, w);
    W.PreparingKeepsPositioned(w);
    var ready, ready' := Touch(Rotate(s)), W.Touch(W.Rotate(w));
    WriteAgrees(ready.(sequence := s.sequence + 1), ready'.(sequence := s.sequence + 1),
                W.Record(s.sequence + 1, fields, size));
  }

  lemma StepAgrees(s: State, w: W.State, e: W.Event)
    requires Agrees(s, w) && W.Positioned(w) && s.index <= LAST_NUMBER
    ensures Agrees(Step(s, e), W.Step(w, e))
  {
    match e
    case Append(fields, size) => AppendAgrees(s, w, fields, size);
    case FailedAppend => PrepareAgrees(s, w);
    case Reopen(config) => OpenAgrees(w.log, config, w.history, s.places);
    case DieRotating(config) =>
      RotateAgrees(s, w);
      W.RotatingMovesOn(w);
      OpenAgrees(W.Rotate(w).log, config, w.history, s.places);
  }

  /** As long as the writer has not gone past 999999, the code's run is a run of the log by numbers, so all
      that `Wal` promises holds of it. */
  lemma {:induction false} RunAgrees(states: seq<State>, events: seq<W.Event>, i: nat) returns (logs: seq<W.State>)
    requires Run(states, events) && i < |states| && UpTo(states, i, LAST_NUMBER)
    ensures W.Run(logs, events[..i]) && forall j :: 0 <= j <= i ==> Agrees(states[j], logs[j])
    decreases i
  {
    if i == 0 {
      logs := [W.Init(states[0].config)];
      assert FilesOf(W.Log(1, [])) == map[];
    } else {
      logs := RunAgrees(states, events, i - 1);
      W.RunKeepsPositioned(logs, events[..i - 1], i - 1);
      assert StepAt(states, events, i - 1);
      StepAgrees(states[i - 1], logs[i - 1], events[i - 1]);
      W.RunExtends(logs, events[..i - 1], events[i - 1]);
      assert events[..i] == events[..i - 1] + [events[i - 1]];
      logs := logs + [W.Step(logs[i - 1], events[i - 1])];
    }
  }

  /** Reading the files in the order in which they are listed. */
  ghost function ReadBack(files: Files): seq<W.Record>
    decreases |files.Keys|
  {
    if files == map[] then []
    else
      var n := First(files.Keys);
      assert (files - {n}).Keys == files.Keys - {n};
      files[n] + ReadBack(files - {n})
  }

  lemma {:induction false} ReadBackAgrees(log: W.Log)
    requires Small(log)
    ensures ReadBack(FilesOf(log)) == Flatten(log.segments)
    decreases |log.segments|
  {
    NoFilesIff(log);
    if log.segments != [] {
      WithoutFirst(log);
      ReadBackAgrees(W.Log(log.first + 1, log.segments[1..]));
      FlattenSplit(log.segments, 1);
      FlattenMore(log.segments, 0);
      assert log.segments[..0] == [] && [] + log.segments[0] == log.segments[0];
    }
  }

  /** Reading the files as they are listed gives a contiguous end of everything appended, up to the last
      event, in every run up to 999999; the numbers are consecutive exactly when every append fits whose
      event is read back after another. */
  lemma ReadBackIsContiguousSuffix(states: seq<State>, events: seq<W.Event>, i: nat) returns (logs: seq<W.State>)
    requires Run(states, events) && i < |states| && UpTo(states, i + 1, LAST_NUMBER)
    ensures W.Run(logs, events[..i]) && forall j :: 0 <= j <= i ==> Agrees(states[j], logs[j])
    ensures var read, all := ReadBack(states[i].files), states[i].history;
            && W.IsSuffix(read, all) && (read == [] ==> all == [])
            && (W.Consecutive(read) <==> W.AllFit(logs, events[..i], i, |all| - |read|))
  {
    logs := RunAgrees(states, events, i);
    W.RunKeepsPositioned(logs, events[..i], i);
    ReadBackAgrees(logs[i].log);
    W.ReadBackIsContiguousSuffix(logs, events[..i], i);
  }

  /** With one configuration, in every run up to 999999: at most one file more than configured, and each is
      below the limit but for its last record. */
  lemma RunKeepsBounded(states: seq<State>, events: seq<W.Event>, i: nat, config: W.Config)
    requires Run(states, events) && i < |states| && UpTo(states, i, LAST_NUMBER) && states[0].config == config
    requires forall j :: 0 <= j < i && W.IsOpening(events[j]) ==> events[j].config == config
    ensures |states[i].files.Keys| <= config.maxSegments + 1
    ensures forall n <- states[i].files :: states[i].files[n] != [] ==>
              W.Size(states[i].files[n][..|states[i].files[n]| - 1]) < config.maxBytes
  {
    var logs := RunAgrees(states, events, i);
    W.RunKeepsBounded(logs, events[..i], i, config);
    CountFiles(logs[i].log);
  }

  // ----- past 999999 ------------------------------------------------------------------------------------------

  lemma RunExtends(states: seq<State>, events: seq<W.Event>, e: W.Event)
    requires Run(states, events) && W.Enabled(e)
    ensures Run(states + [Step(states[|events|], e)], events + [e])
  {
    var states', events' := states + [Step(states[|events|], e)], events + [e];
    forall i | 0 <= i < |events'| ensures StepAt(states', events', i) {
      if i < |events| {
        assert StepAt(states, events, i);
      }
    }
  }

  function Single(n: nat): W.Segment {
    [W.Record(n, "", 1)]
  }

  lemma SingleIsFull(n: nat)
    ensures W.Size([]) == 0 && W.Size(Single(n)) == 1
  {
    assert Single(n)[..0] == [];
  }

  function FilledHistory(n: nat): seq<W.Record> {
    seq(n, k requires 0 <= k < n => W.Record(k + 1, "", 1))
  }

  function FilledPlaces(n: nat): seq<(nat, nat)> {
    seq(n, k requires 0 <= k < n => (k + 1, 1))
  }

  lemma OneMoreFilled(n: nat)
    ensures FilledHistory(n + 1) == FilledHistory(n) + [W.Record(n + 1, "", 1)]
    ensures FilledPlaces(n + 1) == FilledPlaces(n) + [(n + 1, 1)]
  {
  }

  /** After `n` events, each of which fills its file, with one segment to keep. */
  function Filled(n: nat): State
    requires n >= 1
  {
    State(if n == 1 then map[1 := Single(1)] else map[n - 1 := Single(n - 1), n := Single(n)], n, n, W.TINY,
          FilledHistory(n), FilledPlaces(n))
  }

  lemma CleanUpOfTwo(files: Files, a: nat, b: nat)
    requires files.Keys == {a, b} && a != b && NoLater(a, b)
    ensures CleanUp(files, 1) == files - {a}
  {
    NoLaterOrder(a, a, a);
    FirstIs(files.Keys, a);
    assert |files.Keys| == 2 && (files - {a}).Keys == {b};
  }

  lemma FillingRotates(n: nat)
    requires 1 <= n <= LAST_NUMBER
    ensures Rotate(Filled(n)) == Filled(n).(index := n + 1, files := map[n := Single(n)])
  {
    SingleIsFull(n);
    if n == 1 {
      assert Filled(1).files.Keys == {1};
    } else {
      SmallNumbersKeepOrder(n - 1, n);
      CleanUpOfTwo(Filled(n).files, n - 1, n);
      assert Filled(n).files - {n - 1} == map[n := Single(n)];
    }
  }

  lemma WritingFills(n: nat, s: State)
    requires 1 <= n && s == Filled(n).(index := n + 1, sequence := n + 1, files := map[n := Single(n), n + 1 := []])
    ensures Write(s, W.Record(n + 1, "", 1)) == Filled(n + 1)
  {
    OneMoreFilled(n);
    assert [] + Single(n + 1) == Single(n + 1);
    assert s.files[n + 1 := Single(n + 1)] == Filled(n + 1).files;
  }

  lemma FillingTouches(n: nat)
    requires 1 <= n <= LAST_NUMBER
    ensures Touch(Rotate(Filled(n))) == Filled(n).(index := n + 1, files := map[n := Single(n), n + 1 := []])
  {
    FillingRotates(n);
    assert map[n := Single(n)][n + 1 := []] == map[n := Single(n), n + 1 := []];
  }

  lemma FillingGoesOn(n: nat)
    requires 1 <= n <= LAST_NUMBER
    ensures Step(Filled(n), W.Append("", 1)) == Filled(n + 1)
  {
    FillingTouches(n);
    WritingFills(n, Touch(Rotate(Filled(n))).(sequence := n + 1));
  }

  lemma FillingStarts()
    ensures Step(Init(W.TINY), W.Append("", 1)) == Filled(1)
  {
    var s := Step(Init(W.TINY), W.Append("", 1));
    assert [] + Single(1) == Single(1);
    assert s.files == Filled(1).files && s.history == Filled(1).history && s.places == Filled(1).places;
  }

  /** The run so far has `n` events in files up to `n`. */
  ghost predicate Fills(states: seq<State>, events: seq<W.Event>, n: nat) {
    n >= 1 && Run(states, events) && |events| == n && states[n] == Filled(n) && UpTo(states, n + 1, n)
  }

  lemma FillingFirst() returns (states: seq<State>, events: seq<W.Event>)
    ensures Fills(states, events, 1)
  {
    states, events := [Init(W.TINY), Filled(1)], [W.Append("", 1)];
    FillingStarts();
    assert StepAt(states, events, 0);
  }

  lemma FillingNext(states: seq<State>, events: seq<W.Event>, n: nat)
    requires Fills(states, events, n) && n <= LAST_NUMBER
    ensures Fills(states + [Filled(n + 1)], events + [W.Append("", 1)], n + 1)
  {
    FillingGoesOn(n);
    RunExtends(states, events, W.Append("", 1));
  }

  lemma {:induction false} Fill(n: nat) returns (states: seq<State>, events: seq<W.Event>)
    requires 1 <= n <= LAST_NUMBER + 1
    ensures Fills(states, events, n)
  {
    if n == 1 {
      states, events := FillingFirst();
    } else {
      states, events := Fill(n - 1);
      FillingNext(states, events, n - 1);
      states, events := states + [Filled(n)], events + [W.Append("", 1)];
    }
  }

  /** Reopened on files 999999 and 1000000, the writer takes the older one for its own, and its next rotation
      deletes the newest file instead of the oldest. */
  lemma NewestFileIsDeleted()
    ensures var s := Step(Filled(LAST_NUMBER + 1), W.Reopen(W.TINY));
            && s == Filled(LAST_NUMBER + 1).(index := LAST_NUMBER, sequence := LAST_NUMBER)
            && LAST_NUMBER + 1 in s.files
            && Rotate(s) == s.(index := LAST_NUMBER + 1, files := map[LAST_NUMBER := Single(LAST_NUMBER)])
  {
    SevenDigitsSortFirst();
    SingleIsFull(LAST_NUMBER);
    var files := Filled(LAST_NUMBER + 1).files;
    NoLaterOrder(LAST_NUMBER, LAST_NUMBER, LAST_NUMBER);
    LastIs(files.Keys, LAST_NUMBER);
    CleanUpOfTwo(files, LAST_NUMBER + 1, LAST_NUMBER);
    assert files - {LAST_NUMBER + 1} == map[LAST_NUMBER := Single(LAST_NUMBER)];
  }

  lemma PlaceAfterReopening(fields: string)
    ensures var s := Step(Filled(LAST_NUMBER + 1), W.Reopen(W.TINY));
            var n, r := LAST_NUMBER + 1, W.Record(LAST_NUMBER + 1, fields, 1);
            Step(s, W.Append(fields, 1)) ==
            State(map[LAST_NUMBER := Single(LAST_NUMBER), n := [r]], n, n, W.TINY,
                  FilledHistory(n) + [r], FilledPlaces(n) + [(n, 1)])
  {
    NewestFileIsDeleted();
    var n, r := LAST_NUMBER + 1, W.Record(LAST_NUMBER + 1, fields, 1);
    var ready := Touch(Rotate(Step(Filled(n), W.Reopen(W.TINY))));
    assert ready.files == map[LAST_NUMBER := Single(LAST_NUMBER), n := []];
    assert ready.files[n := [r]] == map[LAST_NUMBER := Single(LAST_NUMBER), n := [r]] && [] + [r] == [r];
  }

  /** Then the place of the deleted event is given again. */
  lemma PlaceIsGivenAgain()
    ensures var s := Step(Filled(LAST_NUMBER + 1), W.Reopen(W.TINY));
            var t := Step(s, W.Append("x", 1));
            t.index == LAST_NUMBER + 1 && !Forward(t.places)
  {
    PlaceAfterReopening("x");
    var t := Step(Step(Filled(LAST_NUMBER + 1), W.Reopen(W.TINY)), W.Append("x", 1));
    assert t.places[LAST_NUMBER] == t.places[LAST_NUMBER + 1] == (LAST_NUMBER + 1, 1);
    assert !Before(t.places[LAST_NUMBER], t.places[LAST_NUMBER + 1]);
  }

  /** A run in which every step deletes only the oldest files and no place is given twice. */
  ghost predicate KeepsOrder(states: seq<State>, events: seq<W.Event>)
    requires |states| == |events| + 1
  {
    && (forall i :: 0 <= i < |events| ==> DeletesOldest(states, i))
    && (forall i :: 0 <= i < |states| ==> Forward(states[i].places))
  }

  predicate DeletesOldest(states: seq<State>, i: nat)
    requires i + 1 < |states|
  {
    KeepsNewest(states[i].files, states[i + 1].files)
  }

  lemma SmallRunsKeepOrder(states: seq<State>, events: seq<W.Event>)
    requires Run(states, events) && UpTo(states, |states|, LAST_NUMBER)
    ensures KeepsOrder(states, events)
  {
    forall i | 0 <= i < |events| ensures DeletesOldest(states, i) {
      OnlyOldestAreDeleted(states, events, i);
    }
    forall i | 0 <= i < |states| ensures Forward(states[i].places) {
      RunKeepsPlaces(states, events, i);
    }
  }

  lemma SomeRunLosesOrder() returns (states: seq<State>, events: seq<W.Event>)
    ensures Run(states, events) && UpTo(states, |states|, LAST_NUMBER + 1) && !KeepsOrder(states, events)
  {
    states, events := Fill(LAST_NUMBER + 1);
    NewestFileIsDeleted();
    PlaceIsGivenAgain();
    var n := |events|;
    RunExtends(states, events, W.Reopen(W.TINY));
    states, events := states + [Step(states[n], W.Reopen(W.TINY))], events + [W.Reopen(W.TINY)];
    RunExtends(states, events, W.Append("x", 1));
    states, events := states + [Step(states[n + 1], W.Append("x", 1))], events + [W.Append("x", 1)];
    assert !Forward(states[n + 2].places);
  }

  /** All runs up to a file number delete only the oldest files and give no place twice exactly when that
      number is at most 999999. */
  lemma OrderHoldsIff(last: nat)
    ensures (forall states, events :: Run(states, events) && UpTo(states, |states|, last) ==> KeepsOrder(states, events))
            <==> last <= LAST_NUMBER
  {
    if last <= LAST_NUMBER {
      forall states, events | Run(states, events) && UpTo(states, |states|, last) ensures KeepsOrder(states, events) {
        SmallRunsKeepOrder(states, events);
      }
    } else {
      var states, events := SomeRunLosesOrder();
      assert UpTo(states, |states|, last);
    }
  }
}
