/** The log and its index store together: appends, rotations, deletions and reopenings on one side, and on
    the other side ingests that list the directory, open one file after the other and read it line by
    line, while the writer goes on. The ingests have no time filter. */
module WalStore {
  import opened Options
  import B = WalByName
  import I = Ingest
  import M = IngestMeaning
  import N = WalNames
  import W = Wal

  /** The directory of the log, how a record is written as a line, and the source that names the directory. */
  datatype Setup = Setup(env: I.Env, spec: I.Spec, dir: string, text: W.Record -> string)

  ghost predicate SetupValid(u: Setup) {
    I.EnvValid(u.env) && I.NUL !in u.dir
  }

  /** An ingest under way: the files it has listed, how many of them are done, and how many lines it has read
      of the next one if that is open. `due` has the events that were on disk when it began, `present`
      those that were on disk at some moment since. Events are named by their index in the history. */
  datatype Reading = Reading(listing: seq<nat>, at: nat, line: Option<nat>, due: set<nat>, present: set<nat>)

  /** `seen` has every event that some ingest has read. */
  datatype State = State(wal: B.State, table: I.Table, ingest: Option<Reading>, seen: set<nat>)

  datatype Event =
    | Write(event: W.Event)
    | Begin(listing: seq<nat>)
    | OpenFile        // it raises if the file is gone
    | ReadLine
    | CloseFile       // at the end of the file
    | Finish
    | Abort           // any exception: the rows inserted so far stay

  function PathOf(u: Setup, file: nat): string {
    u.dir + "/" + N.Name(file)
  }

  function OnDisk(w: B.State): set<nat> {
    set k: nat | k < |w.places| && w.places[k].0 in w.files
  }

  predicate IsOpen(s: State) {
    s.ingest.Some? && s.ingest.value.at < |s.ingest.value.listing| && s.ingest.value.line.Some?
  }

  /** The place of the next line of the open file. */
  function NextPlace(s: State): (nat, nat)
    requires IsOpen(s)
  {
    (s.ingest.value.listing[s.ingest.value.at], s.ingest.value.line.value + 1)
  }

  /** The latest event that was written at the place. */
  function EventAt(places: seq<(nat, nat)>, place: (nat, nat)): (k: nat)
    requires place in places
    ensures k < |places| && places[k] == place && forall j :: k < j < |places| ==> places[j] != place
  {
    var last := |places| - 1;
    if places[last] == place then last else EventAt(places[..last], place)
  }

  predicate IndexValid(w: B.State, n: nat) {
    n < |w.history| == |w.places|
  }

  function ItemAt(u: Setup, r: W.Record, place: (nat, nat)): I.Item {
    I.Item(u.spec, PathOf(u, place.0), place.1, u.text(r))
  }

  /** The table after a line: as in `Ingest`. */
  function Inserted(table: I.Table, v: I.Verdict): I.Table {
    I.AfterVerdict(I.Start(table), v).table
  }

  function VerdictOn(u: Setup, w: B.State, n: nat): I.Verdict
    requires IndexValid(w, n)
  {
    I.Classify(u.env, None, ItemAt(u, w.history[n], w.places[n]))
  }

  ghost predicate Enabled(s: State, e: Event) {
    match e
    case Write(event) => W.Enabled(event)
    case Begin(listing) => s.ingest.None? && forall n: nat :: n in listing <==> n in s.wal.files
    case OpenFile => s.ingest.Some? && s.ingest.value.at < |s.ingest.value.listing| && s.ingest.value.line.None?
    case ReadLine => IsOpen(s) && NextPlace(s) in s.wal.places
    case CloseFile => IsOpen(s) && NextPlace(s) !in s.wal.places
    case Finish => s.ingest.Some? && s.ingest.value.at == |s.ingest.value.listing|
    case Abort => s.ingest.Some?
  }

  function WithReading(s: State, r: Reading): State {
    s.(ingest := Some(r))
  }

  /** While a file is open its lines can be read even after it was deleted. */
  ghost function Step(u: Setup, s: State, e: Event): State
    requires Enabled(s, e) && |s.wal.history| == |s.wal.places|
  {
    match e
    case Write(event) =>
      var w := B.Step(s.wal, event);
      s.(wal := w, ingest := if s.ingest.None? then None
                             else Some(s.ingest.value.(present := s.ingest.value.present + OnDisk(w))))
    case Begin(listing) => WithReading(s, Reading(listing, 0, None, OnDisk(s.wal), OnDisk(s.wal)))
    case OpenFile =>
      if s.ingest.value.listing[s.ingest.value.at] in s.wal.files
      then WithReading(s, s.ingest.value.(line := Some(0))) else s.(ingest := None)
    case ReadLine =>
      var n := EventAt(s.wal.places, NextPlace(s));
      WithReading(s.(table := Inserted(s.table, VerdictOn(u, s.wal, n)), seen := s.seen + {n}),
                  s.ingest.value.(line := Some(s.ingest.value.line.value + 1)))
    case CloseFile => WithReading(s, s.ingest.value.(at := s.ingest.value.at + 1, line := None))
    case Finish => s.(ingest := None)
    case Abort => s.(ingest := None)
  }

  ghost predicate Run(u: Setup, states: seq<State>, events: seq<Event>) {
    && |states| == |events| + 1
    && W.ConfigValid(states[0].wal.config) && states[0] == State(B.Init(states[0].wal.config), map[], None, {})
    && forall i :: 0 <= i < |events| ==> StepAt(u, states, events, i)
  }

  ghost predicate StepAt(u: Setup, states: seq<State>, events: seq<Event>, i: nat)
    requires i < |events| && |states| == |events| + 1
  {
    && Enabled(states[i], events[i]) && |states[i].wal.history| == |states[i].wal.places|
    && states[i + 1] == Step(u, states[i], events[i])
  }

  /** Up to step `i` the writer has not gone past file number `last`. */
  predicate UpTo(states: seq<State>, i: nat, last: nat)
    requires i <= |states|
  {
    forall j :: 0 <= j < i ==> states[j].wal.index <= last
  }

  // ----- the row of an event ------------------------------------------------------------------------

  /** The row that an event gets, if its line is well-formed. */
  function RowAt(u: Setup, w: B.State, n: nat): Option<I.Row>
    requires IndexValid(w, n)
  {
    match VerdictOn(u, w, n)
    case Candidate(row) => Some(row)
    case _ => None
  }

  lemma PathsDiffer(u: Setup, a: nat, b: nat)
    requires PathOf(u, a) == PathOf(u, b)
    ensures a == b
  {
    var prefix := u.dir + "/";
    assert PathOf(u, a)[|prefix|..] == N.Name(a) && PathOf(u, b)[|prefix|..] == N.Name(b);
    N.NameReadsBack(a);
    N.NameReadsBack(b);
  }

  lemma NoNulInPath(u: Setup, file: nat)
    requires I.NUL !in u.dir
    ensures I.NUL !in PathOf(u, file)
  {
    var digits := N.Padded(file, 6);
    assert forall i :: 0 <= i < |digits| ==> N.IsDigit(digits[i]);
    assert I.NUL !in digits && I.NUL !in "wal-" && I.NUL !in ".jsonl" && I.NUL !in "/";
  }

  lemma HashTellsPlace(u: Setup, r: W.Record, p: (nat, nat), q: W.Record, o: (nat, nat))
    requires SetupValid(u)
    requires I.Classify(u.env, None, ItemAt(u, r, p)).Candidate? && I.Classify(u.env, None, ItemAt(u, q, o)).Candidate?
    requires I.Classify(u.env, None, ItemAt(u, r, p)).row.hash == I.Classify(u.env, None, ItemAt(u, q, o)).row.hash
    ensures p == o
  {
    NoNulInPath(u, p.0);
    NoNulInPath(u, o.0);
    I.HashTellsPlace(u.env, None, ItemAt(u, r, p), ItemAt(u, q, o));
    PathsDiffer(u, p.0, o.0);
  }

  lemma PlaceTellsEvent(places: seq<(nat, nat)>, m: nat, n: nat)
    requires B.Forward(places) && m < |places| && n < |places| && places[m] == places[n]
    ensures m == n
  {
  }

  /** Different events have different hashes, as no place is given twice. */
  lemma HashTellsEvent(u: Setup, w: B.State, m: nat, n: nat)
    requires SetupValid(u) && B.Forward(w.places)
    requires IndexValid(w, m) && IndexValid(w, n) && RowAt(u, w, m).Some? && RowAt(u, w, n).Some?
    requires RowAt(u, w, m).value.hash == RowAt(u, w, n).value.hash
    ensures m == n
  {
    HashTellsPlace(u, w.history[m], w.places[m], w.history[n], w.places[n]);
    PlaceTellsEvent(w.places, m, n);
  }

  // ----- exactly once ---------------------------------------------------------------------------------

  /** The table has the row of every well-formed event read by an ingest, and no other row. */
  ghost predicate Exact(u: Setup, w: B.State, table: I.Table, seen: set<nat>) {
    && (forall n <- seen :: IndexValid(w, n) && HasRow(u, w, table, n))
    && (forall h <- table :: exists n :: n in seen && IsRowOf(u, w, table, h, n))
  }

  predicate HasRow(u: Setup, w: B.State, table: I.Table, n: nat)
    requires IndexValid(w, n)
  {
    RowAt(u, w, n).Some? ==>
      RowAt(u, w, n).value.hash in table && table[RowAt(u, w, n).value.hash] == RowAt(u, w, n).value
  }

  predicate IsRowOf(u: Setup, w: B.State, table: I.Table, h: string, n: nat)
    requires h in table
  {
    IndexValid(w, n) && RowAt(u, w, n) == Some(table[h]) && table[h].hash == h
  }

  lemma InsertingIs(table: I.Table, v: I.Verdict)
    ensures Inserted(table, v) == if v.Candidate? && v.row.hash !in table then table[v.row.hash := v.row] else table
  {
  }

  lemma ReadingKeepsExact(u: Setup, w: B.State, table: I.Table, seen: set<nat>, n: nat)
    requires SetupValid(u) && B.Forward(w.places) && Exact(u, w, table, seen) && IndexValid(w, n)
    ensures Exact(u, w, Inserted(table, VerdictOn(u, w, n)), seen + {n})
  {
    var v, table' := VerdictOn(u, w, n), Inserted(table, VerdictOn(u, w, n));
    InsertingIs(table, v);
    if v.Candidate? && v.row.hash in table {
      var m :| m in seen && IsRowOf(u, w, table, v.row.hash, m);
      HashTellsEvent(u, w, m, n);
    }
    forall m | m in seen + {n} ensures IndexValid(w, m) && HasRow(u, w, table', m) {
      if m in seen {
        assert HasRow(u, w, table, m);
      }
    }
    forall h | h in table' ensures exists m :: m in seen + {n} && IsRowOf(u, w, table', h, m) {
      if h in table {
        var m :| m in seen && IsRowOf(u, w, table, h, m);
        assert IsRowOf(u, w, table', h, m);
      } else {
        assert IsRowOf(u, w, table', h, n);
      }
    }
  }

  /** The events so far keep their index and their place. */
  predicate Extends(w: B.State, w': B.State) {
    && |w.history| == |w.places| <= |w'.history| == |w'.places|
    && w'.history[..|w.history|] == w.history && w'.places[..|w.places|] == w.places
  }

  lemma WritingExtends(w: B.State, e: W.Event)
    requires |w.history| == |w.places|
    ensures Extends(w, B.Step(w, e)) && |B.Step(w, e).places| <= |w.places| + 1
    ensures |B.Step(w, e).places| > |w.places| ==> B.Step(w, e).places[|w.places|].0 in B.Step(w, e).files
  {
  }

  lemma ExtendingKeepsRow(u: Setup, w: B.State, w': B.State, n: nat)
    requires Extends(w, w') && IndexValid(w, n)
    ensures IndexValid(w', n) && RowAt(u, w', n) == RowAt(u, w, n)
  {
    assert w'.history[..|w.history|][n] == w'.history[n] && w'.places[..|w.places|][n] == w'.places[n];
  }

  lemma ExtendingKeepsExact(u: Setup, w: B.State, w': B.State, table: I.Table, seen: set<nat>)
    requires Extends(w, w') && Exact(u, w, table, seen)
    ensures Exact(u, w', table, seen)
  {
    forall n | n in seen ensures IndexValid(w', n) && HasRow(u, w', table, n) {
      ExtendingKeepsRow(u, w, w', n);
    }
    forall h | h in table ensures exists n :: n in seen && IsRowOf(u, w', table, h, n) {
      var n :| n in seen && IsRowOf(u, w, table, h, n);
      ExtendingKeepsRow(u, w, w', n);
      assert IsRowOf(u, w', table, h, n);
    }
  }

  // ----- what an ingest has read ------------------------------------------------------------------------

  /** The event is in a file that is done, or among the lines read of the one that is open. */
  predicate IsBehind(r: Reading, place: (nat, nat)) {
    || place.0 in r.listing[..if r.at <= |r.listing| then r.at else |r.listing|]
    || (r.at < |r.listing| && r.line.Some? && place.0 == r.listing[r.at] && place.1 <= r.line.value)
  }

  /** What is on disk has been present; so have the events of the open file. An event that was due and is
      behind has been read. */
  ghost predicate ReadingValid(w: B.State, r: Reading, seen: set<nat>) {
    && r.at <= |r.listing| && (r.line.Some? ==> r.at < |r.listing|)
    && OnDisk(w) <= r.present
    && (r.line.Some? ==> forall k :: 0 <= k < |w.places| && w.places[k].0 == r.listing[r.at] ==> k in r.present)
    && (forall k <- r.due :: k < |w.places| && w.places[k].0 in r.listing)
    && (forall k <- r.due :: IsBehind(r, w.places[k]) ==> k in seen)
  }

  lemma BeginningIsValid(w: B.State, listing: seq<nat>, seen: set<nat>)
    requires forall n: nat :: n in listing <==> n in w.files
    ensures ReadingValid(w, Reading(listing, 0, None, OnDisk(w), OnDisk(w)), seen)
  {
  }

  lemma OpeningKeepsReading(w: B.State, r: Reading, seen: set<nat>)
    requires B.PlacesValid(w) && ReadingValid(w, r, seen)
    requires r.at < |r.listing| && r.line.None? && r.listing[r.at] in w.files
    ensures ReadingValid(w, r.(line := Some(0)), seen)
  {
    forall k | 0 <= k < |w.places| && w.places[k].0 == r.listing[r.at] ensures k in r.present {
      assert k in OnDisk(w);
    }
  }

  lemma LineKeepsReading(w: B.State, r: Reading, seen: set<nat>, n: nat)
    requires B.PlacesValid(w) && ReadingValid(w, r, seen) && r.line.Some? && n < |w.places|
    requires w.places[n] == (r.listing[r.at], r.line.value + 1)
    ensures ReadingValid(w, r.(line := Some(r.line.value + 1)), seen + {n})
  {
    var r' := r.(line := Some(r.line.value + 1));
    forall k | k in r.due && IsBehind(r', w.places[k]) ensures k in seen + {n} {
      if !IsBehind(r, w.places[k]) {
        PlaceTellsEvent(w.places, k, n);
      }
    }
  }

  /** If a line has no event, no later line of the file has. */
  lemma {:induction false} NoLaterLines(places: seq<(nat, nat)>, file: nat, line: nat, k: nat)
    requires B.Gapless(places) && k < |places| && places[k].0 == file && places[k].1 >= line >= 1
    ensures (file, line) in places
    decreases places[k].1
  {
    if places[k].1 > line {
      var j :| 0 <= j < |places| && places[j] == (file, places[k].1 - 1);
      NoLaterLines(places, file, line, j);
    }
  }

  lemma ClosingKeepsReading(w: B.State, r: Reading, seen: set<nat>)
    requires B.PlacesValid(w) && ReadingValid(w, r, seen) && r.line.Some?
    requires (r.listing[r.at], r.line.value + 1) !in w.places
    ensures ReadingValid(w, r.(at := r.at + 1, line := None), seen)
  {
    var r' := r.(at := r.at + 1, line := None);
    assert r.listing[..r.at + 1] == r.listing[..r.at] + [r.listing[r.at]];
    forall k | k in r.due && IsBehind(r', w.places[k]) ensures k in seen {
      if !IsBehind(r, w.places[k]) {
        NoLaterLines(w.places, r.listing[r.at], r.line.value + 1, k);
      }
    }
  }

  lemma WritingKeepsReading(w: B.State, w': B.State, r: Reading, seen: set<nat>)
    requires ReadingValid(w, r, seen) && Extends(w, w') && |w'.places| <= |w.places| + 1
    requires |w'.places| > |w.places| ==> w'.places[|w.places|].0 in w'.files
    ensures ReadingValid(w', r.(present := r.present + OnDisk(w')), seen)
  {
    forall k | 0 <= k < |w.places| ensures w'.places[k] == w.places[k] {
      assert w'.places[..|w.places|][k] == w.places[k];
    }
    if |w'.places| > |w.places| {
      assert |w.places| in OnDisk(w');
    }
  }

  /** At the end every event that was due has been read. */
  lemma FinishedReadAll(w: B.State, r: Reading, seen: set<nat>)
    requires ReadingValid(w, r, seen) && r.at == |r.listing|
    ensures r.due <= seen
  {
    assert r.listing[..r.at] == r.listing;
    forall k | k in r.due ensures k in seen {
      assert IsBehind(r, w.places[k]);
    }
  }

  // ----- results about every run ------------------------------------------------------------------------

  ghost predicate Valid(u: Setup, s: State) {
    && B.Standing(s.wal) && B.PlacesValid(s.wal)
    && Exact(u, s.wal, s.table, s.seen)
    && (s.ingest.Some? ==> ReadingValid(s.wal, s.ingest.value, s.seen))
  }

  lemma WriteKeepsValid(u: Setup, s: State, event: W.Event)
    requires Valid(u, s) && Enabled(s, Write(event)) && s.wal.index <= B.LAST_NUMBER
    ensures Valid(u, Step(u, s, Write(event)))
  {
    B.StepKeepsStanding(s.wal, event);
    B.StepKeepsPlaces(s.wal, event);
    WritingExtends(s.wal, event);
    ExtendingKeepsExact(u, s.wal, B.Step(s.wal, event), s.table, s.seen);
    if s.ingest.Some? {
      WritingKeepsReading(s.wal, B.Step(s.wal, event), s.ingest.value, s.seen);
    }
  }

  lemma ReadLineKeepsValid(u: Setup, s: State)
    requires SetupValid(u) && Valid(u, s) && Enabled(s, ReadLine)
    ensures Valid(u, Step(u, s, ReadLine))
  {
    var n := EventAt(s.wal.places, NextPlace(s));
    ReadingKeepsExact(u, s.wal, s.table, s.seen, n);
    LineKeepsReading(s.wal, s.ingest.value, s.seen, n);
  }

  lemma StepKeepsValid(u: Setup, s: State, e: Event)
    requires SetupValid(u) && Valid(u, s) && Enabled(s, e) && s.wal.index <= B.LAST_NUMBER
    ensures Valid(u, Step(u, s, e))
  {
    match e
    case Write(event) => WriteKeepsValid(u, s, event);
    case Begin(listing) => BeginningIsValid(s.wal, listing, s.seen);
    case OpenFile =>
      if s.ingest.value.listing[s.ingest.value.at] in s.wal.files {
        OpeningKeepsReading(s.wal, s.ingest.value, s.seen);
      }
    case ReadLine => ReadLineKeepsValid(u, s);
    case CloseFile => ClosingKeepsReading(s.wal, s.ingest.value, s.seen);
    case Finish =>
    case Abort =>
  }

  lemma {:induction false} RunKeepsValid(u: Setup, states: seq<State>, events: seq<Event>, i: nat)
    requires SetupValid(u) && Run(u, states, events) && i < |states| && UpTo(states, i, B.LAST_NUMBER)
    ensures Valid(u, states[i])
  {
    if i > 0 {
      RunKeepsValid(u, states, events, i - 1);
      assert StepAt(u, states, events, i - 1);
      StepKeepsValid(u, states[i - 1], events[i - 1]);
    }
  }

  lemma {:induction false} HistoryOnlyGrows(u: Setup, states: seq<State>, events: seq<Event>, j: nat, i: nat)
    requires Run(u, states, events) && j <= i < |states|
    ensures Extends(states[j].wal, states[i].wal)
  {
    if j < i {
      HistoryOnlyGrows(u, states, events, j, i - 1);
      assert StepAt(u, states, events, i - 1);
      if events[i - 1].Write? {
        WritingExtends(states[i - 1].wal, events[i - 1].event);
      }
    } else if i > 0 {
      HistoryOnlyGrows(u, states, events, i - 1, i - 1);
      assert StepAt(u, states, events, i - 1);
      if events[i - 1].Write? {
        WritingExtends(states[i - 1].wal, events[i - 1].event);
      }
    }
  }

  /** Step `j` reads the line of event `n`. */
  ghost predicate Reads(u: Setup, states: seq<State>, events: seq<Event>, j: nat, n: nat)
    requires Run(u, states, events)
  {
    && j < |events| && StepAt(u, states, events, j)
    && events[j].ReadLine? && EventAt(states[j].wal.places, NextPlace(states[j])) == n
  }

  /** `seen` is what it says, with indexes that never change their meaning. */
  lemma {:induction false} SeenWasRead(u: Setup, states: seq<State>, events: seq<Event>, i: nat, n: nat)
    requires Run(u, states, events) && i < |states|
    ensures n in states[i].seen <==> exists j: nat :: j < i && Reads(u, states, events, j, n)
  {
    if i > 0 {
      SeenWasRead(u, states, events, i - 1, n);
      assert StepAt(u, states, events, i - 1);
      if n in states[i].seen && n !in states[i - 1].seen {
        assert Reads(u, states, events, i - 1, n);
      }
    }
  }

  /** The well-formed events that some ingest has read before step `i`. */
  ghost function WellFormedRead(u: Setup, states: seq<State>, events: seq<Event>, i: nat): set<nat>
    requires Run(u, states, events) && i < |states|
  {
    set n: nat | n < |states[i].wal.history| && IndexValid(states[i].wal, n) && RowAt(u, states[i].wal, n).Some?
                 && exists j: nat :: j < i && Reads(u, states, events, j, n)
  }

  /** The row has what the event's line says, in that file and under that number. */
  ghost predicate SaysEvent(u: Setup, w: B.State, n: nat, row: I.Row)
    requires IndexValid(w, n)
  {
    var line := u.env.strip(u.text(w.history[n]));
    && line != "" && u.env.loads(line).Some? && u.env.loads(line).value.Object?
    && var file, l, m := w.places[n].0, w.places[n].1, u.env.loads(line).value.members;
       && !M.Fails(u.env, u.spec, m)
       && M.RowSays(u.env, I.Item(u.spec, u.dir + "/" + N.Name(file), l, u.text(w.history[n])), m, row)
  }

  lemma RowSaysEvent(u: Setup, w: B.State, n: nat)
    requires IndexValid(w, n) && RowAt(u, w, n).Some?
    ensures SaysEvent(u, w, n, RowAt(u, w, n).value)
  {
    M.LineMeans(u.env, None, ItemAt(u, w.history[n], w.places[n]));
  }

  /** An event is good exactly when its line is a record that can be stored. */
  lemma WellFormedIff(u: Setup, w: B.State, n: nat)
    requires IndexValid(w, n)
    ensures RowAt(u, w, n).Some? <==>
            var line := u.env.strip(u.text(w.history[n]));
            && line != "" && u.env.loads(line).Some? && u.env.loads(line).value.Object?
            && !M.Fails(u.env, u.spec, u.env.loads(line).value.members)
  {
    M.LineMeans(u.env, None, ItemAt(u, w.history[n], w.places[n]));
  }

  /** The store has one row for each well-formed event that an ingest has read so far, with what its line says,
      and no other row. */
  ghost predicate HoldsEachOnce(u: Setup, states: seq<State>, events: seq<Event>, i: nat)
    requires Run(u, states, events) && i < |states|
  {
    var w, table, good := states[i].wal, states[i].table, WellFormedRead(u, states, events, i);
    && (forall n <- good ::
          RowAt(u, w, n).value.hash in table && table[RowAt(u, w, n).value.hash] == RowAt(u, w, n).value)
    && (forall n <- good :: SaysEvent(u, w, n, RowAt(u, w, n).value))
    && (forall h <- table :: exists n :: n in good && IsRowOf(u, w, table, h, n))
    && |table| == |good|
  }

  /** Exactly once, at every moment of every run up to file number 999999. */
  lemma StoreHoldsEachEventOnce(u: Setup, states: seq<State>, events: seq<Event>, i: nat)
    requires SetupValid(u) && Run(u, states, events) && i < |states| && UpTo(states, i, B.LAST_NUMBER)
    ensures HoldsEachOnce(u, states, events, i)
  {
    RunKeepsValid(u, states, events, i);
    var w, table, good := states[i].wal, states[i].table, WellFormedRead(u, states, events, i);
    forall n ensures n in good <==> n in states[i].seen && RowAt(u, w, n).Some? {
      SeenWasRead(u, states, events, i, n);
    }
    forall m, n | m in good && n in good && RowAt(u, w, m).value.hash == RowAt(u, w, n).value.hash ensures m == n {
      HashTellsEvent(u, w, m, n);
    }
    forall n | n in good ensures SaysEvent(u, w, n, RowAt(u, w, n).value) {
      RowSaysEvent(u, w, n);
    }
    forall h | h in table ensures exists n :: n in good && IsRowOf(u, w, table, h, n) {
      var n :| n in states[i].seen && IsRowOf(u, w, table, h, n);
      assert n in good;
    }
    SameSize(good, table.Keys, n => if IndexValid(w, n) && RowAt(u, w, n).Some? then RowAt(u, w, n).value.hash else "");
  }

  lemma {:induction false} SameSize<A(!new), C(!new)>(a: set<A>, b: set<C>, f: A -> C)
    requires forall x <- a :: f(x) in b
    requires forall y <- b :: exists x :: x in a && f(x) == y
    requires forall x, y :: x in a && y in a && f(x) == f(y) ==> x == y
    ensures |a| == |b|
    decreases |a|
  {
    if x :| x in a {
      forall y | y in b - {f(x)} ensures exists z :: z in a - {x} && f(z) == y {
        var z :| z in a && f(z) == y;
        assert z in a - {x};
      }
      SameSize(a - {x}, b - {f(x)}, f);
    } else {
      assert b == {};
    }
  }

  /** One ingest is under way in all states from `t` to `i`. */
  predicate OneIngest(states: seq<State>, t: nat, i: nat)
    requires t <= i < |states|
  {
    forall m :: t <= m <= i ==> states[m].ingest.Some?
  }

  /** What an ingest reads was on disk at some moment of that ingest. */
  lemma ReadWasOnDisk(u: Setup, states: seq<State>, events: seq<Event>, i: nat, n: nat) returns (t: nat)
    requires SetupValid(u) && Run(u, states, events) && Reads(u, states, events, i, n) && UpTo(states, i, B.LAST_NUMBER)
    ensures t <= i && OneIngest(states, t, i) && n in OnDisk(states[t].wal)
  {
    RunKeepsValid(u, states, events, i);
    t := PresentWasOnDisk(u, states, events, i, n);
  }

  lemma {:induction false} PresentWasOnDisk(u: Setup, states: seq<State>, events: seq<Event>, i: nat, n: nat)
    returns (t: nat)
    requires Run(u, states, events) && i < |states| && states[i].ingest.Some? && n in states[i].ingest.value.present
    ensures t <= i && OneIngest(states, t, i) && n in OnDisk(states[t].wal)
  {
    t := i;
    if n !in OnDisk(states[i].wal) {
      assert i > 0;
      assert StepAt(u, states, events, i - 1);
      t := PresentWasOnDisk(u, states, events, i - 1, n);
    }
  }

  /** An ingest that finishes has read everything that was on disk when it began. */
  lemma FinishedIngestReadAll(u: Setup, states: seq<State>, events: seq<Event>, b: nat, i: nat)
    requires SetupValid(u) && Run(u, states, events) && b < i < |events| && UpTo(states, i, B.LAST_NUMBER)
    requires events[b].Begin? && events[i].Finish? && OneIngest(states, b + 1, i)
    ensures OnDisk(states[b].wal) <= states[i + 1].seen
  {
    RunKeepsValid(u, states, events, i);
    DueStays(u, states, events, b, i);
    assert StepAt(u, states, events, i);
    FinishedReadAll(states[i].wal, states[i].ingest.value, states[i].seen);
  }

  lemma {:induction false} DueStays(u: Setup, states: seq<State>, events: seq<Event>, b: nat, i: nat)
    requires Run(u, states, events) && b < i < |states| && events[b].Begin? && OneIngest(states, b + 1, i)
    ensures states[i].ingest.value.due == OnDisk(states[b].wal)
  {
    assert StepAt(u, states, events, i - 1);
    if b + 1 < i {
      DueStays(u, states, events, b, i - 1);
    }
  }

  /** An event counts as on disk when its line is there. */
  lemma OnDiskIsThere(w: B.State, n: nat)
    requires B.PlacesValid(w) && n in OnDisk(w)
    ensures w.places[n].0 in w.files && 1 <= w.places[n].1 <= |w.files[w.places[n].0]|
    ensures w.files[w.places[n].0][w.places[n].1 - 1] == w.history[n]
  {
    var file, l := w.places[n].0, w.places[n].1 - 1;
    assert B.LinesPlaced(file, w.files[file], w.history, w.places);
    assert B.Placed(w.files[file][l], (file, l + 1), w.history, w.places);
    var m :| 0 <= m < |w.history| && w.history[m] == w.files[file][l] && w.places[m] == (file, l + 1);
    PlaceTellsEvent(w.places, m, n);
  }

  // ----- past 999999 --------------------------------------------------------------------------------------

  lemma RunExtends(u: Setup, states: seq<State>, events: seq<Event>, e: Event)
    requires Run(u, states, events)
    requires var s := states[|events|]; Enabled(s, e) && |s.wal.history| == |s.wal.places|
    ensures Run(u, states + [Step(u, states[|events|], e)], events + [e])
  {
    var states', events' := states + [Step(u, states[|events|], e)], events + [e];
    forall i | 0 <= i < |events'| ensures StepAt(u, states', events', i) {
      if i < |events| {
        assert StepAt(u, states, events, i);
      }
    }
  }

  /** A run so far in which the writer has not gone past `last`. */
  ghost predicate RunsTo(u: Setup, states: seq<State>, events: seq<Event>, last: nat, s: State) {
    Run(u, states, events) && UpTo(states, |states|, last) && states[|events|] == s
  }

  lemma OneMore(u: Setup, states: seq<State>, events: seq<Event>, last: nat, s: State, e: Event)
    returns (states': seq<State>, events': seq<Event>)
    requires RunsTo(u, states, events, last, s) && Enabled(s, e) && |s.wal.history| == |s.wal.places|
    requires Step(u, s, e).wal.index <= last
    ensures RunsTo(u, states', events', last, Step(u, s, e))
  {
    RunExtends(u, states, events, e);
    states', events' := states + [Step(u, s, e)], events + [e];
  }

  /** A run of the log is a run without ingests. */
  lemma {:induction false} LogRun(u: Setup, logs: seq<B.State>, writes: seq<W.Event>, last: nat, k: nat)
    returns (states: seq<State>, events: seq<Event>)
    requires B.Run(logs, writes) && k < |logs| && forall j :: 0 <= j <= k ==> logs[j].index <= last
    ensures RunsTo(u, states, events, last, State(logs[k], map[], None, {}))
    ensures |logs[k].history| == |logs[k].places|
  {
    if k == 0 {
      states, events := [State(logs[0], map[], None, {})], [];
    } else {
      states, events := LogRun(u, logs, writes, last, k - 1);
      assert B.StepAt(logs, writes, k - 1);
      WritingExtends(logs[k - 1], writes[k - 1]);
      states, events := OneMore(u, states, events, last, State(logs[k - 1], map[], None, {}), Write(writes[k - 1]));
    }
  }

  function AfterFirstLine(u: Setup, s: State, file: nat): State
    requires (file, 1) in s.wal.places && |s.wal.history| == |s.wal.places|
  {
    var n := EventAt(s.wal.places, (file, 1));
    s.(table := Inserted(s.table, VerdictOn(u, s.wal, n)), seen := s.seen + {n})
  }

  /** An ingest that breaks off after the first line of one file. */
  lemma ReadFirstLine(u: Setup, states: seq<State>, events: seq<Event>, last: nat, s: State, listing: seq<nat>)
    returns (states': seq<State>, events': seq<Event>)
    requires RunsTo(u, states, events, last, s) && s.ingest.None? && |s.wal.history| == |s.wal.places|
    requires (forall n: nat :: n in listing <==> n in s.wal.files) && listing != [] && (listing[0], 1) in s.wal.places
    ensures RunsTo(u, states', events', last, AfterFirstLine(u, s, listing[0]))
  {
    assert s.wal.index <= last;
    assert listing[0] in listing;
    var disk := OnDisk(s.wal);
    states', events' := OneMore(u, states, events, last, s, Begin(listing));
    var s1 := s.(ingest := Some(Reading(listing, 0, None, disk, disk)));
    states', events' := OneMore(u, states', events', last, s1, OpenFile);
    var s2 := s.(ingest := Some(Reading(listing, 0, Some(0), disk, disk)));
    states', events' := OneMore(u, states', events', last, s2, ReadLine);
    var s3 := AfterFirstLine(u, s, listing[0]).(ingest := Some(Reading(listing, 0, Some(1), disk, disk)));
    states', events' := OneMore(u, states', events', last, s3, Abort);
  }

  const PAST: nat := B.LAST_NUMBER + 1
  const AGAIN := W.Record(PAST, "", 1)

  /** The writer fills files up to 1000000, and an ingest reads the event there. */
  lemma EventIsRead(u: Setup) returns (states: seq<State>, events: seq<Event>)
    requires I.Classify(u.env, None, ItemAt(u, AGAIN, (PAST, 1))).Candidate?
    ensures var row := I.Classify(u.env, None, ItemAt(u, AGAIN, (PAST, 1))).row;
            RunsTo(u, states, events, PAST, State(B.Filled(PAST), map[row.hash := row], None, {PAST - 1}))
    ensures B.Filled(PAST).history[PAST - 1] == AGAIN && B.Filled(PAST).places[PAST - 1] == (PAST, 1)
  {
    var logs, writes := B.Fill(PAST);
    states, events := LogRun(u, logs, writes, PAST, PAST);
    var full := B.Filled(PAST);
    assert full.places[PAST - 1] == (PAST, 1) && full.history[PAST - 1] == AGAIN;
    var s := State(full, map[], None, {});
    states, events := ReadFirstLine(u, states, events, PAST, s, [PAST, B.LAST_NUMBER]);
  }

  /** Then the writer is reopened and appends the same fields again. */
  lemma SameEventAgain(u: Setup) returns (states: seq<State>, events: seq<Event>, s: State)
    requires I.Classify(u.env, None, ItemAt(u, AGAIN, (PAST, 1))).Candidate?
    ensures RunsTo(u, states, events, PAST, s) && |s.wal.history| == |s.wal.places| == PAST + 1
    ensures s.wal.history[PAST - 1] == s.wal.history[PAST] == AGAIN
    ensures s.wal.places[PAST - 1] == s.wal.places[PAST] == (PAST, 1)
    ensures s.ingest.None? && s.wal.files.Keys == {B.LAST_NUMBER, PAST} && s.seen == {PAST - 1}
    ensures var row := I.Classify(u.env, None, ItemAt(u, AGAIN, (PAST, 1))).row; s.table == map[row.hash := row]
  {
    states, events := EventIsRead(u);
    s := states[|events|];
    B.NewestFileIsDeleted();
    states, events := OneMore(u, states, events, PAST, s, Write(W.Reopen(W.TINY)));
    s := Step(u, s, Write(W.Reopen(W.TINY)));
    B.PlaceAfterReopening("");
    states, events := OneMore(u, states, events, PAST, s, Write(W.Append("", 1)));
    s := Step(u, s, Write(W.Append("", 1)));
  }

  /** Then the second of the two events is lost: both were read, and there is one row. */
  lemma EventIsLost(u: Setup) returns (states: seq<State>, events: seq<Event>)
    requires I.Classify(u.env, None, ItemAt(u, AGAIN, (PAST, 1))).Candidate?
    ensures Run(u, states, events) && UpTo(states, |states|, PAST) && !HoldsEachOnce(u, states, events, |events|)
  {
    var s: State;
    states, events, s := SameEventAgain(u);
    states, events := ReadFirstLine(u, states, events, PAST, s, [PAST, B.LAST_NUMBER]);
    var w, i := s.wal, |events|;
    assert EventAt(w.places, (PAST, 1)) == PAST;
    assert RowAt(u, w, PAST - 1).Some? && RowAt(u, w, PAST).Some?;
    assert states[i].seen == {PAST - 1, PAST} && |states[i].table| == 1;
    SeenWasRead(u, states, events, i, PAST - 1);
    SeenWasRead(u, states, events, i, PAST);
    TwoAreMore(WellFormedRead(u, states, events, i), PAST - 1, PAST);
  }

  lemma TwoAreMore(s: set<nat>, a: nat, b: nat)
    requires a in s && b in s && a != b
    ensures |s| >= 2
  {
    assert |s - {a}| >= 1 by {
      assert b in s - {a};
    }
  }

  /** With a line that parses, all runs up to a file number hold each event once exactly when that number is
      at most 999999. */
  lemma HoldsEachOnceIff(u: Setup, last: nat)
    requires SetupValid(u) && I.Classify(u.env, None, ItemAt(u, AGAIN, (PAST, 1))).Candidate?
    ensures (forall states, events, i :: Run(u, states, events) && 0 <= i < |states| && UpTo(states, |states|, last) ==>
               HoldsEachOnce(u, states, events, i)) <==> last <= B.LAST_NUMBER
  {
    if last <= B.LAST_NUMBER {
      forall states, events, i | Run(u, states, events) && 0 <= i < |states| && UpTo(states, |states|, last)
        ensures HoldsEachOnce(u, states, events, i)
      {
        StoreHoldsEachEventOnce(u, states, events, i);
      }
    } else {
      var states, events := EventIsLost(u);
      assert UpTo(states, |states|, last);
    }
  }
}
