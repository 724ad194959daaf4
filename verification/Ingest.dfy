/** The ingester: reading the lines of WAL files into the event table of the index store. */
module Ingest {
  import opened Options
  import opened Sequences
  import opened WalNames

  const NUL := '\0'
  const SCHEMA_VERSION := 1

  /** Decoded JSON. `Other` is a number, a boolean or an array. */
  datatype Json = Null | Text(text: string) | Object(members: map<string, Json>) | Other(source: string)

  /** What the handler calls: blank stripping, `json.loads`, `json.dumps` with sorted keys and as it is, `str`,
      `int`, `datetime.fromisoformat`, and SHA-256. `None` stands for an exception. */
  datatype Env = Env(strip: string -> string, loads: string -> Option<Json>,
                     dumps: Json -> string, dumpsUnsorted: Json -> string, show: Json -> string,
                     toInt: Json -> Option<int>, parseIso: string -> Option<int>, hash: string -> string)

  /** The serialiser escapes control characters, and the hash does not collide. */
  ghost predicate EnvValid(env: Env) {
    && (forall j :: NUL !in env.dumps(j))
    && (forall a, b :: env.hash(a) == env.hash(b) ==> a == b)
  }

  datatype Spec = Spec(id: string, format: string, mapping: map<string, string>)

  datatype Source = Source(spec: Spec, exclude: string -> bool, location: Location)

  datatype File = File(path: string, lines: seq<string>)

  datatype Location = OneFile(file: File) | Directory(listing: seq<File>) | Missing

  /** One line of one file of one source. */
  datatype Item = Item(spec: Spec, path: string, lineNo: nat, line: string)

  /** A row of `wal_events` but for the time of ingestion. */
  datatype Row = Row(hash: string, sourceId: string, sourceFormat: string, schemaVersion: int, ts: Option<int>,
                     eventType: string, runId: Option<string>, actionName: Option<string>,
                     projectPath: Option<string>, trigger: Option<string>, devEnv: Option<string>,
                     writerId: Option<string>, payload: string, path: string, lineNo: nat)

  type Table = map<string, Row>

  // ----- the key --------------------------------------------------------------------------------

  function Decimal(n: nat): string {
    Padded(n, 1)
  }

  function Key(source: string, path: string, lineNo: nat, raw: string): string {
    source + [NUL] + path + [NUL] + Decimal(lineNo) + [NUL] + raw
  }

  lemma SplitAtLastNul(a: string, b: string, x: string, y: string)
    requires NUL !in b && NUL !in y && a + [NUL] + b == x + [NUL] + y
    ensures a == x && b == y
  {
    var s := a + [NUL] + b;
    assert s[|a|] == NUL && s[|x|] == NUL;
    assert forall i :: |a| < i < |s| ==> s[i] == b[i - |a| - 1];
    assert forall i :: |x| < i < |s| ==> s[i] == y[i - |x| - 1];
    assert s[..|a|] == a && s[|a| + 1..] == b;
    assert s[..|x|] == x && s[|x| + 1..] == y;
  }

  /** Whatever the source id is made of, a key tells the source, the file, the line and the record. */
  lemma KeyInjective(source: string, path: string, lineNo: nat, raw: string,
                     source': string, path': string, lineNo': nat, raw': string)
    requires NUL !in path && NUL !in path' && NUL !in raw && NUL !in raw'
    requires Key(source, path, lineNo, raw) == Key(source', path', lineNo', raw')
    ensures source == source' && path == path' && lineNo == lineNo' && raw == raw'
  {
    var rest, rest' := source + [NUL] + path, source' + [NUL] + path';
    SplitAtLastNul(rest + [NUL] + Decimal(lineNo), raw, rest' + [NUL] + Decimal(lineNo'), raw');
    SplitAtLastNul(rest, Decimal(lineNo), rest', Decimal(lineNo'));
    SplitAtLastNul(source, path, source', path');
    PaddedReadsBack(lineNo, 1);
    PaddedReadsBack(lineNo', 1);
  }

  /** Two different sources and paths with one key: a NUL in a path would break it. */
  lemma NulInPathCollides(lineNo: nat, raw: string)
    ensures Key("a", "b\0c", lineNo, raw) == Key("a\0b", "c", lineNo, raw)
  {
    assert "a" + [NUL] + "b\0c" == "a\0b" + [NUL] + "c";
  }

  // ----- normalising a record ---------------------------------------------------------------------

  function Get(members: map<string, Json>, name: string): Json {
    if name in members then members[name] else Null
  }

  function MappedField(env: Env, spec: Spec, canonical: string, default: string): string {
    if canonical in spec.mapping && env.strip(spec.mapping[canonical]) != "" then spec.mapping[canonical]
    else default
  }

  function CoerceStr(env: Env, j: Json): Option<string> {
    match j
    case Null => None
    case Text(s) => Some(s)
    case _ => Some(env.show(j))
  }

  /** No value, a value, or an exception. */
  datatype Parsed = NoTime | Time(t: int) | BadTime

  function ParseTs(env: Env, j: Json): Parsed {
    if j.Text? && env.strip(j.text) != "" then
      match env.parseIso(j.text) case Some(t) => Time(t) case None => BadTime
    else NoTime
  }

  function HashOf(env: Env, item: Item, record: Json): string {
    env.hash(Key(item.spec.id, item.path, item.lineNo, env.dumps(record)))
  }

  /** `_normalize_record`; `None` where it raises. */
  function Normalize(env: Env, item: Item, record: Json): Option<Row> {
    if !record.Object? then None
    else
      var m := record.members;
      var eventType := Get(m, MappedField(env, item.spec, "event_type", "event_type"));
      var ts := ParseTs(env, Get(m, MappedField(env, item.spec, "ts", "ts")));
      var payload := MappedField(env, item.spec, "payload", "payload");
      var version := if "schema_version" in m then env.toInt(m["schema_version"]) else Some(SCHEMA_VERSION);
      if !eventType.Text? || env.strip(eventType.text) == "" || ts.BadTime? || version.None? then None
      else Some(Row(
        HashOf(env, item, record), item.spec.id, item.spec.format, version.value,
        if ts.Time? then Some(ts.t) else None, eventType.text,
        CoerceStr(env, Get(m, MappedField(env, item.spec, "run_id", "wal_run_id"))),
        CoerceStr(env, Get(m, MappedField(env, item.spec, "action_name", "action_name"))),
        CoerceStr(env, Get(m, "project_path")), CoerceStr(env, Get(m, "trigger")),
        CoerceStr(env, Get(m, "dev_env")), CoerceStr(env, Get(m, "writer_id")),
        env.dumpsUnsorted(if payload in m then m[payload] else Object(map[])), item.path, item.lineNo))
  }

  /** What becomes of a line, apart from what is in the table already. */
  datatype Verdict = Blank | Unparsed | TooOld | Candidate(row: Row)

  function Classify(env: Env, since: Option<int>, item: Item): (v: Verdict)
    ensures v.Candidate? ==>
              && v.row.sourceId == item.spec.id && v.row.path == item.path && v.row.lineNo == item.lineNo
              && exists record :: v.row.hash == HashOf(env, item, record)
  {
    var line := env.strip(item.line);
    if line == "" then Blank
    else
      match env.loads(line)
      case None => Unparsed
      case Some(record) =>
        match Normalize(env, item, record)
        case None => Unparsed
        case Some(row) => if since.Some? && row.ts.Some? && row.ts.value < since.value then TooOld else Candidate(row)
  }

  // ----- the counters and the table over a sequence of lines ------------------------------------------

  datatype Counts = Counts(read: nat, inserted: nat, duplicate: nat, failed: nat)

  const ZERO := Counts(0, 0, 0, 0)

  function Plus(a: Counts, b: Counts): Counts {
    Counts(a.read + b.read, a.inserted + b.inserted, a.duplicate + b.duplicate, a.failed + b.failed)
  }

  /** Everything the loops over files and lines change. */
  datatype Progress = Progress(table: Table, counts: Counts, first: Option<int>, last: Option<int>)

  function Earlier(first: Option<int>, ts: Option<int>): Option<int> {
    if ts.Some? && (first.None? || ts.value < first.value) then ts else first
  }

  function Later(last: Option<int>, ts: Option<int>): Option<int> {
    if ts.Some? && (last.None? || ts.value > last.value) then ts else last
  }

  function AfterVerdict(p: Progress, v: Verdict): Progress {
    match v
    case Blank => p
    case Unparsed => p.(counts := Plus(p.counts, Counts(1, 0, 0, 1)))
    case TooOld => p.(counts := Plus(p.counts, Counts(1, 0, 0, 0)))
    case Candidate(row) =>
      if row.hash in p.table then p.(counts := Plus(p.counts, Counts(1, 0, 1, 0)))
      else Progress(p.table[row.hash := row], Plus(p.counts, Counts(1, 1, 0, 0)),
                    Earlier(p.first, row.ts), Later(p.last, row.ts))
  }

  function After(p: Progress, vs: seq<Verdict>): Progress {
    if vs == [] then p else AfterVerdict(After(p, vs[..|vs| - 1]), vs[|vs| - 1])
  }

  function Verdicts(env: Env, since: Option<int>, items: seq<Item>): (vs: seq<Verdict>)
    ensures |vs| == |items| && forall i :: 0 <= i < |vs| ==> vs[i] == Classify(env, since, items[i])
  {
    seq(|items|, i requires 0 <= i < |items| => Classify(env, since, items[i]))
  }

  lemma {:induction false} AfterMore(p: Progress, a: seq<Verdict>, b: seq<Verdict>)
    ensures After(p, a + b) == After(After(p, a), b)
  {
    if b == [] {
      assert a + b == a;
    } else {
      AfterMore(p, a, b[..|b| - 1]);
      assert (a + b)[..|a + b| - 1] == a + b[..|b| - 1];
    }
  }

  function Shifted(p: Progress, base: Counts): Progress {
    p.(counts := Plus(base, p.counts))
  }

  lemma VerdictShifts(p: Progress, base: Counts, v: Verdict)
    ensures AfterVerdict(Shifted(p, base), v) == Shifted(AfterVerdict(p, v), base)
  {
  }

  /** Counting from anywhere adds the same amount. */
  lemma {:induction false} CountsAdd(p: Progress, base: Counts, vs: seq<Verdict>)
    ensures After(Shifted(p, base), vs) == Shifted(After(p, vs), base)
  {
    if vs != [] {
      CountsAdd(p, base, vs[..|vs| - 1]);
      VerdictShifts(After(p, vs[..|vs| - 1]), base, vs[|vs| - 1]);
    }
  }

  // ----- what the counters and the table mean -----------------------------------------------------------

  function TooOldIn(vs: seq<Verdict>): nat {
    if vs == [] then 0 else TooOldIn(vs[..|vs| - 1]) + (if vs[|vs| - 1].TooOld? then 1 else 0)
  }

  /** Every line read is inserted, a duplicate, failed, or filtered by time. */
  lemma {:induction false} CountsBalance(p: Progress, vs: seq<Verdict>)
    requires p.counts == ZERO
    ensures var c := After(p, vs).counts; c.read == c.inserted + c.duplicate + c.failed + TooOldIn(vs)
  {
    if vs != [] {
      CountsBalance(p, vs[..|vs| - 1]);
    }
  }

  /** No row is changed or dropped. */
  lemma {:induction false} RowsStay(p: Progress, vs: seq<Verdict>)
    ensures forall h <- p.table :: h in After(p, vs).table && After(p, vs).table[h] == p.table[h]
  {
    if vs != [] {
      RowsStay(p, vs[..|vs| - 1]);
    }
  }

  /** A row that was not there belongs to one of the lines. */
  lemma {:induction false} NewRowsAreCandidates(p: Progress, vs: seq<Verdict>, h: string)
    requires h in After(p, vs).table && h !in p.table
    ensures After(p, vs).table[h].hash == h && Candidate(After(p, vs).table[h]) in vs
  {
    if vs != [] && h in After(p, vs[..|vs| - 1]).table {
      NewRowsAreCandidates(p, vs[..|vs| - 1], h);
    }
  }

  /** Every line that parses and is not too old has its row. */
  lemma {:induction false} CandidatesHaveRows(p: Progress, vs: seq<Verdict>, row: Row)
    requires Candidate(row) in vs
    ensures row.hash in After(p, vs).table
  {
    if Candidate(row) in vs[..|vs| - 1] {
      CandidatesHaveRows(p, vs[..|vs| - 1], row);
    }
  }

  /** The number of rows grows by the number reported as inserted. */
  lemma {:induction false} InsertedIsGrowth(p: Progress, vs: seq<Verdict>)
    ensures |After(p, vs).table| - |p.table| == After(p, vs).counts.inserted - p.counts.inserted
  {
    if vs != [] {
      InsertedIsGrowth(p, vs[..|vs| - 1]);
    }
  }

  /** When the table has all the rows already, nothing is inserted. */
  lemma {:induction false} KnownLinesInsertNothing(p: Progress, vs: seq<Verdict>)
    requires forall v <- vs :: v.Candidate? ==> v.row.hash in p.table
    ensures After(p, vs).table == p.table && After(p, vs).counts.inserted == p.counts.inserted
    ensures After(p, vs).first == p.first && After(p, vs).last == p.last
  {
    if vs != [] {
      KnownLinesInsertNothing(p, vs[..|vs| - 1]);
      assert vs[|vs| - 1] in vs;
    }
  }

  /** `first` and `last` are the smallest and the largest time of a row that was added. */
  lemma {:induction false} TimesSpanNewRows(p: Progress, vs: seq<Verdict>)
    requires p.first == None && p.last == None
    ensures var p' := After(p, vs);
            && p'.first.Some? == p'.last.Some?
            && (forall h | h in p'.table && h !in p.table && p'.table[h].ts.Some? ::
                  p'.first.Some? && p'.first.value <= p'.table[h].ts.value <= p'.last.value)
            && (p'.first.Some? ==> exists h :: h in p'.table && h !in p.table && p'.table[h].ts == p'.first)
            && (p'.last.Some? ==> exists h :: h in p'.table && h !in p.table && p'.table[h].ts == p'.last)
  {
    if vs != [] {
      TimesSpanNewRows(p, vs[..|vs| - 1]);
      RowsStay(p, vs[..|vs| - 1]);
      OneMoreSpans(p.table, After(p, vs[..|vs| - 1]), vs[|vs| - 1]);
    }
  }

  predicate Spans(table: Table, p: Progress) {
    && p.first.Some? == p.last.Some?
    && (forall h | h in p.table && h !in table && p.table[h].ts.Some? ::
          p.first.Some? && p.first.value <= p.table[h].ts.value <= p.last.value)
    && (p.first.Some? ==> exists h :: h in p.table && h !in table && p.table[h].ts == p.first)
    && (p.last.Some? ==> exists h :: h in p.table && h !in table && p.table[h].ts == p.last)
  }

  lemma OneMoreSpans(table: Table, p: Progress, v: Verdict)
    requires Spans(table, p) && forall h <- table :: h in p.table
    ensures Spans(table, AfterVerdict(p, v))
  {
    var p' := AfterVerdict(p, v);
    if v.Candidate? && v.row.hash !in p.table {
      var h := v.row.hash;
      assert h in p'.table && h !in table && p'.table[h].ts == v.row.ts;
      if p.first.Some? {
        var f :| f in p.table && f !in table && p.table[f].ts == p.first;
        var l :| l in p.table && l !in table && p.table[l].ts == p.last;
        assert p'.table[f].ts == p.first && p'.table[l].ts == p.last;
      }
    }
  }

  // ----- files, sources and whole runs --------------------------------------------------------------------

  function LinesOf(spec: Spec, file: File): seq<Item> {
    seq(|file.lines|, n requires 0 <= n < |file.lines| => Item(spec, file.path, n + 1, file.lines[n]))
  }

  function LinesByFile(spec: Spec, files: seq<File>): seq<seq<Item>> {
    seq(|files|, n requires 0 <= n < |files| => LinesOf(spec, files[n]))
  }

  function ItemsOf(spec: Spec, files: seq<File>): seq<Item> {
    Flatten(LinesByFile(spec, files))
  }

  function Kept(exclude: string -> bool, files: seq<File>): seq<File> {
    if files == [] then []
    else Kept(exclude, files[..|files| - 1]) + (if exclude(files[|files| - 1].path) then [] else [files[|files| - 1]])
  }

  /** `_discover_files` for a location that exists. */
  function Discovered(source: Source): seq<File> {
    match source.location
    case OneFile(f) => Kept(source.exclude, [f])
    case Directory(listing) => Kept(source.exclude, listing)
    case Missing => []
  }

  function ItemsBySource(sources: seq<Source>): seq<seq<Item>> {
    seq(|sources|, k requires 0 <= k < |sources| => ItemsOf(sources[k].spec, Discovered(sources[k])))
  }

  function AllItems(sources: seq<Source>): seq<Item> {
    Flatten(ItemsBySource(sources))
  }

  lemma MoreItems(sources: seq<Source>, k: nat)
    requires k < |sources|
    ensures AllItems(sources[..k + 1]) == AllItems(sources[..k]) + ItemsOf(sources[k].spec, Discovered(sources[k]))
  {
    FlattenMore(ItemsBySource(sources), k);
    PartsSplit(sources, k);
    PartsSplit(sources, k + 1);
  }

  function Start(table: Table): Progress {
    Progress(table, ZERO, None, None)
  }

  /** The outcome of reading all the sources one after the other into `table`. */
  function Whole(env: Env, since: Option<int>, table: Table, sources: seq<Source>): Progress {
    After(Start(table), Verdicts(env, since, AllItems(sources)))
  }

  /** What source `k` alone adds when it is its turn. */
  function Part(env: Env, since: Option<int>, table: Table, sources: seq<Source>, k: nat): Progress
    requires k < |sources|
  {
    After(Whole(env, since, table, sources[..k]).(counts := ZERO),
          Verdicts(env, since, ItemsOf(sources[k].spec, Discovered(sources[k]))))
  }

  lemma VerdictsConcat(env: Env, since: Option<int>, a: seq<Item>, b: seq<Item>)
    ensures Verdicts(env, since, a + b) == Verdicts(env, since, a) + Verdicts(env, since, b)
  {
  }

  /** What comes next is the same whether it is counted apart or not. */
  lemma NextIsShifted(p: Progress, vs: seq<Verdict>)
    ensures After(p, vs) == Shifted(After(p.(counts := ZERO), vs), p.counts)
  {
    assert p == Shifted(p.(counts := ZERO), p.counts);
    CountsAdd(p.(counts := ZERO), p.counts, vs);
  }

  lemma WholeByParts(env: Env, since: Option<int>, table: Table, sources: seq<Source>, k: nat)
    requires k < |sources|
    ensures Whole(env, since, table, sources[..k + 1]) ==
            Shifted(Part(env, since, table, sources, k), Whole(env, since, table, sources[..k]).counts)
  {
    var before, items := AllItems(sources[..k]), ItemsOf(sources[k].spec, Discovered(sources[k]));
    MoreItems(sources, k);
    VerdictsConcat(env, since, before, items);
    AfterMore(Start(table), Verdicts(env, since, before), Verdicts(env, since, items));
    NextIsShifted(After(Start(table), Verdicts(env, since, before)), Verdicts(env, since, items));
  }

  function Sum(counts: seq<Counts>): Counts {
    if counts == [] then ZERO else Plus(Sum(counts[..|counts| - 1]), counts[|counts| - 1])
  }

  lemma {:induction false} RunningTotals(parts: seq<Counts>, totals: seq<Counts>, n: nat)
    requires n <= |parts| && |totals| == |parts| + 1 && totals[0] == ZERO
    requires forall k :: 0 <= k < |parts| ==> totals[k + 1] == Plus(totals[k], parts[k])
    ensures totals[n] == Sum(parts[..n])
  {
    if n > 0 {
      RunningTotals(parts, totals, n - 1);
      assert parts[..n][..n - 1] == parts[..n - 1];
    }
  }

  function PartCounts(env: Env, since: Option<int>, table: Table, sources: seq<Source>): seq<Counts> {
    seq(|sources|, k requires 0 <= k < |sources| => Part(env, since, table, sources, k).counts)
  }

  lemma NoSources(env: Env, since: Option<int>, table: Table, sources: seq<Source>)
    ensures Whole(env, since, table, sources[..0]) == Start(table)
  {
  }

  lemma CountsByParts(env: Env, since: Option<int>, table: Table, sources: seq<Source>, k: nat)
    requires k < |sources|
    ensures Whole(env, since, table, sources[..k + 1]).counts ==
            Plus(Whole(env, since, table, sources[..k]).counts, Part(env, since, table, sources, k).counts)
  {
    WholeByParts(env, since, table, sources, k);
  }

  /** The totals of a run are the sums over its sources. */
  lemma TotalsAreSums(env: Env, since: Option<int>, table: Table, sources: seq<Source>)
    ensures Whole(env, since, table, sources).counts == Sum(PartCounts(env, since, table, sources))
  {
    var parts := PartCounts(env, since, table, sources);
    var totals := seq(|sources| + 1, k requires 0 <= k <= |sources| => Whole(env, since, table, sources[..k]).counts);
    NoSources(env, since, table, sources);
    forall k | 0 <= k < |sources| ensures totals[k + 1] == Plus(totals[k], parts[k]) {
      CountsByParts(env, since, table, sources, k);
    }
    RunningTotals(parts, totals, |sources|);
    assert sources[..|sources|] == sources && parts[..|sources|] == parts;
  }

  /** Per source: read = inserted + duplicate + failed + filtered by time. */
  lemma SourceBalances(env: Env, since: Option<int>, table: Table, sources: seq<Source>, k: nat)
    requires k < |sources|
    ensures var c := Part(env, since, table, sources, k).counts;
            c.read == c.inserted + c.duplicate + c.failed +
                      TooOldIn(Verdicts(env, since, ItemsOf(sources[k].spec, Discovered(sources[k]))))
  {
    CountsBalance(Whole(env, since, table, sources[..k]).(counts := ZERO),
                  Verdicts(env, since, ItemsOf(sources[k].spec, Discovered(sources[k]))));
  }

  predicate NoLooser(since: Option<int>, since': Option<int>) {
    since == None || (since'.Some? && since.value <= since'.value)
  }

  lemma StricterKeepsCandidates(env: Env, since: Option<int>, since': Option<int>, items: seq<Item>, v: Verdict)
    requires NoLooser(since, since') && v in Verdicts(env, since', items) && v.Candidate?
    ensures v in Verdicts(env, since, items)
  {
    var vs' := Verdicts(env, since', items);
    var i :| 0 <= i < |vs'| && vs'[i] == v;
    assert Verdicts(env, since, items)[i] == v;
  }

  lemma SecondReadingInsertsNothing(p: Progress, vs: seq<Verdict>, vs': seq<Verdict>)
    requires forall v <- vs' :: v.Candidate? ==> v in vs
    ensures After(Start(After(p, vs).table), vs').table == After(p, vs).table
    ensures After(Start(After(p, vs).table), vs').counts.inserted == 0
  {
    forall v | v in vs' && v.Candidate? ensures v.row.hash in After(p, vs).table {
      CandidatesHaveRows(p, vs, v.row);
    }
    KnownLinesInsertNothing(Start(After(p, vs).table), vs');
  }

  /** Reading the same files again, under the same or a stricter time limit, inserts nothing. */
  lemma ReingestInsertsNothing(env: Env, since: Option<int>, since': Option<int>, table: Table, sources: seq<Source>)
    requires NoLooser(since, since')
    ensures var t := Whole(env, since, table, sources).table;
            && Whole(env, since', t, sources).table == t
            && Whole(env, since', t, sources).counts.inserted == 0
  {
    var vs, vs' := Verdicts(env, since, AllItems(sources)), Verdicts(env, since', AllItems(sources));
    forall v | v in vs' && v.Candidate? ensures v in vs {
      StricterKeepsCandidates(env, since, since', AllItems(sources), v);
    }
    SecondReadingInsertsNothing(Start(table), vs, vs');
  }

  /** After a run that stopped at any line, whatever stopped it, a full run gives the table that one full run
      gives. */
  lemma ResumingCompletes(env: Env, since: Option<int>, table: Table, sources: seq<Source>, n: nat)
    requires n <= |AllItems(sources)|
    ensures var stopped := After(Start(table), Verdicts(env, since, AllItems(sources)[..n])).table;
            Whole(env, since, stopped, sources).table == Whole(env, since, table, sources).table
  {
    var vs := Verdicts(env, since, AllItems(sources));
    assert Verdicts(env, since, AllItems(sources)[..n]) == vs[..n] && vs == vs[..n] + vs[n..];
    var stopped := After(Start(table), vs[..n]).table;
    SecondReadingInsertsNothing(Start(table), vs[..n], vs[..n]);
    AfterMore(Start(table), vs[..n], vs[n..]);
    AfterMore(Start(stopped), vs[..n], vs[n..]);
    SameTable(After(Start(table), vs[..n]), After(Start(stopped), vs[..n]), vs[n..]);
  }

  lemma PartsSplit(sources: seq<Source>, k: nat)
    requires k <= |sources|
    ensures ItemsBySource(sources[..k]) == ItemsBySource(sources)[..k]
    ensures ItemsBySource(sources[k..]) == ItemsBySource(sources)[k..]
  {
  }

  /** The table depends on the table alone. */
  lemma {:induction false} SameTable(p: Progress, q: Progress, vs: seq<Verdict>)
    requires p.table == q.table
    ensures After(p, vs).table == After(q, vs).table
  {
    if vs != [] {
      SameTable(p, q, vs[..|vs| - 1]);
    }
  }

  // ----- a first ingest has no duplicates --------------------------------------------------------------

  function PlaceOf(item: Item): (string, string, nat) {
    (item.spec.id, item.path, item.lineNo)
  }

  predicate DistinctPlaces(items: seq<Item>) {
    forall i, j :: 0 <= i < j < |items| ==> PlaceOf(items[i]) != PlaceOf(items[j])
  }

  lemma ConcatDistinct(a: seq<Item>, b: seq<Item>)
    requires DistinctPlaces(a) && DistinctPlaces(b)
    requires forall x, y :: x in a && y in b ==> PlaceOf(x) != PlaceOf(y)
    ensures DistinctPlaces(a + b)
  {
    forall i, j | 0 <= i < j < |a + b| ensures PlaceOf((a + b)[i]) != PlaceOf((a + b)[j]) {
      if i < |a| <= j {
        assert a[i] in a && b[j - |a|] in b;
      }
    }
  }

  predicate DistinctPaths(files: seq<File>) {
    forall i, j :: 0 <= i < j < |files| ==> files[i].path != files[j].path
  }

  predicate DistinctIds(sources: seq<Source>) {
    forall i, j :: 0 <= i < j < |sources| ==> sources[i].spec.id != sources[j].spec.id
  }

  predicate ApartPlaces(a: seq<Item>, b: seq<Item>) {
    forall x, y :: x in a && y in b ==> PlaceOf(x) != PlaceOf(y)
  }

  lemma {:induction false} FlattenDistinct(parts: seq<seq<Item>>)
    requires forall part <- parts :: DistinctPlaces(part)
    requires forall k, l :: 0 <= k < l < |parts| ==> ApartPlaces(parts[k], parts[l])
    ensures DistinctPlaces(Flatten(parts))
  {
    if parts != [] {
      var init, last := parts[..|parts| - 1], parts[|parts| - 1];
      FlattenDistinct(init);
      forall x, y | x in Flatten(init) && y in last ensures PlaceOf(x) != PlaceOf(y) {
        var k := PartOf(init, x);
        assert ApartPlaces(parts[k], last);
      }
      ConcatDistinct(Flatten(init), last);
    }
  }

  lemma ItemsOfSource(spec: Spec, files: seq<File>, item: Item) returns (n: nat)
    requires item in ItemsOf(spec, files)
    ensures n < |files| && item.spec == spec && item.path == files[n].path
  {
    n := PartOf(LinesByFile(spec, files), item);
  }

  lemma SourceItemsDistinct(spec: Spec, files: seq<File>)
    requires DistinctPaths(files)
    ensures DistinctPlaces(ItemsOf(spec, files))
  {
    FlattenDistinct(LinesByFile(spec, files));
  }

  lemma ItemsOfSources(sources: seq<Source>, item: Item) returns (k: nat, n: nat)
    requires item in AllItems(sources)
    ensures k < |sources| && item.spec == sources[k].spec
    ensures n < |Discovered(sources[k])| && item.path == Discovered(sources[k])[n].path
  {
    k := PartOf(ItemsBySource(sources), item);
    n := ItemsOfSource(sources[k].spec, Discovered(sources[k]), item);
  }

  lemma AllItemsDistinct(sources: seq<Source>)
    requires DistinctIds(sources) && forall s <- sources :: DistinctPaths(Discovered(s))
    ensures DistinctPlaces(AllItems(sources))
  {
    var parts := ItemsBySource(sources);
    forall part | part in parts ensures DistinctPlaces(part) {
      var k :| 0 <= k < |parts| && parts[k] == part;
      SourceItemsDistinct(sources[k].spec, Discovered(sources[k]));
    }
    forall k, l | 0 <= k < l < |parts| ensures ApartPlaces(parts[k], parts[l]) {
      forall x, y | x in parts[k] && y in parts[l] ensures PlaceOf(x) != PlaceOf(y) {
        var _ := ItemsOfSource(sources[k].spec, Discovered(sources[k]), x);
        var _ := ItemsOfSource(sources[l].spec, Discovered(sources[l]), y);
      }
    }
    FlattenDistinct(parts);
  }

  /** Lines at different places have different keys. */
  lemma HashTellsPlace(env: Env, since: Option<int>, x: Item, y: Item)
    requires EnvValid(env) && NUL !in x.path && NUL !in y.path
    requires Classify(env, since, x).Candidate? && Classify(env, since, y).Candidate?
    requires Classify(env, since, x).row.hash == Classify(env, since, y).row.hash
    ensures PlaceOf(x) == PlaceOf(y)
  {
    var a :| Classify(env, since, x).row.hash == HashOf(env, x, a);
    var b :| Classify(env, since, y).row.hash == HashOf(env, y, b);
    KeyInjective(x.spec.id, x.path, x.lineNo, env.dumps(a), y.spec.id, y.path, y.lineNo, env.dumps(b));
  }

  lemma {:induction false} DistinctHashesHaveNoDuplicates(p: Progress, vs: seq<Verdict>)
    requires forall v <- vs :: v.Candidate? ==> v.row.hash !in p.table
    requires forall i, j :: 0 <= i < j < |vs| && vs[i].Candidate? && vs[j].Candidate? ==> vs[i].row.hash != vs[j].row.hash
    ensures After(p, vs).counts.duplicate == p.counts.duplicate
  {
    if vs != [] {
      var init, v := vs[..|vs| - 1], vs[|vs| - 1];
      DistinctHashesHaveNoDuplicates(p, init);
      if v.Candidate? && v.row.hash in After(p, init).table {
        assert v in vs;
        NewRowsAreCandidates(p, init, v.row.hash);
      }
    }
  }

  /** A first ingest into an empty table counts no duplicate: every line that parses and is not filtered
      gets its row. */
  lemma FirstIngestHasNoDuplicates(env: Env, since: Option<int>, sources: seq<Source>)
    requires EnvValid(env) && DistinctIds(sources)
    requires forall s <- sources :: DistinctPaths(Discovered(s)) && forall f <- Discovered(s) :: NUL !in f.path
    ensures Whole(env, since, map[], sources).counts.duplicate == 0
  {
    var items := AllItems(sources);
    var vs := Verdicts(env, since, items);
    AllItemsDistinct(sources);
    forall i, j | 0 <= i < j < |vs| && vs[i].Candidate? && vs[j].Candidate? ensures vs[i].row.hash != vs[j].row.hash {
      var k, n := ItemsOfSources(sources, items[i]);
      var l, m := ItemsOfSources(sources, items[j]);
      if vs[i].row.hash == vs[j].row.hash {
        HashTellsPlace(env, since, items[i], items[j]);
      }
    }
    DistinctHashesHaveNoDuplicates(Start(map[]), vs);
  }

  // ----- the handler ------------------------------------------------------------------------------------

  datatype Summary = Summary(sourceId: string, filesScanned: nat, counts: Counts)

  datatype Failure = NoSpecs | DuplicateIds | StoreUnavailable | BadSince | SourceMissing

  datatype Outcome =
    | Done(summaries: seq<Summary>, ingested: nat, duplicates: nat, failed: nat, first: Option<int>, last: Option<int>)
    | Failed(why: Failure)

  function IdsOf(sources: seq<Source>): seq<string> {
    seq(|sources|, k requires 0 <= k < |sources| => sources[k].spec.id)
  }

  lemma {:induction false} SetSizeTellsRepetition(ids: seq<string>)
    ensures |set id | id in ids| <= |ids|
    ensures |set id | id in ids| == |ids| <==> forall i, j :: 0 <= i < j < |ids| ==> ids[i] != ids[j]
  {
    if ids != [] {
      var init, last := ids[..|ids| - 1], ids[|ids| - 1];
      SetSizeTellsRepetition(init);
      assert (set id | id in ids) == (set id | id in init) + {last};
    }
  }

  predicate MissingAt(sources: seq<Source>, k: nat)
    requires k < |sources|
  {
    sources[k].location.Missing?
  }

  /** The sources before the first one whose location does not exist. */
  function Present(sources: seq<Source>): (n: nat)
    ensures n <= |sources| && (forall k :: 0 <= k < n ==> !MissingAt(sources, k))
    ensures n < |sources| ==> MissingAt(sources, n)
  {
    if sources == [] || MissingAt(sources, 0) then 0
    else
      var n := 1 + Present(sources[1..]);
      assert forall k :: 0 < k < n ==> MissingAt(sources, k) == MissingAt(sources[1..], k - 1);
      n
  }

  /** One summary per source, in order. */
  function SummariesOf(env: Env, since: Option<int>, table: Table, sources: seq<Source>): (r: seq<Summary>)
    ensures |r| == |sources|
  {
    seq(|sources|, k requires 0 <= k < |sources| =>
      Summary(sources[k].spec.id, |Discovered(sources[k])|, Part(env, since, table, sources, k).counts))
  }

  lemma PrefixGrows<T>(s: seq<T>, k: nat)
    requires k < |s|
    ensures s[..k + 1] == s[..k] + [s[k]]
  {
  }

  lemma VerdictsOfPrefix(env: Env, since: Option<int>, spec: Spec, files: seq<File>, n: nat)
    requires n < |files|
    ensures Verdicts(env, since, ItemsOf(spec, files[..n + 1])) ==
            Verdicts(env, since, ItemsOf(spec, files[..n])) + Verdicts(env, since, LinesOf(spec, files[n]))
  {
    var parts := LinesByFile(spec, files);
    FlattenMore(parts, n);
    assert LinesByFile(spec, files[..n + 1]) == parts[..n + 1] && LinesByFile(spec, files[..n]) == parts[..n];
    VerdictsConcat(env, since, ItemsOf(spec, files[..n]), LinesOf(spec, files[n]));
  }

  class Store {
    var rows: Table

    /** `_insert_event`: look the hash up, insert if it is not there. */
    method InsertEvent(row: Row) returns (inserted: bool)
      modifies this
      ensures inserted <==> row.hash !in old(rows)
      ensures rows == if inserted then old(rows)[row.hash := row] else old(rows)
    {
      if row.hash in rows {
        return false;
      }
      rows := rows[row.hash := row];
      return true;
    }

    /** Insert a row and count it; `first` and `last` follow the rows that are new. */
    method CountEvent(row: Row, counts: Counts, first: Option<int>, last: Option<int>)
      returns (counts': Counts, first': Option<int>, last': Option<int>)
      modifies this
      ensures Progress(rows, counts', first', last') ==
              AfterVerdict(Progress(old(rows), counts, first, last), Candidate(row))
    {
      counts', first', last' := counts.(read := counts.read + 1), first, last;
      var inserted := InsertEvent(row);
      if inserted {
        counts' := counts'.(inserted := counts'.inserted + 1);
        if row.ts.Some? {
          if first'.None? || row.ts.value < first'.value {
            first' := row.ts;
          }
          if last'.None? || row.ts.value > last'.value {
            last' := row.ts;
          }
        }
      } else {
        counts' := counts'.(duplicate := counts'.duplicate + 1);
      }
    }

    /** One line of a file. */
    method ReadLine(env: Env, since: Option<int>, item: Item, counts: Counts, first: Option<int>, last: Option<int>)
      returns (counts': Counts, first': Option<int>, last': Option<int>)
      modifies this
      ensures Progress(rows, counts', first', last') ==
              AfterVerdict(Progress(old(rows), counts, first, last), Classify(env, since, item))
    {
      counts', first', last' := counts, first, last;
      var line := env.strip(item.line);
      if line == "" {
        return;
      }
      var record := env.loads(line);
      var row := if record.Some? then Normalize(env, item, record.value) else None;
      if row.None? {
        counts' := counts'.(read := counts'.read + 1, failed := counts'.failed + 1);
      } else if since.Some? && row.value.ts.Some? && row.value.ts.value < since.value {
        counts' := counts'.(read := counts'.read + 1);
      } else {
        counts', first', last' := CountEvent(row.value, counts, first, last);
      }
    }

    method ReadFile(env: Env, since: Option<int>, spec: Spec, file: File, counts: Counts,
                    first: Option<int>, last: Option<int>)
      returns (counts': Counts, first': Option<int>, last': Option<int>)
      modifies this
      ensures Progress(rows, counts', first', last') ==
              After(Progress(old(rows), counts, first, last), Verdicts(env, since, LinesOf(spec, file)))
    {
      counts', first', last' := counts, first, last;
      ghost var vs := Verdicts(env, since, LinesOf(spec, file));
      ghost var start := Progress(rows, counts, first, last);
      for n := 0 to |file.lines|
        invariant Progress(rows, counts', first', last') == After(start, vs[..n])
      {
        assert vs[..n + 1][..n] == vs[..n];
        var item := Item(spec, file.path, n + 1, file.lines[n]);
        assert vs[n] == Classify(env, since, item);
        counts', first', last' := ReadLine(env, since, item, counts', first', last');
      }
      assert vs[..|file.lines|] == vs;
    }

    method ReadSource(env: Env, since: Option<int>, spec: Spec, files: seq<File>,
                      first: Option<int>, last: Option<int>)
      returns (counts: Counts, first': Option<int>, last': Option<int>)
      modifies this
      ensures Progress(rows, counts, first', last') ==
              After(Progress(old(rows), ZERO, first, last), Verdicts(env, since, ItemsOf(spec, files)))
    {
      counts, first', last' := ZERO, first, last;
      ghost var start := Progress(rows, ZERO, first, last);
      for n := 0 to |files|
        invariant Progress(rows, counts, first', last') ==
                  After(start, Verdicts(env, since, ItemsOf(spec, files[..n])))
      {
        counts, first', last' := ReadFile(env, since, spec, files[n], counts, first', last');
        VerdictsOfPrefix(env, since, spec, files, n);
        AfterMore(start, Verdicts(env, since, ItemsOf(spec, files[..n])), Verdicts(env, since, LinesOf(spec, files[n])));
      }
      assert files[..|files|] == files;
    }

    /** `run`. `available` says whether the store file can be opened. When a source is missing, the rows
        of the sources before it stay. */
    method Run(env: Env, specs: Option<seq<Source>>, sinceTs: Option<string>, available: bool)
      returns (outcome: Outcome)
      modifies this
      ensures specs.None? ==> outcome == Failed(NoSpecs)
      ensures specs.Some? && !DistinctIds(specs.value) ==> outcome == Failed(DuplicateIds)
      ensures specs == Some([]) ==> outcome == Done([], 0, 0, 0, None, None)
      ensures specs.None? || !DistinctIds(specs.value) || specs.value == [] ==> rows == old(rows)
      ensures specs.Some? && DistinctIds(specs.value) && specs.value != [] ==>
                var since := ParseTs(env, if sinceTs.Some? then Text(sinceTs.value) else Null);
                if !available || since.BadTime? then outcome.Failed? && rows == old(rows)
                else RunOutcome(env, if since.Time? then Some(since.t) else None, old(rows), specs.value,
                                Present(specs.value), outcome, rows)
    {
      if specs.None? {
        return Failed(NoSpecs);
      }
      var sources := specs.value;
      var valid := ValidateSourceSpecs(sources);
      if !valid {
        return Failed(DuplicateIds);
      }
      if |sources| == 0 {
        return Done([], 0, 0, 0, None, None);
      }
      if !available {
        return Failed(StoreUnavailable);
      }
      var parsed := ParseTs(env, if sinceTs.Some? then Text(sinceTs.value) else Null);
      if parsed.BadTime? {
        return Failed(BadSince);
      }
      outcome := ReadSources(env, if parsed.Time? then Some(parsed.t) else None, sources);
    }

    method ReadSources(env: Env, since: Option<int>, sources: seq<Source>) returns (outcome: Outcome)
      modifies this
      ensures RunOutcome(env, since, old(rows), sources, Present(sources), outcome, rows)
    {
      ghost var stop := Present(sources);
      var summaries: seq<Summary> := [];
      var ingested: nat, duplicates: nat, failed: nat := 0, 0, 0;
      var first, last: Option<int> := None, None;
      ghost var table, whole, expected := rows, Start(rows), SummariesOf(env, since, rows, sources);
      NoSources(env, since, table, sources);
      for k := 0 to |sources|
        invariant |summaries| == k && summaries == expected[..k]
        invariant k <= stop
        invariant whole == Whole(env, since, table, sources[..k])
        invariant rows == whole.table && first == whole.first && last == whole.last
        invariant Totals(whole, ingested, duplicates, failed)
      {
        assert MissingAt(sources, k) <==> k == stop;
        if MissingAt(sources, k) {
          return Failed(SourceMissing);
        }
        var files := DiscoverFiles(sources[k]);
        var counts: Counts;
        counts, first, last := ReadSource(env, since, sources[k].spec, files, first, last);
        ghost var part := Progress(rows, counts, first, last);
        NextSource(env, since, table, sources, k, whole, part);
        PrefixGrows(expected, k);
        whole := Shifted(part, whole.counts);
        summaries := summaries + [Summary(sources[k].spec.id, |files|, counts)];
        ingested, duplicates, failed := ingested + counts.inserted, duplicates + counts.duplicate, failed + counts.failed;
      }
      return Done(summaries, ingested, duplicates, failed, first, last);
    }
  }

  lemma NextSource(env: Env, since: Option<int>, table: Table, sources: seq<Source>, k: nat,
                   whole: Progress, part: Progress)
    requires k < |sources| && whole == Whole(env, since, table, sources[..k])
    requires part == After(whole.(counts := ZERO), Verdicts(env, since, ItemsOf(sources[k].spec, Discovered(sources[k]))))
    ensures SummariesOf(env, since, table, sources)[k] ==
            Summary(sources[k].spec.id, |Discovered(sources[k])|, part.counts)
    ensures Whole(env, since, table, sources[..k + 1]) == Shifted(part, whole.counts)
  {
    WholeByParts(env, since, table, sources, k);
  }

  predicate Totals(p: Progress, ingested: nat, duplicates: nat, failed: nat) {
    p.counts.inserted == ingested && p.counts.duplicate == duplicates && p.counts.failed == failed
  }

  predicate Reported(whole: Progress, summaries: seq<Summary>, outcome: Outcome) {
    && outcome.Done? && outcome.summaries == summaries
    && Totals(whole, outcome.ingested, outcome.duplicates, outcome.failed)
    && outcome.first == whole.first && outcome.last == whole.last
  }

  /** What a run over valid sources reports and leaves in the table, `n` of them being there. */
  predicate RunOutcome(env: Env, since: Option<int>, table: Table, sources: seq<Source>, n: nat,
                       outcome: Outcome, rows: Table)
    requires n <= |sources|
  {
    && rows == Whole(env, since, table, sources[..n]).table
    && (if n < |sources| then outcome == Failed(SourceMissing)
        else Reported(Whole(env, since, table, sources[..n]), SummariesOf(env, since, table, sources), outcome))
  }

  method ValidateSourceSpecs(sources: seq<Source>) returns (valid: bool)
    ensures valid <==> DistinctIds(sources)
  {
    var ids := IdsOf(sources);
    SetSizeTellsRepetition(ids);
    assert forall k :: 0 <= k < |sources| ==> ids[k] == sources[k].spec.id;
    valid := |ids| == |set id | id in ids|;
  }

  method DiscoverFiles(source: Source) returns (files: seq<File>)
    requires !source.location.Missing?
    ensures files == Discovered(source)
  {
    var candidates := if source.location.OneFile? then [source.location.file] else source.location.listing;
    files := [];
    for n := 0 to |candidates|
      invariant files == Kept(source.exclude, candidates[..n])
    {
      assert candidates[..n + 1][..n] == candidates[..n];
      if !source.exclude(candidates[n].path) {
        files := files + [candidates[n]];
      }
    }
    assert candidates[..|candidates|] == candidates;
  }
}
