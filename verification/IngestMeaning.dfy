/** What an ingest stores, reads and counts, told by the lines themselves. */
module IngestMeaning {
  import opened Options
  import opened Sequences
  import opened Ingest

  // ----- one line -------------------------------------------------------------------------------------

  /** `name` is the member that the source's mapping gives for a canonical field; a blank one does not count. */
  predicate IsField(env: Env, spec: Spec, canonical: string, default: string, name: string) {
    if canonical in spec.mapping && env.strip(spec.mapping[canonical]) != "" then name == spec.mapping[canonical]
    else name == default
  }

  /** A member as optional text: a text is itself, null and nothing are none, anything else is shown. */
  predicate IsText(env: Env, m: map<string, Json>, name: string, value: Option<string>) {
    && (name !in m || m[name].Null? ==> value == None)
    && (name in m && m[name].Text? ==> value == Some(m[name].text))
    && (name in m && !m[name].Null? && !m[name].Text? ==> value == Some(env.show(m[name])))
  }

  predicate HasTime(env: Env, m: map<string, Json>, name: string) {
    name in m && m[name].Text? && env.strip(m[name].text) != ""
  }

  /** A member as time: a text that is not blank is parsed, anything else is none. */
  predicate IsTime(env: Env, m: map<string, Json>, name: string, value: Option<int>) {
    if HasTime(env, m, name) then value.Some? && env.parseIso(m[name].text) == value else value == None
  }

  /** The row has what the line says: every column is that member of the record, or its default. */
  ghost predicate RowSays(env: Env, item: Item, m: map<string, Json>, row: Row) {
    && row.sourceId == item.spec.id && row.sourceFormat == item.spec.format
    && row.path == item.path && row.lineNo == item.lineNo
    && row.hash == env.hash(item.spec.id + ['\0'] + item.path + ['\0'] + Decimal(item.lineNo) + ['\0']
                            + env.dumps(Object(m)))
    && (if "schema_version" in m then env.toInt(m["schema_version"]) == Some(row.schemaVersion)
        else row.schemaVersion == 1)
    && (forall name | IsField(env, item.spec, "event_type", "event_type", name) ::
          name in m && m[name] == Text(row.eventType) && env.strip(row.eventType) != "")
    && (forall name | IsField(env, item.spec, "ts", "ts", name) :: IsTime(env, m, name, row.ts))
    && (forall name | IsField(env, item.spec, "run_id", "wal_run_id", name) :: IsText(env, m, name, row.runId))
    && (forall name | IsField(env, item.spec, "action_name", "action_name", name) ::
          IsText(env, m, name, row.actionName))
    && IsText(env, m, "project_path", row.projectPath) && IsText(env, m, "trigger", row.trigger)
    && IsText(env, m, "dev_env", row.devEnv) && IsText(env, m, "writer_id", row.writerId)
    && (forall name | IsField(env, item.spec, "payload", "payload", name) ::
          row.payload == env.dumpsUnsorted(if name in m then m[name] else Object(map[])))
  }

  /** The record cannot be stored: no type of event, a time that does not parse, or a version that is no number. */
  ghost predicate Fails(env: Env, spec: Spec, m: map<string, Json>) {
    || (exists name :: IsField(env, spec, "event_type", "event_type", name)
                       && !(name in m && m[name].Text? && env.strip(m[name].text) != ""))
    || (exists name :: IsField(env, spec, "ts", "ts", name)
                       && HasTime(env, m, name) && env.parseIso(m[name].text) == None)
    || ("schema_version" in m && env.toInt(m["schema_version"]) == None)
  }

  /** The record has a time, and that is before the limit. */
  ghost predicate IsTooOld(env: Env, since: Option<int>, spec: Spec, m: map<string, Json>) {
    since.Some? && exists name, t: int ::
      IsField(env, spec, "ts", "ts", name) && IsTime(env, m, name, Some(t)) && t < since.value
  }

  lemma FieldIs(env: Env, spec: Spec, canonical: string, default: string, name: string)
    ensures IsField(env, spec, canonical, default, name) <==> name == MappedField(env, spec, canonical, default)
  {
  }

  lemma TextIs(env: Env, m: map<string, Json>, name: string)
    ensures IsText(env, m, name, CoerceStr(env, Get(m, name)))
  {
  }

  lemma TimeIs(env: Env, m: map<string, Json>, name: string)
    ensures var p := ParseTs(env, Get(m, name));
            && (p.BadTime? <==> HasTime(env, m, name) && env.parseIso(m[name].text) == None)
            && (!p.BadTime? ==> IsTime(env, m, name, if p.Time? then Some(p.t) else None))
  {
  }

  lemma NormalizeFailsIff(env: Env, item: Item, m: map<string, Json>)
    ensures Normalize(env, item, Object(m)).None? <==> Fails(env, item.spec, m)
  {
    var type', ts := MappedField(env, item.spec, "event_type", "event_type"), MappedField(env, item.spec, "ts", "ts");
    forall name ensures IsField(env, item.spec, "event_type", "event_type", name) <==> name == type' {
      FieldIs(env, item.spec, "event_type", "event_type", name);
    }
    forall name ensures IsField(env, item.spec, "ts", "ts", name) <==> name == ts {
      FieldIs(env, item.spec, "ts", "ts", name);
    }
    assert IsField(env, item.spec, "event_type", "event_type", type') && IsField(env, item.spec, "ts", "ts", ts);
    TimeIs(env, m, ts);
  }

  lemma NormalizeSays(env: Env, item: Item, m: map<string, Json>)
    requires Normalize(env, item, Object(m)).Some?
    ensures RowSays(env, item, m, Normalize(env, item, Object(m)).value)
  {
    TimeIs(env, m, MappedField(env, item.spec, "ts", "ts"));
    TextIs(env, m, MappedField(env, item.spec, "run_id", "wal_run_id"));
    TextIs(env, m, MappedField(env, item.spec, "action_name", "action_name"));
    TextIs(env, m, "project_path");
    TextIs(env, m, "trigger");
    TextIs(env, m, "dev_env");
    TextIs(env, m, "writer_id");
    forall canonical, default, name ensures
      IsField(env, item.spec, canonical, default, name) <==> name == MappedField(env, item.spec, canonical, default)
    {
      FieldIs(env, item.spec, canonical, default, name);
    }
  }

  /** What becomes of a line: nothing if it is blank, a failure if it is no record that can be stored, filtered if its
      time is before the limit, and otherwise a row that has what it says. */
  lemma LineMeans(env: Env, since: Option<int>, item: Item)
    ensures var v, line := Classify(env, since, item), env.strip(item.line);
            && (v.Blank? <==> line == "")
            && (line != "" && !(env.loads(line).Some? && env.loads(line).value.Object?) ==> v.Unparsed?)
            && (line != "" && env.loads(line).Some? && env.loads(line).value.Object? ==>
                  var m := env.loads(line).value.members;
                  && (v.Unparsed? <==> Fails(env, item.spec, m))
                  && (v.TooOld? <==> !Fails(env, item.spec, m) && IsTooOld(env, since, item.spec, m))
                  && (v.Candidate? ==> RowSays(env, item, m, v.row)))
  {
    var line := env.strip(item.line);
    if line != "" && env.loads(line).Some? && env.loads(line).value.Object? {
      var m := env.loads(line).value.members;
      NormalizeFailsIff(env, item, m);
      if Normalize(env, item, Object(m)).Some? {
        NormalizeSays(env, item, m);
        OldIff(env, since, item, m);
      }
    }
  }

  lemma OldIff(env: Env, since: Option<int>, item: Item, m: map<string, Json>)
    requires env.strip(item.line) != "" && env.loads(env.strip(item.line)) == Some(Object(m))
    requires Normalize(env, item, Object(m)).Some?
    ensures Classify(env, since, item).TooOld? <==> IsTooOld(env, since, item.spec, m)
  {
    var ts, row := MappedField(env, item.spec, "ts", "ts"), Normalize(env, item, Object(m)).value;
    NormalizeSays(env, item, m);
    FieldIs(env, item.spec, "ts", "ts", ts);
    assert IsField(env, item.spec, "ts", "ts", ts) && IsTime(env, m, ts, row.ts);
  }

  // ----- which lines are read -------------------------------------------------------------------------

  /** The file is at the source's location and not excluded. */
  predicate IsListed(source: Source, file: File) {
    && !source.exclude(file.path)
    && match source.location
       case OneFile(f) => file == f
       case Directory(listing) => file in listing
       case Missing => false
  }

  /** Line number `l + 1` of a file of source `k`. */
  predicate IsLine(sources: seq<Source>, item: Item, k: nat, file: File, l: nat) {
    && k < |sources| && IsListed(sources[k], file) && l < |file.lines|
    && item == Item(sources[k].spec, file.path, l + 1, file.lines[l])
  }

  lemma {:induction false} KeptIff(exclude: string -> bool, files: seq<File>, f: File)
    ensures f in Kept(exclude, files) <==> f in files && !exclude(f.path)
    ensures multiset(Kept(exclude, files))[f] == if exclude(f.path) then 0 else multiset(files)[f]
  {
    if files != [] {
      KeptIff(exclude, files[..|files| - 1], f);
      assert files == files[..|files| - 1] + [files[|files| - 1]];
    }
  }

  lemma ListedIff(source: Source, file: File)
    ensures file in Discovered(source) <==> IsListed(source, file)
  {
    match source.location
    case OneFile(f) => KeptIff(source.exclude, [f], file);
    case Directory(listing) => KeptIff(source.exclude, listing, file);
    case Missing =>
  }

  /** Exactly the lines of listed files are read, each under its own number. */
  lemma AllItemsIff(sources: seq<Source>, item: Item)
    ensures item in AllItems(sources) <==> exists k: nat, file, l: nat :: IsLine(sources, item, k, file, l)
  {
    if item in AllItems(sources) {
      var k := PartOf(ItemsBySource(sources), item);
      var files := Discovered(sources[k]);
      var n := PartOf(LinesByFile(sources[k].spec, files), item);
      ListedIff(sources[k], files[n]);
      assert IsLine(sources, item, k, files[n], item.lineNo - 1);
    }
    if k: nat, file, l: nat :| IsLine(sources, item, k, file, l) {
      LineIsRead(sources, item, k, file, l);
    }
  }

  lemma LineIsRead(sources: seq<Source>, item: Item, k: nat, file: File, l: nat)
    requires IsLine(sources, item, k, file, l)
    ensures item in AllItems(sources)
  {
    ListedIff(sources[k], file);
    var files := Discovered(sources[k]);
    var n :| 0 <= n < |files| && files[n] == file;
    var lines := LinesOf(sources[k].spec, file);
    assert lines[l] == item && LinesByFile(sources[k].spec, files)[n] == lines;
    InFlatten(LinesByFile(sources[k].spec, files), n, item);
    assert ItemsBySource(sources)[k] == ItemsOf(sources[k].spec, files);
    InFlatten(ItemsBySource(sources), k, item);
  }

  /** The line is a record that can be stored and is not too old. */
  ghost predicate IsGood(env: Env, since: Option<int>, item: Item, m: map<string, Json>) {
    && env.strip(item.line) != "" && env.loads(env.strip(item.line)) == Some(Object(m))
    && !Fails(env, item.spec, m) && !IsTooOld(env, since, item.spec, m)
  }

  /** After reading all sources, every good line of every listed file has a row under its hash. */
  lemma GoodLinesAreStored(env: Env, since: Option<int>, table: Table, sources: seq<Source>,
                           item: Item, k: nat, file: File, l: nat, m: map<string, Json>)
    requires IsLine(sources, item, k, file, l) && IsGood(env, since, item, m)
    ensures env.hash(item.spec.id + ['\0'] + item.path + ['\0'] + Decimal(item.lineNo) + ['\0'] + env.dumps(Object(m)))
            in Whole(env, since, table, sources).table
  {
    LineIsRead(sources, item, k, file, l);
    LineMeans(env, since, item);
    var v, items := Classify(env, since, item), AllItems(sources);
    assert v.Candidate?;
    var i :| 0 <= i < |items| && items[i] == item;
    assert Verdicts(env, since, items)[i] == v;
    CandidatesHaveRows(Start(table), Verdicts(env, since, items), v.row);
  }

  /** Every row that was not there before has what such a line says. */
  lemma NewRowsSayTheirLines(env: Env, since: Option<int>, table: Table, sources: seq<Source>, h: string)
    returns (item: Item, k: nat, file: File, l: nat, m: map<string, Json>)
    requires h in Whole(env, since, table, sources).table && h !in table
    ensures IsLine(sources, item, k, file, l) && IsGood(env, since, item, m)
    ensures RowSays(env, item, m, Whole(env, since, table, sources).table[h])
  {
    var items := AllItems(sources);
    var row := Whole(env, since, table, sources).table[h];
    NewRowsAreCandidates(Start(table), Verdicts(env, since, items), h);
    var i :| 0 <= i < |items| && Verdicts(env, since, items)[i] == Candidate(row);
    item := items[i];
    LineMeans(env, since, item);
    m := env.loads(env.strip(item.line)).value.members;
    AllItemsIff(sources, item);
    k, file, l :| IsLine(sources, item, k, file, l);
  }

  // ----- counting -------------------------------------------------------------------------------------

  function Number(vs: seq<Verdict>, kind: Verdict -> bool): nat {
    if vs == [] then 0 else Number(vs[1..], kind) + (if kind(vs[0]) then 1 else 0)
  }

  lemma {:induction false} NumberMore(vs: seq<Verdict>, v: Verdict, kind: Verdict -> bool)
    ensures Number(vs + [v], kind) == Number(vs, kind) + (if kind(v) then 1 else 0)
  {
    if vs == [] {
      assert [v][1..] == [] && vs + [v] == [v];
    } else {
      assert (vs + [v])[1..] == vs[1..] + [v];
      NumberMore(vs[1..], v, kind);
    }
  }

  predicate IsLineRead(v: Verdict) {
    !v.Blank?
  }

  predicate IsFailure(v: Verdict) {
    v.Unparsed?
  }

  predicate IsRow(v: Verdict) {
    v.Candidate?
  }

  /** Lines read are those that are not blank, failures those that cannot be stored, and duplicates the rows that
      are not inserted. */
  lemma {:induction false} CountsAre(p: Progress, vs: seq<Verdict>)
    ensures var c, c' := p.counts, After(p, vs).counts;
            && c'.read == c.read + Number(vs, IsLineRead)
            && c'.failed == c.failed + Number(vs, IsFailure)
            && c'.inserted + c'.duplicate == c.inserted + c.duplicate + Number(vs, IsRow)
  {
    if vs != [] {
      var init, v := vs[..|vs| - 1], vs[|vs| - 1];
      CountsAre(p, init);
      assert vs == init + [v];
      NumberMore(init, v, IsLineRead);
      NumberMore(init, v, IsFailure);
      NumberMore(init, v, IsRow);
    }
  }

  /** The report on each source: its own id, the number of its listed files, and counts of its own lines. */
  lemma SummarySays(env: Env, since: Option<int>, table: Table, sources: seq<Source>, k: nat)
    requires k < |sources|
    ensures var r, vs := SummariesOf(env, since, table, sources)[k],
                         Verdicts(env, since, ItemsOf(sources[k].spec, Discovered(sources[k])));
            && r.sourceId == sources[k].spec.id && r.filesScanned == |Discovered(sources[k])|
            && r.counts.read == Number(vs, IsLineRead) && r.counts.failed == Number(vs, IsFailure)
            && r.counts.inserted == |Whole(env, since, table, sources[..k + 1]).table|
                                    - |Whole(env, since, table, sources[..k]).table|
            && r.counts.inserted + r.counts.duplicate == Number(vs, IsRow)
  {
    var vs := Verdicts(env, since, ItemsOf(sources[k].spec, Discovered(sources[k])));
    var before := Whole(env, since, table, sources[..k]).(counts := ZERO);
    CountsAre(before, vs);
    InsertedIsGrowth(before, vs);
    WholeByParts(env, since, table, sources, k);
  }
}
