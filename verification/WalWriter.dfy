/** The writer at work on a directory of named files. */
module WalWriter {
  import opened WalByName
  import opened WalNames
  import W = Wal

  /** The named files that a directory by numbers stands for. */
  ghost predicate Holds(name: nat -> string, named: map<string, W.Segment>, files: Files) {
    && (forall n: nat :: n in files ==> name(n) in named && named[name(n)] == files[n])
    && (forall path <- named :: exists n: nat :: n in files && path == name(n))
  }

  ghost predicate Injective(name: nat -> string) {
    forall a, b :: name(a) == name(b) ==> a == b
  }

  lemma NamesDiffer()
    ensures Injective(Name)
  {
    forall a: nat, b: nat | Name(a) == Name(b) ensures a == b {
      NameReadsBack(a);
      NameReadsBack(b);
    }
  }

  lemma NotThere(name: nat -> string, named: map<string, W.Segment>, files: Files, n: nat)
    requires Injective(name) && Holds(name, named, files)
    ensures name(n) in named <==> n in files
  {
  }

  lemma SameLines(name: nat -> string, named: map<string, W.Segment>, files: Files, n: nat)
    requires Holds(name, named, files) && n in files
    ensures name(n) in named && named[name(n)] == files[n]
  {
  }

  lemma SettingHolds(name: nat -> string, named: map<string, W.Segment>, files: Files, n: nat, lines: W.Segment)
    requires Injective(name) && Holds(name, named, files)
    ensures Holds(name, named[name(n) := lines], files[n := lines])
  {
    var named', files' := named[name(n) := lines], files[n := lines];
    forall path | path in named' ensures exists m: nat :: m in files' && path == name(m) {
      if path == name(n) {
        assert n in files';
      } else {
        var m: nat :| m in files && path == name(m);
        assert m in files';
      }
    }
  }

  lemma RemovingHolds(name: nat -> string, named: map<string, W.Segment>, files: Files, n: nat)
    requires Injective(name) && Holds(name, named, files)
    ensures Holds(name, named - {name(n)}, files - {n})
  {
    forall path | path in named - {name(n)} ensures exists m: nat :: m in files - {n} && path == name(m) {
      var m: nat :| m in files && path == name(m);
      assert m in files - {n};
    }
  }

  predicate Sorted(names: seq<string>) {
    forall i, j :: 0 <= i < j < |names| ==> Less(names[i], names[j])
  }

  /** `names` is the sorted listing of the files. */
  ghost predicate Lists(name: nat -> string, names: seq<string>, files: Files) {
    && Sorted(names) && (forall n: nat :: n in files <==> name(n) in names)
    && forall path <- names :: exists n: nat :: path == name(n)
  }

  lemma FrontIsFirst(names: seq<string>, files: Files)
    requires Lists(Name, names, files) && names != []
    ensures files.Keys != {} && names[0] == Name(First(files.Keys))
  {
    assert names[0] in names;
    var n: nat :| names[0] == Name(n);
    forall m: nat | m in files.Keys ensures NoLater(n, m) {
      NamesDiffer();
      var j :| 0 <= j < |names| && names[j] == Name(m);
    }
    FirstIs(files.Keys, n);
  }

  lemma EndIsLast(names: seq<string>, files: Files)
    requires Lists(Name, names, files) && names != []
    ensures files.Keys != {} && names[|names| - 1] == Name(LastOf(files.Keys))
  {
    var last := |names| - 1;
    assert names[last] in names;
    var n: nat :| names[last] == Name(n);
    forall m: nat | m in files.Keys ensures NoLater(m, n) {
      NamesDiffer();
      var j :| 0 <= j < |names| && names[j] == Name(m);
    }
    LastIs(files.Keys, n);
  }

  lemma NoNames(name: nat -> string, names: seq<string>, files: Files)
    requires Lists(name, names, files)
    ensures names == [] <==> files == map[]
  {
    if names != [] {
      assert names[0] in names;
    }
    if n: nat :| n in files {
      assert name(n) in names;
    }
  }

  lemma RestIsListed(name: nat -> string, names: seq<string>, files: Files, n: nat)
    requires Injective(name) && Lists(name, names, files) && names != [] && names[0] == name(n)
    ensures Lists(name, names[1..], files - {n})
    ensures forall path :: path in names <==> path == names[0] || path in names[1..]
    ensures names[0] !in names[1..]
  {
    RestOfSorted(names);
    forall m: nat ensures m in files - {n} <==> name(m) in names[1..] {
    }
  }

  lemma RestOfSorted(names: seq<string>)
    requires Sorted(names) && names != []
    ensures Sorted(names[1..]) && forall path :: path in names[1..] <==> path in names && path != names[0]
  {
    LessSelf(names[0]);
    assert names == [names[0]] + names[1..];
    forall path | path in names[1..] ensures Less(names[0], path) {
      var i :| 0 <= i < |names| - 1 && names[1..][i] == path;
      assert names[i + 1] == path;
    }
  }

  /** There are as many files as names. */
  lemma {:induction false} ListingCounts(names: seq<string>, files: Files)
    requires Lists(Name, names, files)
    ensures |files.Keys| == |names|
  {
    NoNames(Name, names, files);
    if names != [] {
      FrontIsFirst(names, files);
      NamesDiffer();
      var n := First(files.Keys);
      RestIsListed(Name, names, files, n);
      ListingCounts(names[1..], files - {n});
      assert (files - {n}).Keys == files.Keys - {n};
    }
  }

  class Directory {
    var named: map<string, W.Segment>
    // the same files by number, and everything ever appended to them
    ghost var files: Files
    ghost var history: seq<W.Record>
    ghost var places: seq<(nat, nat)>

    ghost predicate Valid()
      reads this
    {
      Holds(Name, named, files)
    }

    constructor ()
      ensures Valid() && files == map[] && history == [] && places == []
    {
      named, files, history, places := map[], map[], [], [];
    }
  }

  class Writer {
    const dir: Directory
    const config: W.Config
    var segmentIndex: nat
    var sequence: nat

    ghost function View(): State
      reads this, dir
    {
      State(dir.files, segmentIndex, sequence, config, dir.history, dir.places)
    }

    /** `__init__` after its checks of the configuration. */
    constructor (dir: Directory, config: W.Config)
      requires dir.Valid() && W.ConfigValid(config)
      ensures this.dir == dir && View() == Open(dir.files, config, dir.history, dir.places)
    {
      this.dir, this.config := dir, config;
      new;
      var paths := ListSegments();
      segmentIndex := DiscoverLastSegmentIndex(paths);
      sequence := DiscoverLastSequence(paths);
    }

    /** `sorted` over the directory: insert each name before the first later one. */
    method ListSegments() returns (names: seq<string>)
      requires dir.Valid()
      ensures Lists(Name, names, dir.files) && forall name :: name in names <==> name in dir.named
    {
      names := [];
      var left := dir.named.Keys;
      while left != {}
        invariant left <= dir.named.Keys && Sorted(names)
        invariant forall x :: x in names <==> x in dir.named.Keys - left
        decreases left
      {
        var name :| name in left;
        var i := 0;
        while i < |names| && Less(names[i], name)
          invariant 0 <= i <= |names|
          invariant forall j :: 0 <= j < i ==> Less(names[j], name)
        {
          i := i + 1;
        }
        InsertKeepsSorted(names, name, i);
        names := names[..i] + [name] + names[i..];
        left := left - {name};
      }
      NamesDiffer();
      NamedIsListed(Name, dir.named, dir.files, names);
    }

    method DiscoverLastSegmentIndex(paths: seq<string>) returns (index: int)
      requires dir.Valid() && Lists(Name, paths, dir.files)
      ensures index == Open(dir.files, config, dir.history, dir.places).index
    {
      NoNames(Name, paths, dir.files);
      if paths == [] {
        return 1;
      }
      EndIsLast(paths, dir.files);
      NameReadsBack(LastOf(dir.files.Keys));
      var parsed := ParseIndex(paths[|paths| - 1]);
      index := if parsed.Some? then parsed.value else |paths| + 1;
    }

    method DiscoverLastSequence(paths: seq<string>) returns (sequence: nat)
      requires dir.Valid() && Lists(Name, paths, dir.files)
      ensures sequence == Open(dir.files, config, dir.history, dir.places).sequence
    {
      NoNames(Name, paths, dir.files);
      if paths == [] {
        return 0;
      }
      EndIsLast(paths, dir.files);
      ghost var n := LastOf(dir.files.Keys);
      SameLines(Name, dir.named, dir.files, n);
      var lines := dir.named[paths[|paths| - 1]];
      assert lines == dir.files[n];
      if lines == [] {
        return 0;
      }
      sequence := lines[|lines| - 1].sequence;
    }

    method Append(fields: string, size: nat)
      requires dir.Valid()
      modifies this, dir
      ensures dir.Valid() && View() == AfterAppend(old(View()), fields, size)
    {
      ghost var s := View();
      RotateIfNeeded();
      sequence := sequence + 1;
      ghost var counted := View();
      assert counted == Rotate(s).(sequence := s.sequence + 1);
      WriteLine(W.Record(sequence, fields, size));
      CountingFirst(s, counted, W.Record(s.sequence + 1, fields, size));
    }

    /** An append whose event cannot be dumped: the file is opened, and that is all. */
    method AppendFailing()
      requires dir.Valid()
      modifies this, dir
      ensures dir.Valid() && View() == Step(old(View()), W.FailedAppend)
    {
      RotateIfNeeded();
      sequence := sequence + 1;
      OpenActive();
    }

    method SetLines(n: nat, lines: W.Segment)
      requires dir.Valid()
      modifies dir`named, dir`files
      ensures dir.Valid() && dir.files == old(dir.files)[n := lines]
    {
      NamesDiffer();
      SettingHolds(Name, dir.named, dir.files, n, lines);
      dir.named := dir.named[Name(n) := lines];
      dir.files := dir.files[n := lines];
    }

    /** Opening a file for appending creates it. */
    method OpenActive()
      requires dir.Valid()
      modifies dir`named, dir`files
      ensures dir.Valid() && View() == Touch(old(View())) && Name(segmentIndex) in dir.named
    {
      NamesDiffer();
      NotThere(Name, dir.named, dir.files, segmentIndex);
      if Name(segmentIndex) !in dir.named {
        SetLines(segmentIndex, []);
      }
    }

    method WriteLine(r: W.Record)
      requires dir.Valid()
      modifies dir
      ensures dir.Valid() && View() == Write(Touch(old(View())), r)
    {
      OpenActive();
      var lines := dir.named[Name(segmentIndex)] + [r];
      assert segmentIndex in dir.files && lines == dir.files[segmentIndex] + [r];
      SetLines(segmentIndex, lines);
      dir.history, dir.places := dir.history + [r], dir.places + [(segmentIndex, |lines|)];
    }

    method RotateIfNeeded()
      requires dir.Valid()
      modifies this`segmentIndex, dir`named, dir`files
      ensures dir.Valid() && View() == Rotate(old(View()))
    {
      NamesDiffer();
      NotThere(Name, dir.named, dir.files, segmentIndex);
      if Name(segmentIndex) !in dir.named {
        return;
      }
      var size := FileSize(dir.named[Name(segmentIndex)]);
      if size < config.maxBytes {
        return;
      }
      segmentIndex := segmentIndex + 1;
      CleanUpOldSegments();
    }

    method CleanUpOldSegments()
      requires dir.Valid()
      modifies dir`named, dir`files
      ensures dir.Valid() && dir.files == CleanUp(old(dir.files), config.maxSegments)
    {
      var paths := ListSegments();
      ListingCounts(paths, dir.files);
      ghost var files := dir.files;
      while |paths| > config.maxSegments
        invariant dir.Valid() && Lists(Name, paths, dir.files) && |dir.files.Keys| == |paths|
        invariant forall path :: path in paths <==> path in dir.named
        invariant CleanUp(dir.files, config.maxSegments) == CleanUp(files, config.maxSegments)
      {
        FrontIsFirst(paths, dir.files);
        NamesDiffer();
        RestIsListed(Name, paths, dir.files, First(dir.files.Keys));
        CleanUpOnce(dir.files, config.maxSegments);
        Unlink(paths[0]);
        paths := paths[1..];
      }
    }

    method Unlink(path: string)
      requires dir.Valid() && dir.files.Keys != {} && path == Name(First(dir.files.Keys))
      modifies dir`named, dir`files
      ensures dir.Valid() && dir.files == old(dir.files) - {First(old(dir.files.Keys))}
      ensures dir.named == old(dir.named) - {path}
    {
      NamesDiffer();
      RemovingHolds(Name, dir.named, dir.files, First(dir.files.Keys));
      dir.files := dir.files - {First(dir.files.Keys)};
      dir.named := dir.named - {path};
    }
  }

  lemma NamedIsListed(name: nat -> string, named: map<string, W.Segment>, files: Files, names: seq<string>)
    requires Injective(name) && Holds(name, named, files)
    requires Sorted(names) && forall path :: path in names <==> path in named
    ensures Lists(name, names, files)
  {
  }

  lemma CleanUpOnce(files: Files, maxSegments: nat)
    requires |files.Keys| > maxSegments
    ensures files.Keys != {} && CleanUp(files, maxSegments) == CleanUp(files - {First(files.Keys)}, maxSegments)
    ensures |(files - {First(files.Keys)}).Keys| == |files.Keys| - 1
  {
    assert (files - {First(files.Keys)}).Keys == files.Keys - {First(files.Keys)};
  }

  /** Counting before the file is opened makes no difference. */
  lemma CountingFirst(s: State, counted: State, r: W.Record)
    requires counted == Rotate(s).(sequence := s.sequence + 1) && r.sequence == s.sequence + 1
    ensures AfterAppend(s, r.fields, r.size) == Write(Touch(counted), r)
  {
  }

  method FileSize(lines: W.Segment) returns (size: nat)
    ensures size == W.Size(lines)
  {
    size := 0;
    for i := 0 to |lines|
      invariant size == W.Size(lines[..i])
    {
      assert lines[..i + 1][..i] == lines[..i];
      size := size + lines[i].size;
    }
    assert lines[..|lines|] == lines;
  }

  lemma InsertKeepsSorted(names: seq<string>, name: string, i: nat)
    requires Sorted(names) && i <= |names| && name !in names
    requires forall j :: 0 <= j < i ==> Less(names[j], name)
    requires i < |names| ==> !Less(names[i], name)
    ensures Sorted(names[..i] + [name] + names[i..])
    ensures forall x :: x in names[..i] + [name] + names[i..] <==> x in names || x == name
  {
    assert names == names[..i] + names[i..];
    forall j | i <= j < |names| ensures Less(name, names[j]) {
      LessTotal(name, names[i]);
      if i < j {
        LessTransitive(name, names[i], names[j]);
      }
    }
  }
}
