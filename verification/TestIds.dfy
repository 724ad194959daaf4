/** Unified test ids and pytest node ids. */
module TestIds {
  import opened Options

  /** `file` is the path of the file as it is printed below the project directory. */
  datatype TestId = TestId(file: string, className: Option<string>, testName: Option<string>, variant: Option<string>)

  // ----- splitting and joining --------------------------------------------------------------------------

  predicate SeparatorAt(s: string, i: nat) {
    i + 1 < |s| && s[i] == ':' && s[i + 1] == ':'
  }

  /** `s.find("::")`, or the length if there is none. */
  function FirstSeparator(s: string): (i: nat)
    ensures i <= |s| && (i < |s| ==> SeparatorAt(s, i))
    ensures forall j :: 0 <= j < i ==> !SeparatorAt(s, j)
  {
    if s == "" || SeparatorAt(s, 0) then 0
    else
      var i := 1 + FirstSeparator(s[1..]);
      assert forall j :: 0 < j < i ==> SeparatorAt(s, j) == SeparatorAt(s[1..], j - 1);
      i
  }

  /** `s.split("::")`. */
  function Split(s: string): (parts: seq<string>)
    ensures parts != []
    decreases |s|
  {
    var i := FirstSeparator(s);
    if i == |s| then [s] else [s[..i]] + Split(s[i + 2..])
  }

  /** `"::".join(parts)`. */
  function Join(parts: seq<string>): string {
    if parts == [] then ""
    else if |parts| == 1 then parts[0]
    else parts[0] + "::" + Join(parts[1..])
  }

  lemma {:induction false} JoinSplit(s: string)
    ensures Join(Split(s)) == s
    decreases |s|
  {
    var i := FirstSeparator(s);
    if i < |s| {
      JoinSplit(s[i + 2..]);
      assert Split(s)[1..] == Split(s[i + 2..]);
      assert s == s[..i] + "::" + s[i + 2..];
    }
  }

  predicate NoSeparator(s: string) {
    forall j :: 0 <= j < |s| ==> !SeparatorAt(s, j)
  }

  /** No part contains the separator, and none but the last ends with a colon. */
  predicate Clean(parts: seq<string>) {
    && (forall k :: 0 <= k < |parts| ==> NoSeparator(parts[k]))
    && (forall k :: 0 <= k < |parts| - 1 ==> parts[k] == "" || parts[k][|parts[k]| - 1] != ':')
  }

  lemma FirstSeparatorIs(s: string, i: nat)
    requires i <= |s| && (i < |s| ==> SeparatorAt(s, i)) && forall j :: 0 <= j < i ==> !SeparatorAt(s, j)
    ensures FirstSeparator(s) == i
  {
  }

  lemma FirstSeparatorAfter(a: string, rest: string)
    requires NoSeparator(a)
    ensures FirstSeparator(a + "::" + rest) == if a != "" && a[|a| - 1] == ':' then |a| - 1 else |a|
  {
    var s := a + "::" + rest;
    var i := if a != "" && a[|a| - 1] == ':' then |a| - 1 else |a|;
    forall j | 0 <= j < i ensures !SeparatorAt(s, j) {
      assert !SeparatorAt(a, j);
    }
    FirstSeparatorIs(s, i);
  }

  lemma {:induction false} SplitJoin(parts: seq<string>)
    requires parts != [] && Clean(parts)
    ensures Split(Join(parts)) == parts
  {
    if |parts| == 1 {
      FirstSeparatorIs(parts[0], |parts[0]|);
    } else {
      var s := Join(parts);
      FirstSeparatorAfter(parts[0], Join(parts[1..]));
      SplitJoin(parts[1..]);
      assert s[..|parts[0]|] == parts[0] && s[|parts[0]| + 2..] == Join(parts[1..]);
    }
  }

  lemma {:induction false} SplitIsClean(s: string)
    ensures Clean(Split(s))
    decreases |s|
  {
    var i := FirstSeparator(s);
    if i == |s| {
    } else {
      var a, rest := s[..i], Split(s[i + 2..]);
      SplitIsClean(s[i + 2..]);
      assert forall j :: 0 <= j < i ==> SeparatorAt(a, j) ==> SeparatorAt(s, j);
      if a != "" && a[i - 1] == ':' {
        assert SeparatorAt(s, i - 1);
      }
      assert Split(s) == [a] + rest;
    }
  }

  /** Joined parts split into themselves exactly when they are clean. */
  lemma SplitJoinIff(parts: seq<string>)
    requires parts != []
    ensures Split(Join(parts)) == parts <==> Clean(parts)
  {
    if Clean(parts) {
      SplitJoin(parts);
    }
    SplitIsClean(Join(parts));
  }

  // ----- paths ------------------------------------------------------------------------------------------

  function FirstSlash(s: string): (i: nat)
    ensures i <= |s| && (i < |s| ==> s[i] == '/')
    ensures forall j :: 0 <= j < i ==> s[j] != '/'
  {
    if s == "" || s[0] == '/' then 0 else 1 + FirstSlash(s[1..])
  }

  predicate IsKept(segment: string) {
    segment != "" && segment != "."
  }

  function Kept(segment: string): seq<string> {
    if IsKept(segment) then [segment] else []
  }

  /** The segments of a path: empty ones and single dots are dropped. */
  function Segments(s: string): seq<string>
    decreases |s|
  {
    var i := FirstSlash(s);
    if i == |s| then Kept(s) else Kept(s[..i]) + Segments(s[i + 1..])
  }

  function Path(segments: seq<string>): string {
    if segments == [] then ""
    else if |segments| == 1 then segments[0]
    else segments[0] + "/" + Path(segments[1..])
  }

  predicate IsAbsolute(s: string) {
    s != "" && s[0] == '/'
  }

  /** What is printed for a path that was written as `s`. */
  function Normal(s: string): string {
    var path := Path(Segments(s));
    if IsAbsolute(s) then "/" + path else if path == "" then "." else path
  }

  /** Nothing between the slashes is dropped. */
  predicate Neat(s: string)
    decreases |s|
  {
    var i := FirstSlash(s);
    if i == |s| then IsKept(s) else IsKept(s[..i]) && Neat(s[i + 1..])
  }

  predicate IsNormal(s: string) {
    if IsAbsolute(s) then s == "/" || Neat(s[1..]) else s == "." || Neat(s)
  }

  lemma CutAround<T>(s: seq<T>, i: nat)
    requires i < |s|
    ensures s == s[..i] + [s[i]] + s[i + 1..]
  {
  }

  lemma CutAtSlash(s: string)
    requires FirstSlash(s) < |s|
    ensures s == s[..FirstSlash(s)] + "/" + s[FirstSlash(s) + 1..]
  {
    CutAround(s, FirstSlash(s));
    assert [s[FirstSlash(s)]] == "/";
  }

  lemma PathMore(a: string, segments: seq<string>)
    ensures Path([a] + segments) == if segments == [] then a else a + "/" + Path(segments)
  {
    assert ([a] + segments)[1..] == segments;
  }

  /** Printing drops characters, or leaves the text as it is. */
  lemma {:induction false} PathShrinks(s: string)
    ensures |Path(Segments(s))| <= |s|
    ensures |Path(Segments(s))| == |s| ==> Path(Segments(s)) == s
    ensures |Path(Segments(s))| == |s| <==> s == "" || Neat(s)
    ensures Segments(s) == [] <==> Path(Segments(s)) == ""
    decreases |s|
  {
    var i := FirstSlash(s);
    if i < |s| {
      var a, rest := s[..i], s[i + 1..];
      PathShrinks(rest);
      PathMore(a, Segments(rest));
      CutAtSlash(s);
      if IsKept(a) {
        KeptShrinks(s, a, rest);
      } else {
        assert [] + Segments(rest) == Segments(rest);
      }
    }
  }

  lemma KeptShrinks(s: string, a: string, rest: string)
    requires s == a + "/" + rest && a != ""
    requires var p := Path(Segments(rest));
             && |p| <= |rest| && (|p| == |rest| <==> rest == "" || Neat(rest)) && (|p| == |rest| ==> p == rest)
             && (Segments(rest) == [] <==> p == "")
    ensures var p := Path([a] + Segments(rest));
            p != "" && |p| <= |s| && (|p| == |s| <==> Neat(rest)) && (|p| == |s| ==> p == s)
  {
    PathMore(a, Segments(rest));
    EmptyIsNotNeat();
  }

  lemma EmptyIsNotNeat()
    ensures !Neat("")
  {
  }

  lemma AbsoluteSegments(s: string)
    requires IsAbsolute(s)
    ensures Segments(s) == Segments(s[1..])
  {
    assert FirstSlash(s) == 0 && s[..0] == "";
  }

  lemma NormalShrinks(s: string)
    ensures IsNormal(s) <==> Normal(s) == s
    ensures s != "" && !IsNormal(s) ==> |Normal(s)| < |s|
  {
    PathShrinks(s);
    if IsAbsolute(s) {
      AbsoluteSegments(s);
      PathShrinks(s[1..]);
      assert s == "/" + s[1..];
    } else if |s| == 1 {
      assert s == "." || IsKept(s);
      assert FirstSlash(s) == 1;
    }
  }

  predicate IsSegment(s: string) {
    IsKept(s) && '/' !in s
  }

  predicate AreSegments(segments: seq<string>) {
    forall k :: 0 <= k < |segments| ==> IsSegment(segments[k])
  }

  lemma FirstSlashAfter(a: string, b: string)
    requires '/' !in a
    ensures FirstSlash(a) == |a| && FirstSlash(a + "/" + b) == |a|
  {
    var s := a + "/" + b;
    assert forall j :: 0 <= j < |a| ==> s[j] == a[j];
    assert s[|a|] == '/';
  }

  lemma {:induction false} PathIsNeat(segments: seq<string>)
    requires AreSegments(segments) && segments != []
    ensures Neat(Path(segments)) && !IsAbsolute(Path(segments))
  {
    var a := segments[0];
    FirstSlashAfter(a, Path(segments[1..]));
    if |segments| > 1 {
      PathIsNeat(segments[1..]);
      var s := Path(segments);
      assert s[..|a|] == a && s[|a| + 1..] == Path(segments[1..]);
    } else {
      assert a[..|a|] == a;
    }
  }

  predicate NoSeparators(segments: seq<string>) {
    forall k :: 0 <= k < |segments| ==> NoSeparator(segments[k])
  }

  lemma SliceHasNoSeparator(s: string, a: nat, b: nat)
    requires NoSeparator(s) && a <= b <= |s|
    ensures NoSeparator(s[a..b])
  {
    assert forall j :: 0 <= j < b - a ==> SeparatorAt(s[a..b], j) ==> SeparatorAt(s, a + j);
  }

  lemma {:induction false} SegmentsAre(s: string)
    ensures AreSegments(Segments(s)) && (NoSeparator(s) ==> NoSeparators(Segments(s)))
    decreases |s|
  {
    var i := FirstSlash(s);
    if i < |s| {
      SegmentsAre(s[i + 1..]);
      if NoSeparator(s) {
        SliceHasNoSeparator(s, 0, i);
        SliceHasNoSeparator(s, i + 1, |s|);
        assert s[0..i] == s[..i] && s[i + 1..|s|] == s[i + 1..];
      }
    }
  }

  /** What is printed is printed again as it is. */
  lemma NormalIsNormal(s: string)
    ensures IsNormal(Normal(s))
  {
    SegmentsAre(s);
    PathShrinks(s);
    if Segments(s) != [] {
      PathIsNeat(Segments(s));
      assert IsAbsolute(s) ==> Normal(s)[1..] == Path(Segments(s));
    }
  }

  lemma {:induction false} PathHasNoSeparator(segments: seq<string>)
    requires NoSeparators(segments)
    ensures NoSeparator(Path(segments))
  {
    if |segments| > 1 {
      PathHasNoSeparator(segments[1..]);
      SlashKeepsApart(segments[0], Path(segments[1..]));
    }
  }

  lemma SlashKeepsApart(a: string, b: string)
    requires NoSeparator(a) && NoSeparator(b)
    ensures NoSeparator(a + "/" + b)
  {
    var s := a + "/" + b;
    forall j | 0 <= j < |s| ensures !SeparatorAt(s, j) {
      assert j < |a| ==> !SeparatorAt(a, j);
      assert j > |a| ==> !SeparatorAt(b, j - |a| - 1);
    }
  }

  lemma NormalHasNoSeparator(s: string)
    requires NoSeparator(s)
    ensures NoSeparator(Normal(s))
  {
    SegmentsAre(s);
    PathHasNoSeparator(Segments(s));
    SlashKeepsApart("", Path(Segments(s)));
    assert "" + "/" + Path(Segments(s)) == "/" + Path(Segments(s));
  }

  // ----- the printer and the parser -----------------------------------------------------------------------

  /** `name.find("[")`, or the length if there is none. */
  function BracketAt(name: string): (i: nat)
    ensures i <= |name| && (i < |name| ==> name[i] == '[')
    ensures forall j :: 0 <= j < i ==> name[j] != '['
  {
    if name == "" || name[0] == '[' then 0 else 1 + BracketAt(name[1..])
  }

  function SplitVariant(name: string): (string, Option<string>) {
    var i := BracketAt(name);
    if i == |name| then (name, None) else (name[..i], Some(name[i..]))
  }

  /** `_parse_nodeid` below the project directory. */
  function Parse(nodeId: string): TestId {
    FromParts(Split(nodeId))
  }

  function FromParts(parts: seq<string>): TestId
    requires parts != []
  {
    if |parts| == 1 then TestId(Normal(parts[0]), None, None, None)
    else
      var (name, variant) := SplitVariant(parts[|parts| - 1]);
      TestId(Normal(parts[0]), if |parts| == 2 then None else Some(parts[1]), Some(name), variant)
  }

  /** Python's truth of an optional string. */
  predicate Truthy(s: Option<string>) {
    s.Some? && s.value != ""
  }

  function PartsOf(t: TestId): (parts: seq<string>)
    ensures parts != []
  {
    [t.file]
    + (if Truthy(t.className) then [t.className.value] else [])
    + (if Truthy(t.testName) then [t.testName.value + (if Truthy(t.variant) then t.variant.value else "")] else [])
  }

  /** `_test_id_to_node_id`. */
  function Print(t: TestId): string {
    Join(PartsOf(t))
  }

  lemma {:induction false} BracketAfter(a: string, b: string)
    requires '[' !in a && (b == "" || b[0] == '[')
    ensures BracketAt(a + b) == |a|
  {
    if a != "" {
      assert (a + b)[1..] == a[1..] + b;
      BracketAfter(a[1..], b);
    }
  }

  /** What a test id needs to survive: its path is one that is printed as it is, members that are there are
      not empty, a class has a test, the test's name has no bracket, a variant has a test and starts with
      one, and the parts are clean. */
  predicate Printable(t: TestId) {
    && IsNormal(t.file)
    && (t.className.Some? ==> t.className.value != "" && t.testName.Some?)
    && (t.testName.Some? ==> t.testName.value != "" && '[' !in t.testName.value)
    && (t.variant.Some? ==> t.testName.Some? && t.variant.value != "" && t.variant.value[0] == '[')
    && Clean(PartsOf(t))
  }

  lemma SplitVariantIff(name: string, variant: Option<string>)
    requires name != ""
    ensures SplitVariant(name + (if Truthy(variant) then variant.value else "")) == (name, variant) <==>
            '[' !in name && (variant.Some? ==> variant.value != "" && variant.value[0] == '[')
  {
    var v := if Truthy(variant) then variant.value else "";
    var i := BracketAt(name + v);
    if '[' !in name && (v == "" || v[0] == '[') {
      BracketAfter(name, v);
      assert name + "" == name;
      assert (name + v)[..|name|] == name && (name + v)[|name|..] == v;
    } else if '[' in name {
      var j :| 0 <= j < |name| && name[j] == '[';
      assert (name + v)[j] == '[';
    }
  }

  lemma FromPartsIff(t: TestId)
    ensures FromParts(PartsOf(t)) == t <==>
            && IsNormal(t.file)
            && (t.className.Some? ==> t.className.value != "" && t.testName.Some?)
            && (t.testName.Some? ==> t.testName.value != "" && '[' !in t.testName.value)
            && (t.variant.Some? ==> t.testName.Some? && t.variant.value != "" && t.variant.value[0] == '[')
  {
    NormalShrinks(t.file);
    if Truthy(t.testName) {
      SplitVariantIff(t.testName.value, t.variant);
    }
  }

  // ----- printing what was parsed -------------------------------------------------------------------------

  /** At most a file, a class and a test, with names that are not empty. */
  predicate Regular(parts: seq<string>) {
    || |parts| == 1
    || (2 <= |parts| <= 3 && (|parts| == 3 ==> parts[1] != "") &&
        parts[|parts| - 1] != "" && parts[|parts| - 1][0] != '[')
  }

  lemma SplitVariantJoins(name: string)
    ensures var (n, v) := SplitVariant(name); n + (if Truthy(v) then v.value else "") == name
    ensures SplitVariant(name).0 == "" <==> name == "" || name[0] == '['
  {
  }

  lemma {:induction false} JoinIsLong(parts: seq<string>)
    requires |parts| >= 2
    ensures |Join(parts)| >= |parts[0]| + 2 + |parts[|parts| - 1]|
  {
    if |parts| > 2 {
      JoinIsLong(parts[1..]);
    } else {
      assert Join(parts[1..]) == parts[1];
    }
  }

  lemma JoinBegins(parts: seq<string>)
    requires parts != []
    ensures |parts| == 1 ==> Join(parts) == parts[0]
    ensures |parts| > 1 ==> Join(parts) == parts[0] + "::" + Join(parts[1..])
  {
  }

  /** A last part prints as it was written, or not at all. */
  function LastPrinted(part: string): seq<string> {
    if part == "" || part[0] == '[' then [] else [part]
  }

  lemma PartsOfFrom(parts: seq<string>)
    requires parts != []
    ensures PartsOf(FromParts(parts)) ==
            [Normal(parts[0])]
            + (if |parts| >= 3 && parts[1] != "" then [parts[1]] else [])
            + (if |parts| >= 2 then LastPrinted(parts[|parts| - 1]) else [])
  {
    SplitVariantJoins(parts[|parts| - 1]);
  }

  /** At least four parts: what is between the second and the last is left out. */
  lemma ManyPartsAreLonger(parts: seq<string>)
    requires |parts| >= 4
    ensures |Join(parts)| >= |parts[0]| + 6 + |parts[1]| + |parts[|parts| - 1]|
  {
    JoinBegins(parts);
    JoinBegins(parts[1..]);
    assert parts[1..][1..] == parts[2..];
    JoinIsLong(parts[2..]);
  }

  lemma JoinOfThree(a: string, b: seq<string>, c: seq<string>)
    requires |b| <= 1 && |c| <= 1
    ensures |Join([a] + b + c)| == |a| + (if b == [] then 0 else 2 + |b[0]|) + (if c == [] then 0 else 2 + |c[0]|)
  {
    var ps := [a] + b + c;
    JoinBegins(ps);
    if |ps| > 1 {
      assert ps[1..] == b + c;
      JoinBegins(b + c);
      if |ps| > 2 {
        assert (b + c)[1..] == c;
        JoinBegins(c);
      }
    }
  }

  /** Printing what the parts were parsed to leaves something out behind the file unless they are regular. */
  lemma PartsOfParsed(parts: seq<string>)
    requires parts != []
    ensures PartsOf(FromParts(parts))[0] == Normal(parts[0])
    ensures Regular(parts) ==> PartsOf(FromParts(parts)) == [Normal(parts[0])] + parts[1..]
    ensures !Regular(parts) ==>
              |Join(PartsOf(FromParts(parts)))| - |Normal(parts[0])| < |Join(parts)| - |parts[0]|
  {
    PartsOfFrom(parts);
    if Regular(parts) {
      assert |parts| == 2 ==> parts[1..] == [parts[1]];
      assert |parts| == 3 ==> parts[1..] == [parts[1], parts[2]];
    } else {
      var last := parts[|parts| - 1];
      var b := if |parts| >= 3 && parts[1] != "" then [parts[1]] else [];
      JoinOfThree(Normal(parts[0]), b, LastPrinted(last));
      ShortPartsAreLonger(parts);
      if |parts| >= 4 {
        ManyPartsAreLonger(parts);
      }
    }
  }

  lemma ShortPartsAreLonger(parts: seq<string>)
    requires parts != []
    ensures |parts| == 2 ==> |Join(parts)| == |parts[0]| + 2 + |parts[1]|
    ensures |parts| == 3 ==> |Join(parts)| == |parts[0]| + 2 + |parts[1]| + 2 + |parts[2]|
  {
    if |parts| == 2 {
      JoinOfThree(parts[0], [parts[1]], []);
      assert parts == [parts[0]] + [parts[1]] + [];
    } else if |parts| == 3 {
      JoinOfThree(parts[0], [parts[1]], [parts[2]]);
      assert parts == [parts[0]] + [parts[1]] + [parts[2]];
    }
  }

  lemma OtherFileIsOtherText(parts: seq<string>, ps: seq<string>)
    requires parts != [] && ps != [] && ps[0] == Normal(parts[0]) && parts[0] == ""
    ensures Join(ps) != Join(parts)
  {
    JoinBegins(parts);
    JoinBegins(ps);
    assert Segments("") == [] && Normal("") == ".";
    assert Join(ps)[0] == '.';
  }

  /** Printing a parsed node id gives it back exactly when its parts are regular and its path is normal. */
  lemma PrintParseIff(nodeId: string)
    ensures Print(Parse(nodeId)) == nodeId <==> Regular(Split(nodeId)) && IsNormal(Split(nodeId)[0])
  {
    var parts := Split(nodeId);
    var ps := PartsOf(FromParts(parts));
    JoinSplit(nodeId);
    PartsOfParsed(parts);
    NormalShrinks(parts[0]);
    if parts[0] == "" {
      OtherFileIsOtherText(parts, ps);
    } else if Regular(parts) {
      JoinBegins(parts);
      JoinBegins(ps);
      assert IsNormal(parts[0]) ==> ps == parts;
    }
  }

  /** Parsing a printed id gives it back exactly when it is printable. */
  lemma ParsePrintIff(t: TestId)
    ensures Parse(Print(t)) == t <==> Printable(t)
  {
    FromPartsIff(t);
    SplitJoinIff(PartsOf(t));
    var parts := Split(Print(t));
    if Parse(Print(t)) == t {
      PrintParseIff(Print(t));
      PartsOfParsed(parts);
      NormalShrinks(parts[0]);
    }
  }
}
