/** The ids that the tree of tests lists, and which of them survive being printed as a node id and parsed. */
module ListedIds {
  import opened Options
  import opened TestIds
  import opened TestTree

  /** All ids in the tree, those of files and classes included. */
  function AllIds(items: seq<TestItem>): set<TestId> {
    if items == [] then {} else AllIds(items[..|items| - 1]) + IdsAt(items[|items| - 1])
  }

  function IdsAt(item: TestItem): set<TestId> {
    {item.id} + AllIds(item.children)
  }

  /** What one node id contributes: its file, its class, and its test. */
  function IdsFrom(parts: seq<string>): set<TestId>
    requires parts != []
  {
    {FileItem(parts[0]).id} + Below(parts)
  }

  function Below(parts: seq<string>): set<TestId>
    requires parts != []
  {
    (if |parts| >= 3 then {ClassId(parts[0], parts[1])} else {}) + (if |parts| >= 2 then {FromParts(parts)} else {})
  }

  // ----- what is listed -----------------------------------------------------------------------------------

  lemma IdsMore(items: seq<TestItem>, item: TestItem)
    ensures AllIds(items + [item]) == AllIds(items) + IdsAt(item)
  {
    assert (items + [item])[..|items|] == items;
  }

  lemma {:induction false} IdsUpdate(items: seq<TestItem>, i: nat, item: TestItem, added: set<TestId>)
    requires i < |items| && IdsAt(item) == IdsAt(items[i]) + added
    ensures AllIds(items[i := item]) == AllIds(items) + added
  {
    var n := |items| - 1;
    if i < n {
      assert items[i := item][..n] == items[..n][i := item];
      IdsUpdate(items[..n], i, item, added);
    } else {
      assert items[i := item][..n] == items[..n];
    }
  }

  lemma OneItem(item: TestItem)
    ensures AllIds([item]) == IdsAt(item)
  {
    IdsMore([], item);
    assert [] + [item] == [item];
  }

  lemma {:induction false} IdIsListed(items: seq<TestItem>, i: nat)
    requires i < |items|
    ensures items[i].id in AllIds(items)
  {
    if i < |items| - 1 {
      IdIsListed(items[..|items| - 1], i);
    }
  }

  lemma AddingListsMore(children: seq<TestItem>, parts: seq<string>)
    requires parts != []
    ensures AllIds(AddTest(children, parts)) == AllIds(children) + Below(parts)
  {
    if |parts| == 2 {
      IdsMore(children, TestOf(parts));
    } else if |parts| >= 3 {
      var id := ClassId(parts[0], parts[1]);
      var i := IndexOf(children, id);
      if i == |children| {
        OneItem(TestOf(parts));
        IdsMore(children, TestItem(id, parts[1], [TestOf(parts)]));
      } else {
        IdsMore(children[i].children, TestOf(parts));
        IdIsListed(children, i);
        IdsUpdate(children, i, WithChild(children[i], TestOf(parts)), {FromParts(parts)});
      }
    }
  }

  lemma InsertingListsMore(tree: seq<TestItem>, nodeId: string)
    requires TreeValid(tree)
    ensures AllIds(Insert(tree, nodeId)) == AllIds(tree) + IdsFrom(Split(nodeId))
  {
    var parts := Split(nodeId);
    var i := FileIndex(tree, parts[0]);
    var files := if i == |tree| then tree + [FileItem(parts[0])] else tree;
    if i == |tree| {
      IdsMore(tree, FileItem(parts[0]));
    } else {
      IdIsListed(tree, i);
    }
    AddingListsMore(files[i].children, parts);
    IdsUpdate(files, i, files[i].(children := AddTest(files[i].children, parts)), Below(parts));
  }

  lemma BuiltListsMore(nodeIds: seq<string>, nodeId: string)
    ensures AllIds(Insert(Built(nodeIds), nodeId)) == AllIds(Built(nodeIds)) + IdsFrom(Split(nodeId))
  {
    BuiltIsValid(nodeIds);
    InsertingListsMore(Built(nodeIds), nodeId);
  }

  predicate Contributed(nodeIds: seq<string>, id: TestId) {
    exists i :: 0 <= i < |nodeIds| && Contributes(nodeIds[i], id)
  }

  predicate Contributes(nodeId: string, id: TestId) {
    id in IdsFrom(Split(nodeId))
  }

  lemma ContributedMore(nodeIds: seq<string>, nodeId: string, id: TestId)
    ensures Contributed(nodeIds + [nodeId], id) <==> Contributed(nodeIds, id) || Contributes(nodeId, id)
  {
    var all := nodeIds + [nodeId];
    assert all[|nodeIds|] == nodeId;
    if i :| 0 <= i < |nodeIds| && Contributes(nodeIds[i], id) {
      assert Contributes(all[i], id);
    }
  }

  lemma LastLists(nodeIds: seq<string>, id: TestId)
    requires nodeIds != []
    ensures id in AllIds(Built(nodeIds)) <==>
            id in AllIds(Built(nodeIds[..|nodeIds| - 1])) || Contributes(nodeIds[|nodeIds| - 1], id)
  {
    var init, last := nodeIds[..|nodeIds| - 1], nodeIds[|nodeIds| - 1];
    BuiltListsMore(init, last);
    assert Built(nodeIds) == Insert(Built(init), last);
  }

  lemma LastContributes(nodeIds: seq<string>, id: TestId)
    requires nodeIds != []
    ensures Contributed(nodeIds, id) <==>
            Contributed(nodeIds[..|nodeIds| - 1], id) || Contributes(nodeIds[|nodeIds| - 1], id)
  {
    ContributedMore(nodeIds[..|nodeIds| - 1], nodeIds[|nodeIds| - 1], id);
    assert nodeIds == nodeIds[..|nodeIds| - 1] + [nodeIds[|nodeIds| - 1]];
  }

  /** An id is listed exactly when some node id contributes it. */
  lemma {:induction false} ListedIff(nodeIds: seq<string>, id: TestId)
    ensures id in AllIds(Built(nodeIds)) <==> Contributed(nodeIds, id)
  {
    if nodeIds != [] {
      ListedIff(nodeIds[..|nodeIds| - 1], id);
      LastLists(nodeIds, id);
      LastContributes(nodeIds, id);
    }
  }

  // ----- round trips --------------------------------------------------------------------------------------

  predicate Named(id: TestId) {
    id.testName.Some? && id.testName.value != "" && (id.className.Some? ==> id.className.value != "")
  }

  /** A colon at the end of the path runs into the separator. */
  predicate EndsWithColon(s: string) {
    s != "" && s[|s| - 1] == ':'
  }

  lemma CleanAfter(file: string, rest: seq<string>)
    requires NoSeparator(file)
    ensures Clean([file] + rest) <==> rest == [] || (!EndsWithColon(file) && Clean(rest))
  {
    var parts := [file] + rest;
    assert forall k :: 0 <= k < |rest| ==> parts[k + 1] == rest[k];
    assert parts[0] == file;
    assert forall k :: 0 < k < |parts| ==> parts[k] == rest[k - 1];
  }

  /** The file of listed ids: printed as it is, and without the separator. */
  lemma FilePart(parts: seq<string>)
    requires parts != [] && Clean(parts)
    ensures IsNormal(Normal(parts[0])) && NoSeparator(Normal(parts[0]))
  {
    NormalIsNormal(parts[0]);
    NormalHasNoSeparator(parts[0]);
  }

  lemma FileRoundTrips(parts: seq<string>)
    requires parts != [] && Clean(parts)
    ensures Parse(Print(FileItem(parts[0]).id)) == FileItem(parts[0]).id
  {
    var id := FileItem(parts[0]).id;
    FilePart(parts);
    CleanAfter(id.file, []);
    assert PartsOf(id) == [id.file] + [];
    ParsePrintIff(id);
  }

  /** What the id of a class is parsed back as: a test of that name, or the file if the name is empty. */
  function ClassParsed(file: string, name: string): TestId {
    if name == "" then TestId(file, None, None, None)
    else TestId(file, None, Some(SplitVariant(name).0), SplitVariant(name).1)
  }

  lemma ClassNeverRoundTrips(id: TestId)
    requires id.className.Some? && id.testName.None?
    ensures Parse(Print(id)) != id
  {
    ParsePrintIff(id);
  }

  lemma ClassIsParsedAs(parts: seq<string>)
    requires |parts| >= 3 && Clean(parts)
    ensures var id := ClassId(parts[0], parts[1]);
            && Parse(Print(id)) != id
            && (!EndsWithColon(id.file) || parts[1] == "" ==> Parse(Print(id)) == ClassParsed(id.file, parts[1]))
  {
    var id := ClassId(parts[0], parts[1]);
    var rest := if parts[1] == "" then [] else [parts[1]];
    ClassNeverRoundTrips(id);
    FilePart(parts);
    NormalShrinks(id.file);
    CleanAfter(id.file, rest);
    assert PartsOf(id) == [id.file] + rest;
    if Clean(PartsOf(id)) {
      SplitJoin(PartsOf(id));
    }
  }

  lemma TestPartsAreClean(parts: seq<string>)
    requires |parts| >= 2 && Clean(parts) && Named(FromParts(parts))
    ensures Clean(PartsOf(FromParts(parts))) <==> !EndsWithColon(Normal(parts[0]))
  {
    var last := parts[|parts| - 1];
    var rest := if |parts| == 2 then [last] else [parts[1], last];
    SplitVariantJoins(last);
    PartsOfFrom(parts);
    assert PartsOf(FromParts(parts)) == [Normal(parts[0])] + rest;
    FilePart(parts);
    CleanAfter(Normal(parts[0]), rest);
    assert NoSeparator(last) && (|parts| > 2 ==> NoSeparator(parts[1]));
  }

  lemma TestRoundTripsIff(parts: seq<string>)
    requires |parts| >= 2 && Clean(parts)
    ensures Parse(Print(FromParts(parts))) == FromParts(parts) <==>
            Named(FromParts(parts)) && !EndsWithColon(FromParts(parts).file)
  {
    var id := FromParts(parts);
    ParsePrintIff(id);
    FilePart(parts);
    if Named(id) {
      TestPartsAreClean(parts);
    }
  }

  /** A file's id survives, a class's never does but is taken for a test or the file instead, and a test's
      survives exactly when its names are not empty and its path does not end with a colon. */
  predicate RoundTripsIff(id: TestId) {
    if id.testName.Some? then Parse(Print(id)) == id <==> Named(id) && !EndsWithColon(id.file)
    else if id.className.Some? then
      && Parse(Print(id)) != id
      && (!EndsWithColon(id.file) ==> Parse(Print(id)) == ClassParsed(id.file, id.className.value))
    else Parse(Print(id)) == id
  }

  lemma ContributedRoundTripsIff(parts: seq<string>, id: TestId)
    requires parts != [] && Clean(parts) && id in IdsFrom(parts)
    ensures RoundTripsIff(id)
  {
    if id == FileItem(parts[0]).id {
      FileRoundTrips(parts);
    } else if |parts| >= 3 && id == ClassId(parts[0], parts[1]) {
      ClassIsParsedAs(parts);
    } else {
      TestRoundTripsIff(parts);
    }
  }

  /** Every id that is listed does so. */
  lemma ListedRoundTripsIff(nodeIds: seq<string>, id: TestId)
    requires id in AllIds(Built(nodeIds))
    ensures RoundTripsIff(id)
  {
    ListedIff(nodeIds, id);
    var i :| 0 <= i < |nodeIds| && Contributes(nodeIds[i], id);
    SplitIsClean(nodeIds[i]);
    ContributedRoundTripsIff(Split(nodeIds[i]), id);
  }
}
