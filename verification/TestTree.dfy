/** The tree of tests built from pytest's node ids. */
module TestTree {
  import opened Options
  import opened TestIds

  /** `display` is the display name. */
  datatype TestItem = TestItem(id: TestId, display: string, children: seq<TestItem>)

  // ----- building the tree --------------------------------------------------------------------------------

  /** The node of a file, as the node ids write it. */
  function FileItem(file: string): TestItem {
    TestItem(TestId(Normal(file), None, None, None), file, [])
  }

  function ClassId(file: string, name: string): TestId {
    TestId(Normal(file), Some(name), None, None)
  }

  /** The node of a file: the dictionary goes by what the node ids write. */
  function FileIndex(tree: seq<TestItem>, file: string): (i: nat)
    ensures i <= |tree| && (i < |tree| ==> tree[i].display == file)
    ensures forall j :: 0 <= j < i ==> tree[j].display != file
  {
    if tree == [] || tree[0].display == file then 0 else 1 + FileIndex(tree[1..], file)
  }

  /** The first item of the list that has the id. */
  function IndexOf(items: seq<TestItem>, id: TestId): (i: nat)
    ensures i <= |items| && (i < |items| ==> items[i].id == id)
    ensures forall j :: 0 <= j < i ==> items[j].id != id
  {
    if items == [] || items[0].id == id then 0 else 1 + IndexOf(items[1..], id)
  }

  function WithChild(item: TestItem, child: TestItem): TestItem {
    item.(children := item.children + [child])
  }

  function TestOf(parts: seq<string>): TestItem
    requires |parts| >= 2
  {
    TestItem(FromParts(parts), if |parts| == 2 then parts[1] else Join(parts[2..]), [])
  }

  /** The children of a file after one more node id of it. */
  function AddTest(children: seq<TestItem>, parts: seq<string>): seq<TestItem>
    requires parts != []
  {
    if |parts| == 1 then children
    else if |parts| == 2 then children + [TestOf(parts)]
    else
      var id := ClassId(parts[0], parts[1]);
      var i := IndexOf(children, id);
      if i == |children| then children + [TestItem(id, parts[1], [TestOf(parts)])]
      else children[i := WithChild(children[i], TestOf(parts))]
  }

  function Insert(tree: seq<TestItem>, nodeId: string): seq<TestItem> {
    var parts := Split(nodeId);
    var i := FileIndex(tree, parts[0]);
    var files := if i == |tree| then tree + [FileItem(parts[0])] else tree;
    files[i := files[i].(children := AddTest(files[i].children, parts))]
  }

  function Built(nodeIds: seq<string>): seq<TestItem> {
    if nodeIds == [] then [] else Insert(Built(nodeIds[..|nodeIds| - 1]), nodeIds[|nodeIds| - 1])
  }

  // ----- what is in the tree -------------------------------------------------------------------------------

  predicate IsTest(item: TestItem) {
    item.id.testName.Some?
  }

  function IdsOf(items: seq<TestItem>): seq<TestId> {
    seq(|items|, i requires 0 <= i < |items| => items[i].id)
  }

  /** The ids of the tests right below a file, without those in classes. */
  function OwnTests(children: seq<TestItem>): seq<TestId> {
    if children == [] then []
    else OwnTests(children[..|children| - 1]) +
         (if IsTest(children[|children| - 1]) then [children[|children| - 1].id] else [])
  }

  /** The tests of a file, or of a class of it. */
  function TestsAt(tree: seq<TestItem>, file: string, className: Option<string>): seq<TestId> {
    var i := FileIndex(tree, file);
    if i == |tree| then [] else TestsBelow(tree[i].children, file, className)
  }

  function TestsBelow(children: seq<TestItem>, file: string, className: Option<string>): seq<TestId> {
    if className.None? then OwnTests(children)
    else
      var i := IndexOf(children, ClassId(file, className.value));
      if i == |children| then [] else IdsOf(children[i].children)
  }

  predicate Belongs(parts: seq<string>, file: string, className: Option<string>)
    requires parts != []
  {
    |parts| >= 2 && parts[0] == file && className == (if |parts| == 2 then None else Some(parts[1]))
  }

  /** The test ids that the runner makes of the node ids of a file, or of a class of it, in input order. */
  function Parsed(nodeIds: seq<string>, file: string, className: Option<string>): seq<TestId> {
    if nodeIds == [] then []
    else
      Parsed(nodeIds[..|nodeIds| - 1], file, className) +
      (if Belongs(Split(nodeIds[|nodeIds| - 1]), file, className) then [Parse(nodeIds[|nodeIds| - 1])] else [])
  }

  // ----- the shape of the tree ------------------------------------------------------------------------------

  predicate DistinctIds(items: seq<TestItem>) {
    forall i, j :: 0 <= i < j < |items| && !IsTest(items[i]) && !IsTest(items[j]) ==> items[i].id != items[j].id
  }

  predicate EndsWith(s: string, end: string) {
    |end| <= |s| && s[|s| - |end|..] == end
  }

  /** What a test is called: its name and its variant. */
  function Label(id: TestId): string
    requires id.testName.Some?
  {
    id.testName.value + (if id.variant.Some? then id.variant.value else "")
  }

  /** A test in its place: it has the file and the class that it is listed under, and is shown by its label, if need be
      after the classes between its own and the test. */
  predicate LeafValid(file: string, className: Option<string>, item: TestItem) {
    && IsTest(item) && item.children == []
    && item.id.file == Normal(file) && item.id.className == className
    && (if className.None? then item.display == Label(item.id) else EndsWith(item.display, Label(item.id)))
  }

  /** A child of a file is a test, or the one node of its class. */
  predicate ChildValid(file: string, item: TestItem) {
    LeafValid(file, None, item) ||
    (item.id == ClassId(file, item.display) &&
     forall i :: 0 <= i < |item.children| ==> LeafValid(file, Some(item.display), item.children[i]))
  }

  predicate ChildrenValid(file: string, children: seq<TestItem>) {
    DistinctIds(children) && forall i :: 0 <= i < |children| ==> ChildValid(file, children[i])
  }

  predicate FileValid(item: TestItem) {
    item.id == FileItem(item.display).id && ChildrenValid(item.display, item.children)
  }

  predicate DistinctFiles(tree: seq<TestItem>) {
    forall i, j :: 0 <= i < j < |tree| ==> tree[i].display != tree[j].display
  }

  predicate TreeValid(tree: seq<TestItem>) {
    DistinctFiles(tree) && forall i :: 0 <= i < |tree| ==> FileValid(tree[i])
  }

  lemma {:induction false} JoinEnds(parts: seq<string>)
    requires parts != []
    ensures EndsWith(Join(parts), parts[|parts| - 1])
  {
    if |parts| > 1 {
      JoinEnds(parts[1..]);
      var s, rest, last := Join(parts), Join(parts[1..]), parts[|parts| - 1];
      assert s[|s| - |rest|..] == rest && s[|s| - |last|..] == rest[|rest| - |last|..];
    }
  }

  lemma TestIsInPlace(parts: seq<string>)
    requires |parts| >= 2
    ensures LeafValid(parts[0], if |parts| == 2 then None else Some(parts[1]), TestOf(parts))
  {
    SplitVariantJoins(parts[|parts| - 1]);
    if |parts| > 2 {
      JoinEnds(parts[2..]);
    }
  }

  lemma AppendingKeepsValid(file: string, children: seq<TestItem>, child: TestItem)
    requires ChildrenValid(file, children) && ChildValid(file, child)
    requires IsTest(child) || forall i :: 0 <= i < |children| ==> children[i].id != child.id
    ensures ChildrenValid(file, children + [child])
  {
  }

  lemma ReplacingKeepsValid(file: string, children: seq<TestItem>, i: nat, child: TestItem)
    requires ChildrenValid(file, children) && i < |children| && child.id == children[i].id && ChildValid(file, child)
    ensures ChildrenValid(file, children[i := child])
  {
  }

  lemma GrowingClassIsValid(file: string, item: TestItem, test: TestItem)
    requires ChildValid(file, item) && !IsTest(item) && LeafValid(file, Some(item.display), test)
    ensures ChildValid(file, WithChild(item, test))
  {
  }

  lemma AddingToClassKeeps(file: string, children: seq<TestItem>, parts: seq<string>)
    requires |parts| >= 3 && parts[0] == file && LeafValid(file, Some(parts[1]), TestOf(parts))
    requires ChildrenValid(file, children)
    ensures ChildrenValid(file, AddTest(children, parts))
  {
    var id := ClassId(file, parts[1]);
    var i := IndexOf(children, id);
    if i == |children| {
      AppendingKeepsValid(file, children, TestItem(id, parts[1], [TestOf(parts)]));
    } else {
      assert ChildValid(file, children[i]) && children[i].display == parts[1];
      GrowingClassIsValid(file, children[i], TestOf(parts));
      ReplacingKeepsValid(file, children, i, WithChild(children[i], TestOf(parts)));
    }
  }

  lemma AddingKeepsChildren(file: TestItem, parts: seq<string>)
    requires FileValid(file) && parts != [] && parts[0] == file.display
    ensures FileValid(file.(children := AddTest(file.children, parts)))
  {
    if |parts| >= 2 {
      TestIsInPlace(parts);
      if |parts| >= 3 {
        AddingToClassKeeps(file.display, file.children, parts);
      } else {
        AppendingKeepsValid(file.display, file.children, TestOf(parts));
      }
    }
  }

  lemma InsertingKeepsTree(tree: seq<TestItem>, nodeId: string)
    requires TreeValid(tree)
    ensures TreeValid(Insert(tree, nodeId))
  {
    var parts := Split(nodeId);
    var i := FileIndex(tree, parts[0]);
    var files := if i == |tree| then tree + [FileItem(parts[0])] else tree;
    AddingKeepsChildren(files[i], parts);
  }

  /** One node per file as it is written, and one per class in each. */
  lemma {:induction false} BuiltIsValid(nodeIds: seq<string>)
    ensures TreeValid(Built(nodeIds))
  {
    if nodeIds != [] {
      BuiltIsValid(nodeIds[..|nodeIds| - 1]);
      InsertingKeepsTree(Built(nodeIds[..|nodeIds| - 1]), nodeIds[|nodeIds| - 1]);
    }
  }

  /** Two files are listed apart though their ids are the same exactly when they write one path differently. */
  lemma SameIdIff(nodeIds: seq<string>, i: nat, j: nat)
    requires i < |Built(nodeIds)| && j < |Built(nodeIds)|
    ensures Built(nodeIds)[i].id == Built(nodeIds)[j].id <==>
            Normal(Built(nodeIds)[i].display) == Normal(Built(nodeIds)[j].display)
    ensures i != j ==> Built(nodeIds)[i].display != Built(nodeIds)[j].display
  {
    BuiltIsValid(nodeIds);
  }

  // ----- order ----------------------------------------------------------------------------------------------

  lemma IndexIs(items: seq<TestItem>, id: TestId, i: nat)
    requires i <= |items| && (i < |items| ==> items[i].id == id) && forall j :: 0 <= j < i ==> items[j].id != id
    ensures IndexOf(items, id) == i
  {
  }

  lemma FileIndexIs(tree: seq<TestItem>, file: string, i: nat)
    requires i <= |tree| && (i < |tree| ==> tree[i].display == file)
    requires forall j :: 0 <= j < i ==> tree[j].display != file
    ensures FileIndex(tree, file) == i
  {
  }

  lemma OwnTestsMore(children: seq<TestItem>, child: TestItem)
    ensures OwnTests(children + [child]) == OwnTests(children) + (if IsTest(child) then [child.id] else [])
  {
    assert (children + [child])[..|children|] == children;
  }

  lemma {:induction false} OwnTestsUpdate(children: seq<TestItem>, i: nat, child: TestItem)
    requires i < |children| && !IsTest(children[i]) && !IsTest(child)
    ensures OwnTests(children[i := child]) == OwnTests(children)
  {
    var n := |children| - 1;
    if i < n {
      assert children[i := child][..n] == children[..n][i := child];
      OwnTestsUpdate(children[..n], i, child);
    } else {
      assert children[i := child][..n] == children[..n];
    }
  }

  lemma AddingAppends(file: string, children: seq<TestItem>, parts: seq<string>, className: Option<string>)
    requires parts != [] && parts[0] == file
    ensures TestsBelow(AddTest(children, parts), file, className) ==
            TestsBelow(children, file, className) + (if Belongs(parts, file, className) then [FromParts(parts)] else [])
  {
    if |parts| == 2 {
      OwnTestsMore(children, TestOf(parts));
      if className.Some? {
        var id := ClassId(file, className.value);
        var i := IndexOf(children, id);
        IndexIs(children + [TestOf(parts)], id, if i < |children| then i else |children| + 1);
      }
    } else if |parts| >= 3 {
      AddingToClassAppends(file, children, parts, className);
    }
  }

  lemma AddingToClassKeepsOwn(children: seq<TestItem>, parts: seq<string>)
    requires |parts| >= 3
    ensures OwnTests(AddTest(children, parts)) == OwnTests(children)
  {
    var k, children' := IndexOf(children, ClassId(parts[0], parts[1])), AddTest(children, parts);
    if k == |children| {
      OwnTestsMore(children, children'[k]);
    } else {
      OwnTestsUpdate(children, k, children'[k]);
    }
  }

  /** Where a class is after adding to the class `mine`. */
  lemma ClassIndexAfter(children: seq<TestItem>, parts: seq<string>, id: TestId)
    requires |parts| >= 3
    ensures var i, children' := IndexOf(children, id), AddTest(children, parts);
            IndexOf(children', id) == if i < |children| || id == ClassId(parts[0], parts[1]) then i else |children'|
  {
    var i, children' := IndexOf(children, id), AddTest(children, parts);
    assert forall j :: 0 <= j < |children| ==> children'[j].id == children[j].id;
    IndexIs(children', id, if i < |children| || id == ClassId(parts[0], parts[1]) then i else |children'|);
  }

  lemma AddedIsLast(items: seq<TestItem>, item: TestItem)
    ensures IdsOf(items + [item]) == IdsOf(items) + [item.id]
    ensures items == [] ==> IdsOf([item]) == [item.id]
  {
  }

  lemma AddingToClassAppends(file: string, children: seq<TestItem>, parts: seq<string>, className: Option<string>)
    requires |parts| >= 3 && parts[0] == file
    ensures TestsBelow(AddTest(children, parts), file, className) ==
            TestsBelow(children, file, className) + (if className == Some(parts[1]) then [FromParts(parts)] else [])
  {
    if className.None? {
      AddingToClassKeepsOwn(children, parts);
    } else {
      var id := ClassId(file, className.value);
      var i := IndexOf(children, id);
      ClassIndexAfter(children, parts, id);
      if className.value == parts[1] {
        AddedIsLast(if i < |children| then children[i].children else [], TestOf(parts));
      }
    }
  }

  lemma InsertingAppends(tree: seq<TestItem>, nodeId: string, file: string, className: Option<string>)
    ensures TestsAt(Insert(tree, nodeId), file, className) ==
            TestsAt(tree, file, className) + (if Belongs(Split(nodeId), file, className) then [Parse(nodeId)] else [])
  {
    var parts, tree' := Split(nodeId), Insert(tree, nodeId);
    var i, k := FileIndex(tree, parts[0]), FileIndex(tree, file);
    assert forall j :: 0 <= j < |tree| ==> tree'[j].display == tree[j].display;
    if parts[0] == file {
      FileIndexIs(tree', file, i);
      AddingAppends(file, if i < |tree| then tree[i].children else [], parts, className);
    } else {
      FileIndexIs(tree', file, if k < |tree| then k else |tree'|);
    }
  }

  /** The tests of each file, and of each class of it, are those parsed from its node ids, in input
      order: the ids that are listed are the ids that a run reports. */
  lemma {:induction false} TestsAreParsed(nodeIds: seq<string>, file: string, className: Option<string>)
    ensures TestsAt(Built(nodeIds), file, className) == Parsed(nodeIds, file, className)
  {
    if nodeIds != [] {
      TestsAreParsed(nodeIds[..|nodeIds| - 1], file, className);
      InsertingAppends(Built(nodeIds[..|nodeIds| - 1]), nodeIds[|nodeIds| - 1], file, className);
    }
  }

  // ----- nothing lost, nothing invented -----------------------------------------------------------------------

  function Sum(f: TestItem -> multiset<TestId>, items: seq<TestItem>): multiset<TestId> {
    if items == [] then multiset{} else Sum(f, items[..|items| - 1]) + f(items[|items| - 1])
  }

  lemma SumMore(f: TestItem -> multiset<TestId>, items: seq<TestItem>, item: TestItem)
    ensures Sum(f, items + [item]) == Sum(f, items) + f(item)
  {
    assert (items + [item])[..|items|] == items;
  }

  lemma {:induction false} SumUpdate(f: TestItem -> multiset<TestId>, items: seq<TestItem>, i: nat, item: TestItem,
                                     added: multiset<TestId>)
    requires i < |items| && f(item) == f(items[i]) + added
    ensures Sum(f, items[i := item]) == Sum(f, items) + added
  {
    var n := |items| - 1;
    if i < n {
      assert items[i := item][..n] == items[..n][i := item];
      SumUpdate(f, items[..n], i, item, added);
    } else {
      assert items[i := item][..n] == items[..n];
    }
  }

  /** The test leaves at and directly below an item. */
  function ChildTests(item: TestItem): multiset<TestId> {
    if IsTest(item) then multiset{item.id} else multiset(IdsOf(item.children))
  }

  function FileTests(item: TestItem): multiset<TestId> {
    Sum(ChildTests, item.children)
  }

  /** All test leaves of the tree. */
  function AllTests(tree: seq<TestItem>): multiset<TestId> {
    Sum(FileTests, tree)
  }

  function OneTest(parts: seq<string>): multiset<TestId>
    requires parts != []
  {
    if |parts| >= 2 then multiset{FromParts(parts)} else multiset{}
  }

  lemma AddingAddsOne(children: seq<TestItem>, parts: seq<string>)
    requires parts != []
    ensures Sum(ChildTests, AddTest(children, parts)) == Sum(ChildTests, children) + OneTest(parts)
  {
    if |parts| == 2 {
      SumMore(ChildTests, children, TestOf(parts));
    } else if |parts| >= 3 {
      var id := ClassId(parts[0], parts[1]);
      var i := IndexOf(children, id);
      if i == |children| {
        var node := TestItem(id, parts[1], [TestOf(parts)]);
        assert IdsOf(node.children) == [FromParts(parts)];
        SumMore(ChildTests, children, node);
      } else {
        AddedIsLast(children[i].children, TestOf(parts));
        SumUpdate(ChildTests, children, i, WithChild(children[i], TestOf(parts)), OneTest(parts));
      }
    }
  }

  lemma InsertingAddsOne(tree: seq<TestItem>, nodeId: string)
    ensures AllTests(Insert(tree, nodeId)) == AllTests(tree) + OneTest(Split(nodeId))
  {
    var parts := Split(nodeId);
    var i := FileIndex(tree, parts[0]);
    var files := if i == |tree| then tree + [FileItem(parts[0])] else tree;
    if i == |tree| {
      SumMore(FileTests, tree, FileItem(parts[0]));
    }
    AddingAddsOne(files[i].children, parts);
    SumUpdate(FileTests, files, i, files[i].(children := AddTest(files[i].children, parts)), OneTest(parts));
  }

  /** What a run makes of the node ids that name a test. */
  function AllParsed(nodeIds: seq<string>): seq<TestId> {
    if nodeIds == [] then []
    else
      var last := nodeIds[|nodeIds| - 1];
      AllParsed(nodeIds[..|nodeIds| - 1]) + (if |Split(last)| >= 2 then [Parse(last)] else [])
  }

  /** The test leaves of the tree are a permutation of the node ids with at least two segments. */
  lemma {:induction false} LeavesArePermutation(nodeIds: seq<string>)
    ensures AllTests(Built(nodeIds)) == multiset(AllParsed(nodeIds))
  {
    if nodeIds != [] {
      LeavesArePermutation(nodeIds[..|nodeIds| - 1]);
      InsertingAddsOne(Built(nodeIds[..|nodeIds| - 1]), nodeIds[|nodeIds| - 1]);
    }
  }

  predicate HasFile(tree: seq<TestItem>, file: string) {
    FileIndex(tree, file) < |tree|
  }

  predicate Mentioned(nodeIds: seq<string>, file: string) {
    exists i :: 0 <= i < |nodeIds| && Split(nodeIds[i])[0] == file
  }

  lemma InsertingHasFile(tree: seq<TestItem>, nodeId: string, file: string)
    ensures HasFile(Insert(tree, nodeId), file) <==> HasFile(tree, file) || Split(nodeId)[0] == file
  {
    var tree' := Insert(tree, nodeId);
    assert forall j :: 0 <= j < |tree| ==> tree'[j].display == tree[j].display;
    var known := HasFile(tree, file) || Split(nodeId)[0] == file;
    FileIndexIs(tree', file, if known then FileIndex(tree, file) else |tree'|);
  }

  lemma MentionedMore(nodeIds: seq<string>, nodeId: string, file: string)
    ensures Mentioned(nodeIds + [nodeId], file) <==> Mentioned(nodeIds, file) || Split(nodeId)[0] == file
  {
    var all := nodeIds + [nodeId];
    if i :| 0 <= i < |nodeIds| && Split(nodeIds[i])[0] == file {
      assert Split(all[i])[0] == file;
    }
    if Split(nodeId)[0] == file {
      assert Split(all[|nodeIds|])[0] == file;
    }
  }

  /** There is a node for a file exactly when a node id starts with it. */
  lemma {:induction false} FileNodesIff(nodeIds: seq<string>, file: string)
    ensures HasFile(Built(nodeIds), file) <==> Mentioned(nodeIds, file)
  {
    if nodeIds != [] {
      FileNodesIff(nodeIds[..|nodeIds| - 1], file);
      LastNodeIdIff(nodeIds, file);
    }
  }

  lemma LastNodeIdIff(nodeIds: seq<string>, file: string)
    requires nodeIds != []
    ensures var init, last := nodeIds[..|nodeIds| - 1], nodeIds[|nodeIds| - 1];
            && (HasFile(Built(nodeIds), file) <==> HasFile(Built(init), file) || Split(last)[0] == file)
            && (Mentioned(nodeIds, file) <==> Mentioned(init, file) || Split(last)[0] == file)
  {
    var init, last := nodeIds[..|nodeIds| - 1], nodeIds[|nodeIds| - 1];
    InsertingHasFile(Built(init), last, file);
    MentionedMore(init, last, file);
    assert nodeIds == init + [last];
  }

  // ----- the method ---------------------------------------------------------------------------------------------

  /** `_build_tree`; the dictionary of files is its values in order of insertion. */
  method BuildTree(nodeIds: seq<string>) returns (tree: seq<TestItem>)
    ensures tree == Built(nodeIds)
  {
    tree := [];
    for n := 0 to |nodeIds|
      invariant tree == Built(nodeIds[..n])
    {
      assert nodeIds[..n + 1][..n] == nodeIds[..n];
      var parts := Split(nodeIds[n]);
      var i := FindFile(tree, parts[0]);
      if i == |tree| {
        tree := tree + [FileItem(parts[0])];
      }
      var children := AddTestTo(tree[i].children, parts);
      tree := tree[i := tree[i].(children := children)];
    }
    assert nodeIds[..|nodeIds|] == nodeIds;
  }

  /** The part of the loop that adds below the file's node. */
  method AddTestTo(items: seq<TestItem>, parts: seq<string>) returns (children: seq<TestItem>)
    requires parts != []
    ensures children == AddTest(items, parts)
  {
    children := items;
    if |parts| == 2 {
      children := children + [TestOf(parts)];
    } else if |parts| >= 3 {
      var classId := ClassId(parts[0], parts[1]);
      var j := Find(children, classId);
      if j == |children| {
        children := children + [TestItem(classId, parts[1], [])];
      }
      children := children[j := WithChild(children[j], TestOf(parts))];
      assert WithChild(TestItem(classId, parts[1], []), TestOf(parts)) == TestItem(classId, parts[1], [TestOf(parts)]);
      assert j == |items| ==> children == items + [TestItem(classId, parts[1], [TestOf(parts)])];
    }
  }

  method FindFile(tree: seq<TestItem>, file: string) returns (i: nat)
    ensures i == FileIndex(tree, file)
  {
    i := 0;
    while i < |tree| && tree[i].display != file
      invariant i <= |tree| && forall j :: 0 <= j < i ==> tree[j].display != file
    {
      i := i + 1;
    }
    FileIndexIs(tree, file, i);
  }

  method Find(items: seq<TestItem>, id: TestId) returns (i: nat)
    ensures i == IndexOf(items, id)
  {
    i := 0;
    while i < |items| && items[i].id != id
      invariant i <= |items| && forall j :: 0 <= j < i ==> items[j].id != id
    {
      i := i + 1;
    }
    IndexIs(items, id, i);
  }
}
