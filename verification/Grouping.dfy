/** Two ways of giving files to their projects, by depth and by reverse path order. */
module Grouping {
  import opened Options
  import N = WalNames

  /** A path as its parts, the root first; an ancestor is a prefix. */
  type Path = seq<string>

  /** An item of the resulting dictionary, which keeps the order of insertion. */
  datatype Group = Group(project: Path, files: seq<Path>)

  // ----- the owner of a file ----------------------------------------------------------------------------

  /** The nearest ancestor of a file, the file itself included, that is a project. */
  function Owner(projects: set<Path>, file: Path): Option<Path> {
    if file in projects then Some(file)
    else if file == [] then None
    else Owner(projects, file[..|file| - 1])
  }

  lemma PrefixOfParent(q: Path, file: Path)
    requires file != [] && q != file
    ensures q <= file <==> q <= file[..|file| - 1]
  {
    var parent := file[..|file| - 1];
    if q <= file {
      assert q == file[..|q|];
      assert |q| == |file| ==> q == file;
    }
    if q <= parent {
      assert q == parent[..|q|];
    }
  }

  lemma WholePrefix(p: Path, file: Path)
    requires p <= file && |p| >= |file|
    ensures p == file
  {
  }

  /** The owner is the deepest of the projects that the file is under. */
  lemma {:induction false} OwnerIsDeepest(projects: set<Path>, file: Path, p: Path)
    ensures Owner(projects, file) == Some(p) <==>
            p in projects && p <= file && forall q <- projects :: q <= file ==> |q| <= |p|
  {
    if file in projects {
      assert file <= file;
      if p <= file && |p| >= |file| {
        WholePrefix(p, file);
      }
    } else if file != [] {
      OwnerIsDeepest(projects, file[..|file| - 1], p);
      forall q | q in projects ensures q <= file <==> q <= file[..|file| - 1] {
        PrefixOfParent(q, file);
      }
    } else if p <= file {
      assert p == [];
    }
  }

  lemma {:induction false} NoOwnerIff(projects: set<Path>, file: Path)
    ensures Owner(projects, file) == None <==> forall q <- projects :: !(q <= file)
  {
    if file in projects {
      assert file <= file;
    } else if file != [] {
      NoOwnerIff(projects, file[..|file| - 1]);
      forall q | q in projects ensures q <= file <==> q <= file[..|file| - 1] {
        PrefixOfParent(q, file);
      }
    } else {
      assert forall q <- projects :: q <= file ==> q == file;
    }
  }

  // ----- the groups -------------------------------------------------------------------------------------

  /** `setdefault(project, []).append(file)`. */
  function Add(groups: seq<Group>, project: Path, file: Path): seq<Group> {
    if groups == [] then [Group(project, [file])]
    else if groups[0].project == project then [Group(project, groups[0].files + [file])] + groups[1..]
    else [groups[0]] + Add(groups[1..], project, file)
  }

  function AddOwned(groups: seq<Group>, owner: Option<Path>, file: Path): seq<Group> {
    if owner.Some? then Add(groups, owner.value, file) else groups
  }

  function Grouped(projects: set<Path>, files: seq<Path>): seq<Group> {
    if files == [] then []
    else AddOwned(Grouped(projects, files[..|files| - 1]), Owner(projects, files[|files| - 1]), files[|files| - 1])
  }

  /** The files that the dictionary gives for a project. */
  function FilesIn(groups: seq<Group>, project: Path): seq<Path> {
    if groups == [] then []
    else if groups[0].project == project then groups[0].files
    else FilesIn(groups[1..], project)
  }

  /** The files of a project in input order. */
  function Owned(projects: set<Path>, files: seq<Path>, project: Path): seq<Path> {
    if files == [] then []
    else
      Owned(projects, files[..|files| - 1], project) +
      (if Owner(projects, files[|files| - 1]) == Some(project) then [files[|files| - 1]] else [])
  }

  predicate DistinctGroups(groups: seq<Group>) {
    && (forall i, j :: 0 <= i < j < |groups| ==> groups[i].project != groups[j].project)
    && (forall i :: 0 <= i < |groups| ==> groups[i].files != [])
  }

  predicate HasGroup(groups: seq<Group>, project: Path) {
    exists i :: 0 <= i < |groups| && groups[i].project == project
  }

  lemma {:induction false} AddingNames(groups: seq<Group>, project: Path, file: Path, i: nat)
    requires i < |Add(groups, project, file)|
    ensures Add(groups, project, file)[i].project == project || HasGroup(groups, Add(groups, project, file)[i].project)
  {
    if groups != [] && groups[0].project != project && i > 0 {
      AddingNames(groups[1..], project, file, i - 1);
      var p := Add(groups, project, file)[i].project;
      if p != project {
        var k :| 0 <= k < |groups[1..]| && groups[1..][k].project == p;
        assert groups[k + 1].project == p;
      }
    }
  }

  lemma {:induction false} AddingKeepsDistinct(groups: seq<Group>, project: Path, file: Path)
    requires DistinctGroups(groups)
    ensures DistinctGroups(Add(groups, project, file))
  {
    if groups != [] && groups[0].project != project {
      AddingKeepsDistinct(groups[1..], project, file);
      var rest := Add(groups[1..], project, file);
      forall i | 0 <= i < |rest| ensures rest[i].project != groups[0].project {
        AddingNames(groups[1..], project, file, i);
      }
    }
  }

  lemma {:induction false} AddingAppends(groups: seq<Group>, project: Path, file: Path, p: Path)
    ensures FilesIn(Add(groups, project, file), p) == FilesIn(groups, p) + (if p == project then [file] else [])
  {
    if groups != [] && groups[0].project != project {
      AddingAppends(groups[1..], project, file, p);
    }
  }

  /** Every file goes once, in input order, to its deepest ancestor project; files under no project go
      nowhere; and no group is empty or comes twice. */
  lemma {:induction false} GroupsAreOwned(projects: set<Path>, files: seq<Path>, project: Path)
    ensures FilesIn(Grouped(projects, files), project) == Owned(projects, files, project)
    ensures DistinctGroups(Grouped(projects, files))
  {
    if files != [] {
      var init, last := files[..|files| - 1], files[|files| - 1];
      GroupsAreOwned(projects, init, project);
      var owner := Owner(projects, last);
      if owner.Some? {
        AddingKeepsDistinct(Grouped(projects, init), owner.value, last);
        AddingAppends(Grouped(projects, init), owner.value, last, project);
      }
    }
  }

  // ----- the two orders -----------------------------------------------------------------------------------

  /** The order of paths, part by part. */
  predicate PathLess(a: Path, b: Path) {
    b != [] && (a == [] || N.Less(a[0], b[0]) || (a[0] == b[0] && PathLess(a[1..], b[1..])))
  }

  predicate Deeper(a: Path, b: Path) {
    |a| >= |b|
  }

  predicate PathAfter(a: Path, b: Path) {
    !PathLess(a, b)
  }

  lemma {:induction false} PathLessTotal(a: Path, b: Path)
    ensures !PathLess(a, b) || !PathLess(b, a)
    ensures a != b ==> PathLess(a, b) || PathLess(b, a)
  {
    if a != [] && b != [] {
      N.LessTotal(a[0], b[0]);
      if a[0] == b[0] {
        N.LessSelf(a[0]);
        PathLessTotal(a[1..], b[1..]);
        assert a == [a[0]] + a[1..] && b == [b[0]] + b[1..];
      } else if N.Less(a[0], b[0]) {
        N.LessAsymmetric(a[0], b[0]);
      } else {
        N.LessAsymmetric(b[0], a[0]);
      }
    }
  }

  lemma {:induction false} PathLessTransitive(a: Path, b: Path, c: Path)
    requires PathLess(a, b) && PathLess(b, c)
    ensures PathLess(a, c)
  {
    if a != [] {
      if a[0] == b[0] == c[0] {
        N.LessSelf(a[0]);
        PathLessTransitive(a[1..], b[1..], c[1..]);
      } else if N.Less(a[0], b[0]) && N.Less(b[0], c[0]) {
        N.LessTransitive(a[0], b[0], c[0]);
      }
    }
  }

  lemma {:induction false} AncestorIsLess(a: Path, b: Path)
    requires a < b
    ensures PathLess(a, b)
  {
    if a != [] {
      AncestorIsLess(a[1..], b[1..]);
    }
  }

  ghost predicate TotalOrder(before: (Path, Path) -> bool) {
    && (forall a, b :: before(a, b) || before(b, a))
    && (forall a, b, c :: before(a, b) && before(b, c) ==> before(a, c))
  }

  /** The order puts no project after an ancestor of it. */
  ghost predicate ChildrenFirst(before: (Path, Path) -> bool) {
    forall a, b :: a < b ==> !before(a, b)
  }

  lemma DepthOrder()
    ensures TotalOrder(Deeper) && ChildrenFirst(Deeper)
  {
  }

  lemma PathOrder()
    ensures TotalOrder(PathAfter) && ChildrenFirst(PathAfter)
  {
    forall a, b ensures PathAfter(a, b) || PathAfter(b, a) {
      PathLessTotal(a, b);
    }
    forall a, b, c | PathAfter(a, b) && PathAfter(b, c) ensures PathAfter(a, c) {
      PathLessTotal(a, b);
      PathLessTotal(b, c);
      PathLessTotal(a, c);
      if PathLess(a, c) && a != b && b != c {
        PathLessTransitive(b, a, c);
      }
    }
    forall a, b | a < b ensures !PathAfter(a, b) {
      AncestorIsLess(a, b);
    }
  }

  predicate SortedBy(before: (Path, Path) -> bool, paths: seq<Path>) {
    forall i, j :: 0 <= i < j < |paths| ==> before(paths[i], paths[j])
  }

  lemma InsertingSorts(before: (Path, Path) -> bool, r: seq<Path>, p: Path, i: nat)
    requires TotalOrder(before) && SortedBy(before, r) && i <= |r|
    requires i > 0 ==> before(r[i - 1], p)
    requires forall j :: i <= j < |r| ==> !before(r[j], p)
    ensures SortedBy(before, r[..i] + [p] + r[i..])
  {
    var r' := r[..i] + [p] + r[i..];
    forall j | 0 <= j < i ensures before(r[j], p) {
      assert j < i - 1 ==> before(r[j], r[i - 1]);
    }
    forall j, k | 0 <= j < k < |r'| ensures before(r'[j], r'[k]) {
      var x, y := if j < i then j else j - 1, if k < i then k else k - 1;
      assert j != i ==> r'[j] == r[x];
      assert k != i ==> r'[k] == r[y];
    }
  }

  lemma InsertingKeepsAll<T>(r: seq<T>, p: T, i: nat)
    requires i <= |r|
    ensures multiset(r[..i] + [p] + r[i..]) == multiset(r) + multiset{p}
  {
    assert r == r[..i] + r[i..];
  }

  /** `sorted`: insert each path after those that may stay before it. */
  method Sort(before: (Path, Path) -> bool, paths: seq<Path>) returns (r: seq<Path>)
    requires TotalOrder(before)
    ensures SortedBy(before, r) && multiset(r) == multiset(paths)
  {
    r := [];
    for n := 0 to |paths|
      invariant SortedBy(before, r) && multiset(r) == multiset(paths[..n])
    {
      var p, i := paths[n], |r|;
      while i > 0 && !before(r[i - 1], p)
        invariant 0 <= i <= |r|
        invariant forall j :: i <= j < |r| ==> !before(r[j], p)
      {
        i := i - 1;
      }
      InsertingSorts(before, r, p, i);
      InsertingKeepsAll(r, p, i);
      r := r[..i] + [p] + r[i..];
      assert paths[..n + 1] == paths[..n] + [p];
    }
    assert paths[..|paths|] == paths;
  }

  /** In such an order, the first project that a file is under is the deepest. */
  lemma FirstIsOwner(before: (Path, Path) -> bool, sorted: seq<Path>, projects: set<Path>, file: Path, i: nat)
    requires ChildrenFirst(before) && SortedBy(before, sorted) && forall p :: p in projects <==> p in sorted
    requires i < |sorted| && sorted[i] <= file && forall j :: 0 <= j < i ==> !(sorted[j] <= file)
    ensures Owner(projects, file) == Some(sorted[i])
  {
    forall q | q in projects && q <= file ensures |q| <= |sorted[i]| {
      var j :| 0 <= j < |sorted| && sorted[j] == q;
      if |q| > |sorted[i]| {
        PrefixesNest(sorted[i], q, file);
      }
    }
    OwnerIsDeepest(projects, file, sorted[i]);
  }

  lemma PrefixesNest(a: Path, b: Path, file: Path)
    requires a <= file && b <= file && |a| < |b|
    ensures a < b
  {
    assert a == file[..|a|] && b == file[..|b|];
  }

  /** The loop over sorted projects, with any order that has children first. */
  method GroupInOrder(before: (Path, Path) -> bool, sorted: seq<Path>, files: seq<Path>, ghost projects: set<Path>)
    returns (result: seq<Group>)
    requires ChildrenFirst(before) && SortedBy(before, sorted) && forall p :: p in projects <==> p in sorted
    ensures result == Grouped(projects, files)
  {
    result := [];
    for n := 0 to |files|
      invariant result == Grouped(projects, files[..n])
    {
      assert files[..n + 1][..n] == files[..n];
      var file, matched := files[n], false;
      for i := 0 to |sorted|
        invariant !matched && result == Grouped(projects, files[..n])
        invariant forall j :: 0 <= j < i ==> !(sorted[j] <= file)
      {
        if sorted[i] <= file {
          FirstIsOwner(before, sorted, projects, file, i);
          result := Add(result, sorted[i], file);
          matched := true;
          break;
        }
      }
      if !matched {
        NoOwnerIff(projects, file);
      }
    }
    assert files[..|files|] == files;
  }

  /** `group_files_by_project` of the workspace: by depth. */
  method GroupFilesByProject(files: seq<Path>, projectPaths: seq<Path>) returns (result: seq<Group>)
    ensures result == Grouped((set p | p in projectPaths), files)
  {
    DepthOrder();
    var sorted := Sort(Deeper, projectPaths);
    assert forall p :: p in projectPaths <==> p in multiset(projectPaths);
    assert forall p :: p in sorted <==> p in multiset(sorted);
    result := GroupInOrder(Deeper, sorted, files, (set p | p in projectPaths));
  }

  /** `group_files_by_projects` of the mypy handler: by reverse path order. */
  method GroupFilesByProjects(files: seq<Path>, projectDirs: seq<Path>) returns (result: seq<Group>)
    ensures result == Grouped((set p | p in projectDirs), files)
  {
    PathOrder();
    var sorted := Sort(PathAfter, projectDirs);
    assert forall p :: p in projectDirs <==> p in multiset(projectDirs);
    assert forall p :: p in sorted <==> p in multiset(sorted);
    result := GroupInOrder(PathAfter, sorted, files, (set p | p in projectDirs));
  }
}
