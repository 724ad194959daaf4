/** Which packages of the workspace are reachable along the dependencies of local packages. */
module Worklist {

  type Name = string

  datatype Package = Package(dir: string, deps: seq<Name>)

  type Packages = map<Name, Package>

  /** A chain of dependencies: every package but the last is local and names the next. */
  predicate IsChain(packages: Packages, chain: seq<Name>) {
    chain != [] && forall i :: 0 <= i < |chain| - 1 ==>
      chain[i] in packages && chain[i + 1] in packages[chain[i]].deps
  }

  predicate Connects(packages: Packages, roots: seq<Name>, chain: seq<Name>, name: Name) {
    IsChain(packages, chain) && chain[0] in roots && chain[|chain| - 1] == name
  }

  ghost predicate Reachable(packages: Packages, roots: seq<Name>, name: Name) {
    exists chain :: Connects(packages, roots, chain, name)
  }

  lemma RootsAreReachable(packages: Packages, roots: seq<Name>, name: Name)
    requires name in roots
    ensures Reachable(packages, roots, name)
  {
    assert Connects(packages, roots, [name], name);
  }

  lemma DepsAreReachable(packages: Packages, roots: seq<Name>, name: Name, dep: Name)
    requires Reachable(packages, roots, name) && name in packages && dep in packages[name].deps
    ensures Reachable(packages, roots, dep)
  {
    var chain :| Connects(packages, roots, chain, name);
    assert Connects(packages, roots, chain + [dep], dep);
  }

  /** A set that has the roots and the dependencies of its local members has everything reachable. */
  lemma {:induction false} ClosedSetHasAll(packages: Packages, roots: seq<Name>, closed: set<Name>, chain: seq<Name>)
    requires forall r <- roots :: r in closed
    requires forall n <- closed :: n in packages ==> forall d <- packages[n].deps :: d in closed
    requires IsChain(packages, chain) && chain[0] in roots
    ensures chain[|chain| - 1] in closed
  {
    if |chain| > 1 {
      var init := chain[..|chain| - 1];
      ClosedSetHasAll(packages, roots, closed, init);
      assert init[|init| - 1] == chain[|chain| - 2];
    }
  }

  /** All names there are: the bound that makes the loop end, on cycles too. */
  ghost function Mentioned(packages: Packages, roots: seq<Name>): set<Name> {
    (set n | n in roots) + (set n, d | n in packages && d in packages[n].deps :: d)
  }

  method ResolveWorkspacePackages(packages: Packages, roots: seq<Name>) returns (result: map<Name, string>)
    ensures forall name :: name in result <==> name in packages && Reachable(packages, roots, name)
    ensures forall name <- result :: result[name] == packages[name].dir
  {
    var visited: set<Name> := {};
    var queue := roots;
    forall n | n in roots ensures Reachable(packages, roots, n) {
      RootsAreReachable(packages, roots, n);
    }
    while queue != []
      invariant forall n <- queue :: n in Mentioned(packages, roots) && Reachable(packages, roots, n)
      invariant forall n <- visited :: Reachable(packages, roots, n)
      invariant forall r <- roots :: r in visited || r in queue
      invariant forall n <- visited :: n in packages ==> forall d <- packages[n].deps :: d in visited || d in queue
      decreases Mentioned(packages, roots) - visited, |queue|
    {
      var name, rest := queue[|queue| - 1], queue[..|queue| - 1];
      assert forall n :: n in queue <==> n in rest || n == name;
      queue := rest;
      if name in visited {
        continue;
      }
      visited := visited + {name};
      if name !in packages {
        continue;
      }
      var unseen := NotIn(packages[name].deps, visited);
      forall d | d in unseen ensures d in Mentioned(packages, roots) && Reachable(packages, roots, d) {
        DepsAreReachable(packages, roots, name, d);
      }
      queue := queue + unseen;
    }
    forall n | Reachable(packages, roots, n) ensures n in visited {
      var chain :| Connects(packages, roots, chain, n);
      ClosedSetHasAll(packages, roots, visited, chain);
    }
    result := map n | n in visited && n in packages :: packages[n].dir;
  }

  method NotIn(deps: seq<Name>, visited: set<Name>) returns (unseen: seq<Name>)
    ensures forall d :: d in unseen <==> d in deps && d !in visited
  {
    unseen := [];
    for i := 0 to |deps|
      invariant forall d :: d in unseen <==> d in deps[..i] && d !in visited
    {
      assert deps[..i + 1] == deps[..i] + [deps[i]];
      if deps[i] !in visited {
        unseen := unseen + [deps[i]];
      }
    }
    assert deps[..|deps|] == deps;
  }
}
