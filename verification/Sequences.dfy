/** Sequences of sequences, put end to end. */
module Sequences {

  function Flatten<T>(parts: seq<seq<T>>): seq<T> {
    if parts == [] then [] else Flatten(parts[..|parts| - 1]) + parts[|parts| - 1]
  }

  /** The same, read from the front. */
  function Concat<T>(parts: seq<seq<T>>): seq<T> {
    if parts == [] then [] else parts[0] + Concat(parts[1..])
  }

  lemma FlattenMore<T>(parts: seq<seq<T>>, n: nat)
    requires n < |parts|
    ensures Flatten(parts[..n + 1]) == Flatten(parts[..n]) + parts[n]
  {
    assert parts[..n + 1][..n] == parts[..n];
  }

  lemma {:induction false} FlattenSplit<T>(parts: seq<seq<T>>, k: nat)
    requires k <= |parts|
    ensures Flatten(parts) == Flatten(parts[..k]) + Flatten(parts[k..])
  {
    if k == |parts| {
      assert parts[..k] == parts && parts[k..] == [];
    } else {
      var init, last := parts[..|parts| - 1], parts[|parts| - 1];
      FlattenSplit(init, k);
      assert init[..k] == parts[..k] && init[k..] == parts[k..][..|parts| - 1 - k];
      Associative(Flatten(parts[..k]), Flatten(init[k..]), last);
    }
  }

  lemma Associative<T>(a: seq<T>, b: seq<T>, c: seq<T>)
    ensures (a + b) + c == a + (b + c)
  {
  }

  /** Every element of the whole comes from one of the parts. */
  lemma {:induction false} PartOf<T>(parts: seq<seq<T>>, x: T) returns (k: nat)
    requires x in Flatten(parts)
    ensures k < |parts| && x in parts[k]
  {
    k := |parts| - 1;
    if x !in parts[k] {
      k := PartOf(parts[..k], x);
    }
  }

  lemma {:induction false} InFlatten<T>(parts: seq<seq<T>>, k: nat, x: T)
    requires k < |parts| && x in parts[k]
    ensures x in Flatten(parts)
  {
    if k < |parts| - 1 {
      InFlatten(parts[..|parts| - 1], k, x);
    }
  }
}
