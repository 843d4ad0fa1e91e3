/**
 * `Array.from(new Set(xs))`: the distinct elements of a sequence, each kept at
 * the place where it first appears (a JavaScript `Set` iterates in insertion
 * order, and inserting an element already present does not move it).
 */
module Dedup {

  /** No element occurs twice. */
  predicate NoDuplicates<T(==)>(s: seq<T>) {
    forall i, j :: 0 <= i < j < |s| ==> s[i] != s[j]
  }

  /** The position of the first occurrence of `x` in `s`. */
  function FirstIndex<T(==)>(s: seq<T>, x: T): (k: nat)
    requires x in s
    ensures k < |s| && s[k] == x && x !in s[..k]
  {
    if s[0] == x then 0 else 1 + FirstIndex(s[1..], x)
  }

  /** `Array.from(new Set(s))`: insert the elements of `s` one by one. */
  function Unique<T(==)>(s: seq<T>): (r: seq<T>)
    ensures NoDuplicates(r)
    ensures forall i :: 0 <= i < |r| ==> r[i] in s
    ensures forall i :: 0 <= i < |s| ==> s[i] in r
    ensures |r| <= |s|
  {
    if |s| == 0 then []
    else
      var seen := Unique(s[..|s| - 1]);
      if s[|s| - 1] in seen then seen else seen + [s[|s| - 1]]
  }

  /** The first occurrence of an element of a prefix is found within that prefix. */
  lemma FirstIndexInPrefix<T>(s: seq<T>, m: nat, x: T)
    requires m <= |s| && x in s[..m]
    ensures FirstIndex(s, x) == FirstIndex(s[..m], x)
  {
    var k := FirstIndex(s[..m], x);
    assert s[..m][..k] == s[..k];
  }

  /**
   * `Unique(s)` lists the elements in the order of their first appearance in `s`.
   * With `NoDuplicates` and the membership clause of `Unique` this fixes the result.
   */
  lemma {:induction false} UniqueKeepsFirstAppearanceOrder<T>(s: seq<T>, i: nat, j: nat)
    requires i < j < |Unique(s)|
    ensures FirstIndex(s, Unique(s)[i]) < FirstIndex(s, Unique(s)[j])
  {
    var n := |s|;
    var p := s[..n - 1];
    var seen := Unique(p);
    var last := s[n - 1];
    assert Unique(s)[i] in seen;
    FirstIndexInPrefix(s, n - 1, Unique(s)[i]);
    if j < |seen| {
      assert Unique(s)[i] == seen[i] && Unique(s)[j] == seen[j];
      FirstIndexInPrefix(s, n - 1, Unique(s)[j]);
      UniqueKeepsFirstAppearanceOrder(p, i, j);
    } else {
      assert last !in seen && Unique(s)[j] == last;
      assert last !in p;
      assert s[..n - 1] == p;
    }
  }
}
