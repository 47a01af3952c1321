/**
 What several parts say of sequences.
 */
module Sequences {

  /** No element is there twice. */
  predicate Distinct<T(==)>(s: seq<T>) {
    forall i, j :: 0 <= i < j < |s| ==> s[i] != s[j]
  }

  /** How much a fact counts. */
  function One(b: bool): nat {
    if b then 1 else 0
  }
}
