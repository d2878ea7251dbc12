/** What several models share. */
module Basics {
  datatype Option<T> = None | Some(value: T)

  // A value of eight bits.
  type Byte = b: int | 0 <= b < 256

  // No element occurs twice.
  predicate Distinct<T(==)>(s: seq<T>) {
    forall i, j :: 0 <= i < j < |s| ==> s[i] != s[j]
  }

  // The two parts of a sequence make it up again.
  lemma {:induction false} TakeDrop<T>(s: seq<T>, k: nat)
    requires k <= |s|
    ensures s[..k] + s[k..] == s
  {}

  lemma {:induction false} InitLast<T>(s: seq<T>)
    requires s != []
    ensures s[..|s| - 1] + [s[|s| - 1]] == s
  {}
}
