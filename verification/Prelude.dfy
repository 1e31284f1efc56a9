/** Datatypes shared by every module of the model. */
module Prelude {
  datatype Option<+T> = None | Some(value: T)

  datatype Result<+T, +E> = Ok(value: T) | Err(error: E)

  /** True when no element of the sequence occurs twice. */
  ghost predicate NoDuplicates<T>(s: seq<T>) {
    forall i, j :: 0 <= i < j < |s| ==> s[i] != s[j]
  }

  /** There is always an unused number. */
  lemma {:induction false} FreshId(ids: set<nat>) returns (i: nat)
    ensures forall j :: j in ids ==> j < i
    decreases |ids|
  {
    i := 0;
    if ids != {} {
      var j :| j in ids;
      i := FreshId(ids - {j});
      i := if i <= j then j + 1 else i;
      assert forall k :: k in ids ==> k == j || k in ids - {j};
    }
  }
}
