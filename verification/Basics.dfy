/** Small definitions that several modules share. */
module Basics {

  datatype Option<+T> = None | Some(value: T)

  ghost predicate Distinct<T>(s: seq<T>) {
    forall i, j :: 0 <= i < j < |s| ==> s[i] != s[j]
  }

  /** There is always a number that is not taken. */
  lemma {:induction false} SomeBound(ids: set<nat>) returns (b: nat)
    ensures forall x :: x in ids ==> x < b
    decreases |ids|
  {
    if ids == {} {
      b := 0;
    } else {
      var y :| y in ids;
      var c := SomeBound(ids - {y});
      b := if c <= y then y + 1 else c;
      assert forall x :: x in ids ==> x == y || x in ids - {y};
    }
  }
}
