/** What several modules share. */
module Basics {
  datatype Option<+T> = None | Some(value: T)

  /** malloc always has an address to return. */
  lemma {:induction false} FreshAddress(used: set<int>) returns (x: int)
    ensures forall y: int :: y in used ==> y < x
  {
    if forall y: int :: y !in used {
      x := 0;
    } else {
      var y: int :| y in used;
      x := FreshAddress(used - {y});
      if x <= y { x := y + 1; }
      assert forall z: int :: z in used ==> z == y || z in used - {y};
    }
  }
}
