/** Shared value types. */
module Common {

  datatype Option<+T> = None | Some(value: T)

  datatype Result<+T, +E> = Ok(value: T) | Err(error: E)

  type UserId = nat

  lemma Subset<T>(a: set<T>, b: set<T>)
    requires a <= b
    ensures |a| <= |b| && (|a| == |b| ==> a == b)
  {
    assert b == a + (b - a);
  }

  /** Ids are never exhausted. */
  lemma {:induction false} LargerThanAll(used: set<nat>) returns (q: nat)
    ensures forall x | x in used :: x < q
    decreases |used|
  {
    if used == {} {
      q := 0;
    } else {
      var x :| x in used;
      var p := LargerThanAll(used - {x});
      q := if p > x then p else x + 1;
      assert used == (used - {x}) + {x};
    }
  }
}
