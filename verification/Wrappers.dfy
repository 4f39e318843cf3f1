/** Small things the other modules share. */
module Wrappers {
  datatype Option<+T> = None | Some(value: T)

  /**
   Some invariants are long, and a proof that only hands one on should not take it apart. Such an
   invariant holds "for every key looked at"; a proof that needs what is inside asserts Look(0).
   */
  predicate Look(key: int) { true }

  /** Three sequences put together, from the left or from the right. */
  lemma Regroup<T>(x: seq<T>, y: seq<T>, z: seq<T>)
    ensures x + y + z == x + (y + z)
  {
  }
}
