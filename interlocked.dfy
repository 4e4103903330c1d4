/**
 * An int cell updated with `Interlocked.Exchange`. The model is sequential:
 * the exchange is one step that stores a value and returns the one it
 * replaced; nothing else changes the cell between steps.
 */
module Interlocked {

  class Flag {
    var value: int
    /** Number of exchanges performed on this cell so far. */
    ghost var exchanges: nat

    constructor (value: int)
      ensures this.value == value && exchanges == 0
    {
      this.value := value;
      exchanges := 0;
    }

    /** `Interlocked.Exchange(ref value, v)`: store `v` and return the previous value. */
    method Exchange(v: int) returns (previous: int)
      modifies this
      ensures previous == old(value) && value == v
      ensures exchanges == old(exchanges) + 1
    {
      previous := value;
      value := v;
      exchanges := exchanges + 1;
    }
  }
}
