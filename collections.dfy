/** The caller-owned `List<T>` that a bulk drain appends to. */
module Collections {

  class List<T> {
    var items: seq<T>

    constructor ()
      ensures items == []
    {
      items := [];
    }

    /** `List<T>.Add`: append at the end. */
    method Add(x: T)
      modifies this
      ensures items == old(items) + [x]
    {
      items := items + [x];
    }
  }
}
