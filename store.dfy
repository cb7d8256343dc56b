/** The failure list as Resque's Redis backend keeps it: one append-only list
    that `save` pushes onto and `each` reads a window of. */
module FailureStore {
  import opened Failures

  /** The list of failures under its fixed key, modelled in memory. */
  class FailureLog {
    /** The stored records, oldest first; a record's index is its id. */
    var items: seq<FailureRecord>

    /** An empty list. */
    constructor ()
      ensures items == []
    {
      items := [];
    }

    /** `Resque.redis.flushall`: every stored failure is dropped. */
    method Flush()
      modifies this
      ensures items == []
    {
      items := [];
    }

    /** `save`: push the record onto the tail of the list. It gets the next
        ordinal, and every earlier record keeps its own. */
    method Save(rec: FailureRecord)
      modifies this
      ensures items == old(items) + [rec]
    {
      items := items + [rec];
    }

    /** `each(offset, limit, nil, nil, order)`, with the block's calls
        collected in the order they happen: one range read of the window,
        then a walk over it that pairs every item with its id, front to back
        for 'asc' and back to front for 'desc'. */
    method Each(offset: nat, limit: nat, order: Order) returns (pairs: seq<Entry>)
      ensures pairs == Failures.Each(items, offset, limit, order)
    {
      var w := Window(|items|, offset, limit);
      var page := items[w.0..w.1];
      var len := |page|;
      pairs := [];
      var i := 0;
      while i < len
        invariant 0 <= i <= len == PageSize(|items|, offset, limit)
        invariant |pairs| == i
        invariant forall k :: 0 <= k < i ==> pairs[k] == Failures.Each(items, offset, limit, order)[k]
      {
        var j := if order == Desc then len - 1 - i else i;
        var id := offset + j;
        if order == Asc {
          EachAscendingAt(items, offset, limit, i);
        } else {
          EachDescendingAt(items, offset, limit, i);
        }
        pairs := pairs + [(id, page[j])];
        i := i + 1;
      }
    }
  }
}
