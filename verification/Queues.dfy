/** The queue between the response handler and a channel's worker (src/Queue.cpp). */
module Queues {
  import opened Wrappers

  class FileQueue<T> {
    var items: seq<T>
    /** Everything ever added; what is not in items was handed out, in this order. */
    ghost var added: seq<T>

    ghost predicate Valid()
      reads this
    {
      |items| <= |added| && items == added[|added| - |items|..]
    }

    constructor ()
      ensures Valid() && items == [] && added == []
    {
      items, added := [], [];
    }

    /** A missing item is ignored. */
    method AddItem(item: Option<T>)
      requires Valid()
      modifies this
      ensures Valid() && (item.None? ==> items == old(items) && added == old(added))
      ensures item.Some? ==> items == old(items) + [item.value] && added == old(added) + [item.value]
    {
      if item.Some? {
        items, added := items + [item.value], added + [item.value];
      }
    }

    /** Waits until there is an item, so it runs on a queue that has one. */
    method GetItem() returns (item: T)
      requires Valid() && items != []
      modifies `items
      ensures Valid() && old(items) == [item] + items
      ensures item == added[|added| - |old(items)|]
    {
      item := items[0];
      items := items[1..];
    }
  }
}
