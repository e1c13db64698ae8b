/** The in-memory frontier: a FIFO queue with an exact seen-set (crawler/frontier/memory.py). */
module Frontier {

  /** A normalised URL. `domain` is its registered domain, which the URL library derives from `text`. */
  datatype Url = Url(domain: string, text: string)

  datatype Item = Item(url: Url, depth: nat)

  /** The value of a frontier; `unfinished` is the counter that `Queue.join` waits on. */
  datatype Queue = Queue(items: seq<Item>, seen: set<Url>, unfinished: int)

  const EMPTY := Queue([], {}, 0)

  function Put(q: Queue, item: Item): Queue {
    if item.url in q.seen then q
    else Queue(q.items + [item], q.seen + {item.url}, q.unfinished + 1)
  }

  class MemoryFrontier {
    var items: seq<Item>
    var seen: set<Url>
    var unfinished: int

    function View(): Queue
      reads this
    {
      Queue(items, seen, unfinished)
    }

    constructor ()
      ensures View() == EMPTY
    {
      items, seen, unfinished := [], {}, 0;
    }

    method Add(item: Item) returns (added: bool)
      modifies this
      ensures added == (item.url !in old(seen))
      ensures View() == Put(old(View()), item)
    {
      if item.url in seen {
        return false;
      }
      seen := seen + {item.url};
      items := items + [item];
      unfinished := unfinished + 1;
      return true;
    }

    /** The caller of the source suspends until the queue is non-empty. */
    method Get() returns (item: Item)
      requires items != []
      modifies this`items
      ensures [item] + items == old(items)
    {
      item := items[0];
      items := items[1..];
    }

    /** `asyncio.Queue.task_done` raises when it is called too many times. */
    method TaskDone()
      requires unfinished > 0
      modifies this`unfinished
      ensures unfinished == old(unfinished) - 1
    {
      unfinished := unfinished - 1;
    }
  }
}
