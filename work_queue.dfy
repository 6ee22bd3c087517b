/** The part of `asyncio.Queue` the crawler relies on: a FIFO of URLs and the count of
    unfinished tasks that `join()` waits on. `put_nowait` adds an item and a task,
    `get` removes an item but leaves its task unfinished, `task_done` finishes one task. */
module WorkQueues {

  class WorkQueue {
    var items: seq<string>
    var unfinished: nat

    constructor ()
      ensures items == [] && unfinished == 0
    {
      items := [];
      unfinished := 0;
    }

    method PutNowait(url: string)
      modifies this
      ensures items == old(items) + [url]
      ensures unfinished == old(unfinished) + 1
    {
      items := items + [url];
      unfinished := unfinished + 1;
    }

    /** `get` suspends the caller until an item is available; a step of the model is
        only taken once it has one. */
    method Get() returns (url: string)
      requires items != []
      modifies this
      ensures url == old(items)[0] && items == old(items)[1..]
      ensures unfinished == old(unfinished)
    {
      url := items[0];
      items := items[1..];
    }

    /** `task_done` raises `ValueError` when called more often than items were put. */
    method TaskDone()
      requires unfinished > 0
      modifies this
      ensures unfinished == old(unfinished) - 1
      ensures items == old(items)
    {
      unfinished := unfinished - 1;
    }

    /** `join()` returns once every task put so far has been marked done. */
    predicate Joined()
      reads this
    {
      unfinished == 0
    }
  }
}
