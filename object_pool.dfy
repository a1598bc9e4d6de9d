// The client's generic ObjectPool<T>: a FIFO queue of released items, a
// creation function used when the queue is empty, and an optional reset
// action applied to each released item.

module Pool {
  import opened Common

  /**
   * What the queue holds after Release(item): a null item is ignored, any
   * other is reset and enqueued. `reset` gives an item's state after the
   * reset action, which is what a pooled class instance holds once the
   * action has changed it in place.
   */
  function ReleasedInto<T>(queue: seq<T>, item: Option<T>, reset: Option<T -> T>): (r: seq<T>)
    ensures item.None? ==> r == queue
    ensures item.Some? ==> |r| == |queue| + 1 && r[..|queue|] == queue
    ensures item.Some? && reset.None? ==> r[|queue|] == item.value
  {
    if item.None? then queue
    else if reset.Some? then queue + [reset.value(item.value)]
    else queue + [item.value]
  }

  /** The items Get returns one after another, `count` times, from a queue that holds at least that many. */
  function Taken<T>(queue: seq<T>, count: nat): seq<T>
    requires count <= |queue|
  {
    if count == 0 then [] else [queue[0]] + Taken(queue[1..], count - 1)
  }

  /** Items come out of the pool in the order they went in. */
  lemma {:induction false} TakenInOrder<T>(queue: seq<T>, count: nat)
    requires count <= |queue|
    ensures Taken(queue, count) == queue[..count]
  {
    if count > 0 {
      TakenInOrder(queue[1..], count - 1);
    }
  }

  /** Releasing items one by one into an empty pool without a reset action, then getting them, gives them back in release order. */
  lemma {:induction false} ReleaseAllThenTake<T>(items: seq<T>)
    ensures ReleasedAll([], items, None) == items
    ensures Taken(ReleasedAll([], items, None), |items|) == items
  {
    ReleasedAllAppends([], items);
    TakenInOrder(items, |items|);
  }

  /** The queue after releasing each of `items` in turn. */
  function ReleasedAll<T>(queue: seq<T>, items: seq<T>, reset: Option<T -> T>): seq<T>
    decreases |items|
  {
    if |items| == 0 then queue else ReleasedAll(ReleasedInto(queue, Some(items[0]), reset), items[1..], reset)
  }

  lemma {:induction false} ReleasedAllAppends<T>(queue: seq<T>, items: seq<T>)
    ensures ReleasedAll(queue, items, None) == queue + items
    decreases |items|
  {
    if |items| > 0 {
      ReleasedAllAppends(queue + [items[0]], items[1..]);
      assert queue + [items[0]] + items[1..] == queue + items;
    }
  }

  class ObjectPool<T> {
    var pool: seq<T>
    /** `_createFunc`: the given creation function, or `() => new T()`. */
    const create: () -> T
    const reset: Option<T -> T>

    /** `newT` stands for the value `new T()` produces. */
    constructor (createFunc: Option<() -> T>, resetAction: Option<T -> T>, newT: T)
      ensures pool == [] && reset == resetAction
      ensures createFunc.Some? ==> create == createFunc.value
      ensures createFunc.None? ==> create() == newT
    {
      pool := [];
      if createFunc.Some? {
        create := createFunc.value;
      } else {
        create := () => newT;
      }
      reset := resetAction;
    }

    function Count(): (n: nat)
      reads this
      ensures n == |pool|
    {
      |pool|
    }

    /** Get: the oldest released item, or a newly created one when the pool is empty. */
    method Get() returns (item: T)
      modifies this
      ensures old(|pool|) > 0 ==> item == old(pool[0]) && pool == old(pool[1..]) && Count() == old(Count()) - 1
      ensures old(|pool|) == 0 ==> item == create() && pool == [] && Count() == 0
    {
      if |pool| > 0 {
        item := pool[0];
        pool := pool[1..];
        return;
      }
      item := create();
    }

    method Release(item: Option<T>)
      modifies this
      ensures pool == ReleasedInto(old(pool), item, reset)
      ensures item.Some? ==> Count() == old(Count()) + 1
      ensures item.None? ==> Count() == old(Count())
    {
      if item.Some? {
        if reset.Some? {
          pool := pool + [reset.value(item.value)];
        } else {
          pool := pool + [item.value];
        }
      }
    }

    method Clear()
      modifies this
      ensures pool == [] && Count() == 0
    {
      pool := [];
    }
  }
}
