/** The queue that callbacks fill and the application drains, and the wakers
    that callbacks collect. */
module Queues {
  import opened Wrappers
  import opened Engine

  /** A queue of at most `capacity` items, which counts those it had no room for. */
  class DrainQueue<T> {
    const capacity: nat
    var items: seq<T>
    var dropped: nat

    constructor (capacity: nat)
      requires capacity > 0
      ensures this.capacity == capacity && items == [] && dropped == 0
    {
      this.capacity := capacity;
      items := [];
      dropped := 0;
    }

    /** With room, `item` becomes the last; without, the count goes up. */
    method Push(item: T)
      modifies this
      ensures old(|items|) < capacity ==> items == old(items) + [item] && dropped == old(dropped)
      ensures old(|items|) >= capacity ==> items == old(items) && dropped == old(dropped) + 1
    {
      if |items| < capacity {
        items := items + [item];
      } else {
        dropped := dropped + 1;
      }
    }

    method Pop() returns (item: Option<T>)
      modifies this`items
      ensures old(items) == [] ==> item == None && items == []
      ensures old(items) != [] ==> item == Some(old(items)[0]) && items == old(items)[1..]
    {
      if items == [] {
        item := None;
      } else {
        item := Some(items[0]);
        items := items[1..];
      }
    }
  }

  /** Where one task's waker is parked. */
  class WakerSlot {
    var parked: Option<Task>

    constructor ()
      ensures parked == None
    {
      parked := None;
    }

    /** From now on this waker is the parked one. */
    method Register(waker: Task)
      modifies this
      ensures parked == Some(waker)
    {
      if parked == Some(waker) {
        return;
      }
      parked := Some(waker);
    }

    method Take() returns (waker: Option<Task>)
      modifies this
      ensures waker == old(parked) && parked == None
    {
      waker := parked;
      parked := None;
    }
  }

  /** The wakers callbacks collected for the context to fire. */
  class Wakeups {
    var wakers: seq<Task>

    constructor ()
      ensures wakers == []
    {
      wakers := [];
    }

    method Defer(waker: Task)
      modifies this
      ensures wakers == old(wakers) + [waker]
    {
      wakers := wakers + [waker];
    }

    method TakeAll() returns (taken: seq<Task>)
      modifies this
      ensures taken == old(wakers) && wakers == []
    {
      taken := wakers;
      wakers := [];
    }
  }
}
